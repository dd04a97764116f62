/** Tunnel files under the one-file discipline: while a file is being released
    no other call runs on the tunnel, so no reader is there to be stranded. */
module TunnelFiles {
  import opened Common
  import opened TunnelThreads
  import opened TunnelWake

  ghost predicate Files(s: State) {
    && (forall t :: 0 <= t < |s.pcs| && FileOf(s.pcs[t]).Some? ==>
          FileOf(s.pcs[t]).value in s.open
          && (s.pcs[t].Releasing? <==> FileOf(s.pcs[t]).value in s.closing))
    && (forall t, u :: 0 <= t < |s.pcs| && 0 <= u < |s.pcs| ==>
          s.pcs[t].Releasing? && s.pcs[u].Releasing? ==> t == u)
    && s.closing <= s.open
    && (forall f, g :: f in s.open && g in s.open ==> f == g)
    && (s.closing != {} ==> s.owned.Keys <= s.lapsed)
  }

  /** A kernel step other than the last of a release stays on its file, and only
      a delivery returning touches what ids the client holds. */
  predicate SameFile(s: State, t: nat, r: State) {
    && t < |s.pcs| == |r.pcs|
    && r.pcs == s.pcs[t := r.pcs[t]]
    && r.open == s.open && r.closing == s.closing
    && (r.pcs[t].Idle?
        || (FileOf(r.pcs[t]) == FileOf(s.pcs[t]) && (r.pcs[t].Releasing? <==> s.pcs[t].Releasing?)))
    && ((r.owned == s.owned && r.lapsed == s.lapsed) || s.pcs[t].Delivering?)
  }

  lemma MrSameFile(s: State, t: nat, d: Dir, m: MrPc)
    requires t < |s.pcs| && s.pcs[t] == Submitting(d, m) && KernelEnabled(s, t, true)
    ensures SameFile(s, t, MrStep(s, t, d, m))
  {
  }

  lemma RdSameFile(s: State, t: nat, f: nat, m: RdPc, c: bool)
    requires t < |s.pcs| && s.pcs[t] == Reading(f, m) && KernelEnabled(s, t, c)
    ensures SameFile(s, t, RdStep(s, t, f, m, c))
  {
  }

  lemma DlSameFile(s: State, t: nat, f: nat, m: DlPc)
    requires t < |s.pcs| && s.pcs[t] == Delivering(f, m) && KernelEnabled(s, t, true)
    ensures SameFile(s, t, DlStep(s, t, f, m))
  {
  }

  lemma SetSameFile(s: State, t: nat, f: nat, m: SetPc)
    requires t < |s.pcs| && s.pcs[t] == Setting(f, m) && KernelEnabled(s, t, true)
    ensures SameFile(s, t, SetStep(s, t, f, m))
  {
  }

  lemma FtSameFile(s: State, t: nat, f: nat, e: bool, m: FtPc)
    requires t < |s.pcs| && s.pcs[t] == Fetching(f, e, m) && KernelEnabled(s, t, true)
    ensures SameFile(s, t, FtStep(s, t, f, e, m))
  {
  }

  lemma EnSameFile(s: State, t: nat, f: nat, m: EnPc)
    requires t < |s.pcs| && s.pcs[t] == Ending(f, m) && KernelEnabled(s, t, true)
    ensures SameFile(s, t, EnStep(s, t, f, m))
  {
  }

  lemma UseSameFile(s: State, t: nat, f: nat, e: nat, c: bool)
    requires t < |s.pcs| && s.pcs[t] == Using(f, e) && KernelEnabled(s, t, c)
    ensures SameFile(s, t, UseStep(s, t, c))
  {
  }

  lemma PlSameFile(s: State, t: nat, f: nat, m: PlPc)
    requires t < |s.pcs| && s.pcs[t] == Polling(f, m) && KernelEnabled(s, t, true)
    ensures SameFile(s, t, PlStep(s, t, f, m))
  {
  }

  lemma RlSameFile(s: State, t: nat, f: nat, m: RlPc)
    requires t < |s.pcs| && s.pcs[t] == Releasing(f, m) && KernelEnabled(s, t, true) && !m.RlUnlock?
    ensures SameFile(s, t, RlStep(s, t, f, m))
  {
  }

  lemma SameFileKeeps(s: State, t: nat, r: State)
    requires Files(s) && SameFile(s, t, r)
    ensures Files(r)
  {
    if s.pcs[t].Delivering? {
      var g := FileOf(s.pcs[t]).value;
      assert g in s.open && g !in s.closing;
      assert forall f :: f in s.closing ==> f == g;
      assert s.closing == {};
    }
  }

  /** With one tunnel file, no reader is in a call while a release runs. */
  lemma ReleaseIsAlone(s: State, t: nat, u: nat)
    requires Files(s) && t < |s.pcs| && u < |s.pcs|
    requires s.pcs[t].Releasing? && FileOf(s.pcs[u]).Some?
    ensures u == t
  {
    var f := FileOf(s.pcs[t]).value;
    assert f in s.open && f in s.closing;
    assert FileOf(s.pcs[u]).value == f;
  }

  lemma RlUnlockKeepsFiles(s: State, t: nat, f: nat)
    requires t < |s.pcs| && s.pcs[t] == Releasing(f, RlUnlock) && Files(s)
    ensures Files(RlStep(s, t, f, RlUnlock))
  {
    var r := RlStep(s, t, f, RlUnlock);
    forall u | 0 <= u < |r.pcs| ensures FileOf(r.pcs[u]).None? {
      if u != t && FileOf(s.pcs[u]).Some? {
        ReleaseIsAlone(s, t, u);
      }
    }
  }

  lemma CallKeepsFiles(s: State, t: nat, ev: Ev)
    requires t < |s.pcs| && CallEnabled(s, t, ev) && OneFile(s, ev) && Files(s)
    ensures Files(Call(s, t, ev))
  {
    var r := Call(s, t, ev);
    assert |r.pcs| == |s.pcs|;
    assert forall u :: 0 <= u < |s.pcs| && u != t ==> r.pcs[u] == s.pcs[u];
    match ev
    case CallComplete(f) => assert s.closing != {} ==> exists g :: g in s.closing && g == f;
    case _ =>
  }

  lemma FilesStep(s: State, t: nat, ev: Ev)
    requires Files(s) && Enabled(s, t, ev) && OneFile(s, ev)
    ensures Files(Next(s, t, ev))
  {
    if ev.Go? {
      match s.pcs[t]
      case Submitting(d, m) => MrSameFile(s, t, d, m); SameFileKeeps(s, t, MrStep(s, t, d, m));
      case Reading(f, m) => RdSameFile(s, t, f, m, ev.choice); SameFileKeeps(s, t, RdStep(s, t, f, m, ev.choice));
      case Delivering(f, m) => DlSameFile(s, t, f, m); SameFileKeeps(s, t, DlStep(s, t, f, m));
      case Setting(f, m) => SetSameFile(s, t, f, m); SameFileKeeps(s, t, SetStep(s, t, f, m));
      case Fetching(f, e, m) => FtSameFile(s, t, f, e, m); SameFileKeeps(s, t, FtStep(s, t, f, e, m));
      case Ending(f, m) => EnSameFile(s, t, f, m); SameFileKeeps(s, t, EnStep(s, t, f, m));
      case Using(f, e) => UseSameFile(s, t, f, e, ev.choice); SameFileKeeps(s, t, UseStep(s, t, ev.choice));
      case Polling(f, m) => PlSameFile(s, t, f, m); SameFileKeeps(s, t, PlStep(s, t, f, m));
      case Releasing(f, m) =>
        if m.RlUnlock? {
          RlUnlockKeepsFiles(s, t, f);
        } else {
          RlSameFile(s, t, f, m); SameFileKeeps(s, t, RlStep(s, t, f, m));
        }
    } else {
      CallKeepsFiles(s, t, ev);
    }
  }

  lemma {:induction false} FilesAlways(n: nat, run: Schedule)
    requires Feasible(Start(n), run) && SingleFile(Start(n), run)
    ensures Files(After(Start(n), run))
  {
    if run == [] {
    } else {
      var front, last := run[..|run| - 1], run[|run| - 1];
      FilesAlways(n, front);
      FilesStep(After(Start(n), front), last.0, last.1);
    }
  }

  /** No wake-up is lost in any run with one tunnel file at a time: whenever a reader sleeps, or is
      about to, beside a non-empty incoming list, some submitter has queued its
      entry and has yet to call wake_up. */
  lemma {:induction false} NoWakeupIsLost(n: nat, run: Schedule)
    requires Feasible(Start(n), run) && SingleFile(Start(n), run)
    ensures NoLostWakeup(After(Start(n), run))
  {
    if run == [] {
    } else {
      var front, last := run[..|run| - 1], run[|run| - 1];
      var s := After(Start(n), front);
      NoWakeupIsLost(n, front);
      FilesAlways(n, front);
      WakeStep(s, last.0, last.1);
      if Strands(s, last.0, last.1) {
        var u :| 0 <= u < |s.pcs| && Committed(s, u);
        ReleaseIsAlone(s, last.0, u);
        assert false;
      }
    }
  }
}
