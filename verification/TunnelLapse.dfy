/** Ids across a close.  The driver checks no id and a close resets no cursor, so a client
    may go on with an id it was handed before.  Here is where such an id stands, and
    that using it is safe exactly when its bio has been delivered since the close. */
module TunnelLapse {
  import opened Common
  import opened TunnelThreads
  import opened TunnelLocks
  import opened TunnelIdentity
  import opened TunnelIdentitySteps

  // ---- Where a lapsed id stands --------------------------------------------------------------

  /** Releasing, and yet to splice. */
  predicate Splicing(pc: Pc) {
    pc.Releasing? && (pc.rl.RlLock? || pc.rl.RlLockPe? || pc.rl.RlSplice?)
  }

  /** Delivering a, moved and not yet returned. */
  predicate HandsOver(pc: Pc, a: nat) {
    pc.Delivering? && (pc.dl.DlUnlockPe? || pc.dl.DlUnlock?) && pc.dl.a == a
  }

  predicate Pends(s: State, a: nat) {
    a in s.heap && s.heap[a].place.OnPending?
  }

  ghost predicate Excused(s: State, a: nat) {
    exists t :: 0 <= t < |s.pcs| && (Splicing(s.pcs[t]) || HandsOver(s.pcs[t], a))
  }

  /** A lapsed id is pending only before the splice of the close it lapsed in, and while a
      header read is handing it out again. */
  ghost predicate Stale(s: State) {
    forall a :: a in s.lapsed && Pends(s, a) ==> Excused(s, a)
  }

  /** A step that lapses no id, moves none to pending, and takes no excuse away. */
  ghost predicate Settled(s: State, t: nat, r: State) {
    && t < |s.pcs| == |r.pcs| && r.pcs == s.pcs[t := r.pcs[t]]
    && (forall a :: a in r.lapsed && Pends(r, a) ==> a in s.lapsed && Pends(s, a))
    && (Splicing(s.pcs[t]) ==> Splicing(r.pcs[t]))
    && (forall a :: a in r.lapsed && HandsOver(s.pcs[t], a) ==> HandsOver(r.pcs[t], a))
  }

  lemma SettledKeeps(s: State, t: nat, r: State)
    requires Stale(s) && Settled(s, t, r)
    ensures Stale(r)
  {
    forall a | a in r.lapsed && Pends(r, a) ensures Excused(r, a) {
      assert Excused(s, a);
      var u :| 0 <= u < |s.pcs| && (Splicing(s.pcs[u]) || HandsOver(s.pcs[u], a));
      assert Splicing(r.pcs[u]) || HandsOver(r.pcs[u], a);
    }
  }

  lemma MrSettled(s: State, t: nat, d: Dir, m: MrPc)
    requires t < |s.pcs| && s.pcs[t] == Submitting(d, m) && KernelEnabled(s, t, true)
    ensures Settled(s, t, MrStep(s, t, d, m))
  {
  }

  lemma RdSettled(s: State, t: nat, f: nat, m: RdPc, c: bool)
    requires t < |s.pcs| && s.pcs[t] == Reading(f, m) && KernelEnabled(s, t, c)
    ensures Settled(s, t, RdStep(s, t, f, m, c))
  {
  }

  lemma DlSettled(s: State, t: nat, f: nat, m: DlPc)
    requires t < |s.pcs| && s.pcs[t] == Delivering(f, m) && KernelEnabled(s, t, true) && !m.DlMove?
    ensures Settled(s, t, DlStep(s, t, f, m))
  {
  }

  lemma SetSettled(s: State, t: nat, f: nat, m: SetPc)
    requires t < |s.pcs| && s.pcs[t] == Setting(f, m) && KernelEnabled(s, t, true)
    ensures Settled(s, t, SetStep(s, t, f, m))
  {
  }

  lemma FtSettled(s: State, t: nat, f: nat, e: bool, m: FtPc)
    requires t < |s.pcs| && s.pcs[t] == Fetching(f, e, m) && KernelEnabled(s, t, true)
    ensures Settled(s, t, FtStep(s, t, f, e, m))
  {
  }

  lemma EnSettled(s: State, t: nat, f: nat, m: EnPc)
    requires t < |s.pcs| && s.pcs[t] == Ending(f, m) && KernelEnabled(s, t, true)
    ensures Settled(s, t, EnStep(s, t, f, m))
  {
  }

  lemma UseSettled(s: State, t: nat, f: nat, e: nat, c: bool)
    requires t < |s.pcs| && s.pcs[t] == Using(f, e) && KernelEnabled(s, t, c)
    ensures Settled(s, t, UseStep(s, t, c))
  {
  }

  lemma PlSettled(s: State, t: nat, f: nat, m: PlPc)
    requires t < |s.pcs| && s.pcs[t] == Polling(f, m) && KernelEnabled(s, t, true)
    ensures Settled(s, t, PlStep(s, t, f, m))
  {
  }

  lemma RlSettled(s: State, t: nat, f: nat, m: RlPc)
    requires t < |s.pcs| && s.pcs[t] == Releasing(f, m) && KernelEnabled(s, t, true) && !m.RlSplice?
    ensures Settled(s, t, RlStep(s, t, f, m))
  {
  }

  lemma CallSettled(s: State, t: nat, ev: Ev)
    requires t < |s.pcs| && CallEnabled(s, t, ev) && !ev.CallRelease?
    ensures Settled(s, t, Call(s, t, ev))
  {
  }

  /** The one step that makes an entry pending is a header read's, and excuses it. */
  lemma MoveStale(s: State, t: nat, f: nat, a: nat, b: nat)
    requires t < |s.pcs| && s.pcs[t] == Delivering(f, DlMove(a, b)) && a in s.heap && Stale(s)
    ensures Stale(DlStep(s, t, f, DlMove(a, b)))
  {
    var r := DlStep(s, t, f, DlMove(a, b));
    assert HandsOver(r.pcs[t], a);
    forall c | c in r.lapsed && Pends(r, c) ensures Excused(r, c) {
      if c != a {
        assert Excused(s, c);
        var u :| 0 <= u < |s.pcs| && (Splicing(s.pcs[u]) || HandsOver(s.pcs[u], c));
        assert u != t && r.pcs[u] == s.pcs[u];
      }
    }
  }

  lemma SpliceStale(s: State, t: nat, f: nat)
    requires t < |s.pcs| && s.pcs[t] == Releasing(f, RlSplice) && Lists(s)
    ensures Stale(RlStep(s, t, f, RlSplice))
  {
    var r := RlStep(s, t, f, RlSplice);
    forall a ensures !Pends(r, a) {
    }
  }

  lemma ReleaseStale(s: State, t: nat, f: nat)
    requires t < |s.pcs| && CallEnabled(s, t, CallRelease(f))
    ensures Stale(Call(s, t, CallRelease(f)))
  {
    assert Splicing(Call(s, t, CallRelease(f)).pcs[t]);
  }

  lemma KernelStale(s: State, t: nat, c: bool)
    requires t < |s.pcs| && KernelEnabled(s, t, c) && Lists(s) && Stale(s)
    ensures Stale(Kernel(s, t, c))
  {
    match s.pcs[t]
    case Submitting(d, m) => MrSettled(s, t, d, m); SettledKeeps(s, t, MrStep(s, t, d, m));
    case Reading(f, m) => RdSettled(s, t, f, m, c); SettledKeeps(s, t, RdStep(s, t, f, m, c));
    case Delivering(f, m) =>
      if m.DlMove? {
        MoveStale(s, t, f, m.a, m.b);
      } else {
        DlSettled(s, t, f, m); SettledKeeps(s, t, DlStep(s, t, f, m));
      }
    case Setting(f, m) => SetSettled(s, t, f, m); SettledKeeps(s, t, SetStep(s, t, f, m));
    case Fetching(f, e, m) => FtSettled(s, t, f, e, m); SettledKeeps(s, t, FtStep(s, t, f, e, m));
    case Ending(f, m) => EnSettled(s, t, f, m); SettledKeeps(s, t, EnStep(s, t, f, m));
    case Using(f, e) => UseSettled(s, t, f, e, c); SettledKeeps(s, t, UseStep(s, t, c));
    case Polling(f, m) => PlSettled(s, t, f, m); SettledKeeps(s, t, PlStep(s, t, f, m));
    case Releasing(f, m) =>
      if m.RlSplice? {
        SpliceStale(s, t, f);
      } else {
        RlSettled(s, t, f, m); SettledKeeps(s, t, RlStep(s, t, f, m));
      }
  }

  lemma {:induction false} StaleAlways(n: nat, run: Schedule)
    requires Feasible(Start(n), run) && Disciplined(Start(n), run)
    ensures Stale(After(Start(n), run))
  {
    if run != [] {
      var front, last := run[..|run| - 1], run[|run| - 1];
      var s, t, ev := After(Start(n), front), last.0, last.1;
      StaleAlways(n, front);
      IdentityAlways(n, front);
      if ev.Go? {
        KernelStale(s, t, ev.choice);
      } else if ev.CallRelease? {
        ReleaseStale(s, t, ev.f);
      } else {
        CallSettled(s, t, ev); SettledKeeps(s, t, Call(s, t, ev));
      }
    }
  }

  /** Of the ids a client holds, when no close and no header read is on its way: those
      in force are exactly the pending ones, and those that have lapsed are exactly the
      ones waiting to be delivered again. */
  lemma {:induction false} InForceIffPending(n: nat, run: Schedule, a: nat)
    requires Feasible(Start(n), run) && Disciplined(Start(n), run) && a in After(Start(n), run).owned
    requires forall t :: 0 <= t < n && t < |After(Start(n), run).pcs| ==>
               !After(Start(n), run).pcs[t].Releasing? && !After(Start(n), run).pcs[t].Delivering?
    ensures var s := After(Start(n), run);
            && (a !in s.lapsed <==> a in s.pending) && (a in s.lapsed <==> a in s.incoming)
  {
    var s := After(Start(n), run);
    LocksAlways(n, run);
    IdentityAlways(n, run);
    StaleAlways(n, run);
    assert Carries(s, a, s.owned[a]);
    assert !Excused(s, a);
  }
}
