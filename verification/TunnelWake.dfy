/** Wake-ups: a reader sleeps beside a non-empty incoming list only while some
    submitter is on its way to wake it.  A close that splices pending entries
    back is the one step that can break this, and the exact condition under
    which it does is stated. */
module TunnelWake {
  import opened Common
  import opened TunnelThreads

  /** Saw an empty list and will sleep, or sleeps, unless woken. */
  predicate Committed(s: State, t: nat)
    requires t < |s.pcs|
  {
    t in s.armed && s.pcs[t].Reading?
    && (s.pcs[t].rd.RdEmptyUnlock? || s.pcs[t].rd.RdSchedule? || s.pcs[t].rd.RdAsleep?)
  }

  /** Between list_add_tail and wake_up. */
  predicate Waking(s: State, t: nat)
    requires t < |s.pcs|
  {
    s.pcs[t].Submitting? && (s.pcs[t].mr.MrUnlock? || s.pcs[t].mr.MrWake?)
  }

  ghost predicate SomeCommitted(s: State) {
    exists t :: 0 <= t < |s.pcs| && Committed(s, t)
  }

  ghost predicate SomeWaking(s: State) {
    exists t :: 0 <= t < |s.pcs| && Waking(s, t)
  }

  ghost predicate NoLostWakeup(s: State) {
    SomeCommitted(s) && s.incoming != [] ==> SomeWaking(s)
  }

  /** The step that strands a sleeper: a close moves pending entries onto the
      incoming list, a reader is committed to sleep, and no submitter will wake it. */
  ghost predicate Strands(s: State, t: nat, ev: Ev)
    requires t < |s.pcs|
  {
    ev.Go? && s.pcs[t].Releasing? && s.pcs[t].rl.RlSplice?
    && s.pending != [] && SomeCommitted(s) && !SomeWaking(s)
  }

  /** A step that adds no sleeper, ends no wake-up and fills no list. */
  predicate Quiet(s: State, t: nat, r: State)
    requires t < |s.pcs| == |r.pcs|
  {
    && r.pcs == s.pcs[t := r.pcs[t]]
    && r.armed <= s.armed
    && !Committed(r, t) && !Waking(s, t)
    && (r.incoming != [] ==> s.incoming != [])
  }

  lemma QuietKeeps(s: State, t: nat, r: State)
    requires t < |s.pcs| == |r.pcs| && Quiet(s, t, r) && NoLostWakeup(s)
    ensures NoLostWakeup(r)
  {
    if SomeCommitted(r) && r.incoming != [] {
      var u :| 0 <= u < |r.pcs| && Committed(r, u);
      assert u != t && r.pcs[u] == s.pcs[u] && Committed(s, u);
      var p :| 0 <= p < |s.pcs| && Waking(s, p);
      assert p != t && r.pcs[p] == s.pcs[p] && Waking(r, p);
    }
  }

  lemma MrWakes(s: State, t: nat, d: Dir, m: MrPc)
    requires t < |s.pcs| && s.pcs[t] == Submitting(d, m) && KernelEnabled(s, t, true) && NoLostWakeup(s)
    ensures NoLostWakeup(MrStep(s, t, d, m))
  {
    var r := MrStep(s, t, d, m);
    match m
    case MrLock(a) => QuietKeeps(s, t, r);
    case MrAdd(a) => assert Waking(r, t);
    case MrUnlock => assert Waking(r, t);
    case MrWake => assert r.armed == {};
    case MrCount => QuietKeeps(s, t, r);
  }

  lemma RdWakes(s: State, t: nat, f: nat, m: RdPc, c: bool)
    requires t < |s.pcs| && s.pcs[t] == Reading(f, m) && KernelEnabled(s, t, c) && NoLostWakeup(s)
    ensures NoLostWakeup(RdStep(s, t, f, m, c))
  {
    var r := RdStep(s, t, f, m, c);
    match m
    case RdPrepare =>
      assert forall u :: 0 <= u < |s.pcs| && Committed(r, u) ==> u != t && Committed(s, u);
      assert forall u :: 0 <= u < |s.pcs| && Waking(s, u) ==> u != t && Waking(r, u);
    case RdCheck =>
      if s.incoming != [] { QuietKeeps(s, t, r); }
    case RdEmptyUnlock =>
      assert Committed(s, t) <==> t in s.armed;
      assert forall u :: 0 <= u < |s.pcs| && Committed(r, u) ==> Committed(s, u);
      assert forall u :: 0 <= u < |s.pcs| && Waking(s, u) ==> u != t && Waking(r, u);
    case RdSchedule =>
      assert forall u :: 0 <= u < |s.pcs| && Committed(r, u) ==> Committed(s, u);
      assert forall u :: 0 <= u < |s.pcs| && Waking(s, u) ==> u != t && Waking(r, u);
    case _ => QuietKeeps(s, t, r);
  }

  lemma RlWakes(s: State, t: nat, f: nat, m: RlPc)
    requires t < |s.pcs| && s.pcs[t] == Releasing(f, m) && KernelEnabled(s, t, true) && NoLostWakeup(s)
    ensures NoLostWakeup(RlStep(s, t, f, m)) <==> !Strands(s, t, Go(true))
  {
    var r := RlStep(s, t, f, m);
    if m.RlSplice? {
      assert forall u :: 0 <= u < |s.pcs| ==> (Committed(r, u) <==> Committed(s, u));
      assert forall u :: 0 <= u < |s.pcs| ==> (Waking(r, u) <==> Waking(s, u));
    } else {
      QuietKeeps(s, t, r);
    }
  }

  lemma DlQuiet(s: State, t: nat, f: nat, m: DlPc)
    requires t < |s.pcs| && s.pcs[t] == Delivering(f, m) && KernelEnabled(s, t, true)
    ensures |DlStep(s, t, f, m).pcs| == |s.pcs| && Quiet(s, t, DlStep(s, t, f, m))
  {
  }

  lemma SetQuiet(s: State, t: nat, f: nat, m: SetPc)
    requires t < |s.pcs| && s.pcs[t] == Setting(f, m) && KernelEnabled(s, t, true)
    ensures |SetStep(s, t, f, m).pcs| == |s.pcs| && Quiet(s, t, SetStep(s, t, f, m))
  {
  }

  lemma FtQuiet(s: State, t: nat, f: nat, e: bool, m: FtPc)
    requires t < |s.pcs| && s.pcs[t] == Fetching(f, e, m) && KernelEnabled(s, t, true)
    ensures |FtStep(s, t, f, e, m).pcs| == |s.pcs| && Quiet(s, t, FtStep(s, t, f, e, m))
  {
  }

  lemma EnQuiet(s: State, t: nat, f: nat, m: EnPc)
    requires t < |s.pcs| && s.pcs[t] == Ending(f, m) && KernelEnabled(s, t, true)
    ensures |EnStep(s, t, f, m).pcs| == |s.pcs| && Quiet(s, t, EnStep(s, t, f, m))
  {
  }

  lemma UseQuiet(s: State, t: nat, f: nat, e: nat, c: bool)
    requires t < |s.pcs| && s.pcs[t] == Using(f, e) && KernelEnabled(s, t, c)
    ensures |UseStep(s, t, c).pcs| == |s.pcs| && Quiet(s, t, UseStep(s, t, c))
  {
  }

  lemma PlQuiet(s: State, t: nat, f: nat, m: PlPc)
    requires t < |s.pcs| && s.pcs[t] == Polling(f, m) && KernelEnabled(s, t, true)
    ensures |PlStep(s, t, f, m).pcs| == |s.pcs| && Quiet(s, t, PlStep(s, t, f, m))
  {
  }

  lemma CallIsQuiet(s: State, t: nat, ev: Ev)
    requires t < |s.pcs| && CallEnabled(s, t, ev)
    ensures |Call(s, t, ev).pcs| == |s.pcs| && Quiet(s, t, Call(s, t, ev))
  {
  }

  /** From a state without a lost wake-up, a step loses one exactly when it
      strands a sleeper; there is no other way to lose one. */
  lemma WakeStep(s: State, t: nat, ev: Ev)
    requires Enabled(s, t, ev) && NoLostWakeup(s)
    ensures NoLostWakeup(Next(s, t, ev)) <==> !Strands(s, t, ev)
  {
    if ev.Go? {
      match s.pcs[t]
      case Submitting(d, m) => MrWakes(s, t, d, m);
      case Reading(f, m) => RdWakes(s, t, f, m, ev.choice);
      case Delivering(f, m) => DlQuiet(s, t, f, m); QuietKeeps(s, t, DlStep(s, t, f, m));
      case Setting(f, m) => SetQuiet(s, t, f, m); QuietKeeps(s, t, SetStep(s, t, f, m));
      case Fetching(f, e, m) => FtQuiet(s, t, f, e, m); QuietKeeps(s, t, FtStep(s, t, f, e, m));
      case Ending(f, m) => EnQuiet(s, t, f, m); QuietKeeps(s, t, EnStep(s, t, f, m));
      case Using(f, e) => UseQuiet(s, t, f, e, ev.choice); QuietKeeps(s, t, UseStep(s, t, ev.choice));
      case Polling(f, m) => PlQuiet(s, t, f, m); QuietKeeps(s, t, PlStep(s, t, f, m));
      case Releasing(f, m) => RlWakes(s, t, f, m);
    } else {
      CallIsQuiet(s, t, ev);
      QuietKeeps(s, t, Call(s, t, ev));
    }
  }

  // ---- Whole runs, any number of files ---------------------------------------------------

  /** No wake-up is lost at any point of a run. */
  ghost predicate AlwaysAwake(s: State, run: Schedule)
    requires Feasible(s, run)
  {
    NoLostWakeup(After(s, run)) && (run == [] || AlwaysAwake(s, run[..|run| - 1]))
  }

  /** No step of a run strands a sleeper. */
  ghost predicate NeverStrands(s: State, run: Schedule)
    requires Feasible(s, run)
  {
    run == [] ||
    (var front, last := run[..|run| - 1], run[|run| - 1];
     NeverStrands(s, front) && !Strands(After(s, front), last.0, last.1))
  }

  /** With any number of threads and tunnel files, a run loses no wake-up at any
      point exactly when no close in it strands a sleeper. */
  lemma {:induction false} AwakeIffNoneStranded(n: nat, run: Schedule)
    requires Feasible(Start(n), run)
    ensures AlwaysAwake(Start(n), run) <==> NeverStrands(Start(n), run)
  {
    if run != [] {
      var front, last := run[..|run| - 1], run[|run| - 1];
      AwakeIffNoneStranded(n, front);
      if NoLostWakeup(After(Start(n), front)) {
        WakeStep(After(Start(n), front), last.0, last.1);
      }
      AwakeNow(Start(n), front);
    }
  }

  lemma AwakeNow(s: State, run: Schedule)
    requires Feasible(s, run)
    ensures AlwaysAwake(s, run) ==> NoLostWakeup(After(s, run))
  {
  }
}
