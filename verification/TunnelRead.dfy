/** A header read, from its first step to its return: it ends by choosing the head of the
    incoming list and handing it out, or under a signal, and in no other way. */
module TunnelRead {
  import opened Common
  import opened TunnelThreads
  import opened TunnelLocks
  import opened TunnelIdentity
  import opened TunnelIdentitySteps
  import opened TunnelAlone

  // ---- How it ends ------------------------------------------------------------------------

  /** It chooses the head of the incoming list, holding the list's lock. */
  predicate Chooses(s: State, t: nat, r: State) {
    && t < |s.pcs| == |r.pcs| && s.pcs[t].Reading? && s.incoming != []
    && r.pcs[t] == Delivering(s.pcs[t].f, DlFill(s.incoming[0]))
    && r.incoming == s.incoming && r.pending == s.pending
  }

  /** It has been woken, a signal is pending, and it returns with nothing done. */
  predicate Interrupted(s: State, t: nat, ev: Ev, r: State) {
    && t < |s.pcs| && s.pcs[t].Reading? && s.pcs[t].rd.RdAwake? && ev == Go(true)
    && r == s.(pcs := s.pcs[t := Idle], armed := s.armed - {t})
  }

  /** It returns, and the client has the id of the entry it moved. */
  predicate Returns(s: State, t: nat, a: nat, r: State) {
    && t < |s.pcs| == |r.pcs| && s.pcs[t].Delivering? && s.pcs[t].dl.a == a
    && r.pcs[t].Idle? && a in r.owned && a !in r.lapsed
    && s.pcs[t].dl.DlUnlock? && r.owned[a] == s.pcs[t].dl.b
  }

  predicate StillReading(s: State, t: nat, f: nat) {
    t < |s.pcs| && s.pcs[t].Reading? && s.pcs[t].f == f
  }

  predicate StillDelivering(s: State, t: nat, f: nat, a: nat) {
    t < |s.pcs| && s.pcs[t].Delivering? && s.pcs[t].f == f && s.pcs[t].dl.a == a
  }

  lemma RdGoesOn(s: State, t: nat, f: nat, m: RdPc, ev: Ev)
    requires t < |s.pcs| && s.pcs[t] == Reading(f, m) && ev.Go? && KernelEnabled(s, t, ev.choice)
    ensures var r := RdStep(s, t, f, m, ev.choice);
            StillReading(r, t, f) || Chooses(s, t, r) || Interrupted(s, t, ev, r)
  {
  }

  lemma DlGoesOn(s: State, t: nat, f: nat, m: DlPc)
    requires t < |s.pcs| && s.pcs[t] == Delivering(f, m) && KernelEnabled(s, t, true)
    ensures var r := DlStep(s, t, f, m); StillDelivering(r, t, f, m.a) || Returns(s, t, m.a, r)
  {
  }

  /** One step of any thread: a header read goes on, chooses, or is interrupted. */
  lemma ReadingStep(s: State, u: nat, ev: Ev, t: nat, f: nat)
    requires Enabled(s, u, ev) && StillReading(s, t, f)
    ensures var r := Next(s, u, ev);
            StillReading(r, t, f) || (u == t && (Chooses(s, t, r) || Interrupted(s, t, ev, r)))
  {
    NextShape(s, u, ev);
    if u == t {
      RdGoesOn(s, t, f, s.pcs[t].rd, ev);
    }
  }

  lemma DeliveringStep(s: State, u: nat, ev: Ev, t: nat, f: nat, a: nat)
    requires Enabled(s, u, ev) && StillDelivering(s, t, f, a)
    ensures var r := Next(s, u, ev); StillDelivering(r, t, f, a) || (u == t && Returns(s, t, a, r))
  {
    NextShape(s, u, ev);
    if u == t {
      DlGoesOn(s, t, f, s.pcs[t].dl);
    }
  }

  /** One step of a run. */
  ghost predicate Goes(s: State, step: (nat, Ev), r: State) {
    Enabled(s, step.0, step.1) && r == Next(s, step.0, step.1)
  }

  /** The states a run goes through, the first and the last included. */
  ghost predicate Through(o: State, run: Schedule, tr: seq<State>) {
    && |tr| == |run| + 1 && tr[0] == o
    && forall i :: 0 <= i < |run| ==> Goes(tr[i], run[i], tr[i + 1])
  }

  lemma OneMore(o: State, front: Schedule, tr: seq<State>, step: (nat, Ev), r: State)
    requires Through(o, front, tr) && Goes(tr[|front|], step, r)
    ensures Through(o, front + [step], tr + [r])
  {
  }

  lemma LastGoes(o: State, run: Schedule)
    requires run != [] && Feasible(o, run)
    ensures var n := |run| - 1; Feasible(o, run[..n]) && Goes(After(o, run[..n]), run[n], After(o, run))
  {
  }

  lemma {:induction false} ThroughRun(o: State, run: Schedule) returns (tr: seq<State>)
    requires Feasible(o, run)
    ensures Through(o, run, tr) && tr[|run|] == After(o, run)
  {
    if run == [] {
      tr := [o];
    } else {
      var front := run[..|run| - 1];
      LastGoes(o, run);
      tr := ThroughRun(o, front);
      OneMore(o, front, tr, run[|run| - 1], After(o, run));
      tr := tr + [After(o, run)];
      assert front + [run[|run| - 1]] == run;
    }
  }

  lemma StopsReading(s: State, step: (nat, Ev), r: State, t: nat, f: nat)
    requires Goes(s, step, r) && StillReading(s, t, f) && !StillReading(r, t, f)
    ensures step.0 == t && (Chooses(s, t, r) || Interrupted(s, t, step.1, r))
  {
    ReadingStep(s, step.0, step.1, t, f);
  }

  lemma StopsDelivering(s: State, step: (nat, Ev), r: State, t: nat, f: nat, a: nat)
    requires Goes(s, step, r) && StillDelivering(s, t, f, a) && !StillDelivering(r, t, f, a)
    ensures step.0 == t && Returns(s, t, a, r)
  {
    DeliveringStep(s, step.0, step.1, t, f, a);
  }

  /** What holds at k and no longer at n ceases to hold somewhere between. */
  lemma {:induction false} Ceases(p: seq<bool>, k: nat, n: nat) returns (j: nat)
    requires k <= n < |p| && p[k] && !p[n]
    ensures k <= j < n && p[j] && !p[j + 1]
  {
    if p[n - 1] {
      j := n - 1;
    } else {
      j := Ceases(p, k, n - 1);
    }
  }

  lemma StopsReadingAt(o: State, run: Schedule, tr: seq<State>, j: nat, t: nat, f: nat)
    requires Through(o, run, tr) && j < |run| && StillReading(tr[j], t, f) && !StillReading(tr[j + 1], t, f)
    ensures run[j].0 == t && (Chooses(tr[j], t, tr[j + 1]) || Interrupted(tr[j], t, run[j].1, tr[j + 1]))
  {
    StopsReading(tr[j], run[j], tr[j + 1], t, f);
  }

  lemma StopsDeliveringAt(o: State, run: Schedule, tr: seq<State>, j: nat, t: nat, f: nat, a: nat)
    requires Through(o, run, tr) && j < |run|
    requires StillDelivering(tr[j], t, f, a) && !StillDelivering(tr[j + 1], t, f, a)
    ensures run[j].0 == t && Returns(tr[j], t, a, tr[j + 1])
  {
    StopsDelivering(tr[j], run[j], tr[j + 1], t, f, a);
  }

  /** In every run, a header read that is over has chosen the head of the incoming list as
      it then was, or was woken with a signal pending. */
  lemma ReadEnds(o: State, run: Schedule, tr: seq<State>, k: nat, n: nat, t: nat, f: nat) returns (j: nat)
    requires Through(o, run, tr) && k <= n <= |run| && StillReading(tr[k], t, f) && !StillReading(tr[n], t, f)
    ensures k <= j < n && run[j].0 == t && StillReading(tr[j], t, f)
    ensures Chooses(tr[j], t, tr[j + 1]) || Interrupted(tr[j], t, run[j].1, tr[j + 1])
  {
    j := Ceases(seq(|tr|, i requires 0 <= i < |tr| => StillReading(tr[i], t, f)), k, n);
    StopsReadingAt(o, run, tr, j, t, f);
  }

  /** And in every run, one that has chosen an entry and is over has returned with the
      client holding its id. */
  lemma DeliveryEnds(o: State, run: Schedule, tr: seq<State>, k: nat, n: nat, t: nat, f: nat, a: nat)
    returns (j: nat)
    requires Through(o, run, tr) && k <= n <= |run|
    requires StillDelivering(tr[k], t, f, a) && !StillDelivering(tr[n], t, f, a)
    ensures k <= j < n && run[j].0 == t && Returns(tr[j], t, a, tr[j + 1])
  {
    j := Ceases(seq(|tr|, i requires 0 <= i < |tr| => StillDelivering(tr[i], t, f, a)), k, n);
    StopsDeliveringAt(o, run, tr, j, t, f, a);
  }

  // ---- Sleep --------------------------------------------------------------------------------

  /** A step takes t off the wait queue only if it is t's or a wake_up. */
  predicate LeavesAsleep(s: State, u: nat, r: State) {
    u < |s.pcs| && forall t :: t in s.armed && t != u ==> t in r.armed || Wakes(s.pcs[u])
  }

  /** A submitter about to call wake_up. */
  predicate Wakes(pc: Pc) {
    pc.Submitting? && pc.mr.MrWake?
  }

  lemma MrLeavesAsleep(s: State, u: nat, d: Dir, m: MrPc)
    requires u < |s.pcs| && s.pcs[u] == Submitting(d, m) && (m.MrAdd? ==> m.a in s.heap)
    ensures LeavesAsleep(s, u, MrStep(s, u, d, m))
  {
  }

  lemma RdLeavesAsleep(s: State, u: nat, f: nat, m: RdPc, c: bool)
    requires u < |s.pcs| && s.pcs[u] == Reading(f, m)
    ensures LeavesAsleep(s, u, RdStep(s, u, f, m, c))
  {
  }

  lemma DlLeavesAsleep(s: State, u: nat, f: nat, m: DlPc)
    requires u < |s.pcs| && s.pcs[u] == Delivering(f, m) && (m.DlFill? || m.DlMove? ==> m.a in s.heap)
    ensures LeavesAsleep(s, u, DlStep(s, u, f, m))
  {
  }

  lemma SetLeavesAsleep(s: State, u: nat, f: nat, m: SetPc)
    requires u < |s.pcs| && s.pcs[u] == Setting(f, m)
    ensures LeavesAsleep(s, u, SetStep(s, u, f, m))
  {
  }

  lemma FtLeavesAsleep(s: State, u: nat, f: nat, e: bool, m: FtPc)
    requires u < |s.pcs| && s.pcs[u] == Fetching(f, e, m)
    ensures LeavesAsleep(s, u, FtStep(s, u, f, e, m))
  {
  }

  lemma EnLeavesAsleep(s: State, u: nat, f: nat, m: EnPc)
    requires u < |s.pcs| && s.pcs[u] == Ending(f, m) && (!m.EnLock? && !m.EnUnlock? ==> m.e in s.heap)
    ensures LeavesAsleep(s, u, EnStep(s, u, f, m))
  {
  }

  lemma PlLeavesAsleep(s: State, u: nat, f: nat, m: PlPc)
    requires u < |s.pcs| && s.pcs[u] == Polling(f, m)
    ensures LeavesAsleep(s, u, PlStep(s, u, f, m))
  {
  }

  lemma RlLeavesAsleep(s: State, u: nat, f: nat, m: RlPc)
    requires u < |s.pcs| && s.pcs[u] == Releasing(f, m)
    ensures LeavesAsleep(s, u, RlStep(s, u, f, m))
  {
  }

  lemma CallLeavesAsleep(s: State, u: nat, ev: Ev)
    requires u < |s.pcs| && CallEnabled(s, u, ev)
    ensures LeavesAsleep(s, u, Call(s, u, ev))
  {
  }

  lemma StepLeavesAsleep(s: State, u: nat, ev: Ev)
    requires Enabled(s, u, ev)
    ensures LeavesAsleep(s, u, Next(s, u, ev))
  {
    if ev.Go? {
      match s.pcs[u]
      case Submitting(d, m) => MrLeavesAsleep(s, u, d, m);
      case Reading(f, m) => RdLeavesAsleep(s, u, f, m, ev.choice);
      case Delivering(f, m) => DlLeavesAsleep(s, u, f, m);
      case Setting(f, m) => SetLeavesAsleep(s, u, f, m);
      case Fetching(f, e, m) => FtLeavesAsleep(s, u, f, e, m);
      case Ending(f, m) => EnLeavesAsleep(s, u, f, m);
      case Using(_, _) =>
      case Polling(f, m) => PlLeavesAsleep(s, u, f, m);
      case Releasing(f, m) => RlLeavesAsleep(s, u, f, m);
    } else {
      CallLeavesAsleep(s, u, ev);
    }
  }

  predicate Asleep(s: State, t: nat) {
    t < |s.pcs| && Sleeping(s, t)
  }

  lemma StopsSleeping(s: State, step: (nat, Ev), r: State, t: nat)
    requires Goes(s, step, r) && Asleep(s, t) && !Asleep(r, t)
    ensures step.0 < |s.pcs| && (step == (t, Go(true)) || Wakes(s.pcs[step.0]))
  {
    NextShape(s, step.0, step.1);
    StepLeavesAsleep(s, step.0, step.1);
  }

  lemma StopsSleepingAt(o: State, run: Schedule, tr: seq<State>, j: nat, t: nat)
    requires Through(o, run, tr) && j < |run| && Asleep(tr[j], t) && !Asleep(tr[j + 1], t)
    ensures run[j].0 < |tr[j].pcs| && (run[j] == (t, Go(true)) || Wakes(tr[j].pcs[run[j].0]))
  {
    StopsSleeping(tr[j], run[j], tr[j + 1], t);
  }

  /** In every run, a reader that is asleep sleeps until a signal comes or some submitter
      calls wake_up; a close does not wake it. */
  lemma SleepEnds(o: State, run: Schedule, tr: seq<State>, k: nat, n: nat, t: nat) returns (j: nat)
    requires Through(o, run, tr) && k <= n <= |run| && Asleep(tr[k], t) && !Asleep(tr[n], t)
    ensures k <= j < n && run[j].0 < |tr[j].pcs|
    ensures run[j] == (t, Go(true)) || Wakes(tr[j].pcs[run[j].0])
  {
    j := Ceases(seq(|tr|, i requires 0 <= i < |tr| => Asleep(tr[i], t)), k, n);
    StopsSleepingAt(o, run, tr, j, t);
  }

  // ---- A woken reader ---------------------------------------------------------------------

  /** The next n steps are thread t's, and no signal comes. */
  function Solo(t: nat, n: nat): Schedule {
    seq(n, i => (t, Go(false)))
  }

  ghost predicate RunsTo(s: State, t: nat, r: State) {
    exists n: nat :: Feasible(s, Solo(t, n)) && After(s, Solo(t, n)) == r
  }

  lemma RunsOn(s: State, t: nat, r: State)
    requires RunsTo(s, t, r) && Enabled(r, t, Go(false))
    ensures RunsTo(s, t, Next(r, t, Go(false)))
  {
    var n: nat :| Feasible(s, Solo(t, n)) && After(s, Solo(t, n)) == r;
    var more := Solo(t, n + 1);
    assert more[..|more| - 1] == Solo(t, n) && more[|more| - 1] == (t, Go(false));
    assert Feasible(s, more) && After(s, more) == Next(r, t, Go(false));
  }

  lemma RunsToSteps(s: State, t: nat)
    ensures Steps((x: State) => RunsTo(s, t, x), t) && RunsTo(s, t, s)
  {
    assert Solo(t, 0) == [];
    assert Feasible(s, Solo(t, 0)) && After(s, Solo(t, 0)) == s;
    forall x | RunsTo(s, t, x) && Enabled(x, t, Go(false)) ensures RunsTo(s, t, Next(x, t, Go(false))) {
      RunsOn(s, t, x);
    }
  }

  /** In a header read, off the wait queue, past the point where it would go to sleep. */
  predicate Woken(s: State, t: nat, f: nat) {
    && t < |s.pcs| && s.pcs[t].Reading? && s.pcs[t].f == f
    && (s.pcs[t].rd.RdAwake? || ((s.pcs[t].rd.RdAsleep? || s.pcs[t].rd.RdSchedule?) && t !in s.armed))
  }

  lemma WakesUp(reach: State -> bool, s: State, t: nat, f: nat)
    requires Steps(reach, t) && reach(s) && Woken(s, t, f)
    ensures reach(Goto(s.(armed := s.armed - {t}), t, Reading(f, RdPrepare)))
  {
    var b := s.(armed := s.armed - {t});
    var m := s.pcs[t].rd;
    assert Goto(s, t, s.pcs[t]) == s;
    if m.RdAwake? {
      RdAt(reach, s, t, f, RdAwake);
    } else {
      assert b == s;
      if m.RdSchedule? {
        RdAt(reach, s, t, f, RdSchedule);
      } else {
        RdAt(reach, s, t, f, RdAsleep);
      }
      RdAt(reach, s, t, f, RdAwake);
    }
  }

  /** Alone, it looks at the list again, and hands out what it finds. */
  lemma ReadsAgain(reach: State -> bool, s: State, t: nat, f: nat) returns (r: State)
    requires Steps(reach, t) && t < |s.pcs| && s.pcs[t].Idle? && t !in s.armed && s.inLock.None? && s.peLock.None?
    requires reach(Goto(s, t, Reading(f, RdPrepare))) && s.incoming != [] && s.incoming[0] in s.heap
    ensures reach(r)
    ensures var a := s.incoming[0];
            r == s.(incoming := Without(s.incoming, a), pending := Without(s.pending, a) + [a],
                    heap := s.heap[a := s.heap[a].(place := OnPending)],
                    owned := s.owned[a := s.heap[a].bio], lapsed := s.lapsed - {a})
  {
    RdAt(reach, s, t, f, RdPrepare);
    var b1 := s.(armed := s.armed + {t});
    RdAt(reach, b1, t, f, RdLock);
    var b2 := b1.(inLock := Some(t));
    RdAt(reach, b2, t, f, RdCheck);
    assert b2.armed - {t} == s.armed;
    r := DeliverAlone(reach, s, t, f);
  }

  /** A reader that had to wait for the mutex is running again, and off the wait queue: if
      it finds the list empty it does not sleep on it, but looks once more. */
  lemma ContendedLooksAgain(reach: State -> bool, s: State, t: nat, f: nat)
    requires Steps(reach, t) && t < |s.pcs| && s.inLock.None? && s.incoming == []
    requires s.pcs[t] == Reading(f, RdLock) && reach(Next(s, t, Go(true)))
    ensures reach(Goto(s.(armed := s.armed - {t}), t, Reading(f, RdPrepare)))
  {
    var b := s.(inLock := Some(t), armed := s.armed - {t});
    assert Next(s, t, Go(true)) == Goto(b, t, Reading(f, RdCheck));
    RdAt(reach, b, t, f, RdCheck);
    RdAt(reach, b, t, f, RdEmptyUnlock);
    var c := s.(armed := s.armed - {t});
    RdAt(reach, c, t, f, RdSchedule);
    RdAt(reach, c, t, f, RdAwake);
    assert c.armed - {t} == c.armed;
  }

  /** What is so after thread t's header read has handed out the head of the list. */
  predicate HandedOut(s: State, t: nat, r: State)
    requires t < |s.pcs| && s.incoming != [] && s.incoming[0] in s.heap
  {
    var a := s.incoming[0];
    && r.pcs == s.pcs[t := Idle] && r.incoming == s.incoming[1..] && r.pending == s.pending + [a]
    && r.owned == s.owned[a := s.heap[a].bio] && r.lapsed == s.lapsed - {a}
    && r.heap == s.heap[a := s.heap[a].(place := OnPending)] && r.armed == s.armed - {t}
    && r.inLock.None? && r.peLock.None? && r.ended == s.ended && r.open == s.open
  }

  /** In every disciplined run: a reader that has been woken, with no signal pending, beside
      a list that is not empty, hands out the head of the list if it is left to run. */
  lemma {:induction false} WokenReads(n: nat, run: Schedule, t: nat, f: nat) returns (r: State)
    requires Feasible(Start(n), run) && Disciplined(Start(n), run) && Woken(After(Start(n), run), t, f)
    requires var s := After(Start(n), run); s.inLock.None? && s.peLock.None? && s.incoming != []
    ensures var s := After(Start(n), run);
            && RunsTo(s, t, r) && s.incoming[0] in s.heap && HandedOut(s, t, r)
  {
    var s := After(Start(n), run);
    IdentityAlways(n, run);
    assert s.incoming[0] in s.incoming;
    RunsToSteps(s, t);
    var reach := (x: State) => RunsTo(s, t, x);
    WakesUp(reach, s, t, f);
    var b := s.(pcs := s.pcs[t := Idle], armed := s.armed - {t});
    assert b.pcs[t := Reading(f, RdPrepare)] == s.pcs[t := Reading(f, RdPrepare)];
    r := ReadsAgain(reach, b, t, f);
    WithoutHead(s.incoming);
  }
}
