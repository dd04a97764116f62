/** A wait of three threads on the two list mutexes, to show how long chains get. */
module TunnelWaits {
  import opened Common
  import opened TunnelThreads
  import opened TunnelLocks
  import opened TunnelAlone

  /** A bio is handed out and current, and another waits. */
  lemma OneCurrentOneWaiting(reach: State -> bool, o: State) returns (s: State)
    requires Closed(reach) && ClosedUnder(reach, WithDiscipline) && reach(o) && o == Start(3).(open := {0})
    ensures reach(s)
    ensures s.pcs == o.pcs && s.inLock.None? && s.peLock.None? && s.armed == {} && s.open == {0} && s.closing == {}
    ensures s.incoming == [16] && s.heap.Keys == {8, 16} && s.current == 8 && s.session == Session(2, 8, 0, true)
    ensures s.lapsed == {}
  {
    s := SubmitAlone(reach, o, 0, WRITE, 8);
    s := HeaderAlone(reach, s, 1, 0);
    assert reach(Next(s, 2, CallSet(0, 8)));
    s := SetAlone(reach, s, 2, 0, 8);
    s := SubmitAlone(reach, s, 0, WRITE, 16);
  }

  /** A completion has the pending lock. */
  lemma CompleterLocks(reach: State -> bool, o: State) returns (s: State)
    requires Closed(reach) && |o.pcs| == 3 && o.peLock.None? && o.current in o.heap
    requires CallEnabled(o, 2, CallComplete(0)) && reach(Next(o, 2, CallComplete(0)))
    ensures reach(s)
    ensures s == Goto(o.(owned := o.owned - {o.session.a}, lapsed := o.lapsed - {o.session.a}, peLock := Some(2)),
                      2, Ending(0, EnEnd(o.current)))
  {
    var b := o.(owned := o.owned - {o.session.a}, lapsed := o.lapsed - {o.session.a});
    FetchAlone(reach, b, 2, 0, true);
    EnAt(reach, b, 2, 0, EnLock(o.current));
    s := EnStep(b, 2, 0, EnLock(o.current));
  }

  /** A submission wants the incoming lock. */
  lemma SubmitterWaits(reach: State -> bool, o: State, a: nat) returns (s: State)
    requires Closed(reach) && reach(o) && |o.pcs| == 3 && o.pcs[0].Idle? && a !in o.heap
    ensures reach(s) && s.pcs == o.pcs[0 := Submitting(WRITE, MrLock(a))]
    ensures s.inLock == o.inLock && s.peLock == o.peLock
  {
    assert reach(Next(o, 0, Submit(WRITE, a)));
    s := Next(o, 0, Submit(WRITE, a));
  }

  predicate Waiting(s: State, a: nat, b: nat) {
    && s.inLock == Some(1) && s.peLock == Some(2)
    && |s.pcs| == 3 && s.pcs[0] == Submitting(WRITE, MrLock(24)) && s.pcs[1] == Delivering(0, DlLock(a, b))
  }

  lemma WaitIn(reach: State -> bool, o: State) returns (s: State, a: nat, b: nat)
    requires Closed(reach) && ClosedUnder(reach, WithDiscipline) && reach(o) && o == Start(3).(open := {0})
    ensures reach(s) && Waiting(s, a, b)
  {
    s := OneCurrentOneWaiting(reach, o);
    assert reach(Next(s, 2, CallComplete(0)));
    s := CompleterLocks(reach, s);
    a, b := s.incoming[0], s.heap[s.incoming[0]].bio;
    s := HeaderWaits(reach, s, 1, 0);
    s := SubmitterWaits(reach, s, 24);
  }

  lemma ChainOfThree(s: State, a: nat, b: nat)
    requires Waiting(s, a, b)
    ensures Chain(s, [0, 1, 2])
  {
    assert WaitsFor(s, 0, 1) && WaitsFor(s, 1, 2);
  }

  /** Chains of three do occur: a submitter waits for a header read, which waits for a
      completion, which runs on. */
  lemma {:induction false} LongestWait() returns (run: Schedule)
    ensures Feasible(Start(3), run) && Disciplined(Start(3), run) && Chain(After(Start(3), run), [0, 1, 2])
  {
    LeadsIsClosed(Start(3), WithDiscipline);
    Take(Start(3), WithDiscipline, Start(3), 0, Open(0));
    var s, a, b := WaitIn((x: State) => Leads(Start(3), WithDiscipline, x), Next(Start(3), 0, Open(0)));
    run := ScheduleOf(Start(3), WithDiscipline, s);
    ObeysDiscipline(Start(3), run);
    ChainOfThree(s, a, b);
  }
}
