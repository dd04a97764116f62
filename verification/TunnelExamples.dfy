/** What two open tunnel files do to a reader, and an address that carries two bios. */
module TunnelExamples {
  import opened Common
  import opened TunnelThreads
  import opened TunnelWake
  import opened TunnelAlone

  // ---- Two tunnel files: a reader is stranded ------------------------------------------

  lemma StrandIn(reach: State -> bool, o: State) returns (s: State)
    requires Closed(reach) && ClosedUnder(reach, Anyhow) && reach(o) && o == Start(2).(open := {0, 1})
    ensures reach(s)
    ensures |s.pcs| == 2 && s.incoming != [] && Sleeping(s, 1) && s.pcs[0].Idle?
  {
    s := SubmitAlone(reach, o, 1, WRITE, 8);
    s := HeaderAlone(reach, s, 0, 0);
    s := EmptyHeaderSleeps(reach, s, 1, 1);
    assert reach(Next(s, 0, CallRelease(0)));
    s := ReleaseAlone(reach, s, 0, 0);
  }

  lemma StrandedIsLost(s: State)
    requires |s.pcs| == 2 && s.incoming != [] && Sleeping(s, 1) && s.pcs[0].Idle?
    ensures !NoLostWakeup(s)
  {
    assert Committed(s, 1);
  }

  /** Two clients on two files.  The first is handed a bio, the second finds the
      list empty and sleeps, the first closes its file: the bio waits, its reader
      sleeps, and no thread is left to wake it.  Without the one-file discipline
      a wake-up is lost. */
  lemma {:induction false} SecondFileStrandsReader() returns (s: State)
    ensures Leads(Start(2), Anyhow, s)
    ensures |s.pcs| == 2 && s.incoming != [] && Sleeping(s, 1) && s.pcs[0].Idle?
    ensures !NoLostWakeup(s)
  {
    LeadsIsClosed(Start(2), Anyhow);
    Take(Start(2), Anyhow, Start(2), 0, Open(0));
    var one := Next(Start(2), 0, Open(0));
    Take(Start(2), Anyhow, one, 1, Open(1));
    s := StrandIn((x: State) => Leads(Start(2), Anyhow, x), Next(one, 1, Open(1)));
    StrandedIsLost(s);
  }

  // ---- One address, two bios -----------------------------------------------------------

  /** A bio is submitted at address 8 and handed out. */
  lemma OutAtEight(reach: State -> bool, o: State, d: Dir) returns (s: State)
    requires Closed(reach) && reach(o) && Rested(o)
    ensures reach(s)
    ensures s.owned == map[8 := o.submitted] && 8 in s.heap && s.heap[8].bio == o.submitted
    ensures HandedOut(s, d) && s.submitted == o.submitted + 1 && s.ended == o.ended
  {
    s := SubmitAlone(reach, o, 0, d, 8);
    s := HeaderAlone(reach, s, 0, 0);
  }

  /** One thread, one file, nothing going on. */
  predicate Rested(s: State) {
    && s.pcs == [Idle] && s.inLock.None? && s.peLock.None? && s.armed == {} && s.open == {0} && s.closing == {}
    && s.heap == map[] && s.incoming == [] && s.pending == []
    && s.owned == map[] && s.lapsed == {} && s.session.NoSession?
  }

  /** The same, with the bio at address 8 in the client's hands. */
  predicate HandedOut(s: State, d: Dir) {
    && s.pcs == [Idle] && s.inLock.None? && s.peLock.None? && s.armed == {} && s.open == {0} && s.closing == {}
    && s.incoming == [] && s.pending == [8] && s.heap.Keys == {8} && s.owned.Keys == {8} && s.lapsed == {}
    && s.session.NoSession?
    && s.heap[8].place.OnPending? && s.heap[8].dir == d
  }

  /** The client completes it, under the id 8. */
  lemma BackAtEight(reach: State -> bool, o: State, d: Dir) returns (s: State)
    requires Closed(reach) && ClosedUnder(reach, WithDiscipline) && reach(o) && HandedOut(o, d)
    ensures reach(s)
    ensures Rested(s) && s.current == 8 && s.submitted == o.submitted && s.ended == o.ended + [o.heap[8].bio]
  {
    assert reach(Next(o, 0, CallSet(0, 8)));
    s := SetAlone(reach, o, 0, 0, 8);
    assert reach(Next(s, 0, CallComplete(0)));
    s := CompleteAlone(reach, s, 0, 0);
    assert s.heap == map[];
  }

  lemma FirstOut() returns (s: State)
    ensures Leads(Start(1), WithDiscipline, s)
    ensures s.owned == map[8 := 0] && HandedOut(s, READ) && s.heap[8].bio == 0
    ensures s.submitted == 1 && s.ended == []
  {
    LeadsIsClosed(Start(1), WithDiscipline);
    Take(Start(1), WithDiscipline, Start(1), 0, Open(0));
    s := OutAtEight((x: State) => Leads(Start(1), WithDiscipline, x), Next(Start(1), 0, Open(0)), READ);
  }

  lemma SecondOut(o: State) returns (s: State)
    requires HandedOut(o, READ) && o.heap[8].bio == 0 && o.submitted == 1 && o.ended == []
    ensures Leads(o, WithDiscipline, s)
    ensures s.owned == map[8 := 1] && HandedOut(s, WRITE) && s.heap[8].bio == 1 && s.ended == [0]
  {
    LeadsIsClosed(o, WithDiscipline);
    s := BackAtEight((x: State) => Leads(o, WithDiscipline, x), o, READ);
    s := OutAtEight((x: State) => Leads(o, WithDiscipline, x), s, WRITE);
  }

  lemma SecondBack(o: State) returns (s: State)
    requires HandedOut(o, WRITE) && o.heap[8].bio == 1 && o.ended == [0]
    ensures Leads(o, WithDiscipline, s)
    ensures Rested(s) && s.current == 8 && s.ended == [0, 1]
  {
    LeadsIsClosed(o, WithDiscipline);
    s := BackAtEight((x: State) => Leads(o, WithDiscipline, x), o, WRITE);
  }

  /** Two schedules of a kind, one after the other. */
  lemma {:induction false} InTwo(o: State, may: (State, Ev) -> bool, s1: State, s2: State)
    returns (run: Schedule, j: nat)
    requires Leads(o, may, s1) && Leads(s1, may, s2)
    ensures Feasible(o, run) && Obeys(o, run, may) && After(o, run) == s2
    ensures j <= |run| && Feasible(o, run[..j]) && After(o, run[..j]) == s1
  {
    var r1 := ScheduleOf(o, may, s1);
    var r2 := ScheduleOf(s1, may, s2);
    Join(o, r1, r2);
    JoinObeys(o, r1, r2, may);
    run, j := r1 + r2, |r1|;
    assert run[..j] == r1;
  }

  /** Three of them. */
  lemma {:induction false} InThree(o: State, may: (State, Ev) -> bool, s1: State, s2: State, s3: State)
    returns (run: Schedule, j: nat, k: nat)
    requires Leads(o, may, s1) && Leads(s1, may, s2) && Leads(s2, may, s3)
    ensures Feasible(o, run) && Obeys(o, run, may) && After(o, run) == s3
    ensures j <= k <= |run| && Feasible(o, run[..j]) && After(o, run[..j]) == s1
    ensures Feasible(o, run[..k]) && After(o, run[..k]) == s2
  {
    var two, i := InTwo(o, may, s1, s2);
    assert Leads(o, may, s2);
    var r3 := ScheduleOf(s2, may, s3);
    Join(o, two, r3);
    JoinObeys(o, two, r3, may);
    run, j, k := two + r3, i, |two|;
    assert run[..k] == two && run[..j] == two[..j];
  }

  /** A disciplined run in which the client holds address 8 as the id of bio 0 after j
      steps, and as the id of bio 1 after k: the address is freed in between and
      handed out again.  Both bios are completed under the id 8.  Reuse is not ruled
      out, only confusion is. */
  lemma {:induction false} AddressIsReused() returns (run: Schedule, j: nat, k: nat)
    ensures Feasible(Start(1), run) && Disciplined(Start(1), run) && j <= k <= |run|
    ensures Feasible(Start(1), run[..j]) && Feasible(Start(1), run[..k])
    ensures var s := After(Start(1), run[..j]); s.owned == map[8 := 0] && 8 in s.heap && s.heap[8].bio == 0
    ensures var s := After(Start(1), run[..k]); s.owned == map[8 := 1] && 8 in s.heap && s.heap[8].bio == 1
    ensures var s := After(Start(1), run); s.ended == [0, 1] && s.heap == map[] && s.current == 8
  {
    var s1 := FirstOut();
    var s2 := SecondOut(s1);
    var s3 := SecondBack(s2);
    run, j, k := InThree(Start(1), WithDiscipline, s1, s2, s3);
    ObeysDiscipline(Start(1), run);
  }
}
