/** Runs put together call by call: schedules of steps of a given kind, and each call run
    alone, from its first step to its return. */
module TunnelAlone {
  import opened Common
  import opened TunnelThreads

  // ---- Schedules ---------------------------------------------------------------------------

  /** A schedule all of whose steps are of a kind. */
  ghost predicate Obeys(o: State, run: Schedule, may: (State, Ev) -> bool)
    requires Feasible(o, run)
  {
    run == [] ||
    (var front, last := run[..|run| - 1], run[|run| - 1];
     Obeys(o, front, may) && may(After(o, front), last.1))
  }

  predicate Anyhow(s: State, ev: Ev) {
    true
  }

  predicate WithOneFile(s: State, ev: Ev) {
    OneFile(s, ev)
  }

  predicate WithDiscipline(s: State, ev: Ev) {
    OneFile(s, ev) && InForce(s, ev)
  }

  lemma {:induction false} ObeysOneFile(o: State, run: Schedule)
    requires Feasible(o, run)
    ensures Obeys(o, run, WithOneFile) <==> SingleFile(o, run)
  {
    if run != [] {
      ObeysOneFile(o, run[..|run| - 1]);
    }
  }

  lemma {:induction false} ObeysDiscipline(o: State, run: Schedule)
    requires Feasible(o, run)
    ensures Obeys(o, run, WithDiscipline) <==> Disciplined(o, run)
  {
    if run != [] {
      ObeysDiscipline(o, run[..|run| - 1]);
    }
  }

  /** A state that some schedule of a kind leads to. */
  ghost predicate Leads(o: State, may: (State, Ev) -> bool, s: State) {
    exists run: Schedule :: Feasible(o, run) && Obeys(o, run, may) && After(o, run) == s
  }

  lemma {:induction false} Longer(o: State, run: Schedule, t: nat, ev: Ev) returns (longer: Schedule)
    requires Feasible(o, run) && Enabled(After(o, run), t, ev)
    ensures longer == run + [(t, ev)] && Feasible(o, longer)
    ensures After(o, longer) == Next(After(o, run), t, ev)
    ensures longer != [] && longer[..|longer| - 1] == run
  {
    longer := run + [(t, ev)];
    assert longer[..|longer| - 1] == run;
  }

  lemma {:induction false} Take(o: State, may: (State, Ev) -> bool, s: State, t: nat, ev: Ev)
    requires Leads(o, may, s) && Enabled(s, t, ev) && may(s, ev)
    ensures Leads(o, may, Next(s, t, ev))
  {
    var run: Schedule :| Feasible(o, run) && Obeys(o, run, may) && After(o, run) == s;
    var longer := Longer(o, run, t, ev);
    assert Obeys(o, longer, may);
  }

  lemma {:induction false} ScheduleOf(o: State, may: (State, Ev) -> bool, s: State) returns (run: Schedule)
    requires Leads(o, may, s)
    ensures Feasible(o, run) && Obeys(o, run, may) && After(o, run) == s
  {
    run :| Feasible(o, run) && Obeys(o, run, may) && After(o, run) == s;
  }

  /** A longer schedule, in one piece or two. */
  lemma {:induction false} JoinStep(o: State, all: Schedule, front: Schedule, s: State, more: Schedule)
    requires more != [] && all != [] && all[..|all| - 1] == front && all[|all| - 1] == more[|more| - 1]
    requires Feasible(o, front) && Feasible(s, more) && After(o, front) == After(s, more[..|more| - 1])
    ensures Feasible(o, all) && After(o, all) == After(s, more)
  {
  }

  /** A schedule followed by another. */
  lemma {:induction false} Join(o: State, run: Schedule, more: Schedule)
    requires Feasible(o, run) && Feasible(After(o, run), more)
    ensures Feasible(o, run + more) && After(o, run + more) == After(After(o, run), more)
    decreases |more|
  {
    if more == [] {
      assert run + more == run;
    } else {
      var front := more[..|more| - 1];
      Join(o, run, front);
      Parts(run, more);
      JoinStep(o, run + more, run + front, After(o, run), more);
    }
  }

  lemma Parts(run: Schedule, more: Schedule)
    requires more != []
    ensures var all := run + more;
            all != [] && all[..|all| - 1] == run + more[..|more| - 1] && all[|all| - 1] == more[|more| - 1]
  {
  }

  lemma {:induction false} JoinObeys(o: State, run: Schedule, more: Schedule, may: (State, Ev) -> bool)
    requires Feasible(o, run) && Feasible(After(o, run), more) && Feasible(o, run + more)
    requires Obeys(o, run, may) && Obeys(After(o, run), more, may)
    ensures Obeys(o, run + more, may)
    decreases |more|
  {
    if more == [] {
      assert run + more == run;
    } else {
      var front := more[..|more| - 1];
      Parts(run, more);
      JoinObeys(o, run, front, may);
      Join(o, run, front);
    }
  }

  /** The steps that no discipline restricts. */
  predicate Plain(ev: Ev) {
    !ev.Open? && !ev.CallSet? && !ev.CallData? && !ev.CallComplete? && !ev.CallRelease?
  }

  /** A set of states, such as those that schedules of a kind lead to, that no plain step
      leaves. */
  ghost predicate Closed(reach: State -> bool) {
    forall s, t, ev :: reach(s) && Enabled(s, t, ev) && Plain(ev) ==> reach(Next(s, t, ev))
  }

  /** One that no step of a kind leaves. */
  ghost predicate ClosedUnder(reach: State -> bool, may: (State, Ev) -> bool) {
    forall s, t, ev :: reach(s) && Enabled(s, t, ev) && may(s, ev) ==> reach(Next(s, t, ev))
  }

  /** One that no signal-free step of thread t's call leaves. */
  ghost predicate Steps(reach: State -> bool, t: nat) {
    forall s :: reach(s) && Enabled(s, t, Go(false)) ==> reach(Next(s, t, Go(false)))
  }

  lemma {:induction false} LeadsIsClosed(o: State, may: (State, Ev) -> bool)
    requires forall s, ev :: Plain(ev) ==> may(s, ev)
    ensures Leads(o, may, o)
    ensures Closed((x: State) => Leads(o, may, x)) && ClosedUnder((x: State) => Leads(o, may, x), may)
  {
    assert Feasible(o, []) && Obeys(o, [], may) && After(o, []) == o;
    forall x, t, ev | Leads(o, may, x) && Enabled(x, t, ev) && may(x, ev) ensures Leads(o, may, Next(x, t, ev)) {
      Take(o, may, x, t, ev);
    }
  }

  // One kernel step of thread t, from a state written as b with t at the given point.

  lemma MrAt(reach: State -> bool, b: State, t: nat, d: Dir, m: MrPc)
    requires Closed(reach) && t < |b.pcs| && reach(Goto(b, t, Submitting(d, m)))
    requires (m.MrLock? ==> b.inLock.None?) && (m.MrAdd? ==> m.a in b.heap)
    ensures reach(MrStep(b, t, d, m))
  {
    var s := Goto(b, t, Submitting(d, m));
    assert KernelEnabled(s, t, false);
    assert reach(Next(s, t, Go(false)));
    assert MrStep(s, t, d, m) == MrStep(b, t, d, m);
  }

  lemma RdAt(reach: State -> bool, b: State, t: nat, f: nat, m: RdPc)
    requires Steps(reach, t) && t < |b.pcs| && reach(Goto(b, t, Reading(f, m)))
    requires m.RdLock? ==> b.inLock.None?
    requires m.RdAsleep? ==> t !in b.armed
    ensures reach(RdStep(b, t, f, m, false))
  {
    var s := Goto(b, t, Reading(f, m));
    assert KernelEnabled(s, t, false);
    assert reach(Next(s, t, Go(false)));
    assert RdStep(s, t, f, m, false) == RdStep(b, t, f, m, false);
  }

  lemma DlAt(reach: State -> bool, b: State, t: nat, f: nat, m: DlPc)
    requires Steps(reach, t) && t < |b.pcs| && reach(Goto(b, t, Delivering(f, m)))
    requires (m.DlLock? ==> b.peLock.None?) && (m.DlFill? || m.DlMove? ==> m.a in b.heap)
    ensures reach(DlStep(b, t, f, m))
  {
    var s := Goto(b, t, Delivering(f, m));
    assert KernelEnabled(s, t, false);
    assert reach(Next(s, t, Go(false)));
    assert DlStep(s, t, f, m) == DlStep(b, t, f, m);
  }

  lemma PlAt(reach: State -> bool, b: State, t: nat, f: nat, m: PlPc)
    requires Steps(reach, t) && t < |b.pcs| && reach(Goto(b, t, Polling(f, m)))
    requires m.PlLock? ==> b.inLock.None?
    ensures reach(PlStep(b, t, f, m))
  {
    var s := Goto(b, t, Polling(f, m));
    assert KernelEnabled(s, t, false);
    assert reach(Next(s, t, Go(false)));
    assert PlStep(s, t, f, m) == PlStep(b, t, f, m);
  }

  lemma RlAt(reach: State -> bool, b: State, t: nat, f: nat, m: RlPc)
    requires Closed(reach) && t < |b.pcs| && reach(Goto(b, t, Releasing(f, m)))
    requires (m.RlLock? ==> b.inLock.None?) && (m.RlLockPe? ==> b.peLock.None?)
    ensures reach(RlStep(b, t, f, m))
  {
    var s := Goto(b, t, Releasing(f, m));
    assert KernelEnabled(s, t, false);
    assert reach(Next(s, t, Go(false)));
    assert RlStep(s, t, f, m) == RlStep(b, t, f, m);
  }

  lemma SetAt(reach: State -> bool, b: State, t: nat, f: nat, m: SetPc)
    requires Closed(reach) && t < |b.pcs| && reach(Goto(b, t, Setting(f, m)))
    requires m.SetLock? ==> b.peLock.None?
    ensures reach(SetStep(b, t, f, m))
  {
    var s := Goto(b, t, Setting(f, m));
    assert KernelEnabled(s, t, false);
    assert reach(Next(s, t, Go(false)));
    assert SetStep(s, t, f, m) == SetStep(b, t, f, m);
  }

  lemma FtAt(reach: State -> bool, b: State, t: nat, f: nat, e: bool, m: FtPc)
    requires Closed(reach) && t < |b.pcs| && reach(Goto(b, t, Fetching(f, e, m)))
    requires m.FtLock? ==> b.peLock.None?
    ensures reach(FtStep(b, t, f, e, m))
  {
    var s := Goto(b, t, Fetching(f, e, m));
    assert KernelEnabled(s, t, false);
    assert reach(Next(s, t, Go(false)));
    assert FtStep(s, t, f, e, m) == FtStep(b, t, f, e, m);
  }

  lemma EnFromGoto(b: State, t: nat, pc: Pc, f: nat, m: EnPc)
    requires t < |b.pcs| && (!m.EnLock? && !m.EnUnlock? ==> m.e in b.heap)
    ensures EnStep(Goto(b, t, pc), t, f, m) == EnStep(b, t, f, m)
  {
  }

  lemma EnAt(reach: State -> bool, b: State, t: nat, f: nat, m: EnPc)
    requires Closed(reach) && t < |b.pcs| && reach(Goto(b, t, Ending(f, m)))
    requires (m.EnLock? ==> b.peLock.None?) && (!m.EnLock? && !m.EnUnlock? ==> m.e in b.heap)
    ensures reach(EnStep(b, t, f, m))
  {
    var s := Goto(b, t, Ending(f, m));
    assert KernelEnabled(s, t, false);
    assert reach(Next(s, t, Go(false)));
    EnFromGoto(b, t, Ending(f, m), f, m);
  }

  // ---- Each call, run alone, is its atomic operation ------------------------------------

  lemma SubmitAlone(reach: State -> bool, s: State, t: nat, d: Dir, a: nat) returns (r: State)
    requires Closed(reach) && reach(s) && t < |s.pcs| && s.pcs[t].Idle? && s.inLock.None? && a !in s.heap
    ensures reach(r)
    ensures r == Bump(s.(
              heap := s.heap[a := Entry(s.submitted, d, OnIncoming, false)],
              home := s.home[s.submitted := a], submitted := s.submitted + 1,
              incoming := s.incoming + [a], armed := {}), d, 1)
  {
    assert reach(Next(s, t, Submit(d, a)));
    var b := s.(heap := s.heap[a := Entry(s.submitted, d, Private(t), false)],
                home := s.home[s.submitted := a], submitted := s.submitted + 1);
    MrAt(reach, b, t, d, MrLock(a));
    var b1 := b.(inLock := Some(t));
    MrAt(reach, b1, t, d, MrAdd(a));
    var b2 := b1.(incoming := s.incoming + [a], heap := s.heap[a := Entry(s.submitted, d, OnIncoming, false)]);
    assert b1.heap[a := b1.heap[a].(place := OnIncoming)] == b2.heap;
    MrAt(reach, b2, t, d, MrUnlock);
    var b3 := b2.(inLock := None);
    MrAt(reach, b3, t, d, MrWake);
    var b4 := b3.(armed := {});
    MrAt(reach, b4, t, d, MrCount);
    r := MrStep(b4, t, d, MrCount);
    assert r.pcs == s.pcs;
  }

  lemma DeliverAlone(reach: State -> bool, s: State, t: nat, f: nat) returns (r: State)
    requires Steps(reach, t) && t < |s.pcs| && s.pcs[t].Idle? && s.inLock.None? && s.peLock.None?
    requires s.incoming != [] && s.incoming[0] in s.heap
    requires reach(Goto(s.(inLock := Some(t)), t, Delivering(f, DlFill(s.incoming[0]))))
    ensures reach(r)
    ensures var a := s.incoming[0];
            r == s.(incoming := Without(s.incoming, a), pending := Without(s.pending, a) + [a],
                    heap := s.heap[a := s.heap[a].(place := OnPending)],
                    owned := s.owned[a := s.heap[a].bio], lapsed := s.lapsed - {a})
  {
    var a, b := s.incoming[0], s.heap[s.incoming[0]].bio;
    var b1 := s.(inLock := Some(t));
    DlAt(reach, b1, t, f, DlFill(a));
    DlAt(reach, b1, t, f, DlLock(a, b));
    var b2 := b1.(peLock := Some(t));
    DlAt(reach, b2, t, f, DlMove(a, b));
    var b3 := b2.(incoming := Without(s.incoming, a), pending := Without(s.pending, a) + [a],
                  heap := s.heap[a := s.heap[a].(place := OnPending)]);
    DlAt(reach, b3, t, f, DlUnlockPe(a, b));
    var b4 := b3.(peLock := None);
    DlAt(reach, b4, t, f, DlUnlock(a, b));
    r := DlStep(b4, t, f, DlUnlock(a, b));
    assert r.pcs == s.pcs;
  }

  lemma HeaderAlone(reach: State -> bool, s: State, t: nat, f: nat) returns (r: State)
    requires Closed(reach) && reach(s) && t < |s.pcs| && s.pcs[t].Idle? && s.inLock.None? && s.peLock.None?
    requires Usable(s, f) && s.incoming != [] && s.incoming[0] in s.heap && t !in s.armed
    ensures reach(r)
    ensures var a := s.incoming[0];
            r == s.(incoming := Without(s.incoming, a), pending := Without(s.pending, a) + [a],
                    heap := s.heap[a := s.heap[a].(place := OnPending)],
                    owned := s.owned[a := s.heap[a].bio], lapsed := s.lapsed - {a})
  {
    assert reach(Next(s, t, CallHeader(f)));
    RdAt(reach, s, t, f, RdPrepare);
    var b1 := s.(armed := s.armed + {t});
    RdAt(reach, b1, t, f, RdLock);
    var b2 := b1.(inLock := Some(t));
    RdAt(reach, b2, t, f, RdCheck);
    assert b2.armed - {t} == s.armed;
    r := DeliverAlone(reach, s, t, f);
  }

  /** A header read that has chosen its entry and wants the pending lock. */
  lemma HeaderWaits(reach: State -> bool, s: State, t: nat, f: nat) returns (r: State)
    requires Closed(reach) && reach(s) && t < |s.pcs| && s.pcs[t].Idle? && s.inLock.None?
    requires Usable(s, f) && s.incoming != [] && s.incoming[0] in s.heap && t !in s.armed
    ensures reach(r)
    ensures var a := s.incoming[0];
            r == Goto(s.(inLock := Some(t)), t, Delivering(f, DlLock(a, s.heap[a].bio)))
  {
    assert reach(Next(s, t, CallHeader(f)));
    RdAt(reach, s, t, f, RdPrepare);
    var b1 := s.(armed := s.armed + {t});
    RdAt(reach, b1, t, f, RdLock);
    var b2 := b1.(inLock := Some(t));
    RdAt(reach, b2, t, f, RdCheck);
    assert b2.armed - {t} == s.armed;
    DlAt(reach, s.(inLock := Some(t)), t, f, DlFill(s.incoming[0]));
    r := DlStep(s.(inLock := Some(t)), t, f, DlFill(s.incoming[0]));
  }

  /** A header read of an empty list goes to sleep. */
  lemma EmptyHeaderSleeps(reach: State -> bool, s: State, t: nat, f: nat) returns (r: State)
    requires Closed(reach) && reach(s) && t < |s.pcs| && s.pcs[t].Idle? && s.inLock.None?
    requires Usable(s, f) && s.incoming == []
    ensures reach(r)
    ensures r == s.(pcs := s.pcs[t := Reading(f, RdAsleep)], armed := s.armed + {t})
  {
    assert reach(Next(s, t, CallHeader(f)));
    RdAt(reach, s, t, f, RdPrepare);
    var b1 := s.(armed := s.armed + {t});
    RdAt(reach, b1, t, f, RdLock);
    var b2 := b1.(inLock := Some(t));
    RdAt(reach, b2, t, f, RdCheck);
    RdAt(reach, b2, t, f, RdEmptyUnlock);
    RdAt(reach, b1, t, f, RdSchedule);
    r := Goto(b1, t, Reading(f, RdAsleep));
  }

  lemma ReleaseAlone(reach: State -> bool, s: State, t: nat, f: nat) returns (r: State)
    requires Closed(reach) && t < |s.pcs| && s.inLock.None? && s.peLock.None?
    requires CallEnabled(s, t, CallRelease(f)) && reach(Next(s, t, CallRelease(f)))
    ensures reach(r)
    ensures r == s.(incoming := s.incoming + s.pending, pending := [],
                    heap := Relinked(s.heap, s.pending),
                    open := s.open - {f}, lapsed := s.owned.Keys)
  {
    var b := s.(closing := s.closing + {f}, lapsed := s.owned.Keys);
    RlAt(reach, b, t, f, RlLock);
    var b1 := b.(inLock := Some(t));
    RlAt(reach, b1, t, f, RlLockPe);
    var b2 := b1.(peLock := Some(t));
    RlAt(reach, b2, t, f, RlSplice);
    var b3 := b2.(incoming := s.incoming + s.pending, pending := [], heap := Relinked(s.heap, s.pending));
    RlAt(reach, b3, t, f, RlUnlockPe);
    var b4 := b3.(peLock := None);
    RlAt(reach, b4, t, f, RlUnlock);
    r := RlStep(b4, t, f, RlUnlock);
    assert r.pcs == s.pcs && r.closing == s.closing;
  }

  lemma SetAlone(reach: State -> bool, s: State, t: nat, f: nat, a: nat) returns (r: State)
    requires Closed(reach) && t < |s.pcs| && s.peLock.None?
    requires CallEnabled(s, t, CallSet(f, a)) && reach(Next(s, t, CallSet(f, a)))
    ensures reach(r)
    ensures r == s.(current := a, session := Session(t, a, s.owned[a], true))
  {
    var b := s.(session := Session(t, a, s.owned[a], false));
    SetAt(reach, b, t, f, SetLock(a));
    var b1 := b.(peLock := Some(t));
    SetAt(reach, b1, t, f, SetStore(a));
    var b2 := b1.(current := a);
    SetAt(reach, b2, t, f, SetUnlock);
    r := SetStep(b2, t, f, SetUnlock);
    assert r.pcs == s.pcs;
  }

  lemma FetchAlone(reach: State -> bool, s: State, t: nat, f: nat, ending: bool)
    requires Closed(reach) && t < |s.pcs| && s.peLock.None?
    requires reach(Goto(s, t, Fetching(f, ending, FtLock)))
    ensures reach(Goto(s, t, if ending then Ending(f, EnLock(s.current)) else Using(f, s.current)))
  {
    FtAt(reach, s, t, f, ending, FtLock);
    var b := s.(peLock := Some(t));
    FtAt(reach, b, t, f, ending, FtLoad);
    FtAt(reach, b, t, f, ending, FtUnlock(s.current));
  }

  /** A payload transfer works on the current entry. */
  lemma DataAlone(reach: State -> bool, s: State, t: nat, f: nat)
    requires Closed(reach) && t < |s.pcs| && s.peLock.None?
    requires CallEnabled(s, t, CallData(f)) && reach(Next(s, t, CallData(f)))
    ensures reach(Goto(s, t, Using(f, s.current)))
  {
    FetchAlone(reach, s, t, f, false);
  }

  /** A poll looks at the list under its lock, and returns. */
  lemma PollAlone(reach: State -> bool, s: State, t: nat, f: nat)
    requires Closed(reach) && reach(s) && t < |s.pcs| && s.pcs[t].Idle? && s.inLock.None? && Usable(s, f)
    ensures reach(Goto(s.(inLock := Some(t)), t, Polling(f, PlUnlock(s.incoming != []))))
    ensures reach(PlStep(s.(inLock := Some(t)), t, f, PlUnlock(s.incoming != [])))
    ensures PlStep(s.(inLock := Some(t)), t, f, PlUnlock(s.incoming != [])) == s
  {
    assert reach(Next(s, t, CallPoll(f)));
    PlAt(reach, s, t, f, PlLock);
    var b := s.(inLock := Some(t));
    PlAt(reach, b, t, f, PlCheck);
    PlAt(reach, b, t, f, PlUnlock(s.incoming != []));
    assert s.pcs[t := Idle] == s.pcs;
  }

  /** The first half of a completion: the bio ends and is uncounted. */
  lemma EndHalf(reach: State -> bool, b: State, t: nat, f: nat, e: nat)
    requires Closed(reach) && t < |b.pcs| && b.peLock.None? && e in b.heap
    requires reach(Goto(b, t, Ending(f, EnLock(e))))
    ensures reach(Goto(Bump(b.(peLock := Some(t), ended := b.ended + [b.heap[e].bio],
                               heap := b.heap[e := b.heap[e].(done := true)]), b.heap[e].dir, -1),
                       t, Ending(f, EnUnlink(e))))
  {
    var d := b.heap[e].dir;
    EnAt(reach, b, t, f, EnLock(e));
    var b1 := b.(peLock := Some(t));
    EnAt(reach, b1, t, f, EnEnd(e));
    var b2 := b1.(ended := b.ended + [b.heap[e].bio], heap := b.heap[e := b.heap[e].(done := true)]);
    EnAt(reach, b2, t, f, EnUncount(e, d));
  }

  /** The second half: the entry is unlinked and freed. */
  lemma FreeHalf(reach: State -> bool, b: State, t: nat, f: nat, e: nat)
    requires Closed(reach) && t < |b.pcs| && e in b.heap
    requires reach(Goto(b, t, Ending(f, EnUnlink(e))))
    ensures reach(Goto(b.(incoming := Without(b.incoming, e), pending := Without(b.pending, e),
                          heap := b.heap - {e}, home := b.home - {b.heap[e].bio},
                          peLock := None, session := NoSession), t, Idle))
  {
    EnAt(reach, b, t, f, EnUnlink(e));
    var b1 := Unlink(b, e, Private(t));
    EnAt(reach, b1, t, f, EnUnlock(e));
    var b2 := b1.(peLock := None);
    EnAt(reach, b2, t, f, EnFree(e));
    assert b2.heap - {e} == b.heap - {e};
  }

  lemma CompleteAlone(reach: State -> bool, s: State, t: nat, f: nat) returns (r: State)
    requires Closed(reach) && t < |s.pcs| && s.peLock.None? && s.current in s.heap
    requires CallEnabled(s, t, CallComplete(f)) && reach(Next(s, t, CallComplete(f)))
    ensures reach(r)
    ensures var e := s.current;
            r == Bump(s.(ended := s.ended + [s.heap[e].bio],
                         incoming := Without(s.incoming, e), pending := Without(s.pending, e),
                         heap := s.heap - {e}, home := s.home - {s.heap[e].bio},
                         owned := s.owned - {s.session.a}, lapsed := s.lapsed - {s.session.a},
                         session := NoSession), s.heap[e].dir, -1)
  {
    var e, d, bio := s.current, s.heap[s.current].dir, s.heap[s.current].bio;
    var b := s.(owned := s.owned - {s.session.a}, lapsed := s.lapsed - {s.session.a});
    FetchAlone(reach, b, t, f, true);
    EndHalf(reach, b, t, f, e);
    var b1 := Bump(b.(peLock := Some(t), ended := s.ended + [bio],
                      heap := s.heap[e := s.heap[e].(done := true)]), d, -1);
    FreeHalf(reach, b1, t, f, e);
    r := Bump(b.(ended := s.ended + [bio], incoming := Without(s.incoming, e), pending := Without(s.pending, e),
                 heap := s.heap - {e}, home := s.home - {bio}, session := NoSession), d, -1);
    FreedIsCompleted(b, t, e);
  }

  lemma FreedIsCompleted(b: State, t: nat, e: nat)
    requires t < |b.pcs| && b.pcs[t].Idle? && b.peLock.None? && e in b.heap
    ensures var d, bio := b.heap[e].dir, b.heap[e].bio;
            var b1 := Bump(b.(peLock := Some(t), ended := b.ended + [bio],
                              heap := b.heap[e := b.heap[e].(done := true)]), d, -1);
            Goto(b1.(incoming := Without(b1.incoming, e), pending := Without(b1.pending, e),
                     heap := b1.heap - {e}, home := b1.home - {bio}, peLock := None, session := NoSession), t, Idle)
            == Bump(b.(ended := b.ended + [bio], incoming := Without(b.incoming, e),
                       pending := Without(b.pending, e), heap := b.heap - {e}, home := b.home - {bio},
                       session := NoSession), d, -1)
  {
    assert b.pcs[t := Idle] == b.pcs;
    assert b.heap[e := b.heap[e].(done := true)] - {e} == b.heap - {e};
  }
}
