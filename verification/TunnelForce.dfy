/** Using an id that has lapsed.  From a state at rest that a disciplined run reaches, one
    id the client holds is let off the rule that it be in force; then no freed memory is
    touched, every id keeps its meaning, and every bio is in one place, in every run that
    follows before the next close, exactly when that id was in force anyway. */
module TunnelForce {
  import opened Common
  import opened TunnelThreads
  import opened TunnelLocks
  import opened TunnelIdentity
  import opened TunnelIdentitySteps
  import opened TunnelLive
  import opened TunnelRefinement
  import opened TunnelSafety
  import opened TunnelAlone
  import opened TunnelLapse
  import B = BioQueue

  /** The calls that work on address a. */
  predicate UsesId(s: State, ev: Ev, a: nat) {
    || (ev.CallSet? && ev.a == a)
    || ((ev.CallData? || ev.CallComplete?) && s.session.Session? && s.session.a == a)
  }

  /** Disciplined steps without a close, and any use of a. */
  function OrUses(a: nat): (State, Ev) -> bool {
    (s: State, ev: Ev) => !ev.CallRelease? && OneFile(s, ev) && (InForce(s, ev) || UsesId(s, ev, a))
  }

  // ---- An id in force is safe ------------------------------------------------------------------

  lemma MrLapses(s: State, t: nat, d: Dir, m: MrPc)
    requires t < |s.pcs| && (m.MrAdd? ==> m.a in s.heap)
    ensures MrStep(s, t, d, m).lapsed == s.lapsed
  {
  }

  lemma RdLapses(s: State, t: nat, f: nat, m: RdPc, c: bool)
    requires t < |s.pcs|
    ensures RdStep(s, t, f, m, c).lapsed == s.lapsed
  {
  }

  lemma DlLapses(s: State, t: nat, f: nat, m: DlPc)
    requires t < |s.pcs| && (m.DlFill? || m.DlMove? ==> m.a in s.heap)
    ensures DlStep(s, t, f, m).lapsed <= s.lapsed
  {
  }

  lemma SetLapses(s: State, t: nat, f: nat, m: SetPc)
    requires t < |s.pcs|
    ensures SetStep(s, t, f, m).lapsed == s.lapsed
  {
  }

  lemma FtLapses(s: State, t: nat, f: nat, e: bool, m: FtPc)
    requires t < |s.pcs|
    ensures FtStep(s, t, f, e, m).lapsed == s.lapsed
  {
  }

  lemma EnLapses(s: State, t: nat, f: nat, m: EnPc)
    requires t < |s.pcs| && (!m.EnLock? && !m.EnUnlock? ==> m.e in s.heap)
    ensures EnStep(s, t, f, m).lapsed == s.lapsed
  {
  }

  lemma PlLapses(s: State, t: nat, f: nat, m: PlPc)
    requires t < |s.pcs|
    ensures PlStep(s, t, f, m).lapsed == s.lapsed
  {
  }

  lemma RlLapses(s: State, t: nat, f: nat, m: RlPc)
    requires t < |s.pcs|
    ensures RlStep(s, t, f, m).lapsed == s.lapsed
  {
  }

  lemma KernelLapses(s: State, t: nat, c: bool)
    requires t < |s.pcs| && KernelEnabled(s, t, c)
    ensures Kernel(s, t, c).lapsed <= s.lapsed
  {
    match s.pcs[t]
    case Submitting(d, m) => MrLapses(s, t, d, m);
    case Reading(f, m) => RdLapses(s, t, f, m, c);
    case Delivering(f, m) => DlLapses(s, t, f, m);
    case Setting(f, m) => SetLapses(s, t, f, m);
    case Fetching(f, e, m) => FtLapses(s, t, f, e, m);
    case Ending(f, m) => EnLapses(s, t, f, m);
    case Using(f, e) =>
    case Polling(f, m) => PlLapses(s, t, f, m);
    case Releasing(f, m) => RlLapses(s, t, f, m);
  }

  /** Only a close lapses an id. */
  lemma OnlyCloseLapses(s: State, t: nat, ev: Ev)
    requires Enabled(s, t, ev) && !ev.CallRelease?
    ensures Next(s, t, ev).lapsed <= s.lapsed
  {
    if ev.Go? {
      KernelLapses(s, t, ev.choice);
    }
  }

  lemma {:induction false} StaysInForce(s: State, more: Schedule, a: nat)
    requires Feasible(s, more) && Obeys(s, more, OrUses(a)) && a !in s.lapsed
    ensures Obeys(s, more, WithDiscipline) && a !in After(s, more).lapsed
  {
    if more != [] {
      var front, last := more[..|more| - 1], more[|more| - 1];
      StaysInForce(s, front, a);
      OnlyCloseLapses(After(s, front), last.0, last.1);
      assert OrUses(a)(After(s, front), last.1);
    }
  }

  // ---- A lapsed id is not ----------------------------------------------------------------------

  /** Two threads idle, the file open, and address a waiting to be delivered again. */
  ghost predicate Poised(s: State, t: nat, u: nat, f: nat, a: nat, b: nat) {
    && t < |s.pcs| && u < |s.pcs| && t != u && s.pcs[t].Idle? && s.pcs[u].Idle?
    && s.inLock.None? && s.peLock.None? && s.armed == {} && Usable(s, f) && s.session.NoSession?
    && Distinct(s.incoming) && (forall c :: c in s.incoming ==> c in s.heap)
    && a in s.incoming && a in s.owned && s.owned[a] == b && s.heap[a].bio == b
  }

  lemma OneAhead(reach: State -> bool, s: State, t: nat, u: nat, f: nat, a: nat, b: nat) returns (r: State)
    requires Closed(reach) && reach(s) && Poised(s, t, u, f, a, b) && s.incoming[0] != a
    ensures reach(r) && Poised(r, t, u, f, a, b) && |r.incoming| < |s.incoming|
    ensures r.pcs == s.pcs && r.submitted == s.submitted && r.ended == s.ended
  {
    assert s.incoming[0] in s.incoming;
    r := HeaderAlone(reach, s, u, f);
    WithoutHead(s.incoming);
  }

  /** The bios before a are handed out. */
  lemma {:induction false} UpToHead(reach: State -> bool, s: State, t: nat, u: nat, f: nat, a: nat, b: nat)
    returns (r: State)
    requires Closed(reach) && reach(s) && Poised(s, t, u, f, a, b)
    ensures reach(r) && Poised(r, t, u, f, a, b) && r.incoming[0] == a
    ensures r.pcs == s.pcs && r.submitted == s.submitted && r.ended == s.ended
    ensures s.incoming[0] == a ==> r == s
    decreases |s.incoming|
  {
    if s.incoming[0] == a {
      r := s;
    } else {
      r := OneAhead(reach, s, t, u, f, a, b);
      r := UpToHead(reach, r, t, u, f, a, b);
    }
  }

  /** A header read stands before moving a, which is free. */
  predicate Undercut(s: State, u: nat, f: nat, a: nat, b: nat) {
    && u < |s.pcs| && s.pcs[u] == Delivering(f, DlLock(a, b)) && s.inLock == Some(u) && s.peLock.None?
    && a !in s.heap && a !in s.incoming && a !in s.pending
  }

  /** The client makes a current, a header read picks it from the list, and the client
      completes it under the reader's hands. */
  lemma CompleteUnderReader(reach: State -> bool, s: State, t: nat, u: nat, f: nat, a: nat, b: nat)
    returns (r: State)
    requires Closed(reach) && ClosedUnder(reach, OrUses(a)) && reach(s)
    requires Poised(s, t, u, f, a, b) && s.incoming[0] == a
    ensures reach(r) && Undercut(r, u, f, a, b)
    ensures r.pcs == s.pcs[u := Delivering(f, DlLock(a, b))] && r.submitted == s.submitted
    ensures r.owned == s.owned - {a} && r.ended == s.ended + [b]
    ensures r.incoming == Without(s.incoming, a) && r.pending == Without(s.pending, a)
  {
    assert reach(Next(s, t, CallSet(f, a)));
    var s1 := SetAlone(reach, s, t, f, a);
    var s2 := HeaderWaits(reach, s1, u, f);
    assert reach(Next(s2, t, CallComplete(f)));
    r := CompleteAlone(reach, s2, t, f);
  }

  /** The reader goes on, and is about to relink freed memory. */
  lemma GoesOn(reach: State -> bool, s: State, u: nat, f: nat, a: nat, b: nat) returns (r: State)
    requires Closed(reach) && reach(s) && Undercut(s, u, f, a, b)
    ensures reach(r) && !LiveAccess(r)
  {
    assert Goto(s, u, s.pcs[u]) == s;
    DlAt(reach, s, u, f, DlLock(a, b));
    r := DlStep(s, u, f, DlLock(a, b));
    assert Touches(r.pcs[u]) == Some(a);
  }

  /** A submitter is given the address first. */
  lemma TakenAgain(reach: State -> bool, s: State, u: nat, v: nat, f: nat, a: nat, b: nat) returns (r: State)
    requires Closed(reach) && reach(s) && Undercut(s, u, f, a, b) && v < |s.pcs| && s.pcs[v].Idle?
    ensures reach(r)
    ensures r == Goto(s.(heap := s.heap[a := Entry(s.submitted, READ, Private(v), false)],
                         home := s.home[s.submitted := a], submitted := s.submitted + 1),
                      v, Submitting(READ, MrLock(a)))
  {
    assert reach(Next(s, v, Submit(READ, a)));
    r := Next(s, v, Submit(READ, a));
  }

  /** The reader moves the new bio's entry, and tells the client the old bio's id. */
  lemma Misnames(reach: State -> bool, s: State, u: nat, f: nat, a: nat, b: nat) returns (r: State)
    requires Closed(reach) && reach(s) && u < |s.pcs| && s.pcs[u] == Delivering(f, DlLock(a, b))
    requires s.inLock == Some(u) && s.peLock.None? && a in s.heap && a !in s.incoming && a !in s.pending
    ensures reach(r)
    ensures r == Goto(s.(pending := s.pending + [a], heap := s.heap[a := s.heap[a].(place := OnPending)],
                         inLock := None, owned := s.owned[a := b], lapsed := s.lapsed - {a}), u, Idle)
  {
    assert Goto(s, u, s.pcs[u]) == s;
    DlAt(reach, s, u, f, DlLock(a, b));
    var b2 := s.(peLock := Some(u));
    DlAt(reach, b2, u, f, DlMove(a, b));
    assert Without(s.incoming, a) == s.incoming && Without(s.pending, a) == s.pending;
    var b3 := b2.(pending := s.pending + [a], heap := s.heap[a := s.heap[a].(place := OnPending)]);
    DlAt(reach, b3, u, f, DlUnlockPe(a, b));
    var b4 := b3.(peLock := None);
    DlAt(reach, b4, u, f, DlUnlock(a, b));
    r := DlStep(b4, u, f, DlUnlock(a, b));
  }

  /** The submitter queues the entry that is pending already. */
  lemma Doubles(reach: State -> bool, s: State, v: nat, a: nat) returns (r: State)
    requires Closed(reach) && reach(s) && v < |s.pcs| && s.pcs[v] == Submitting(READ, MrLock(a))
    requires s.inLock.None? && a in s.heap
    ensures reach(r) && r.incoming == s.incoming + [a] && r.pending == s.pending
    ensures r.heap == s.heap[a := s.heap[a].(place := OnIncoming)] && r.ended == s.ended
  {
    assert Goto(s, v, s.pcs[v]) == s;
    MrAt(reach, s, v, READ, MrLock(a));
    var b2 := s.(inLock := Some(v));
    MrAt(reach, b2, v, READ, MrAdd(a));
    r := MrStep(b2, v, READ, MrAdd(a));
  }

  /** One un-ended bio on both lists is in two places. */
  lemma DoubledIsNotOnce(s: State, a: nat)
    requires a in s.heap && !s.heap[a].done && a in s.incoming && a in s.pending
    ensures !B.Conserved(Abs(s))
  {
    var b := s.heap[a].bio;
    assert Wanted(s.heap, a, EITHER);
    LiveMember(s.heap, s.incoming, EITHER, b);
    LiveMember(s.heap, s.pending, EITHER, b);
    assert B.Places(Abs(s), b) >= 2;
  }

  // ---- Exactly when ----------------------------------------------------------------------------

  /** Every thread is idle, nobody is on the wait queue, no request is current, and the
      file is open. */
  ghost predicate AtRest(s: State, f: nat) {
    && (forall t :: 0 <= t < |s.pcs| ==> s.pcs[t].Idle?)
    && s.armed == {} && s.session.NoSession? && Usable(s, f)
  }

  /** What the client is told is true. */
  ghost predicate Truthful(s: State) {
    forall a :: a in s.owned ==> Carries(s, a, s.owned[a])
  }

  lemma HeldBySomeone(s: State)
    requires Locks(s)
    ensures s.inLock.None? || exists t :: 0 <= t < |s.pcs| && HoldsIn(s.pcs[t])
    ensures s.peLock.None? || exists t :: 0 <= t < |s.pcs| && HoldsPe(s.pcs[t])
  {
    if s.inLock.Some? {
      assert HoldsIn(s.pcs[s.inLock.value]);
    }
    if s.peLock.Some? {
      assert HoldsPe(s.pcs[s.peLock.value]);
    }
  }

  lemma {:induction false} LapsedIsPoised(n: nat, run: Schedule, f: nat, a: nat)
    requires Feasible(Start(n), run) && Disciplined(Start(n), run) && AtRest(After(Start(n), run), f) && n >= 2
    requires a in After(Start(n), run).owned && a in After(Start(n), run).lapsed
    ensures var s := After(Start(n), run);
            && |s.pcs| == n && Poised(s, 0, 1, f, a, s.owned[a])
            && !s.heap[a].done && a !in s.pending && s.owned[a] < s.submitted
  {
    var s := After(Start(n), run);
    LocksAlways(n, run);
    IdentityAlways(n, run);
    InForceIffPending(n, run, a);
    assert Carries(s, a, s.owned[a]);
    HeldBySomeone(s);
  }

  /** What follows under the one exception is a disciplined run if the id is in force. */
  lemma {:induction false} FollowsOn(n: nat, run: Schedule, more: Schedule, a: nat)
    requires Feasible(Start(n), run) && Disciplined(Start(n), run)
    requires Feasible(After(Start(n), run), more) && Obeys(After(Start(n), run), more, OrUses(a))
    requires a !in After(Start(n), run).lapsed
    ensures Feasible(Start(n), run + more) && Disciplined(Start(n), run + more)
    ensures After(Start(n), run + more) == After(After(Start(n), run), more)
  {
    StaysInForce(After(Start(n), run), more, a);
    Join(Start(n), run, more);
    ObeysDiscipline(Start(n), run);
    JoinObeys(Start(n), run, more, WithDiscipline);
    ObeysDiscipline(Start(n), run + more);
  }

  /** A state with the given fault follows. */
  lemma Freed(reach: State -> bool, s: State, f: nat, a: nat, b: nat) returns (r: State)
    requires Closed(reach) && ClosedUnder(reach, OrUses(a)) && reach(s) && Poised(s, 0, 1, f, a, b)
    ensures reach(r) && !LiveAccess(r)
  {
    r := UpToHead(reach, s, 0, 1, f, a, b);
    r := CompleteUnderReader(reach, r, 0, 1, f, a, b);
    r := GoesOn(reach, r, 1, f, a, b);
  }

  /** The reader has told the client the freed bio's id for the new bio's entry, which the
      submitter has yet to queue. */
  predicate Confused(s: State, a: nat, b: nat, later: nat) {
    && |s.pcs| >= 3 && s.pcs[2] == Submitting(READ, MrLock(a)) && s.inLock.None?
    && a in s.owned && s.owned[a] == b && a in s.heap && s.heap[a].bio == later && !s.heap[a].done
    && a in s.pending
  }

  lemma Confuses(reach: State -> bool, s: State, f: nat, a: nat, b: nat) returns (r: State)
    requires Closed(reach) && ClosedUnder(reach, OrUses(a)) && reach(s) && Poised(s, 0, 1, f, a, b)
    requires |s.pcs| >= 3 && s.pcs[2].Idle?
    ensures reach(r) && Confused(r, a, b, s.submitted)
    ensures s.incoming[0] == a ==>
              && r.owned == s.owned[a := b] && r.ended == s.ended + [b]
              && r.incoming == Without(s.incoming, a) && r.pending == Without(s.pending, a) + [a]
  {
    r := UpToHead(reach, s, 0, 1, f, a, b);
    r := CompleteUnderReader(reach, r, 0, 1, f, a, b);
    r := TakenAgain(reach, r, 1, 2, f, a, b);
    r := Misnames(reach, r, 1, f, a, b);
  }

  /** With at least two threads: no run that follows touches freed memory if and only if
      the id is in force. */
  lemma {:induction false} NothingFreedIff(n: nat, run: Schedule, f: nat, a: nat)
    requires Feasible(Start(n), run) && Disciplined(Start(n), run) && AtRest(After(Start(n), run), f) && n >= 2
    requires a in After(Start(n), run).owned
    ensures var s := After(Start(n), run);
            (forall more :: Feasible(s, more) && Obeys(s, more, OrUses(a)) ==> LiveAccess(After(s, more)))
            <==> a !in s.lapsed
  {
    var s := After(Start(n), run);
    if a in s.lapsed {
      LapsedIsPoised(n, run, f, a);
      LeadsIsClosed(s, OrUses(a));
      var r := Freed((x: State) => Leads(s, OrUses(a), x), s, f, a, s.owned[a]);
      var bad := ScheduleOf(s, OrUses(a), r);
      assert !LiveAccess(After(s, bad));
    } else {
      forall more | Feasible(s, more) && Obeys(s, more, OrUses(a)) ensures LiveAccess(After(s, more)) {
        FollowsOn(n, run, more, a);
        NoUseAfterFree(n, run + more);
      }
    }
  }

  /** With at least three: every id the client has names its bio in every run that
      follows if and only if the id is in force. */
  lemma {:induction false} IdsAreTrueIff(n: nat, run: Schedule, f: nat, a: nat)
    requires Feasible(Start(n), run) && Disciplined(Start(n), run) && AtRest(After(Start(n), run), f) && n >= 3
    requires a in After(Start(n), run).owned
    ensures var s := After(Start(n), run);
            (forall more :: Feasible(s, more) && Obeys(s, more, OrUses(a)) ==> Truthful(After(s, more)))
            <==> a !in s.lapsed
  {
    var s := After(Start(n), run);
    if a in s.lapsed {
      LapsedIsPoised(n, run, f, a);
      LeadsIsClosed(s, OrUses(a));
      var r := Confuses((x: State) => Leads(s, OrUses(a), x), s, f, a, s.owned[a]);
      var bad := ScheduleOf(s, OrUses(a), r);
      assert !Truthful(After(s, bad));
    } else {
      forall more | Feasible(s, more) && Obeys(s, more, OrUses(a)) ensures Truthful(After(s, more)) {
        FollowsOn(n, run, more, a);
        IdNamesItsBio(n, run + more);
      }
    }
  }

  /** With at least three: every bio is in one place in every run that follows if and only
      if the id is in force. */
  lemma {:induction false} BiosAreOnceIff(n: nat, run: Schedule, f: nat, a: nat)
    requires Feasible(Start(n), run) && Disciplined(Start(n), run) && AtRest(After(Start(n), run), f) && n >= 3
    requires a in After(Start(n), run).owned
    ensures var s := After(Start(n), run);
            (forall more :: Feasible(s, more) && Obeys(s, more, OrUses(a)) ==> B.Conserved(Abs(After(s, more))))
            <==> a !in s.lapsed
  {
    var s := After(Start(n), run);
    if a in s.lapsed {
      LapsedIsPoised(n, run, f, a);
      LeadsIsClosed(s, OrUses(a));
      var reach := (x: State) => Leads(s, OrUses(a), x);
      var r := Confuses(reach, s, f, a, s.owned[a]);
      r := Doubles(reach, r, 2, a);
      DoubledIsNotOnce(r, a);
      var bad := ScheduleOf(s, OrUses(a), r);
      assert !B.Conserved(Abs(After(s, bad)));
    } else {
      forall more | Feasible(s, more) && Obeys(s, more, OrUses(a)) ensures B.Conserved(Abs(After(s, more))) {
        FollowsOn(n, run, more, a);
        EveryBioOnce(n, run + more);
      }
    }
  }

  // ---- One such run ----------------------------------------------------------------------------

  /** Bio 0 was handed out at address 8, the tunnel was closed and opened again, and the
      client still holds the id. */
  predicate Reopened(s: State) {
    && s.pcs == [Idle, Idle, Idle] && s.inLock.None? && s.peLock.None? && s.armed == {}
    && s.open == {0} && s.closing == {} && s.session.NoSession?
    && s.incoming == [8] && s.pending == [] && s.owned == map[8 := 0] && s.lapsed == {8}
    && 8 in s.heap && s.heap[8].bio == 0 && !s.heap[8].done && s.submitted == 1 && s.ended == []
  }

  /** The bio was handed out, and nothing else has happened. */
  predicate HandedOver(s: State) {
    && s.pcs == [Idle, Idle, Idle] && s.inLock.None? && s.peLock.None? && s.armed == {}
    && s.open == {0} && s.closing == {} && s.session.NoSession?
    && s.incoming == [] && s.pending == [8] && s.owned == map[8 := 0] && s.lapsed == {}
    && 8 in s.heap && s.heap[8].bio == 0 && !s.heap[8].done && s.submitted == 1 && s.ended == []
  }

  lemma HandOverIn(reach: State -> bool, o: State) returns (s: State)
    requires Closed(reach) && reach(o) && o == Start(3).(open := {0})
    ensures reach(s) && HandedOver(s)
  {
    s := SubmitAlone(reach, o, 2, READ, 8);
    s := HeaderAlone(reach, s, 1, 0);
  }

  lemma ReopenIn(reach: State -> bool, o: State) returns (s: State)
    requires Closed(reach) && ClosedUnder(reach, WithDiscipline) && reach(o) && HandedOver(o)
    ensures reach(s) && Reopened(s)
  {
    assert reach(Next(o, 0, CallRelease(0)));
    s := ReleaseAlone(reach, o, 0, 0);
    assert reach(Next(s, 0, Open(0)));
    s := Next(s, 0, Open(0));
  }

  lemma ReopenedIsReached() returns (s: State)
    ensures Leads(Start(3), WithDiscipline, s) && Reopened(s)
  {
    LeadsIsClosed(Start(3), WithDiscipline);
    Take(Start(3), WithDiscipline, Start(3), 0, Open(0));
    var reach := (x: State) => Leads(Start(3), WithDiscipline, x);
    s := HandOverIn(reach, Next(Start(3), 0, Open(0)));
    s := ReopenIn(reach, s);
  }

  /** A schedule of one kind is one of any wider kind. */
  lemma {:induction false} Widen(o: State, run: Schedule, may: (State, Ev) -> bool, might: (State, Ev) -> bool)
    requires Feasible(o, run) && Obeys(o, run, may) && forall s, ev :: may(s, ev) ==> might(s, ev)
    ensures Obeys(o, run, might)
  {
    if run != [] {
      Widen(o, run[..|run| - 1], may, might);
    }
  }

  /** A disciplined run and one exception to it, with one file open at a time throughout. */
  lemma {:induction false} OneException(o: State, s: State, a: nat, r: State) returns (run: Schedule)
    requires Leads(o, WithDiscipline, s) && Leads(s, OrUses(a), r)
    ensures Feasible(o, run) && SingleFile(o, run) && After(o, run) == r
  {
    var first := ScheduleOf(o, WithDiscipline, s);
    var more := ScheduleOf(s, OrUses(a), r);
    Widen(o, first, WithDiscipline, WithOneFile);
    Widen(s, more, OrUses(a), WithOneFile);
    Join(o, first, more);
    JoinObeys(o, first, more, WithOneFile);
    run := first + more;
    ObeysOneFile(o, run);
  }

  lemma ReopenedIsPoised(s: State)
    requires Reopened(s)
    ensures Poised(s, 0, 1, 0, 8, 0)
  {
  }

  /** A client that closes, reopens and completes a bio it was handed before: a header read
      that was about to hand it out again is left with freed memory in its hands. */
  lemma {:induction false} LapsedUseFrees() returns (run: Schedule)
    ensures Feasible(Start(3), run) && SingleFile(Start(3), run) && !LiveAccess(After(Start(3), run))
  {
    var s := ReopenedIsReached();
    ReopenedIsPoised(s);
    LeadsIsClosed(s, OrUses(8));
    var r := Freed((x: State) => Leads(s, OrUses(8), x), s, 0, 8, 0);
    run := OneException(Start(3), s, 8, r);
  }

  /** If the address goes to bio 1 first, the client is told that it is bio 0's. */
  lemma {:induction false} LapsedUseMisnames() returns (run: Schedule)
    ensures Feasible(Start(3), run) && SingleFile(Start(3), run)
    ensures var s := After(Start(3), run);
            s.owned == map[8 := 0] && 8 in s.heap && s.heap[8].bio == 1 && s.ended == [0]
  {
    var s := ReopenedIsReached();
    ReopenedIsPoised(s);
    LeadsIsClosed(s, OrUses(8));
    var r := Confuses((x: State) => Leads(s, OrUses(8), x), s, 0, 8, 0);
    run := OneException(Start(3), s, 8, r);
  }

  /** And one submitter's step later bio 1 is on both lists. */
  lemma {:induction false} LapsedUseDoubles() returns (run: Schedule)
    ensures Feasible(Start(3), run) && SingleFile(Start(3), run)
    ensures var s := After(Start(3), run);
            s.incoming == [8] && s.pending == [8] && !B.Conserved(Abs(s))
  {
    var s := ReopenedIsReached();
    ReopenedIsPoised(s);
    LeadsIsClosed(s, OrUses(8));
    var reach := (x: State) => Leads(s, OrUses(8), x);
    var r := Confuses(reach, s, 0, 8, 0);
    r := Doubles(reach, r, 2, 8);
    DoubledIsNotOnce(r, 8);
    run := OneException(Start(3), s, 8, r);
  }
}
