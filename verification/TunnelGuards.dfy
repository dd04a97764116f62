/** What each list mutex protects: in disciplined runs a list changes only in the hands of
    the thread that holds its mutex, so what a poll saw is still so when it lets go. */
module TunnelGuards {
  import opened Common
  import opened TunnelThreads
  import opened TunnelLocks
  import opened TunnelIdentity
  import opened TunnelIdentitySteps

  /** A poll that has looked at the list, and what it saw. */
  predicate Looked(pc: Pc) {
    pc.Polling? && pc.pl.PlUnlock?
  }

  /** A step changes a list only if its thread holds the list's mutex, and a poll that looks
      sees what is there. */
  predicate Guarded(s: State, t: nat, r: State)
    requires t < |s.pcs|
  {
    && (r.incoming == s.incoming || HoldsIn(s.pcs[t]))
    && (r.pending == s.pending || HoldsPe(s.pcs[t]))
    && t < |r.pcs|
    && (Looked(r.pcs[t]) ==> r.incoming == s.incoming && (r.pcs[t].pl.readable <==> s.incoming != []))
  }

  lemma MrGuarded(s: State, t: nat, d: Dir, m: MrPc)
    requires t < |s.pcs| && s.pcs[t] == Submitting(d, m) && (m.MrAdd? ==> m.a in s.heap)
    ensures Guarded(s, t, MrStep(s, t, d, m))
  {
  }

  lemma RdGuarded(s: State, t: nat, f: nat, m: RdPc, c: bool)
    requires t < |s.pcs| && s.pcs[t] == Reading(f, m)
    ensures Guarded(s, t, RdStep(s, t, f, m, c))
  {
  }

  lemma DlGuarded(s: State, t: nat, f: nat, m: DlPc)
    requires t < |s.pcs| && s.pcs[t] == Delivering(f, m) && (m.DlFill? || m.DlMove? ==> m.a in s.heap)
    ensures Guarded(s, t, DlStep(s, t, f, m))
  {
  }

  lemma EnGuarded(s: State, t: nat, f: nat, m: EnPc)
    requires t < |s.pcs| && s.pcs[t] == Ending(f, m) && (!m.EnLock? && !m.EnUnlock? ==> m.e in s.heap)
    requires Lists(s) && Client(s)
    ensures Guarded(s, t, EnStep(s, t, f, m))
  {
    if m.EnUnlink? {
      assert HoldsSession(s, t) && SessionPc(s, s.pcs[t]);
      assert m.e !in s.incoming;
    }
  }

  lemma SetGuarded(s: State, t: nat, f: nat, m: SetPc)
    requires t < |s.pcs| && s.pcs[t] == Setting(f, m)
    ensures Guarded(s, t, SetStep(s, t, f, m))
  {
  }

  lemma FtGuarded(s: State, t: nat, f: nat, e: bool, m: FtPc)
    requires t < |s.pcs| && s.pcs[t] == Fetching(f, e, m)
    ensures Guarded(s, t, FtStep(s, t, f, e, m))
  {
  }

  lemma UseGuarded(s: State, t: nat, c: bool)
    requires t < |s.pcs| && s.pcs[t].Using?
    ensures Guarded(s, t, UseStep(s, t, c))
  {
  }

  lemma PlGuarded(s: State, t: nat, f: nat, m: PlPc)
    requires t < |s.pcs| && s.pcs[t] == Polling(f, m)
    ensures Guarded(s, t, PlStep(s, t, f, m))
  {
  }

  lemma CallGuarded(s: State, t: nat, ev: Ev)
    requires t < |s.pcs| && CallEnabled(s, t, ev)
    ensures Guarded(s, t, Call(s, t, ev))
  {
  }

  lemma RlGuarded(s: State, t: nat, f: nat, m: RlPc)
    requires t < |s.pcs| && s.pcs[t] == Releasing(f, m)
    ensures Guarded(s, t, RlStep(s, t, f, m))
  {
  }

  lemma StepGuarded(s: State, t: nat, ev: Ev)
    requires Enabled(s, t, ev) && Lists(s) && Client(s)
    ensures Guarded(s, t, Next(s, t, ev))
  {
    if ev.Go? {
      match s.pcs[t]
      case Submitting(d, m) => MrGuarded(s, t, d, m);
      case Reading(f, m) => RdGuarded(s, t, f, m, ev.choice);
      case Delivering(f, m) => DlGuarded(s, t, f, m);
      case Ending(f, m) => EnGuarded(s, t, f, m);
      case Releasing(f, m) => RlGuarded(s, t, f, m);
      case Setting(f, m) => SetGuarded(s, t, f, m);
      case Fetching(f, e, m) => FtGuarded(s, t, f, e, m);
      case Using(_, _) => UseGuarded(s, t, ev.choice);
      case Polling(f, m) => PlGuarded(s, t, f, m);
    } else {
      CallGuarded(s, t, ev);
    }
  }

  /** In every disciplined run each list changes only under its own mutex, completions
      included: they hold the pending list's alone, and change that list alone. */
  lemma {:induction false} ListsAreGuarded(n: nat, run: Schedule, t: nat, ev: Ev)
    requires Feasible(Start(n), run) && Disciplined(Start(n), run) && Enabled(After(Start(n), run), t, ev)
    ensures var s, r := After(Start(n), run), Next(After(Start(n), run), t, ev);
            && (r.incoming != s.incoming ==> s.inLock == Some(t))
            && (r.pending != s.pending ==> s.peLock == Some(t))
  {
    LocksAlways(n, run);
    IdentityAlways(n, run);
    StepGuarded(After(Start(n), run), t, ev);
  }

  // ---- What a poll answers -------------------------------------------------------------------

  /** Every poll that has looked is right as long as it holds the mutex. */
  ghost predicate PollsTrue(s: State) {
    forall t :: 0 <= t < |s.pcs| && Looked(s.pcs[t]) ==> (s.pcs[t].pl.readable <==> s.incoming != [])
  }

  lemma PollsStay(s: State, t: nat, ev: Ev)
    requires Enabled(s, t, ev) && PollsTrue(s) && Locks(s) && Lists(s) && Client(s)
    ensures PollsTrue(Next(s, t, ev))
  {
    var r := Next(s, t, ev);
    NextShape(s, t, ev);
    StepGuarded(s, t, ev);
    forall u | 0 <= u < |r.pcs| && Looked(r.pcs[u])
      ensures r.pcs[u].pl.readable <==> r.incoming != []
    {
      if u != t {
        assert HoldsIn(s.pcs[u]) && s.inLock == Some(u);
      }
    }
  }

  /** A poll says readable exactly when the list is not empty, and that is still so at the
      moment it gives up the mutex. */
  lemma {:induction false} PollIsTrue(n: nat, run: Schedule)
    requires Feasible(Start(n), run) && Disciplined(Start(n), run)
    ensures PollsTrue(After(Start(n), run))
  {
    if run != [] {
      var front, last := run[..|run| - 1], run[|run| - 1];
      PollIsTrue(n, front);
      LocksAlways(n, front);
      IdentityAlways(n, front);
      PollsStay(After(Start(n), front), last.0, last.1);
    }
  }
}
