/** What the invariants amount to, over every run of any number of threads. */
module TunnelSafety {
  import opened Common
  import opened TunnelThreads
  import opened TunnelLocks
  import opened TunnelWake
  import opened TunnelFiles
  import opened TunnelIdentity
  import opened TunnelIdentitySteps
  import opened TunnelRefinement
  import B = BioQueue

  /** No thread is ever about to dereference, relink or free an entry that is
      not live: no step of a disciplined run touches freed memory. */
  lemma {:induction false} NoUseAfterFree(n: nat, run: Schedule)
    requires Feasible(Start(n), run) && Disciplined(Start(n), run)
    ensures LiveAccess(After(Start(n), run))
  {
    var s := After(Start(n), run);
    IdentityAlways(n, run);
    forall t | 0 <= t < |s.pcs| && Touches(s.pcs[t]).Some?
      ensures Touches(s.pcs[t]).value in s.heap
    {
      LocalHolds(s, t);
      assert PrivateOf(s.pcs[t]).Some? ==> PrivateOf(s.pcs[t]).value in s.heap;
    }
  }

  /** The id of a delivered request names the bio its header carried, however often its
      address was used before, and however often the tunnel has been closed since: this
      holds of every id the client has, in force or not, and of the entry a transfer or
      a completion has fetched.  An id in force is pending. */
  lemma {:induction false} IdNamesItsBio(n: nat, run: Schedule)
    requires Feasible(Start(n), run) && Disciplined(Start(n), run)
    ensures var s := After(Start(n), run);
            && (forall a :: a in s.owned ==> Carries(s, a, s.owned[a]))
            && (forall a :: a in s.owned && a !in s.lapsed ==> Awaits(s, a, s.owned[a]))
            && (forall t :: 0 <= t < |s.pcs| && (s.pcs[t].Using? || s.pcs[t].Ending?) ==>
                  && HoldsSession(s, t)
                  && var e := if s.pcs[t].Using? then s.pcs[t].e else s.pcs[t].en.e;
                     e == s.session.a && e in s.heap && s.heap[e].bio == s.session.b)
  {
    var s := After(Start(n), run);
    IdentityAlways(n, run);
    forall t | 0 <= t < |s.pcs| && (s.pcs[t].Using? || s.pcs[t].Ending?)
      ensures HoldsSession(s, t)
      ensures var e := if s.pcs[t].Using? then s.pcs[t].e else s.pcs[t].en.e;
              e == s.session.a && e in s.heap && s.heap[e].bio == s.session.b
    {
      LocalHolds(s, t);
    }
  }

  /** A completion holds only the pending lock when it unlinks its entry, and the
      entry is then on the pending list, never on the incoming one: whatever was
      closed before, only ids in force are completed. */
  lemma {:induction false} CompletionUnlinksPending(n: nat, run: Schedule, t: nat)
    requires Feasible(Start(n), run) && Disciplined(Start(n), run)
    requires t < |After(Start(n), run).pcs|
    requires After(Start(n), run).pcs[t].Ending? && After(Start(n), run).pcs[t].en.EnUnlink?
    ensures var s := After(Start(n), run);
            && s.peLock == Some(t)
            && s.pcs[t].en.e in s.pending && s.pcs[t].en.e !in s.incoming
  {
    LocksAlways(n, run);
    IdentityAlways(n, run);
    LocalHolds(After(Start(n), run), t);
  }

  /** Exactly-once completion in every interleaving, closes and reopens included:
      each submitted bio is allocated and not yet queued, or incoming, or pending,
      or ended - in one of these places, once. */
  lemma {:induction false} EveryBioOnce(n: nat, run: Schedule)
    requires Feasible(Start(n), run) && Disciplined(Start(n), run)
    ensures B.Conserved(Abs(After(Start(n), run)))
  {
    RunsRefine(n, run);
    B.ExactlyOnce(B.EMPTY, Ops(Start(n), run));
  }

  // Only a completion ends a bio inside a call.

  lemma MrEnds(s: State, t: nat, d: Dir, m: MrPc)
    requires t < |s.pcs| && (m.MrAdd? ==> m.a in s.heap)
    ensures MrStep(s, t, d, m).ended == s.ended
  {
  }

  lemma RdEnds(s: State, t: nat, f: nat, m: RdPc, c: bool)
    requires t < |s.pcs|
    ensures RdStep(s, t, f, m, c).ended == s.ended
  {
  }

  lemma DlEnds(s: State, t: nat, f: nat, m: DlPc)
    requires t < |s.pcs| && (m.DlFill? || m.DlMove? ==> m.a in s.heap)
    ensures DlStep(s, t, f, m).ended == s.ended
  {
  }

  lemma SetEnds(s: State, t: nat, f: nat, m: SetPc)
    requires t < |s.pcs|
    ensures SetStep(s, t, f, m).ended == s.ended
  {
  }

  lemma FtEnds(s: State, t: nat, f: nat, e: bool, m: FtPc)
    requires t < |s.pcs|
    ensures FtStep(s, t, f, e, m).ended == s.ended
  {
  }

  lemma EnEnds(s: State, t: nat, f: nat, m: EnPc)
    requires t < |s.pcs| && (!m.EnLock? && !m.EnUnlock? ==> m.e in s.heap)
    ensures s.ended <= EnStep(s, t, f, m).ended
  {
  }

  lemma PlEnds(s: State, t: nat, f: nat, m: PlPc)
    requires t < |s.pcs|
    ensures PlStep(s, t, f, m).ended == s.ended
  {
  }

  lemma RlEnds(s: State, t: nat, f: nat, m: RlPc)
    requires t < |s.pcs|
    ensures RlStep(s, t, f, m).ended == s.ended
  {
  }

  lemma KernelEnds(s: State, t: nat, c: bool)
    requires t < |s.pcs| && KernelEnabled(s, t, c)
    ensures s.ended <= Kernel(s, t, c).ended
  {
    match s.pcs[t]
    case Submitting(d, m) => MrEnds(s, t, d, m);
    case Reading(f, m) => RdEnds(s, t, f, m, c);
    case Delivering(f, m) => DlEnds(s, t, f, m);
    case Setting(f, m) => SetEnds(s, t, f, m);
    case Fetching(f, e, m) => FtEnds(s, t, f, e, m);
    case Ending(f, m) => EnEnds(s, t, f, m);
    case Using(f, e) =>
    case Polling(f, m) => PlEnds(s, t, f, m);
    case Releasing(f, m) => RlEnds(s, t, f, m);
  }

  /** What has ended stays ended, in every run from every state, whatever the client
      does. */
  lemma {:induction false} EndedOnlyGrows(s: State, run: Schedule, j: nat)
    requires Feasible(s, run) && j <= |run|
    ensures Feasible(s, run[..j]) && After(s, run[..j]).ended <= After(s, run).ended
  {
    if j == |run| {
      assert run[..j] == run;
    } else {
      var front, last := run[..|run| - 1], run[|run| - 1];
      EndedOnlyGrows(s, front, j);
      assert front[..j] == run[..j];
      if last.1.Go? {
        KernelEnds(After(s, front), last.0, last.1.choice);
      }
    }
  }

  /** Progress: while some thread is inside a call, some thread inside a call can
      take its next step, unless every such thread sleeps on an empty list. */
  lemma {:induction false} Progress(n: nat, run: Schedule, t: nat)
    requires Feasible(Start(n), run) && Disciplined(Start(n), run)
    requires t < |After(Start(n), run).pcs| && !After(Start(n), run).pcs[t].Idle?
    ensures var s := After(Start(n), run);
            || (exists u :: 0 <= u < |s.pcs| && !s.pcs[u].Idle? && !Sleeping(s, u) && CanStep(s, u))
            || (s.incoming == [] && forall u :: 0 <= u < |s.pcs| && !s.pcs[u].Idle? ==> Sleeping(s, u))
  {
    var s := After(Start(n), run);
    LocksAlways(n, run);
    NoUseAfterFree(n, run);
    DisciplinedIsSingle(Start(n), run);
    NoWakeupIsLost(n, run);
    if u :| 0 <= u < |s.pcs| && !s.pcs[u].Idle? && !Sleeping(s, u) {
      var v := SomeoneCanStep(s, u);
    } else {
      assert Sleeping(s, t) && Committed(s, t);
      forall u | 0 <= u < |s.pcs| ensures !Waking(s, u) {
        assert s.pcs[u].Idle? || Sleeping(s, u);
      }
    }
  }
}
