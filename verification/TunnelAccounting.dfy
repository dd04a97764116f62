/** The in-flight counters.  A submitter counts its bio only after queueing it,
    and a completer uncounts it only after ending it, so the counter is out of
    step with the lists in between; here is by exactly how much. */
module TunnelAccounting {
  import opened Common
  import opened TunnelThreads
  import opened TunnelIdentity
  import opened TunnelIdentitySteps
  import opened TunnelLive
  import opened TunnelRefinement

  datatype Phase =
    | Uncounted    // bio queued, part_inc_in_flight still to come
    | Undropped    // bio ended, part_dec_in_flight still to come

  predicate InPhase(pc: Pc, ph: Phase, d: Dir) {
    match ph
    case Uncounted => pc.Submitting? && pc.d == d && !pc.mr.MrLock? && !pc.mr.MrAdd?
    case Undropped => pc.Ending? && pc.en.EnUncount? && pc.en.d == d
  }

  function Weight(pc: Pc, ph: Phase, d: Dir): nat {
    if InPhase(pc, ph, d) then 1 else 0
  }

  /** How many threads are in a phase. */
  function Threads(pcs: seq<Pc>, ph: Phase, d: Dir): nat {
    if pcs == [] then 0
    else Threads(pcs[..|pcs| - 1], ph, d) + Weight(pcs[|pcs| - 1], ph, d)
  }

  /** The un-ended bios of one direction on the two lists. */
  function OnLists(s: State, d: Dir): nat {
    |Live(s.heap, s.incoming, Some(d))| + |Live(s.heap, s.pending, Some(d))|
  }

  ghost predicate Balanced(s: State) {
    forall d :: Inflight(s, d)
                == OnLists(s, d) - Threads(s.pcs, Uncounted, d) + Threads(s.pcs, Undropped, d)
  }

  lemma {:induction false} ThreadsUpdate(pcs: seq<Pc>, t: nat, pc: Pc, ph: Phase, d: Dir)
    requires t < |pcs|
    ensures Threads(pcs[t := pc], ph, d) == Threads(pcs, ph, d) - Weight(pcs[t], ph, d) + Weight(pc, ph, d)
  {
    var last := |pcs| - 1;
    if t == last {
      assert pcs[t := pc][..last] == pcs[..last];
    } else {
      ThreadsUpdate(pcs[..last], t, pc, ph, d);
      assert pcs[t := pc][..last] == pcs[..last][t := pc];
    }
  }

  /** What one thread's step adds to the counter, to the lists and to its own
      phase cancels out. */
  predicate Ledger(s: State, t: nat, r: State, d: Dir) {
    && t < |s.pcs| == |r.pcs| && r.pcs == s.pcs[t := r.pcs[t]]
    && Inflight(r, d) - OnLists(r, d) + Weight(r.pcs[t], Uncounted, d) - Weight(r.pcs[t], Undropped, d)
       == Inflight(s, d) - OnLists(s, d) + Weight(s.pcs[t], Uncounted, d) - Weight(s.pcs[t], Undropped, d)
  }

  lemma LedgerBalances(s: State, t: nat, r: State)
    requires Balanced(s) && forall d :: Ledger(s, t, r, d)
    ensures Balanced(r)
  {
    forall d ensures Inflight(r, d) == OnLists(r, d) - Threads(r.pcs, Uncounted, d) + Threads(r.pcs, Undropped, d) {
      assert Ledger(s, t, r, d);
      ThreadsUpdate(s.pcs, t, r.pcs[t], Uncounted, d);
      ThreadsUpdate(s.pcs, t, r.pcs[t], Undropped, d);
    }
  }

  // ---- The steps that change the lists ------------------------------------------------

  lemma EnqueueLedger(s: State, t: nat, d: Dir, a: nat, k: Dir)
    requires t < |s.pcs| && s.pcs[t] == Submitting(d, MrAdd(a))
    requires Lists(s) && a in s.heap && s.heap[a].place == Private(t) && !s.heap[a].done && s.heap[a].dir == d
    ensures Ledger(s, t, MrStep(s, t, d, MrAdd(a)), k)
  {
    var heap := s.heap[a := s.heap[a].(place := OnIncoming)];
    LiveSame(s.heap, heap, s.incoming, Some(k));
    LiveSame(s.heap, heap, s.pending, Some(k));
    assert (s.incoming + [a])[..|s.incoming|] == s.incoming;
    assert Wanted(heap, a, Some(k)) <==> d == k;
  }

  lemma DeliverLedger(s: State, t: nat, f: nat, a: nat, b: nat, k: Dir)
    requires t < |s.pcs| && s.pcs[t] == Delivering(f, DlMove(a, b))
    requires Distinct(s.incoming) && a !in s.pending && Heads(s, a, b)
    ensures Ledger(s, t, DlStep(s, t, f, DlMove(a, b)), k)
  {
    LiveMove(s.heap, s.incoming, s.pending, s.heap[a].(place := OnPending), Some(k));
    assert Without(s.pending, a) == s.pending;
  }

  lemma EndLedger(s: State, t: nat, f: nat, e: nat, k: Dir)
    requires t < |s.pcs| && s.pcs[t] == Ending(f, EnEnd(e))
    requires Lists(s) && Bios(s) && e in s.heap && s.heap[e].place.OnPending? && !s.heap[e].done
    ensures Ledger(s, t, EnStep(s, t, f, EnEnd(e)), k)
  {
    var heap := s.heap[e := s.heap[e].(done := true)];
    assert e in s.pending && e !in s.incoming;
    LiveSame(s.heap, heap, s.incoming, Some(k));
    if s.heap[e].dir == k {
      LiveMember(s.heap, s.pending, Some(k), s.heap[e].bio);
      assert Wanted(s.heap, e, Some(k));
      LiveEnd(s.heap, s.pending, e, Some(k));
      LiveDistinct(s.heap, s.pending, Some(k));
      WithoutLength(Live(s.heap, s.pending, Some(k)), s.heap[e].bio);
    } else {
      LiveSame(s.heap, heap, s.pending, Some(k));
    }
  }

  lemma DetachLedger(s: State, t: nat, f: nat, e: nat, k: Dir)
    requires t < |s.pcs| && s.pcs[t] == Ending(f, EnUnlink(e))
    requires e in s.heap && s.heap[e].done
    ensures Ledger(s, t, EnStep(s, t, f, EnUnlink(e)), k)
  {
    var to := s.heap[e].(place := Private(t));
    LiveDetach(s.heap, s.incoming, e, to, Some(k));
    LiveDetach(s.heap, s.pending, e, to, Some(k));
  }

  lemma FreeLedger(s: State, t: nat, f: nat, e: nat, k: Dir)
    requires t < |s.pcs| && s.pcs[t] == Ending(f, EnFree(e))
    requires Lists(s) && e in s.heap && s.heap[e].place.Private?
    ensures Ledger(s, t, EnStep(s, t, f, EnFree(e)), k)
  {
    assert e !in s.incoming && e !in s.pending;
    LiveSame(s.heap, s.heap - {e}, s.incoming, Some(k));
    LiveSame(s.heap, s.heap - {e}, s.pending, Some(k));
  }

  lemma SpliceLedger(s: State, t: nat, f: nat, k: Dir)
    requires t < |s.pcs| && s.pcs[t] == Releasing(f, RlSplice)
    ensures Ledger(s, t, RlStep(s, t, f, RlSplice), k)
  {
    LiveConcat(s.heap, s.incoming, s.pending, Some(k));
    LiveSame(s.heap, Relinked(s.heap, s.pending), s.incoming + s.pending, Some(k));
  }

  lemma SubmitLedger(s: State, t: nat, d: Dir, a: nat, k: Dir)
    requires Enabled(s, t, Submit(d, a)) && Lists(s)
    ensures Ledger(s, t, Call(s, t, Submit(d, a)), k)
  {
    var r := Call(s, t, Submit(d, a));
    assert a !in s.incoming && a !in s.pending;
    LiveSame(s.heap, r.heap, s.incoming, Some(k));
    LiveSame(s.heap, r.heap, s.pending, Some(k));
  }

  // ---- Every step -------------------------------------------------------------------

  lemma MrLedger(s: State, t: nat, d: Dir, m: MrPc, k: Dir)
    requires t < |s.pcs| && s.pcs[t] == Submitting(d, m) && KernelEnabled(s, t, true)
    requires Identity(s)
    ensures Ledger(s, t, MrStep(s, t, d, m), k)
  {
    if m.MrAdd? {
      InHandIsUnended(s, t, d, m.a); EnqueueLedger(s, t, d, m.a, k);
    }
  }

  lemma DlLedger(s: State, t: nat, f: nat, m: DlPc, k: Dir)
    requires t < |s.pcs| && s.pcs[t] == Delivering(f, m) && KernelEnabled(s, t, true)
    requires Lists(s) && Bios(s) && Client(s) && Local(s, t)
    ensures Ledger(s, t, DlStep(s, t, f, m), k)
  {
    if m.DlMove? {
      DeliverLedger(s, t, f, m.a, m.b, k);
    }
  }

  lemma EnLedger(s: State, t: nat, f: nat, m: EnPc, k: Dir)
    requires t < |s.pcs| && s.pcs[t] == Ending(f, m) && KernelEnabled(s, t, true)
    requires Lists(s) && Bios(s) && Privates(s) && Local(s, t)
    ensures Ledger(s, t, EnStep(s, t, f, m), k)
  {
    match m
    case EnEnd(e) => EndLedger(s, t, f, e, k);
    case EnUnlink(e) => DetachLedger(s, t, f, e, k);
    case EnFree(e) => FreeLedger(s, t, f, e, k);
    case _ =>
  }

  lemma RlLedger(s: State, t: nat, f: nat, m: RlPc, k: Dir)
    requires t < |s.pcs| && s.pcs[t] == Releasing(f, m) && KernelEnabled(s, t, true)
    ensures Ledger(s, t, RlStep(s, t, f, m), k)
  {
    if m.RlSplice? {
      SpliceLedger(s, t, f, k);
    }
  }

  lemma RdLedger(s: State, t: nat, f: nat, m: RdPc, c: bool, k: Dir)
    requires t < |s.pcs| && s.pcs[t] == Reading(f, m) && KernelEnabled(s, t, c)
    ensures Ledger(s, t, RdStep(s, t, f, m, c), k)
  {
  }

  lemma SetLedger(s: State, t: nat, f: nat, m: SetPc, k: Dir)
    requires t < |s.pcs| && s.pcs[t] == Setting(f, m) && KernelEnabled(s, t, true)
    ensures Ledger(s, t, SetStep(s, t, f, m), k)
  {
  }

  lemma FtLedger(s: State, t: nat, f: nat, e: bool, m: FtPc, k: Dir)
    requires t < |s.pcs| && s.pcs[t] == Fetching(f, e, m) && KernelEnabled(s, t, true)
    ensures Ledger(s, t, FtStep(s, t, f, e, m), k)
  {
  }

  lemma UseLedger(s: State, t: nat, f: nat, e: nat, c: bool, k: Dir)
    requires t < |s.pcs| && s.pcs[t] == Using(f, e) && KernelEnabled(s, t, c)
    ensures Ledger(s, t, UseStep(s, t, c), k)
  {
  }

  lemma PlLedger(s: State, t: nat, f: nat, m: PlPc, k: Dir)
    requires t < |s.pcs| && s.pcs[t] == Polling(f, m) && KernelEnabled(s, t, true)
    ensures Ledger(s, t, PlStep(s, t, f, m), k)
  {
  }

  lemma CallLedger(s: State, t: nat, ev: Ev, k: Dir)
    requires t < |s.pcs| && CallEnabled(s, t, ev) && Lists(s)
    ensures Ledger(s, t, Call(s, t, ev), k)
  {
    if ev.Submit? {
      SubmitLedger(s, t, ev.d, ev.a, k);
    }
  }

  lemma KernelLedger(s: State, t: nat, c: bool, k: Dir)
    requires Identity(s) && t < |s.pcs| && KernelEnabled(s, t, c)
    ensures Ledger(s, t, Kernel(s, t, c), k)
  {
    LocalHolds(s, t);
    match s.pcs[t]
    case Submitting(d, m) => MrLedger(s, t, d, m, k);
    case Reading(f, m) => RdLedger(s, t, f, m, c, k);
    case Delivering(f, m) => DlLedger(s, t, f, m, k);
    case Setting(f, m) => SetLedger(s, t, f, m, k);
    case Fetching(f, e, m) => FtLedger(s, t, f, e, m, k);
    case Ending(f, m) => EnLedger(s, t, f, m, k);
    case Using(f, e) => UseLedger(s, t, f, e, c, k);
    case Polling(f, m) => PlLedger(s, t, f, m, k);
    case Releasing(f, m) => RlLedger(s, t, f, m, k);
  }

  lemma BalanceStep(s: State, t: nat, ev: Ev)
    requires Identity(s) && Balanced(s) && Enabled(s, t, ev)
    ensures Balanced(Next(s, t, ev))
  {
    forall k ensures Ledger(s, t, Next(s, t, ev), k) {
      if ev.Go? {
        KernelLedger(s, t, ev.choice, k);
      } else {
        CallLedger(s, t, ev, k);
      }
    }
    LedgerBalances(s, t, Next(s, t, ev));
  }

  lemma {:induction false} BalanceAlways(n: nat, run: Schedule)
    requires Feasible(Start(n), run) && Disciplined(Start(n), run)
    ensures Balanced(After(Start(n), run))
  {
    if run == [] {
      NoThreads(Start(n).pcs);
    } else {
      var front, last := run[..|run| - 1], run[|run| - 1];
      BalanceAlways(n, front);
      IdentityAlways(n, front);
      BalanceStep(After(Start(n), front), last.0, last.1);
    }
  }

  lemma {:induction false} NoThreads(pcs: seq<Pc>)
    requires forall t :: 0 <= t < |pcs| ==>
               forall ph, d :: !InPhase(pcs[t], ph, d)
    ensures forall ph, d :: Threads(pcs, ph, d) == 0
  {
    if pcs != [] {
      NoThreads(pcs[..|pcs| - 1]);
    }
  }

  /** In every reachable state the counter of a direction is the number of its
      un-ended bios on the two lists, less the submitters yet to count, plus the
      completers yet to uncount.  When no thread is in either of those gaps it is
      exactly the number of such bios. */
  lemma {:induction false} InflightIsExact(n: nat, run: Schedule, d: Dir)
    requires Feasible(Start(n), run) && Disciplined(Start(n), run)
    ensures var s := After(Start(n), run);
            && (if d == READ then s.inRead else s.inWrite)
               == OnLists(s, d) - Threads(s.pcs, Uncounted, d) + Threads(s.pcs, Undropped, d)
            && ((forall t :: 0 <= t < |s.pcs| ==>
                   forall ph, k :: !InPhase(s.pcs[t], ph, k)) ==> Inflight(s, d) == OnLists(s, d))
  {
    var s := After(Start(n), run);
    BalanceAlways(n, run);
    if forall t :: 0 <= t < |s.pcs| ==> forall ph, k :: !InPhase(s.pcs[t], ph, k) {
      NoThreads(s.pcs);
    }
  }
}
