/** The interleaved threads refine the queue of unique serials: every step is
    either invisible or exactly one queue operation, so whatever holds of every
    run of the queue holds of every disciplined run of the threads.  A
    completion byte, which names its entry by address, is always the queue's
    completion of the one bio the client was given under that address. */
module TunnelRefinement {
  import opened Common
  import opened TunnelThreads
  import opened TunnelLocks
  import opened TunnelIdentity
  import opened TunnelIdentitySteps
  import opened TunnelLive
  import B = BioQueue

  /** The bios whose entry is allocated but not yet queued. */
  function Hand(heap: map<nat, Entry>, home: map<nat, nat>): set<nat> {
    set b | b in home && home[b] in heap && heap[home[b]].place.Private? && !heap[home[b]].done
  }

  function Abs(s: State): B.Queue {
    B.Queue(s.submitted, Hand(s.heap, s.home),
            Live(s.heap, s.incoming, EITHER), Live(s.heap, s.pending, EITHER), s.ended)
  }

  /** The queue operation a step inside a call performs, if it performs one. */
  function KernelOp(heap: map<nat, Entry>, pc: Pc): seq<B.Op>
    requires Touches(pc).Some? ==> Touches(pc).value in heap
  {
    match pc
    case Submitting(_, m) => if m.MrAdd? then [B.Enqueue(heap[m.a].bio)] else []
    case Delivering(_, m) => if m.DlMove? then [B.Deliver] else []
    case Ending(_, m) => if m.EnEnd? then [B.Complete(heap[m.e].bio)] else []
    case Releasing(_, m) => if m.RlSplice? then [B.Close] else []
    case _ => []
  }

  function OpOf(s: State, t: nat, ev: Ev): seq<B.Op>
    requires Enabled(s, t, ev)
  {
    match ev
    case Submit(_, _) => [B.Arrive]
    case SubmitFail(_) => [B.Refuse]
    case Go(_) => KernelOp(s.heap, s.pcs[t])
    case _ => []
  }

  /** The queue before and after is related by at most one operation, and a completion
      is of a bio that has been handed out. */
  ghost predicate Simulates(q: B.Queue, ops: seq<B.Op>, r: B.Queue) {
    if ops == [] then r == q
    else
      && |ops| == 1 && B.Enabled(q, ops[0]) && r == B.Apply(q, ops[0])
      && (ops[0].Complete? ==> ops[0].bio in q.pending && ops[0].bio !in q.incoming)
  }

  predicate Unmoved(s: State, r: State) {
    && r.heap == s.heap && r.incoming == s.incoming && r.pending == s.pending
    && r.submitted == s.submitted && r.ended == s.ended && r.home == s.home
  }

  // ---- The steps that move an entry -----------------------------------------------------

  /** Relinking one entry changes only whether its own bio is in hand. */
  lemma HandRelink(s: State, a: nat, to: Entry)
    requires Bios(s) && a in s.heap && to.bio == s.heap[a].bio
    ensures Hand(s.heap[a := to], s.home)
            == if to.place.Private? && !to.done then Hand(s.heap, s.home) + {to.bio}
               else Hand(s.heap, s.home) - {to.bio}
  {
    assert forall b :: b in s.home && s.home[b] == a ==> b == to.bio;
  }

  /** An entry on a list, or ended, is in no one's hand. */
  lemma NotInHand(s: State, a: nat)
    requires Bios(s) && a in s.heap && (!s.heap[a].place.Private? || s.heap[a].done)
    ensures s.heap[a].bio !in Hand(s.heap, s.home)
  {
  }

  lemma EnqueueSimulates(s: State, t: nat, d: Dir, a: nat)
    requires t < |s.pcs| && s.pcs[t] == Submitting(d, MrAdd(a))
    requires Lists(s) && Bios(s) && a in s.heap && s.heap[a].place == Private(t) && !s.heap[a].done
    ensures Simulates(Abs(s), [B.Enqueue(s.heap[a].bio)], Abs(MrStep(s, t, d, MrAdd(a))))
  {
    var heap := s.heap[a := s.heap[a].(place := OnIncoming)];
    HandRelink(s, a, heap[a]);
    LiveSame(s.heap, heap, s.incoming, EITHER);
    LiveSame(s.heap, heap, s.pending, EITHER);
    assert (s.incoming + [a])[..|s.incoming|] == s.incoming;
    assert Wanted(heap, a, EITHER);
  }

  lemma DeliverSimulates(s: State, t: nat, f: nat, a: nat, b: nat)
    requires t < |s.pcs| && s.pcs[t] == Delivering(f, DlMove(a, b))
    requires Distinct(s.incoming) && a !in s.pending && Bios(s) && Heads(s, a, b)
    ensures Simulates(Abs(s), [B.Deliver], Abs(DlStep(s, t, f, DlMove(a, b))))
  {
    var to := s.heap[a].(place := OnPending);
    LiveMove(s.heap, s.incoming, s.pending, to, EITHER);
    assert Without(s.pending, a) == s.pending;
    HandRelink(s, a, to);
    NotInHand(s, a);
  }

  lemma CompleteSimulates(s: State, t: nat, f: nat, e: nat)
    requires t < |s.pcs| && s.pcs[t] == Ending(f, EnEnd(e))
    requires Lists(s) && Bios(s) && e in s.heap && s.heap[e].place.OnPending? && !s.heap[e].done
    ensures Simulates(Abs(s), [B.Complete(s.heap[e].bio)], Abs(EnStep(s, t, f, EnEnd(e))))
  {
    var b := s.heap[e].bio;
    var heap := s.heap[e := s.heap[e].(done := true)];
    LiveMember(s.heap, s.pending, EITHER, b);
    assert e in s.pending && e !in s.incoming && Wanted(s.heap, e, EITHER);
    LiveEnd(s.heap, s.pending, e, EITHER);
    LiveSame(s.heap, heap, s.incoming, EITHER);
    NotLive(s.heap, s.incoming, e);
    HandRelink(s, e, heap[e]);
    NotInHand(s, e);
  }

  /** A bio is on a list only through its own entry. */
  lemma NotLive(heap: map<nat, Entry>, list: seq<nat>, e: nat)
    requires e in heap && e !in list
    requires forall a :: a in heap && heap[a].bio == heap[e].bio ==> a == e
    ensures heap[e].bio !in Live(heap, list, EITHER)
  {
    LiveMember(heap, list, EITHER, heap[e].bio);
  }

  lemma DetachSimulates(s: State, t: nat, f: nat, e: nat)
    requires t < |s.pcs| && s.pcs[t] == Ending(f, EnUnlink(e))
    requires Bios(s) && e in s.heap && s.heap[e].done
    ensures Simulates(Abs(s), [], Abs(EnStep(s, t, f, EnUnlink(e))))
  {
    var to := s.heap[e].(place := Private(t));
    LiveDetach(s.heap, s.incoming, e, to, EITHER);
    LiveDetach(s.heap, s.pending, e, to, EITHER);
    HandRelink(s, e, to);
    NotInHand(s, e);
  }

  lemma FreeSimulates(s: State, t: nat, f: nat, e: nat)
    requires t < |s.pcs| && s.pcs[t] == Ending(f, EnFree(e))
    requires Lists(s) && Bios(s) && e in s.heap && s.heap[e].done && s.heap[e].place.Private?
    ensures Simulates(Abs(s), [], Abs(EnStep(s, t, f, EnFree(e))))
  {
    var r := EnStep(s, t, f, EnFree(e));
    assert e !in s.incoming && e !in s.pending;
    LiveSame(s.heap, r.heap, s.incoming, EITHER);
    LiveSame(s.heap, r.heap, s.pending, EITHER);
    NotInHand(s, e);
    assert forall b :: b in s.home && s.home[b] == e ==> b == s.heap[e].bio;
    assert Hand(r.heap, r.home) == Hand(s.heap, s.home);
  }

  lemma SpliceSimulates(s: State, t: nat, f: nat)
    requires t < |s.pcs| && s.pcs[t] == Releasing(f, RlSplice)
    requires Lists(s) && Bios(s)
    ensures Simulates(Abs(s), [B.Close], Abs(RlStep(s, t, f, RlSplice)))
  {
    var heap := Relinked(s.heap, s.pending);
    LiveConcat(s.heap, s.incoming, s.pending, EITHER);
    LiveSame(s.heap, heap, s.incoming + s.pending, EITHER);
    assert Hand(heap, s.home) == Hand(s.heap, s.home);
  }

  lemma SubmitSimulates(s: State, t: nat, d: Dir, a: nat)
    requires Enabled(s, t, Submit(d, a)) && Lists(s) && Bios(s)
    ensures Simulates(Abs(s), [B.Arrive], Abs(Call(s, t, Submit(d, a))))
  {
    var r := Call(s, t, Submit(d, a));
    assert a !in s.incoming && a !in s.pending;
    LiveSame(s.heap, r.heap, s.incoming, EITHER);
    LiveSame(s.heap, r.heap, s.pending, EITHER);
    assert s.submitted !in s.home;
    assert forall b :: b in s.home ==> s.home[b] != a;
    assert Hand(r.heap, r.home) == Hand(s.heap, s.home) + {s.submitted};
  }

  /** A bio still in its submitter's hand has not ended. */
  lemma InHandIsUnended(s: State, t: nat, d: Dir, a: nat)
    requires t < |s.pcs| && s.pcs[t] == Submitting(d, MrAdd(a))
    requires Privates(s) && Client(s)
    ensures a in s.heap && s.heap[a].place == Private(t) && !s.heap[a].done
  {
    assert PrivateOf(s.pcs[t]) == Some(a);
    if s.session.Session? && s.session.a == a {
      assert SessionPc(s, s.pcs[s.session.t]);
      assert Finishing(s.pcs[s.session.t]) && s.heap[a].done ==>
        s.heap[a].place.OnPending? || PrivateOf(s.pcs[s.session.t]) == Some(a);
    }
  }

  // ---- Every step -------------------------------------------------------------------

  lemma CallRefines(s: State, t: nat, ev: Ev)
    requires Enabled(s, t, ev) && !ev.Go? && Identity(s)
    ensures Simulates(Abs(s), OpOf(s, t, ev), Abs(Call(s, t, ev)))
  {
    match ev
    case Submit(d, a) => SubmitSimulates(s, t, d, a);
    case _ =>
  }

  lemma MrRefines(s: State, t: nat, d: Dir, m: MrPc)
    requires t < |s.pcs| && s.pcs[t] == Submitting(d, m) && KernelEnabled(s, t, true)
    requires Locks(s) && Identity(s)
    ensures Simulates(Abs(s), KernelOp(s.heap, s.pcs[t]), Abs(MrStep(s, t, d, m)))
  {
    LocalHolds(s, t);
    if m.MrAdd? {
      InHandIsUnended(s, t, d, m.a); EnqueueSimulates(s, t, d, m.a);
    } else {
      MrPassive(s, t, d, m); assert Unmoved(s, MrStep(s, t, d, m));
    }
  }

  lemma DlRefines(s: State, t: nat, f: nat, m: DlPc)
    requires t < |s.pcs| && s.pcs[t] == Delivering(f, m) && KernelEnabled(s, t, true)
    requires Locks(s) && Identity(s)
    ensures Simulates(Abs(s), KernelOp(s.heap, s.pcs[t]), Abs(DlStep(s, t, f, m)))
  {
    LocalHolds(s, t);
    if m.DlMove? {
      DeliverSimulates(s, t, f, m.a, m.b);
    } else {
      assert Unmoved(s, DlStep(s, t, f, m));
    }
  }

  lemma SetRefines(s: State, t: nat, f: nat, m: SetPc)
    requires t < |s.pcs| && s.pcs[t] == Setting(f, m) && KernelEnabled(s, t, true)
    requires Locks(s) && Identity(s)
    ensures Simulates(Abs(s), KernelOp(s.heap, s.pcs[t]), Abs(SetStep(s, t, f, m)))
  {
    LocalHolds(s, t);
    assert Unmoved(s, SetStep(s, t, f, m));
  }

  lemma EnRefines(s: State, t: nat, f: nat, m: EnPc)
    requires t < |s.pcs| && s.pcs[t] == Ending(f, m) && KernelEnabled(s, t, true)
    requires Locks(s) && Identity(s)
    ensures Simulates(Abs(s), KernelOp(s.heap, s.pcs[t]), Abs(EnStep(s, t, f, m)))
  {
    LocalHolds(s, t);
    match m
    case EnEnd(e) => CompleteSimulates(s, t, f, e);
    case EnUnlink(e) => DetachSimulates(s, t, f, e);
    case EnFree(e) => FreeSimulates(s, t, f, e);
    case _ => EnPassive(s, t, f, m); assert Unmoved(s, EnStep(s, t, f, m));
  }

  lemma RlRefines(s: State, t: nat, f: nat, m: RlPc)
    requires t < |s.pcs| && s.pcs[t] == Releasing(f, m) && KernelEnabled(s, t, true)
    requires Locks(s) && Identity(s)
    ensures Simulates(Abs(s), KernelOp(s.heap, s.pcs[t]), Abs(RlStep(s, t, f, m)))
  {
    LocalHolds(s, t);
    if m.RlSplice? {
      SpliceSimulates(s, t, f);
    } else {
      RlPassive(s, t, f, m); assert Unmoved(s, RlStep(s, t, f, m));
    }
  }

  lemma RdRefines(s: State, t: nat, f: nat, m: RdPc, c: bool)
    requires t < |s.pcs| && s.pcs[t] == Reading(f, m) && KernelEnabled(s, t, c)
    requires Locks(s) && Identity(s)
    ensures Simulates(Abs(s), KernelOp(s.heap, s.pcs[t]), Abs(RdStep(s, t, f, m, c)))
  {
    LocalHolds(s, t);
    RdPassive(s, t, f, m, c); assert Unmoved(s, RdStep(s, t, f, m, c));
  }

  lemma FtRefines(s: State, t: nat, f: nat, e: bool, m: FtPc)
    requires t < |s.pcs| && s.pcs[t] == Fetching(f, e, m) && KernelEnabled(s, t, true)
    requires Locks(s) && Identity(s)
    ensures Simulates(Abs(s), KernelOp(s.heap, s.pcs[t]), Abs(FtStep(s, t, f, e, m)))
  {
    LocalHolds(s, t);
    FtPassive(s, t, f, e, m); assert Unmoved(s, FtStep(s, t, f, e, m));
  }

  lemma UseRefines(s: State, t: nat, f: nat, e: nat, c: bool)
    requires t < |s.pcs| && s.pcs[t] == Using(f, e) && KernelEnabled(s, t, c)
    requires Locks(s) && Identity(s)
    ensures Simulates(Abs(s), KernelOp(s.heap, s.pcs[t]), Abs(UseStep(s, t, c)))
  {
    LocalHolds(s, t);
    UsePassive(s, t, f, e, c); assert Unmoved(s, UseStep(s, t, c));
  }

  lemma PlRefines(s: State, t: nat, f: nat, m: PlPc)
    requires t < |s.pcs| && s.pcs[t] == Polling(f, m) && KernelEnabled(s, t, true)
    requires Locks(s) && Identity(s)
    ensures Simulates(Abs(s), KernelOp(s.heap, s.pcs[t]), Abs(PlStep(s, t, f, m)))
  {
    LocalHolds(s, t);
    PlPassive(s, t, f, m); assert Unmoved(s, PlStep(s, t, f, m));
  }

  lemma KernelRefines(s: State, t: nat, c: bool)
    requires Locks(s) && Identity(s) && t < |s.pcs| && KernelEnabled(s, t, c)
    ensures Simulates(Abs(s), KernelOp(s.heap, s.pcs[t]), Abs(Kernel(s, t, c)))
  {
    match s.pcs[t]
    case Submitting(d, m) => MrRefines(s, t, d, m);
    case Reading(f, m) => RdRefines(s, t, f, m, c);
    case Delivering(f, m) => DlRefines(s, t, f, m);
    case Setting(f, m) => SetRefines(s, t, f, m);
    case Fetching(f, e, m) => FtRefines(s, t, f, e, m);
    case Ending(f, m) => EnRefines(s, t, f, m);
    case Using(f, e) => UseRefines(s, t, f, e, c);
    case Polling(f, m) => PlRefines(s, t, f, m);
    case Releasing(f, m) => RlRefines(s, t, f, m);
  }

  /** Forward simulation, one step at a time. */
  lemma {:induction false} StepRefines(s: State, t: nat, ev: Ev)
    requires Locks(s) && Identity(s) && Enabled(s, t, ev)
    ensures Simulates(Abs(s), OpOf(s, t, ev), Abs(Next(s, t, ev)))
  {
    if ev.Go? {
      KernelRefines(s, t, ev.choice);
    } else {
      CallRefines(s, t, ev);
    }
  }

  /** The queue operations of a whole run. */
  ghost function Ops(s: State, run: Schedule): seq<B.Op>
    requires Feasible(s, run)
  {
    if run == [] then []
    else
      var front, last := run[..|run| - 1], run[|run| - 1];
      Ops(s, front) + OpOf(After(s, front), last.0, last.1)
  }

  /** Every disciplined run of the threads is a run of the queue, in which no bio is
      completed while it waits. */
  lemma {:induction false} RunsRefine(n: nat, run: Schedule)
    requires Feasible(Start(n), run) && Disciplined(Start(n), run)
    ensures B.Feasible(B.EMPTY, Ops(Start(n), run))
    ensures B.Run(B.EMPTY, Ops(Start(n), run)) == Abs(After(Start(n), run))
    ensures B.Skipped(B.EMPTY, Ops(Start(n), run)) == {}
  {
    if run == [] {
      assert Hand(map[], map[]) == {};
    } else {
      var front, last := run[..|run| - 1], run[|run| - 1];
      RunsRefine(n, front);
      LocksAlways(n, front);
      IdentityAlways(n, front);
      var s := After(Start(n), front);
      StepRefines(s, last.0, last.1);
      var ops, op := Ops(Start(n), front), OpOf(s, last.0, last.1);
      if op != [] {
        assert (ops + op)[..|ops + op| - 1] == ops;
      } else {
        assert ops + op == ops;
      }
    }
  }
}
