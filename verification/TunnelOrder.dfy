/** The order in which bios are handed out and handed back, in every disciplined run of
    the threads.  A window of a run is seen as the queue operations its steps perform. */
module TunnelOrder {
  import opened TunnelThreads
  import opened TunnelLocks
  import opened TunnelIdentitySteps
  import opened TunnelRefinement
  import B = BioQueue

  /** A beginning of a run is a run, and performs a beginning of its operations. */
  lemma {:induction false} Beginning(s: State, run: Schedule, j: nat)
    requires Feasible(s, run) && j <= |run|
    ensures Feasible(s, run[..j]) && Ops(s, run[..j]) <= Ops(s, run)
    ensures Disciplined(s, run) ==> Disciplined(s, run[..j])
  {
    if j == |run| {
      assert run[..j] == run;
    } else {
      var front := run[..|run| - 1];
      Beginning(s, front, j);
      assert front[..j] == run[..j];
    }
  }

  /** The queue after the first j steps of a run. */
  ghost function Before(s: State, run: Schedule, j: nat): B.Queue
    requires Feasible(s, run) && j <= |run|
  {
    Beginning(s, run, j);
    Abs(After(s, run[..j]))
  }

  /** The queue operations a run performs after its first j steps. */
  ghost function Since(s: State, run: Schedule, j: nat): seq<B.Op>
    requires Feasible(s, run) && j <= |run|
  {
    Beginning(s, run, j);
    Ops(s, run)[|Ops(s, run[..j])|..]
  }

  /** Any window of a disciplined run is a run of the queue, in which no bio is
      completed while it waits. */
  lemma {:induction false} WindowRefines(n: nat, run: Schedule, j: nat)
    requires Feasible(Start(n), run) && Disciplined(Start(n), run) && j <= |run|
    ensures var q, ops := Before(Start(n), run, j), Since(Start(n), run, j);
            && B.Conserved(q)
            && B.Feasible(q, ops) && B.Run(q, ops) == Abs(After(Start(n), run)) && B.Skipped(q, ops) == {}
  {
    var s := Start(n);
    Beginning(s, run, j);
    RunsRefine(n, run);
    RunsRefine(n, run[..j]);
    var ops, first := Ops(s, run), Ops(s, run[..j]);
    assert ops[..|first|] == first;
    CutAt(ops, |first|);
  }

  /** A run of the queue from its start, cut in two. */
  lemma {:induction false} CutAt(ops: seq<B.Op>, k: nat)
    requires B.Feasible(B.EMPTY, ops) && B.Skipped(B.EMPTY, ops) == {} && k <= |ops|
    ensures B.Feasible(B.EMPTY, ops[..k])
    ensures var q := B.Run(B.EMPTY, ops[..k]);
            && B.Conserved(q) && B.Feasible(q, ops[k..])
            && B.Run(q, ops[k..]) == B.Run(B.EMPTY, ops) && B.Skipped(q, ops[k..]) == {}
  {
    B.Split(B.EMPTY, ops, k);
    B.SkippedSplit(B.EMPTY, ops, k);
    assert forall b: nat :: B.Places(B.EMPTY, b) == 0;
    B.ExactlyOnce(B.EMPTY, ops[..k]);
  }

  /** In a window of any disciplined run with no close in it, bios are handed out in the
      order they were queued, and the one at position p - waiting when the window opens
      or queued in it - by the (p+1)-th header read. */
  lemma {:induction false} HandedOutInOrder(n: nat, run: Schedule, j: nat)
    requires Feasible(Start(n), run) && Disciplined(Start(n), run) && j <= |run|
    requires B.NoClose(Since(Start(n), run, j))
    ensures var q, ops := Before(Start(n), run, j), Since(Start(n), run, j);
            && B.Feasible(q, ops)
            && q.incoming + B.Enqueued(ops) == B.Delivered(q, ops) + Abs(After(Start(n), run)).incoming
            && |B.Delivered(q, ops)| <= |q.incoming + B.Enqueued(ops)|
            && forall p :: 0 <= p < |B.Delivered(q, ops)| ==>
                 B.Delivered(q, ops)[p] == (q.incoming + B.Enqueued(ops))[p]
  {
    WindowRefines(n, run, j);
    InOrder(Before(Start(n), run, j), Since(Start(n), run, j));
  }

  lemma {:induction false} InOrder(q: B.Queue, ops: seq<B.Op>)
    requires B.Conserved(q) && B.Feasible(q, ops) && B.NoClose(ops) && B.Skipped(q, ops) == {}
    ensures B.Waiting(q, ops) == q.incoming + B.Enqueued(ops) == B.Delivered(q, ops) + B.Run(q, ops).incoming
    ensures forall p :: 0 <= p < |B.Delivered(q, ops)| ==>
              p < |B.Waiting(q, ops)| && B.Delivered(q, ops)[p] == B.Waiting(q, ops)[p]
  {
    B.DeliveryOrder(q, ops);
    B.RemainingAll(q.incoming + B.Enqueued(ops));
    forall p | 0 <= p < |B.Delivered(q, ops)|
      ensures p < |B.Waiting(q, ops)| && B.Delivered(q, ops)[p] == B.Waiting(q, ops)[p]
    {
      B.PositionIsTurn(q, ops, p);
    }
  }

  /** The splice of a close, in any disciplined run: since pending was last empty, the
      unread bios come first, in queue order, and then the delivered and un-ended ones,
      in the order they were handed out. */
  lemma {:induction false} HandedBackInOrder(n: nat, run: Schedule, j: nat, t: nat, choice: bool)
    requires Feasible(Start(n), run) && Disciplined(Start(n), run) && j <= |run|
    requires B.NoClose(Since(Start(n), run, j)) && Before(Start(n), run, j).pending == []
    requires Enabled(After(Start(n), run), t, Go(choice))
    requires After(Start(n), run).pcs[t].Releasing? && After(Start(n), run).pcs[t].rl.RlSplice?
    ensures var q, ops := Before(Start(n), run, j), Since(Start(n), run, j);
            var r := Abs(Next(After(Start(n), run), t, Go(choice)));
            && B.Feasible(q, ops) && |B.Delivered(q, ops)| <= |q.incoming + B.Enqueued(ops)|
            && r.incoming == (q.incoming + B.Enqueued(ops))[|B.Delivered(q, ops)|..]
                             + B.Remaining(B.Delivered(q, ops), B.Completed(ops))
            && r.pending == []
  {
    WindowRefines(n, run, j);
    LocksAlways(n, run);
    IdentityAlways(n, run);
    StepRefines(After(Start(n), run), t, Go(choice));
    InOrder(Before(Start(n), run, j), Since(Start(n), run, j));
    B.CloseOrder(Before(Start(n), run, j), Since(Start(n), run, j));
  }
}
