/** Removing a device: the use count against every interleaving of opening and
    closing the block device and the tunnel, I/O through both, and removes.  Each
    section under ru_lock is one step; closing a tunnel is two, since its bios go
    back to the queue before its use is given up. */
module UseCount {
  import B = BioQueue

  datatype State = State(
    q: B.Queue,
    owner: map<nat, nat>,        // the block handle each bio came through
    leaving: set<nat>,           // bios queued whose submitter is still in the driver
    block: set<nat>,             // open block handles
    tunnel: set<nat>,            // open tunnel files
    closing: set<nat>,           // tunnel files spliced back but still counted
    ucnt: int,
    removing: bool)

  datatype Event =
    | OpenBlock(h: nat)
    | CloseBlock(h: nat)
    | OpenTunnel(h: nat)
    | Splice(h: nat)
    | CloseTunnel(h: nat)
    | Submit(h: nat)
    | Refuse(h: nat)
    | Queue(b: nat)
    | Return(b: nat)             // the submitter has woken a reader and counted its bio
    | Deliver
    | Complete(b: nat)
    | Remove

  const FRESH := State(B.EMPTY, map[], {}, {}, {}, {}, 0, false)

  predicate Enabled(s: State, ev: Event) {
    match ev
    case OpenBlock(h) => h !in s.block
    case CloseBlock(h) => h in s.block
    case OpenTunnel(h) => h !in s.tunnel && h !in s.closing
    case Splice(h) => h in s.tunnel
    case CloseTunnel(h) => h in s.closing
    case Submit(h) => h in s.block
    case Refuse(h) => h in s.block
    case Queue(b) => b in s.q.hand
    case Return(b) => b in s.leaving
    case Deliver => s.tunnel != {} && s.q.incoming != []
    case Complete(b) => s.tunnel != {} && B.Enabled(s.q, B.Complete(b))
    case Remove => true
  }

  function Next(s: State, ev: Event): State
    requires Enabled(s, ev)
  {
    match ev
    case OpenBlock(h) => if s.removing then s else s.(block := s.block + {h}, ucnt := s.ucnt + 1)
    case CloseBlock(h) => s.(block := s.block - {h}, ucnt := s.ucnt - 1)
    case OpenTunnel(h) => if s.removing then s else s.(tunnel := s.tunnel + {h}, ucnt := s.ucnt + 1)
    case Splice(h) => s.(q := B.Apply(s.q, B.Close), tunnel := s.tunnel - {h}, closing := s.closing + {h})
    case CloseTunnel(h) => s.(closing := s.closing - {h}, ucnt := s.ucnt - 1)
    case Submit(h) => s.(q := B.Apply(s.q, B.Arrive), owner := s.owner[s.q.next := h])
    case Refuse(h) => s.(q := B.Apply(s.q, B.Refuse))
    case Queue(b) => s.(q := B.Apply(s.q, B.Enqueue(b)), leaving := s.leaving + {b})
    case Return(b) => s.(leaving := s.leaving - {b})
    case Deliver => s.(q := B.Apply(s.q, B.Deliver))
    case Complete(b) => s.(q := B.Apply(s.q, B.Complete(b)))
    case Remove => if s.removing || s.ucnt != 0 then s else s.(removing := true)
  }

  predicate Live(q: B.Queue, b: nat) {
    b in q.hand || b in q.incoming || b in q.pending
  }

  /** The block layer gives a handle up only after its bios have ended. */
  ghost predicate Patient(s: State, ev: Event) {
    ev.CloseBlock? ==> forall b :: Live(s.q, b) && b in s.owner ==> s.owner[b] != ev.h
  }

  ghost predicate Feasible(run: seq<Event>)
    decreases |run|, 0
  {
    run == [] || (Feasible(run[..|run| - 1]) && Enabled(After(run[..|run| - 1]), run[|run| - 1]))
  }

  ghost function After(run: seq<Event>): State
    requires Feasible(run)
    decreases |run|, 1
  {
    if run == [] then FRESH else Next(After(run[..|run| - 1]), run[|run| - 1])
  }

  ghost predicate AlwaysPatient(run: seq<Event>)
    requires Feasible(run)
  {
    run == [] || (AlwaysPatient(run[..|run| - 1]) && Patient(After(run[..|run| - 1]), run[|run| - 1]))
  }

  // ---- The count -------------------------------------------------------------------------------

  predicate Counted(s: State) {
    && s.tunnel !! s.closing
    && s.ucnt == |s.block| + |s.tunnel| + |s.closing|
    && (s.removing ==> s.ucnt == 0)
  }

  lemma NextCounted(s: State, ev: Event)
    requires Counted(s) && Enabled(s, ev)
    ensures Counted(Next(s, ev)) && (s.removing ==> Next(s, ev).removing)
  {
  }

  /** In every run the count is that of the open handles, and once a removal has
      committed it is zero. */
  lemma {:induction false} CountIsExact(run: seq<Event>)
    requires Feasible(run)
    ensures Counted(After(run))
  {
    if run != [] {
      CountIsExact(run[..|run| - 1]);
      NextCounted(After(run[..|run| - 1]), run[|run| - 1]);
    }
  }

  /** A committed removal is final: nothing is opened after it. */
  lemma {:induction false} RemovingIsFinal(run: seq<Event>, k: nat)
    requires Feasible(run) && k <= |run| && Feasible(run[..k]) && After(run[..k]).removing
    ensures var s := After(run); s.removing && s.ucnt == 0 && s.block == {} && s.tunnel == {} && s.closing == {}
  {
    CountIsExact(run);
    if k == |run| {
      assert run[..k] == run;
    } else {
      var front := run[..|run| - 1];
      assert front[..k] == run[..k];
      RemovingIsFinal(front, k);
      NextCounted(After(front), run[|run| - 1]);
    }
  }

  /** A remove commits exactly when no handle is open. */
  lemma {:induction false} RemoveCommitsIff(run: seq<Event>)
    requires Feasible(run) && !After(run).removing
    ensures var s := After(run);
            Next(s, Remove).removing <==> s.block == {} && s.tunnel == {} && s.closing == {}
  {
    CountIsExact(run);
  }

  // ---- The lists --------------------------------------------------------------------------------

  /** What an event does to the queue of bios. */
  function OpOf(ev: Event): seq<B.Op> {
    match ev
    case Submit(_) => [B.Arrive]
    case Refuse(_) => [B.Refuse]
    case Queue(b) => [B.Enqueue(b)]
    case Deliver => [B.Deliver]
    case Complete(b) => [B.Complete(b)]
    case Splice(_) => [B.Close]
    case _ => []
  }

  function OpsOf(run: seq<Event>): seq<B.Op> {
    if run == [] then [] else OpsOf(run[..|run| - 1]) + OpOf(run[|run| - 1])
  }

  /** At most one operation of the queue leads from one state to another. */
  predicate Simulates(q: B.Queue, ops: seq<B.Op>, r: B.Queue) {
    if ops == [] then r == q else |ops| == 1 && B.Enabled(q, ops[0]) && r == B.Apply(q, ops[0])
  }

  lemma MoreOps(ops: seq<B.Op>, more: seq<B.Op>, q: B.Queue, r: B.Queue)
    requires B.Feasible(B.EMPTY, ops) && B.Run(B.EMPTY, ops) == q && Simulates(q, more, r)
    ensures B.Feasible(B.EMPTY, ops + more) && B.Run(B.EMPTY, ops + more) == r
  {
    if more == [] {
      assert ops + more == ops;
    } else {
      var all := ops + more;
      assert all[..|all| - 1] == ops && all[|all| - 1] == more[0];
    }
  }

  lemma NextOnQueue(s: State, ev: Event)
    requires Enabled(s, ev)
    ensures Simulates(s.q, OpOf(ev), Next(s, ev).q)
  {
  }

  /** Whatever is opened, closed and removed meanwhile, the bios go through a run of the
      queue. */
  lemma {:induction false} BiosAreQueue(run: seq<Event>)
    requires Feasible(run)
    ensures B.Feasible(B.EMPTY, OpsOf(run)) && After(run).q == B.Run(B.EMPTY, OpsOf(run))
  {
    if run != [] {
      var front, last := run[..|run| - 1], run[|run| - 1];
      BiosAreQueue(front);
      NextOnQueue(After(front), last);
      MoreOps(OpsOf(front), OpOf(last), After(front).q, After(run).q);
    }
  }

  lemma {:induction false} BiosAreConserved(run: seq<Event>)
    requires Feasible(run)
    ensures B.Conserved(After(run).q)
  {
    BiosAreQueue(run);
    assert forall b: nat :: B.Places(B.EMPTY, b) == 0;
    B.ExactlyOnce(B.EMPTY, OpsOf(run));
  }

  /** Every bio that has not ended came through a handle that is still open. */
  ghost predicate Attached(s: State) {
    && B.Conserved(s.q)
    && forall b :: Live(s.q, b) ==> b in s.owner && s.owner[b] in s.block
  }

  lemma SubmitAttached(s: State, h: nat)
    requires Attached(s) && h in s.block
    ensures Attached(Next(s, Submit(h)))
  {
    B.ApplyConserves(s.q, B.Arrive);
    B.ConservedIsDistinct(s.q);
  }

  lemma QueueOpAttached(s: State, op: B.Op)
    requires Attached(s) && B.Enabled(s.q, op) && !op.Arrive?
    ensures Attached(s.(q := B.Apply(s.q, op)))
  {
    B.ApplyConserves(s.q, op);
    var r := B.Apply(s.q, op);
    forall b | Live(r, b) ensures Live(s.q, b) {
      if op.Deliver? {
        assert s.q.incoming == [s.q.incoming[0]] + s.q.incoming[1..];
      }
    }
  }

  lemma NextAttached(s: State, ev: Event)
    requires Attached(s) && Enabled(s, ev) && Patient(s, ev)
    ensures Attached(Next(s, ev))
  {
    match ev
    case OpenBlock(h) =>
    case CloseBlock(h) =>
    case OpenTunnel(h) =>
    case Splice(h) => QueueOpAttached(s, B.Close);
    case CloseTunnel(h) =>
    case Submit(h) => SubmitAttached(s, h);
    case Refuse(h) => QueueOpAttached(s, B.Refuse);
    case Queue(b) => QueueOpAttached(s, B.Enqueue(b));
    case Return(b) =>
    case Deliver => QueueOpAttached(s, B.Deliver);
    case Complete(b) => QueueOpAttached(s, B.Complete(b));
    case Remove =>
  }

  lemma {:induction false} AttachedAlways(run: seq<Event>)
    requires Feasible(run) && AlwaysPatient(run)
    ensures Attached(After(run))
  {
    if run != [] {
      AttachedAlways(run[..|run| - 1]);
      NextAttached(After(run[..|run| - 1]), run[|run| - 1]);
    } else {
      assert forall b: nat :: B.Places(B.EMPTY, b) == 0;
    }
  }

  lemma EmptyOrLive(q: B.Queue)
    ensures (q.hand == {} && q.incoming == [] && q.pending == []) || exists b: nat :: Live(q, b)
  {
    if q.hand != {} {
      var b :| b in q.hand;
      assert Live(q, b);
    } else if q.incoming != [] {
      assert Live(q, q.incoming[0]);
    } else if q.pending != [] {
      assert Live(q, q.pending[0]);
    }
  }

  lemma NotLiveIsEnded(q: B.Queue, b: nat)
    requires B.Conserved(q) && b < q.next && !Live(q, b)
    ensures b in q.ended
  {
    assert B.Places(q, b) == 1;
    assert multiset(q.ended)[b] == 1;
  }

  /** When a removal commits, and ever after, both lists are empty and no submitter is
      about to queue: there is no bio to drain.  Submitters that have queued are the
      matter of CallsAtCommit. */
  lemma {:induction false} NothingToDrain(run: seq<Event>)
    requires Feasible(run) && AlwaysPatient(run) && After(run).removing
    ensures var q := After(run).q;
            q.hand == {} && q.incoming == [] && q.pending == []
    ensures forall b: nat :: b < After(run).q.next ==> b in After(run).q.ended
  {
    CountIsExact(run);
    AttachedAlways(run);
    var s := After(run);
    assert s.block == {};
    forall b: nat ensures !Live(s.q, b) {
    }
    EmptyOrLive(s.q);
    forall b: nat | b < s.q.next ensures b in s.q.ended {
      NotLiveIsEnded(s.q, b);
    }
  }

  lemma Extend(run: seq<Event>, ev: Event) returns (more: seq<Event>)
    requires Feasible(run) && Enabled(After(run), ev)
    ensures more == run + [ev] && Feasible(more) && After(more) == Next(After(run), ev)
  {
    more := run + [ev];
    assert more[..|run|] == run;
  }

  // ---- Calls on the device ----------------------------------------------------------------------

  /** The submitters still in the driver whose block handle was closed over them. */
  ghost function LeftBehind(run: seq<Event>): set<nat>
    requires Feasible(run)
  {
    if run == [] then {}
    else
      var s, behind := After(run[..|run| - 1]), LeftBehind(run[..|run| - 1]);
      match run[|run| - 1]
      case CloseBlock(h) => behind + set b | b in s.leaving && b in s.owner && s.owner[b] == h
      case Return(b) => behind - {b}
      case _ => behind
  }

  /** The others came through a handle that is open. */
  lemma {:induction false} OthersAttached(run: seq<Event>)
    requires Feasible(run) && AlwaysPatient(run)
    ensures var s := After(run);
            && LeftBehind(run) <= s.leaving
            && forall b :: b in s.leaving && b !in LeftBehind(run) ==> b in s.owner && s.owner[b] in s.block
    ensures forall b :: b in After(run).owner || b in After(run).leaving ==> b < After(run).q.next
  {
    if run != [] {
      var front, ev := run[..|run| - 1], run[|run| - 1];
      OthersAttached(front);
      AttachedAlways(front);
      B.ConservedIsDistinct(After(front).q);
      if ev.Queue? {
        assert Live(After(front).q, ev.b);
      }
    }
  }

  /** When a removal commits, the submitters still in the driver - to wake a reader and to
      count, in memory about to be freed - are exactly those whose handle was closed over
      them.  No submitter is before its queueing. */
  lemma {:induction false} CallsAtCommit(run: seq<Event>)
    requires Feasible(run) && AlwaysPatient(run) && After(run).removing
    ensures After(run).leaving == LeftBehind(run) && After(run).q.hand == {}
  {
    CountIsExact(run);
    OthersAttached(run);
    NothingToDrain(run);
    assert After(run).block == {};
  }

  /** A handle is given up only after the calls that submitted through it have returned. */
  ghost predicate Attentive(s: State, ev: Event) {
    ev.CloseBlock? ==> forall b :: b in s.leaving && b in s.owner ==> s.owner[b] != ev.h
  }

  ghost predicate AlwaysAttentive(run: seq<Event>)
    requires Feasible(run)
  {
    run == [] || (AlwaysAttentive(run[..|run| - 1]) && Attentive(After(run[..|run| - 1]), run[|run| - 1]))
  }

  /** If handles outlive the calls too, none is on the device when a removal commits. */
  lemma {:induction false} NoCallAtCommit(run: seq<Event>)
    requires Feasible(run) && AlwaysPatient(run) && AlwaysAttentive(run) && After(run).removing
    ensures After(run).leaving == {}
  {
    NoneLeftBehind(run);
    CallsAtCommit(run);
  }

  lemma {:induction false} NoneLeftBehind(run: seq<Event>)
    requires Feasible(run) && AlwaysAttentive(run)
    ensures LeftBehind(run) == {}
  {
    if run != [] {
      NoneLeftBehind(run[..|run| - 1]);
    }
  }

  lemma ExtendPatiently(run: seq<Event>, ev: Event) returns (more: seq<Event>)
    requires Feasible(run) && AlwaysPatient(run) && Enabled(After(run), ev) && Patient(After(run), ev)
    ensures more == run + [ev] && Feasible(more) && AlwaysPatient(more) && After(more) == Next(After(run), ev)
  {
    more := run + [ev];
    assert more[..|run|] == run;
  }

  lemma Opened() returns (run: seq<Event>)
    ensures Feasible(run) && AlwaysPatient(run)
    ensures After(run) == State(B.EMPTY, map[], {}, {0}, {1}, {}, 2, false)
  {
    run := ExtendPatiently([], OpenBlock(0));
    assert After(run).block == {0};
    run := ExtendPatiently(run, OpenTunnel(1));
    assert After(run).tunnel == {1};
  }

  lemma Queued() returns (run: seq<Event>)
    ensures Feasible(run) && AlwaysPatient(run)
    ensures After(run) == State(B.Queue(1, {}, [0], [], []), map[0 := 0], {0}, {0}, {1}, {}, 2, false)
  {
    run := Opened();
    run := ExtendPatiently(run, Submit(0));
    assert After(run) == State(B.Queue(1, {0}, [], [], []), map[0 := 0], {}, {0}, {1}, {}, 2, false);
    run := ExtendPatiently(run, Queue(0));
  }

  lemma Served() returns (run: seq<Event>)
    ensures Feasible(run) && AlwaysPatient(run)
    ensures After(run) == State(B.Queue(1, {}, [], [], [0]), map[0 := 0], {0}, {0}, {1}, {}, 2, false)
  {
    run := Queued();
    run := ExtendPatiently(run, Deliver);
    assert After(run) == State(B.Queue(1, {}, [], [0], []), map[0 := 0], {0}, {0}, {1}, {}, 2, false);
    run := ExtendPatiently(run, Complete(0));
  }

  lemma GivenUp() returns (run: seq<Event>)
    ensures Feasible(run) && AlwaysPatient(run)
    ensures After(run).block == {} && After(run).tunnel == {} && After(run).closing == {1}
    ensures After(run).leaving == {0} && After(run).ucnt == 1 && !After(run).removing
  {
    run := Served();
    run := ExtendPatiently(run, CloseBlock(0));
    run := ExtendPatiently(run, Splice(1));
  }

  /** Patience alone does not ensure it: here the bio ends and its handle is closed while
      its submitter has yet to wake a reader, and a removal commits. */
  lemma {:induction false} PatientLeavesCall() returns (run: seq<Event>)
    ensures Feasible(run) && AlwaysPatient(run) && After(run).removing && After(run).leaving == {0}
  {
    run := GivenUp();
    run := ExtendPatiently(run, CloseTunnel(1));
    run := ExtendPatiently(run, Remove);
  }

  /** The driver alone does not ensure it: were a block handle given up while its
      bio waits, a removal would commit over a list that is not empty. */
  lemma ImpatientLeavesBio()
    ensures var run := [OpenBlock(0), Submit(0), Queue(0), CloseBlock(0), Remove];
            Feasible(run) && After(run).removing && After(run).q.incoming == [0]
  {
    var r1 := Extend([], OpenBlock(0));
    assert After(r1).block == {0} && After(r1).q == B.EMPTY;
    var r2 := Extend(r1, Submit(0));
    assert After(r2).q == B.Queue(1, {0}, [], [], []);
    var r3 := Extend(r2, Queue(0));
    assert After(r3).q.incoming == [0];
    var r4 := Extend(r3, CloseBlock(0));
    var r5 := Extend(r4, Remove);
    assert r5 == [OpenBlock(0), Submit(0), Queue(0), CloseBlock(0), Remove];
  }
}
