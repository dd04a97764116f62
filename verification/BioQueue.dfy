/** The tunnel as a client and the block layer are meant to see it: requests
    with unique serial numbers that wait in arrival order, are handed out in
    that order, go back to waiting when the tunnel is closed, and end once.

    Addresses, locks and threads do not occur here.  The imperative device and
    the interleaved threads are both proved to refine this queue. */
module BioQueue {
  import opened Common

  /** `hand` holds the bios whose entry is allocated but not yet queued. */
  datatype Queue = Queue(
    next: nat,
    hand: set<nat>,
    incoming: seq<nat>,
    pending: seq<nat>,
    ended: seq<nat>)

  datatype Op =
    | Arrive               // a bio is submitted, its list entry allocated
    | Refuse               // a bio is submitted, the allocation fails: -EIO
    | Enqueue(bio: nat)    // list_add_tail onto incoming
    | Deliver              // a header read moves the head of incoming
    | Complete(bio: nat)   // a completion byte ends a bio, on whichever list it is
    | Close                // the tunnel file is closed

  const EMPTY := Queue(0, {}, [], [], [])

  predicate Enabled(q: Queue, op: Op) {
    match op
    case Arrive => true
    case Refuse => true
    case Enqueue(b) => b in q.hand
    case Deliver => q.incoming != []
    case Complete(b) => b in q.incoming || b in q.pending
    case Close => true
  }

  function Apply(q: Queue, op: Op): Queue
    requires Enabled(q, op)
  {
    match op
    case Arrive => q.(next := q.next + 1, hand := q.hand + {q.next})
    case Refuse => q.(next := q.next + 1, ended := q.ended + [q.next])
    case Enqueue(b) => q.(hand := q.hand - {b}, incoming := q.incoming + [b])
    case Deliver => q.(incoming := q.incoming[1..], pending := q.pending + [q.incoming[0]])
    case Complete(b) =>
      q.(incoming := Without<nat>(q.incoming, b), pending := Without<nat>(q.pending, b), ended := q.ended + [b])
    case Close => q.(incoming := q.incoming + q.pending, pending := [])
  }

  ghost predicate Feasible(q: Queue, ops: seq<Op>)
    decreases |ops|, 0
  {
    ops == [] ||
    (var front := ops[..|ops| - 1];
     Feasible(q, front) && Enabled(Run(q, front), ops[|ops| - 1]))
  }

  ghost function Run(q: Queue, ops: seq<Op>): Queue
    requires Feasible(q, ops)
    decreases |ops|, 1
  {
    if ops == [] then q
    else Apply(Run(q, ops[..|ops| - 1]), ops[|ops| - 1])
  }

  /** A run may be cut anywhere: its end is a run from where its beginning leads. */
  lemma {:induction false} Split(q: Queue, ops: seq<Op>, k: nat)
    requires Feasible(q, ops) && k <= |ops|
    ensures Feasible(q, ops[..k]) && Feasible(Run(q, ops[..k]), ops[k..])
    ensures Run(q, ops) == Run(Run(q, ops[..k]), ops[k..])
  {
    if k == |ops| {
      assert ops[..k] == ops && ops[k..] == [];
    } else {
      var front := ops[..|ops| - 1];
      Split(q, front, k);
      assert front[..k] == ops[..k];
      assert ops[k..][..|ops| - k - 1] == front[k..];
      assert ops[k..][|ops| - k - 1] == ops[|ops| - 1];
    }
  }

  // ---- Exactly-once completion ------------------------------------------------

  /** How often a serial number occurs anywhere in the tunnel. */
  ghost function Places(q: Queue, b: nat): nat {
    (if b in q.hand then 1 else 0)
    + multiset(q.incoming)[b] + multiset(q.pending)[b] + multiset(q.ended)[b]
  }

  /** Every submitted bio is in exactly one place, every other number in none. */
  ghost predicate Conserved(q: Queue) {
    forall b: nat :: Places(q, b) == if b < q.next then 1 else 0
  }

  lemma ConservedIsDistinct(q: Queue)
    requires Conserved(q)
    ensures Distinct(q.incoming) && Distinct(q.pending) && Distinct(q.ended)
    ensures forall b :: b in q.incoming ==> b !in q.pending && b !in q.ended && b < q.next
    ensures forall b :: b in q.pending ==> b !in q.ended && b < q.next
    ensures forall b :: b in q.ended ==> b < q.next
    ensures forall b :: b in q.hand ==> b !in q.incoming && b !in q.pending && b !in q.ended && b < q.next
  {
    forall s: seq<nat> | forall b: nat :: multiset(s)[b] <= 1
      ensures Distinct(s)
    {
      AtMostOnceIsDistinct(s);
    }
    assert forall b: nat :: multiset(q.incoming)[b] <= Places(q, b) <= 1;
    assert forall b: nat :: multiset(q.pending)[b] <= Places(q, b) <= 1;
    assert forall b: nat :: multiset(q.ended)[b] <= Places(q, b) <= 1;
    forall b | b in q.incoming ensures b !in q.pending && b !in q.ended && b < q.next {
      assert multiset(q.incoming)[b] >= 1 && Places(q, b) == 1;
    }
    forall b | b in q.pending ensures b !in q.ended && b < q.next {
      assert multiset(q.pending)[b] >= 1 && Places(q, b) == 1;
    }
    forall b | b in q.ended ensures b < q.next {
      assert multiset(q.ended)[b] >= 1 && Places(q, b) == 1;
    }
    forall b | b in q.hand ensures b !in q.incoming && b !in q.pending && b !in q.ended && b < q.next {
      assert Places(q, b) == 1;
    }
  }

  lemma AtMostOnceIsDistinct(s: seq<nat>)
    requires forall b: nat :: multiset(s)[b] <= 1
    ensures Distinct(s)
  {
    forall i, j | 0 <= i < j < |s| ensures s[i] != s[j] {
      assert s == s[..j] + s[j..];
      assert s[j] == s[j..][0] && multiset(s[j..])[s[j]] >= 1;
      assert multiset(s)[s[j]] == multiset(s[..j])[s[j]] + multiset(s[j..])[s[j]];
      assert s[j] !in s[..j];
      assert s[..j][i] == s[i];
    }
  }

  // Where a bio is after each operation.

  lemma ArrivePlaces(q: Queue, b: nat)
    requires Places(q, q.next) == 0
    ensures Places(Apply(q, Arrive), b) == Places(q, b) + if b == q.next then 1 else 0
  {
  }

  lemma RefusePlaces(q: Queue, b: nat)
    ensures Places(Apply(q, Refuse), b) == Places(q, b) + if b == q.next then 1 else 0
  {
  }

  lemma EnqueuePlaces(q: Queue, x: nat, b: nat)
    requires x in q.hand
    ensures Places(Apply(q, Enqueue(x)), b) == Places(q, b)
  {
  }

  lemma DeliverPlaces(q: Queue, b: nat)
    requires q.incoming != []
    ensures Places(Apply(q, Deliver), b) == Places(q, b)
  {
    assert q.incoming == [q.incoming[0]] + q.incoming[1..];
  }

  lemma {:induction false} WithoutCount(s: seq<nat>, x: nat, b: nat)
    ensures multiset(Without<nat>(s, x))[b] == if b == x then 0 else multiset(s)[b]
  {
    if s != [] {
      assert s == [s[0]] + s[1..];
      WithoutCount(s[1..], x, b);
      if s[0] != x {
        assert multiset([s[0]] + Without<nat>(s[1..], x)) == multiset{s[0]} + multiset(Without<nat>(s[1..], x));
      }
    }
  }

  lemma EndedCount(ended: seq<nat>, x: nat, b: nat)
    ensures multiset(ended + [x])[b] == multiset(ended)[b] + if b == x then 1 else 0
  {
  }

  /** Taken off both lists and put at the end of ended. */
  lemma MovedPlaces(q: Queue, incoming: seq<nat>, pending: seq<nat>, x: nat, b: nat)
    requires Places(q, x) == 1 && (x in q.incoming || x in q.pending)
    requires multiset(incoming)[b] == if b == x then 0 else multiset(q.incoming)[b]
    requires multiset(pending)[b] == if b == x then 0 else multiset(q.pending)[b]
    ensures Places(q.(incoming := incoming, pending := pending, ended := q.ended + [x]), b) == Places(q, b)
  {
    EndedCount(q.ended, x, b);
  }

  lemma CompletePlaces(q: Queue, x: nat, b: nat)
    requires (x in q.incoming || x in q.pending) && Places(q, x) == 1
    ensures Places(Apply(q, Complete(x)), b) == Places(q, b)
  {
    WithoutCount(q.incoming, x, b);
    WithoutCount(q.pending, x, b);
    MovedPlaces(q, Without<nat>(q.incoming, x), Without<nat>(q.pending, x), x, b);
  }

  lemma ClosePlaces(q: Queue, b: nat)
    ensures Places(Apply(q, Close), b) == Places(q, b)
  {
  }

  lemma StillSomewhere(q: Queue, op: Op, b: nat)
    requires Conserved(q) && Enabled(q, op)
    ensures Places(Apply(q, op), b) == Places(q, b) + if (op.Arrive? || op.Refuse?) && b == q.next then 1 else 0
  {
    assert Places(q, q.next) == 0;
    match op
    case Arrive => ArrivePlaces(q, b);
    case Refuse => RefusePlaces(q, b);
    case Enqueue(x) => EnqueuePlaces(q, x, b);
    case Deliver => DeliverPlaces(q, b);
    case Complete(x) =>
      ConservedIsDistinct(q);
      assert Places(q, x) == 1;
      CompletePlaces(q, x, b);
    case Close => ClosePlaces(q, b);
  }

  lemma NextSerial(q: Queue, op: Op)
    requires Enabled(q, op)
    ensures Apply(q, op).next == q.next + (if op.Arrive? || op.Refuse? then 1 else 0)
    ensures q.ended <= Apply(q, op).ended
  {
  }

  lemma ApplyConserves(q: Queue, op: Op)
    requires Conserved(q) && Enabled(q, op)
    ensures Conserved(Apply(q, op))
    ensures q.ended <= Apply(q, op).ended
  {
    NextSerial(q, op);
    var r := Apply(q, op);
    forall b: nat ensures Places(r, b) == if b < r.next then 1 else 0 {
      StillSomewhere(q, op, b);
      assert Places(q, b) == if b < q.next then 1 else 0;
    }
  }

  /** Over every run, however many closes it contains: each submitted bio is in
      exactly one place, and the record of ended bios only grows. */
  lemma {:induction false} ExactlyOnce(q: Queue, ops: seq<Op>)
    requires Conserved(q) && Feasible(q, ops)
    ensures Conserved(Run(q, ops))
    ensures q.ended <= Run(q, ops).ended
  {
    if ops == [] {
    } else {
      var front := ops[..|ops| - 1];
      ExactlyOnce(q, front);
      ApplyConserves(Run(q, front), ops[|ops| - 1]);
    }
  }

  // ---- Order of delivery -----------------------------------------------------------

  /** The serials handed out by the header reads of a run, in order. */
  ghost function Delivered(q: Queue, ops: seq<Op>): seq<nat>
    requires Feasible(q, ops)
  {
    if ops == [] then []
    else
      var front := ops[..|ops| - 1];
      if ops[|ops| - 1].Deliver? then Delivered(q, front) + [Run(q, front).incoming[0]]
      else Delivered(q, front)
  }

  /** The serials queued by a run, in order. */
  ghost function Enqueued(ops: seq<Op>): seq<nat> {
    if ops == [] then []
    else
      var front, last := ops[..|ops| - 1], ops[|ops| - 1];
      if last.Enqueue? then Enqueued(front) + [last.bio] else Enqueued(front)
  }

  /** The serials a run completes by completion bytes. */
  ghost function Completed(ops: seq<Op>): set<nat> {
    if ops == [] then {}
    else
      var front, last := ops[..|ops| - 1], ops[|ops| - 1];
      if last.Complete? then Completed(front) + {last.bio} else Completed(front)
  }

  ghost predicate NoClose(ops: seq<Op>) {
    forall i :: 0 <= i < |ops| ==> !ops[i].Close?
  }

  /** The serials a run completes while they wait: bios handed out before a close and
      completed after it, without having been handed out again. */
  ghost function Skipped(q: Queue, ops: seq<Op>): set<nat>
    requires Feasible(q, ops)
  {
    if ops == [] then {}
    else
      var front, last := ops[..|ops| - 1], ops[|ops| - 1];
      if last.Complete? && last.bio in Run(q, front).incoming then Skipped(q, front) + {last.bio}
      else Skipped(q, front)
  }

  /** The members of a list that are not in a set, in list order. */
  ghost function Remaining(s: seq<nat>, gone: set<nat>): seq<nat> {
    if s == [] then []
    else
      var front, last := s[..|s| - 1], s[|s| - 1];
      if last in gone then Remaining(front, gone) else Remaining(front, gone) + [last]
  }

  lemma {:induction false} RemainingAll(s: seq<nat>)
    ensures Remaining(s, {}) == s
  {
    if s != [] {
      RemainingAll(s[..|s| - 1]);
    }
  }

  lemma {:induction false} RemainingWithout(s: seq<nat>, gone: set<nat>, b: nat)
    ensures Remaining(s, gone + {b}) == Without(Remaining(s, gone), b)
  {
    if s != [] {
      var front, last := s[..|s| - 1], s[|s| - 1];
      RemainingWithout(front, gone, b);
      if last !in gone {
        WithoutAppend(Remaining(front, gone), last, b);
      }
    }
  }

  lemma RemainingAppend(s: seq<nat>, gone: set<nat>, b: nat)
    requires b !in gone
    ensures Remaining(s + [b], gone) == Remaining(s, gone) + [b]
  {
    assert (s + [b])[..|s|] == s;
  }

  /** What a run has ended is on record. */
  lemma {:induction false} CompletedIsEnded(q: Queue, ops: seq<Op>)
    requires Feasible(q, ops)
    ensures forall b :: b in Completed(ops) ==> b in Run(q, ops).ended
    ensures Skipped(q, ops) <= Completed(ops)
  {
    if ops != [] {
      CompletedIsEnded(q, ops[..|ops| - 1]);
    }
  }

  /** What was handed out since the last close is pending or has ended. */
  lemma {:induction false} DeliveredIsOut(q: Queue, ops: seq<Op>)
    requires Feasible(q, ops) && NoClose(ops)
    ensures forall b :: b in Delivered(q, ops) ==> b in Run(q, ops).pending || b in Run(q, ops).ended
  {
    if ops != [] {
      DeliveredIsOut(q, ops[..|ops| - 1]);
    }
  }

  /** The bios to be handed out between two closes, in order: what was waiting and what
      was queued since, less what was completed while it waited. */
  ghost function Waiting(q: Queue, ops: seq<Op>): seq<nat>
    requires Feasible(q, ops)
  {
    Remaining(q.incoming + Enqueued(ops), Skipped(q, ops))
  }

  /** Completing a bio that waits takes it out of what is to be handed out, and out of
      nothing else. */
  lemma SkipOne(r: Queue, all: seq<nat>, gone: set<nat>, out: seq<nat>, b: nat)
    requires Remaining(all, gone) == out + r.incoming && b in r.incoming && b !in r.pending && b !in r.ended
    requires forall c :: c in out ==> c in r.pending || c in r.ended
    ensures Remaining(all, gone + {b}) == out + Without(r.incoming, b)
  {
    RemainingWithout(all, gone, b);
    WithoutConcat(out, r.incoming, b);
    assert b !in out;
  }

  /** Between two closes header reads follow queue order: what is to be handed out is
      what was handed out followed by what still waits. */
  lemma {:induction false} DeliveryOrder(q: Queue, ops: seq<Op>)
    requires Conserved(q) && Feasible(q, ops) && NoClose(ops)
    ensures Waiting(q, ops) == Delivered(q, ops) + Run(q, ops).incoming
  {
    if ops == [] {
      RemainingAll(q.incoming);
      assert q.incoming + [] == q.incoming;
    } else {
      DeliveryOrder(q, ops[..|ops| - 1]);
      DeliveryStep(q, ops);
    }
  }

  lemma {:induction false} DeliveryStep(q: Queue, ops: seq<Op>)
    requires Conserved(q) && Feasible(q, ops) && NoClose(ops) && ops != []
    requires var front := ops[..|ops| - 1]; Waiting(q, front) == Delivered(q, front) + Run(q, front).incoming
    ensures Waiting(q, ops) == Delivered(q, ops) + Run(q, ops).incoming
  {
    var front := ops[..|ops| - 1];
    var r, all := Run(q, front), q.incoming + Enqueued(front);
    ExactlyOnce(q, front);
    ConservedIsDistinct(r);
    match ops[|ops| - 1]
    case Deliver => assert r.incoming == [r.incoming[0]] + r.incoming[1..];
    case Enqueue(b) =>
      CompletedIsEnded(q, front);
      assert b in r.hand && b !in Skipped(q, front);
      RemainingAppend(all, Skipped(q, front), b);
      assert q.incoming + Enqueued(ops) == all + [b];
    case Complete(b) =>
      if b in r.incoming {
        DeliveredIsOut(q, front);
        SkipOne(r, all, Skipped(q, front), Delivered(q, front), b);
      }
    case Arrive =>
    case Refuse =>
  }

  /** The entry at position p of those to be handed out is handed out by the (p+1)-th
      header read.  When none was completed while it waited, that is position p of what
      was waiting and what was queued since. */
  lemma PositionIsTurn(q: Queue, ops: seq<Op>, p: nat)
    requires Conserved(q) && Feasible(q, ops) && NoClose(ops) && p < |Delivered(q, ops)|
    ensures p < |Waiting(q, ops)| && Delivered(q, ops)[p] == Waiting(q, ops)[p]
    ensures Skipped(q, ops) == {} ==> Waiting(q, ops) == q.incoming + Enqueued(ops)
  {
    DeliveryOrder(q, ops);
    assert (Delivered(q, ops) + Run(q, ops).incoming)[p] == Delivered(q, ops)[p];
    RemainingAll(q.incoming + Enqueued(ops));
  }

  /** Between two closes the pending list is the bios handed out so far, in the
      order they were handed out, less those that were completed. */
  lemma {:induction false} PendingOrder(q: Queue, ops: seq<Op>)
    requires Conserved(q) && Feasible(q, ops) && NoClose(ops)
    ensures Run(q, ops).pending == Remaining(q.pending + Delivered(q, ops), Completed(ops))
  {
    if ops == [] {
      RemainingAll(q.pending);
      assert q.pending + [] == q.pending;
    } else {
      var front, last := ops[..|ops| - 1], ops[|ops| - 1];
      var r := Run(q, front);
      PendingOrder(q, front);
      ExactlyOnce(q, front);
      ConservedIsDistinct(r);
      CompletedIsEnded(q, front);
      var before := q.pending + Delivered(q, front);
      match last
      case Deliver =>
        var b := r.incoming[0];
        assert b in r.incoming && b !in Completed(front);
        assert q.pending + Delivered(q, ops) == before + [b];
        assert (before + [b])[..|before|] == before;
        assert Completed(ops) == Completed(front);
      case Complete(b) =>
        RemainingWithout(before, Completed(front), b);
        assert Completed(ops) == Completed(front) + {b};
        assert q.pending + Delivered(q, ops) == before;
      case Arrive =>
      case Refuse =>
      case Enqueue(b) =>
    }
  }

  /** A close leaves the unread bios first, in queue order, and after them the
      bios handed out but not completed since the last close, in delivery order. */
  lemma CloseOrder(q: Queue, ops: seq<Op>)
    requires Conserved(q) && q.pending == [] && Feasible(q, ops) && NoClose(ops)
    ensures |Delivered(q, ops)| <= |Waiting(q, ops)|
    ensures Apply(Run(q, ops), Close).incoming
            == Waiting(q, ops)[|Delivered(q, ops)|..] + Remaining(Delivered(q, ops), Completed(ops))
    ensures Apply(Run(q, ops), Close).pending == []
  {
    DeliveryOrder(q, ops);
    PendingOrder(q, ops);
    assert q.pending + Delivered(q, ops) == Delivered(q, ops);
    assert Run(q, ops).incoming == Waiting(q, ops)[|Delivered(q, ops)|..];
  }

  /** What the last operation completes while it waits depends only on the queue it finds. */
  lemma SkippedLast(q: Queue, ops: seq<Op>, m: Queue, tail: seq<Op>)
    requires ops != [] && tail != [] && ops[|ops| - 1] == tail[|tail| - 1]
    requires Feasible(q, ops) && Feasible(m, tail)
    requires Run(q, ops[..|ops| - 1]) == Run(m, tail[..|tail| - 1])
    ensures Skipped(q, ops) - Skipped(q, ops[..|ops| - 1]) <= Skipped(m, tail)
    ensures Skipped(m, tail) - Skipped(m, tail[..|tail| - 1]) <= Skipped(q, ops)
    ensures Skipped(q, ops[..|ops| - 1]) <= Skipped(q, ops) && Skipped(m, tail[..|tail| - 1]) <= Skipped(m, tail)
  {
  }

  lemma CutTail(ops: seq<Op>, k: nat)
    requires k < |ops|
    ensures var front, tail := ops[..|ops| - 1], ops[k..];
            && front[..k] == ops[..k] && tail[..|tail| - 1] == front[k..] && tail[|tail| - 1] == ops[|ops| - 1]
  {
  }

  /** What is completed while it waits, in a run cut in two. */
  lemma {:induction false} SkippedSplit(q: Queue, ops: seq<Op>, k: nat)
    requires Feasible(q, ops) && k <= |ops|
    requires Feasible(q, ops[..k]) && Feasible(Run(q, ops[..k]), ops[k..])
    ensures Skipped(q, ops) == Skipped(q, ops[..k]) + Skipped(Run(q, ops[..k]), ops[k..])
  {
    if k == |ops| {
      assert ops[..k] == ops && ops[k..] == [];
    } else {
      var front := ops[..|ops| - 1];
      CutTail(ops, k);
      Split(q, front, k);
      SkippedSplit(q, front, k);
      SkippedLast(q, ops, Run(q, ops[..k]), ops[k..]);
    }
  }
}
