/** One tunnel device as a value: the kernel's state and what each system call on
    the tunnel file makes of it, dispatched on the byte count as the driver does.
    Entries are known by address; a serial number is kept for the proofs. */
module DeviceSpec {
  import opened Common
  import opened Segments
  import opened Words
  import B = BioQueue

  const SECTOR_SIZE: nat := 512

  /** BDTUN_REQ_WRITE */
  const REQ_WRITE: nat := 2

  /** struct bio; the bio_vecs from idx on are to be transferred. */
  datatype Bio = Bio(dir: Dir, sector: nat, vecs: seq<Seg>, idx: nat, size: nat)

  function Segs(bio: Bio): seq<Seg>
    requires bio.idx <= |bio.vecs|
  {
    bio.vecs[bio.idx..]
  }

  /** What the block layer guarantees of a bio: its size is that of its segments,
      which lie in existing pages. */
  predicate WellFormed(shape: Memory, bio: Bio) {
    bio.idx <= |bio.vecs| && AllFit(shape, Segs(bio)) && bio.size == Total(Segs(bio))
  }

  datatype Item = Item(serial: nat, bio: Bio)

  datatype Ending = Ending(serial: nat, ok: bool)

  datatype Dev = Dev(
    heap: map<nat, Item>,
    incoming: seq<nat>,
    pending: seq<nat>,
    current: nat,
    inRead: int,
    inWrite: int,
    submitted: nat,
    ended: seq<Ending>)

  const FRESH := Dev(map[], [], [], 0, 0, 0, 0, [])

  function Count(d: Dev, dir: Dir, k: int): Dev {
    d.(inRead := if dir == READ then d.inRead + k else d.inRead,
       inWrite := if dir == READ then d.inWrite else d.inWrite + k)
  }

  /** bdtun_make_request; alloc is what kmalloc returned. */
  function MakeRequest(d: Dev, bio: Bio, alloc: Option<nat>): Dev
    requires alloc.Some? ==> alloc.value !in d.heap
  {
    match alloc
    case None => d.(submitted := d.submitted + 1, ended := d.ended + [Ending(d.submitted, false)])
    case Some(a) =>
      Count(d.(submitted := d.submitted + 1, heap := d.heap[a := Item(d.submitted, bio)],
               incoming := d.incoming + [a]), bio.dir, 1)
  }

  /** What a header read reports of the entry at address a. */
  function TxReqOf(a: nat, bio: Bio): TxReq {
    TxReq(a, if bio.dir == WRITE then REQ_WRITE else 0, bio.sector * SECTOR_SIZE % WORD_LIMIT, bio.size)
  }

  function Deliver(d: Dev): Dev
    requires d.incoming != []
  {
    d.(incoming := d.incoming[1..], pending := d.pending + [d.incoming[0]])
  }

  /** A completion byte: the data-current entry ends and leaves whichever list it
      is on. */
  function Complete(d: Dev, ok: bool): Dev
    requires d.current in d.heap
  {
    var e := d.current;
    Count(d.(incoming := Without(d.incoming, e), pending := Without(d.pending, e),
             heap := d.heap - {e}, ended := d.ended + [Ending(d.heap[e].serial, ok)]),
          d.heap[e].bio.dir, -1)
  }

  function Release(d: Dev): Dev {
    d.(incoming := d.incoming + d.pending, pending := [])
  }

  /** The reply to a call: bytes read, a count written, an errno, or no reply yet. */
  datatype Reply = Data(bytes: seq<byte>) | Written(n: nat) | Failed(errno: Errno) | Blocks

  /** read() of count bytes.  The driver follows the cursor without a check, so a
      payload read needs it to name a live entry. */
  function ReadCall(d: Dev, mem: Memory, count: nat): (r: (Dev, Reply))
    requires forall a :: a in d.incoming ==> a in d.heap
    requires count != HEADER_SIZE ==> d.current in d.heap && WellFormed(mem, d.heap[d.current].bio)
  {
    if count == HEADER_SIZE then
      if d.incoming == [] then (d, Blocks)
      else (Deliver(d), Data(Header(TxReqOf(d.incoming[0], d.heap[d.incoming[0]].bio))))
    else
      var bio := d.heap[d.current].bio;
      if bio.dir == WRITE && count == bio.size then (d, Data(Gather(mem, Segs(bio))))
      else (d, Failed(EIO))
  }

  /** write() of a buffer. */
  function WriteCall(d: Dev, mem: Memory, buf: seq<byte>): (r: (Dev, Memory, Reply))
    requires |buf| != WORD_BYTES ==> d.current in d.heap && WellFormed(mem, d.heap[d.current].bio)
  {
    if |buf| == WORD_BYTES then (d.(current := Value(buf)), mem, Written(|buf|))
    else if |buf| == 1 then (Complete(d, buf[0] == 0), mem, Written(1))
    else
      var bio := d.heap[d.current].bio;
      if bio.dir == READ && |buf| == bio.size then (d, Scatter(mem, Segs(bio), buf), Written(|buf|))
      else (d, mem, Failed(EIO))
  }

  // ---- The device is the queue ---------------------------------------------------------

  function Serials(heap: map<nat, Item>, list: seq<nat>): (r: seq<nat>)
    requires forall a :: a in list ==> a in heap
    ensures |r| == |list| && forall i :: 0 <= i < |r| ==> r[i] == heap[list[i]].serial
  {
    seq(|list|, i requires 0 <= i < |list| => heap[list[i]].serial)
  }

  function EndedSerials(ended: seq<Ending>): (r: seq<nat>)
    ensures |r| == |ended| && forall i :: 0 <= i < |r| ==> r[i] == ended[i].serial
  {
    seq(|ended|, i requires 0 <= i < |ended| => ended[i].serial)
  }

  /** The lists hold exactly the live entries, once each, and no two entries carry
      the same bio. */
  ghost predicate Linked(d: Dev) {
    && Distinct(d.incoming) && Distinct(d.pending)
    && (forall a :: a in d.incoming ==> a !in d.pending)
    && (forall a :: a in d.heap <==> a in d.incoming || a in d.pending)
    && (forall a, c :: a in d.heap && c in d.heap && d.heap[a].serial == d.heap[c].serial ==> a == c)
    && (forall a :: a in d.heap ==> d.heap[a].serial < d.submitted && a < WORD_LIMIT)
  }

  function Queue(d: Dev): B.Queue
    requires forall a :: a in d.incoming ==> a in d.heap
    requires forall a :: a in d.pending ==> a in d.heap
  {
    B.Queue(d.submitted, {}, Serials(d.heap, d.incoming), Serials(d.heap, d.pending), EndedSerials(d.ended))
  }

  lemma MakeRequestLinked(d: Dev, bio: Bio, alloc: Option<nat>)
    requires Linked(d) && (alloc.Some? ==> alloc.value !in d.heap && alloc.value < WORD_LIMIT)
    ensures Linked(MakeRequest(d, bio, alloc))
  {
    if alloc.Some? {
      var a := alloc.value;
      assert a !in d.incoming && a !in d.pending;
    }
  }

  lemma MakeRequestRefines(d: Dev, bio: Bio, alloc: Option<nat>)
    requires Linked(d) && (alloc.Some? ==> alloc.value !in d.heap && alloc.value < WORD_LIMIT)
    ensures Linked(MakeRequest(d, bio, alloc))
    ensures var q := Queue(d);
            if alloc.None? then Queue(MakeRequest(d, bio, alloc)) == B.Apply(q, B.Refuse)
            else Queue(MakeRequest(d, bio, alloc)) == B.Apply(B.Apply(q, B.Arrive), B.Enqueue(d.submitted))
  {
    MakeRequestLinked(d, bio, alloc);
    var r := MakeRequest(d, bio, alloc);
    if alloc.Some? {
      SerialsSame(d.heap, r.heap, d.incoming);
      SerialsSame(d.heap, r.heap, d.pending);
      assert Serials(r.heap, r.incoming) == Serials(r.heap, d.incoming) + [d.submitted];
      assert {} + {d.submitted} - {d.submitted} == {};
    } else {
      EndedAppend(d.ended, Ending(d.submitted, false));
    }
  }

  lemma SerialsSame(heap: map<nat, Item>, heap2: map<nat, Item>, list: seq<nat>)
    requires forall a :: a in list ==> a in heap && a in heap2 && heap[a] == heap2[a]
    ensures Serials(heap, list) == Serials(heap2, list)
  {
  }

  /** Moving the head of one list to the end of another. */
  lemma MoveDistinct(s: seq<nat>, r: seq<nat>)
    requires s != [] && Distinct(s) && Distinct(r) && forall a :: a in s ==> a !in r
    ensures Distinct(s[1..]) && Distinct(r + [s[0]]) && forall a :: a in s[1..] ==> a !in r + [s[0]]
    ensures forall a :: a in s || a in r <==> a in s[1..] || a in r + [s[0]]
  {
    WithoutHead(s);
    assert s == [s[0]] + s[1..];
  }

  lemma DeliverLinked(d: Dev)
    requires Linked(d) && d.incoming != []
    ensures Linked(Deliver(d))
  {
    MoveDistinct(d.incoming, d.pending);
  }

  lemma SerialsTail(heap: map<nat, Item>, list: seq<nat>)
    requires list != [] && forall a :: a in list ==> a in heap
    ensures Serials(heap, list[1..]) == Serials(heap, list)[1..]
  {
  }

  lemma SerialsAppend(heap: map<nat, Item>, list: seq<nat>, a: nat)
    requires a in heap && forall c :: c in list ==> c in heap
    ensures Serials(heap, list + [a]) == Serials(heap, list) + [heap[a].serial]
  {
  }

  lemma DeliverQueue(d: Dev)
    requires d.incoming != [] && forall a :: a in d.incoming || a in d.pending ==> a in d.heap
    requires forall a :: a in Deliver(d).incoming || a in Deliver(d).pending ==> a in d.heap
    ensures Queue(Deliver(d)) == B.Apply(Queue(d), B.Deliver)
  {
    assert d.incoming[0] in d.heap;
    SerialsTail(d.heap, d.incoming);
    SerialsAppend(d.heap, d.pending, d.incoming[0]);
  }

  lemma DeliverRefines(d: Dev)
    requires Linked(d) && d.incoming != []
    ensures Linked(Deliver(d)) && Queue(Deliver(d)) == B.Apply(Queue(d), B.Deliver)
  {
    DeliverLinked(d);
    DeliverQueue(d);
  }

  lemma SerialsCons(heap: map<nat, Item>, a: nat, list: seq<nat>)
    requires a in heap && forall c :: c in list ==> c in heap
    ensures Serials(heap, [a] + list) == [heap[a].serial] + Serials(heap, list)
  {
  }

  lemma {:induction false} SerialsWithout(heap: map<nat, Item>, list: seq<nat>, e: nat)
    requires forall a :: a in list ==> a in heap
    requires e in heap && forall a :: a in list && heap[a].serial == heap[e].serial ==> a == e
    ensures Serials(heap - {e}, Without(list, e)) == Without(Serials(heap, list), heap[e].serial)
    decreases |list|
  {
    if list != [] {
      SerialsWithout(heap, list[1..], e);
      assert list[0] in list;
      SerialsTail(heap, list);
      if list[0] != e {
        SerialsCons(heap - {e}, list[0], Without(list[1..], e));
      }
    }
  }

  lemma EndedAppend(ended: seq<Ending>, e: Ending)
    ensures EndedSerials(ended + [e]) == EndedSerials(ended) + [e.serial]
  {
  }

  lemma CompleteLinked(d: Dev, ok: bool)
    requires Linked(d) && d.current in d.heap
    ensures Linked(Complete(d, ok))
  {
  }

  lemma SerialOn(heap: map<nat, Item>, list: seq<nat>, e: nat)
    requires e in list && forall a :: a in list ==> a in heap
    ensures heap[e].serial in Serials(heap, list)
  {
    var k :| 0 <= k < |list| && list[k] == e;
    assert Serials(heap, list)[k] == heap[e].serial;
  }

  lemma CompleteQueue(d: Dev, ok: bool)
    requires d.current in d.heap && (d.current in d.incoming || d.current in d.pending)
    requires forall a :: a in d.incoming || a in d.pending ==>
               a in d.heap && (d.heap[a].serial == d.heap[d.current].serial ==> a == d.current)
    ensures var b := d.heap[d.current].serial;
            B.Enabled(Queue(d), B.Complete(b)) && Queue(Complete(d, ok)) == B.Apply(Queue(d), B.Complete(b))
  {
    var e, r := d.current, Complete(d, ok);
    var b := d.heap[e].serial;
    if e in d.incoming {
      SerialOn(d.heap, d.incoming, e);
    } else {
      SerialOn(d.heap, d.pending, e);
    }
    SerialsWithout(d.heap, d.incoming, e);
    SerialsWithout(d.heap, d.pending, e);
    EndedAppend(d.ended, Ending(b, ok));
    assert r.heap == d.heap - {e} && r.submitted == d.submitted;
    assert r.incoming == Without(d.incoming, e) && r.pending == Without(d.pending, e);
    AppliesComplete(Queue(d), Queue(r), b);
  }

  lemma AppliesComplete(q: B.Queue, r: B.Queue, b: nat)
    requires B.Enabled(q, B.Complete(b)) && r.next == q.next && r.hand == q.hand
    requires r.incoming == Without(q.incoming, b) && r.pending == Without(q.pending, b) && r.ended == q.ended + [b]
    ensures r == B.Apply(q, B.Complete(b))
  {
  }

  /** Completing a live entry, on whichever list it is, is the queue's completion of its
      bio. */
  lemma {:induction false} CompleteRefines(d: Dev, ok: bool)
    requires Linked(d) && d.current in d.heap
    ensures Linked(Complete(d, ok))
    ensures var b := d.heap[d.current].serial;
            B.Enabled(Queue(d), B.Complete(b)) && Queue(Complete(d, ok)) == B.Apply(Queue(d), B.Complete(b))
  {
    CompleteLinked(d, ok);
    CompleteQueue(d, ok);
  }

  lemma ReleaseLinked(d: Dev)
    requires Linked(d)
    ensures Linked(Release(d))
  {
    DistinctConcat(d.incoming, d.pending);
  }

  lemma ReleaseQueue(d: Dev)
    requires forall a :: a in d.incoming || a in d.pending ==> a in d.heap
    ensures Queue(Release(d)) == B.Apply(Queue(d), B.Close)
  {
    assert Serials(d.heap, d.incoming + d.pending) == Serials(d.heap, d.incoming) + Serials(d.heap, d.pending);
  }

  lemma {:induction false} ReleaseRefines(d: Dev)
    requires Linked(d)
    ensures Linked(Release(d)) && Queue(Release(d)) == B.Apply(Queue(d), B.Close)
  {
    ReleaseLinked(d);
    ReleaseQueue(d);
  }

  // ---- What every call keeps -----------------------------------------------------------

  /** The live entries of one direction. */
  function InFlight(heap: map<nat, Item>, dir: Dir): set<nat> {
    set a | a in heap && heap[a].bio.dir == dir
  }

  /** Each in-flight counter is the number of live bios of its direction. */
  ghost predicate Balanced(d: Dev) {
    d.inRead == |InFlight(d.heap, READ)| && d.inWrite == |InFlight(d.heap, WRITE)|
  }

  /** The lists are linked, the counters are exact, and every live entry's bio is well
      formed. */
  ghost predicate Sound(d: Dev, mem: Memory) {
    Linked(d) && Balanced(d) && forall a :: a in d.heap ==> WellFormed(mem, d.heap[a].bio)
  }

  lemma InFlightMore(heap: map<nat, Item>, a: nat, item: Item, dir: Dir)
    requires a !in heap
    ensures |InFlight(heap[a := item], dir)| == |InFlight(heap, dir)| + if item.bio.dir == dir then 1 else 0
  {
    assert InFlight(heap[a := item], dir) == InFlight(heap, dir) + if item.bio.dir == dir then {a} else {};
  }

  lemma InFlightLess(heap: map<nat, Item>, a: nat, dir: Dir)
    requires a in heap
    ensures |InFlight(heap - {a}, dir)| == |InFlight(heap, dir)| - if heap[a].bio.dir == dir then 1 else 0
  {
    if heap[a].bio.dir == dir {
      assert InFlight(heap - {a}, dir) == InFlight(heap, dir) - {a};
    } else {
      assert InFlight(heap - {a}, dir) == InFlight(heap, dir);
    }
  }

  lemma MakeRequestBalanced(d: Dev, bio: Bio, alloc: Option<nat>)
    requires Balanced(d) && (alloc.Some? ==> alloc.value !in d.heap)
    ensures Balanced(MakeRequest(d, bio, alloc))
  {
    if alloc.Some? {
      InFlightMore(d.heap, alloc.value, Item(d.submitted, bio), READ);
      InFlightMore(d.heap, alloc.value, Item(d.submitted, bio), WRITE);
    }
  }

  lemma CompleteBalanced(d: Dev, ok: bool)
    requires Balanced(d) && d.current in d.heap
    ensures Balanced(Complete(d, ok))
  {
    InFlightLess(d.heap, d.current, READ);
    InFlightLess(d.heap, d.current, WRITE);
  }

  lemma WellFormedSame(m: Memory, n: Memory, bio: Bio)
    requires SameShape(m, n) && WellFormed(m, bio)
    ensures WellFormed(n, bio)
  {
  }

  lemma MakeRequestSound(d: Dev, mem: Memory, bio: Bio, alloc: Option<nat>)
    requires Sound(d, mem) && WellFormed(mem, bio)
    requires alloc.Some? ==> alloc.value !in d.heap && alloc.value < WORD_LIMIT
    ensures Sound(MakeRequest(d, bio, alloc), mem)
  {
    MakeRequestLinked(d, bio, alloc);
    MakeRequestBalanced(d, bio, alloc);
  }

  lemma ReadSound(d: Dev, mem: Memory, count: nat)
    requires Sound(d, mem) && (count != HEADER_SIZE ==> d.current in d.heap)
    ensures Sound(ReadCall(d, mem, count).0, mem)
  {
    if count == HEADER_SIZE && d.incoming != [] {
      DeliverLinked(d);
    }
  }

  lemma CompleteSound(d: Dev, mem: Memory, ok: bool)
    requires Sound(d, mem) && d.current in d.heap
    ensures Sound(Complete(d, ok), mem)
  {
    CompleteLinked(d, ok);
    CompleteBalanced(d, ok);
  }

  lemma SoundSame(d: Dev, m: Memory, n: Memory)
    requires Sound(d, m) && SameShape(m, n)
    ensures Sound(d, n)
  {
    forall a | a in d.heap ensures WellFormed(n, d.heap[a].bio) {
      WellFormedSame(m, n, d.heap[a].bio);
    }
  }

  lemma WriteSound(d: Dev, mem: Memory, buf: seq<byte>)
    requires Sound(d, mem) && (|buf| != WORD_BYTES ==> d.current in d.heap)
    ensures var r := WriteCall(d, mem, buf); SameShape(mem, r.1) && Sound(r.0, r.1)
  {
    var r := WriteCall(d, mem, buf);
    if |buf| == WORD_BYTES {
      assert Linked(r.0) && Balanced(r.0);
    } else if |buf| == 1 {
      CompleteSound(d, mem, buf[0] == 0);
    } else {
      SoundSame(d, mem, r.1);
    }
  }

  // ---- Every sequence of calls -----------------------------------------------------------

  /** What is done to a device: a submission, a read of so many bytes, a write of a
      buffer, a close of the tunnel file. */
  datatype Use = Submission(bio: Bio, alloc: Option<nat>) | Reading(count: nat) | Writing(buf: seq<byte>) | Closing

  /** A call that follows the cursor needs it to name a live entry; nothing is asked of
      when that entry was handed out, or of closes in between. */
  predicate Possible(d: Dev, mem: Memory, u: Use) {
    match u
    case Submission(bio, alloc) =>
      WellFormed(mem, bio) && (alloc.Some? ==> alloc.value !in d.heap && alloc.value < WORD_LIMIT)
    case Reading(count) => count != HEADER_SIZE ==> d.current in d.heap
    case Writing(buf) => |buf| != WORD_BYTES ==> d.current in d.heap
    case Closing => true
  }

  ghost function Used(d: Dev, mem: Memory, u: Use): (Dev, Memory)
    requires Sound(d, mem) && Possible(d, mem, u)
  {
    match u
    case Submission(bio, alloc) => (MakeRequest(d, bio, alloc), mem)
    case Reading(count) => (ReadCall(d, mem, count).0, mem)
    case Writing(buf) => (WriteCall(d, mem, buf).0, WriteCall(d, mem, buf).1)
    case Closing => (Release(d), mem)
  }

  lemma {:induction false} SubmissionConserves(d: Dev, bio: Bio, alloc: Option<nat>)
    requires Linked(d) && B.Conserved(Queue(d))
    requires alloc.Some? ==> alloc.value !in d.heap && alloc.value < WORD_LIMIT
    ensures Linked(MakeRequest(d, bio, alloc)) && B.Conserved(Queue(MakeRequest(d, bio, alloc)))
  {
    MakeRequestRefines(d, bio, alloc);
    var q := Queue(d);
    if alloc.None? {
      B.ApplyConserves(q, B.Refuse);
    } else {
      B.ApplyConserves(q, B.Arrive);
      B.ApplyConserves(B.Apply(q, B.Arrive), B.Enqueue(d.submitted));
    }
  }

  lemma {:induction false} DeliveryConserves(d: Dev)
    requires Linked(d) && B.Conserved(Queue(d)) && d.incoming != []
    ensures Linked(Deliver(d)) && B.Conserved(Queue(Deliver(d)))
  {
    DeliverRefines(d);
    B.ApplyConserves(Queue(d), B.Deliver);
  }

  lemma {:induction false} CompletionConserves(d: Dev, ok: bool)
    requires Linked(d) && B.Conserved(Queue(d)) && d.current in d.heap
    ensures Linked(Complete(d, ok)) && B.Conserved(Queue(Complete(d, ok)))
  {
    CompleteRefines(d, ok);
    B.ApplyConserves(Queue(d), B.Complete(d.heap[d.current].serial));
  }

  lemma {:induction false} CloseConserves(d: Dev)
    requires Linked(d) && B.Conserved(Queue(d))
    ensures Linked(Release(d)) && B.Conserved(Queue(Release(d)))
  {
    ReleaseRefines(d);
    B.ApplyConserves(Queue(d), B.Close);
  }

  lemma UseKeepsSound(d: Dev, mem: Memory, u: Use)
    requires Sound(d, mem) && Possible(d, mem, u)
    ensures Sound(Used(d, mem, u).0, Used(d, mem, u).1)
  {
    match u
    case Submission(bio, alloc) => MakeRequestSound(d, mem, bio, alloc);
    case Reading(count) => ReadSound(d, mem, count);
    case Writing(buf) => WriteSound(d, mem, buf);
    case Closing => ReleaseRefines(d);
  }

  lemma {:induction false} UseConserves(d: Dev, mem: Memory, u: Use)
    requires Sound(d, mem) && Possible(d, mem, u) && B.Conserved(Queue(d))
    ensures var r := Used(d, mem, u).0; Linked(r) && B.Conserved(Queue(r))
  {
    match u
    case Submission(bio, alloc) => SubmissionConserves(d, bio, alloc);
    case Reading(count) =>
      if count == HEADER_SIZE && d.incoming != [] {
        DeliveryConserves(d);
      }
    case Writing(buf) =>
      if |buf| == WORD_BYTES {
        assert Queue(Used(d, mem, u).0) == Queue(d);
      } else if |buf| == 1 {
        CompletionConserves(d, buf[0] == 0);
      }
    case Closing => CloseConserves(d);
  }

  /** A device that a sequence of possible calls makes of a new one. */
  ghost predicate Arises(mem: Memory, uses: seq<Use>, d: Dev, now: Memory) {
    if uses == [] then d == FRESH && now == mem
    else
      var front, last := uses[..|uses| - 1], uses[|uses| - 1];
      exists e: Dev, m: Memory :: Arises(mem, front, e, m) && Leads(e, m, last, d, now)
  }

  ghost predicate Leads(e: Dev, m: Memory, u: Use, d: Dev, now: Memory) {
    Sound(e, m) && Possible(e, m, u) && Used(e, m, u) == (d, now)
  }

  /** Exactly-once completion over every sequence of calls, with any number of closes, and
      with completions of bios that a close has put back: each bio is on one list or has
      ended, once. */
  lemma {:induction false} CallsConserve(mem: Memory, uses: seq<Use>, d: Dev, now: Memory)
    requires Arises(mem, uses, d, now)
    ensures Sound(d, now) && B.Conserved(Queue(d))
  {
    if uses == [] {
      assert forall b: nat :: B.Places(Queue(d), b) == 0;
    } else {
      var front, last := uses[..|uses| - 1], uses[|uses| - 1];
      var e, m :| Arises(mem, front, e, m) && Leads(e, m, last, d, now);
      CallsConserve(mem, front, e, m);
      UseKeepsSound(e, m, last);
      UseConserves(e, m, last);
    }
  }

  /** And after each of them the in-flight counters are the numbers of live READs and
      WRITEs. */
  lemma {:induction false} InFlightIsExact(mem: Memory, uses: seq<Use>, d: Dev, now: Memory)
    requires Arises(mem, uses, d, now)
    ensures d.inRead == |InFlight(d.heap, READ)| && d.inWrite == |InFlight(d.heap, WRITE)|
  {
    CallsConserve(mem, uses, d, now);
  }

  /** The id last written in a sequence of calls. */
  function LastId(uses: seq<Use>): nat {
    if uses == [] then 0
    else
      var last := uses[|uses| - 1];
      if last.Writing? && |last.buf| == WORD_BYTES then Value(last.buf) else LastId(uses[..|uses| - 1])
  }

  lemma UseSetsCursor(d: Dev, mem: Memory, u: Use)
    requires Sound(d, mem) && Possible(d, mem, u)
    ensures Used(d, mem, u).0.current == if u.Writing? && |u.buf| == WORD_BYTES then Value(u.buf) else d.current
  {
  }

  /** The cursor is the last id that was written, whatever was submitted, read, completed
      or closed since. */
  lemma {:induction false} CursorIsLastId(mem: Memory, uses: seq<Use>, d: Dev, now: Memory)
    requires Arises(mem, uses, d, now)
    ensures d.current == LastId(uses)
  {
    if uses != [] {
      var front, last := uses[..|uses| - 1], uses[|uses| - 1];
      var e, m :| Arises(mem, front, e, m) && Leads(e, m, last, d, now);
      CursorIsLastId(mem, front, e, m);
      UseSetsCursor(e, m, last);
    }
  }

  /** The bio last submitted in a sequence of calls with its entry at address a. */
  function LastBio(uses: seq<Use>, a: nat): Option<Bio> {
    if uses == [] then None
    else
      var last := uses[|uses| - 1];
      if last.Submission? && last.alloc == Some(a) then Some(last.bio) else LastBio(uses[..|uses| - 1], a)
  }

  lemma UseKeepsBios(d: Dev, mem: Memory, u: Use, a: nat)
    requires Sound(d, mem) && Possible(d, mem, u) && a in Used(d, mem, u).0.heap
    ensures if u.Submission? && u.alloc == Some(a) then Used(d, mem, u).0.heap[a].bio == u.bio
            else a in d.heap && Used(d, mem, u).0.heap[a] == d.heap[a]
  {
  }

  /** A live entry's bio is the one submitted there last. */
  lemma {:induction false} EntriesAreSubmitted(mem: Memory, uses: seq<Use>, d: Dev, now: Memory, a: nat)
    requires Arises(mem, uses, d, now) && a in d.heap
    ensures LastBio(uses, a) == Some(d.heap[a].bio)
  {
    assert uses != [];
    var front, last := uses[..|uses| - 1], uses[|uses| - 1];
    var e, m :| Arises(mem, front, e, m) && Leads(e, m, last, d, now);
    UseKeepsBios(e, m, last, a);
    if a in e.heap && !(last.Submission? && last.alloc == Some(a)) {
      EntriesAreSubmitted(mem, front, e, m, a);
    }
  }

  /** The bios that a call ends, and how: a submission for which there is no memory, with
      an error; a one-byte write, the current bio, as its byte says. */
  lemma UseEnds(d: Dev, mem: Memory, u: Use)
    requires Sound(d, mem) && Possible(d, mem, u)
    ensures var r := Used(d, mem, u).0;
            match u
            case Submission(_, alloc) =>
              r.ended == (if alloc.None? then d.ended + [Ending(d.submitted, false)] else d.ended)
            case Writing(buf) =>
              if |buf| != 1 then r.ended == d.ended
              else r.ended == d.ended + [Ending(d.heap[d.current].serial, buf[0] == 0)]
            case Reading(_) => r.ended == d.ended
            case Closing => r.ended == d.ended
  {
  }

  // ---- The library's failure byte ------------------------------------------------------

  /** What bdtun_fail_request writes: one byte of a string whose first byte is the
      NUL that the escape \0 denotes. */
  const FAIL_STRING: seq<byte> := [0, 120, 48, 49]

  /** The driver ends a bio with an error exactly when the completion byte is not
      zero, so the library's failure call ends it as a success. */
  lemma FailureSignalsSuccess(d: Dev, mem: Memory, b: byte)
    requires d.current in d.heap && WellFormed(mem, d.heap[d.current].bio)
    ensures var r := WriteCall(d, mem, [b]).0;
            r.ended == d.ended + [Ending(d.heap[d.current].serial, b == 0)]
    ensures WriteCall(d, mem, FAIL_STRING[..1]).0.ended
            == d.ended + [Ending(d.heap[d.current].serial, true)]
  {
    assert FAIL_STRING[..1] == [0];
  }
}
