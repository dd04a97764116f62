/** The client library's calls on a tunnel, and the server's loop over them with a
    backing array.  The server carries the system of DiskService along as a ghost:
    every method is one or more of its steps, carried out in place. */
module DiskServer {
  import opened Common
  import opened Segments
  import opened Words
  import opened CopyLoops
  import opened TunnelDevice
  import S = DeviceSpec
  import opened DiskService
  import P = DiskServiceProof

  // ---- The library -----------------------------------------------------------------------

  /** A call reports 0 when it moved as many bytes as it was to, and otherwise
      hands on what the system call returned. */
  function Status(res: Result<nat>, count: nat): Result<nat> {
    if res == Ok(count) then Ok(0) else res
  }

  /** bdtun_read_request */
  method ReadRequest(t: Tunnel) returns (req: TxReq, res: Result<nat>)
    requires t.Valid()
    modifies t
    ensures t.Valid() && View(t.pages) == old(View(t.pages))
    ensures var s := old(t.State());
            if s.incoming == [] then t.State() == s && res == Err(EINTR)
            else t.State() == S.Deliver(s) && res == Ok(0)
                 && req == Parse(Header(S.TxReqOf(s.incoming[0], s.heap[s.incoming[0]].bio)))
  {
    var buf := new byte[HEADER_SIZE];
    var n, blocked := t.Read(buf, HEADER_SIZE);
    req := Parse(buf[..]);
    res := if blocked then Err(EINTR) else Status(n, HEADER_SIZE);
  }

  /** bdtun_set_request */
  method SetRequest(t: Tunnel, req: TxReq) returns (res: Result<nat>)
    requires t.Valid() && req.id < WORD_LIMIT
    modifies t, t.pages
    ensures t.Valid() && View(t.pages) == old(View(t.pages))
    ensures t.State() == old(t.State()).(current := req.id) && res == Ok(0)
  {
    var id := Word(req.id);
    WordRoundTrip(req.id);
    var buf := new byte[WORD_BYTES](i requires 0 <= i < WORD_BYTES => id[i]);
    assert buf[..] == id;
    var n, hit, tail := t.Write(buf, WORD_BYTES);
    res := Status(n, WORD_BYTES);
  }

  /** bdtun_get_request_data.  Should the size be that of a header, the driver takes it
      for a header read. */
  method GetRequestData(t: Tunnel, req: TxReq, buf: array<byte>) returns (res: Result<nat>)
    requires t.Valid() && buf !in t.pages && buf.Length == req.size
    requires req.size != HEADER_SIZE ==> t.current in t.heap
    modifies t, buf
    ensures t.Valid() && View(t.pages) == old(View(t.pages))
    ensures t.State() == S.ReadCall(old(t.State()), View(t.pages), req.size).0
    ensures match S.ReadCall(old(t.State()), View(t.pages), req.size).1
            case Data(bytes) => res == Ok(0) && buf[..] == bytes
            case Failed(errno) => res == Err(errno) && buf[..] == old(buf[..])
            case Blocks => res == Err(EINTR) && buf[..] == old(buf[..])
            case Written(_) => false
    ensures req.size != HEADER_SIZE ==>
              var bio := t.heap[t.current].bio;
              && t.State() == old(t.State()) && S.WellFormed(View(t.pages), bio)
              && (res.Ok? <==> bio.dir == WRITE && bio.size == req.size)
              && if res.Ok? then res == Ok(0) && buf[..] == Gather(View(t.pages), S.Segs(bio))
                 else res == Err(EIO) && buf[..] == old(buf[..])
  {
    var n, blocked := t.Read(buf, buf.Length);
    res := if blocked then Err(EINTR) else Status(n, req.size);
  }

  /** bdtun_send_request_data.  Should the size be one byte or a word, the driver takes
      it for a completion or an id. */
  method SendRequestData(t: Tunnel, req: TxReq, buf: array<byte>) returns (res: Result<nat>)
    requires t.Valid() && buf !in t.pages && buf.Length == req.size
    requires req.size != WORD_BYTES ==> t.current in t.heap
    modifies t, t.pages
    ensures t.Valid()
    ensures var (d, mem, reply) := S.WriteCall(old(t.State()), old(View(t.pages)), buf[..]);
            && t.State() == d && View(t.pages) == mem
            && res == if reply.Written? then Ok(0) else Err(EIO)
  {
    var n, hit, tail := t.Write(buf, buf.Length);
    res := Status(n, req.size);
  }

  /** bdtun_complete_request */
  method CompleteRequest(t: Tunnel) returns (res: Result<nat>)
    requires t.Valid() && t.current in t.heap
    modifies t, t.pages
    ensures t.Valid() && View(t.pages) == old(View(t.pages))
    ensures t.State() == S.Complete(old(t.State()), true) && res == Ok(0)
  {
    var buf := new byte[1](_ => 0);
    assert buf[0] == 0;
    var n, hit, tail := t.Write(buf, 1);
    res := Status(n, 1);
  }

  /** A buffer of the request's size, filled with the current WRITE's data. */
  method Receive(t: Tunnel, req: TxReq) returns (buf: array<byte>)
    requires t.Valid() && t.current in t.heap && req.size != HEADER_SIZE
    requires t.heap[t.current].bio.dir == WRITE && t.heap[t.current].bio.size == req.size
    modifies t
    ensures fresh(buf) && t.Valid() && View(t.pages) == old(View(t.pages)) && t.State() == old(t.State())
    ensures buf[..] == Gather(View(t.pages), S.Segs(t.heap[t.current].bio))
  {
    buf := new byte[req.size];
    var res := GetRequestData(t, req, buf);
  }

  /** The current READ filled from the store. */
  method Answer(t: Tunnel, req: TxReq, store: array<byte>)
    requires t.Valid() && t.current in t.heap && store !in t.pages
    requires req.size != WORD_BYTES && req.size != 1 && req.offset + req.size <= store.Length
    requires t.heap[t.current].bio.dir == READ && t.heap[t.current].bio.size == req.size
    modifies t, t.pages
    ensures t.Valid() && t.State() == old(t.State())
    ensures S.WellFormed(old(View(t.pages)), t.heap[t.current].bio)
    ensures View(t.pages) == Scatter(old(View(t.pages)), S.Segs(t.heap[t.current].bio),
                                     store[req.offset..req.offset + req.size])
  {
    var buf := SeekAndRead(store, req.offset, req.size);
    var res := SendRequestData(t, req, buf);
  }

  method SeekAndRead(store: array<byte>, at: nat, len: nat) returns (buf: array<byte>)
    requires at + len <= store.Length
    ensures fresh(buf) && buf[..] == store[at..at + len]
  {
    buf := new byte[len];
    forall k | 0 <= k < len {
      buf[k] := store[at + k];
    }
  }

  // ---- The server ------------------------------------------------------------------------

  /** How a world came about: the memory and the store at the start, and the steps since,
      the last one outermost. */
  datatype History = Began(mem: Memory, base: seq<byte>) | Then(past: History, last: Event)

  function Origin(h: History): World {
    match h
    case Began(mem, base) => Boot(mem, base)
    case Then(past, _) => Origin(past)
  }

  function Run(h: History): seq<Event> {
    match h
    case Began(_, _) => []
    case Then(past, last) => Run(past) + [last]
  }

  /** A world the system of DiskService reaches by the steps of a history. */
  ghost predicate Reached(h: History, w: World) {
    match h
    case Began(mem, base) => |base| < WORD_LIMIT && w == Boot(mem, base)
    case Then(past, last) => exists v :: Reached(past, v) && Leads(v, last, w)
  }

  predicate Leads(v: World, ev: Event, w: World) {
    Enabled(v, ev) && w == Step(v, ev)
  }

  /** The worlds so reached are those of the system's runs. */
  lemma {:induction false} ReachedIsRun(h: History, w: World)
    requires Reached(h, w)
    ensures |Origin(h).base| < WORD_LIMIT && Origin(h) == Boot(Origin(h).mem, Origin(h).base)
    ensures P.Feasible(Origin(h), Run(h)) && P.After(Origin(h), Run(h)) == w
  {
    if h.Then? {
      var v :| Reached(h.past, v) && Leads(v, h.last, w);
      ReachedIsRun(h.past, v);
      assert Run(h)[..|Run(h)| - 1] == Run(h.past);
    }
  }

  lemma {:induction false} ReachedKeeps(h: History, w: World)
    requires Reached(h, w)
    ensures Inv(w)
  {
    ReachedIsRun(h, w);
    P.InvAlways(Origin(h).mem, Origin(h).base, Run(h));
  }

  lemma {:induction false} ReachedNext(h: History, w: World, ev: Event)
    requires Reached(h, w) && Enabled(w, ev)
    ensures Reached(Then(h, ev), Step(w, ev))
  {
    assert Leads(w, ev, Step(w, ev));
  }

  /** The steps of one turn of the server's loop: header, choice, the data's move, in two
      steps for a WRITE, and completion. */
  function Turn(h: History, writes: bool): History {
    Then(Moved(Then(Then(h, Serve), Serve), writes), Serve)
  }

  function Moved(h: History, writes: bool): History {
    if writes then Then(Then(h, Serve), Serve) else Then(h, Serve)
  }

  /** Nothing but steps of the server lies between two histories. */
  predicate OnlyServes(from: History, to: History) {
    to == from || (to.Then? && to.last == Serve && OnlyServes(from, to.past))
  }

  lemma TurnServes(from: History, to: History, writes: bool)
    requires OnlyServes(from, to)
    ensures OnlyServes(from, Turn(to, writes))
  {
    var two := Then(Then(to, Serve), Serve);
    assert OnlyServes(from, Then(to, Serve)) && OnlyServes(from, two);
    assert OnlyServes(from, Then(two, Serve)) && OnlyServes(from, Then(Then(two, Serve), Serve));
  }

  /** What the library's calls need, while a request is current. */
  lemma {:induction false} CurrentIsLive(h: History, w: World, req: TxReq) returns (bio: S.Bio)
    requires Reached(h, w)
    requires w.srv == Chosen(req) || w.srv == Ready(req) || (w.srv.Fetched? && w.srv.req == req)
    ensures |w.results| < |w.log| && w.dev.current == req.id && req.id in w.dev.heap
    ensures bio == w.log[|w.results|].bio && bio == w.dev.heap[req.id].bio
    ensures bio.size == req.size && S.WellFormed(w.mem, bio) && (IsWrite(req) <==> bio.dir == WRITE)
    ensures req.size != HEADER_SIZE && req.size != WORD_BYTES && req.size != 1
    ensures req.offset + req.size <= |w.store|
  {
    ReachedKeeps(h, w);
    bio := InHand(w, req);
    NotAWord(req.size);
  }

  lemma InHand(w: World, req: TxReq) returns (bio: S.Bio)
    requires Sized(w) && Held(w) && Served(w)
    requires w.srv == Chosen(req) || w.srv == Ready(req) || (w.srv.Fetched? && w.srv.req == req)
    ensures |w.results| < |w.log| && w.dev.current == req.id && req.id in w.dev.heap
    ensures bio == w.log[|w.results|].bio && bio == w.dev.heap[req.id].bio
    ensures bio.size == req.size && S.WellFormed(w.mem, bio) && (IsWrite(req) <==> bio.dir == WRITE)
    ensures req.size % S.SECTOR_SIZE == 0 && req.offset + req.size <= |w.store|
  {
    bio := w.log[|w.results|].bio;
    P.FieldsAreTrue(req.id, bio, |w.base|);
  }

  /** Whole sectors are none of the sizes that the driver takes for something else. */
  lemma NotAWord(size: nat)
    requires size % S.SECTOR_SIZE == 0
    ensures size != HEADER_SIZE && size != WORD_BYTES && size != 1
  {
  }

  // Each step of the server, its outcome spelt out as DiskServiceProof finds it.

  lemma {:induction false} HeaderTaken(h: History, w: World, req: TxReq)
    requires Reached(h, w) && w.srv.AwaitHeader? && w.dev.incoming != [] && w.dev.incoming[0] in w.dev.heap
    requires var a := w.dev.incoming[0]; req == Parse(Header(S.TxReqOf(a, w.dev.heap[a].bio)))
    ensures var r := w.(dev := S.Deliver(w.dev), srv := GotHeader(req));
            Leads(w, Serve, r) && Reached(Then(h, Serve), r)
  {
    ReachedKeeps(h, w);
    P.HeaderResult(w);
    ReachedNext(h, w, Serve);
  }

  lemma {:induction false} RequestChosen(h: History, w: World, req: TxReq)
    requires Reached(h, w) && w.srv == GotHeader(req)
    ensures req.id < WORD_LIMIT
    ensures var r := w.(dev := w.dev.(current := req.id), srv := Chosen(req));
            Leads(w, Serve, r) && Reached(Then(h, Serve), r)
  {
    ReachedKeeps(h, w);
    P.ChooseResult(w, req);
    ReachedNext(h, w, Serve);
  }

  /** A WRITE's data, as fetched. */
  lemma {:induction false} DataFetched(h: History, w: World, req: TxReq, bio: S.Bio, data: seq<byte>)
    requires Reached(h, w) && w.srv == Chosen(req) && bio.dir == WRITE
    requires |w.results| < |w.log| && bio == w.log[|w.results|].bio
    requires S.WellFormed(w.mem, bio) && data == Gather(w.mem, S.Segs(bio))
    ensures var r := w.(srv := Fetched(req, data)); Leads(w, Serve, r) && Reached(Then(h, Serve), r)
  {
    ReachedKeeps(h, w);
    var at := P.AtHand(w, req);
    P.FetchStep(w, req, bio);
    ReachedNext(h, w, Serve);
  }

  lemma {:induction false} DataKept(h: History, w: World, req: TxReq, data: seq<byte>)
    requires Reached(h, w) && w.srv == Fetched(req, data)
    ensures req.offset + |data| <= |w.store|
    ensures var r := w.(store := Splice(w.store, req.offset, data), srv := Ready(req));
            Leads(w, Serve, r) && Reached(Then(h, Serve), r)
  {
    var bio := CurrentIsLive(h, w, req);
    ReachedKeeps(h, w);
    ReachedNext(h, w, Serve);
  }

  /** A READ's turn, as a new memory. */
  lemma {:induction false} DataSupplied(h: History, w: World, req: TxReq, bio: S.Bio)
    requires Reached(h, w) && w.srv == Chosen(req) && bio.dir == READ
    requires |w.results| < |w.log| && bio == w.log[|w.results|].bio
    requires S.WellFormed(w.mem, bio) && bio.size == req.size && req.offset + req.size <= |w.store|
    ensures var mem := Scatter(w.mem, S.Segs(bio), w.store[req.offset..req.offset + req.size]);
            && Leads(w, Serve, w.(mem := mem, srv := Ready(req)))
            && Reached(Then(h, Serve), w.(mem := mem, srv := Ready(req)))
            && AgreeOutside(S.Segs(bio), w.mem, mem)
  {
    ReachedKeeps(h, w);
    var at := P.AtHand(w, req);
    P.SendStep(w, req, bio);
    ReachedNext(h, w, Serve);
    ScatterAgrees(w.mem, S.Segs(bio), w.store[req.offset..req.offset + req.size]);
  }

  lemma {:induction false} RequestFinished(h: History, w: World, req: TxReq, bio: S.Bio)
    requires Reached(h, w) && w.srv == Ready(req)
    requires |w.results| < |w.log| && bio == w.log[|w.results|].bio && S.WellFormed(w.mem, bio)
    ensures w.dev.current in w.dev.heap
    ensures var r := w.(dev := S.Complete(w.dev, true), srv := AwaitHeader,
                        results := w.results + [Gather(w.mem, S.Segs(bio))]);
            Leads(w, Serve, r) && Reached(Then(h, Serve), r)
  {
    ReachedKeeps(h, w);
    P.CompleteResult(w, req);
    ReachedNext(h, w, Serve);
  }

  /** A served READ's segments hold what the flat disk holds there. */
  lemma {:induction false} ReadIsAnswered(h: History, w: World, req: TxReq)
    requires Reached(h, w) && w.srv == Ready(req)
    ensures |w.results| < |w.log| && Servable(w.log, |w.base|) && S.WellFormed(w.mem, w.log[|w.results|].bio)
    ensures var c := |w.results|;
            w.log[c].bio.dir == READ ==>
              && Gather(w.mem, S.Segs(w.log[c].bio)) == ReadBack(w.base, w.log, c)
              && HoldsItsData(w.mem, w.base, w.log, c)
  {
    ReachedKeeps(h, w);
    P.ReadBackHoldsLast(w.base, w.log, |w.results|);
  }

  // What the segments of the READs hold after a run of the loop.

  /** From position c on, READs keep their segments from each other. */
  predicate ReadsApart(log: seq<Logged>, c: nat) {
    && (forall k :: c <= k < |log| ==> log[k].bio.idx <= |log[k].bio.vecs|)
    && forall k, l :: c <= k < l < |log| && log[k].bio.dir == READ && log[l].bio.dir == READ ==>
         SegsApart(S.Segs(log[k].bio), S.Segs(log[l].bio))
  }

  /** The READs from c to n hold in a memory what the flat disk holds. */
  predicate Answered(mem: Memory, base: seq<byte>, log: seq<Logged>, c: nat, n: nat)
    requires Servable(log, |base|) && n <= |log|
  {
    forall k :: c <= k < n && log[k].bio.dir == READ ==>
      S.WellFormed(mem, log[k].bio) && Gather(mem, S.Segs(log[k].bio)) == ReadBack(base, log, k)
  }

  /** A READ's segments hold, at each byte, the data of the last WRITE before it that
      covers the byte, or what the store began with. */
  ghost predicate HoldsItsData(mem: Memory, base: seq<byte>, log: seq<Logged>, k: nat)
    requires Servable(log, |base|) && k < |log|
  {
    && S.WellFormed(mem, log[k].bio) && Servable(log[..k], |base|)
    && HoldsLast(base, log[..k], Offset(log[k].bio), Gather(mem, S.Segs(log[k].bio)))
  }

  lemma AnsweredHold(mem: Memory, base: seq<byte>, log: seq<Logged>, c: nat, n: nat)
    requires Servable(log, |base|) && n <= |log| && Answered(mem, base, log, c, n)
    ensures forall k :: c <= k < n && log[k].bio.dir == READ ==> HoldsItsData(mem, base, log, k)
  {
    forall k | c <= k < n && log[k].bio.dir == READ ensures HoldsItsData(mem, base, log, k) {
      P.ReadBackHoldsLast(base, log, k);
    }
  }

  /** A page byte lies outside the segments of the READs from c to n. */
  predicate Untouched(log: seq<Logged>, c: nat, n: nat, p: nat, i: nat)
    requires n <= |log| && ReadsApart(log, c)
  {
    forall k :: c <= k < n && log[k].bio.dir == READ ==> !Covered(S.Segs(log[k].bio), p, i)
  }

  /** Memories that differ only in the segments of the READs from c to n. */
  ghost predicate Elsewhere(log: seq<Logged>, c: nat, n: nat, m: Memory, r: Memory)
    requires n <= |log| && ReadsApart(log, c)
  {
    && SameShape(m, r)
    && forall p, i :: 0 <= p < |m| && 0 <= i < |m[p]| && Untouched(log, c, n, p, i) ==> m[p][i] == r[p][i]
  }

  lemma {:induction false} ReadsAreApart(h: History, w: World)
    requires Reached(h, w)
    ensures Servable(w.log, |w.base|) && |w.results| <= |w.log| && ReadsApart(w.log, |w.results|)
  {
    ReachedKeeps(h, w);
    forall k, l | |w.results| <= k < l < |w.log| && w.log[k].bio.dir == READ && w.log[l].bio.dir == READ
      ensures SegsApart(S.Segs(w.log[k].bio), S.Segs(w.log[l].bio))
    {
      assert Compatible(w.log[k].bio, w.log[l].bio);
    }
  }

  /** One more READ answered leaves the answers to the others. */
  lemma OneMoreAnswered(m: Memory, r: Memory, base: seq<byte>, log: seq<Logged>, c: nat, n: nat)
    requires Servable(log, |base|) && ReadsApart(log, c) && c <= n < |log|
    requires Answered(m, base, log, c, n) && OneServed(m, r, base, log, n)
    ensures Answered(r, base, log, c, n + 1)
  {
    forall k | c <= k < n && log[k].bio.dir == READ
      ensures S.WellFormed(r, log[k].bio) && Gather(r, S.Segs(log[k].bio)) == ReadBack(base, log, k)
    {
      if log[n].bio.dir == READ {
        StaysAnswered(m, r, S.Segs(log[n].bio), log[k].bio);
      }
    }
  }

  lemma StaysAnswered(m: Memory, r: Memory, segs: seq<Seg>, bio: S.Bio)
    requires S.WellFormed(m, bio) && AgreeOutside(segs, m, r) && SegsApart(S.Segs(bio), segs)
    ensures S.WellFormed(r, bio) && Gather(r, S.Segs(bio)) == Gather(m, S.Segs(bio))
  {
    forall p, i | 0 <= p < |m| && 0 <= i < |m[p]| && Covered(S.Segs(bio), p, i) ensures m[p][i] == r[p][i] {
      assert !Covered(segs, p, i);
    }
    P.GatherSame(m, r, S.Segs(bio));
  }

  lemma OneMoreElsewhere(m0: Memory, m: Memory, r: Memory, base: seq<byte>, log: seq<Logged>, c: nat, n: nat)
    requires Servable(log, |base|) && ReadsApart(log, c) && c <= n < |log|
    requires Elsewhere(log, c, n, m0, m) && OneServed(m, r, base, log, n)
    ensures Elsewhere(log, c, n + 1, m0, r)
  {
    forall p, i | 0 <= p < |m0| && 0 <= i < |m0[p]| && Untouched(log, c, n + 1, p, i) ensures m0[p][i] == r[p][i] {
      assert Untouched(log, c, n, p, i);
      if log[n].bio.dir == READ {
        assert !Covered(S.Segs(log[n].bio), p, i);
      }
    }
  }

  /** What serving bio n makes of the pages: a READ's segments hold what the flat disk
      holds after the WRITEs before it, and nothing else changes. */
  ghost predicate OneServed(m: Memory, r: Memory, base: seq<byte>, log: seq<Logged>, n: nat)
    requires Servable(log, |base|) && n < |log|
  {
    var bio := log[n].bio;
    if bio.dir == READ then
      && bio.idx <= |bio.vecs| && AgreeOutside(S.Segs(bio), m, r) && S.WellFormed(r, bio)
      && Gather(r, S.Segs(bio)) == ReadBack(base, log, n)
    else r == m
  }

  class Server {
    const tunnel: Tunnel
    const store: array<byte>
    ghost var world: World
    ghost var history: History

    ghost predicate Valid()
      reads this, tunnel, tunnel.pages, store
    {
      && tunnel.Valid() && store !in tunnel.pages
      && world.dev == tunnel.State() && world.mem == View(tunnel.pages) && world.store == store[..]
      && Reached(history, world)
    }

    constructor (tunnel: Tunnel, store: array<byte>)
      requires tunnel.Valid() && tunnel.State() == S.FRESH
      requires store !in tunnel.pages && store.Length < WORD_LIMIT
      ensures Valid() && this.tunnel == tunnel && this.store == store
      ensures history == Began(View(tunnel.pages), store[..])
    {
      this.tunnel, this.store := tunnel, store;
      world := Boot(View(tunnel.pages), store[..]);
      history := Began(View(tunnel.pages), store[..]);
    }

    /** A step of the server has been carried out and led to world r. */
    ghost method Record(r: World)
      requires tunnel.Valid() && store !in tunnel.pages
      requires r.dev == tunnel.State() && r.mem == View(tunnel.pages) && r.store == store[..]
      requires Reached(Then(history, Serve), r)
      modifies this`world, this`history
      ensures Valid() && world == r && history == Then(old(history), Serve)
    {
      world := r;
      history := Then(history, Serve);
    }

    /** The block layer queues a bio. */
    method Submit(bio: S.Bio, a: nat)
      requires Valid() && Admissible(world, bio) && a !in tunnel.heap && a < WORD_LIMIT
      modifies this, tunnel
      ensures Valid() && world == Step(old(world), DiskService.Submit(bio, a))
      ensures history == Then(old(history), DiskService.Submit(bio, a))
    {
      tunnel.MakeRequest(bio, Some(a));
      ReachedNext(history, world, DiskService.Submit(bio, a));
      world := Step(world, DiskService.Submit(bio, a));
      history := Then(history, DiskService.Submit(bio, a));
    }

    method TakeHeader() returns (req: TxReq)
      requires Valid() && world.srv.AwaitHeader? && tunnel.incoming != []
      modifies this, tunnel
      ensures Valid() && history == Then(old(history), Serve) && Leads(old(world), Serve, world)
      ensures world == old(world).(dev := S.Deliver(old(world).dev), srv := GotHeader(req))
    {
      assert tunnel.incoming[0] in world.dev.heap;
      var res;
      req, res := ReadRequest(tunnel);
      HeaderTaken(history, world, req);
      Record(world.(dev := tunnel.State(), srv := GotHeader(req)));
    }

    method Choose(req: TxReq)
      requires Valid() && world.srv == GotHeader(req)
      modifies this, tunnel, tunnel.pages
      ensures Valid() && history == Then(old(history), Serve) && Leads(old(world), Serve, world)
      ensures world == old(world).(dev := old(world).dev.(current := req.id), srv := Chosen(req))
    {
      RequestChosen(history, world, req);
      var res := SetRequest(tunnel, req);
      Record(world.(dev := tunnel.State(), srv := Chosen(req)));
    }

    /** A WRITE's data leaves the tunnel... */
    method Fetch(req: TxReq) returns (buf: array<byte>)
      requires Valid() && world.srv == Chosen(req) && IsWrite(req)
      modifies this, tunnel
      ensures Valid() && fresh(buf) && history == Then(old(history), Serve) && Leads(old(world), Serve, world)
      ensures world == old(world).(srv := Fetched(req, buf[..]))
    {
      ghost var bio := CurrentIsLive(history, world, req);
      buf := Receive(tunnel, req);
      DataFetched(history, world, req, bio, buf[..]);
      Record(world.(srv := Fetched(req, buf[..])));
    }

    /** ... and goes to the store. */
    method Keep(req: TxReq, buf: array<byte>)
      requires Valid() && buf != store && world.srv == Fetched(req, buf[..])
      modifies this, store
      ensures Valid() && history == Then(old(history), Serve) && Leads(old(world), Serve, world)
      ensures req.offset + buf.Length <= store.Length
      ensures world == old(world).(store := Splice(old(store[..]), req.offset, buf[..]), srv := Ready(req))
    {
      DataKept(history, world, req, buf[..]);
      SeekAndWrite(req.offset, buf);
      Record(world.(store := store[..], srv := Ready(req)));
    }

    method SeekAndWrite(at: nat, buf: array<byte>)
      requires buf != store && at + buf.Length <= store.Length
      modifies store
      ensures store[..] == Splice(old(store[..]), at, buf[..])
      ensures forall i :: 0 <= i < store.Length ==>
                store[i] == if at <= i < at + buf.Length then buf[i - at] else old(store[i])
    {
      forall k | 0 <= k < buf.Length {
        store[at + k] := buf[k];
      }
    }

    /** A READ's data comes from the store; no other page byte changes. */
    method Supply(req: TxReq)
      requires Valid() && world.srv == Chosen(req) && !IsWrite(req)
      modifies this, tunnel, tunnel.pages
      ensures Valid() && history == Then(old(history), Serve) && Leads(old(world), Serve, world)
      ensures |old(world).results| < |old(world).log|
      ensures var bio := old(world).log[|old(world).results|].bio;
              bio.idx <= |bio.vecs| && AgreeOutside(S.Segs(bio), old(world).mem, world.mem)
      ensures world == old(world).(mem := View(tunnel.pages), srv := Ready(req))
    {
      ghost var bio := CurrentIsLive(history, world, req);
      Answer(tunnel, req, store);
      DataSupplied(history, world, req, bio);
      Record(world.(mem := View(tunnel.pages), srv := Ready(req)));
    }

    /** The bio ends; what its segments hold goes on record. */
    method Finish(req: TxReq)
      requires Valid() && world.srv == Ready(req)
      modifies this, tunnel, tunnel.pages
      ensures Valid() && history == Then(old(history), Serve) && Leads(old(world), Serve, world)
      ensures old(world).dev.current in old(world).dev.heap && |old(world).results| < |old(world).log|
      ensures var bio := old(world).log[|old(world).results|].bio;
              && S.WellFormed(old(world).mem, bio)
              && world == old(world).(dev := S.Complete(old(world).dev, true), srv := AwaitHeader,
                                      results := old(world).results + [Gather(old(world).mem, S.Segs(bio))])
    {
      ghost var w := world;
      ghost var bio := CurrentIsLive(history, w, req);
      RequestFinished(history, w, req, bio);
      var res := CompleteRequest(tunnel);
      assert View(tunnel.pages) == w.mem && tunnel.State() == S.Complete(w.dev, true);
      Record(w.(dev := S.Complete(w.dev, true), srv := AwaitHeader,
                  results := w.results + [Gather(w.mem, S.Segs(bio))]));
    }

    /** A request's data is moved in the direction its flags name. */
    method Move(req: TxReq)
      requires Valid() && world.srv == Chosen(req)
      modifies this, tunnel, tunnel.pages, store
      ensures Valid() && history == Moved(old(history), IsWrite(req))
      ensures world == old(world).(mem := View(tunnel.pages), store := store[..], srv := Ready(req))
      ensures |world.results| < |world.log| && Servable(world.log, |world.base|)
      ensures OneServed(old(world).mem, world.mem, world.base, world.log, |world.results|)
      ensures world.log[|world.results|].bio.dir == READ ==>
                HoldsItsData(world.mem, world.base, world.log, |world.results|)
    {
      ghost var bio := CurrentIsLive(history, world, req);
      if IsWrite(req) {
        var buf := Fetch(req);
        Keep(req, buf);
      } else {
        Supply(req);
      }
      ReadIsAnswered(history, world, req);
    }

    /** Between turns each byte of the store is that of the last completed WRITE covering
        it, and the READs completed were given what it held before them. */
    lemma StoreIsDisk()
      requires Valid() && world.srv.AwaitHeader?
      ensures |world.results| + |tunnel.incoming| == |world.log| && Servable(world.log, |world.base|)
      ensures store[..] == Disk(world.base, world.log[..|world.results|])
      ensures HoldsLast(world.base, world.log[..|world.results|], 0, store[..])
      ensures forall k :: 0 <= k < |world.results| && world.log[k].bio.dir == READ ==>
                && |world.results[k]| == world.log[k].bio.size && Servable(world.log[..k], |world.base|)
                && HoldsLast(world.base, world.log[..k], Offset(world.log[k].bio), world.results[k])
    {
      ReachedIsRun(history, world);
      ReachedKeeps(history, world);
      P.ServiceIsADisk(Origin(history).mem, Origin(history).base, Run(history));
      P.InvAlways(Origin(history).mem, Origin(history).base, Run(history));
    }

    /** The next request, made current. */
    method Prepare() returns (req: TxReq)
      requires Valid() && world.srv.AwaitHeader? && tunnel.incoming != []
      modifies this, tunnel, tunnel.pages
      ensures Valid() && history == Then(Then(old(history), Serve), Serve)
      ensures world == old(world).(dev := S.Deliver(old(world).dev).(current := req.id), srv := Chosen(req))
    {
      req := TakeHeader();
      Choose(req);
    }

    /** One turn of the loop, as steps of the system: the bio at the head of the queue
        is served and completed, a READ's pages hold what the flat disk holds, and no
        other page byte changes. */
    method ServeOne() returns (ghost writes: bool)
      requires Valid() && world.srv.AwaitHeader? && tunnel.incoming != []
      modifies this, tunnel, tunnel.pages, store
      ensures Valid() && world.srv.AwaitHeader?
      ensures history == Turn(old(history), writes)
      ensures world.log == old(world.log) && world.base == old(world.base)
      ensures |old(world).results| < |world.log| && Servable(world.log, |world.base|)
      ensures OneServed(old(View(tunnel.pages)), View(tunnel.pages), world.base, world.log, |old(world).results|)
      ensures |world.results| == |old(world).results| + 1 && old(world).results <= world.results
      ensures store.Length == |world.base| && HoldsLast(world.base, world.log[..|world.results|], 0, store[..])
    {
      var req := Prepare();
      Move(req);
      Finish(req);
      writes := IsWrite(req);
      StoreIsDisk();
    }

    /** The loop, until it would block: every bio queued is complete, each byte of the
        store is that of the last WRITE covering it, the pages of every READ it served
        hold at each byte the data of the last WRITE before it, and no other page byte has
        changed. */
    method ServeAll()
      requires Valid() && world.srv.AwaitHeader?
      modifies this, tunnel, tunnel.pages, store
      ensures Valid() && world.srv.AwaitHeader? && tunnel.incoming == []
      ensures OnlyServes(old(history), history)
      ensures world.log == old(world.log) && world.base == old(world.base)
      ensures Servable(world.log, |world.base|) && |world.results| == |world.log|
      ensures store.Length == |world.base| && HoldsLast(world.base, world.log, 0, store[..])
      ensures ReadsApart(world.log, |old(world).results|) && |old(world).results| <= |world.log|
      ensures forall k :: |old(world).results| <= k < |world.log| && world.log[k].bio.dir == READ ==>
                HoldsItsData(View(tunnel.pages), world.base, world.log, k)
      ensures Elsewhere(world.log, |old(world).results|, |world.log|, old(View(tunnel.pages)), View(tunnel.pages))
    {
      ReadsAreApart(history, world);
      ghost var c, mem := |world.results|, View(tunnel.pages);
      while tunnel.incoming != []
        invariant Valid() && world.srv.AwaitHeader?
        invariant OnlyServes(old(history), history)
        invariant world.log == old(world.log) && world.base == old(world.base)
        invariant c <= |world.results| <= |world.log|
        invariant Answered(View(tunnel.pages), world.base, world.log, c, |world.results|)
        invariant Elsewhere(world.log, c, |world.results|, mem, View(tunnel.pages))
        decreases |world.log| - |world.results|
      {
        ghost var before, n, past := View(tunnel.pages), |world.results|, history;
        ghost var writes := ServeOne();
        TurnServes(old(history), past, writes);
        OneMoreAnswered(before, View(tunnel.pages), world.base, world.log, c, n);
        OneMoreElsewhere(mem, before, View(tunnel.pages), world.base, world.log, c, n);
      }
      StoreIsDisk();
      AnsweredHold(View(tunnel.pages), world.base, world.log, c, |world.log|);
      assert world.log[..|world.log|] == world.log;
    }
  }
}
