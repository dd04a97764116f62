/** A server on a tunnel is a disk.  The block layer submits bios at any time, one
    server runs the library's loop - read the header, make the request current,
    move its data, complete it - against a backing store, and the owners of pages
    no bio is using write to them as they please.  Every interleaving of these
    steps, without a close, behaves like a flat array of bytes that serves the
    bios one at a time in the order they were queued. */
module DiskService {
  import opened Common
  import opened Segments
  import opened Words
  import opened DeviceSpec

  // ---- The flat disk ---------------------------------------------------------------------

  /** A queued bio; for a WRITE, with the data its segments held when queued. */
  datatype Logged = Logged(bio: Bio, data: seq<byte>)

  function Offset(bio: Bio): nat {
    bio.sector * SECTOR_SIZE
  }

  predicate InBounds(bio: Bio, size: nat) {
    Offset(bio) + bio.size <= size
  }

  function Splice(disk: seq<byte>, at: nat, data: seq<byte>): (r: seq<byte>)
    requires at + |data| <= |disk|
    ensures |r| == |disk|
  {
    disk[..at] + data + disk[at + |data|..]
  }

  predicate Servable(log: seq<Logged>, size: nat) {
    forall k :: 0 <= k < |log| ==>
      InBounds(log[k].bio, size) && (log[k].bio.dir == WRITE ==> |log[k].data| == log[k].bio.size)
  }

  /** The disk after all WRITEs of a log, in order. */
  function Disk(base: seq<byte>, log: seq<Logged>): (r: seq<byte>)
    requires Servable(log, |base|)
    ensures |r| == |base|
  {
    if log == [] then base
    else
      var front, last := log[..|log| - 1], log[|log| - 1];
      if last.bio.dir == WRITE then Splice(Disk(base, front), Offset(last.bio), last.data)
      else Disk(base, front)
  }

  /** What a READ finds after all earlier WRITEs of the log. */
  function ReadBack(base: seq<byte>, log: seq<Logged>, k: nat): seq<byte>
    requires Servable(log, |base|) && k < |log|
  {
    Disk(base, log[..k])[Offset(log[k].bio)..Offset(log[k].bio) + log[k].bio.size]
  }

  /** A WRITE that covers byte i of the disk. */
  predicate Reaches(l: Logged, i: nat) {
    l.bio.dir == WRITE && Offset(l.bio) <= i < Offset(l.bio) + l.bio.size
  }

  /** The last WRITE of a log that covers byte i. */
  predicate IsLast(log: seq<Logged>, k: nat, i: nat) {
    k < |log| && Reaches(log[k], i) && forall j :: k < j < |log| ==> !Reaches(log[j], i)
  }

  /** Byte i of a disk, in terms of the bios alone: v comes from the last WRITE of the log
      that covers i and, if none does, from what was there at the start. */
  ghost predicate LastWritten(base: seq<byte>, log: seq<Logged>, i: nat, v: byte)
    requires Servable(log, |base|) && i < |base|
  {
    && (forall k: nat :: IsLast(log, k, i) ==> v == log[k].data[i - Offset(log[k].bio)])
    && ((forall k :: 0 <= k < |log| ==> !Reaches(log[k], i)) ==> v == base[i])
  }

  /** So for each of the bytes from `at` on. */
  ghost predicate HoldsLast(base: seq<byte>, log: seq<Logged>, at: nat, bytes: seq<byte>)
    requires Servable(log, |base|)
  {
    at + |bytes| <= |base| && forall i :: 0 <= i < |bytes| ==> LastWritten(base, log, at + i, bytes[i])
  }

  // ---- The system ------------------------------------------------------------------------

  /** Where the server is in its loop. */
  datatype Stage =
    | AwaitHeader
    | GotHeader(req: TxReq)
    | Chosen(req: TxReq)
    | Fetched(req: TxReq, data: seq<byte>)
    | Ready(req: TxReq)
    | Broken      // a call did not do what the loop relies on

  datatype World = World(
    dev: Dev,
    mem: Memory,
    store: seq<byte>,
    srv: Stage,
    // history
    base: seq<byte>,
    log: seq<Logged>,             // bios in the order they were queued
    results: seq<seq<byte>>)      // per completed bio, what its segments held when it ended

  datatype Event =
    | Submit(bio: Bio, a: nat)
    | Refuse(bio: Bio)
    | Touch(page: nat, at: nat, value: byte)
    | Serve

  function Boot(mem: Memory, base: seq<byte>): World {
    World(FRESH, mem, base, AwaitHeader, base, [], [])
  }

  /** The bios queued and not yet completed. */
  function Live(w: World): seq<Logged>
    requires |w.results| <= |w.log|
  {
    w.log[|w.results|..]
  }

  predicate SegsApart(s: seq<Seg>, r: seq<Seg>) {
    forall i, j :: 0 <= i < |s| && 0 <= j < |r| ==> Apart(s[i], r[j])
  }

  /** Two bios that may be in flight together: WRITEs may share their source, but
      no bio's data overlaps what a READ will fill. */
  predicate Compatible(b: Bio, c: Bio)
    requires b.idx <= |b.vecs| && c.idx <= |c.vecs|
  {
    (b.dir == WRITE && c.dir == WRITE) || SegsApart(Segs(b), Segs(c))
  }

  /** What the block layer may submit: whole sectors within the device, into or
      out of memory that stays the bio's own while it is in flight. */
  predicate Admissible(w: World, bio: Bio) {
    && |w.results| <= |w.log|
    && WellFormed(w.mem, bio)
    && bio.size % SECTOR_SIZE == 0 && InBounds(bio, |w.base|)
    && (bio.dir == READ ==> Disjoint(Segs(bio)))
    && forall k :: 0 <= k < |Live(w)| ==>
         var other := Live(w)[k].bio; other.idx <= |other.vecs| && Compatible(other, bio)
  }

  predicate Enabled(w: World, ev: Event) {
    match ev
    case Submit(bio, a) => Admissible(w, bio) && a !in w.dev.heap && a < WORD_LIMIT
    case Refuse(bio) => true
    case Touch(p, i, v) =>
      && |w.results| <= |w.log| && p < |w.mem| && i < |w.mem[p]|
      && forall k :: 0 <= k < |Live(w)| ==>
           var other := Live(w)[k].bio; other.idx <= |other.vecs| && !Covered(Segs(other), p, i)
    case Serve => (w.srv.AwaitHeader? ==> w.dev.incoming != []) && !w.srv.Broken?
  }

  /** The library's calls.  A call the driver would follow through a dead cursor
      leaves the server Broken. */
  predicate CanRead(w: World, count: nat) {
    && (forall a :: a in w.dev.incoming ==> a in w.dev.heap)
    && (count != HEADER_SIZE ==> w.dev.current in w.dev.heap && WellFormed(w.mem, w.dev.heap[w.dev.current].bio))
  }

  predicate CanWrite(w: World, count: nat) {
    count != WORD_BYTES ==> w.dev.current in w.dev.heap && WellFormed(w.mem, w.dev.heap[w.dev.current].bio)
  }

  function IsWrite(req: TxReq): bool {
    req.flags / REQ_WRITE % 2 == 1
  }

  /** bdtun_read_request */
  function ServeHeader(w: World): World {
    if !CanRead(w, HEADER_SIZE) then w.(srv := Broken)
    else
      var (d, reply) := ReadCall(w.dev, w.mem, HEADER_SIZE);
      if reply.Data? && |reply.bytes| == HEADER_SIZE then w.(dev := d, srv := GotHeader(Parse(reply.bytes)))
      else w.(srv := Broken)
  }

  /** bdtun_set_request */
  function ServeChoose(w: World, req: TxReq): World {
    var (d, mem, reply) := WriteCall(w.dev, w.mem, Word(req.id));
    w.(dev := d, mem := mem, srv := if reply.Written? then Chosen(req) else Broken)
  }

  /** bdtun_get_request_data, for a WRITE */
  function ServeFetch(w: World, req: TxReq): World {
    if !CanRead(w, req.size) then w.(srv := Broken)
    else
      var (d, reply) := ReadCall(w.dev, w.mem, req.size);
      if reply.Data? && |reply.bytes| == req.size then w.(dev := d, srv := Fetched(req, reply.bytes))
      else w.(srv := Broken)
  }

  /** the server's own write to its store */
  function ServeStore(w: World, req: TxReq, data: seq<byte>): World {
    if req.offset + |data| <= |w.store| then w.(store := Splice(w.store, req.offset, data), srv := Ready(req))
    else w.(srv := Broken)
  }

  /** the server's own read of its store, then bdtun_send_request_data, for a READ */
  function ServeSend(w: World, req: TxReq): World {
    if req.offset + req.size > |w.store| || !CanWrite(w, req.size) then w.(srv := Broken)
    else
      var (d, mem, reply) := WriteCall(w.dev, w.mem, w.store[req.offset..req.offset + req.size]);
      w.(dev := d, mem := mem, srv := if reply.Written? then Ready(req) else Broken)
  }

  /** bdtun_complete_request */
  function ServeComplete(w: World, req: TxReq): World {
    if !CanWrite(w, 1) then w.(srv := Broken)
    else
      var bio := w.dev.heap[w.dev.current].bio;
      var (d, mem, reply) := WriteCall(w.dev, w.mem, [0]);
      w.(dev := d, mem := mem, srv := if reply.Written? then AwaitHeader else Broken,
         results := w.results + [Gather(w.mem, Segs(bio))])
  }

  function Step(w: World, ev: Event): World
    requires Enabled(w, ev)
  {
    match ev
    case Submit(bio, a) =>
      w.(dev := MakeRequest(w.dev, bio, Some(a)), log := w.log + [Logged(bio, Gather(w.mem, Segs(bio)))])
    case Refuse(bio) => w.(dev := MakeRequest(w.dev, bio, None))
    case Touch(p, i, v) =>
      var page: seq<byte> := w.mem[p];
      w.(mem := w.mem[p := page[i := v]])
    case Serve =>
      match w.srv
      case AwaitHeader => ServeHeader(w)
      case GotHeader(req) => ServeChoose(w, req)
      case Chosen(req) => if IsWrite(req) then ServeFetch(w, req) else ServeSend(w, req)
      case Fetched(req, data) => ServeStore(w, req, data)
      case Ready(req) => ServeComplete(w, req)
  }

  // ---- The invariant ---------------------------------------------------------------------

  /** Every queued and uncompleted bio keeps its memory to itself, and a WRITE's
      segments still hold what they held when it was queued. */
  ghost predicate Held(w: World) {
    && |w.results| <= |w.log|
    && (forall k :: |w.results| <= k < |w.log| ==>
          && WellFormed(w.mem, w.log[k].bio)
          && (w.log[k].bio.dir == READ ==> Disjoint(Segs(w.log[k].bio)))
          && (w.log[k].bio.dir == WRITE ==> Gather(w.mem, Segs(w.log[k].bio)) == w.log[k].data))
    && (forall k, l :: |w.results| <= k < l < |w.log| ==> Compatible(w.log[k].bio, w.log[l].bio))
  }

  ghost predicate Sized(w: World) {
    && Servable(w.log, |w.base|) && |w.base| < WORD_LIMIT
    && (forall k :: 0 <= k < |w.log| ==> w.log[k].bio.size % SECTOR_SIZE == 0)
  }

  /** The incoming list is the log from position k on. */
  ghost predicate Queued(w: World, k: nat) {
    && k + |w.dev.incoming| == |w.log|
    && (forall i :: 0 <= i < |w.dev.incoming| ==>
          w.dev.incoming[i] in w.dev.heap && w.dev.heap[w.dev.incoming[i]].bio == w.log[k + i].bio)
  }

  /** The request the server works on is the next uncompleted bio of the log. */
  ghost predicate Working(w: World, req: TxReq) {
    var c := |w.results|;
    && c < |w.log| && Queued(w, c + 1)
    && w.dev.pending == [req.id] && req.id in w.dev.heap
    && w.dev.heap[req.id].bio == w.log[c].bio
    && req == TxReqOf(req.id, w.log[c].bio)
  }

  /** The server's progress, and what is in the store. */
  ghost predicate Served(w: World)
    requires Sized(w)
  {
    var c := |w.results|;
    match w.srv
    case AwaitHeader =>
      c <= |w.log| && Queued(w, c) && w.dev.pending == [] && w.store == Disk(w.base, w.log[..c])
    case GotHeader(req) => Working(w, req) && w.store == Disk(w.base, w.log[..c])
    case Chosen(req) => Working(w, req) && w.dev.current == req.id && w.store == Disk(w.base, w.log[..c])
    case Fetched(req, data) =>
      && Working(w, req) && w.dev.current == req.id && w.store == Disk(w.base, w.log[..c])
      && w.log[c].bio.dir == WRITE && data == w.log[c].data
    case Ready(req) =>
      && Working(w, req) && w.dev.current == req.id && w.store == Disk(w.base, w.log[..c + 1])
      && WellFormed(w.mem, w.log[c].bio)
      && (w.log[c].bio.dir == READ ==>
            Gather(w.mem, Segs(w.log[c].bio)) == ReadBack(w.base, w.log, c))
    case Broken => false
  }

  /** Every completed READ found what the flat disk holds after all earlier WRITEs. */
  ghost predicate Correct(w: World)
    requires Sized(w)
  {
    && |w.results| <= |w.log|
    && (forall k :: 0 <= k < |w.results| && w.log[k].bio.dir == READ ==>
          w.results[k] == ReadBack(w.base, w.log, k))
  }

  ghost predicate Inv(w: World) {
    Sized(w) && Held(w) && Sound(w.dev, w.mem) && Served(w) && Correct(w)
  }
}
