/** The tunnel device with its fields, pages and buffers in place, and the client
    library's calls on it.  Each system call is one atomic operation here; the
    threads inside the calls are the subject of TunnelThreads. */
module TunnelDevice {
  import opened Common
  import opened Segments
  import opened Words
  import opened CopyLoops
  import S = DeviceSpec
  import PageMap

  class Tunnel {
    const pages: seq<array<byte>>

    var heap: map<nat, S.Item>
    var incoming: seq<nat>
    var pending: seq<nat>
    var current: nat
    var inRead: int
    var inWrite: int
    // history
    var submitted: nat
    var ended: seq<S.Ending>

    ghost function State(): S.Dev
      reads this
    {
      S.Dev(heap, incoming, pending, current, inRead, inWrite, submitted, ended)
    }

    ghost predicate Valid()
      reads this, pages
    {
      Separate(pages) && S.Sound(State(), View(pages))
    }

    constructor (pages: seq<array<byte>>)
      requires Separate(pages)
      ensures Valid() && State() == S.FRESH && this.pages == pages
    {
      this.pages := pages;
      heap, incoming, pending, current := map[], [], [], 0;
      inRead, inWrite, submitted, ended := 0, 0, 0, [];
    }

    /** part_inc_in_flight and part_dec_in_flight */
    method CountInFlight(dir: Dir, k: int)
      modifies this`inRead, this`inWrite
      ensures State() == S.Count(old(State()), dir, k)
    {
      if dir == READ {
        inRead := inRead + k;
      } else {
        inWrite := inWrite + k;
      }
    }

    /** bdtun_make_request */
    method MakeRequest(bio: S.Bio, alloc: Option<nat>)
      requires Valid() && S.WellFormed(View(pages), bio)
      requires alloc.Some? ==> alloc.value !in heap && alloc.value < WORD_LIMIT
      modifies this
      ensures Valid() && State() == S.MakeRequest(old(State()), bio, alloc)
      ensures inRead == old(inRead) + if alloc.Some? && bio.dir == READ then 1 else 0
      ensures inWrite == old(inWrite) + if alloc.Some? && bio.dir == WRITE then 1 else 0
    {
      S.MakeRequestSound(State(), View(pages), bio, alloc);
      if alloc.None? {
        Refuse();
      } else {
        Enqueue(bio, alloc.value);
      }
      assert View(pages) == old(View(pages));
    }

    /** No memory for an entry: the bio ends with -EIO. */
    method Refuse()
      modifies this`ended, this`submitted
      ensures State() == old(State()).(submitted := old(submitted) + 1,
                                       ended := old(ended) + [S.Ending(old(submitted), false)])
    {
      ended := ended + [S.Ending(submitted, false)];
      submitted := submitted + 1;
    }

    /** The allocated entry is filled in, queued and counted. */
    method Enqueue(bio: S.Bio, a: nat)
      requires a !in heap
      modifies this
      ensures State() == S.MakeRequest(old(State()), bio, Some(a))
    {
      heap := heap[a := S.Item(submitted, bio)];
      submitted := submitted + 1;
      incoming := incoming + [a];
      CountInFlight(bio.dir, 1);
    }

    /** bdtunch_read.  A header read of an empty list would sleep: `blocked`. */
    method Read(buf: array<byte>, limit: nat) returns (res: Result<nat>, blocked: bool)
      requires Valid() && buf !in pages
      requires buf.Length != HEADER_SIZE ==> current in heap
      modifies this, buf
      ensures Valid() && View(pages) == old(View(pages))
      ensures State() == S.ReadCall(old(State()), View(pages), buf.Length).0
      ensures ReadReplies(S.ReadCall(old(State()), View(pages), buf.Length).1, limit,
                          old(buf[..]), buf[..], res, blocked)
      ensures buf.Length != HEADER_SIZE ==>
                && !blocked && State() == old(State())
                && PayloadRead(heap[current].bio, View(pages), limit, old(buf[..]), buf[..], res)
    {
      if buf.Length == HEADER_SIZE {
        res, blocked := ReadHeader(buf, limit);
      } else {
        res := ReadPayload(buf, limit);
        blocked := false;
      }
    }

    method ReadHeader(buf: array<byte>, limit: nat) returns (res: Result<nat>, blocked: bool)
      requires Valid() && buf !in pages && buf.Length == HEADER_SIZE
      modifies this, buf
      ensures Valid() && View(pages) == old(View(pages))
      ensures State() == S.ReadCall(old(State()), View(pages), HEADER_SIZE).0
      ensures ReadReplies(S.ReadCall(old(State()), View(pages), HEADER_SIZE).1, limit,
                          old(buf[..]), buf[..], res, blocked)
    {
      if incoming == [] {
        return Err(EINTR), true;
      }
      var a := incoming[0];
      var header := Header(S.TxReqOf(a, heap[a].bio));
      StoreHeader(buf, header);
      MoveHead();
      return Ok(buf.Length), false;
    }

    /** list_move_tail of the head of incoming onto pending */
    method MoveHead()
      requires Valid() && incoming != []
      modifies this`incoming, this`pending
      ensures Valid() && State() == S.Deliver(old(State()))
    {
      S.DeliverLinked(State());
      incoming, pending := incoming[1..], pending + [incoming[0]];
    }

    method ReadPayload(buf: array<byte>, limit: nat) returns (res: Result<nat>)
      requires Valid() && buf !in pages && buf.Length != HEADER_SIZE && current in heap
      modifies buf
      ensures View(pages) == old(View(pages))
      ensures PayloadRead(heap[current].bio, View(pages), limit, old(buf[..]), buf[..], res)
      ensures S.ReadCall(State(), View(pages), buf.Length).0 == State()
      ensures ReadReplies(S.ReadCall(State(), View(pages), buf.Length).1, limit,
                          old(buf[..]), buf[..], res, false)
    {
      var bio := heap[current].bio;
      if bio.dir == WRITE && buf.Length == bio.size {
        ghost var before, out := buf[..], Gather(View(pages), S.Segs(bio));
        ghost var got: nat;
        res, got := TransferOut(pages, S.Segs(bio), buf, limit);
        assert buf[..got] == out[..got] && buf[got..] == before[got..];
      } else {
        res := Err(EIO);
      }
    }

    /** The header fields are stored through the user pointer. */
    method StoreHeader(buf: array<byte>, header: seq<byte>)
      requires buf.Length == HEADER_SIZE == |header|
      modifies buf
      ensures buf[..] == header
    {
      forall k | 0 <= k < HEADER_SIZE {
        buf[k] := header[k];
      }
      assert buf[..] == header;
    }

    /** bdtunch_write */
    method Write(buf: array<byte>, limit: nat)
      returns (res: Result<nat>, ghost hit: nat, ghost tail: seq<byte>)
      requires Valid() && buf !in pages
      requires buf.Length != WORD_BYTES ==> current in heap
      modifies this, pages
      ensures Valid()
      ensures State() == S.WriteCall(old(State()), old(View(pages)), buf[..]).0
      ensures var reply := S.WriteCall(old(State()), old(View(pages)), buf[..]).2;
              var faults := reply.Written? && buf.Length != WORD_BYTES && buf.Length != 1 && limit < buf.Length;
              if faults then
                res == Err(EIO)
                && Faulted(old(View(pages)), S.Segs(old(heap[current].bio)), buf[..], limit, hit, tail, View(pages))
              else
                res == (if reply.Written? then Ok(buf.Length) else Err(EIO))
                && View(pages) == S.WriteCall(old(State()), old(View(pages)), buf[..]).1
    {
      hit, tail := 0, [];
      if buf.Length == WORD_BYTES {
        S.WriteSound(State(), View(pages), buf[..]);
        SetCurrent(Value(buf[..]));
        res := Ok(buf.Length);
      } else if buf.Length == 1 {
        S.CompleteSound(State(), View(pages), buf[0] == 0);
        EndCurrent(buf[0] == 0);
        res := Ok(1);
      } else {
        res, hit, tail := WritePayload(buf, limit);
        S.SoundSame(State(), old(View(pages)), View(pages));
      }
    }

    method SetCurrent(id: nat)
      modifies this`current
      ensures State() == old(State()).(current := id)
    {
      current := id;
    }

    method WritePayload(buf: array<byte>, limit: nat)
      returns (res: Result<nat>, ghost hit: nat, ghost tail: seq<byte>)
      requires Separate(pages) && buf !in pages && current in heap && S.WellFormed(View(pages), heap[current].bio)
      modifies pages
      ensures SameShape(old(View(pages)), View(pages))
      ensures var bio := heap[current].bio;
              if bio.dir != READ || buf.Length != bio.size then
                res == Err(EIO) && View(pages) == old(View(pages))
              else if buf.Length <= limit then
                res == Ok(buf.Length) && View(pages) == Scatter(old(View(pages)), S.Segs(bio), buf[..])
              else
                res == Err(EIO)
                && Faulted(old(View(pages)), S.Segs(bio), buf[..], limit, hit, tail, View(pages))
    {
      var bio := heap[current].bio;
      if bio.dir == READ && buf.Length == bio.size {
        res, hit, tail := TransferIn(pages, S.Segs(bio), buf, limit);
      } else {
        res, hit, tail := Err(EIO), 0, [];
      }
    }

    /** A completion: bio_endio, bdtun_update_iostat, list_del, kfree. */
    method EndCurrent(ok: bool)
      requires current in heap
      modifies this
      ensures State() == S.Complete(old(State()), ok)
      ensures var dir := old(heap[current].bio.dir);
              && inRead == old(inRead) - (if dir == READ then 1 else 0)
              && inWrite == old(inWrite) - (if dir == WRITE then 1 else 0)
    {
      var e := current;
      ended := ended + [S.Ending(heap[e].serial, ok)];
      CountInFlight(heap[e].bio.dir, -1);
      incoming, pending := Without(incoming, e), Without(pending, e);
      heap := heap - {e};
    }

    /** bdtunch_release */
    method Release()
      requires Valid()
      modifies this
      ensures Valid() && State() == S.Release(old(State()))
    {
      ghost var d := State();
      S.ReleaseRefines(d);
      incoming, pending := incoming + pending, [];
    }

    /** bdtunch_poll; a tunnel file is always writable. */
    method Poll() returns (readable: bool)
      ensures readable <==> State().incoming != []
    {
      readable := incoming != [];
    }

    /** bdtunch_mmap of a file from page pgoff on.  The test of the offset never refuses,
        and nothing else looks at it. */
    method Mmap(pgoff: nat, shared: bool, length: nat, fails: nat) returns (res: PageMap.MapResult)
      requires Valid()
      requires shared ==> current in heap
      ensures !shared ==> res == PageMap.Refused(EINVAL)
      ensures shared ==>
                var bio := heap[current].bio;
                if length != |bio.vecs| * PAGE_SIZE || fails < |S.Segs(bio)| then res == PageMap.Refused(EIO)
                else res.Mapped? && |res.frames| == |S.Segs(bio)|
                     && forall k :: 0 <= k < |res.frames| ==> res.frames[k] == S.Segs(bio)[k].page
    {
      PageMap.OffsetIsAligned(pgoff);
      if !shared {
        return PageMap.Refused(EINVAL);
      }
      var bio := heap[current].bio;
      res := PageMap.MapBio(bio.vecs, bio.idx, PageMap.MapOffset(pgoff), shared, length, fails);
    }
  }

  /** A payload read succeeds exactly for a WRITE, with a buffer of the bio's size that can
      all be written, and delivers what the bio's segments hold.  Otherwise it is an I/O
      error, and the buffer is untouched unless it is where the copy faulted. */
  ghost predicate PayloadRead(bio: S.Bio, mem: Memory, limit: nat, before: seq<byte>, after: seq<byte>,
                              res: Result<nat>)
    requires S.WellFormed(mem, bio)
  {
    var accepted := bio.dir == WRITE && |before| == bio.size;
    && |after| == |before|
    && (res.Ok? <==> accepted && |before| <= limit)
    && (res.Ok? ==> res == Ok(|before|) && after == Gather(mem, S.Segs(bio)))
    && (res.Err? ==> res == Err(EIO))
    && (!accepted ==> after == before)
    && (accepted && limit < |before| ==>
          exists got: nat :: got <= limit
            && after[..got] == Gather(mem, S.Segs(bio))[..got] && after[got..] == before[got..])
  }

  /** How a read() result reflects the reply: delivered in full, delivered up to
      some byte no later than the first inaccessible one, refused, or not at all. */
  ghost predicate ReadReplies(reply: S.Reply, limit: nat, before: seq<byte>, after: seq<byte>,
                              res: Result<nat>, blocked: bool) {
    && |after| == |before|
    && (blocked <==> reply.Blocks?)
    && match reply
       case Data(bytes) =>
         if |bytes| == HEADER_SIZE || |bytes| <= limit then res == Ok(|bytes|) && after == bytes
         else |bytes| == |after| && res == Err(EIO)
              && exists got: nat :: got <= limit && after[..got] == bytes[..got] && after[got..] == before[got..]
       case Failed(errno) => res == Err(errno) && after == before
       case Blocks => after == before
       case Written(_) => false
  }

  /** After a write that faulted, whatever it left in the pages, writing again in full
      leaves them as one successful write would have. */
  lemma WriteAgain(d: S.Dev, mem: Memory, data: seq<byte>, limit: nat, hit: nat, tail: seq<byte>, left: Memory,
                   again: seq<byte>)
    requires S.Sound(d, mem) && d.current in d.heap && d.heap[d.current].bio.dir == READ
    requires Faulted(mem, S.Segs(d.heap[d.current].bio), data, limit, hit, tail, left)
    requires |again| == d.heap[d.current].bio.size && |again| != WORD_BYTES && |again| != 1
    ensures SameShape(mem, left) && S.Sound(d, left)
    ensures S.WriteCall(d, left, again) == S.WriteCall(d, mem, again)
  {
    RetryAfterFault(mem, S.Segs(d.heap[d.current].bio), data, limit, hit, tail, left, again);
    S.SoundSame(d, mem, left);
  }
}
