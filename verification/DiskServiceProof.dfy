/** Every step of the service keeps it a disk. */
module DiskServiceProof {
  import opened Common
  import opened Segments
  import opened Words
  import opened DeviceSpec
  import opened DiskService

  // ---- Lemmas about memories and logs ---------------------------------------------------

  /** A gather depends only on the bytes its segments cover. */
  lemma {:induction false} GatherSame(m: Memory, n: Memory, segs: seq<Seg>)
    requires AllFit(m, segs) && SameShape(m, n)
    requires forall p, i :: 0 <= p < |m| && 0 <= i < |m[p]| && Covered(segs, p, i) ==> m[p][i] == n[p][i]
    ensures AllFit(n, segs) && Gather(m, segs) == Gather(n, segs)
  {
    forall q | 0 <= q < Total(segs) ensures Gather(m, segs)[q] == Gather(n, segs)[q] {
      GatherAtCell(m, segs, q);
      GatherAtCell(n, segs, q);
      CellCovered(segs, q);
    }
  }

  /** Filling one bio's segments leaves another's alone when they are apart. */
  lemma ScatterElsewhere(m: Memory, segs: seq<Seg>, data: seq<byte>, others: seq<Seg>)
    requires AllFit(m, segs) && AllFit(m, others) && |data| == Total(segs) && SegsApart(segs, others)
    ensures AllFit(Scatter(m, segs, data), others)
    ensures Gather(Scatter(m, segs, data), others) == Gather(m, others)
  {
    var n := Scatter(m, segs, data);
    forall p, i | 0 <= p < |m| && 0 <= i < |m[p]| && Covered(others, p, i) ensures m[p][i] == n[p][i] {
      assert !Covered(segs, p, i);
      ScatterFrame(m, segs, data, p, i);
    }
    GatherSame(m, n, others);
  }

  lemma ReadBackPrefix(base: seq<byte>, log: seq<Logged>, more: Logged, k: nat)
    requires Servable(log + [more], |base|) && k < |log|
    ensures Servable(log, |base|) && ReadBack(base, log + [more], k) == ReadBack(base, log, k)
  {
    assert forall i :: 0 <= i < |log| ==> (log + [more])[i] == log[i];
    assert (log + [more])[..k] == log[..k];
  }

  lemma DiskNext(base: seq<byte>, log: seq<Logged>, k: nat)
    requires Servable(log, |base|) && k < |log|
    ensures Disk(base, log[..k + 1])
            == if log[k].bio.dir == WRITE
               then Splice(Disk(base, log[..k]), Offset(log[k].bio), log[k].data)
               else Disk(base, log[..k])
  {
    assert log[..k + 1][..k] == log[..k];
  }

  /** A store after data has been written at a position: the data there, and every other
      byte as before. */
  lemma SpliceAt(disk: seq<byte>, at: nat, data: seq<byte>, i: nat)
    requires at + |data| <= |disk| && i < |disk|
    ensures Splice(disk, at, data)[i] == if at <= i < at + |data| then data[i - at] else disk[i]
  {
  }

  /** The newest bio of a log decides the bytes it covers and leaves the others to those
      before it. */
  lemma NewestDecides(base: seq<byte>, log: seq<Logged>, i: nat, was: byte, v: byte)
    requires log != [] && Servable(log, |base|) && i < |base|
    requires Servable(log[..|log| - 1], |base|) && LastWritten(base, log[..|log| - 1], i, was)
    requires var l := log[|log| - 1]; v == if Reaches(l, i) then l.data[i - Offset(l.bio)] else was
    ensures LastWritten(base, log, i, v)
  {
    var front := log[..|log| - 1];
    if !Reaches(log[|log| - 1], i) {
      forall k: nat | IsLast(log, k, i) ensures v == log[k].data[i - Offset(log[k].bio)] {
        assert IsLast(front, k, i);
      }
      if forall k :: 0 <= k < |log| ==> !Reaches(log[k], i) {
        assert forall k :: 0 <= k < |front| ==> !Reaches(front[k], i);
      }
    }
  }

  /** Each byte of the disk is that of the last WRITE covering it, or as it was at the
      start. */
  lemma {:induction false} DiskIsLastWritten(base: seq<byte>, log: seq<Logged>, i: nat)
    requires Servable(log, |base|) && i < |base|
    ensures LastWritten(base, log, i, Disk(base, log)[i])
  {
    if log != [] {
      var front, last := log[..|log| - 1], log[|log| - 1];
      DiskIsLastWritten(base, front, i);
      if last.bio.dir == WRITE {
        SpliceAt(Disk(base, front), Offset(last.bio), last.data, i);
      }
      NewestDecides(base, log, i, Disk(base, front)[i], Disk(base, log)[i]);
    }
  }

  lemma DiskHoldsLast(base: seq<byte>, log: seq<Logged>, disk: seq<byte>, at: nat, bytes: seq<byte>)
    requires Servable(log, |base|) && disk == Disk(base, log) && at + |bytes| <= |base|
    requires forall i :: 0 <= i < |bytes| ==> bytes[i] == disk[at + i]
    ensures HoldsLast(base, log, at, bytes)
  {
    forall i | 0 <= i < |bytes| ensures LastWritten(base, log, at + i, bytes[i]) {
      DiskIsLastWritten(base, log, at + i);
    }
  }

  /** What the flat disk gives a READ is as many bytes as it asks for, each from the last
      WRITE before it. */
  lemma ReadBackHoldsLast(base: seq<byte>, log: seq<Logged>, k: nat)
    requires Servable(log, |base|) && k < |log|
    ensures |ReadBack(base, log, k)| == log[k].bio.size && Servable(log[..k], |base|)
    ensures HoldsLast(base, log[..k], Offset(log[k].bio), ReadBack(base, log, k))
  {
    DiskHoldsLast(base, log[..k], Disk(base, log[..k]), Offset(log[k].bio), ReadBack(base, log, k));
  }

  lemma FieldsAreTrue(a: nat, bio: Bio, size: nat)
    requires InBounds(bio, size) && size < WORD_LIMIT
    ensures var req := TxReqOf(a, bio);
            && (a < WORD_LIMIT ==> req.id < WORD_LIMIT)
            && req.flags < WORD_LIMIT && req.offset < WORD_LIMIT && req.size < WORD_LIMIT
            && req.offset == Offset(bio) && (IsWrite(req) <==> bio.dir == WRITE)
  {
  }

  /** The header of an in-bounds bio says truly where its data is and which way it
      goes. */
  lemma HeaderIsTrue(a: nat, bio: Bio, size: nat)
    requires a < WORD_LIMIT && InBounds(bio, size) && size < WORD_LIMIT
    ensures var req := TxReqOf(a, bio);
            && Parse(Header(req)) == req
            && req.offset == Offset(bio) && (IsWrite(req) <==> bio.dir == WRITE)
            && req == TxReq(a, if bio.dir == WRITE then 2 else 0, bio.sector * 512, bio.size)
  {
    FieldsAreTrue(a, bio, size);
    HeaderRoundTrip(TxReqOf(a, bio));
  }

  // ---- The block layer's steps -----------------------------------------------------------

  lemma SubmitHeld(w: World, bio: Bio, a: nat)
    requires Enabled(w, Submit(bio, a)) && Held(w)
    ensures Held(Step(w, Submit(bio, a)))
  {
    var r := Step(w, Submit(bio, a));
    var c, n := |w.results|, |w.log|;
    assert forall k :: 0 <= k < n ==> r.log[k] == w.log[k];
    forall k, l | c <= k < l < |r.log| ensures Compatible(r.log[k].bio, r.log[l].bio) {
      if l == n {
        assert Live(w)[k - c] == w.log[k];
      }
    }
  }

  lemma SubmitSized(w: World, bio: Bio, a: nat)
    requires Enabled(w, Submit(bio, a)) && Sized(w)
    ensures Sized(Step(w, Submit(bio, a)))
  {
  }

  /** What the server relies on is not disturbed by a longer queue. */
  lemma SubmitQueued(w: World, bio: Bio, a: nat, k: nat)
    requires Enabled(w, Submit(bio, a)) && Queued(w, k)
    ensures Queued(Step(w, Submit(bio, a)), k)
  {
    var r := Step(w, Submit(bio, a));
    forall i | 0 <= i < |r.dev.incoming|
      ensures r.dev.incoming[i] in r.dev.heap && r.dev.heap[r.dev.incoming[i]].bio == r.log[k + i].bio
    {
      if i < |w.dev.incoming| {
        assert w.dev.incoming[i] in w.dev.heap;
      }
    }
  }

  lemma SubmitServed(w: World, bio: Bio, a: nat)
    requires Enabled(w, Submit(bio, a)) && Sized(w) && Sized(Step(w, Submit(bio, a))) && Served(w)
    ensures Served(Step(w, Submit(bio, a)))
  {
    var r := Step(w, Submit(bio, a));
    var c := |w.results|;
    if w.srv.AwaitHeader? {
      SubmitQueued(w, bio, a, c);
      assert r.log[..c] == w.log[..c];
    } else {
      SubmitQueued(w, bio, a, c + 1);
      assert r.log[c] == w.log[c] && r.log[..c] == w.log[..c] && r.log[..c + 1] == w.log[..c + 1];
      ReadBackPrefix(w.base, w.log, r.log[|w.log|], c);
    }
  }

  lemma SubmitCorrect(w: World, bio: Bio, a: nat)
    requires Enabled(w, Submit(bio, a)) && Sized(w) && Correct(w)
    ensures Sized(Step(w, Submit(bio, a))) && Correct(Step(w, Submit(bio, a)))
  {
    var r := Step(w, Submit(bio, a));
    assert forall k :: 0 <= k < |w.log| ==> r.log[k] == w.log[k];
    forall k | 0 <= k < |w.results| && w.log[k].bio.dir == READ
      ensures r.results[k] == ReadBack(w.base, r.log, k)
    {
      ReadBackPrefix(w.base, w.log, r.log[|w.log|], k);
    }
  }

  lemma SubmitKeeps(w: World, bio: Bio, a: nat)
    requires Enabled(w, Submit(bio, a)) && Inv(w)
    ensures Inv(Step(w, Submit(bio, a)))
  {
    SubmitHeld(w, bio, a);
    SubmitSized(w, bio, a);
    SubmitServed(w, bio, a);
    SubmitCorrect(w, bio, a);
    MakeRequestSound(w.dev, w.mem, bio, Some(a));
  }

  /** Steps of the device and the server that leave memory and log alone keep what
      depends only on those. */
  lemma Elsewhere(w: World, r: World)
    requires Sized(w) && Held(w) && Correct(w)
    requires r.mem == w.mem && r.base == w.base && r.log == w.log && r.results == w.results
    ensures Sized(r) && Held(r) && Correct(r)
  {
  }

  lemma RefuseServed(w: World, bio: Bio)
    requires Sized(w) && Served(w)
    ensures Sized(Step(w, Refuse(bio))) && Served(Step(w, Refuse(bio)))
  {
  }

  lemma RefuseKeeps(w: World, bio: Bio)
    requires Inv(w)
    ensures Inv(Step(w, Refuse(bio)))
  {
    Elsewhere(w, Step(w, Refuse(bio)));
    RefuseServed(w, bio);
    MakeRequestLinked(w.dev, bio, None);
  }

  /** A page byte outside every bio in flight changes none of their data. */
  lemma TouchOutside(w: World, p: nat, i: nat, v: byte, k: nat)
    requires Enabled(w, Touch(p, i, v)) && Held(w) && |w.results| <= k < |w.log|
    ensures var r := Step(w, Touch(p, i, v));
            && SameShape(w.mem, r.mem) && WellFormed(r.mem, w.log[k].bio)
            && Gather(r.mem, Segs(w.log[k].bio)) == Gather(w.mem, Segs(w.log[k].bio))
  {
    var r := Step(w, Touch(p, i, v));
    assert Live(w)[k - |w.results|] == w.log[k];
    GatherSame(w.mem, r.mem, Segs(w.log[k].bio));
  }

  lemma TouchHeld(w: World, p: nat, i: nat, v: byte)
    requires Enabled(w, Touch(p, i, v)) && Held(w)
    ensures Held(Step(w, Touch(p, i, v)))
  {
    var r := Step(w, Touch(p, i, v));
    forall k | |w.results| <= k < |w.log|
      ensures WellFormed(r.mem, w.log[k].bio)
      ensures Gather(r.mem, Segs(w.log[k].bio)) == Gather(w.mem, Segs(w.log[k].bio))
    {
      TouchOutside(w, p, i, v, k);
    }
  }

  /** The server relies on memory only for the data of the request it works on. */
  lemma ServedElsewhere(w: World, m: Memory)
    requires Sized(w) && Served(w)
    requires w.srv.Ready? ==>
               var bio := w.log[|w.results|].bio;
               WellFormed(m, bio) && Gather(m, Segs(bio)) == Gather(w.mem, Segs(bio))
    ensures Sized(w.(mem := m)) && Served(w.(mem := m))
  {
  }

  lemma TouchKeeps(w: World, p: nat, i: nat, v: byte)
    requires Enabled(w, Touch(p, i, v)) && Inv(w)
    ensures Inv(Step(w, Touch(p, i, v)))
  {
    TouchHeld(w, p, i, v);
    if w.srv.Ready? {
      TouchOutside(w, p, i, v, |w.results|);
    }
    ServedElsewhere(w, Step(w, Touch(p, i, v)).mem);
    SoundSame(w.dev, w.mem, Step(w, Touch(p, i, v)).mem);
  }

  // ---- The server's steps ----------------------------------------------------------------

  lemma HeaderStep(w: World, a: nat, req: TxReq)
    requires w.srv.AwaitHeader? && w.dev.incoming != [] && a == w.dev.incoming[0]
    requires (forall c :: c in w.dev.incoming ==> c in w.dev.heap) && a in w.dev.heap
    requires req == TxReqOf(a, w.dev.heap[a].bio) && Parse(Header(req)) == req
    ensures Step(w, Serve) == w.(dev := Deliver(w.dev), srv := GotHeader(req))
  {
  }

  lemma HeaderResult(w: World)
    requires Sized(w) && Sound(w.dev, w.mem) && Served(w) && w.srv.AwaitHeader? && w.dev.incoming != []
    ensures |w.results| < |w.log|
    ensures Step(w, Serve) == w.(dev := Deliver(w.dev),
                                 srv := GotHeader(TxReqOf(w.dev.incoming[0], w.log[|w.results|].bio)))
  {
    var a, c := w.dev.incoming[0], |w.results|;
    assert a in w.dev.heap && w.dev.heap[a].bio == w.log[c + 0].bio;
    HeaderIsTrue(a, w.log[c].bio, |w.base|);
    HeaderStep(w, a, TxReqOf(a, w.log[c].bio));
  }

  lemma HeaderServed(w: World, r: World)
    requires Sized(w) && Served(w) && w.srv.AwaitHeader? && w.dev.incoming != [] && |w.results| < |w.log|
    requires r == w.(dev := Deliver(w.dev),
                     srv := GotHeader(TxReqOf(w.dev.incoming[0], w.log[|w.results|].bio)))
    ensures Sized(r) && Served(r)
  {
    var c := |w.results|;
    assert w.dev.heap[w.dev.incoming[0]].bio == w.log[c + 0].bio;
    forall i | 0 <= i < |r.dev.incoming|
      ensures r.dev.incoming[i] in r.dev.heap && r.dev.heap[r.dev.incoming[i]].bio == r.log[c + 1 + i].bio
    {
      assert w.dev.incoming[i + 1] in w.dev.heap && w.dev.heap[w.dev.incoming[i + 1]].bio == w.log[c + (i + 1)].bio;
    }
  }

  lemma HeaderKeeps(w: World)
    requires Enabled(w, Serve) && w.srv.AwaitHeader? && Inv(w)
    ensures Inv(Step(w, Serve))
  {
    HeaderResult(w);
    HeaderServed(w, Step(w, Serve));
    Elsewhere(w, Step(w, Serve));
    DeliverLinked(w.dev);
  }

  lemma ChooseResult(w: World, req: TxReq)
    requires w.srv == GotHeader(req) && req.id < WORD_LIMIT
    ensures Step(w, Serve) == w.(dev := w.dev.(current := req.id), srv := Chosen(req))
  {
    WordRoundTrip(req.id);
  }

  lemma ChooseServed(w: World, req: TxReq)
    requires w.srv == GotHeader(req) && Sized(w) && Served(w)
    ensures var r := w.(dev := w.dev.(current := req.id), srv := Chosen(req)); Sized(r) && Served(r)
  {
  }

  lemma ChooseKeeps(w: World, req: TxReq)
    requires w.srv == GotHeader(req) && Inv(w)
    ensures Inv(Step(w, Serve))
  {
    assert req.id in w.dev.heap && req.id < WORD_LIMIT;
    ChooseResult(w, req);
    ChooseServed(w, req);
    Elsewhere(w, Step(w, Serve));
  }

  /** What is known of the request at hand while its data is to be moved. */
  lemma AtHand(w: World, req: TxReq) returns (bio: Bio)
    requires w.srv == Chosen(req) && Sized(w) && Sound(w.dev, w.mem) && Served(w)
    ensures |w.results| < |w.log| && bio == w.log[|w.results|].bio
    ensures w.dev.current == req.id && req.id in w.dev.heap && w.dev.heap[req.id].bio == bio
    ensures WellFormed(w.mem, bio) && bio.size == req.size && req.size % SECTOR_SIZE == 0
    ensures req.offset == Offset(bio) && (IsWrite(req) <==> bio.dir == WRITE)
    ensures req.offset + req.size <= |w.store| && w.store == Disk(w.base, w.log[..|w.results|])
  {
    bio := w.log[|w.results|].bio;
    FieldsAreTrue(req.id, bio, |w.base|);
  }

  lemma FetchStep(w: World, req: TxReq, bio: Bio)
    requires w.srv == Chosen(req) && IsWrite(req) && forall a :: a in w.dev.incoming ==> a in w.dev.heap
    requires w.dev.current == req.id && req.id in w.dev.heap && w.dev.heap[req.id].bio == bio
    requires WellFormed(w.mem, bio) && bio.dir == WRITE && bio.size == req.size && req.size % SECTOR_SIZE == 0
    ensures Step(w, Serve) == w.(srv := Fetched(req, Gather(w.mem, Segs(bio))))
  {
  }

  lemma FetchResult(w: World, req: TxReq)
    requires w.srv == Chosen(req) && IsWrite(req)
    requires Sized(w) && Held(w) && Sound(w.dev, w.mem) && Served(w)
    ensures |w.results| < |w.log| && w.log[|w.results|].bio.dir == WRITE
    ensures Step(w, Serve) == w.(srv := Fetched(req, w.log[|w.results|].data))
  {
    var bio := AtHand(w, req);
    FetchStep(w, req, bio);
  }

  lemma FetchServed(w: World, req: TxReq)
    requires w.srv == Chosen(req) && Sized(w) && Served(w)
    requires |w.results| < |w.log| && w.log[|w.results|].bio.dir == WRITE
    ensures var r := w.(srv := Fetched(req, w.log[|w.results|].data)); Sized(r) && Served(r)
  {
  }

  lemma FetchKeeps(w: World, req: TxReq)
    requires w.srv == Chosen(req) && IsWrite(req) && Inv(w)
    ensures Inv(Step(w, Serve))
  {
    FetchResult(w, req);
    FetchServed(w, req);
    Elsewhere(w, Step(w, Serve));
  }

  lemma StoreStep(w: World, req: TxReq, data: seq<byte>)
    requires w.srv == Fetched(req, data) && req.offset + |data| <= |w.store|
    ensures Step(w, Serve) == w.(store := Splice(w.store, req.offset, data), srv := Ready(req))
  {
  }

  /** The store after it has taken the next WRITE is the next disk. */
  lemma StoreIsNext(w: World, req: TxReq, data: seq<byte>)
    requires w.srv == Fetched(req, data) && Sized(w) && Served(w)
    ensures |w.results| < |w.log| && req.offset + |data| <= |w.store|
    ensures Splice(w.store, req.offset, data) == Disk(w.base, w.log[..|w.results| + 1])
  {
    FieldsAreTrue(req.id, w.log[|w.results|].bio, |w.base|);
    DiskNext(w.base, w.log, |w.results|);
  }

  lemma StoreResult(w: World, req: TxReq, data: seq<byte>)
    requires w.srv == Fetched(req, data) && Sized(w) && Served(w)
    ensures |w.results| < |w.log|
    ensures Step(w, Serve) == w.(store := Disk(w.base, w.log[..|w.results| + 1]), srv := Ready(req))
  {
    StoreIsNext(w, req, data);
    StoreStep(w, req, data);
  }

  lemma StoreServed(w: World, req: TxReq, data: seq<byte>)
    requires w.srv == Fetched(req, data) && Sized(w) && Served(w) && WellFormed(w.mem, w.log[|w.results|].bio)
    ensures var r := w.(store := Disk(w.base, w.log[..|w.results| + 1]), srv := Ready(req)); Sized(r) && Served(r)
  {
  }

  lemma StoreKeeps(w: World, req: TxReq, data: seq<byte>)
    requires w.srv == Fetched(req, data) && Inv(w)
    ensures Inv(Step(w, Serve))
  {
    StoreResult(w, req, data);
    StoreServed(w, req, data);
    Elsewhere(w, Step(w, Serve));
  }

  /** Sending a READ its data changes the data of no other bio in flight. */
  lemma SendElsewhere(w: World, c: nat, data: seq<byte>, k: nat)
    requires Held(w) && c == |w.results| < |w.log| && w.log[c].bio.dir == READ
    requires |data| == w.log[c].bio.size && c < k < |w.log|
    ensures var m := Scatter(w.mem, Segs(w.log[c].bio), data);
            WellFormed(m, w.log[k].bio)
            && Gather(m, Segs(w.log[k].bio)) == Gather(w.mem, Segs(w.log[k].bio))
  {
    assert Compatible(w.log[c].bio, w.log[k].bio);
    ScatterElsewhere(w.mem, Segs(w.log[c].bio), data, Segs(w.log[k].bio));
  }

  lemma SendHeldAt(w: World, c: nat, data: seq<byte>, m: Memory, k: nat)
    requires Held(w) && c == |w.results| <= k < |w.log| && w.log[c].bio.dir == READ
    requires |data| == w.log[c].bio.size && m == Scatter(w.mem, Segs(w.log[c].bio), data)
    ensures WellFormed(m, w.log[k].bio)
    ensures w.log[k].bio.dir == WRITE ==> Gather(m, Segs(w.log[k].bio)) == w.log[k].data
  {
    if k > c {
      SendElsewhere(w, c, data, k);
    } else {
      WellFormedSame(w.mem, m, w.log[c].bio);
    }
  }

  lemma SendHeld(w: World, data: seq<byte>, m: Memory)
    requires Held(w) && |w.results| < |w.log| && w.log[|w.results|].bio.dir == READ
    requires |data| == w.log[|w.results|].bio.size
    requires m == Scatter(w.mem, Segs(w.log[|w.results|].bio), data)
    ensures Held(w.(mem := m))
  {
    forall k | |w.results| <= k < |w.log|
      ensures WellFormed(m, w.log[k].bio)
      ensures w.log[k].bio.dir == WRITE ==> Gather(m, Segs(w.log[k].bio)) == w.log[k].data
    {
      SendHeldAt(w, |w.results|, data, m, k);
    }
  }

  lemma SendStep(w: World, req: TxReq, bio: Bio)
    requires w.srv == Chosen(req) && !IsWrite(req)
    requires w.dev.current == req.id && req.id in w.dev.heap && w.dev.heap[req.id].bio == bio
    requires WellFormed(w.mem, bio) && bio.dir == READ && bio.size == req.size
    requires req.size % SECTOR_SIZE == 0 && req.offset + req.size <= |w.store|
    ensures Step(w, Serve) == w.(mem := Scatter(w.mem, Segs(bio), w.store[req.offset..req.offset + req.size]),
                                 srv := Ready(req))
  {
  }

  /** What the store holds at the request's offset is the flat disk's answer to it. */
  lemma StoreAnswers(w: World, req: TxReq, bio: Bio)
    requires Sized(w) && |w.results| < |w.log| && bio == w.log[|w.results|].bio && bio.size == req.size
    requires req.offset == Offset(bio) && w.store == Disk(w.base, w.log[..|w.results|])
    ensures req.offset + req.size <= |w.store|
    ensures ReadBack(w.base, w.log, |w.results|) == w.store[req.offset..req.offset + req.size]
  {
  }

  lemma SendResult(w: World, req: TxReq)
    requires w.srv == Chosen(req) && !IsWrite(req)
    requires Sized(w) && Held(w) && Sound(w.dev, w.mem) && Served(w)
    ensures |w.results| < |w.log| && w.log[|w.results|].bio.dir == READ
    ensures |ReadBack(w.base, w.log, |w.results|)| == w.log[|w.results|].bio.size
    ensures var c := |w.results|;
            Step(w, Serve) == w.(mem := Scatter(w.mem, Segs(w.log[c].bio), ReadBack(w.base, w.log, c)),
                                 srv := Ready(req))
  {
    var bio := AtHand(w, req);
    StoreAnswers(w, req, bio);
    SendStep(w, req, bio);
  }

  /** The bio's segments hold what the flat disk holds there. */
  lemma SendFills(w: World, c: nat)
    requires Sized(w) && c < |w.log| && WellFormed(w.mem, w.log[c].bio)
    requires w.log[c].bio.dir == READ && Disjoint(Segs(w.log[c].bio))
    requires |ReadBack(w.base, w.log, c)| == w.log[c].bio.size
    ensures var m := Scatter(w.mem, Segs(w.log[c].bio), ReadBack(w.base, w.log, c));
            && SameShape(w.mem, m) && WellFormed(m, w.log[c].bio)
            && Gather(m, Segs(w.log[c].bio)) == ReadBack(w.base, w.log, c)
  {
    RoundTrip(w.mem, Segs(w.log[c].bio), ReadBack(w.base, w.log, c));
  }

  lemma SendServed(w: World, req: TxReq, m: Memory)
    requires w.srv == Chosen(req) && Sized(w) && Served(w)
    requires |w.results| < |w.log| && w.log[|w.results|].bio.dir == READ
    requires WellFormed(m, w.log[|w.results|].bio)
    requires Gather(m, Segs(w.log[|w.results|].bio)) == ReadBack(w.base, w.log, |w.results|)
    ensures var r := w.(mem := m, srv := Ready(req)); Sized(r) && Served(r)
  {
    DiskNext(w.base, w.log, |w.results|);
  }

  lemma SendKeeps(w: World, req: TxReq)
    requires w.srv == Chosen(req) && !IsWrite(req) && Inv(w)
    ensures Inv(Step(w, Serve))
  {
    SendResult(w, req);
    SendFills(w, |w.results|);
    SendServed(w, req, Step(w, Serve).mem);
    SendHeld(w, ReadBack(w.base, w.log, |w.results|), Step(w, Serve).mem);
    SoundSame(w.dev, w.mem, Step(w, Serve).mem);
  }

  lemma CompleteResult(w: World, req: TxReq)
    requires w.srv == Ready(req) && Working(w, req) && w.dev.current == req.id
    requires WellFormed(w.mem, w.log[|w.results|].bio)
    ensures Step(w, Serve) == w.(dev := Complete(w.dev, true), srv := AwaitHeader,
                                 results := w.results + [Gather(w.mem, Segs(w.log[|w.results|].bio))])
  {
  }

  /** The next bio's turn: nothing is pending, the rest of the queue is as it was. */
  lemma CompleteQueued(w: World, req: TxReq)
    requires Working(w, req) && w.dev.current == req.id && Linked(w.dev)
    ensures var d := Complete(w.dev, true);
            d.pending == [] && Queued(w.(dev := d), |w.results| + 1)
  {
    var d := Complete(w.dev, true);
    assert req.id in w.dev.pending;
    assert d.incoming == w.dev.incoming && d.pending == [];
    assert forall i :: 0 <= i < |d.incoming| ==> d.incoming[i] in w.dev.incoming;
  }

  lemma CompleteServed(w: World, req: TxReq, r: World)
    requires Sized(w) && Working(w, req) && w.store == Disk(w.base, w.log[..|w.results| + 1])
    requires r.dev.pending == [] && r.srv.AwaitHeader? && Queued(w.(dev := r.dev), |w.results| + 1)
    requires r.base == w.base && r.log == w.log && r.store == w.store && |r.results| == |w.results| + 1
    ensures Sized(r) && Served(r)
  {
  }

  lemma FewerHeld(w: World, r: World)
    requires Held(w) && r.mem == w.mem && r.log == w.log && |w.results| <= |r.results| <= |r.log|
    ensures Held(r)
  {
  }

  lemma CompleteCorrect(w: World, r: World)
    requires Sized(w) && Correct(w) && |w.results| < |w.log| && r.base == w.base && r.log == w.log
    requires WellFormed(w.mem, w.log[|w.results|].bio)
    requires w.log[|w.results|].bio.dir == READ ==>
               Gather(w.mem, Segs(w.log[|w.results|].bio)) == ReadBack(w.base, w.log, |w.results|)
    requires r.results == w.results + [Gather(w.mem, Segs(w.log[|w.results|].bio))]
    ensures Sized(r) && Correct(r)
  {
    assert forall k :: 0 <= k < |w.results| ==> r.results[k] == w.results[k];
  }

  lemma CompleteKeeps(w: World, req: TxReq)
    requires w.srv == Ready(req) && Inv(w)
    ensures Inv(Step(w, Serve))
  {
    CompleteResult(w, req);
    CompleteQueued(w, req);
    CompleteSound(w.dev, w.mem, true);
    var r := Step(w, Serve);
    CompleteServed(w, req, r);
    FewerHeld(w, r);
    CompleteCorrect(w, r);
  }

  lemma ServeKeeps(w: World)
    requires Enabled(w, Serve) && Inv(w)
    ensures Inv(Step(w, Serve))
  {
    match w.srv
    case AwaitHeader => HeaderKeeps(w);
    case GotHeader(req) => ChooseKeeps(w, req);
    case Chosen(req) =>
      if IsWrite(req) {
        FetchKeeps(w, req);
      } else {
        SendKeeps(w, req);
      }
    case Fetched(req, data) => StoreKeeps(w, req, data);
    case Ready(req) => CompleteKeeps(w, req);
  }

  function Phase(s: Stage): nat {
    match s
    case AwaitHeader => 0
    case GotHeader(_) => 1
    case Chosen(_) => 2
    case Fetched(_, _) => 3
    case Ready(_) => 4
    case Broken => 5
  }

  predicate Advances(w: World, r: World) {
    Phase(w.srv) < Phase(r.srv) < 5 && r.results == w.results
  }

  lemma FetchAdvances(w: World, req: TxReq)
    requires w.srv == Chosen(req) && IsWrite(req) && Sized(w) && Sound(w.dev, w.mem) && Served(w)
    ensures Advances(w, Step(w, Serve))
  {
    var bio := AtHand(w, req);
    FetchStep(w, req, bio);
  }

  lemma SendAdvances(w: World, req: TxReq)
    requires w.srv == Chosen(req) && !IsWrite(req) && Sized(w) && Sound(w.dev, w.mem) && Served(w)
    ensures Advances(w, Step(w, Serve))
  {
    var bio := AtHand(w, req);
    SendStep(w, req, bio);
  }

  lemma HeaderAdvances(w: World)
    requires Enabled(w, Serve) && w.srv.AwaitHeader? && Sized(w) && Sound(w.dev, w.mem) && Served(w)
    ensures Advances(w, Step(w, Serve))
  {
    HeaderResult(w);
  }

  lemma ChooseAdvances(w: World, req: TxReq)
    requires w.srv == GotHeader(req) && req.id < WORD_LIMIT
    ensures Advances(w, Step(w, Serve))
  {
    ChooseResult(w, req);
  }

  lemma StoreAdvances(w: World, req: TxReq, data: seq<byte>)
    requires w.srv == Fetched(req, data) && Sized(w) && Served(w)
    ensures Advances(w, Step(w, Serve))
  {
    StoreResult(w, req, data);
  }

  /** The server never stalls: at most five of its steps complete a waiting bio. */
  lemma {:induction false} ServeAdvances(w: World)
    requires Enabled(w, Serve) && Inv(w)
    ensures var r := Step(w, Serve);
            if w.srv.Ready? then r.srv.AwaitHeader? && |r.results| == |w.results| + 1
            else Advances(w, r)
  {
    match w.srv
    case AwaitHeader => HeaderAdvances(w);
    case GotHeader(req) => ChooseAdvances(w, req);
    case Chosen(req) =>
      if IsWrite(req) {
        FetchAdvances(w, req);
      } else {
        SendAdvances(w, req);
      }
    case Fetched(req, data) => StoreAdvances(w, req, data);
    case Ready(req) => CompleteResult(w, req);
  }

  lemma StepKeeps(w: World, ev: Event)
    requires Enabled(w, ev) && Inv(w)
    ensures Inv(Step(w, ev))
  {
    match ev
    case Submit(bio, a) => SubmitKeeps(w, bio, a);
    case Refuse(bio) => RefuseKeeps(w, bio);
    case Touch(p, i, v) => TouchKeeps(w, p, i, v);
    case Serve => ServeKeeps(w);
  }

  // ---- Every run -------------------------------------------------------------------------

  ghost predicate Feasible(w: World, run: seq<Event>)
    decreases |run|, 0
  {
    run == [] ||
    (var front := run[..|run| - 1];
     Feasible(w, front) && Enabled(After(w, front), run[|run| - 1]))
  }

  ghost function After(w: World, run: seq<Event>): World
    requires Feasible(w, run)
    decreases |run|, 1
  {
    if run == [] then w
    else Step(After(w, run[..|run| - 1]), run[|run| - 1])
  }

  lemma InvBoot(mem: Memory, base: seq<byte>)
    requires |base| < WORD_LIMIT
    ensures Inv(Boot(mem, base))
  {
  }

  lemma StepKeepsBase(w: World, ev: Event)
    requires Enabled(w, ev)
    ensures Step(w, ev).base == w.base
  {
  }

  lemma {:induction false} InvAlways(mem: Memory, base: seq<byte>, run: seq<Event>)
    requires |base| < WORD_LIMIT && Feasible(Boot(mem, base), run)
    ensures Inv(After(Boot(mem, base), run)) && After(Boot(mem, base), run).base == base
  {
    if run == [] {
      InvBoot(mem, base);
    } else {
      var front := run[..|run| - 1];
      InvAlways(mem, base, front);
      StepKeeps(After(Boot(mem, base), front), run[|run| - 1]);
      StepKeepsBase(After(Boot(mem, base), front), run[|run| - 1]);
    }
  }

  // How many bios were refused, and what became of all of them.

  function Refusals(run: seq<Event>): nat {
    if run == [] then 0 else Refusals(run[..|run| - 1]) + if run[|run| - 1].Refuse? then 1 else 0
  }

  /** Bios submitted and ended are those of the log and of the results, and so many more. */
  predicate Accounted(w: World, refused: nat) {
    w.dev.submitted == |w.log| + refused && |w.dev.ended| == |w.results| + refused
  }

  lemma ServeAccounted(w: World, refused: nat)
    requires Enabled(w, Serve) && Inv(w) && Accounted(w, refused)
    ensures Accounted(Step(w, Serve), refused)
  {
    match w.srv
    case AwaitHeader => HeaderResult(w);
    case GotHeader(req) => ChooseResult(w, req);
    case Chosen(req) =>
      if IsWrite(req) {
        FetchResult(w, req);
      } else {
        SendResult(w, req);
      }
    case Fetched(req, data) => StoreResult(w, req, data);
    case Ready(req) => CompleteResult(w, req);
  }

  lemma StepAccounted(w: World, ev: Event, refused: nat)
    requires Enabled(w, ev) && Inv(w) && Accounted(w, refused)
    ensures Accounted(Step(w, ev), refused + if ev.Refuse? then 1 else 0)
  {
    if ev.Serve? {
      ServeAccounted(w, refused);
    }
  }

  /** In every run each bio submitted has been refused, has been queued and completed, or
      is queued and not yet completed. */
  lemma {:induction false} BiosAreAccounted(mem: Memory, base: seq<byte>, run: seq<Event>)
    requires |base| < WORD_LIMIT && Feasible(Boot(mem, base), run)
    ensures Accounted(After(Boot(mem, base), run), Refusals(run))
  {
    if run != [] {
      var front := run[..|run| - 1];
      BiosAreAccounted(mem, base, front);
      InvAlways(mem, base, front);
      StepAccounted(After(Boot(mem, base), front), run[|run| - 1], Refusals(front));
    }
  }

  lemma ReadsHoldLast(base: seq<byte>, w: World, k: nat)
    requires Sized(w) && Correct(w) && w.base == base && k < |w.results| && w.log[k].bio.dir == READ
    ensures |w.results[k]| == w.log[k].bio.size && Servable(w.log[..k], |base|)
    ensures HoldsLast(base, w.log[..k], Offset(w.log[k].bio), w.results[k])
  {
    ReadBackHoldsLast(base, w.log, k);
  }

  lemma StoreHoldsLast(base: seq<byte>, w: World)
    requires Sized(w) && Served(w) && w.base == base && w.srv.AwaitHeader?
    ensures |w.results| + |w.dev.incoming| == |w.log| && |w.store| == |base|
    ensures HoldsLast(base, w.log[..|w.results|], 0, w.store)
    ensures w.dev.incoming == [] ==> w.log[..|w.results|] == w.log
  {
    DiskHoldsLast(base, w.log[..|w.results|], w.store, 0, w.store);
  }

  /** The service is a disk, in every interleaving of submissions, page writes and
      server steps: the server is never broken; each completed READ's segments
      held, when it ended, at each byte the data of the last WRITE queued before it
      that covers the byte, or what the store began with; and between requests each
      byte of the store is that of the last completed WRITE covering it, so once
      nothing waits, of the last WRITE queued. */
  lemma {:induction false} ServiceIsADisk(mem: Memory, base: seq<byte>, run: seq<Event>)
    requires |base| < WORD_LIMIT && Feasible(Boot(mem, base), run)
    ensures var w := After(Boot(mem, base), run);
            && Servable(w.log, |base|)
            && |w.results| <= |w.log|
            && !w.srv.Broken?
            && (forall k :: 0 <= k < |w.results| && w.log[k].bio.dir == READ ==>
                  && |w.results[k]| == w.log[k].bio.size && Servable(w.log[..k], |base|)
                  && HoldsLast(base, w.log[..k], Offset(w.log[k].bio), w.results[k]))
            && (w.srv.AwaitHeader? ==>
                  && |w.store| == |base| && HoldsLast(base, w.log[..|w.results|], 0, w.store)
                  && (w.dev.incoming == [] ==> |w.results| == |w.log| && HoldsLast(base, w.log, 0, w.store)))
  {
    InvAlways(mem, base, run);
    var w := After(Boot(mem, base), run);
    forall k | 0 <= k < |w.results| && w.log[k].bio.dir == READ
      ensures |w.results[k]| == w.log[k].bio.size && Servable(w.log[..k], |base|)
      ensures HoldsLast(base, w.log[..k], Offset(w.log[k].bio), w.results[k])
    {
      ReadsHoldLast(base, w, k);
    }
    if w.srv.AwaitHeader? {
      StoreHoldsLast(base, w);
    }
  }
}
