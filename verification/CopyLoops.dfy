/** The driver's copy loops, on real pages and a real user buffer.  The user
    buffer may stop being accessible part way: its first `limit` bytes are good,
    and a copy that reaches past them faults. */
module CopyLoops {
  import opened Common
  import opened Segments

  /** No two page numbers share an array. */
  predicate Separate(pages: seq<array<byte>>) {
    forall i, j :: 0 <= i < j < |pages| ==> pages[i] != pages[j]
  }

  function View(pages: seq<array<byte>>): (m: Memory)
    reads pages
    ensures |m| == |pages| && forall i :: 0 <= i < |m| ==> m[i] == pages[i][..]
  {
    seq(|pages|, i requires 0 <= i < |pages| reads pages => pages[i][..])
  }

  /** Bytes a user copy of len bytes at pos leaves uncopied. */
  function Uncopied(pos: nat, len: nat, limit: nat): (left: nat)
    ensures left <= len
  {
    if pos + len <= limit then 0 else if limit <= pos then len else pos + len - limit
  }

  /** What a user copy may report: everything accessible was copied if all was, and
      otherwise it stopped somewhere at or before the first inaccessible byte. */
  predicate MayLeave(pos: nat, len: nat, limit: nat, left: nat) {
    Uncopied(pos, len, limit) <= left <= len && (Uncopied(pos, len, limit) == 0 ==> left == 0)
  }

  /** How far a user copy gets. */
  method Reach(pos: nat, len: nat, limit: nat) returns (n: nat)
    ensures n <= len && MayLeave(pos, len, limit, len - n)
  {
    n := len - Uncopied(pos, len, limit);
    if n < len {
      n :| 0 <= n <= len - Uncopied(pos, len, limit);
    }
  }

  /** copy_to_user */
  method CopyToUser(buf: array<byte>, pos: nat, page: array<byte>, off: nat, len: nat, limit: nat)
    returns (left: nat)
    requires buf != page && pos + len <= buf.Length && off + len <= page.Length
    modifies buf
    ensures MayLeave(pos, len, limit, left)
    ensures forall k :: pos <= k < pos + len - left ==> buf[k] == page[off + (k - pos)]
    ensures forall k :: 0 <= k < buf.Length && !(pos <= k < pos + len - left) ==> buf[k] == old(buf[k])
  {
    var reach := Reach(pos, len, limit);
    var n: nat := 0;
    while n < reach
      invariant n <= reach
      invariant forall k :: pos <= k < pos + n ==> buf[k] == page[off + (k - pos)]
      invariant forall k :: 0 <= k < buf.Length && !(pos <= k < pos + n) ==> buf[k] == old(buf[k])
    {
      buf[pos + n] := page[off + n];
      n := n + 1;
    }
    left := len - n;
  }

  /** copy_from_user; what a fault leaves in the rest of the destination is not
      specified. */
  method CopyFromUser(page: array<byte>, off: nat, buf: array<byte>, pos: nat, len: nat, limit: nat)
    returns (left: nat)
    requires buf != page && pos + len <= buf.Length && off + len <= page.Length
    modifies page
    ensures MayLeave(pos, len, limit, left)
    ensures forall k :: off <= k < off + len - left ==> page[k] == buf[pos + (k - off)]
    ensures forall k :: 0 <= k < page.Length && !(off <= k < off + len) ==> page[k] == old(page[k])
  {
    var reach := Reach(pos, len, limit);
    var n: nat := 0;
    while n < reach
      invariant n <= reach
      invariant forall k :: off <= k < off + n ==> page[k] == buf[pos + (k - off)]
      invariant forall k :: 0 <= k < page.Length && !(off <= k < off + n) ==> page[k] == old(page[k])
    {
      page[off + n] := buf[pos + n];
      n := n + 1;
    }
    left := len - n;
    while n < len
      invariant reach <= n <= len
      invariant forall k :: off <= k < off + reach ==> page[k] == buf[pos + (k - off)]
      invariant forall k :: 0 <= k < page.Length && !(off <= k < off + len) ==> page[k] == old(page[k])
    {
      var junk: byte := *;
      page[off + n] := junk;
      n := n + 1;
    }
  }

  /** One round of the payload read loop: map the page, copy, unmap. */
  method DrainSegment(pages: seq<array<byte>>, segs: seq<Seg>, i: nat, buf: array<byte>, limit: nat)
    returns (left: nat)
    requires AllFit(View(pages), segs) && i < |segs| && Start(segs, i) + segs[i].len <= buf.Length
    requires buf !in pages
    modifies buf
    ensures MayLeave(Start(segs, i), segs[i].len, limit, left)
    ensures Start(segs, i) + segs[i].len <= Total(segs)
    ensures forall k :: Start(segs, i) <= k < Start(segs, i) + segs[i].len - left ==>
              buf[k] == Gather(old(View(pages)), segs)[k]
    ensures forall k :: 0 <= k < buf.Length && !(Start(segs, i) <= k < Start(segs, i) + segs[i].len - left) ==>
              buf[k] == old(buf[k])
  {
    var sg, pos := segs[i], Start(segs, i);
    Piece(View(pages), segs, i);
    left := CopyToUser(buf, pos, pages[sg.page], sg.off, sg.len, limit);
  }

  /** The loop of a payload read: bio data out to the user buffer.  It succeeds
      exactly when the whole transfer is accessible; otherwise the first `got` bytes
      have been transferred and nothing else, which covers at least the segments
      that are accessible throughout. */
  method TransferOut(pages: seq<array<byte>>, segs: seq<Seg>, buf: array<byte>, limit: nat)
    returns (res: Result<nat>, ghost got: nat)
    requires AllFit(View(pages), segs) && buf !in pages && Total(segs) <= buf.Length
    modifies buf
    ensures res == if Total(segs) <= limit then Ok(Total(segs)) else Err(EIO)
    ensures res.Ok? ==> got == Total(segs)
    ensures res.Err? ==>
              got <= limit && forall i :: 0 <= i <= |segs| && Start(segs, i) <= limit ==> Start(segs, i) <= got
    ensures got <= Total(segs) && forall k :: 0 <= k < got ==> buf[k] == Gather(old(View(pages)), segs)[k]
    ensures forall k :: got <= k < buf.Length ==> buf[k] == old(buf[k])
  {
    var pos: nat, i: nat := 0, 0;
    ghost var mem := View(pages);
    ghost var out := Gather(mem, segs);
    EndIsTotal(segs);
    while i < |segs|
      invariant i <= |segs| && View(pages) == mem
      invariant pos == Start(segs, i) && (pos > 0 ==> pos <= limit)
      invariant pos <= |out|
      invariant forall k :: 0 <= k < pos ==> buf[k] == out[k]
      invariant forall k :: pos <= k < buf.Length ==> buf[k] == old(buf[k])
    {
      StartBound(segs, i);
      var left := DrainSegment(pages, segs, i, buf, limit);
      if left != 0 {
        StartsWithin(segs, i, limit);
        return Err(EIO), pos + segs[i].len - left;
      }
      pos := pos + segs[i].len;
      i := i + 1;
    }
    return Ok(pos), pos;
  }

  /** Where segment i's bytes start in the flat buffer. */
  function Start(segs: seq<Seg>, i: nat): nat
    requires i <= |segs|
  {
    if i == 0 then 0 else Start(segs, i - 1) + segs[i - 1].len
  }

  lemma {:induction false} StartGrows(segs: seq<Seg>, i: nat, j: nat)
    requires i <= j <= |segs|
    ensures Start(segs, i) <= Start(segs, j)
  {
    if i < j {
      StartGrows(segs, i, j - 1);
    }
  }

  /** The segments that end within the limit are those before the first that does not. */
  lemma StartsWithin(segs: seq<Seg>, i: nat, limit: nat)
    requires i < |segs| && limit < Start(segs, i) + segs[i].len
    ensures forall j :: 0 <= j <= |segs| && Start(segs, j) <= limit ==> Start(segs, j) <= Start(segs, i)
  {
    forall j | 0 <= j <= |segs| && Start(segs, j) <= limit ensures Start(segs, j) <= Start(segs, i) {
      if j <= i {
        StartGrows(segs, j, i);
      } else {
        StartGrows(segs, i + 1, j);
      }
    }
  }

  lemma {:induction false} StartShift(segs: seq<Seg>, i: nat)
    requires 0 < i <= |segs|
    ensures Start(segs, i) == segs[0].len + Start(segs[1..], i - 1)
  {
    if i > 1 {
      StartShift(segs, i - 1);
    }
  }

  lemma {:induction false} EndIsTotal(segs: seq<Seg>)
    ensures Start(segs, |segs|) == Total(segs)
  {
    if segs != [] {
      StartShift(segs, |segs|);
      EndIsTotal(segs[1..]);
    }
  }

  lemma {:induction false} StartBound(segs: seq<Seg>, i: nat)
    requires i < |segs|
    ensures Start(segs, i) + segs[i].len <= Total(segs)
    decreases i
  {
    if i > 0 {
      StartShift(segs, i);
      StartBound(segs[1..], i - 1);
    }
  }

  /** Segment i stands for the bytes of the buffer from its start on. */
  lemma {:induction false} Piece(mem: Memory, segs: seq<Seg>, i: nat)
    requires AllFit(mem, segs) && i < |segs|
    ensures Start(segs, i) + segs[i].len <= Total(segs)
    ensures forall q :: Start(segs, i) <= q < Start(segs, i) + segs[i].len ==>
              Gather(mem, segs)[q] == mem[segs[i].page][segs[i].off + (q - Start(segs, i))]
    decreases i
  {
    if i > 0 {
      Piece(mem, segs[1..], i - 1);
      StartShift(segs, i);
      var len, at := segs[0].len, Start(segs[1..], i - 1);
      forall q | Start(segs, i) <= q < Start(segs, i) + segs[i].len
        ensures Gather(mem, segs)[q] == mem[segs[i].page][segs[i].off + (q - Start(segs, i))]
      {
        assert Gather(mem, segs)[q] == Gather(mem, segs[1..])[q - len];
      }
    }
  }

  /** The memory after the first i segments have been filled from the buffer. */
  function Filled(mem: Memory, segs: seq<Seg>, data: seq<byte>, i: nat): (r: Memory)
    requires AllFit(mem, segs) && i <= |segs| && Start(segs, i) <= |data|
    ensures SameShape(mem, r)
  {
    if i == 0 then mem
    else Put(Filled(mem, segs, data, i - 1), segs[i - 1], data[Start(segs, i - 1)..Start(segs, i)])
  }

  lemma {:induction false} FilledShift(mem: Memory, segs: seq<Seg>, data: seq<byte>, i: nat)
    requires AllFit(mem, segs) && 0 < i <= |segs| && Start(segs, i) <= |data|
    ensures segs[0].len <= |data| && Start(segs[1..], i - 1) <= |data| - segs[0].len
    ensures Filled(mem, segs, data, i)
            == Filled(Put(mem, segs[0], data[..segs[0].len]), segs[1..], data[segs[0].len..], i - 1)
  {
    StartShift(segs, i);
    if i > 1 {
      FilledShift(mem, segs, data, i - 1);
      StartShift(segs, i - 1);
      var len, at := segs[0].len, Start(segs[1..], i - 2);
      assert data[len..][at..at + segs[i - 1].len] == data[len + at..len + at + segs[i - 1].len];
    }
  }

  /** Filling every segment is a scatter. */
  lemma {:induction false} FilledIsScatter(mem: Memory, segs: seq<Seg>, data: seq<byte>)
    requires AllFit(mem, segs) && |data| == Total(segs) == Start(segs, |segs|)
    ensures Filled(mem, segs, data, |segs|) == Scatter(mem, segs, data)
    decreases |segs|
  {
    if segs != [] {
      FilledShift(mem, segs, data, |segs|);
      StartShift(segs, |segs|);
      var len := segs[0].len;
      FilledIsScatter(Put(mem, segs[0], data[..len]), segs[1..], data[len..]);
    }
  }

  /** A segment filled up to where the copy got, with anything after that. */
  ghost predicate Partly(pages: seq<array<byte>>, mem: Memory, segs: seq<Seg>, i: nat, data: seq<byte>, limit: nat,
                         left: nat, tail: seq<byte>)
    reads pages
    requires AllFit(mem, segs) && i < |segs| && Start(segs, i) + segs[i].len <= |data|
  {
    var end := Start(segs, i) + segs[i].len;
    && MayLeave(Start(segs, i), segs[i].len, limit, left) && |tail| == left
    && View(pages) == Put(Filled(mem, segs, data, i), segs[i], data[Start(segs, i)..end - left] + tail)
  }

  /** One round of the payload write loop: map the page, copy, unmap. */
  method FillSegment(pages: seq<array<byte>>, segs: seq<Seg>, i: nat, buf: array<byte>, limit: nat,
                     ghost mem: Memory)
    returns (left: nat, ghost tail: seq<byte>)
    requires AllFit(mem, segs) && i < |segs| && Start(segs, i) + segs[i].len <= buf.Length
    requires Separate(pages) && buf !in pages && View(pages) == Filled(mem, segs, buf[..], i)
    modifies pages
    ensures Partly(pages, mem, segs, i, buf[..], limit, left, tail)
  {
    var sg, pos := segs[i], Start(segs, i);
    ghost var now := View(pages);
    assert Fits(now, sg);
    left := CopyFromUser(pages[sg.page], sg.off, buf, pos, sg.len, limit);
    tail := pages[sg.page][sg.off..sg.off + sg.len][sg.len - left..];
    OnePage(pages, now, sg, buf[..], pos, sg.len - left);
  }

  /** With nothing left uncopied the segment is filled. */
  lemma WhollyFilled(pages: seq<array<byte>>, mem: Memory, segs: seq<Seg>, i: nat, data: seq<byte>, limit: nat)
    requires AllFit(mem, segs) && i < |segs| && Start(segs, i) + segs[i].len <= |data|
    requires Partly(pages, mem, segs, i, data, limit, 0, [])
    ensures View(pages) == Filled(mem, segs, data, i + 1)
  {
    var piece := data[Start(segs, i)..Start(segs, i) + segs[i].len];
    assert piece + [] == piece;
  }

  /** The segment loop of a payload write.  It stops after the first segment it
      could not fill, and then `hit` is that segment. */
  method FillSegments(pages: seq<array<byte>>, segs: seq<Seg>, buf: array<byte>, limit: nat)
    returns (left: nat, ghost hit: nat, ghost tail: seq<byte>)
    requires AllFit(View(pages), segs) && Separate(pages) && buf !in pages && Total(segs) <= buf.Length
    modifies pages
    ensures Start(segs, |segs|) == Total(segs)
    ensures left == 0 ==>
              && (Total(segs) > 0 ==> Total(segs) <= limit)
              && View(pages) == Filled(old(View(pages)), segs, buf[..], |segs|)
    ensures left != 0 ==>
              && hit < |segs| && Start(segs, hit) <= limit && Start(segs, hit) + segs[hit].len <= Total(segs)
              && Partly(pages, old(View(pages)), segs, hit, buf[..], limit, left, tail)
  {
    ghost var mem := View(pages);
    var pos: nat, i: nat := 0, 0;
    left, hit, tail := 0, 0, [];
    EndIsTotal(segs);
    while i < |segs|
      invariant i <= |segs| && pos == Start(segs, i) <= Total(segs) && (pos > 0 ==> pos <= limit)
      invariant left == 0 && View(pages) == Filled(mem, segs, buf[..], i)
    {
      StartBound(segs, i);
      left, tail := FillSegment(pages, segs, i, buf, limit, mem);
      if left != 0 {
        hit := i;
        return;
      }
      WhollyFilled(pages, mem, segs, i, buf[..], limit);
      pos := pos + segs[i].len;
      i := i + 1;
    }
  }

  /** What a faulted write of the data has made of a memory: the segments before the
      one it hit are filled, that one up to at most the fault, and the rest of it is
      `tail`. */
  ghost predicate Faulted(mem: Memory, segs: seq<Seg>, data: seq<byte>, limit: nat, hit: nat, tail: seq<byte>,
                          after: Memory)
    requires AllFit(mem, segs)
  {
    && hit < |segs| && Start(segs, hit) <= limit < Start(segs, hit) + segs[hit].len <= |data|
    && var end := Start(segs, hit) + segs[hit].len;
       && end - limit <= |tail| <= segs[hit].len
       && after == Put(Filled(mem, segs, data, hit), segs[hit], data[Start(segs, hit)..end - |tail|] + tail)
  }

  /** A payload write: the user buffer into the bio's data.  A full copy is a
      scatter; otherwise it has faulted, and no later segment is touched. */
  method TransferIn(pages: seq<array<byte>>, segs: seq<Seg>, buf: array<byte>, limit: nat)
    returns (res: Result<nat>, ghost hit: nat, ghost tail: seq<byte>)
    requires AllFit(View(pages), segs) && Separate(pages) && buf !in pages && Total(segs) == buf.Length
    modifies pages
    ensures res == if Total(segs) <= limit then Ok(Total(segs)) else Err(EIO)
    ensures res.Ok? ==> View(pages) == Scatter(old(View(pages)), segs, buf[..])
    ensures res.Err? ==> Faulted(old(View(pages)), segs, buf[..], limit, hit, tail, View(pages))
  {
    ghost var mem := View(pages);
    var left;
    left, hit, tail := FillSegments(pages, segs, buf, limit);
    if left != 0 {
      res := Err(EIO);
    } else {
      FilledIsScatter(mem, segs, buf[..]);
      res := Ok(Total(segs));
    }
  }

  /** Copying n bytes from pos into a segment, with anything after them, is a Put
      on the view. */
  lemma OnePage(pages: seq<array<byte>>, now: Memory, sg: Seg, data: seq<byte>, pos: nat, n: nat)
    requires |now| == |pages| && Fits(now, sg) && pos + sg.len <= |data| && n <= sg.len
    requires forall p :: 0 <= p < |pages| && p != sg.page ==> pages[p][..] == now[p]
    requires pages[sg.page].Length == |now[sg.page]|
    requires forall k :: sg.off <= k < sg.off + n ==> pages[sg.page][k] == data[pos + (k - sg.off)]
    requires forall k :: 0 <= k < pages[sg.page].Length && !(sg.off <= k < sg.off + sg.len) ==>
               pages[sg.page][k] == now[sg.page][k]
    ensures var got := pages[sg.page][sg.off..sg.off + sg.len];
            && View(pages) == Put(now, sg, got)
            && got == data[pos..pos + n] + got[n..]
  {
    var page := pages[sg.page];
    var got := page[sg.off..sg.off + sg.len];
    assert page[..] == now[sg.page][..sg.off] + got + now[sg.page][sg.off + sg.len..];
    forall k | 0 <= k < n ensures got[k] == data[pos..pos + n][k] {
      assert got[k] == page[sg.off + k];
    }
  }

  // ---- Trying again after a fault ----------------------------------------------------

  lemma {:induction false} PutAgrees(segs: seq<Seg>, m: Memory, n: Memory, k: nat, piece: seq<byte>)
    requires k < |segs| && Fits(n, segs[k]) && |piece| == segs[k].len && AgreeOutside(segs, m, n)
    ensures AgreeOutside(segs, m, Put(n, segs[k], piece))
  {
    var r := Put(n, segs[k], piece);
    forall p, i | 0 <= p < |m| && 0 <= i < |m[p]| && !Covered(segs, p, i) ensures m[p][i] == r[p][i] {
      PutAt(n, segs[k], piece, p, i);
      assert !In(segs[k], p, i);
    }
  }

  lemma {:induction false} FilledAgrees(mem: Memory, segs: seq<Seg>, data: seq<byte>, i: nat)
    requires AllFit(mem, segs) && i <= |segs| && Start(segs, i) <= |data|
    ensures AgreeOutside(segs, mem, Filled(mem, segs, data, i))
  {
    if i > 0 {
      FilledAgrees(mem, segs, data, i - 1);
      PutAgrees(segs, mem, Filled(mem, segs, data, i - 1), i - 1, data[Start(segs, i - 1)..Start(segs, i)]);
    }
  }

  /** A transfer that faulted at any byte of any segment, with anything left in
      the rest of that segment, touched nothing outside the bio's data, and a
      later full transfer makes the same memory as if it had been the first. */
  lemma {:induction false} RetryAfterFault(mem: Memory, segs: seq<Seg>, data: seq<byte>, limit: nat,
                                           hit: nat, tail: seq<byte>, left: Memory, again: seq<byte>)
    requires AllFit(mem, segs) && Faulted(mem, segs, data, limit, hit, tail, left) && |again| == Total(segs)
    ensures AgreeOutside(segs, mem, left)
    ensures Scatter(left, segs, again) == Scatter(mem, segs, again)
  {
    FilledAgrees(mem, segs, data, hit);
    var piece := data[Start(segs, hit)..Start(segs, hit) + segs[hit].len - |tail|] + tail;
    PutAgrees(segs, mem, Filled(mem, segs, data, hit), hit, piece);
    ScatterForgets(segs, mem, left, again);
  }
}
