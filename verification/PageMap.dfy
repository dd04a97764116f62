/** mmap of the data-current bio: whole pages, one per bio_vec, in order. */
module PageMap {
  import opened Common
  import opened Segments
  import opened CopyLoops
  import opened Words

  /** The page-mapped counterpart of each segment. */
  function WholePages(segs: seq<Seg>): (r: seq<Seg>)
    ensures |r| == |segs|
    ensures forall i :: 0 <= i < |r| ==> r[i] == Seg(segs[i].page, 0, PAGE_SIZE)
  {
    seq(|segs|, i requires 0 <= i < |segs| => Seg(segs[i].page, 0, PAGE_SIZE))
  }

  /** A memory of whole pages. */
  predicate Paged(mem: Memory) {
    forall p :: 0 <= p < |mem| ==> |mem[p]| == PAGE_SIZE
  }

  /** The size of a mapping of n bytes: mmap rounds up to whole pages. */
  function PageAlign(n: nat): nat {
    (n + PAGE_SIZE - 1) / PAGE_SIZE * PAGE_SIZE
  }

  /** The offset of a mapping that starts at page pgoff of the file, as a machine word. */
  function MapOffset(pgoff: nat): nat {
    pgoff * PAGE_SIZE % WORD_LIMIT
  }

  /** Whatever the page, its offset passes the driver's alignment test: that refusal cannot
      happen. */
  lemma OffsetIsAligned(pgoff: nat)
    ensures MapOffset(pgoff) % PAGE_SIZE == 0
  {
    var n, words := pgoff * PAGE_SIZE, pgoff * PAGE_SIZE / WORD_LIMIT;
    assert MapOffset(pgoff) == n - words * WORD_LIMIT == (pgoff - words * (WORD_LIMIT / PAGE_SIZE)) * PAGE_SIZE;
  }

  datatype MapResult = Mapped(frames: seq<nat>) | Refused(errno: Errno)

  /** bdtunch_mmap on a bio with the given bio_vecs, of which those from idx on
      are still to be transferred.  `fails` is the index at which remap_pfn_range
      would fail.  The mapping is a list of page frames. */
  method MapBio(vecs: seq<Seg>, idx: nat, offset: nat, shared: bool, length: nat, fails: nat)
    returns (res: MapResult)
    requires idx <= |vecs|
    ensures offset % PAGE_SIZE != 0 ==> res == Refused(ENXIO)
    ensures offset % PAGE_SIZE == 0 && !shared ==> res == Refused(EINVAL)
    ensures offset % PAGE_SIZE == 0 && shared ==>
              if length != |vecs| * PAGE_SIZE || fails < |vecs| - idx then res == Refused(EIO)
              else res.Mapped? && |res.frames| == |vecs| - idx
                   && forall k :: 0 <= k < |res.frames| ==> res.frames[k] == vecs[idx + k].page
  {
    if offset % PAGE_SIZE != 0 {
      return Refused(ENXIO);
    }
    if !shared {
      return Refused(EINVAL);
    }
    if length != |vecs| * PAGE_SIZE {
      return Refused(EIO);
    }
    var frames: seq<nat> := [];
    var i: nat := idx;
    while i < |vecs|
      invariant idx <= i <= |vecs| && |frames| == i - idx <= fails
      invariant forall k :: 0 <= k < |frames| ==> frames[k] == vecs[idx + k].page
    {
      if i - idx == fails {
        return Refused(EIO);
      }
      frames := frames + [vecs[i].page];
      i := i + 1;
    }
    return Mapped(frames);
  }

  /** Every segment is a whole page, except that the last may stop short. */
  predicate Aligned(segs: seq<Seg>) {
    forall i :: 0 <= i < |segs| ==> segs[i].off == 0 && (i < |segs| - 1 ==> segs[i].len == PAGE_SIZE)
  }

  lemma {:induction false} TotalBound(segs: seq<Seg>)
    requires forall i :: 0 <= i < |segs| ==> segs[i].off + segs[i].len <= PAGE_SIZE
    ensures Total(segs) <= |segs| * PAGE_SIZE
    ensures Total(segs) == |segs| * PAGE_SIZE ==>
              forall i :: 0 <= i < |segs| ==> segs[i].off == 0 && segs[i].len == PAGE_SIZE
  {
    if segs != [] {
      TotalBound(segs[1..]);
      assert forall i :: 0 < i < |segs| ==> segs[i] == segs[1..][i - 1];
    }
  }

  lemma {:induction false} WholeTotal(segs: seq<Seg>)
    ensures Total(WholePages(segs)) == |segs| * PAGE_SIZE
  {
    if segs != [] {
      assert WholePages(segs)[1..] == WholePages(segs[1..]);
      WholeTotal(segs[1..]);
    }
  }

  /** The size check alone forces whole pages: if the bio's size is a multiple of
      the page size, each segment lies in its page, and the length the library
      asks for is accepted, then no bio_vec was consumed before, every segment is
      a whole page, and the mapping shows byte p of the flat buffer at offset p. */
  lemma AcceptedIsWhole(mem: Memory, vecs: seq<Seg>, idx: nat, size: nat)
    requires idx <= |vecs| && size == Total(vecs[idx..]) && size % PAGE_SIZE == 0
    requires forall i :: 0 <= i < |vecs| ==> vecs[i].off + vecs[i].len <= PAGE_SIZE
    requires Paged(mem) && AllFit(mem, vecs)
    requires PageAlign(size) == |vecs| * PAGE_SIZE
    ensures idx == 0
    ensures vecs == WholePages(vecs)
    ensures Gather(mem, WholePages(vecs)) == Gather(mem, vecs[idx..])
    ensures forall p :: 0 <= p < size ==>
              && p / PAGE_SIZE < |vecs|
              && mem[vecs[p / PAGE_SIZE].page][p % PAGE_SIZE] == Gather(mem, vecs[idx..])[p]
  {
    TotalBound(vecs[idx..]);
    assert PageAlign(size) == size;
    assert |vecs[idx..]| == |vecs| - idx;
    assert idx == 0 && vecs[0..] == vecs;
    assert vecs == WholePages(vecs);
    forall p | 0 <= p < size
      ensures p / PAGE_SIZE < |vecs|
      ensures mem[vecs[p / PAGE_SIZE].page][p % PAGE_SIZE] == Gather(mem, vecs[idx..])[p]
    {
      WholeCell(vecs, p);
      GatherAtCell(mem, vecs, p);
    }
  }

  /** In a mapping, offset p is byte p % PAGE_SIZE of frame p / PAGE_SIZE. */
  lemma {:induction false} WholeCell(segs: seq<Seg>, p: nat)
    requires p < |segs| * PAGE_SIZE
    ensures Total(WholePages(segs)) == |segs| * PAGE_SIZE
    ensures Cell(WholePages(segs), p) == (segs[p / PAGE_SIZE].page, p % PAGE_SIZE)
  {
    WholeTotal(segs);
    var whole := WholePages(segs);
    if p >= PAGE_SIZE {
      assert whole[1..] == WholePages(segs[1..]);
      WholeCell(segs[1..], p - PAGE_SIZE);
    }
  }

  /** Filling an accepted mapping with a buffer makes the memory a payload write
      of that buffer makes: any memory that shows the buffer through the mapping
      and differs from before only in mapped pages is the scatter. */
  lemma FillByMapping(mem: Memory, vecs: seq<Seg>, idx: nat, size: nat, data: seq<byte>, filled: Memory)
    requires idx <= |vecs| && size == Total(vecs[idx..]) == |data| && size % PAGE_SIZE == 0
    requires forall i :: 0 <= i < |vecs| ==> vecs[i].off + vecs[i].len <= PAGE_SIZE
    requires Paged(mem) && AllFit(mem, vecs) && PageAlign(size) == |vecs| * PAGE_SIZE
    requires AgreeOutside(WholePages(vecs), mem, filled)
    requires AllFit(filled, WholePages(vecs)) && Gather(filled, WholePages(vecs)) == data
    ensures filled == Scatter(mem, vecs[idx..], data)
  {
    AcceptedIsWhole(mem, vecs, idx, size);
    assert vecs[0..] == vecs;
    ScatterForgets(vecs, mem, filled, data);
    WriteBack(filled, vecs);
  }

  // ---- Sizes that are not a multiple of the page size -----------------------------------

  predicate InPages(segs: seq<Seg>) {
    forall i :: 0 <= i < |segs| ==> segs[i].off + segs[i].len <= PAGE_SIZE
  }

  /** Byte p of the buffer lives where the mapping shows offset p. */
  ghost predicate CellsAgree(segs: seq<Seg>)
    requires Total(segs) <= |segs| * PAGE_SIZE
  {
    forall p: nat :: p < Total(segs) ==> Cell(segs, p) == (segs[p / PAGE_SIZE].page, p % PAGE_SIZE)
  }

  /** The mapping shows the bio's bytes in every memory of the given size. */
  ghost predicate ViewAgrees(segs: seq<Seg>, pages: nat)
    requires Total(segs) <= |segs| * PAGE_SIZE
    requires forall i :: 0 <= i < |segs| ==> segs[i].page < pages && segs[i].off + segs[i].len <= PAGE_SIZE
  {
    forall mem: Memory, p: nat :: |mem| == pages && Paged(mem) && p < Total(segs) ==>
      mem[segs[p / PAGE_SIZE].page][p % PAGE_SIZE] == Gather(mem, segs)[p]
  }

  lemma {:induction false} AlignedCells(segs: seq<Seg>)
    requires Aligned(segs) && InPages(segs) && Total(segs) <= |segs| * PAGE_SIZE
    ensures CellsAgree(segs)
  {
    if segs != [] {
      var rest := segs[1..];
      assert forall i :: 0 <= i < |rest| ==> rest[i] == segs[i + 1];
      TotalBound(rest);
      AlignedCells(rest);
      forall p: nat | p < Total(segs)
        ensures Cell(segs, p) == (segs[p / PAGE_SIZE].page, p % PAGE_SIZE)
      {
        if p >= segs[0].len {
          assert rest != [] && segs[0].len == PAGE_SIZE;
          assert Cell(rest, p - PAGE_SIZE) == (rest[(p - PAGE_SIZE) / PAGE_SIZE].page, (p - PAGE_SIZE) % PAGE_SIZE);
        }
      }
    }
  }

  /** When no page is to spare, agreement of the cells forces alignment. */
  lemma {:induction false} AgreeingCellsAlign(segs: seq<Seg>)
    requires InPages(segs) && Total(segs) <= |segs| * PAGE_SIZE < Total(segs) + PAGE_SIZE
    requires CellsAgree(segs)
    ensures Aligned(segs)
  {
    if segs != [] {
      var rest := segs[1..];
      assert forall i :: 0 <= i < |rest| ==> rest[i] == segs[i + 1];
      TotalBound(rest);
      assert segs[0].len > 0;
      assert Cell(segs, 0) == (segs[0].page, segs[0].off);
      if rest != [] {
        var more := rest[1..];
        assert forall i :: 0 <= i < |more| ==> more[i] == rest[i + 1];
        TotalBound(more);
        assert rest[0].len > 0;
        assert Cell(segs, segs[0].len) == Cell(rest, 0) == (rest[0].page, rest[0].off);
        assert segs[0].len == PAGE_SIZE;
        forall p: nat | p < Total(rest)
          ensures Cell(rest, p) == (rest[p / PAGE_SIZE].page, p % PAGE_SIZE)
        {
          assert Cell(segs, p + PAGE_SIZE) == Cell(rest, p);
          assert (p + PAGE_SIZE) / PAGE_SIZE == p / PAGE_SIZE + 1;
        }
        AgreeingCellsAlign(rest);
      }
    }
  }

  /** A memory of zero pages with one byte set. */
  function Marked(pages: nat, page: nat, at: nat): (mem: Memory)
    ensures |mem| == pages && Paged(mem)
    ensures forall q, i :: 0 <= q < pages && 0 <= i < PAGE_SIZE ==>
              mem[q][i] == if q == page && i == at then 1 else 0
  {
    seq(pages, q => seq(PAGE_SIZE, i => if q == page && i == at then 1 else 0))
  }

  // Where each segment must lie.

  /** Every byte of the buffer lies in some segment. */
  lemma {:induction false} Locate(segs: seq<Seg>, p: nat) returns (i: nat)
    requires p < Total(segs)
    ensures i < |segs| && Start(segs, i) <= p < Start(segs, i) + segs[i].len
    ensures Cell(segs, p) == (segs[i].page, segs[i].off + (p - Start(segs, i)))
  {
    if p < segs[0].len {
      i := 0;
    } else {
      i := Locate(segs[1..], p - segs[0].len);
      i := i + 1;
      StartShift(segs, i);
    }
  }

  /** Segment i's bytes are the cells from its start on. */
  lemma {:induction false} CellInSegment(segs: seq<Seg>, i: nat, q: nat)
    requires i < |segs| && q < segs[i].len
    ensures Start(segs, i) + q < Total(segs)
    ensures Cell(segs, Start(segs, i) + q) == (segs[i].page, segs[i].off + q)
    decreases i
  {
    StartBound(segs, i);
    if i > 0 {
      StartShift(segs, i);
      CellInSegment(segs[1..], i - 1, q);
    }
  }

  /** Every segment that holds data lies, in the page mapped there, where its bytes
      start in the buffer. */
  predicate Placed(segs: seq<Seg>)
    requires Total(segs) <= |segs| * PAGE_SIZE
  {
    forall i :: 0 <= i < |segs| && segs[i].len > 0 ==> PlacedAt(segs, i)
  }

  predicate PlacedAt(segs: seq<Seg>, i: nat)
    requires i < |segs|
  {
    var start := Start(segs, i);
    start / PAGE_SIZE < |segs| && segs[i].page == segs[start / PAGE_SIZE].page && segs[i].off == start % PAGE_SIZE
  }

  lemma WithinPage(start: nat, off: nat, q: nat)
    requires off == start % PAGE_SIZE && off + q < PAGE_SIZE
    ensures (start + q) / PAGE_SIZE == start / PAGE_SIZE && (start + q) % PAGE_SIZE == off + q
  {
  }

  /** A placed segment's bytes are where the mapping shows them. */
  lemma PlacedByte(segs: seq<Seg>, i: nat, p: nat, c: (nat, nat))
    requires i < |segs| && segs[i].off + segs[i].len <= PAGE_SIZE && PlacedAt(segs, i)
    requires Start(segs, i) <= p < Start(segs, i) + segs[i].len
    requires c == (segs[i].page, segs[i].off + (p - Start(segs, i)))
    ensures p / PAGE_SIZE < |segs| && c == (segs[p / PAGE_SIZE].page, p % PAGE_SIZE)
  {
    var start := Start(segs, i);
    WithinPage(start, segs[i].off, p - start);
    assert start + (p - start) == p;
  }

  lemma PlacedCell(segs: seq<Seg>, p: nat) returns (n: nat)
    requires InPages(segs) && Total(segs) <= |segs| * PAGE_SIZE && Placed(segs) && p < Total(segs)
    ensures n == p / PAGE_SIZE && n < |segs| && Cell(segs, p) == (segs[n].page, p % PAGE_SIZE)
  {
    var i := Locate(segs, p);
    n := p / PAGE_SIZE;
    PlacedByte(segs, i, p, Cell(segs, p));
  }

  lemma PlacedCells(segs: seq<Seg>)
    requires InPages(segs) && Total(segs) <= |segs| * PAGE_SIZE && Placed(segs)
    ensures CellsAgree(segs)
  {
    forall p: nat | p < Total(segs) ensures Cell(segs, p) == (segs[p / PAGE_SIZE].page, p % PAGE_SIZE) {
      var n := PlacedCell(segs, p);
    }
  }

  lemma AgreeingCellsPlace(segs: seq<Seg>)
    requires InPages(segs) && Total(segs) <= |segs| * PAGE_SIZE && CellsAgree(segs)
    ensures Placed(segs)
  {
    forall i | 0 <= i < |segs| && segs[i].len > 0 ensures PlacedAt(segs, i) {
      CellInSegment(segs, i, 0);
      assert Cell(segs, Start(segs, i)) == (segs[i].page, segs[i].off);
    }
  }

  /** The mapping shows the bio's bytes in every memory just when every byte lies where
      the mapping shows it. */
  lemma ViewIsCells(segs: seq<Seg>, pages: nat)
    requires Total(segs) <= |segs| * PAGE_SIZE && InPages(segs)
    requires forall i :: 0 <= i < |segs| ==> segs[i].page < pages
    ensures ViewAgrees(segs, pages) <==> CellsAgree(segs)
  {
    if CellsAgree(segs) {
      forall mem: Memory, p: nat | |mem| == pages && Paged(mem) && p < Total(segs)
        ensures mem[segs[p / PAGE_SIZE].page][p % PAGE_SIZE] == Gather(mem, segs)[p]
      {
        GatherAtCell(mem, segs, p);
      }
    }
    if ViewAgrees(segs, pages) {
      forall p: nat | p < Total(segs)
        ensures Cell(segs, p) == (segs[p / PAGE_SIZE].page, p % PAGE_SIZE)
      {
        var mem := Marked(pages, segs[p / PAGE_SIZE].page, p % PAGE_SIZE);
        GatherAtCell(mem, segs, p);
        assert mem[segs[p / PAGE_SIZE].page][p % PAGE_SIZE] == 1;
      }
    }
  }

  /** What the driver accepts, whatever was consumed before: a page for each bio_vec. */
  predicate Accepted(vecs: seq<Seg>, idx: nat, length: nat) {
    idx <= |vecs| && length == |vecs| * PAGE_SIZE
  }

  /** Of every mapping the driver accepts: it shows the bytes still to be transferred
      in every memory if and only if every remaining segment that holds data lies in
      the page mapped at its start, at its start's offset. */
  lemma MappingIsFaithfulIff(vecs: seq<Seg>, idx: nat, length: nat, pages: nat)
    requires Accepted(vecs, idx, length)
    requires forall i :: 0 <= i < |vecs| ==> vecs[i].page < pages && vecs[i].off + vecs[i].len <= PAGE_SIZE
    ensures Total(vecs[idx..]) <= |vecs[idx..]| * PAGE_SIZE <= length
    ensures ViewAgrees(vecs[idx..], pages) <==> Placed(vecs[idx..])
  {
    var segs := vecs[idx..];
    TotalBound(segs);
    ViewIsCells(segs, pages);
    if Placed(segs) {
      PlacedCells(segs);
    } else if CellsAgree(segs) {
      AgreeingCellsPlace(segs);
    }
  }

  /** At the length the library asks for, which is the bio's size in whole pages, that
      is: every segment starts its page, and all but the last fill theirs. */
  lemma RoundedMappingIsFaithfulIff(segs: seq<Seg>, pages: nat)
    requires forall i :: 0 <= i < |segs| ==> segs[i].page < pages && segs[i].off + segs[i].len <= PAGE_SIZE
    requires PageAlign(Total(segs)) == |segs| * PAGE_SIZE
    ensures Total(segs) <= |segs| * PAGE_SIZE
    ensures ViewAgrees(segs, pages) <==> Aligned(segs)
  {
    TotalBound(segs);
    ViewIsCells(segs, pages);
    if Aligned(segs) {
      AlignedCells(segs);
    } else if CellsAgree(segs) {
      AgreeingCellsAlign(segs);
    }
  }

  /** One sector in the middle of a page: the library's length is accepted and the
      mapping shows the wrong bytes. */
  lemma AcceptedButUnfaithful()
    ensures var vecs := [Seg(0, 512, 512)];
            && Accepted(vecs, 0, PageAlign(Total(vecs)))
            && Total(vecs) <= |vecs| * PAGE_SIZE && !ViewAgrees(vecs, 1)
  {
    var vecs := [Seg(0, 512, 512)];
    assert Total(vecs) == 512;
    RoundedMappingIsFaithfulIff(vecs, 1);
    assert !Aligned(vecs);
  }

  /** Two halves of two pages: a mapping of both pages is accepted and shows the
      second half nowhere in the bio's size. */
  lemma HalfPagesUnfaithful()
    ensures var vecs := [Seg(0, 0, 2048), Seg(1, 0, 2048)];
            && Accepted(vecs, 0, 2 * PAGE_SIZE)
            && Total(vecs) <= |vecs| * PAGE_SIZE && !ViewAgrees(vecs, 2)
  {
    var vecs := [Seg(0, 0, 2048), Seg(1, 0, 2048)];
    MappingIsFaithfulIff(vecs, 0, 2 * PAGE_SIZE, 2);
    assert vecs[0..] == vecs;
    assert Start(vecs, 1) == Start(vecs, 0) + 2048 == 2048;
    assert !PlacedAt(vecs, 1);
  }
}
