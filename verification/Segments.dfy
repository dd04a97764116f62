/** Scatter and gather: a bio's data lies in segments of pages, a client's in one
    flat buffer.  The two functions below follow the driver's copy loops; `Cell`
    says independently where byte p of the buffer lives. */
module Segments {
  type byte = x: int | 0 <= x < 256

  const PAGE_SIZE: nat := 4096

  /** A bio_vec. */
  datatype Seg = Seg(page: nat, off: nat, len: nat)

  /** The contents of every page a bio may refer to. */
  type Memory = seq<seq<byte>>

  predicate Fits(shape: Memory, sg: Seg) {
    sg.page < |shape| && sg.off + sg.len <= |shape[sg.page]|
  }

  predicate AllFit(shape: Memory, segs: seq<Seg>) {
    forall i :: 0 <= i < |segs| ==> Fits(shape, segs[i])
  }

  /** Two memories with the same pages of the same sizes. */
  predicate SameShape(m: Memory, n: Memory) {
    |m| == |n| && forall p :: 0 <= p < |m| ==> |m[p]| == |n[p]|
  }

  function Total(segs: seq<Seg>): nat {
    if segs == [] then 0 else segs[0].len + Total(segs[1..])
  }

  /** Page byte (p, i) lies inside a segment. */
  predicate In(sg: Seg, p: nat, i: nat) {
    sg.page == p && sg.off <= i < sg.off + sg.len
  }

  predicate Covered(segs: seq<Seg>, p: nat, i: nat) {
    exists k :: 0 <= k < |segs| && In(segs[k], p, i)
  }

  predicate Apart(s: Seg, r: Seg) {
    s.page != r.page || s.off + s.len <= r.off || r.off + r.len <= s.off
  }

  predicate Disjoint(segs: seq<Seg>) {
    forall i, j :: 0 <= i < j < |segs| ==> Apart(segs[i], segs[j])
  }

  /** What copy_to_user, segment by segment, puts into the buffer. */
  function Gather(mem: Memory, segs: seq<Seg>): (data: seq<byte>)
    requires AllFit(mem, segs)
    ensures |data| == Total(segs)
  {
    if segs == [] then []
    else mem[segs[0].page][segs[0].off..segs[0].off + segs[0].len] + Gather(mem, segs[1..])
  }

  /** A segment's bytes replaced. */
  function Put(mem: Memory, sg: Seg, data: seq<byte>): (r: Memory)
    requires Fits(mem, sg) && |data| == sg.len
    ensures SameShape(mem, r)
  {
    var page := mem[sg.page];
    mem[sg.page := page[..sg.off] + data + page[sg.off + sg.len..]]
  }

  /** What copy_from_user, segment by segment, makes of the pages. */
  function Scatter(mem: Memory, segs: seq<Seg>, data: seq<byte>): (r: Memory)
    requires AllFit(mem, segs) && |data| == Total(segs)
    ensures SameShape(mem, r)
    decreases |segs|
  {
    if segs == [] then mem
    else
      var len := segs[0].len;
      Scatter(Put(mem, segs[0], data[..len]), segs[1..], data[len..])
  }

  /** The page byte that byte p of the flat buffer stands for. */
  function Cell(segs: seq<Seg>, p: nat): (nat, nat)
    requires p < Total(segs)
  {
    if p < segs[0].len then (segs[0].page, segs[0].off + p)
    else Cell(segs[1..], p - segs[0].len)
  }

  lemma {:induction false} CellCovered(segs: seq<Seg>, p: nat)
    requires p < Total(segs)
    ensures Covered(segs, Cell(segs, p).0, Cell(segs, p).1)
  {
    if p < segs[0].len {
      assert In(segs[0], segs[0].page, segs[0].off + p);
    } else {
      CellCovered(segs[1..], p - segs[0].len);
      assert forall k :: 0 <= k < |segs| - 1 ==> segs[1..][k] == segs[k + 1];
    }
  }

  lemma CellFits(mem: Memory, segs: seq<Seg>, p: nat)
    requires AllFit(mem, segs) && p < Total(segs)
    ensures var c := Cell(segs, p); c.0 < |mem| && c.1 < |mem[c.0]|
  {
  }

  /** A gather reads byte p of the buffer from its cell. */
  lemma {:induction false} GatherAtCell(mem: Memory, segs: seq<Seg>, p: nat)
    requires AllFit(mem, segs) && p < Total(segs)
    ensures var c := Cell(segs, p);
            c.0 < |mem| && c.1 < |mem[c.0]| && Gather(mem, segs)[p] == mem[c.0][c.1]
  {
    CellFits(mem, segs, p);
    if p >= segs[0].len {
      GatherAtCell(mem, segs[1..], p - segs[0].len);
    }
  }

  lemma PutAt(mem: Memory, sg: Seg, data: seq<byte>, p: nat, i: nat)
    requires Fits(mem, sg) && |data| == sg.len && p < |mem| && i < |mem[p]|
    ensures Put(mem, sg, data)[p][i] == if In(sg, p, i) then data[i - sg.off] else mem[p][i]
  {
  }

  /** A scatter changes no byte outside the segments. */
  lemma {:induction false} ScatterFrame(mem: Memory, segs: seq<Seg>, data: seq<byte>, p: nat, i: nat)
    requires AllFit(mem, segs) && |data| == Total(segs)
    requires p < |mem| && i < |mem[p]| && !Covered(segs, p, i)
    ensures Scatter(mem, segs, data)[p][i] == mem[p][i]
    decreases |segs|
  {
    if segs != [] {
      var len := segs[0].len;
      assert !In(segs[0], p, i);
      PutAt(mem, segs[0], data[..len], p, i);
      assert forall k :: 0 <= k < |segs| - 1 ==> segs[1..][k] == segs[k + 1];
      ScatterFrame(Put(mem, segs[0], data[..len]), segs[1..], data[len..], p, i);
    }
  }

  /** With disjoint segments, a scatter puts byte p of the buffer in its cell. */
  lemma {:induction false} ScatterAtCell(mem: Memory, segs: seq<Seg>, data: seq<byte>, p: nat)
    requires AllFit(mem, segs) && |data| == Total(segs) && p < Total(segs) && Disjoint(segs)
    ensures var c := Cell(segs, p);
            c.0 < |mem| && c.1 < |mem[c.0]| && Scatter(mem, segs, data)[c.0][c.1] == data[p]
    decreases |segs|
  {
    var len := segs[0].len;
    var first := Put(mem, segs[0], data[..len]);
    CellFits(mem, segs, p);
    assert forall k :: 0 <= k < |segs| - 1 ==> segs[1..][k] == segs[k + 1];
    if p < len {
      var c := Cell(segs, p);
      PutAt(mem, segs[0], data[..len], c.0, c.1);
      assert forall k :: 0 < k < |segs| ==> Apart(segs[0], segs[k]);
      ScatterFrame(first, segs[1..], data[len..], c.0, c.1);
    } else {
      ScatterAtCell(first, segs[1..], data[len..], p - len);
    }
  }

  /** Writing a bio's data and reading it back returns the same buffer. */
  lemma RoundTrip(mem: Memory, segs: seq<Seg>, data: seq<byte>)
    requires AllFit(mem, segs) && |data| == Total(segs) && Disjoint(segs)
    ensures Gather(Scatter(mem, segs, data), segs) == data
  {
    var r := Scatter(mem, segs, data);
    forall p | 0 <= p < |data| ensures Gather(r, segs)[p] == data[p] {
      GatherAtCell(r, segs, p);
      ScatterAtCell(mem, segs, data, p);
    }
  }

  /** Reading a bio's data and writing it back changes nothing. */
  lemma {:induction false} WriteBack(mem: Memory, segs: seq<Seg>)
    requires AllFit(mem, segs)
    ensures Scatter(mem, segs, Gather(mem, segs)) == mem
    decreases |segs|
  {
    if segs != [] {
      var sg, data := segs[0], Gather(mem, segs);
      var page := mem[sg.page];
      assert data[..sg.len] == page[sg.off..sg.off + sg.len];
      assert page[..sg.off] + data[..sg.len] + page[sg.off + sg.len..] == page;
      assert Put(mem, sg, data[..sg.len]) == mem;
      assert data[sg.len..] == Gather(mem, segs[1..]);
      WriteBack(mem, segs[1..]);
    }
  }

  /** Two memories that differ, if at all, only inside the segments. */
  ghost predicate AgreeOutside(segs: seq<Seg>, m: Memory, n: Memory) {
    SameShape(m, n) &&
    forall p, i :: 0 <= p < |m| && 0 <= i < |m[p]| && !Covered(segs, p, i) ==> m[p][i] == n[p][i]
  }

  lemma ScatterAgrees(mem: Memory, segs: seq<Seg>, data: seq<byte>)
    requires AllFit(mem, segs) && |data| == Total(segs)
    ensures AgreeOutside(segs, mem, Scatter(mem, segs, data))
  {
    forall p, i | 0 <= p < |mem| && 0 <= i < |mem[p]| && !Covered(segs, p, i)
      ensures mem[p][i] == Scatter(mem, segs, data)[p][i]
    {
      ScatterFrame(mem, segs, data, p, i);
    }
  }

  /** A full copy makes the same memory of any two that agree outside the
      segments: whatever a failed attempt left inside them is overwritten. */
  lemma {:induction false} ScatterForgets(segs: seq<Seg>, m: Memory, n: Memory, data: seq<byte>)
    requires AllFit(m, segs) && |data| == Total(segs) && AgreeOutside(segs, m, n)
    ensures Scatter(m, segs, data) == Scatter(n, segs, data)
    decreases |segs|
  {
    if segs == [] {
      assert forall p :: 0 <= p < |m| ==> m[p] == n[p];
    } else {
      var len := segs[0].len;
      var m1, n1 := Put(m, segs[0], data[..len]), Put(n, segs[0], data[..len]);
      forall p, i | 0 <= p < |m1| && 0 <= i < |m1[p]| && !Covered(segs[1..], p, i)
        ensures m1[p][i] == n1[p][i]
      {
        PutAt(m, segs[0], data[..len], p, i);
        PutAt(n, segs[0], data[..len], p, i);
        if !In(segs[0], p, i) {
          assert forall k :: 0 < k < |segs| ==> segs[k] == segs[1..][k - 1];
          assert !Covered(segs, p, i);
        }
      }
      ScatterForgets(segs[1..], m1, n1, data[len..]);
    }
  }
}
