/** The un-ended bios a list of entries carries. */
module TunnelLive {
  import opened Common
  import opened TunnelThreads

  const EITHER: Option<Dir> := None

  predicate Wanted(heap: map<nat, Entry>, a: nat, want: Option<Dir>) {
    a in heap && !heap[a].done && (want.None? || heap[a].dir == want.value)
  }

  /** The bios of the un-ended entries of a list, in list order, for some directions. */
  function Live(heap: map<nat, Entry>, list: seq<nat>, want: Option<Dir>): seq<nat> {
    if list == [] then []
    else
      var front, last := list[..|list| - 1], list[|list| - 1];
      if Wanted(heap, last, want) then Live(heap, front, want) + [heap[last].bio]
      else Live(heap, front, want)
  }

  lemma {:induction false} LiveMember(heap: map<nat, Entry>, list: seq<nat>, want: Option<Dir>, b: nat)
    ensures b in Live(heap, list, want) <==>
            exists a :: a in list && Wanted(heap, a, want) && heap[a].bio == b
  {
    if list != [] {
      var front, last := list[..|list| - 1], list[|list| - 1];
      LiveMember(heap, front, want, b);
      assert list == front + [last];
    }
  }

  lemma {:induction false} LiveSame(heap: map<nat, Entry>, heap2: map<nat, Entry>, list: seq<nat>, want: Option<Dir>)
    requires forall a :: a in list ==>
               (Wanted(heap, a, want) <==> Wanted(heap2, a, want))
               && (Wanted(heap, a, want) ==> heap[a].bio == heap2[a].bio)
    ensures Live(heap, list, want) == Live(heap2, list, want)
  {
    if list != [] {
      LiveSame(heap, heap2, list[..|list| - 1], want);
    }
  }

  lemma {:induction false} LiveConcat(heap: map<nat, Entry>, list: seq<nat>, more: seq<nat>, want: Option<Dir>)
    ensures Live(heap, list + more, want) == Live(heap, list, want) + Live(heap, more, want)
  {
    if more == [] {
      assert list + more == list;
    } else {
      var front, last := more[..|more| - 1], more[|more| - 1];
      LiveConcat(heap, list, front, want);
      assert (list + more)[..|list + more| - 1] == list + front;
    }
  }

  /** Moving the head of one list behind another moves its bio. */
  lemma LiveHead(heap: map<nat, Entry>, list: seq<nat>, want: Option<Dir>)
    requires list != []
    ensures Live(heap, list, want)
            == (if Wanted(heap, list[0], want) then [heap[list[0]].bio] else []) + Live(heap, list[1..], want)
  {
    assert list == [list[0]] + list[1..];
    LiveConcat(heap, [list[0]], list[1..], want);
    assert [list[0]][..0] == [];
  }

  /** Unlinking an entry whose bio has ended changes no live list. */
  lemma {:induction false} LiveUnlink(heap: map<nat, Entry>, list: seq<nat>, e: nat, want: Option<Dir>)
    requires !Wanted(heap, e, want)
    ensures Live(heap, Without(list, e), want) == Live(heap, list, want)
  {
    if list != [] {
      var front, last := list[..|list| - 1], list[|list| - 1];
      LiveUnlink(heap, front, e, want);
      assert list == front + [last];
      WithoutAppend(front, last, e);
      if last != e {
        var w := Without(list, e);
        assert w[..|w| - 1] == Without(front, e) && w[|w| - 1] == last;
      }
    }
  }

  /** Ending the bio of one entry takes exactly that bio out. */
  lemma {:induction false} LiveEnd(heap: map<nat, Entry>, list: seq<nat>, e: nat, want: Option<Dir>)
    requires e in heap && Wanted(heap, e, want)
    requires forall a :: a in list && a in heap && heap[a].bio == heap[e].bio ==> a == e
    ensures Live(heap[e := heap[e].(done := true)], list, want)
            == Without(Live(heap, list, want), heap[e].bio)
  {
    if list != [] {
      var front, last := list[..|list| - 1], list[|list| - 1];
      LiveEnd(heap, front, e, want);
      assert last in list;
      if Wanted(heap, last, want) {
        WithoutAppend(Live(heap, front, want), heap[last].bio, heap[e].bio);
      }
    }
  }

  lemma {:induction false} LiveDistinct(heap: map<nat, Entry>, list: seq<nat>, want: Option<Dir>)
    requires Distinct(list)
    requires forall a, c :: a in list && c in list && a in heap && c in heap && heap[a].bio == heap[c].bio ==> a == c
    ensures Distinct(Live(heap, list, want))
  {
    if list != [] {
      var front, last := list[..|list| - 1], list[|list| - 1];
      LiveDistinct(heap, front, want);
      assert list == front + [last];
      if Wanted(heap, last, want) {
        LiveMember(heap, front, want, heap[last].bio);
        assert last !in front;
      }
    }
  }

  /** Moving a live head entry behind another list moves just its bio. */
  lemma LiveMove(heap: map<nat, Entry>, incoming: seq<nat>, pending: seq<nat>, to: Entry, want: Option<Dir>)
    requires incoming != [] && Distinct(incoming) && incoming[0] !in pending && incoming[0] in heap
    requires to.bio == heap[incoming[0]].bio && to.dir == heap[incoming[0]].dir
    requires to.done == heap[incoming[0]].done
    ensures var a := incoming[0];
            var moved := if Wanted(heap, a, want) then [to.bio] else [];
            && Live(heap, incoming, want) == moved + Live(heap[a := to], Without(incoming, a), want)
            && Live(heap[a := to], pending + [a], want) == Live(heap, pending, want) + moved
  {
    var a := incoming[0];
    WithoutHead(incoming);
    LiveHead(heap, incoming, want);
    LiveSame(heap, heap[a := to], incoming[1..], want);
    LiveSame(heap, heap[a := to], pending, want);
    assert (pending + [a])[..|pending|] == pending;
  }

  /** Relinking a done entry, and taking it off a list, changes no live list. */
  lemma LiveDetach(heap: map<nat, Entry>, list: seq<nat>, e: nat, to: Entry, want: Option<Dir>)
    requires e in heap && heap[e].done && to.done
    ensures Live(heap[e := to], Without(list, e), want) == Live(heap, list, want)
  {
    LiveUnlink(heap, list, e, want);
    LiveSame(heap, heap[e := to], Without(list, e), want);
  }
}
