/** Small vocabulary shared by the models: options, transfer directions, and
    the two list facts every linked-list argument below needs. */
module Common {

  datatype Option<+T> = None | Some(value: T)

  /** Direction of a block request, seen from the block layer. */
  datatype Dir = READ | WRITE

  /** Outcome of a system call: the returned value, or a negative errno. */
  datatype Result<+T> = Ok(value: T) | Err(errno: Errno)

  datatype Errno = EIO | EINTR | EEXIST | EINVAL | ENOMEM | ENOENT | EBUSY | ENXIO

  predicate Distinct<T(==)>(s: seq<T>) {
    forall i, j :: 0 <= i < j < |s| ==> s[i] != s[j]
  }

  /** The list after unlinking every node that carries x. */
  function Without<T(==, !new)>(s: seq<T>, x: T): (r: seq<T>)
    ensures forall y :: y in r <==> y in s && y != x
    ensures Distinct(s) ==> Distinct(r)
    ensures x !in s ==> r == s
  {
    if s == [] then []
    else if s[0] == x then Without(s[1..], x)
    else
      var rest := Without(s[1..], x);
      assert Distinct(s) ==> Distinct(s[1..]) && s[0] !in s[1..];
      [s[0]] + rest
  }

  /** Unlinking the head of a list of distinct nodes leaves its tail. */
  lemma WithoutHead<T(!new)>(s: seq<T>)
    requires s != [] && Distinct(s)
    ensures s[0] !in s[1..]
    ensures Without(s, s[0]) == s[1..]
  {
  }

  lemma {:induction false} WithoutAppend<T(!new)>(s: seq<T>, y: T, x: T)
    ensures Without(s + [y], x) == if y == x then Without(s, x) else Without(s, x) + [y]
  {
    if s == [] {
    } else {
      assert (s + [y])[1..] == s[1..] + [y];
      WithoutAppend(s[1..], y, x);
    }
  }

  lemma {:induction false} WithoutConcat<T(!new)>(s: seq<T>, r: seq<T>, x: T)
    ensures Without(s + r, x) == Without(s, x) + Without(r, x)
  {
    if s == [] {
      assert s + r == r;
    } else {
      assert (s + r)[1..] == s[1..] + r;
      WithoutConcat(s[1..], r, x);
    }
  }

  lemma DistinctConcat(s: seq<nat>, r: seq<nat>)
    requires Distinct(s) && Distinct(r)
    requires forall x :: x in s ==> x !in r
    ensures Distinct(s + r)
  {
    forall i, j | 0 <= i < j < |s + r| ensures (s + r)[i] != (s + r)[j] {
      if i < |s| && |s| <= j {
        assert s[i] in s && r[j - |s|] in r;
      }
    }
  }

  lemma {:induction false} WithoutLength(s: seq<nat>, x: nat)
    requires Distinct(s)
    ensures |Without(s, x)| == if x in s then |s| - 1 else |s|
  {
    if s != [] {
      WithoutLength(s[1..], x);
    }
  }
}
