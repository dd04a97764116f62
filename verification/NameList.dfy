/** The LIST command.  The driver packs the names of its devices, NUL-terminated,
    into a fixed response buffer; the library finds them again and hands out
    pointers; the utility asks for page after page. */
module NameList {
  import opened Common
  import opened Segments
  import opened Names

  const RESPONSE_SIZE: nat := 1024
  const DEVNAMES: nat := 32

  function Encode(names: seq<Name>): seq<byte> {
    if names == [] then [] else names[0] + [0] + Encode(names[1..])
  }

  // ---- The driver: how many names a response holds -----------------------------------------

  /** The driver's loop with i names from offset on in the buffer already and pos
      bytes used.  The bounds are on i, not on i + 1: one more name than asked for
      is let through. */
  function EmitFrom(names: seq<Name>, offset: nat, i: nat, pos: nat, max: nat): (k: nat)
    ensures k > 0 ==> offset + i + k <= |names|
    decreases |names| - i
  {
    if offset + i >= |names| || i > max || i > DEVNAMES || pos + |names[offset + i]| + 1 > RESPONSE_SIZE then 0
    else 1 + EmitFrom(names, offset, i + 1, pos + |names[offset + i]| + 1, max)
  }

  /** How many names a LIST of at most max names from offset returns. */
  function Emitted(names: seq<Name>, offset: nat, max: nat): (k: nat)
    ensures k > 0 ==> offset + k <= |names|
  {
    EmitFrom(names, offset, 0, 0, max)
  }

  function Slice<T>(names: seq<T>, offset: nat, k: nat): (r: seq<T>)
    requires k > 0 ==> offset + k <= |names|
    ensures |r| == k
  {
    if k == 0 then [] else names[offset..offset + k]
  }

  function Page(names: seq<Name>, offset: nat, max: nat): (r: seq<Name>)
    ensures |r| == Emitted(names, offset, max)
  {
    Slice(names, offset, Emitted(names, offset, max))
  }

  /** k names from offset on stay within the count as the code bounds it, and within
      the buffer. */
  predicate Admits(names: seq<Name>, offset: nat, k: nat, max: nat) {
    && (k > 0 ==> offset + k <= |names|)
    && k <= max + 1 && k <= DEVNAMES + 1 && |Encode(Slice(names, offset, k))| <= RESPONSE_SIZE
  }

  lemma {:induction false} EncodeConcat(a: seq<Name>, b: seq<Name>)
    ensures Encode(a + b) == Encode(a) + Encode(b)
  {
    if a == [] {
      assert a + b == b;
    } else {
      EncodeConcat(a[1..], b);
      assert (a + b)[1..] == a[1..] + b;
    }
  }

  lemma EncodeNext(names: seq<Name>, offset: nat, k: nat)
    requires offset + k < |names|
    ensures Encode(Slice(names, offset, k + 1)) == Encode(Slice(names, offset, k)) + names[offset + k] + [0]
  {
    var name := names[offset + k];
    assert Slice(names, offset, k + 1) == Slice(names, offset, k) + [name];
    EncodeConcat(Slice(names, offset, k), [name]);
    assert Encode([name]) == name + [0] + Encode([]);
  }

  /** The bytes that k names from offset on take up. */
  function Room(names: seq<Name>, offset: nat, k: nat): nat
    requires k > 0 ==> offset + k <= |names|
  {
    if k == 0 then 0 else Room(names, offset, k - 1) + |names[offset + k - 1]| + 1
  }

  lemma {:induction false} RoomIsEncoded(names: seq<Name>, offset: nat, k: nat)
    requires k > 0 ==> offset + k <= |names|
    ensures Room(names, offset, k) == |Encode(Slice(names, offset, k))|
  {
    if k > 0 {
      RoomIsEncoded(names, offset, k - 1);
      EncodeNext(names, offset, k - 1);
    }
  }

  lemma {:induction false} RoomGrows(names: seq<Name>, offset: nat, j: nat, k: nat)
    requires j <= k && offset + k <= |names|
    ensures Room(names, offset, j) <= Room(names, offset, k)
  {
    if j < k {
      RoomGrows(names, offset, j, k - 1);
    }
  }

  /** Admits, by the bytes taken up. */
  predicate HasRoom(names: seq<Name>, offset: nat, k: nat, max: nat) {
    && (k > 0 ==> offset + k <= |names|)
    && k <= max + 1 && k <= DEVNAMES + 1 && Room(names, offset, k) <= RESPONSE_SIZE
  }

  lemma AdmitsIsRoom(names: seq<Name>, offset: nat, k: nat, max: nat)
    ensures Admits(names, offset, k, max) <==> HasRoom(names, offset, k, max)
  {
    if k > 0 ==> offset + k <= |names| {
      RoomIsEncoded(names, offset, k);
    }
  }

  lemma NoLonger(names: seq<Name>, offset: nat, i: nat, j: nat, max: nat)
    requires i < j && (offset + i < |names| ==> !HasRoom(names, offset, i + 1, max))
    ensures !HasRoom(names, offset, j, max)
  {
    if offset + j <= |names| {
      RoomGrows(names, offset, i + 1, j);
    }
  }

  lemma {:induction false} EmitFromLongest(names: seq<Name>, offset: nat, i: nat, j: nat, max: nat)
    requires HasRoom(names, offset, i, max)
    ensures var k := i + EmitFrom(names, offset, i, Room(names, offset, i), max);
            HasRoom(names, offset, k, max) && (k < j ==> !HasRoom(names, offset, j, max))
    decreases |names| - i
  {
    if offset + i < |names| && HasRoom(names, offset, i + 1, max) {
      EmitFromLongest(names, offset, i + 1, j, max);
    } else if i < j {
      NoLonger(names, offset, i, j, max);
    }
  }

  /** A response holds the longest run of names from offset that its bounds admit. */
  lemma EmittedIsLongest(names: seq<Name>, offset: nat, max: nat)
    ensures var k := Emitted(names, offset, max);
            Admits(names, offset, k, max) && forall j :: k < j ==> !Admits(names, offset, j, max)
  {
    var k := Emitted(names, offset, max);
    forall j: nat ensures Admits(names, offset, k, max) && (k < j ==> !Admits(names, offset, j, max)) {
      EmitFromLongest(names, offset, 0, j, max);
      AdmitsIsRoom(names, offset, k, max);
      AdmitsIsRoom(names, offset, j, max);
    }
  }

  /** bdtun_list_k, over the device list as an iteration that skips `offset`
      devices and then packs. */
  method ListDevices(devices: seq<Name>, buf: array<byte>, offset: nat, max: nat) returns (bufpos: nat)
    requires buf.Length == RESPONSE_SIZE
    modifies buf
    ensures bufpos <= RESPONSE_SIZE && buf[..bufpos] == Encode(Page(devices, offset, max))
  {
    var skip, i: nat, at: nat := offset, 0, 0;
    bufpos := 0;
    while at < |devices|
      invariant at <= |devices| && bufpos <= RESPONSE_SIZE
      invariant skip == if at <= offset then offset - at else 0
      invariant if at <= offset then i == 0 else at == offset + i
      invariant (i > 0 ==> offset + i <= |devices|) && buf[..bufpos] == Encode(Slice(devices, offset, i))
      invariant i + EmitFrom(devices, offset, i, bufpos, max) == Emitted(devices, offset, max)
    {
      if skip > 0 {
        skip, at := skip - 1, at + 1;
        continue;
      }
      if i > max || i > DEVNAMES {
        break;
      }
      var name := devices[at];
      if bufpos + |name| + 1 > RESPONSE_SIZE {
        break;
      }
      PutName(buf, bufpos, name);
      EncodeNext(devices, offset, i);
      bufpos := bufpos + |name| + 1;
      i, at := i + 1, at + 1;
    }
  }

  /** memcpy of a name and its terminator */
  method PutName(buf: array<byte>, pos: nat, name: Name)
    requires pos + |name| + 1 <= buf.Length
    modifies buf
    ensures buf[..pos + |name| + 1] == old(buf[..pos]) + name + [0]
  {
    forall k | 0 <= k <= |name| {
      buf[pos + k] := if k < |name| then name[k] else 0;
    }
    assert buf[..pos] == old(buf[..pos]);
    assert buf[pos..pos + |name|] == name;
    assert buf[..pos + |name| + 1] == buf[..pos] + buf[pos..pos + |name|] + [buf[pos + |name|]];
  }

  // ---- The library: where the names are -----------------------------------------------------

  /** Where the parser's loop finds names from byte i on: after each NUL but one at
      the end. */
  function StartsFrom(s: seq<byte>, i: nat): (r: seq<nat>)
    ensures forall k :: 0 <= k < |r| ==> r[k] < |s|
    decreases |s| - i
  {
    if i >= |s| then []
    else if s[i] == 0 && i + 1 < |s| then [i + 1] + StartsFrom(s, i + 1)
    else StartsFrom(s, i + 1)
  }

  function Starts(s: seq<byte>): (r: seq<nat>)
    ensures forall k :: 0 <= k < |r| ==> r[k] < |s|
  {
    if s == [] then [] else [0] + StartsFrom(s, 1)
  }

  /** The C string at position i. */
  function StringAt(s: seq<byte>, i: nat): seq<byte>
    decreases |s| - i
  {
    if i >= |s| || s[i] == 0 then [] else [s[i]] + StringAt(s, i + 1)
  }

  function Decode(s: seq<byte>): (names: seq<Name>)
    ensures |names| == |Starts(s)|
  {
    var starts := Starts(s);
    seq(|starts|, k requires 0 <= k < |starts| => StringAt(s, starts[k]))
  }

  lemma {:induction false} StringAtShift(a: seq<byte>, b: seq<byte>, i: nat)
    ensures StringAt(a + b, |a| + i) == StringAt(b, i)
    decreases |b| - i
  {
    if i < |b| && b[i] != 0 {
      StringAtShift(a, b, i + 1);
    }
  }

  lemma {:induction false} StringAtName(n: Name, rest: seq<byte>, i: nat)
    requires 0 !in n && i <= |n|
    ensures StringAt(n + [0] + rest, i) == n[i..]
    decreases |n| - i
  {
    var s := n + [0] + rest;
    if i == |n| {
      assert s[i] == 0;
    } else {
      assert s[i] == n[i] && n[i] in n;
      StringAtName(n, rest, i + 1);
    }
  }

  lemma {:induction false} StartsShift(a: seq<byte>, b: seq<byte>, i: nat)
    ensures var r, t := StartsFrom(a + b, |a| + i), StartsFrom(b, i);
            |r| == |t| && forall k :: 0 <= k < |t| ==> r[k] == |a| + t[k]
    decreases |b| - i
  {
    if i < |b| {
      StartsShift(a, b, i + 1);
    }
  }

  /** The scan runs through a name to the NUL that ends it. */
  lemma {:induction false} StartsSkip(n: Name, rest: seq<byte>, i: nat)
    requires 0 !in n && i <= |n|
    ensures StartsFrom(n + [0] + rest, i)
            == if rest == [] then [] else [|n| + 1] + StartsFrom(n + [0] + rest, |n| + 1)
    decreases |n| - i
  {
    var s := n + [0] + rest;
    if i < |n| {
      assert s[i] == n[i] && n[i] in n;
      StartsSkip(n, rest, i + 1);
    } else {
      assert s[i] == 0;
    }
  }

  /** The names of a packed list start where they were put. */
  lemma StartsCons(n: Name, rest: seq<byte>)
    requires Proper(n) && (rest != [] ==> rest[0] != 0)
    ensures var r, t := Starts(n + [0] + rest), Starts(rest);
            |r| == 1 + |t| && r[0] == 0 && forall k :: 0 <= k < |t| ==> r[k + 1] == |n| + 1 + t[k]
  {
    StartsSkip(n, rest, 1);
    if rest != [] {
      var s := n + [0] + rest;
      assert s[|n| + 1] == rest[0];
      assert StartsFrom(s, |n| + 1) == StartsFrom(s, |n| + 2);
      StartsShift(n + [0], rest, 1);
    }
  }

  lemma DecodeCons(n: Name, rest: seq<byte>, k: nat)
    requires Proper(n) && (rest != [] ==> rest[0] != 0) && k <= |Decode(rest)|
    ensures |Decode(n + [0] + rest)| == 1 + |Decode(rest)|
    ensures Decode(n + [0] + rest)[k] == if k == 0 then n else Decode(rest)[k - 1]
  {
    StartsCons(n, rest);
    if k == 0 {
      StringAtName(n, rest, 0);
    } else {
      StringAtShift(n + [0], rest, Starts(rest)[k - 1]);
    }
  }

  lemma EncodeStarts(names: seq<Name>)
    requires AllProper(names) && names != []
    ensures Encode(names) != [] && Encode(names)[0] != 0
  {
    assert Encode(names)[0] == names[0][0] && names[0][0] in names[0];
  }

  /** The parser recovers exactly the names packed. */
  lemma {:induction false} RoundTrip(names: seq<Name>)
    requires AllProper(names)
    ensures Decode(Encode(names)) == names
  {
    if names != [] {
      var tail := names[1..];
      var rest := Encode(tail);
      RoundTrip(tail);
      if tail != [] {
        EncodeStarts(tail);
      }
      DecodeCons(names[0], rest, 0);
      forall k | 0 <= k < |names| ensures Decode(Encode(names))[k] == names[k] {
        DecodeCons(names[0], rest, k);
      }
    }
  }

  /** Where the parser's loop has found names once it has looked at the bytes
      before i. */
  function StartsBefore(s: seq<byte>, i: nat): seq<nat>
    requires 1 <= i <= |s|
  {
    if i == 1 then [0]
    else if s[i - 1] == 0 && i < |s| then StartsBefore(s, i - 1) + [i]
    else StartsBefore(s, i - 1)
  }

  lemma {:induction false} BeforeAndFrom(s: seq<byte>, i: nat)
    requires 1 <= i <= |s|
    ensures Starts(s) == StartsBefore(s, i) + StartsFrom(s, i)
  {
    if i > 1 {
      BeforeAndFrom(s, i - 1);
    }
  }

  lemma {:induction false} BeforeGrows(s: seq<byte>, i: nat, j: nat)
    requires 1 <= i <= j <= |s|
    ensures |StartsBefore(s, i)| <= |StartsBefore(s, j)|
  {
    if i < j {
      BeforeGrows(s, i, j - 1);
    }
  }

  lemma BeforeEnd(s: seq<byte>)
    requires s != []
    ensures StartsBefore(s, |s|) == Starts(s)
  {
    BeforeAndFrom(s, |s|);
  }

  /** The parser of bdtun_list, on the bytes of a response.  The pointers go into an
      array of DEVNAMES; a response with more names would be written past its end. */
  method ParseNames(buf: seq<byte>, pbuf: array<Option<nat>>) returns (j: nat)
    requires pbuf.Length == DEVNAMES && |Starts(buf)| <= DEVNAMES
    modifies pbuf
    ensures j == |Starts(buf)|
    ensures forall k :: 0 <= k < DEVNAMES ==> pbuf[k] == if k < j then Some(Starts(buf)[k]) else None
  {
    forall k | 0 <= k < DEVNAMES {
      pbuf[k] := None;
    }
    if buf == [] {
      return 0;
    }
    BeforeEnd(buf);
    pbuf[0] := Some(0);
    j := FindNames(buf, pbuf);
  }

  /** The scan for NULs, with the first pointer in place. */
  method FindNames(buf: seq<byte>, pbuf: array<Option<nat>>) returns (j: nat)
    requires pbuf.Length == DEVNAMES && buf != [] && |StartsBefore(buf, |buf|)| <= DEVNAMES
    requires pbuf[0] == Some(0) && forall k :: 1 <= k < DEVNAMES ==> pbuf[k] == None
    modifies pbuf
    ensures j == |StartsBefore(buf, |buf|)|
    ensures forall k :: 0 <= k < DEVNAMES ==>
              pbuf[k] == if k < j then Some(StartsBefore(buf, |buf|)[k]) else None
  {
    j := 1;
    var i := 1;
    while i < |buf|
      invariant 1 <= i <= |buf| && j == |StartsBefore(buf, i)| <= DEVNAMES
      invariant forall k :: 0 <= k < DEVNAMES ==>
                  pbuf[k] == if k < j then Some(StartsBefore(buf, i)[k]) else None
    {
      BeforeGrows(buf, i + 1, |buf|);
      if buf[i] == 0 && i + 1 < |buf| {
        pbuf[j] := Some(i + 1);
        j := j + 1;
      }
      i := i + 1;
    }
  }

  /** bdtun_list: the names of one page, when the pointers fit. */
  method ListNames(devices: seq<Name>, offset: nat, max: nat) returns (names: seq<Name>)
    requires AllProper(devices) && Emitted(devices, offset, max) <= DEVNAMES
    ensures names == Page(devices, offset, max)
  {
    var buf := new byte[RESPONSE_SIZE];
    var ret := ListDevices(devices, buf, offset, max);
    RoundTrip(Page(devices, offset, max));
    var pbuf := new Option<nat>[DEVNAMES];
    var s := buf[..ret];
    var j := ParseNames(s, pbuf);
    names := seq(j, k requires 0 <= k < j <= pbuf.Length && pbuf[k].Some? reads pbuf => StringAt(s, pbuf[k].value));
  }

  // ---- When the pointers fit -----------------------------------------------------------------

  /** The pointer array overflows exactly when the caller asks for 32 names or more,
      33 are left, and all 33 fit into the response. */
  lemma OverflowIff(names: seq<Name>, offset: nat, max: nat)
    ensures Emitted(names, offset, max) > DEVNAMES
            <==> max >= DEVNAMES && Admits(names, offset, DEVNAMES + 1, max)
  {
    EmittedIsLongest(names, offset, max);
  }

  function Copies(n: Name, k: nat): (r: seq<Name>)
    ensures |r| == k && forall i :: 0 <= i < k ==> r[i] == n
  {
    seq(k, i requires 0 <= i < k => n)
  }

  lemma {:induction false} EncodedSize(names: seq<Name>, size: nat)
    requires forall i :: 0 <= i < |names| ==> |names[i]| < size
    ensures |Encode(names)| <= |names| * size
  {
    if names != [] {
      EncodedSize(names[1..], size);
    }
  }

  /** A page of at most 31 names is always safe, and no larger bound is. */
  lemma SafePageIff(max: nat)
    ensures (forall names, offset :: AllProper(names) ==> Emitted(names, offset, max) <= DEVNAMES)
            <==> max < DEVNAMES
  {
    forall names: seq<Name>, offset: nat ensures max < DEVNAMES ==> Emitted(names, offset, max) <= DEVNAMES {
      OverflowIff(names, offset, max);
    }
    if max >= DEVNAMES {
      var names := Copies([97], DEVNAMES + 1);
      assert Slice(names, 0, DEVNAMES + 1) == names;
      EncodedSize(names, 2);
      OverflowIff(names, 0, max);
      assert AllProper(names);
    }
  }

  /** 33 names from offset on would come in one response. */
  predicate Overfull(names: seq<Name>, offset: nat) {
    offset + DEVNAMES + 1 <= |names| && |Encode(Slice(names, offset, DEVNAMES + 1))| <= RESPONSE_SIZE
  }

  /** The offsets the utility asks for, from off on: it advances by half a page, and
      stops at an empty one. */
  function Visited(names: seq<Name>, off: nat): (r: set<nat>)
    ensures off in r
    decreases |names| - off
  {
    var k := Emitted(names, off, DEVNAMES);
    if k == 0 then {off} else {off} + Visited(names, off + (k + 1) / 2)
  }

  /** No page the utility asks for, from off on, has more names than it has pointers. */
  predicate UtilitySafe(names: seq<Name>, off: nat)
    decreases |names| - off
  {
    var k := Emitted(names, off, DEVNAMES);
    k <= DEVNAMES && (k == 0 || UtilitySafe(names, off + (k + 1) / 2))
  }

  lemma NoneOverfull(names: seq<Name>, visited: set<nat>, off: nat, rest: set<nat>)
    requires visited == {off} + rest
    ensures (forall o :: o in visited ==> !Overfull(names, o))
            <==> !Overfull(names, off) && forall o :: o in rest ==> !Overfull(names, o)
  {
    assert off in visited;
    forall o | o in rest ensures o in visited {
    }
  }

  /** The utility, which asks for 32, stays within its pointers exactly when at none of
      the offsets it visits 33 names fit into a response. */
  lemma {:induction false} UtilityIsSafeIff(names: seq<Name>, off: nat)
    ensures UtilitySafe(names, off) <==> forall o :: o in Visited(names, off) ==> !Overfull(names, o)
    decreases |names| - off
  {
    var k := Emitted(names, off, DEVNAMES);
    OverflowIff(names, off, DEVNAMES);
    assert Overfull(names, off) <==> k > DEVNAMES;
    if k > 0 {
      var next := off + (k + 1) / 2;
      UtilityIsSafeIff(names, next);
      NoneOverfull(names, Visited(names, off), off, Visited(names, next));
    } else {
      NoneOverfull(names, Visited(names, off), off, {});
    }
  }

  /** A list with no more than 32 names left is safe, whatever the names. */
  lemma {:induction false} FewAreSafe(names: seq<Name>, off: nat)
    requires |names| <= off + DEVNAMES
    ensures UtilitySafe(names, off)
    decreases |names| - off
  {
    var k := Emitted(names, off, DEVNAMES);
    if k > 0 {
      FewAreSafe(names, off + (k + 1) / 2);
    }
  }

  /** The i-th of a family of distinct names, of len bytes. */
  function LongName(len: nat, i: nat): (n: Name)
    requires 0 < len < NAME_SIZE && i < 255
    ensures |n| == len && Proper(n) && n[0] == i + 1
  {
    seq(len, k requires 0 <= k => if k == 0 then i + 1 else 97)
  }

  function ShiftedName(i: nat): (n: Name)
    requires i < 34
    ensures Proper(n) && |n| == (if i < 2 then 31 else 30) && n[0] == i + 1
  {
    LongName(if i < 2 then 31 else 30, i)
  }

  /** 34 names, the first two of 31 bytes and the others of 30. */
  function ShiftedNames(): (names: seq<Name>)
    ensures |names| == 34 && forall i :: 0 <= i < 34 ==> names[i] == ShiftedName(i)
  {
    seq(34, i requires 0 <= i < 34 => ShiftedName(i))
  }

  lemma {:induction false} EncodedEqual(names: seq<Name>, len: nat)
    requires forall i :: 0 <= i < |names| ==> |names[i]| == len
    ensures |Encode(names)| == |names| * (len + 1)
  {
    if names != [] {
      EncodedEqual(names[1..], len);
    }
  }

  /** The size of j names of 31 bytes and k of 30 after them. */
  lemma ShiftedSize(names: seq<Name>, offset: nat, j: nat, k: nat)
    requires 0 < j + k && offset + j + k <= |names|
    requires forall i :: offset <= i < offset + j ==> |names[i]| == 31
    requires forall i :: offset + j <= i < offset + j + k ==> |names[i]| == 30
    ensures |Encode(Slice(names, offset, j + k))| == j * 32 + k * 31
  {
    var long, short := names[offset..offset + j], names[offset + j..offset + j + k];
    EncodedEqual(long, 31);
    EncodedEqual(short, 30);
    EncodeConcat(long, short);
    assert Slice(names, offset, j + k) == long + short;
  }

  lemma ShiftedAreNames(names: seq<Name>)
    requires names == ShiftedNames()
    ensures AllProper(names) && Distinct(names)
    ensures forall i :: 0 <= i < 34 ==> |names[i]| == if i < 2 then 31 else 30
  {
    assert forall i :: 0 <= i < 34 ==> names[i] == ShiftedName(i);
    forall i, j | 0 <= i < j < 34 ensures names[i] != names[j] {
      assert ShiftedName(i)[0] != ShiftedName(j)[0];
    }
  }

  /** Only the offsets visited matter: here 33 names from offset 1 on would come in one
      response, but the utility asks at 0, where 32 do, and goes on at 16. */
  lemma UnvisitedOverflow(names: seq<Name>)
    requires names == ShiftedNames()
    ensures AllProper(names) && Distinct(names)
    ensures Overfull(names, 1) && Emitted(names, 0, DEVNAMES) == DEVNAMES && UtilitySafe(names, 0)
  {
    ShiftedAreNames(names);
    ShiftedSize(names, 1, 1, 32);
    ShiftedSize(names, 0, 2, 30);
    ShiftedSize(names, 0, 2, 31);
    EmittedIsLongest(names, 0, DEVNAMES);
    assert Admits(names, 0, 32, DEVNAMES) && !Admits(names, 0, 33, DEVNAMES);
    OverflowIff(names, 0, DEVNAMES);
    FewAreSafe(names, 16);
  }

  // ---- Paging -------------------------------------------------------------------------------

  lemma FewNames(names: seq<Name>, offset: nat, k: nat, max: nat)
    requires AllProper(names) && offset + k <= |names| && k <= 3 && k <= max + 1
    ensures Emitted(names, offset, max) >= k
  {
    EmittedIsLongest(names, offset, max);
    EncodedSize(Slice(names, offset, k), NAME_SIZE);
    assert Admits(names, offset, k, max);
  }

  /** A page before the end of the list is never empty. */
  lemma PageNotEmpty(names: seq<Name>, offset: nat, max: nat)
    requires AllProper(names) && offset < |names|
    ensures Emitted(names, offset, max) > 0
  {
    FewNames(names, offset, 1, max);
  }

  /** All pages, when the offset advances by what each page held. */
  function Pages(names: seq<Name>, offset: nat, max: nat): seq<Name>
    decreases |names| - offset
  {
    var k := Emitted(names, offset, max);
    if k == 0 then [] else Page(names, offset, max) + Pages(names, offset + k, max)
  }

  lemma Resume<T>(names: seq<T>, offset: nat, k: nat)
    requires 0 < k && offset + k <= |names|
    ensures names[offset..] == Slice(names, offset, k) + names[offset + k..]
  {
  }

  /** Advancing by the page size lists every device once, in creation order. */
  lemma {:induction false} PagesAreAll(names: seq<Name>, offset: nat, max: nat)
    requires AllProper(names) && offset <= |names|
    ensures Pages(names, offset, max) == names[offset..]
    decreases |names| - offset
  {
    var k := Emitted(names, offset, max);
    if offset < |names| {
      PageNotEmpty(names, offset, max);
      PagesAreAll(names, offset + k, max);
      Resume(names, offset, k);
    }
  }

  /** The names at given positions of the list. */
  function At<T>(names: seq<T>, at: seq<nat>): (r: seq<T>)
    requires forall i :: 0 <= i < |at| ==> at[i] < |names|
    ensures |r| == |at| && forall i :: 0 <= i < |r| ==> r[i] == names[at[i]]
  {
    seq(|at|, i requires 0 <= i < |at| => names[at[i]])
  }

  /** Every second one of k positions, from offset. */
  function EverySecond(offset: nat, k: nat): (r: seq<nat>)
    ensures |r| == (k + 1) / 2 && forall i :: 0 <= i < |r| ==> r[i] == offset + 2 * i
  {
    seq((k + 1) / 2, i requires 0 <= i => offset + 2 * i)
  }

  /** The positions of the devices the utility prints from offset on: its loop over a
      page counts i twice and off once for each name it prints. */
  function Printed(names: seq<Name>, offset: nat): (r: seq<nat>)
    ensures forall i :: 0 <= i < |r| ==> offset <= r[i] < |names|
    decreases |names| - offset
  {
    var k := Emitted(names, offset, DEVNAMES);
    if k == 0 then [] else EverySecond(offset, k) + Printed(names, offset + (k + 1) / 2)
  }

  /** The loop over one page. */
  method PrintPage(names: seq<Name>, start: nat) returns (out: seq<Name>, off: nat)
    ensures out == At(names, EverySecond(0, |names|)) && off == start + (|names| + 1) / 2
  {
    out, off := [], start;
    var i: nat := 0;
    while i < |names|
      invariant i % 2 == 0 && i <= |names| + 1
      invariant off == start + i / 2
      invariant |out| == i / 2 && forall k :: 0 <= k < |out| ==> out[k] == names[2 * k]
    {
      out := out + [names[i]];
      i := i + 1;
      off := off + 1;
      i := i + 1;
    }
  }

  lemma PageAt<T>(names: seq<T>, offset: nat, k: nat)
    requires 0 < k && offset + k <= |names|
    ensures At(Slice(names, offset, k), EverySecond(0, k)) == At(names, EverySecond(offset, k))
  {
  }

  lemma AtConcat<T>(names: seq<T>, a: seq<nat>, b: seq<nat>)
    requires forall i :: 0 <= i < |a| ==> a[i] < |names|
    requires forall i :: 0 <= i < |b| ==> b[i] < |names|
    ensures At(names, a + b) == At(names, a) + At(names, b)
  {
  }

  /** One round of the loop adds one page to what is printed. */
  lemma PrintedNext(names: seq<Name>, offset: nat, k: nat, at: seq<nat>, out: seq<Name>)
    requires 0 < k == Emitted(names, offset, DEVNAMES)
    requires forall i :: 0 <= i < |at| ==> at[i] < |names|
    requires out == At(names, at)
    ensures At(names, at + EverySecond(offset, k)) == out + At(Page(names, offset, DEVNAMES), EverySecond(0, k))
    ensures at + Printed(names, offset) == at + EverySecond(offset, k) + Printed(names, offset + (k + 1) / 2)
  {
    PageAt(names, offset, k);
    AtConcat(names, at, EverySecond(offset, k));
  }

  /** Where the loop stands: the devices at some positions are printed, and what is
      still to come completes them to all there are to print. */
  ghost predicate Underway(devices: seq<Name>, all: seq<nat>, off: nat, ret: nat, at: seq<nat>, printed: seq<Name>) {
    && off <= |devices| && (ret != 0 ==> UtilitySafe(devices, off))
    && (forall i :: 0 <= i < |at| ==> at[i] < |devices|)
    && printed == At(devices, at)
    && all == at + if ret == 0 then [] else Printed(devices, off)
  }

  /** A round of the loop keeps it on its way. */
  lemma RoundDone(devices: seq<Name>, all: seq<nat>, off: nat, at: seq<nat>, printed: seq<Name>, ret: nat,
                  page: seq<Name>, next: nat, more: seq<nat>, out: seq<Name>)
    requires Underway(devices, all, off, 1, at, printed) && ret == Emitted(devices, off, DEVNAMES)
    requires page == At(Page(devices, off, DEVNAMES), EverySecond(0, ret)) && next == off + (ret + 1) / 2
    requires more == at + EverySecond(off, ret) && out == printed + page
    ensures Underway(devices, all, next, ret, more, out)
  {
    if ret > 0 {
      PrintedNext(devices, off, ret, at, printed);
    } else {
      assert EverySecond(off, ret) == [] && EverySecond(0, ret) == [];
      assert more == at && out == printed;
    }
  }

  lemma PageIsSafe(devices: seq<Name>, all: seq<nat>, off: nat, at: seq<nat>, printed: seq<Name>)
    requires Underway(devices, all, off, 1, at, printed)
    ensures Emitted(devices, off, DEVNAMES) <= DEVNAMES
  {
  }

  /** One round of the loop: ask for a page, print from it. */
  method PrintRound(devices: seq<Name>, off: nat) returns (ret: nat, page: seq<Name>, next: nat)
    requires AllProper(devices) && Emitted(devices, off, DEVNAMES) <= DEVNAMES
    ensures ret == Emitted(devices, off, DEVNAMES) && next == off + (ret + 1) / 2
    ensures page == At(Page(devices, off, DEVNAMES), EverySecond(0, ret))
  {
    var names := ListNames(devices, off, DEVNAMES);
    ret := |names|;
    page, next := PrintPage(names, off);
  }

  method PrintNext(devices: seq<Name>, off: nat, printed: seq<Name>, ghost all: seq<nat>, ghost at: seq<nat>)
    returns (ret: nat, out: seq<Name>, next: nat, ghost more: seq<nat>)
    requires AllProper(devices) && Underway(devices, all, off, 1, at, printed)
    ensures Underway(devices, all, next, ret, more, out)
    ensures next > off || (next == off && ret == 0)
  {
    PageIsSafe(devices, all, off, at, printed);
    var page;
    ret, page, next := PrintRound(devices, off);
    out := printed + page;
    more := at + EverySecond(off, ret);
    RoundDone(devices, all, off, at, printed, ret, page, next, more, out);
  }

  lemma Begun(devices: seq<Name>)
    requires UtilitySafe(devices, 0)
    ensures Underway(devices, Printed(devices, 0), 0, 1, [], [])
  {
    assert At(devices, []) == [];
  }

  lemma Done(devices: seq<Name>, all: seq<nat>, off: nat, at: seq<nat>, printed: seq<Name>)
    requires Underway(devices, all, off, 0, at, printed)
    ensures forall i :: 0 <= i < |all| ==> all[i] < |devices|
    ensures printed == At(devices, all)
  {
    assert all == at;
  }

  /** The LIST command of the utility. */
  method ListCommand(devices: seq<Name>) returns (printed: seq<Name>)
    requires AllProper(devices) && UtilitySafe(devices, 0)
    ensures printed == At(devices, Printed(devices, 0))
  {
    Begun(devices);
    ghost var off, at;
    printed, off, at := PrintAll(devices, Printed(devices, 0));
    Done(devices, Printed(devices, 0), off, at, printed);
  }

  /** Its do-while loop. */
  method PrintAll(devices: seq<Name>, ghost all: seq<nat>)
    returns (printed: seq<Name>, ghost end: nat, ghost at: seq<nat>)
    requires AllProper(devices) && Underway(devices, all, 0, 1, [], [])
    ensures Underway(devices, all, end, 0, at, printed)
  {
    var off: nat, ret: nat := 0, 1;
    printed, at := [], [];
    while ret != 0
      invariant Underway(devices, all, off, ret, at, printed)
      decreases |devices| - off, ret
    {
      LoopGoesOn(devices, all, off, ret, at, printed);
      ret, printed, off, at := PrintNext(devices, off, printed, all, at);
    }
    end := off;
  }

  lemma LoopGoesOn(devices: seq<Name>, all: seq<nat>, off: nat, ret: nat, at: seq<nat>, printed: seq<Name>)
    requires ret != 0 && Underway(devices, all, off, ret, at, printed)
    ensures Underway(devices, all, off, 1, at, printed)
  {
  }

  /** With three devices or more, the second is never printed. */
  lemma SecondIsSkipped(names: seq<Name>)
    requires AllProper(names) && |names| >= 3
    ensures 1 !in Printed(names, 0)
  {
    FewNames(names, 0, 3, DEVNAMES);
  }

  lemma PrintedLast(names: seq<Name>, offset: nat)
    requires AllProper(names) && offset <= |names| <= offset + 1
    ensures Printed(names, offset) == if offset == |names| then [] else [offset]
    decreases |names| - offset
  {
    if offset < |names| {
      FewNames(names, offset, 1, DEVNAMES);
      assert EverySecond(offset, 1) == [offset];
      PrintedLast(names, offset + 1);
    }
  }

  lemma PrintedPair(names: seq<Name>)
    requires AllProper(names) && |names| == 2
    ensures Printed(names, 0) == [0, 1]
  {
    FewNames(names, 0, 2, DEVNAMES);
    PrintedLast(names, 1);
    assert Emitted(names, 0, DEVNAMES) == 2;
    assert EverySecond(0, 2) == [0];
  }

  lemma TwoArePrinted(names: seq<Name>)
    requires AllProper(names) && |names| <= 2
    ensures Printed(names, 0) == if names == [] then [] else if |names| == 1 then [0] else [0, 1]
  {
    if |names| < 2 {
      PrintedLast(names, 0);
    } else {
      PrintedPair(names);
    }
  }

  lemma NotAt<T>(names: seq<T>, at: seq<nat>, k: nat)
    requires forall i :: 0 <= i < |at| ==> at[i] < |names|
    requires Distinct(names) && k < |names| && k !in at
    ensures names[k] !in At(names, at)
  {
    forall i | 0 <= i < |at| ensures At(names, at)[i] != names[k] {
      assert at[i] in at;
    }
  }

  /** The utility lists every device, once and in order, exactly when there are at
      most two. */
  lemma {:induction false} ListIsCompleteIff(names: seq<Name>)
    requires AllProper(names) && Distinct(names)
    ensures At(names, Printed(names, 0)) == names <==> |names| <= 2
    ensures (forall i :: 0 <= i < |names| ==> names[i] in At(names, Printed(names, 0))) <==> |names| <= 2
  {
    if |names| >= 3 {
      SecondIsSkipped(names);
      NotAt(names, Printed(names, 0), 1);
      assert names[1] in names;
    } else {
      TwoArePrinted(names);
      assert At(names, Printed(names, 0)) == names;
    }
  }
}
