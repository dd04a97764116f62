/** Machine words as the tunnel passes them through buffers: 64-bit, little-endian. */
module Words {
  import opened Segments

  const WORD_BYTES: nat := 8
  const WORD_LIMIT: nat := 0x1_0000_0000_0000_0000

  function Pow256(k: nat): nat {
    if k == 0 then 1 else 256 * Pow256(k - 1)
  }

  /** The k low-order bytes of n, least significant first. */
  function Bytes(n: nat, k: nat): (s: seq<byte>)
    ensures |s| == k
  {
    if k == 0 then [] else [n % 256] + Bytes(n / 256, k - 1)
  }

  /** The digit of n of weight 256 to the k. */
  function Digit(n: nat, k: nat): byte {
    if k == 0 then n % 256 else Digit(n / 256, k - 1)
  }

  /** The low digit comes first. */
  lemma {:induction false} ByteAt(n: nat, len: nat, k: nat)
    requires k < len
    ensures Bytes(n, len)[k] == Digit(n, k)
  {
    if k > 0 {
      ByteAt(n / 256, len - 1, k - 1);
    }
  }

  function Value(s: seq<byte>): nat {
    if s == [] then 0 else s[0] + 256 * Value(s[1..])
  }

  lemma {:induction false} ValueOfBytes(n: nat, k: nat)
    requires n < Pow256(k)
    ensures Value(Bytes(n, k)) == n
  {
    if k > 0 {
      ValueOfBytes(n / 256, k - 1);
      assert Bytes(n, k)[1..] == Bytes(n / 256, k - 1);
    }
  }

  function Word(n: nat): (s: seq<byte>)
    ensures |s| == WORD_BYTES
  {
    Bytes(n, WORD_BYTES)
  }

  lemma WordRoundTrip(n: nat)
    requires n < WORD_LIMIT
    ensures Value(Word(n)) == n
  {
    var a := Pow256(4);
    assert a == 0x1_0000_0000;
    assert Pow256(8) == 256 * (256 * (256 * (256 * a)));
    ValueOfBytes(n, WORD_BYTES);
  }

  /** struct bdtun_txreq */
  datatype TxReq = TxReq(id: nat, flags: nat, offset: nat, size: nat)

  const HEADER_SIZE: nat := 32

  function Header(r: TxReq): (s: seq<byte>)
    ensures |s| == HEADER_SIZE
  {
    Word(r.id) + Word(r.flags) + Word(r.offset) + Word(r.size)
  }

  /** The four fields in the order of the structure, each with its low byte first. */
  lemma {:induction false} HeaderLayout(r: TxReq, k: nat)
    requires k < WORD_BYTES
    ensures Header(r)[k] == Digit(r.id, k) && Header(r)[8 + k] == Digit(r.flags, k)
    ensures Header(r)[16 + k] == Digit(r.offset, k) && Header(r)[24 + k] == Digit(r.size, k)
  {
    ByteAt(r.id, WORD_BYTES, k);
    ByteAt(r.flags, WORD_BYTES, k);
    ByteAt(r.offset, WORD_BYTES, k);
    ByteAt(r.size, WORD_BYTES, k);
  }

  function Parse(s: seq<byte>): TxReq
    requires |s| == HEADER_SIZE
  {
    TxReq(Value(s[..8]), Value(s[8..16]), Value(s[16..24]), Value(s[24..]))
  }

  lemma HeaderRoundTrip(r: TxReq)
    requires r.id < WORD_LIMIT && r.flags < WORD_LIMIT && r.offset < WORD_LIMIT && r.size < WORD_LIMIT
    ensures Parse(Header(r)) == r
  {
    WordRoundTrip(r.id);
    WordRoundTrip(r.flags);
    WordRoundTrip(r.offset);
    WordRoundTrip(r.size);
    var s := Header(r);
    assert s[..8] == Word(r.id);
    assert s[8..16] == Word(r.flags);
    assert s[16..24] == Word(r.offset);
    assert s[24..] == Word(r.size);
  }
}
