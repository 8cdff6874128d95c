/** The unsigned varint encoding of Go's `encoding/binary` package (`PutUvarint`, `Uvarint`,
    `MaxVarintLen64`), which the stored counter uses for its persisted bytes. It is the
    "Base 128 Varints" format of Protocol Buffers: seven value bits per byte, least
    significant group first, the high bit set on every byte but the last. */
module Binary {
  import opened Primitives

  /** The longest encoding of a `uint64`. */
  const MaxVarintLen64: nat := 10

  function Pow128(k: nat): (p: nat)
    ensures 1 <= p
  {
    if k == 0 then 1 else 0x80 * Pow128(k - 1)
  }

  /** 2 * 128^9 is 2^64, so `x < 2 * Pow128(9)` is exactly "x fits in a uint64". */
  lemma Pow128Nine()
    ensures 2 * Pow128(9) == TWO_TO_THE_64
  {
  }

  /** The bytes `PutUvarint(buf, x)` writes: the low seven bits of `x` with the continuation
      bit set while `x >= 0x80`, then the last group with the bit clear. */
  function Encode(x: nat): (bs: seq<byte>)
    ensures 1 <= |bs|
    decreases x
  {
    if x < 0x80 then [x] else [x % 0x80 + 0x80] + Encode(x / 0x80)
  }

  /** In an encoding, every byte but the last carries the continuation bit, so a reader knows
      where the value ends. */
  lemma {:induction false} EncodeContinuation(x: nat)
    ensures Encode(x)[|Encode(x)| - 1] < 0x80
    ensures forall i :: 0 <= i < |Encode(x)| - 1 ==> 0x80 <= Encode(x)[i]
    decreases x
  {
    if x >= 0x80 {
      EncodeContinuation(x / 0x80);
    }
  }

  /** Go's `binary.PutUvarint(buf, x)`: writes `Encode(x)` into the front of `buf` and returns
      its length. Go panics on a buffer that is too short; the caller here always passes a
      buffer of `MaxVarintLen64` bytes, which `EncodeLength` shows is enough. */
  method PutUvarint(buf: array<byte>, x: uint64) returns (size: nat)
    requires |Encode(x)| <= buf.Length
    modifies buf
    ensures size == |Encode(x)|
    ensures buf[..size] == Encode(x)
    ensures buf[size..] == old(buf[size..])
  {
    var i := 0;
    var y: nat := x;
    ghost var written: seq<byte> := [];
    while y >= 0x80
      invariant i == |written| && written + Encode(y) == Encode(x)
      invariant buf[..i] == written
      invariant buf[i..] == old(buf[i..])
      decreases y
    {
      // byte(y) | 0x80 in Go: the low seven bits with the continuation bit set
      var b := y % 0x80 + 0x80;
      assert Encode(y) == [b] + Encode(y / 0x80);
      buf[i] := b;
      written := written + [b];
      y := y / 0x80;
      i := i + 1;
    }
    buf[i] := y;
    written := written + [y];
    size := i + 1;
  }

  /** Go's `binary.Uvarint(buf)` read from index `i` on: the value of the bytes from `i` and the
      count Go returns, which is the index after the last byte read (> 0), 0 when the buffer
      ends before the last byte, or -(j + 1) when byte j overflows 64 bits. On either error the
      value is 0, as in Go. */
  function UvarintFrom(buf: seq<byte>, i: nat): (r: (nat, int))
    requires i <= |buf|
    decreases |buf| - i
  {
    if i == |buf| then (0, 0)
    else if i == MaxVarintLen64 then (0, -(i + 1))
    else if buf[i] < 0x80 then
      if i == MaxVarintLen64 - 1 && buf[i] > 1 then (0, -(i + 1)) else (buf[i], i + 1)
    else
      var (v, n) := UvarintFrom(buf, i + 1);
      // x |= uint64(b & 0x7f) << s in Go; the groups occupy disjoint bits, so | is +
      if n <= 0 then (0, n) else (buf[i] - 0x80 + 0x80 * v, n)
  }

  /** What `UvarintFrom` reads from index `i` fits in the bits that remain above `7 * i`, and a
      successful read ends within the buffer and within `MaxVarintLen64` bytes. */
  lemma {:induction false} UvarintFromBounds(buf: seq<byte>, i: nat)
    requires i <= |buf| && i <= MaxVarintLen64
    ensures UvarintFrom(buf, i).1 <= 0 ==> UvarintFrom(buf, i).0 == 0
    ensures UvarintFrom(buf, i).1 > 0 ==>
              && i < UvarintFrom(buf, i).1 <= |buf|
              && UvarintFrom(buf, i).1 <= MaxVarintLen64
              && UvarintFrom(buf, i).0 < 2 * Pow128(MaxVarintLen64 - 1 - i)
    decreases |buf| - i
  {
    if i < MaxVarintLen64 - 1 {
      assert Pow128(MaxVarintLen64 - 1 - i) == 0x80 * Pow128(MaxVarintLen64 - 2 - i);
    }
    if i < |buf| && i < MaxVarintLen64 && buf[i] >= 0x80 {
      UvarintFromBounds(buf, i + 1);
      var (v, n) := UvarintFrom(buf, i + 1);
      if n > 0 {
        var p := Pow128(MaxVarintLen64 - 2 - i);
        assert Pow128(MaxVarintLen64 - 1 - i) == 0x80 * p;
        assert v <= 2 * p - 1;
        assert buf[i] - 0x80 + 0x80 * v < 0x80 + 0x80 * (2 * p - 1);
      }
    }
  }

  /** Go's `binary.Uvarint(buf)`: the decoded `uint64` and the number of bytes read (> 0), or
      value 0 with 0 (buffer too short) or a negative count (overflow). */
  function Uvarint(buf: seq<byte>): (r: (uint64, int))
    ensures r.1 <= 0 ==> r.0 == 0
    ensures r.1 > 0 ==> r.1 <= |buf| && r.1 <= MaxVarintLen64
  {
    UvarintFromBounds(buf, 0);
    Pow128Nine();
    UvarintFrom(buf, 0)
  }

  /** Decoding, from any position `i` of a buffer, the bytes `Encode` produced for a value that
      fits in the bits left above `7 * i` gives the value back and stops right after them. */
  lemma {:induction false} UvarintFromEncode(buf: seq<byte>, i: nat, x: nat)
    requires i < MaxVarintLen64 && x < 2 * Pow128(MaxVarintLen64 - 1 - i)
    requires i + |Encode(x)| <= |buf| && buf[i..i + |Encode(x)|] == Encode(x)
    ensures UvarintFrom(buf, i) == (x, i + |Encode(x)|)
    decreases x
  {
    assert buf[i] == Encode(x)[0];
    if x >= 0x80 {
      if i == MaxVarintLen64 - 1 {
        assert false;
      }
      var rest := Encode(x / 0x80);
      assert Encode(x) == [x % 0x80 + 0x80] + rest;
      assert buf[i + 1..i + 1 + |rest|] == rest by {
        assert buf[i + 1..i + 1 + |rest|] == buf[i..i + |Encode(x)|][1..];
      }
      assert Pow128(MaxVarintLen64 - 1 - i) == 0x80 * Pow128(MaxVarintLen64 - 1 - (i + 1));
      UvarintFromEncode(buf, i + 1, x / 0x80);
    }
  }

  /** Round trip: `Uvarint` reads back every `uint64` that `PutUvarint` wrote, and reads
      exactly the bytes written, whatever follows them. */
  lemma UvarintEncode(x: uint64, suffix: seq<byte>)
    ensures Uvarint(Encode(x) + suffix) == (x, |Encode(x)|)
  {
    Pow128Nine();
    var buf := Encode(x) + suffix;
    assert buf[0..|Encode(x)|] == Encode(x);
    UvarintFromEncode(buf, 0, x);
  }

  /** A value below 2 * 128^k takes at most k + 1 bytes. */
  lemma {:induction false} EncodeLengthBelow(x: nat, k: nat)
    requires x < 2 * Pow128(k)
    ensures |Encode(x)| <= k + 1
    decreases x
  {
    if x >= 0x80 {
      assert k > 0;
      assert Pow128(k) == 0x80 * Pow128(k - 1);
      EncodeLengthBelow(x / 0x80, k - 1);
    }
  }

  /** Every `uint64` encodes in at most `MaxVarintLen64` bytes, so the 10-byte buffer the
      counter allocates before `PutUvarint` is always large enough. */
  lemma EncodeLength(x: uint64)
    ensures |Encode(x)| <= MaxVarintLen64
  {
    Pow128Nine();
    EncodeLengthBelow(x, MaxVarintLen64 - 1);
  }
}
