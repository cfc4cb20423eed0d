/** Unsigned big-endian integers of any width, as read by Python's
    `int.from_bytes(bytes, "big")`: the first byte is the most significant
    one and the empty byte string reads as 0. */
module BigEndian {

  /** One octet of a `bytearray`. */
  type Byte = x: int | 0 <= x < 256

  /** 256 to the power `w`: one more than the largest value `w` bytes can hold. */
  function Pow256(w: nat): (r: nat)
    ensures r >= 1
    ensures w > 0 ==> r >= 256
  {
    if w == 0 then 1 else 256 * Pow256(w - 1)
  }

  /** The value of `s` read most significant byte first. */
  function FromBytes(s: seq<Byte>): (v: nat)
    ensures v < Pow256(|s|)
    decreases |s|
  {
    if |s| == 0 then 0
    else
      var high := FromBytes(s[..|s| - 1]);
      assert high * 256 <= (Pow256(|s| - 1) - 1) * 256;
      high * 256 + s[|s| - 1]
  }

  /** The first byte is the most significant one: it weighs 256 to the
      power of the number of bytes after it. */
  lemma {:induction false} FromBytesFirstByte(s: seq<Byte>)
    requires |s| > 0
    ensures FromBytes(s) == s[0] * Pow256(|s| - 1) + FromBytes(s[1..])
    decreases |s|
  {
    if |s| > 1 {
      var n := |s|;
      var p := s[..n - 1];
      var tail := s[1..];
      var last := s[n - 1];
      FromBytesFirstByte(p);
      assert p[1..] == tail[..n - 2];
      assert tail[n - 2] == last;
      var rest := FromBytes(tail[..n - 2]);
      assert FromBytes(s) == FromBytes(p) * 256 + last;
      assert FromBytes(p) == s[0] * Pow256(n - 2) + rest;
      assert FromBytes(tail) == rest * 256 + last;
      ShiftByOneByte(s[0], Pow256(n - 2), rest, last);
    }
  }

  /** Appending a byte multiplies the weight of every earlier byte by 256. */
  lemma ShiftByOneByte(first: int, weight: int, rest: int, last: int)
    ensures (first * weight + rest) * 256 + last == first * (256 * weight) + (rest * 256 + last)
  {
  }

  /** The `w`-byte big-endian encoding of `v`. */
  function ToBytes(v: nat, w: nat): (s: seq<Byte>)
    requires v < Pow256(w)
    ensures |s| == w
    ensures w > 0 ==> s[w - 1] == v % 256
    decreases w
  {
    if w == 0 then []
    else
      assert v / 256 < Pow256(w - 1);
      ToBytes(v / 256, w - 1) + [v % 256]
  }

  /** Splitting `high * 256 + b` at the last byte gives back `high` and `b`. */
  lemma SplitLastByte(high: nat, b: Byte)
    ensures (high * 256 + b) / 256 == high
    ensures (high * 256 + b) % 256 == b
  {
  }

  /** Encoding a value that fits in `w` bytes and reading it back yields the value. */
  lemma {:induction false} FromBytesToBytes(v: nat, w: nat)
    requires v < Pow256(w)
    ensures FromBytes(ToBytes(v, w)) == v
    decreases w
  {
    if w > 0 {
      var s := ToBytes(v, w);
      assert s[..w - 1] == ToBytes(v / 256, w - 1);
      FromBytesToBytes(v / 256, w - 1);
    }
  }

  /** Reading a byte string and re-encoding it at the same width gives the
      same bytes, leading zero bytes included. */
  lemma {:induction false} ToBytesFromBytes(s: seq<Byte>)
    ensures ToBytes(FromBytes(s), |s|) == s
    decreases |s|
  {
    if |s| > 0 {
      var prefix := s[..|s| - 1];
      var high := FromBytes(prefix);
      SplitLastByte(high, s[|s| - 1]);
      ToBytesFromBytes(prefix);
      assert s == prefix + [s[|s| - 1]];
    }
  }

  /** Two byte strings of the same width read as the same value only when
      they are equal. */
  lemma FromBytesInjective(a: seq<Byte>, b: seq<Byte>)
    requires |a| == |b|
    ensures FromBytes(a) == FromBytes(b) <==> a == b
  {
    if FromBytes(a) == FromBytes(b) {
      ToBytesFromBytes(a);
      ToBytesFromBytes(b);
    }
  }
}
