/**
 Base-128 varints and zigzag numbers: what the Protocol Buffers encoding
 specification says they are, and the firmware's writer for them, which works on
 the two 32-bit halves of the value and never shifts a 64-bit quantity.
 */
module Varint {
  import opened Wrappers

  type Byte = n: nat | n < 256

  const TWO_32: nat := 0x1_0000_0000
  const TWO_63: nat := 0x8000_0000_0000_0000
  const TWO_64: nat := 0x1_0000_0000_0000_0000

  // ---------------------------------------------------------------- specification

  /** Section "Base 128 Varints": seven bits a byte, least significant group first,
      the top bit of a byte set when another byte follows. */
  function Encoded(v: nat): (s: seq<Byte>)
    ensures |s| >= 1
  {
    if v < 128 then [v] else [128 + v % 128] + Encoded(v / 128)
  }

  /** A byte string is one varint: every byte but the last has its top bit set. */
  predicate WellFormed(s: seq<Byte>) {
    s != [] && if |s| == 1 then s[0] < 128 else s[0] >= 128 && WellFormed(s[1..])
  }

  /** The number a well-formed varint stands for. */
  function Value(s: seq<Byte>): nat {
    if s == [] then 0 else s[0] % 128 + 128 * Value(s[1..])
  }

  /** No redundant final zero group. */
  predicate Minimal(s: seq<Byte>) {
    WellFormed(s) && (|s| > 1 ==> s[|s| - 1] != 0)
  }

  /** A decoder that reads one varint from the front of `s`: at most ten bytes, the
      result taken modulo 2^64. Yields the value and the number of bytes read. */
  function Decode(s: seq<Byte>): (r: Option<(nat, nat)>)
    ensures r.Some? ==> 1 <= r.value.1 <= |s| && r.value.1 <= 10 && r.value.0 < TWO_64
  {
    match DecodeGroups(s, 10)
    case None => None
    case Some((v, n)) => Some((v % TWO_64, n))
  }

  function DecodeGroups(s: seq<Byte>, limit: nat): (r: Option<(nat, nat)>)
    ensures r.Some? ==> 1 <= r.value.1 <= |s| && r.value.1 <= limit
  {
    if limit == 0 || s == [] then None
    else if s[0] < 128 then Some((s[0], 1))
    else
      match DecodeGroups(s[1..], limit - 1)
      case None => None
      case Some((v, n)) => Some((s[0] - 128 + 128 * v, n + 1))
  }

  // ------------------------------------------------------------------- properties

  /** `Encoded(v)` is a minimal varint for `v`. */
  lemma {:induction false} EncodedIsMinimal(v: nat)
    ensures Minimal(Encoded(v)) && Value(Encoded(v)) == v
    ensures v > 0 ==> Encoded(v)[|Encoded(v)| - 1] != 0
  {
    if v < 128 {
      assert Encoded(v)[1..] == [];
    } else {
      EncodedIsMinimal(v / 128);
      assert Encoded(v)[1..] == Encoded(v / 128);
    }
  }

  /** ... and the only one. */
  lemma {:induction false} MinimalFormUnique(s: seq<Byte>)
    requires Minimal(s)
    ensures s == Encoded(Value(s))
  {
    if |s| == 1 {
      assert s[1..] == [] && s == [s[0]];
    } else {
      var t := s[1..];
      MinimalFormUnique(t);
      assert Value(t) != 0;
      assert s == [s[0]] + t;
      assert Value(s) / 128 == Value(t) && Value(s) % 128 == s[0] - 128;
    }
  }

  /** Any varint for a number is at least as long as its encoding. */
  lemma {:induction false} EncodedIsShortest(s: seq<Byte>)
    requires WellFormed(s)
    ensures |Encoded(Value(s))| <= |s|
  {
    if |s| == 1 {
      assert s[1..] == [];
    } else {
      var t := s[1..];
      EncodedIsShortest(t);
      assert Value(s) / 128 == Value(t);
    }
  }

  function Pow128(n: nat): (p: nat)
    ensures p >= 1
  {
    if n == 0 then 1 else 128 * Pow128(n - 1)
  }

  lemma {:induction false} LengthWithin(v: nat, n: nat)
    requires n >= 1 && v < Pow128(n)
    ensures |Encoded(v)| <= n
  {
    if v >= 128 {
      assert n != 1 by { assert Pow128(1) == 128 * Pow128(0); }
      LengthWithin(v / 128, n - 1);
    }
  }

  /** Lengths that matter: one byte below 128, two below 16384, five for 32-bit and
      ten for 64-bit values. */
  lemma EncodedLength(v: nat)
    ensures v < 128 ==> |Encoded(v)| == 1
    ensures v < 16384 ==> |Encoded(v)| <= 2
    ensures v < TWO_32 ==> |Encoded(v)| <= 5
    ensures v < TWO_64 ==> |Encoded(v)| <= 10
  {
    assert Pow128(2) == 16384;
    assert Pow128(5) == Pow128(2) * Pow128(2) * 128 == 34359738368;
    assert Pow128(10) == Pow128(5) * 34359738368 by {
      assert Pow128(6) == 128 * Pow128(5); assert Pow128(7) == 128 * Pow128(6);
      assert Pow128(8) == 128 * Pow128(7); assert Pow128(9) == 128 * Pow128(8);
      assert Pow128(10) == 128 * Pow128(9);
    }
    if v < 16384 { LengthWithin(v, 2); }
    if v < TWO_32 { LengthWithin(v, 5); }
    if v < TWO_64 { LengthWithin(v, 10); }
  }

  lemma {:induction false} DecodeGroupsEncoded(v: nat, rest: seq<Byte>, limit: nat)
    requires |Encoded(v)| <= limit
    ensures DecodeGroups(Encoded(v) + rest, limit) == Some((v, |Encoded(v)|))
  {
    var s := Encoded(v) + rest;
    if v >= 128 {
      DecodeGroupsEncoded(v / 128, rest, limit - 1);
      assert s[1..] == Encoded(v / 128) + rest;
    }
  }

  /** Byte `k` holds the seven bits of weight 128^k, and the top bit exactly if it is not the last. */
  lemma {:induction false} GroupAt(v: nat, k: nat)
    requires k < |Encoded(v)|
    ensures Encoded(v)[k] == v / Pow128(k) % 128 + if k + 1 < |Encoded(v)| then 128 else 0
    decreases k
  {
    if k > 0 {
      GroupAt(v / 128, k - 1);
      DivideTwice(v, 128, Pow128(k - 1));
    }
  }

  lemma DivideTwice(v: nat, b: nat, p: nat)
    requires b > 0 && p > 0
    ensures v / b / p == v / (b * p)
  {
    var n := b * p;
    var q := v / n;
    assert n * q <= v < n * q + n;
    Regroup(b, p, q);
    QuotientBounds(v, b, p * q);
    QuotientBounds(v, b, p * q + p);
    QuotientIs(v / b, p, q);
  }

  lemma Regroup(b: nat, p: nat, q: nat)
    ensures b * (p * q) == b * p * q && b * (p * q + p) == b * p * q + b * p
  {}

  lemma QuotientBounds(v: nat, b: nat, x: nat)
    requires b > 0
    ensures b * x <= v ==> x <= v / b
    ensures v < b * x ==> v / b < x
  {
    var r := v / b;
    assert b * r <= v < b * r + b;
    assert r + 1 <= x ==> b * (r + 1) <= b * x;
    assert x <= r ==> b * x <= b * r;
  }

  lemma QuotientIs(x: nat, p: nat, q: nat)
    requires p > 0 && p * q <= x < p * q + p
    ensures x / p == q
  {
    var r := x / p;
    assert p * r <= x < p * r + p;
    assert r + 1 <= q ==> p * (r + 1) <= p * q;
    assert q + 1 <= r ==> p * (q + 1) <= p * r;
  }

  /** Reading back what was written, whatever follows it. */
  lemma DecodeEncoded(v: nat, rest: seq<Byte>)
    requires v < TWO_64
    ensures Decode(Encoded(v) + rest) == Some((v, |Encoded(v)|))
  {
    WithinTen(v);
    DecodeGroupsEncoded(v, rest, 10);
  }

  lemma WithinTen(v: nat)
    requires v < TWO_64
    ensures |Encoded(v)| <= 10
  {
    EncodedLength(v);
  }

  // ------------------------------------------------------------ the split writer

  /** Weight of the high half once `i` groups have left the low half: 2^(32 - 7i). */
  function HighWeight(i: nat): nat
    requires i <= 4
  {
    match i
    case 0 => 0x1_0000_0000
    case 1 => 0x200_0000
    case 2 => 0x4_0000
    case 3 => 0x800
    case 4 => 0x10
  }

  /** What is still to be written when `byte` is pending. */
  function Pending(i: nat, byte: nat, low: nat, high: nat): nat
    requires i <= 4
  {
    byte + 128 * low + high * HighWeight(i)
  }

  lemma PendingStep(i: nat, byte: nat, low: nat, high: nat)
    requires i < 4 && byte < 128 && (low != 0 || high != 0)
    requires byte + 128 * low < HighWeight(i)
    ensures low % 128 + 128 * (low / 128) < HighWeight(i + 1)
    ensures Pending(i, byte, low, high) >= 128
    ensures Encoded(Pending(i, byte, low, high))
         == [128 + byte] + Encoded(Pending(i + 1, low % 128, low / 128, high))
  {
    var next := low + high * HighWeight(i + 1);
    assert Pending(i + 1, low % 128, low / 128, high) == next;
    assert high * HighWeight(i) == 128 * (high * HighWeight(i + 1));
    var p := Pending(i, byte, low, high);
    assert p == byte + 128 * next;
    assert next > 0 by { if high > 0 { assert high * HighWeight(i + 1) > 0; } }
    assert p / 128 == next && p % 128 == byte;
  }

  lemma GroupStep(byte: nat, high: nat)
    requires byte < 128 && high > 0
    ensures Encoded(byte + 128 * high) == [128 + byte] + Encoded(high % 128 + 128 * (high / 128))
  {
    var p := byte + 128 * high;
    assert p / 128 == high && p % 128 == byte;
  }

  /** Moving one byte from a pending suffix into the buffer keeps the concatenation. */
  lemma Flush(before: seq<Byte>, after: seq<Byte>, b: Byte, p: nat, p': nat, v: nat)
    requires before + Encoded(p) == Encoded(v)
    requires Encoded(p) == [b] + Encoded(p')
    requires after == before + [b]
    ensures after + Encoded(p') == Encoded(v)
  {
    assert before + ([b] + Encoded(p')) == (before + [b]) + Encoded(p');
  }

  /** The fifth byte takes the remaining four low bits and the low three high bits. */
  lemma SplitFifth(byte: nat, high: nat)
    requires byte < 16 && high < TWO_32
    ensures Pending(4, byte, 0, high) == byte + (high % 8) * 16 + 128 * (high / 8)
    ensures byte + (high % 8) * 16 < 128 && high / 8 < Pow128(5)
  {
    assert Pow128(5) == 128 * Pow128(4); assert Pow128(4) == 16384 * Pow128(2);
  }

  /**
   First loop of the split writer: up to four groups of the low half.
   C's `x & 0x7F`, `x >>= 7`, `byte |= 0x80` and `byte | ((high & 7) << 4)` are written
   as arithmetic; each `|` joins disjoint bits, which the contracts maintain.
   */
  method LowGroups(buffer: array<Byte>, low0: nat, high: nat) returns (i: nat, byte: nat)
    requires buffer.Length == 10 && low0 < TWO_32
    modifies buffer
    ensures i <= 4 && byte < 128 && (high != 0 ==> i == 4 && byte < 16)
    ensures buffer[..i] + Encoded(byte + 16 * high) == Encoded(low0 + high * TWO_32)
  {
    ghost var v := low0 + high * TWO_32;
    i := 0;
    byte := low0 % 128;
    var low := low0 / 128;
    assert Pending(0, byte, low, high) == v;
    while i < 4 && (low != 0 || high != 0)
      invariant i <= 4 && byte < 128 && low >= 0
      invariant byte + 128 * low < HighWeight(i)
      invariant buffer[..i] + Encoded(Pending(i, byte, low, high)) == Encoded(v)
      decreases 4 - i
    {
      PendingStep(i, byte, low, high);
      ghost var before, p := buffer[..i], Pending(i, byte, low, high);
      buffer[i] := byte + 128;
      Flush(before, buffer[..i + 1], byte + 128, p, Pending(i + 1, low % 128, low / 128, high), v);
      i, byte, low := i + 1, low % 128, low / 128;
    }
  }

  /** Second loop: what is left of the high half, in groups of seven. */
  method HighGroups(buffer: array<Byte>, start: nat, byte0: nat, high0: nat, ghost v: nat)
    returns (i: nat, byte: nat)
    requires buffer.Length == 10 && start == 4 && byte0 < 128 && high0 < Pow128(5)
    requires buffer[..start] + Encoded(byte0 + 128 * high0) == Encoded(v)
    modifies buffer
    ensures start <= i <= 9 && byte < 128
    ensures buffer[..i] + Encoded(byte) == Encoded(v)
  {
    i, byte := start, byte0;
    var high: nat := high0;
    while high != 0
      invariant 4 <= i <= 9 && byte < 128 && high < Pow128(9 - i)
      invariant buffer[..i] + Encoded(byte + 128 * high) == Encoded(v)
      decreases high
    {
      GroupStep(byte, high);
      ghost var before, p := buffer[..i], byte + 128 * high;
      buffer[i] := byte + 128;
      Flush(before, buffer[..i + 1], byte + 128, p, high % 128 + 128 * (high / 128), v);
      i, byte, high := i + 1, high % 128, high / 128;
    }
  }

  /** The whole split writer: fills a ten-byte buffer and says how much of it to send. */
  method EncodeSplit(low: nat, high: nat) returns (buffer: array<Byte>, i: nat)
    requires low < TWO_32 && high < TWO_32
    ensures fresh(buffer) && buffer.Length == 10 && 1 <= i <= 10
    ensures buffer[..i] == Encoded(low + high * TWO_32)
  {
    buffer := new Byte[10](_ => 0);
    var byte;
    i, byte := LowGroups(buffer, low, high);
    if high != 0 {
      SplitFifth(byte, high);
      i, byte := HighGroups(buffer, i, byte + (high % 8) * 16, high / 8, low + high * TWO_32);
    }
    ghost var before := buffer[..i];
    assert before + [byte] == Encoded(low + high * TWO_32);
    buffer[i] := byte;
    i := i + 1;
    assert buffer[..i] == before + [byte];
  }

  /** The bytes handed to the stream: one directly below 0x80, otherwise the split form. */
  method EncodeVarint(v: nat) returns (bytes: seq<Byte>)
    requires v < TWO_64
    ensures bytes == Encoded(v) && 1 <= |bytes| <= 10
  {
    if v <= 0x7F {
      bytes := [v];
    } else {
      var buffer, i := EncodeSplit(v % TWO_32, v / TWO_32);
      bytes := buffer[..i];
    }
  }

  // ----------------------------------------------------------------------- zigzag

  predicate IsInt64(x: int) { -0x8000_0000_0000_0000 <= x < TWO_63 }

  /** An int64 reinterpreted as uint64. */
  function ToUnsigned(x: int): (u: nat)
    requires IsInt64(x)
    ensures u < TWO_64
  {
    if x < 0 then x + TWO_64 else x
  }

  function ToSigned(u: nat): (x: int)
    requires u < TWO_64
    ensures IsInt64(x)
  {
    if u < TWO_63 then u else u - TWO_64
  }

  /** As the writer computes it: mask to 63 bits, shift left, complement when negative. */
  function Zigzag(x: int): (z: nat)
    requires IsInt64(x)
    ensures z < TWO_64
  {
    if x < 0 then TWO_64 - 1 - (ToUnsigned(x) % TWO_63) * 2
    else ToUnsigned(x) * 2 % TWO_64
  }

  /** Section "Signed Integers": 0, -1, 1, -2, ... are numbered 0, 1, 2, 3, ... */
  function Unzigzag(z: nat): int {
    if z % 2 == 0 then z / 2 else -(z / 2) - 1
  }

  lemma ZigzagRoundTrip(x: int)
    requires IsInt64(x)
    ensures Unzigzag(Zigzag(x)) == x
    ensures ToSigned(ToUnsigned(x)) == x
    ensures Zigzag(x) == if x >= 0 then 2 * x else -2 * x - 1
    ensures (ToUnsigned(x) - x) % TWO_64 == 0
  {
    if x < 0 { assert ToUnsigned(x) % TWO_63 == x + TWO_63; }
  }

  /** Decoding a written signed varint returns the signed value, for every int64. */
  lemma SvarintRoundTrip(x: int, rest: seq<Byte>)
    requires IsInt64(x)
    ensures Decode(Encoded(Zigzag(x)) + rest).Some?
    ensures Unzigzag(Decode(Encoded(Zigzag(x)) + rest).value.0) == x
  {
    ZigzagRoundTrip(x);
    DecodeEncoded(Zigzag(x), rest);
  }
}
