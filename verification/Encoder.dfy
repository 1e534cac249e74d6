/**
 The firmware's protobuf encoder: an output stream that either writes into a bounded
 buffer or only counts, and the encoding routines over it. A submessage is encoded
 twice, first on a counting stream to learn its length, then for real.
 */
module Encoder {
  import opened Wrappers
  import opened Varint
  import opened WireFormat
  import opened Message
  import Seqs

  /** `SizeChanged` is the encoder's "submsg size changed" error. */
  datatype Outcome = Ok | StreamFull | Rejected | SizeChanged

  // ------------------------------------------------------------- stream states

  /** What a stream's mutable state amounts to: the destination bytes, the position of
      the next write in them, and the number of bytes written so far. */
  datatype View = View(contents: seq<Byte>, cursor: nat, written: nat)

  function Patch(s: seq<Byte>, at: nat, data: seq<Byte>): (r: seq<Byte>)
    requires at + |data| <= |s|
    ensures |r| == |s|
  {
    s[..at] + data + s[at + |data|..]
  }

  predicate HasRoom(v: View, writing: bool, n: nat) {
    writing ==> v.cursor + n <= |v.contents|
  }

  /** The state after appending `data`; a counting stream only counts. */
  function Push(v: View, writing: bool, data: seq<Byte>): View
    requires HasRoom(v, writing, |data|)
  {
    if writing then View(Patch(v.contents, v.cursor, data), v.cursor + |data|, v.written + |data|)
    else v.(written := v.written + |data|)
  }

  lemma PushPush(v: View, writing: bool, a: seq<Byte>, b: seq<Byte>)
    requires HasRoom(v, writing, |a| + |b|)
    ensures HasRoom(v, writing, |a|) && HasRoom(Push(v, writing, a), writing, |b|)
    ensures Push(Push(v, writing, a), writing, b) == Push(v, writing, a + b)
  {
    if writing {
      var s, c := v.contents, v.cursor;
      var p := Patch(s, c, a);
      assert p[..c + |a|] == s[..c] + a;
      assert p[c + |a| + |b|..] == s[c + |a| + |b|..];
      assert (s[..c] + a) + b == s[..c] + (a + b);
    }
  }

  /** `w` is reachable from `v` by writes that stayed within the stream's limit: nothing
      before the cursor and nothing past the limit has changed. */
  predicate Confined(v: View, w: View, writing: bool, limit: nat) {
    if writing then
      && |w.contents| == |v.contents|
      && v.written <= w.written <= limit
      && w.cursor - v.cursor == w.written - v.written
      && v.cursor + (limit - v.written) <= |v.contents|
      && w.contents[..v.cursor] == v.contents[..v.cursor]
      && w.contents[v.cursor + (limit - v.written)..] == v.contents[v.cursor + (limit - v.written)..]
    else
      w.contents == v.contents && w.cursor == v.cursor
  }

  lemma PushConfined(v: View, writing: bool, data: seq<Byte>, limit: nat)
    requires writing ==> v.written + |data| <= limit && v.cursor + (limit - v.written) <= |v.contents|
    ensures Confined(v, Push(v, writing, data), writing, limit)
  {
  }

  lemma ConfinedTransitive(u: View, v: View, w: View, writing: bool, limit: nat)
    requires Confined(u, v, writing, limit) && Confined(v, w, writing, limit)
    ensures Confined(u, w, writing, limit)
  {
    if writing {
      assert w.contents[..u.cursor] == w.contents[..v.cursor][..u.cursor];
      assert v.contents[..u.cursor] == v.contents[..v.cursor][..u.cursor];
    }
  }

  // ------------------------------------------------------------------ the stream

  class OStream {
    const writing: bool      // false for a counting stream
    const buf: array<Byte>
    const maxSize: nat
    var cursor: nat
    var written: nat

    predicate Valid()
      reads this
    {
      writing ==> written <= maxSize && cursor + (maxSize - written) <= buf.Length
    }

    function State(): View
      reads this, buf
    {
      View(buf[..], cursor, written)
    }

    predicate Fits(n: nat)
      reads this
    {
      writing ==> written + n <= maxSize
    }

    constructor Sizing()
      ensures Valid() && !writing && written == 0 && fresh(buf)
    {
      writing, maxSize, cursor, written := false, 0, 0, 0;
      buf := new Byte[0];
    }

    constructor ToBuffer(buf: array<Byte>, start: nat, maxSize: nat)
      requires start + maxSize <= buf.Length
      ensures Valid() && writing && this.buf == buf && this.maxSize == maxSize
      ensures cursor == start && written == 0
    {
      this.writing, this.buf, this.maxSize := true, buf, maxSize;
      cursor, written := start, 0;
    }

    /** Appends `data` or reports "stream full" and changes nothing. */
    method Write(data: seq<Byte>) returns (r: Outcome)
      requires Valid()
      modifies this, buf
      ensures Valid() && (r == Ok || r == StreamFull)
      ensures r.Ok? <==> old(Fits(|data|))
      ensures r.Ok? ==> State() == Push(old(State()), writing, data)
      ensures !r.Ok? ==> State() == old(State())
    {
      if |data| > 0 && writing {
        if written + |data| > maxSize {
          return StreamFull;
        }
        forall i | 0 <= i < |data| {
          buf[cursor + i] := data[i];
        }
        cursor := cursor + |data|;
      }
      written := written + |data|;
      r := Ok;
    }

    /** A write without data on a counting stream. */
    method Count(n: nat)
      requires Valid() && !writing
      modifies this
      ensures Valid() && cursor == old(cursor) && written == old(written) + n
    {
      written := written + n;
    }
  }

  // ------------------------------------------------------- what a routine must do

  /** The contract of every encoding routine whose reference output is `e`: it succeeds
      exactly when there is an output and it fits, then the stream has advanced by that
      output; in any case only bytes between cursor and limit were touched, and the
      length found by the counting pass was never contradicted. */
  predicate Encodes(v: View, w: View, writing: bool, limit: nat, e: Option<seq<Byte>>, r: Outcome) {
    && r != SizeChanged
    && (r.Ok? <==> e.Some? && (writing ==> v.written + |e.value| <= limit))
    && (r.Ok? ==> HasRoom(v, writing, |e.value|) && w == Push(v, writing, e.value))
    && Confined(v, w, writing, limit)
  }

  /** Routines compose: after `a` succeeded, running `b` encodes both. */
  lemma Then(u: View, v: View, w: View, writing: bool, limit: nat,
             a: Option<seq<Byte>>, b: Option<seq<Byte>>, r: Outcome)
    requires Encodes(u, v, writing, limit, a, Ok) && Encodes(v, w, writing, limit, b, r)
    ensures Encodes(u, w, writing, limit, Cat(a, b), r)
  {
    ConfinedTransitive(u, v, w, writing, limit);
    if r.Ok? { PushPush(u, writing, a.value, b.value); }
  }

  /** A failure in `a` is a failure of `a` followed by anything. */
  lemma Stop(u: View, v: View, writing: bool, limit: nat,
             a: Option<seq<Byte>>, b: Option<seq<Byte>>, r: Outcome)
    requires Encodes(u, v, writing, limit, a, r) && !r.Ok?
    ensures Encodes(u, v, writing, limit, Cat(a, b), r)
  {
  }

  lemma Nothing(v: View, writing: bool, limit: nat)
    requires writing ==> v.written <= limit && v.cursor + (limit - v.written) <= |v.contents|
    ensures Encodes(v, v, writing, limit, Some([]), Ok)
  {
    if writing { assert Patch(v.contents, v.cursor, []) == v.contents; }
  }

  // ------------------------------------------------------------- simple values

  method WriteBytes(s: OStream, data: seq<Byte>) returns (r: Outcome)
    requires s.Valid()
    modifies s, s.buf
    ensures s.Valid()
    ensures Encodes(old(s.State()), s.State(), s.writing, s.maxSize, Some(data), r)
  {
    ghost var v := s.State();
    r := s.Write(data);
    if r.Ok? { PushConfined(v, s.writing, data, s.maxSize); }
  }

  method WriteVarint(s: OStream, n: nat) returns (r: Outcome)
    requires s.Valid() && n < TWO_64
    modifies s, s.buf
    ensures s.Valid()
    ensures Encodes(old(s.State()), s.State(), s.writing, s.maxSize, Some(Encoded(n)), r)
  {
    var bytes := EncodeVarint(n);
    r := WriteBytes(s, bytes);
  }

  method WriteKey(s: OStream, wireType: nat, tag: nat) returns (r: Outcome)
    requires s.Valid() && tag <= MAX_TAG && wireType < 8
    modifies s, s.buf
    ensures s.Valid()
    ensures Encodes(old(s.State()), s.State(), s.writing, s.maxSize, Some(KeyBytes(tag, wireType)), r)
  {
    r := WriteVarint(s, tag * 8 + wireType);
  }

  /** Length, then contents. */
  method WriteString(s: OStream, data: seq<Byte>) returns (r: Outcome)
    requires s.Valid() && |data| < TWO_64
    modifies s, s.buf
    ensures s.Valid()
    ensures Encodes(old(s.State()), s.State(), s.writing, s.maxSize, Some(PayloadBytes(LenPayload(data))), r)
  {
    ghost var u := s.State();
    r := WriteVarint(s, |data|);
    ghost var v := s.State();
    if !r.Ok? {
      Stop(u, v, s.writing, s.maxSize, Some(Encoded(|data|)), Some(data), r);
      return;
    }
    r := WriteBytes(s, data);
    Then(u, v, s.State(), s.writing, s.maxSize, Some(Encoded(|data|)), Some(data), r);
  }

  method WriteScalar(s: OStream, x: Scalar) returns (r: Outcome)
    requires s.Valid() && ValidScalar(x)
    modifies s, s.buf
    ensures s.Valid()
    ensures Encodes(old(s.State()), s.State(), s.writing, s.maxSize, Some(PayloadBytes(ScalarPayload(x))), r)
  {
    match x {
      case BoolValue(b) => r := WriteVarint(s, if b then 1 else 0);
      case IntValue(i) => r := WriteVarint(s, ToUnsigned(i));
      case UintValue(u) => r := WriteVarint(s, u);
      case SintValue(z) => r := WriteVarint(s, Zigzag(z));
      case Fixed32Value(w) => r := WriteBytes(s, LittleEndian(w, 4));
      case Fixed64Value(d) => r := WriteBytes(s, LittleEndian(d, 8));
    }
  }

  /** The length of the string in a char array; None when it is empty-sized or unterminated. */
  method StringLength(chars: seq<Byte>) returns (r: Option<nat>)
    ensures r == NulIndex(chars)
  {
    if |chars| == 0 {
      return None;
    }
    var max := |chars| - 1;
    var size := 0;
    while size < max && chars[size] != 0
      invariant size <= max
      invariant forall i :: 0 <= i < size ==> chars[i] != 0
    {
      size := size + 1;
    }
    if chars[size] != 0 {
      return None;
    }
    r := Some(size);
  }

  // -------------------------------------------------------------------- packed arrays

  lemma {:induction false} PackedFixedSize(kind: ScalarKind, values: seq<Scalar>)
    requires AllOfKind(kind, values)
    ensures kind.Fixed32Kind? ==> |PackedBytes(values)| == 4 * |values|
    ensures kind.Fixed64Kind? ==> |PackedBytes(values)| == 8 * |values|
  {
    if values != [] {
      PackedFixedSize(kind, values[..|values| - 1]);
    }
  }

  lemma {:induction false} PackedPrefixShorter(values: seq<Scalar>, k: nat)
    requires k <= |values| && ValidScalars(values)
    ensures |PackedBytes(values[..k])| <= |PackedBytes(values)|
  {
    if k == |values| {
      assert values[..k] == values;
    } else {
      var front := values[..|values| - 1];
      assert front[..k] == values[..k];
      PackedPrefixShorter(front, k);
    }
  }

  lemma PackedNext(values: seq<Scalar>, i: nat)
    requires i < |values| && ValidScalars(values)
    ensures PackedBytes(values[..i + 1]) == PackedBytes(values[..i]) + PayloadBytes(ScalarPayload(values[i]))
  {
    var p := values[..i + 1];
    assert p[..|p| - 1] == values[..i] && p[|p| - 1] == values[i];
  }

  lemma ThenWithin(u: View, v: View, w: View, writing: bool, limit: nat,
                   head: seq<Byte>, next: seq<Byte>, whole: seq<Byte>, r: Outcome)
    requires Encodes(u, v, writing, limit, Some(head), Ok) && Encodes(v, w, writing, limit, Some(next), r)
    requires |head + next| <= |whole|
    ensures Encodes(u, w, writing, limit, Some(head + next), r)
    ensures !r.Ok? ==> Encodes(u, w, writing, limit, Some(whole), r)
  {
    Then(u, v, w, writing, limit, Some(head), Some(next), r);
  }

  /** One more element: either the next prefix is encoded, or the whole array fails. */
  lemma ScalarStep(u: View, v: View, w: View, writing: bool, limit: nat, values: seq<Scalar>, i: nat, r: Outcome)
    requires i < |values| && ValidScalars(values)
    requires Encodes(u, v, writing, limit, Some(PackedBytes(values[..i])), Ok)
    requires Encodes(v, w, writing, limit, Some(PayloadBytes(ScalarPayload(values[i]))), r)
    ensures Encodes(u, w, writing, limit, Some(PackedBytes(values[..i + 1])), r)
    ensures !r.Ok? ==> Encodes(u, w, writing, limit, Some(PackedBytes(values)), r)
  {
    PackedNext(values, i);
    PackedPrefixShorter(values, i + 1);
    ThenWithin(u, v, w, writing, limit, PackedBytes(values[..i]), PayloadBytes(ScalarPayload(values[i])), PackedBytes(values), r);
  }

  /** The elements of a packed array, one after the other. */
  method WriteScalars(s: OStream, values: seq<Scalar>) returns (r: Outcome)
    requires s.Valid() && ValidScalars(values)
    modifies s, s.buf
    ensures s.Valid()
    ensures Encodes(old(s.State()), s.State(), s.writing, s.maxSize, Some(PackedBytes(values)), r)
  {
    ghost var u := s.State();
    Nothing(u, s.writing, s.maxSize);
    assert values[..0] == [];
    r := Ok;
    for i := 0 to |values|
      invariant s.Valid() && r == Ok
      invariant Encodes(u, s.State(), s.writing, s.maxSize, Some(PackedBytes(values[..i])), Ok)
    {
      ghost var v := s.State();
      r := WriteScalar(s, values[i]);
      ScalarStep(u, v, s.State(), s.writing, s.maxSize, values, i, r);
      if !r.Ok? {
        return;
      }
    }
    assert values[..|values|] == values;
  }

  /** The byte size of a packed array: a multiplication for fixed-width elements,
      otherwise a counting pass. */
  method PackedSize(kind: ScalarKind, values: seq<Scalar>) returns (size: nat)
    requires AllOfKind(kind, values)
    ensures size == |PackedBytes(values)|
  {
    PackedFixedSize(kind, values);
    if kind.Fixed32Kind? {
      size := 4 * |values|;
    } else if kind.Fixed64Kind? {
      size := 8 * |values|;
    } else {
      var sizing := new OStream.Sizing();
      var ok := WriteScalars(sizing, values);
      size := sizing.written;
    }
  }

  method WritePacked(s: OStream, tag: nat, kind: ScalarKind, values: seq<Scalar>) returns (r: Outcome)
    requires s.Valid() && tag <= MAX_TAG
    requires AllOfKind(kind, values)
    requires |PackedBytes(values)| < TWO_32
    modifies s, s.buf
    ensures s.Valid()
    ensures Encodes(old(s.State()), s.State(), s.writing, s.maxSize,
                    Some(RecordBytes(Record(tag, LenPayload(PackedBytes(values))))), r)
  {
    ghost var e := PackedBytes(values);
    ghost var u := s.State();
    ghost var key, len := Some(KeyBytes(tag, 2)), Some(Encoded(|e|));
    CatAssoc(key, len, Some(e));
    r := WriteKey(s, 2, tag);
    if !r.Ok? {
      Stop(u, s.State(), s.writing, s.maxSize, key, Cat(len, Some(e)), r);
      return;
    }
    ghost var v := s.State();
    var size := PackedSize(kind, values);
    r := WriteVarint(s, size);
    Then(u, v, s.State(), s.writing, s.maxSize, key, len, r);
    if !r.Ok? {
      Stop(u, s.State(), s.writing, s.maxSize, Cat(key, len), Some(e), r);
      return;
    }
    ghost var w := s.State();
    if !s.writing {
      s.Count(size);
    } else {
      r := WriteScalars(s, values);
    }
    Then(u, w, s.State(), s.writing, s.maxSize, Cat(key, len), Some(e), r);
  }

  // ------------------------------------------------------------- fields and messages

  function WireTypeOf(d: Data): (t: nat)
    ensures t < 8
  {
    if d.Basic? then ScalarWireType(KindOf(d.scalar)) else 2
  }

  /** The reference output of one value without its key. */
  function ItemValue(d: Data): Option<seq<Byte>> {
    match ItemPayload(d)
    case None => None
    case Some(p) => Some(PayloadBytes(p))
  }

  lemma ItemSplit(tag: nat, d: Data)
    requires RepresentableItem(d)
    ensures Bytes(ItemRecord(tag, d)) == Cat(Some(KeyBytes(tag, WireTypeOf(d))), ItemValue(d))
  {
    if ItemPayload(d).Some? {
      WrittenOne(Record(tag, ItemPayload(d).value));
      if d.Basic? { ScalarRoundTrip(d.scalar); }
    }
  }

  lemma BytesCat(a: Option<seq<Record>>, b: Option<seq<Record>>)
    ensures Bytes(Cat(a, b)) == Cat(Bytes(a), Bytes(b))
  {
    if a.Some? && b.Some? { WrittenConcat(a.value, b.value); }
  }

  lemma {:induction false} ItemsConcat(tag: nat, a: seq<Data>, b: seq<Data>)
    ensures ItemsRecords(tag, a + b) == Cat(ItemsRecords(tag, a), ItemsRecords(tag, b))
  {
    if b == [] {
      assert a + b == a;
      CatEmpty(ItemsRecords(tag, a));
    } else {
      ItemsConcat(tag, a, b[..|b| - 1]);
      Seqs.PeelRight(a, b);
      CatAssoc(ItemsRecords(tag, a), ItemsRecords(tag, b[..|b| - 1]), ItemRecord(tag, b[|b| - 1]));
    }
  }

  lemma {:induction false} FieldsConcat(a: seq<Field>, b: seq<Field>)
    ensures FieldsRecords(a + b) == Cat(FieldsRecords(a), FieldsRecords(b))
  {
    if b == [] {
      assert a + b == a;
      CatEmpty(FieldsRecords(a));
    } else {
      FieldsConcat(a, b[..|b| - 1]);
      Seqs.PeelRight(a, b);
      CatAssoc(FieldsRecords(a), FieldsRecords(b[..|b| - 1]), FieldRecords(b[|b| - 1]));
    }
  }

  lemma ItemsNext(tag: nat, xs: seq<Data>, i: nat)
    requires i < |xs|
    ensures Bytes(ItemsRecords(tag, xs[..i + 1])) == Cat(Bytes(ItemsRecords(tag, xs[..i])), Bytes(ItemRecord(tag, xs[i])))
  {
    var p := xs[..i + 1];
    assert p[..|p| - 1] == xs[..i] && p[|p| - 1] == xs[i];
    BytesCat(ItemsRecords(tag, xs[..i]), ItemRecord(tag, xs[i]));
  }

  lemma ItemsSplit(tag: nat, xs: seq<Data>, i: nat)
    requires i <= |xs|
    ensures Bytes(ItemsRecords(tag, xs)) == Cat(Bytes(ItemsRecords(tag, xs[..i])), Bytes(ItemsRecords(tag, xs[i..])))
  {
    assert xs[..i] + xs[i..] == xs;
    ItemsConcat(tag, xs[..i], xs[i..]);
    BytesCat(ItemsRecords(tag, xs[..i]), ItemsRecords(tag, xs[i..]));
  }

  /** One more value of a repeated field: the next prefix is encoded, or the whole fails. */
  lemma ItemsStep(u: View, v: View, w: View, writing: bool, limit: nat, tag: nat, xs: seq<Data>, i: nat, r: Outcome)
    requires i < |xs|
    requires Encodes(u, v, writing, limit, Bytes(ItemsRecords(tag, xs[..i])), Ok)
    requires Encodes(v, w, writing, limit, Bytes(ItemRecord(tag, xs[i])), r)
    ensures Encodes(u, w, writing, limit, Bytes(ItemsRecords(tag, xs[..i + 1])), r)
    ensures !r.Ok? ==> Encodes(u, w, writing, limit, Bytes(ItemsRecords(tag, xs)), r)
  {
    ItemsNext(tag, xs, i);
    Then(u, v, w, writing, limit, Bytes(ItemsRecords(tag, xs[..i])), Bytes(ItemRecord(tag, xs[i])), r);
    if !r.Ok? {
      ItemsSplit(tag, xs, i + 1);
      Stop(u, w, writing, limit, Bytes(ItemsRecords(tag, xs[..i + 1])), Bytes(ItemsRecords(tag, xs[i + 1..])), r);
    }
  }

  lemma FieldsNext(xs: seq<Field>, i: nat)
    requires i < |xs|
    ensures Bytes(FieldsRecords(xs[..i + 1])) == Cat(Bytes(FieldsRecords(xs[..i])), Bytes(FieldRecords(xs[i])))
  {
    var p := xs[..i + 1];
    assert p[..|p| - 1] == xs[..i] && p[|p| - 1] == xs[i];
    BytesCat(FieldsRecords(xs[..i]), FieldRecords(xs[i]));
  }

  lemma FieldsSplit(xs: seq<Field>, i: nat)
    requires i <= |xs|
    ensures Bytes(FieldsRecords(xs)) == Cat(Bytes(FieldsRecords(xs[..i])), Bytes(FieldsRecords(xs[i..])))
  {
    assert xs[..i] + xs[i..] == xs;
    FieldsConcat(xs[..i], xs[i..]);
    BytesCat(FieldsRecords(xs[..i]), FieldsRecords(xs[i..]));
  }

  /** The same for the fields of a message. */
  lemma FieldsStep(u: View, v: View, w: View, writing: bool, limit: nat, xs: seq<Field>, i: nat, r: Outcome)
    requires i < |xs|
    requires Encodes(u, v, writing, limit, Bytes(FieldsRecords(xs[..i])), Ok)
    requires Encodes(v, w, writing, limit, Bytes(FieldRecords(xs[i])), r)
    ensures Encodes(u, w, writing, limit, Bytes(FieldsRecords(xs[..i + 1])), r)
    ensures !r.Ok? ==> Encodes(u, w, writing, limit, Bytes(FieldsRecords(xs)), r)
  {
    FieldsNext(xs, i);
    Then(u, v, w, writing, limit, Bytes(FieldsRecords(xs[..i])), Bytes(FieldRecords(xs[i])), r);
    if !r.Ok? {
      FieldsSplit(xs, i + 1);
      Stop(u, w, writing, limit, Bytes(FieldsRecords(xs[..i + 1])), Bytes(FieldsRecords(xs[i + 1..])), r);
    }
  }

  /** The value of a static or pointer field, after its key. */
  method WriteValue(s: OStream, d: Data) returns (r: Outcome)
    requires s.Valid() && RepresentableItem(d)
    modifies s, s.buf
    ensures s.Valid()
    ensures Encodes(old(s.State()), s.State(), s.writing, s.maxSize, ItemValue(d), r)
    decreases d, 0
  {
    ghost var u := s.State();
    if d.Basic? {
      r := WriteScalar(s, d.scalar);
    } else if d.BytesArray? {
      if d.size > |d.room| {
        return Rejected;
      }
      r := WriteString(s, d.room[..d.size]);
    } else if d.CharArray? {
      var size := StringLength(d.chars);
      if size.None? {
        return Rejected;
      }
      r := WriteString(s, d.chars[..size.value]);
    } else if d.FixedLength? {
      r := WriteString(s, d.bytes);
    } else {
      r := WriteSubmessage(s, d.msg);
    }
  }

  /** Key, then value. */
  method WriteItem(s: OStream, tag: nat, d: Data) returns (r: Outcome)
    requires s.Valid() && 1 <= tag <= MAX_TAG && RepresentableItem(d)
    modifies s, s.buf
    ensures s.Valid()
    ensures Encodes(old(s.State()), s.State(), s.writing, s.maxSize, Bytes(ItemRecord(tag, d)), r)
    decreases d, 1
  {
    ghost var u := s.State();
    ghost var key := Some(KeyBytes(tag, WireTypeOf(d)));
    ItemSplit(tag, d);
    r := WriteKey(s, WireTypeOf(d), tag);
    ghost var v := s.State();
    if !r.Ok? {
      Stop(u, v, s.writing, s.maxSize, key, ItemValue(d), r);
      return;
    }
    r := WriteValue(s, d);
    Then(u, v, s.State(), s.writing, s.maxSize, key, ItemValue(d), r);
  }

  /** An unpacked array, or a callback that writes its field any number of times. */
  method WriteItems(s: OStream, tag: nat, items: seq<Data>) returns (r: Outcome)
    requires s.Valid() && 1 <= tag <= MAX_TAG
    requires forall i :: 0 <= i < |items| ==> RepresentableItem(items[i])
    modifies s, s.buf
    ensures s.Valid()
    ensures Encodes(old(s.State()), s.State(), s.writing, s.maxSize, Bytes(ItemsRecords(tag, items)), r)
    decreases items
  {
    ghost var u := s.State();
    Nothing(u, s.writing, s.maxSize);
    assert items[..0] == [];
    r := Ok;
    for i := 0 to |items|
      invariant s.Valid() && r == Ok
      invariant Encodes(u, s.State(), s.writing, s.maxSize, Bytes(ItemsRecords(tag, items[..i])), Ok)
    {
      ghost var v := s.State();
      r := WriteItem(s, tag, items[i]);
      ItemsStep(u, v, s.State(), s.writing, s.maxSize, tag, items, i, r);
      if !r.Ok? {
        return;
      }
    }
    assert items[..|items|] == items;
  }

  /** A callback that writes bytes of its own making. */
  method WriteRaw(s: OStream, tag: nat, bytes: seq<Byte>, ok: bool) returns (r: Outcome)
    requires s.Valid()
    modifies s, s.buf
    ensures s.Valid()
    ensures Encodes(old(s.State()), s.State(), s.writing, s.maxSize,
                    if ok then Bytes(Some([Record(tag, RawPayload(bytes))])) else None, r)
  {
    WrittenOne(Record(tag, RawPayload(bytes)));
    r := WriteBytes(s, bytes);
    if r.Ok? && !ok {
      r := Rejected;
    }
  }

  /** One field of any kind: presence first, then contents. */
  method EncodeField(s: OStream, f: Field) returns (r: Outcome)
    requires s.Valid() && RepresentableField(f)
    modifies s, s.buf
    ensures s.Valid()
    ensures Encodes(old(s.State()), s.State(), s.writing, s.maxSize, Bytes(FieldRecords(f)), r)
    decreases f
  {
    ghost var u := s.State();
    Nothing(u, s.writing, s.maxSize);
    if !Present(f) {
      return Ok;
    }
    if f.data.Callback? {
      if f.data.emission.Unset? {
        return Ok;
      } else if f.data.emission.Refuses? {
        return Rejected;
      } else if f.data.emission.Emits? {
        r := WriteItems(s, f.tag, f.data.emission.items);
      } else {
        r := WriteRaw(s, f.tag, f.data.emission.bytes, f.data.emission.ok);
      }
    } else if f.data.Array? {
      if |f.data.items| > f.data.capacity {
        return Rejected;
      }
      r := WriteItems(s, f.tag, f.data.items);
    } else if f.data.PackedArray? {
      if |f.data.values| == 0 {
        return Ok;
      }
      if |f.data.values| > f.data.capacity {
        return Rejected;
      }
      WrittenOne(Record(f.tag, LenPayload(PackedBytes(f.data.values))));
      r := WritePacked(s, f.tag, f.data.kind, f.data.values);
    } else {
      r := WriteItem(s, f.tag, f.data);
    }
  }

  /** All fields in descriptor order. */
  method EncodeFields(s: OStream, fs: seq<Field>) returns (r: Outcome)
    requires s.Valid() && forall i :: 0 <= i < |fs| ==> RepresentableField(fs[i])
    modifies s, s.buf
    ensures s.Valid()
    ensures Encodes(old(s.State()), s.State(), s.writing, s.maxSize, Bytes(FieldsRecords(fs)), r)
    decreases fs
  {
    ghost var u := s.State();
    Nothing(u, s.writing, s.maxSize);
    assert fs[..0] == [];
    r := Ok;
    for i := 0 to |fs|
      invariant s.Valid() && r == Ok
      invariant Encodes(u, s.State(), s.writing, s.maxSize, Bytes(FieldsRecords(fs[..i])), Ok)
    {
      ghost var v := s.State();
      r := EncodeField(s, fs[i]);
      FieldsStep(u, v, s.State(), s.writing, s.maxSize, fs, i, r);
      if !r.Ok? {
        return;
      }
    }
    assert fs[..|fs|] == fs;
  }

  /**
   Length-delimited message in two passes: count, write the length, then write through a
   substream that may not exceed the counted length. Never ends in `SizeChanged`.
   */
  method WriteSubmessage(s: OStream, m: Message) returns (r: Outcome)
    requires s.Valid() && Representable(m)
    modifies s, s.buf
    ensures s.Valid()
    ensures Encodes(old(s.State()), s.State(), s.writing, s.maxSize, ItemValue(Submessage(m)), r)
    decreases m, 1
  {
    ghost var u := s.State();
    Nothing(u, s.writing, s.maxSize);
    var sizing := new OStream.Sizing();
    r := EncodeFields(sizing, m.fields);
    if !r.Ok? {
      return Rejected;
    }
    var size := sizing.written;
    ghost var e := MessageBytes(m).value;
    r := WriteVarint(s, size);
    ghost var v := s.State();
    if !r.Ok? {
      Stop(u, v, s.writing, s.maxSize, Some(Encoded(size)), Some(e), r);
      return;
    }
    r := WriteCounted(s, m, size);
    Then(u, v, s.State(), s.writing, s.maxSize, Some(Encoded(size)), Some(e), r);
  }

  /** The second pass. */
  method WriteCounted(s: OStream, m: Message, size: nat) returns (r: Outcome)
    requires s.Valid() && Representable(m) && MessageBytes(m).Some? && size == |MessageBytes(m).value|
    modifies s, s.buf
    ensures s.Valid()
    ensures Encodes(old(s.State()), s.State(), s.writing, s.maxSize, MessageBytes(m), r)
    decreases m, 0
  {
    ghost var v, e := s.State(), MessageBytes(m).value;
    if !s.writing {
      s.Count(size);
      return Ok;
    }
    if s.written + size > s.maxSize {
      return StreamFull;
    }
    var sub := new OStream.ToBuffer(s.buf, s.cursor, size);
    var status := EncodeFields(sub, m.fields);
    s.written := s.written + sub.written;
    s.cursor := sub.cursor;
    if sub.written != size {
      return SizeChanged;
    }
    PushConfined(v, s.writing, e, s.maxSize);
    r := status;
  }

  // ------------------------------------------------------------------- main results

  /** The counting pass: what `EncodedSize` reports is the length of what encoding writes. */
  method EncodedSize(m: Message) returns (size: Option<nat>)
    requires Representable(m)
    ensures size.Some? <==> MessageBytes(m).Some?
    ensures size.Some? ==> size.value == |MessageBytes(m).value|
  {
    var sizing := new OStream.Sizing();
    var r := EncodeFields(sizing, m.fields);
    size := if r.Ok? then Some(sizing.written) else None;
  }

  /** Encoding into a buffer: succeeds exactly when the counting pass succeeds and its
      size fits; then the buffer starts with the serialisation and is otherwise as it was. */
  method EncodeToBuffer(buf: array<Byte>, m: Message) returns (r: Outcome, size: nat)
    requires Representable(m)
    modifies buf
    ensures r != SizeChanged
    ensures r.Ok? <==> MessageBytes(m).Some? && |MessageBytes(m).value| <= buf.Length
    ensures r.Ok? ==> size == |MessageBytes(m).value| && size <= buf.Length
    ensures r.Ok? ==> buf[..size] == MessageBytes(m).value && buf[size..] == old(buf[..])[size..]
  {
    var s := new OStream.ToBuffer(buf, 0, buf.Length);
    r := EncodeFields(s, m.fields);
    size := s.written;
  }
}
