/**
 Packed field descriptors and the iterator over them. A message's field table is a list of
 32-bit words; each field takes 1, 2, 4 or 8 of them, and the low two bits of its first
 word say how many. Word contents are bit vectors, as in the C macros; positions in the
 table are numbers. `pb_size_t` is 16 bits wide, the default.
 */
module Descriptor {
  import opened Wrappers

  datatype Width = One | Two | Four | Eight

  function Words(w: Width): nat {
    match w
    case One => 1
    case Two => 2
    case Four => 4
    case Eight => 8
  }

  datatype FieldInfo = FieldInfo(
    tag: bv32, kind: bv32, dataOffset: bv32, dataSize: bv32, sizeOffset: bv32, arraySize: bv32)

  /** The cast to int_least8_t and back to 32 bits: the low byte, sign-extended. */
  function Int8(x: bv32): bv32 {
    if x & 0x80 == 0 then x & 0xFF else (x & 0xFF) | 0xFFFF_FF00
  }

  /** The PB_FITS assertions of each format, as written: the wide formats look at the size
      offset through the cast. A field type is one byte. */
  predicate Fits(w: Width, f: FieldInfo) {
    f.kind < 256 &&
    match w
    case One => f.tag < 64 && f.dataOffset < 256 && f.sizeOffset < 16 && f.dataSize < 16 && f.arraySize < 2
    case Two => f.tag < 1024 && f.dataOffset < 65536 && f.sizeOffset < 16 && f.dataSize < 4096 && f.arraySize < 4096
    case _ => f.tag < 65536 && f.dataOffset < 65536 && Int8(f.sizeOffset) < 256 && f.dataSize < 65536 && f.arraySize < 65536
  }

  /** PB_FIELDINFO_1, _2, _4 and _8. */
  function Pack(w: Width, f: FieldInfo): (words: seq<bv32>)
    ensures |words| == Words(w)
  {
    match w
    case One =>
      [((f.tag << 2) & 0xFF) | (f.kind << 8) | ((f.dataOffset & 0xFF) << 16)
        | ((f.sizeOffset & 0x0F) << 24) | ((f.dataSize & 0x0F) << 28)]
    case Two =>
      [1 | ((f.tag << 2) & 0xFF) | (f.kind << 8) | ((f.arraySize & 0xFFF) << 16) | ((f.sizeOffset & 0x0F) << 28),
       (f.dataOffset & 0xFFFF) | ((f.dataSize & 0xFFF) << 16) | ((f.tag & 0x3c0) << 22)]
    case Four =>
      [2 | ((f.tag << 2) & 0xFF) | (f.kind << 8) | ((f.arraySize & 0xFFFF) << 16),
       Int8(f.sizeOffset) | ((f.tag << 2) & 0xFFFFFF00), f.dataOffset, f.dataSize]
    case Eight =>
      [3 | ((f.tag << 2) & 0xFF) | (f.kind << 8), Int8(f.sizeOffset) | ((f.tag << 2) & 0xFFFFFF00),
       f.dataOffset, f.dataSize, f.arraySize, 0, 0, 0]
  }

  /** The width announced by a first word: 2 to the power of its low two bits. */
  function WidthOf(word0: bv32): Width {
    if word0 & 3 == 0 then One else if word0 & 3 == 1 then Two else if word0 & 3 == 2 then Four else Eight
  }

  function KindOf(word0: bv32): bv32 { (word0 >> 8) & 0xFF }

  function LowTag(word0: bv32): bv32 { (word0 >> 2) & 0x3F }

  /** The fields of a descriptor given its first words; a narrow format ignores the later ones. */
  function Fields(word0: bv32, word1: bv32, word2: bv32, word3: bv32, word4: bv32): FieldInfo {
    match WidthOf(word0)
    case One =>
      FieldInfo(LowTag(word0), KindOf(word0), (word0 >> 16) & 0xFF, (word0 >> 28) & 0x0F, (word0 >> 24) & 0x0F, 1)
    case Two =>
      FieldInfo((LowTag(word0) | ((word1 >> 28) << 6)) & 0xFFFF, KindOf(word0), word1 & 0xFFFF,
                (word1 >> 16) & 0x0FFF, (word0 >> 28) & 0x0F, (word0 >> 16) & 0x0FFF)
    case Four =>
      FieldInfo((LowTag(word0) | ((word1 >> 8) << 6)) & 0xFFFF, KindOf(word0), word2, word3 & 0xFFFF,
                Int8(word1 & 0xFF), (word0 >> 16) & 0xFFFF)
    case Eight =>
      FieldInfo((LowTag(word0) | ((word1 >> 8) << 6)) & 0xFFFF, KindOf(word0), word2, word3 & 0xFFFF,
                Int8(word1 & 0xFF), word4 & 0xFFFF)
  }

  function Word(table: seq<bv32>, i: nat): bv32 {
    if i < |table| then table[i] else 0
  }

  /** load_descriptor_values: the descriptor that starts at `at`. */
  function Load(table: seq<bv32>, at: nat): FieldInfo
    requires at < |table|
  {
    Fields(table[at], Word(table, at + 1), Word(table, at + 2), Word(table, at + 3), Word(table, at + 4))
  }

  /** What loading yields: the one-word format has no array size and reads as 1, the wide ones
      keep the low byte of the size offset. */
  function Loaded(w: Width, f: FieldInfo): FieldInfo {
    match w
    case One => f.(arraySize := 1)
    case Two => f
    case _ => f.(sizeOffset := Int8(f.sizeOffset))
  }

  /** Fields that survive packing, among those the assertions let through: a size offset of 256
      or more passes them in the wide formats and comes back changed. */
  predicate Survives(w: Width, f: FieldInfo) {
    match w
    case One => f.arraySize == 1
    case Two => true
    case _ => f.sizeOffset < 128
  }

  lemma LoadedExactlyIf(w: Width, f: FieldInfo)
    requires Fits(w, f)
    ensures Loaded(w, f) == f <==> Survives(w, f)
  {
    Int8Exactly(f.sizeOffset);
  }

  lemma Int8Exactly(x: bv32)
    requires Int8(x) < 256
    ensures Int8(x) == x <==> x < 128
  {}

  /** A size offset of 300 passes the assertion of the four-word format and loads as 44. */
  lemma SizeOffsetLost()
    ensures var f := FieldInfo(1, 0, 304, 4, 300, 1);
            Fits(Four, f) && Load(Pack(Four, f), 0) == f.(sizeOffset := 44) && Load(Pack(Four, f), 0) != f
  {
    var f := FieldInfo(1, 0, 304, 4, 300, 1);
    assert Pack(Four, f)[0..0 + Words(Four)] == Pack(Four, f);
    LoadPacked(Pack(Four, f), 0, Four, f);
  }

  /** In every format the first word alone yields width, type and the low tag bits. */
  lemma FirstWord(w: Width, f: FieldInfo)
    requires Fits(w, f)
    ensures WidthOf(Pack(w, f)[0]) == w
    ensures KindOf(Pack(w, f)[0]) == f.kind
    ensures LowTag(Pack(w, f)[0]) == f.tag & 0x3F
  {
  }

  lemma PackedOne(f: FieldInfo, a: bv32, b: bv32, c: bv32, d: bv32)
    requires Fits(One, f)
    ensures Fields(Pack(One, f)[0], a, b, c, d) == Loaded(One, f)
  {
    FirstWord(One, f);
  }

  lemma PackedTwo(f: FieldInfo, b: bv32, c: bv32, d: bv32)
    requires Fits(Two, f)
    ensures Fields(Pack(Two, f)[0], Pack(Two, f)[1], b, c, d) == Loaded(Two, f)
  {
    FirstWord(Two, f);
  }

  lemma PackedFour(f: FieldInfo, d: bv32)
    requires Fits(Four, f)
    ensures Fields(Pack(Four, f)[0], Pack(Four, f)[1], Pack(Four, f)[2], Pack(Four, f)[3], d) == Loaded(Four, f)
  {
    FirstWord(Four, f);
  }

  lemma PackedEight(f: FieldInfo)
    requires Fits(Eight, f)
    ensures Fields(Pack(Eight, f)[0], Pack(Eight, f)[1], Pack(Eight, f)[2], Pack(Eight, f)[3], Pack(Eight, f)[4]) == Loaded(Eight, f)
  {
    FirstWord(Eight, f);
  }

  /** Loading what was packed returns the field, in every format and anywhere in a table. */
  lemma LoadPacked(table: seq<bv32>, at: nat, w: Width, f: FieldInfo)
    requires Fits(w, f) && at + Words(w) <= |table| && table[at..at + Words(w)] == Pack(w, f)
    ensures Load(table, at) == Loaded(w, f)
    ensures Load(table, at) == f <==> Survives(w, f)
  {
    LoadedExactlyIf(w, f);
    var slice := table[at..at + Words(w)];
    assert slice[0] == table[at];
    var x1, x2, x3, x4 := Word(table, at + 1), Word(table, at + 2), Word(table, at + 3), Word(table, at + 4);
    match w
    case One => PackedOne(f, x1, x2, x3, x4);
    case Two =>
      assert slice[1] == x1;
      PackedTwo(f, x2, x3, x4);
    case Four =>
      assert slice[1] == x1 && slice[2] == x2 && slice[3] == x3;
      PackedFour(f, x4);
    case Eight =>
      assert slice[1] == x1 && slice[2] == x2 && slice[3] == x3 && slice[4] == x4;
      PackedEight(f);
  }

  // ------------------------------------------------------------------- field tables

  datatype Entry = Entry(width: Width, info: FieldInfo)

  function Table(es: seq<Entry>): seq<bv32> {
    if es == [] then [] else Table(es[..|es| - 1]) + Pack(es[|es| - 1].width, es[|es| - 1].info)
  }

  /** First word of field `i`. */
  function WordIndex(es: seq<Entry>, i: nat): nat
    requires i <= |es|
  {
    if i == 0 then 0 else WordIndex(es, i - 1) + Words(es[i - 1].width)
  }

  predicate IsSubmessage(kind: bv32) { kind & 0x0F == 8 || kind & 0x0F == 9 }

  predicate IsRequired(kind: bv32) { kind & 0x30 == 0 }

  predicate IsExtension(kind: bv32) { kind & 0x0F == 10 }

  function SubmessageStep(kind: bv32): nat { if IsSubmessage(kind) then 1 else 0 }

  function RequiredStep(kind: bv32): nat { if IsRequired(kind) then 1 else 0 }

  /** How many of the first `i` fields are submessages, and how many are required. */
  function SubmessageIndex(es: seq<Entry>, i: nat): (n: nat)
    requires i <= |es|
    ensures n <= i
  {
    if i == 0 then 0 else SubmessageIndex(es, i - 1) + SubmessageStep(es[i - 1].info.kind)
  }

  function RequiredIndex(es: seq<Entry>, i: nat): (n: nat)
    requires i <= |es|
    ensures n <= i
  {
    if i == 0 then 0 else RequiredIndex(es, i - 1) + RequiredStep(es[i - 1].info.kind)
  }

  /** They are the numbers of earlier fields with submessage types 8 and 9, and of required ones. */
  lemma {:induction false} IndicesCount(es: seq<Entry>, i: nat)
    requires i <= |es|
    ensures SubmessageIndex(es, i) == |Submessages(es, i)| && RequiredIndex(es, i) == |RequiredOnes(es, i)|
  {
    if i > 0 {
      IndicesCount(es, i - 1);
      OneMoreSubmessage(es, i);
      OneMoreRequired(es, i);
    }
  }

  lemma OneMoreSubmessage(es: seq<Entry>, i: nat)
    requires 0 < i <= |es|
    ensures |Submessages(es, i)| == |Submessages(es, i - 1)| + SubmessageStep(es[i - 1].info.kind)
  {
    assert Submessages(es, i) == Submessages(es, i - 1) + if IsSubmessage(es[i - 1].info.kind) then {i - 1} else {};
  }

  lemma OneMoreRequired(es: seq<Entry>, i: nat)
    requires 0 < i <= |es|
    ensures |RequiredOnes(es, i)| == |RequiredOnes(es, i - 1)| + RequiredStep(es[i - 1].info.kind)
  {
    assert RequiredOnes(es, i) == RequiredOnes(es, i - 1) + if IsRequired(es[i - 1].info.kind) then {i - 1} else {};
  }

  ghost function Submessages(es: seq<Entry>, i: nat): set<nat>
    requires i <= |es|
  {
    set j: nat | j < i && (es[j].info.kind & 0x0F == 8 || es[j].info.kind & 0x0F == 9)
  }

  ghost function RequiredOnes(es: seq<Entry>, i: nat): set<nat>
    requires i <= |es|
  {
    set j: nat | j < i && es[j].info.kind & 0x30 == 0
  }

  /** Unsigned comparison of tags, named so that proofs about order need not open it. */
  predicate Less(a: bv32, b: bv32) { a < b }

  lemma LessAsymmetric(a: bv32, b: bv32)
    requires Less(a, b)
    ensures !Less(b, a) && a != b
  {
  }

  function Nth(es: seq<Entry>, i: nat): Entry
    requires i < |es|
  {
    es[i]
  }

  /** What the generator guarantees of a message descriptor: every field fits its format,
      no extension placeholder, tags strictly increase, and the table's positions fit pb_size_t. */
  predicate WellFormed(es: seq<Entry>) {
    && es != [] && WordIndex(es, |es|) <= 0xFFFF && |es| < 0xFFFF
    && (forall i :: 0 <= i < |es| ==> Fits(Nth(es, i).width, Nth(es, i).info) && !IsExtension(Nth(es, i).info.kind))
    && (forall i, j :: 0 <= i < j < |es| ==> Less(Nth(es, i).info.tag, Nth(es, j).info.tag))
  }

  lemma FieldFits(es: seq<Entry>, k: nat)
    requires k < |es| && WellFormed(es)
    ensures Fits(es[k].width, es[k].info) && !IsExtension(es[k].info.kind)
  {
    assert Nth(es, k) == es[k];
  }

  lemma TagLess(es: seq<Entry>, i: nat, j: nat)
    requires i < j < |es| && WellFormed(es)
    ensures Less(es[i].info.tag, es[j].info.tag)
  {
    assert Nth(es, i) == es[i] && Nth(es, j) == es[j];
  }

  lemma {:induction false} TableLength(es: seq<Entry>)
    ensures |Table(es)| == WordIndex(es, |es|)
  {
    if es != [] {
      TableLength(es[..|es| - 1]);
      WordIndexPrefix(es, |es| - 1);
    }
  }

  lemma {:induction false} WordIndexPrefix(es: seq<Entry>, i: nat)
    requires i < |es|
    ensures WordIndex(es[..|es| - 1], i) == WordIndex(es, i)
  {
    if i > 0 { WordIndexPrefix(es, i - 1); }
  }

  lemma {:induction false} WordIndexIncreases(es: seq<Entry>, i: nat, j: nat)
    requires i < j <= |es|
    ensures WordIndex(es, i) + Words(es[i].width) <= WordIndex(es, j)
  {
    if i + 1 < j { WordIndexIncreases(es, i, j - 1); }
  }

  lemma SlicePrefix(a: seq<bv32>, b: seq<bv32>, lo: nat, hi: nat)
    requires lo <= hi <= |a|
    ensures (a + b)[lo..hi] == a[lo..hi]
  {
  }

  /** Field `k`'s descriptor occupies exactly the words between its index and the next. */
  lemma {:induction false} TableAt(es: seq<Entry>, k: nat)
    requires k < |es|
    ensures WordIndex(es, k) + Words(es[k].width) <= |Table(es)|
    ensures Table(es)[WordIndex(es, k)..WordIndex(es, k) + Words(es[k].width)] == Pack(es[k].width, es[k].info)
  {
    var front, last := es[..|es| - 1], es[|es| - 1];
    TableLength(front);
    WordIndexPrefix(es, |es| - 1);
    var packed := Pack(last.width, last.info);
    assert Table(es) == Table(front) + packed;
    if k == |front| {
      assert (Table(front) + packed)[|Table(front)|..|Table(front)| + |packed|] == packed;
    } else {
      TableAt(front, k);
      WordIndexPrefix(es, k);
      SlicePrefix(Table(front), packed, WordIndex(es, k), WordIndex(es, k) + Words(es[k].width));
    }
  }

  /** The first word of field `k` gives its type, its low tag bits and the way to the next field. */
  lemma HeadAt(es: seq<Entry>, k: nat)
    requires WellFormed(es) && k < |es|
    ensures WordIndex(es, k) < |Table(es)| && WordIndex(es, k) + Words(es[k].width) <= |Table(es)|
    ensures WidthOf(Table(es)[WordIndex(es, k)]) == es[k].width
    ensures KindOf(Table(es)[WordIndex(es, k)]) == es[k].info.kind
    ensures LowTag(Table(es)[WordIndex(es, k)]) == es[k].info.tag & 0x3F
  {
    TableAt(es, k);
    FieldFits(es, k);
    var at, w, f := WordIndex(es, k), es[k].width, es[k].info;
    assert Table(es)[at..at + Words(w)][0] == Table(es)[at];
    FirstWord(w, f);
  }

  /** Stepping by what the first word says leads to the next field's three positions. */
  lemma NextEntry(es: seq<Entry>, k: nat)
    requires WellFormed(es) && k < |es|
    ensures WordIndex(es, k) < |Table(es)|
    ensures var word0 := Table(es)[WordIndex(es, k)];
            && WordIndex(es, k + 1) == WordIndex(es, k) + Words(WidthOf(word0))
            && SubmessageIndex(es, k + 1) == SubmessageIndex(es, k) + SubmessageStep(KindOf(word0))
            && RequiredIndex(es, k + 1) == RequiredIndex(es, k) + RequiredStep(KindOf(word0))
  {
    HeadAt(es, k);
  }

  lemma HeadInside(es: seq<Entry>, k: nat)
    requires WellFormed(es) && k < |es|
    ensures WordIndex(es, k) < |Table(es)|
  {
    HeadAt(es, k);
  }

  /** Loading at a field's index gives that field. */
  lemma LoadAt(es: seq<Entry>, k: nat)
    requires WellFormed(es) && k < |es|
    ensures WordIndex(es, k) < |Table(es)|
    ensures Load(Table(es), WordIndex(es, k)) == Loaded(es[k].width, es[k].info)
  {
    TableAt(es, k);
    FieldFits(es, k);
    LoadPacked(Table(es), WordIndex(es, k), es[k].width, es[k].info);
  }

  /** Where `k` steps from field `base` lead, cyclically. */
  function Position(es: seq<Entry>, base: nat, k: nat): (p: nat)
    requires base < |es| && k <= |es|
    ensures p < |es|
  {
    if base + k < |es| then base + k else base + k - |es|
  }

  /** One step of the search, and when it is back at its starting field. */
  lemma PositionStep(es: seq<Entry>, start: nat, down: bool, base: nat, last: nat, k: nat)
    requires start < |es| && base == (if down then |es| - 1 else start) && last == if down then start + 1 else |es|
    requires k < last
    ensures var p, next := Position(es, base, k), Position(es, base, k + 1);
            && next == (if p + 1 < |es| then p + 1 else 0)
            && (down && k == 0 ==> next == 0)
            && (next == start <==> k + 1 == last)
  {
  }

  predicate Tagged(e: Entry, tag: bv32) { e.info.tag == tag }

  ghost predicate HasTag(es: seq<Entry>, tag: bv32) {
    exists i :: 0 <= i < |es| && Tagged(es[i], tag)
  }

  /** None of the `k` fields after `base` has the tag. */
  predicate Missed(es: seq<Entry>, base: nat, k: nat, tag: bv32)
    requires base < |es| && k <= |es|
  {
    k == 0 || (Missed(es, base, k - 1, tag) && !Tagged(es[Position(es, base, k)], tag))
  }

  lemma {:induction false} MissedEach(es: seq<Entry>, base: nat, k: nat, j: nat, tag: bv32)
    requires base < |es| && 1 <= j <= k <= |es| && Missed(es, base, k, tag)
    ensures !Tagged(es[Position(es, base, j)], tag)
  {
    if j < k { MissedEach(es, base, k - 1, j, tag); }
  }

  /** A full round without a match: the tag is not in the table. */
  lemma MissedAll(es: seq<Entry>, base: nat, tag: bv32)
    requires base < |es| && Missed(es, base, |es|, tag)
    ensures !HasTag(es, tag)
  {
    forall i | 0 <= i < |es| ensures !Tagged(es[i], tag) {
      MissedEach(es, base, |es|, if i > base then i - base else i + |es| - base, tag);
    }
  }

  lemma NotAfter(es: seq<Entry>, start: nat, i: nat, tag: bv32)
    requires WellFormed(es) && start < i < |es| && Less(tag, es[start].info.tag)
    ensures !Tagged(es[i], tag)
  {
    TagLess(es, start, i);
    LessAsymmetric(es[start].info.tag, es[i].info.tag);
  }

  lemma NotBefore(es: seq<Entry>, i: nat, last: nat, tag: bv32)
    requires WellFormed(es) && i <= last < |es| && Less(es[last].info.tag, tag)
    ensures !Tagged(es[i], tag)
  {
    LessAsymmetric(es[last].info.tag, tag);
    if i < last { TagLess(es, i, last); }
  }

  /** From the first field up to a larger tag without a match: not in the table either. */
  lemma MissedBelow(es: seq<Entry>, start: nat, tag: bv32)
    requires WellFormed(es) && start < |es| && Less(tag, es[start].info.tag) && Missed(es, |es| - 1, start + 1, tag)
    ensures !HasTag(es, tag)
  {
    forall i | start < i < |es| ensures !Tagged(es[i], tag) { NotAfter(es, start, i, tag); }
    forall i | 0 <= i <= start ensures !Tagged(es[i], tag) { MissedEach(es, |es| - 1, start + 1, i + 1, tag); }
  }

  lemma AboveLargest(es: seq<Entry>, tag: bv32)
    requires WellFormed(es) && es != [] && Less(es[|es| - 1].info.tag, tag)
    ensures !HasTag(es, tag)
  {
    forall i | 0 <= i < |es| ensures !Tagged(es[i], tag) { NotBefore(es, i, |es| - 1, tag); }
  }

  // -------------------------------------------------------------------- the iterator

  /** Where a field's count or presence flag is: nowhere, at an offset into the message, or in
      the iterator's own array size. */
  datatype SizeRef = NoSize | InMessage(offset: bv32) | OwnCount

  /** The pointers the iterator sets: none without a message; `indirect` when the data pointer
      is read from the field. The submessage is an index into the descriptor's list. */
  datatype Place = Place(field: Option<bv32>, size: SizeRef, indirect: bool, submessage: Option<nat>)

  /** So many bytes before a place. */
  function Before(offset: bv32, bytes: bv32): bv32 { offset - bytes }

  lemma BeforeIs(offset: bv32, bytes: bv32)
    ensures Before(offset, bytes) == offset - bytes
  {}

  function PlaceOf(f: FieldInfo, message: bool, submessageIndex: nat): Place {
    var submessage := if IsSubmessage(f.kind) then Some(submessageIndex) else None;
    if !message then Place(None, NoSize, false, submessage)
    else
      var size := if f.sizeOffset != 0 then InMessage(Before(f.dataOffset, f.sizeOffset))
                  else if f.kind & 0x30 == 0x20 && (f.kind & 0xC0 == 0 || f.kind & 0xC0 == 0x80) then OwnCount
                  else NoSize;
      Place(Some(f.dataOffset), size, f.kind & 0xC0 == 0x80, submessage)
  }

  /** With a message, data lie at the data offset; without one nowhere. */
  lemma PlaceIs(f: FieldInfo, message: bool, submessageIndex: nat)
    ensures PlaceOf(f, message, submessageIndex).field == if message then Some(f.dataOffset) else None
    ensures !message ==> PlaceOf(f, message, submessageIndex).size == NoSize
  {}

  /** A size offset leads back from the data to the count or flag. */
  lemma PlaceOfSize(f: FieldInfo, submessageIndex: nat)
    requires f.sizeOffset != 0
    ensures PlaceOf(f, true, submessageIndex).size.InMessage?
    ensures PlaceOf(f, true, submessageIndex).size.offset == Before(f.dataOffset, f.sizeOffset)
  {}

  /** Without one a repeated field, static or pointer, counts in the iterator. */
  lemma PlaceOfCount(f: FieldInfo, submessageIndex: nat)
    ensures f.sizeOffset == 0 ==>
              PlaceOf(f, true, submessageIndex).size
              == if f.kind & 0x30 == 0x20 && (f.kind & 0xC0 == 0x00 || f.kind & 0xC0 == 0x80) then OwnCount else NoSize
  {}

  /** Pointer fields are read through; a submessage type has its descriptor at the submessage index,
      also without a message. */
  lemma PlaceReads(f: FieldInfo, message: bool, submessageIndex: nat)
    ensures PlaceOf(f, message, submessageIndex).indirect <==> message && f.kind & 0xC0 == 0x80
    ensures PlaceOf(f, message, submessageIndex).submessage
         == if f.kind & 0x0F == 8 || f.kind & 0x0F == 9 then Some(submessageIndex) else None
  {}

  class FieldIter {
    const table: seq<bv32>
    const fieldCount: nat
    const largestTag: bv32
    const message: bool // whether there is a message to point into
    ghost const entries: seq<Entry>

    var index: nat
    var fieldInfoIndex: nat
    var requiredFieldIndex: nat
    var submessageIndex: nat
    var current: FieldInfo
    var place: Place

    /** The descriptor the iterator was created for. */
    ghost predicate Described() {
      && WellFormed(entries) && table == Table(entries) && fieldCount == |entries|
      && largestTag == entries[|entries| - 1].info.tag
    }

    /** All four positions agree on field `i`. */
    ghost predicate At(i: nat)
      reads this
    {
      && Described() && i < |entries| && index == i && fieldInfoIndex == WordIndex(entries, i)
      && submessageIndex == SubmessageIndex(entries, i) && requiredFieldIndex == RequiredIndex(entries, i)
    }

    /** Positioned on field `i` with its values loaded. */
    ghost predicate On(i: nat)
      reads this
    {
      && At(i) && current == Loaded(entries[i].width, entries[i].info)
      && place == PlaceOf(current, message, SubmessageIndex(entries, i))
    }

    /** The zeroed iterator, for a descriptor that may have no fields. */
    constructor Zeroed(table: seq<bv32>, fieldCount: nat, largestTag: bv32, message: bool, ghost entries: seq<Entry>)
      requires fieldCount == |entries| && table == Table(entries)
      requires entries != [] ==> WellFormed(entries) && largestTag == entries[|entries| - 1].info.tag
      ensures this.entries == entries && this.fieldCount == fieldCount && this.message == message && index == 0
      ensures entries != [] ==> At(0)
    {
      this.table, this.fieldCount, this.largestTag, this.message, this.entries := table, fieldCount, largestTag, message, entries;
      index, fieldInfoIndex, requiredFieldIndex, submessageIndex := 0, 0, 0, 0;
      current, place := FieldInfo(0, 0, 0, 0, 0, 0), Place(None, NoSize, false, None);
    }

    /** load_descriptor_values: false past the last field. */
    method LoadValues() returns (ok: bool)
      requires index < fieldCount ==> At(index)
      modifies this`current, this`place
      ensures ok <==> index < fieldCount
      ensures ok ==> On(index)
      ensures !ok ==> current == old(current) && place == old(place)
    {
      if index >= fieldCount {
        return false;
      }
      LoadAt(entries, index);
      current := Load(table, fieldInfoIndex);
      place := PlaceOf(current, message, submessageIndex);
      ok := true;
    }

    /** Moves to the next field, from the last one or from past the end back to the first. */
    method Advance()
      requires Described() && (index == fieldCount || At(index))
      modifies this`index, this`fieldInfoIndex, this`requiredFieldIndex, this`submessageIndex
      ensures At(if old(index) + 1 < fieldCount then old(index) + 1 else 0)
    {
      index := index + 1;
      if index >= fieldCount {
        index, fieldInfoIndex, submessageIndex, requiredFieldIndex := 0, 0, 0, 0;
      } else {
        Step();
      }
    }

    /** The descriptor word says how far the other positions move. */
    method Step()
      requires Described() && 0 < index < fieldCount && fieldInfoIndex == WordIndex(entries, index - 1)
      requires submessageIndex == SubmessageIndex(entries, index - 1)
      requires requiredFieldIndex == RequiredIndex(entries, index - 1)
      modifies this`fieldInfoIndex, this`requiredFieldIndex, this`submessageIndex
      ensures At(index)
    {
      ghost var k := index - 1;
      HeadInside(entries, k);
      var words, required, submessages := Distances(table[fieldInfoIndex], entries, k);
      fieldInfoIndex := fieldInfoIndex + words;
      requiredFieldIndex := requiredFieldIndex + required;
      submessageIndex := submessageIndex + submessages;
    }

    /** Read off the head of the descriptor being left. */
    method Distances(prev: bv32, ghost es: seq<Entry>, ghost k: nat) returns (words: nat, required: nat, submessages: nat)
      requires WellFormed(es) && k < |es| && WordIndex(es, k) < |Table(es)| && prev == Table(es)[WordIndex(es, k)]
      ensures WordIndex(es, k + 1) == WordIndex(es, k) + words
      ensures RequiredIndex(es, k + 1) == RequiredIndex(es, k) + required
      ensures SubmessageIndex(es, k + 1) == SubmessageIndex(es, k) + submessages
    {
      NextEntry(es, k);
      words, required, submessages := Words(WidthOf(prev)), RequiredStep(KindOf(prev)), SubmessageStep(KindOf(prev));
    }

    /** The next field; false when it wrapped around to the first. */
    method Next() returns (more: bool)
      requires At(index)
      modifies this
      ensures On(if old(index) + 1 < fieldCount then old(index) + 1 else 0)
      ensures more <==> old(index) + 1 < fieldCount
    {
      Advance();
      var _ := LoadValues();
      more := index != 0;
    }

    /** The encoder's do-while walk from the first field: every field once, in order. */
    method Walk() returns (seen: seq<FieldInfo>)
      requires On(0)
      modifies this
      ensures |seen| == |entries| && On(0)
      ensures forall i :: 0 <= i < |entries| ==> seen[i] == Loaded(entries[i].width, entries[i].info)
    {
      seen := [current];
      var more := Next();
      while more
        invariant 1 <= |seen| <= |entries| && On(if more then |seen| else 0) && (more <==> |seen| < |entries|)
        invariant forall i :: 0 <= i < |seen| ==> seen[i] == Loaded(entries[i].width, entries[i].info)
        decreases |entries| - |seen|
      {
        seen := seen + [current];
        more := Next();
      }
    }

    /** Searches all fields cyclically, starting after the current one or, for a smaller tag,
        at the first. Lands on the tag, or ends where it began. */
    method Find(tag: bv32) returns (found: bool)
      requires On(index)
      modifies this
      ensures found <==> HasTag(entries, tag)
      ensures found ==> On(index) && Tagged(entries[index], tag)
      ensures !found ==> On(old(index))
    {
      if current.tag == tag {
        return true;
      } else if Less(largestTag, tag) {
        AboveLargest(entries, tag);
        return false;
      }
      var start := index;
      ghost var down := Less(tag, current.tag);
      ghost var base, last := if down then fieldCount - 1 else start, if down then start + 1 else fieldCount;
      if Less(tag, current.tag) {
        index := fieldCount;
      }
      found := Search(tag, start, down, base, last);
      if !found {
        if down {
          MissedBelow(entries, start, tag);
        } else {
          MissedAll(entries, start, tag);
        }
        var _ := LoadValues();
      }
    }

    /** The do-while loop of the search; `base` and `last` say where it starts and how far it goes. */
    method Search(tag: bv32, start: nat, ghost down: bool, ghost base: nat, ghost last: nat) returns (found: bool)
      requires Described() && start < fieldCount
      requires base == (if down then fieldCount - 1 else start) && last == if down then start + 1 else fieldCount
      requires if down then index == fieldCount else index == start && At(start)
      modifies this
      ensures found ==> On(index) && Tagged(entries[index], tag)
      ensures !found ==> At(start) && Missed(entries, base, last, tag)
    {
      ghost var k := 0;
      var searching := true;
      while searching
        invariant 0 <= k <= last && (searching <==> k < last)
        invariant k == 0 ==> if down then index == fieldCount else index == start && At(start)
        invariant k > 0 ==> At(Position(entries, base, k))
        invariant Missed(entries, base, k, tag)
        decreases last - k
      {
        PositionStep(entries, start, down, base, last, k);
        found := Probe(tag);
        k := k + 1;
        if found {
          return;
        }
        searching := index != start;
      }
      found := false;
    }

    method Probe(tag: bv32) returns (found: bool)
      requires Described() && (index == fieldCount || At(index))
      modifies this
      ensures At(if old(index) + 1 < fieldCount then old(index) + 1 else 0)
      ensures found <==> Tagged(entries[index], tag)
      ensures found ==> On(index)
    {
      Advance();
      found := Matches(tag);
    }

    /** The fast check of the low tag bits, then the full one. */
    method Matches(tag: bv32) returns (matches: bool)
      requires At(index)
      modifies this`current, this`place
      ensures matches <==> Tagged(entries[index], tag)
      ensures matches ==> On(index)
    {
      HeadAt(entries, index);
      FieldFits(entries, index);
      matches := false;
      if LowTag(table[fieldInfoIndex]) == tag & 0x3F {
        var _ := LoadValues();
        matches := current.tag == tag && !IsExtension(current.kind);
      }
    }
  }

  /** pb_field_iter_begin: false for a message without fields. */
  method BeginIteration(table: seq<bv32>, fieldCount: nat, largestTag: bv32, message: bool, ghost entries: seq<Entry>)
    returns (iter: FieldIter, ok: bool)
    requires fieldCount == |entries| && table == Table(entries)
    requires entries != [] ==> WellFormed(entries) && largestTag == entries[|entries| - 1].info.tag
    ensures fresh(iter) && iter.entries == entries && iter.message == message
    ensures ok <==> fieldCount > 0
    ensures ok ==> iter.On(0)
  {
    iter := new FieldIter.Zeroed(table, fieldCount, largestTag, message, entries);
    ok := iter.LoadValues();
  }
}
