/**
 Telemetry records and the heap memory they own. Metrics live in four inline slots and, from
 the fifth on, in a heap table; string and byte values live in blobs of their own. Heap
 blocks are explicit: freeing requires the block to be live, so every method that verifies
 frees each block at most once.
 */
module Telemetry {
  import opened Wrappers
  import opened Varint
  import IngestEvent

  const INLINE_METRICS: nat := 4
  const TABLE_SLOTS: nat := 28

  // ------------------------------------------------------------------- memory contents

  datatype Value =
    | IntValue(i: int)
    | DoubleValue(bits: nat)
    | BoolValue(b: bool)
    | StringValue(blob: Option<Addr>, size: nat)
    | BytesValue(blob: Option<Addr>, size: nat)

  datatype Metric = Metric(key: seq<Byte>, unit: seq<Byte>, value: Value)

  datatype Block = Blob(bytes: seq<Byte>) | Table(rows: seq<Metric>)

  type Blocks = map<Addr, Block>

  /** The struct itself: what a memcpy of it copies. */
  datatype Record = Record(count: nat, inlined: seq<Metric>, table: Option<Addr>)

  const ZEROED: Metric := Metric([], [], IntValue(0))

  function BlobOf(m: Metric): Option<Addr> {
    if m.value.StringValue? || m.value.BytesValue? then m.value.blob else None
  }

  function BlobSet(ms: seq<Metric>): set<Addr> {
    if ms == [] then {} else
    var last := BlobOf(ms[|ms| - 1]);
    BlobSet(ms[..|ms| - 1]) + (if last.Some? then {last.value} else {})
  }

  predicate HasTable(t: Record, h: Blocks) {
    t.table.Some? && t.table.value in h && h[t.table.value].Table?
  }

  /** Inline slots followed by the table's. */
  function Slots(t: Record, h: Blocks): seq<Metric> {
    t.inlined + if HasTable(t, h) then h[t.table.value].rows else []
  }

  /** Strings have a NUL-terminated blob, byte values a blob exactly when not empty. */
  predicate BlobFits(m: Metric, h: Blocks) {
    match m.value
    case StringValue(blob, size) =>
      blob.Some? && blob.value in h && h[blob.value].Blob? && |h[blob.value].bytes| == size + 1 && h[blob.value].bytes[size] == 0
    case BytesValue(blob, size) =>
      if size == 0 then blob.None?
      else blob.Some? && blob.value in h && h[blob.value].Blob? && |h[blob.value].bytes| == size
    case _ => true
  }

  predicate Distinct(ms: seq<Metric>) {
    forall i, j :: 0 <= i < j < |ms| && BlobOf(ms[i]).Some? ==> BlobOf(ms[i]) != BlobOf(ms[j])
  }

  predicate Shaped(t: Record, h: Blocks) {
    && |t.inlined| == INLINE_METRICS && t.count <= IngestEvent.MAX_METRICS
    && (t.table.Some? ==> HasTable(t, h) && |h[t.table.value].rows| == TABLE_SLOTS)
    && (t.count > INLINE_METRICS ==> t.table.Some?)
  }

  function Used(t: Record, h: Blocks): seq<Metric>
    requires Shaped(t, h)
  {
    Slots(t, h)[..t.count]
  }

  /** The record owns its table and the blobs of its used slots, each blob once. */
  predicate Owned(t: Record, h: Blocks) {
    && Shaped(t, h)
    && (forall i :: 0 <= i < t.count ==> BlobFits(Used(t, h)[i], h))
    && Distinct(Used(t, h))
  }

  function Footprint(t: Record, h: Blocks): set<Addr>
    requires Shaped(t, h)
  {
    BlobSet(Used(t, h)) + if t.table.Some? then {t.table.value} else {}
  }

  // ------------------------------------------------------------------- logical contents

  datatype Reading =
    | Int(i: int)
    | Double(bits: nat)
    | Bool(b: bool)
    | Text(text: seq<Byte>)
    | Bytes(bytes: seq<Byte>)

  datatype Entry = Entry(key: seq<Byte>, unit: seq<Byte>, reading: Reading)

  function Resolve(m: Metric, h: Blocks): Entry
    requires BlobFits(m, h)
  {
    Entry(m.key, m.unit,
      match m.value
      case IntValue(i) => Int(i)
      case DoubleValue(bits) => Double(bits)
      case BoolValue(b) => Bool(b)
      case StringValue(blob, size) => Text(h[blob.value].bytes[..size])
      case BytesValue(blob, size) => Bytes(if size == 0 then [] else h[blob.value].bytes))
  }

  /** What the record says, in order. */
  function Contents(t: Record, h: Blocks): (c: seq<Entry>)
    requires Owned(t, h)
    ensures |c| == t.count
  {
    seq(t.count, i requires 0 <= i < t.count => Resolve(Used(t, h)[i], h))
  }

  // ------------------------------------------------------------------------- framing

  lemma {:induction false} InBlobSet(ms: seq<Metric>, i: nat)
    requires i < |ms| && BlobOf(ms[i]).Some?
    ensures BlobOf(ms[i]).value in BlobSet(ms)
  {
    if i < |ms| - 1 { InBlobSet(ms[..|ms| - 1], i); }
  }

  lemma {:induction false} BlobSetMember(ms: seq<Metric>, a: Addr) returns (i: nat)
    requires a in BlobSet(ms)
    ensures i < |ms| && BlobOf(ms[i]) == Some(a)
  {
    if BlobOf(ms[|ms| - 1]) == Some(a) {
      i := |ms| - 1;
    } else {
      i := BlobSetMember(ms[..|ms| - 1], a);
    }
  }

  /** The two heaps agree on a set of blocks. */
  predicate Agree(h: Blocks, g: Blocks, a: set<Addr>) {
    forall x :: x in a ==> x in h && x in g && h[x] == g[x]
  }

  lemma FitsElsewhere(m: Metric, h: Blocks, g: Blocks)
    requires BlobFits(m, h)
    requires BlobOf(m).Some? ==> Agree(h, g, {BlobOf(m).value})
    ensures BlobFits(m, g) && Resolve(m, g) == Resolve(m, h)
  {
  }

  /** A record depends on its footprint only: where that is unchanged, so is the record. */
  lemma Frame(t: Record, h: Blocks, g: Blocks)
    requires Owned(t, h) && Agree(h, g, Footprint(t, h))
    ensures Owned(t, g) && Footprint(t, g) == Footprint(t, h) && Contents(t, g) == Contents(t, h)
  {
    assert Slots(t, g) == Slots(t, h);
    var ms := Used(t, h);
    forall i | 0 <= i < t.count ensures BlobFits(ms[i], g) && Resolve(ms[i], g) == Resolve(ms[i], h) {
      if BlobOf(ms[i]).Some? { InBlobSet(ms, i); }
      FitsElsewhere(ms[i], h, g);
    }
  }

  // ------------------------------------------------------------------- writing a slot

  function PutRecord(t: Record, i: nat, m: Metric): Record
    requires |t.inlined| == INLINE_METRICS
  {
    if i < INLINE_METRICS then t.(inlined := t.inlined[i := m]) else t
  }

  function PutBlocks(t: Record, h: Blocks, i: nat, m: Metric): Blocks
    requires Shaped(t, h) && i < |Slots(t, h)|
  {
    if i < INLINE_METRICS then h
    else h[t.table.value := Table(h[t.table.value].rows[i - INLINE_METRICS := m])]
  }

  lemma PutSlots(t: Record, h: Blocks, i: nat, m: Metric)
    requires Shaped(t, h) && i < |Slots(t, h)|
    ensures Shaped(PutRecord(t, i, m), PutBlocks(t, h, i, m))
    ensures Slots(PutRecord(t, i, m), PutBlocks(t, h, i, m)) == Slots(t, h)[i := m]
    ensures PutBlocks(t, h, i, m).Keys == h.Keys
    ensures forall a :: a in h && t.table != Some(a) ==> PutBlocks(t, h, i, m)[a] == h[a]
  {
  }

  lemma AppendUsed(t: Record, h: Blocks, m: Metric)
    requires Shaped(t, h) && t.count < IngestEvent.MAX_METRICS && t.count < |Slots(t, h)|
    ensures var t', h' := PutRecord(t, t.count, m).(count := t.count + 1), PutBlocks(t, h, t.count, m);
            && Shaped(t', h') && Used(t', h') == Used(t, h) + [m]
            && BlobSet(Used(t', h')) == BlobSet(Used(t, h)) + if BlobOf(m).Some? then {BlobOf(m).value} else {}
  {
    PutSlots(t, h, t.count, m);
    var ms := Used(t, h);
    assert (ms + [m])[..|ms + [m]| - 1] == ms;
  }

  lemma DistinctSnoc(ms: seq<Metric>, m: Metric)
    requires Distinct(ms) && (BlobOf(m).Some? ==> BlobOf(m).value !in BlobSet(ms))
    ensures Distinct(ms + [m])
  {
    forall i | 0 <= i < |ms| && BlobOf(ms[i]).Some? ensures BlobOf(ms[i]) != BlobOf(m) { InBlobSet(ms, i); }
  }

  /** Rewriting table rows leaves blobs alone. */
  lemma PutKeepsBlobs(t: Record, h: Blocks, i: nat, m: Metric, x: Metric)
    requires Shaped(t, h) && i < |Slots(t, h)| && BlobFits(x, h)
    ensures BlobFits(x, PutBlocks(t, h, i, m)) && Resolve(x, PutBlocks(t, h, i, m)) == Resolve(x, h)
  {
  }

  /** Writing the first unused slot and counting it appends one entry. */
  lemma AppendOwned(t: Record, h: Blocks, m: Metric)
    requires Owned(t, h) && t.count < IngestEvent.MAX_METRICS && t.count < |Slots(t, h)| && BlobFits(m, h)
    requires BlobOf(m).Some? ==> BlobOf(m).value !in Footprint(t, h)
    ensures var t', h' := PutRecord(t, t.count, m).(count := t.count + 1), PutBlocks(t, h, t.count, m);
            && Owned(t', h') && Contents(t', h') == Contents(t, h) + [Resolve(m, h)]
            && Footprint(t', h') == Footprint(t, h) + if BlobOf(m).Some? then {BlobOf(m).value} else {}
  {
    var t', h' := PutRecord(t, t.count, m).(count := t.count + 1), PutBlocks(t, h, t.count, m);
    AppendUsed(t, h, m);
    var ms := Used(t, h);
    DistinctSnoc(ms, m);
    forall i | 0 <= i < t'.count ensures BlobFits((ms + [m])[i], h') && Resolve((ms + [m])[i], h') == Resolve((ms + [m])[i], h) {
      PutKeepsBlobs(t, h, t.count, m, (ms + [m])[i]);
    }
    SnocContents(t, h, t', h', m);
  }

  lemma SnocContents(t: Record, h: Blocks, t': Record, h': Blocks, m: Metric)
    requires Owned(t, h) && Shaped(t', h') && Distinct(Used(t', h')) && t'.count == t.count + 1
    requires Used(t', h') == Used(t, h) + [m] && BlobFits(m, h)
    requires forall i :: 0 <= i < t'.count ==> BlobFits(Used(t', h')[i], h')
    requires forall i :: 0 <= i < t.count ==> Resolve(Used(t', h')[i], h') == Resolve(Used(t, h)[i], h)
    requires Resolve(Used(t', h')[t.count], h') == Resolve(m, h)
    ensures Owned(t', h') && Contents(t', h') == Contents(t, h) + [Resolve(m, h)]
  {
  }

  /** Taking back a last entry that owns nothing. */
  lemma DropLast(t: Record, h: Blocks)
    requires Owned(t, h) && t.count > 0 && BlobOf(Used(t, h)[t.count - 1]).None?
    ensures var t' := t.(count := t.count - 1);
            Shaped(t', h) && Owned(t', h) && Contents(t', h) == Contents(t, h)[..t.count - 1] && Footprint(t', h) == Footprint(t, h)
  {
    var t', ms := t.(count := t.count - 1), Used(t, h);
    assert Used(t', h) == ms[..|ms| - 1];
    assert Contents(t', h) == Contents(t, h)[..t.count - 1];
  }

  /** Writing the last used slot, which owns nothing yet. */
  lemma ReplaceLast(t: Record, h: Blocks, m: Metric)
    requires Owned(t, h) && t.count > 0 && BlobOf(Used(t, h)[t.count - 1]).None? && BlobFits(m, h)
    requires BlobOf(m).Some? ==> BlobOf(m).value !in Footprint(t, h)
    ensures t.count - 1 < |Slots(t, h)|
    ensures var t', h' := PutRecord(t, t.count - 1, m), PutBlocks(t, h, t.count - 1, m);
            && Owned(t', h') && Contents(t', h') == Contents(t, h)[..t.count - 1] + [Resolve(m, h)]
            && Footprint(t', h') == Footprint(t, h) + (if BlobOf(m).Some? then {BlobOf(m).value} else {})
            && h'.Keys == h.Keys && Agree(h, h', h.Keys - Footprint(t, h))
  {
    DropLast(t, h);
    AppendOwned(t.(count := t.count - 1), h, m);
    PutSlots(t, h, t.count - 1, m);
  }

  /** A slot past the used ones may be overwritten freely. */
  lemma PutUnused(t: Record, h: Blocks, m: Metric)
    requires Owned(t, h) && t.count < |Slots(t, h)|
    ensures var t', h' := PutRecord(t, t.count, m), PutBlocks(t, h, t.count, m);
            Owned(t', h') && Contents(t', h') == Contents(t, h) && Footprint(t', h') == Footprint(t, h)
  {
    var t', h' := PutRecord(t, t.count, m), PutBlocks(t, h, t.count, m);
    PutSlots(t, h, t.count, m);
    var ms := Used(t, h);
    assert Used(t', h') == ms;
    forall i | 0 <= i < t.count ensures BlobFits(ms[i], h') && Resolve(ms[i], h') == Resolve(ms[i], h) {
      FitsElsewhere(ms[i], h, h');
    }
  }

  /** A metric that points to a blob with its bytes says what was given. */
  lemma BlobMetric(key: seq<Byte>, unit: seq<Byte>, x: Reading, a: Addr, h: Blocks)
    requires NeedsBlob(x) && a in h && h[a] == Blob(if x.Text? then x.text + [0] else x.bytes)
    ensures var m := Metric(key, unit, if x.Text? then StringValue(Some(a), |x.text|) else BytesValue(Some(a), |x.bytes|));
            BlobFits(m, h) && Resolve(m, h) == Entry(key, unit, x) && BlobOf(m) == Some(a)
  {}

  /** A new, unreferenced block changes nothing for a record. */
  lemma NewBlock(t: Record, h: Blocks, a: Addr, b: Block)
    requires Owned(t, h) && a !in h
    ensures Owned(t, h[a := b]) && Contents(t, h[a := b]) == Contents(t, h) && Footprint(t, h[a := b]) == Footprint(t, h)
    ensures a !in Footprint(t, h)
  {
    FootprintLive(t, h);
    Frame(t, h, h[a := b]);
  }

  lemma FootprintLive(t: Record, h: Blocks)
    requires Owned(t, h)
    ensures Footprint(t, h) <= h.Keys
  {
    forall a | a in BlobSet(Used(t, h)) ensures a in h {
      var i := BlobSetMember(Used(t, h), a);
      assert BlobFits(Used(t, h)[i], h);
    }
  }

  /** Attaching a zeroed table gives a record room for 28 more. */
  lemma AttachTable(t: Record, h: Blocks, a: Addr)
    requires Owned(t, h) && t.table.None? && a !in h
    ensures var t', h' := t.(table := Some(a)), h[a := Table(seq(TABLE_SLOTS, _ => ZEROED))];
            && Owned(t', h') && Contents(t', h') == Contents(t, h)
            && Footprint(t', h') == Footprint(t, h) + {a} && |Slots(t', h')| == IngestEvent.MAX_METRICS
  {
    var h' := h[a := Table(seq(TABLE_SLOTS, _ => ZEROED))];
    NewBlock(t, h, a, h'[a]);
    var t' := t.(table := Some(a));
    assert Used(t', h') == Used(t, h);
  }

  // ---------------------------------------------------------------------- the objects

  class Heap {
    var blocks: Blocks
    var next: Addr

    ghost predicate Valid()
      reads this
    {
      forall a :: a in blocks ==> a < next
    }

    constructor ()
      ensures Valid() && blocks == map[]
    {
      blocks, next := map[], 0;
    }

    /** pvPortMalloc and initialisation; `granted` is the allocator's answer. */
    method Malloc(b: Block, granted: bool) returns (a: Option<Addr>)
      requires Valid()
      modifies this
      ensures Valid() && a == if granted then Some(old(next)) else None
      ensures next == old(next) + if granted then 1 else 0
      ensures blocks == if granted then old(blocks)[old(next) := b] else old(blocks)
    {
      if !granted {
        return None;
      }
      a := Some(next);
      blocks := blocks[next := b];
      next := next + 1;
    }

    /** vPortFree: only live blocks may be freed. */
    method Free(a: Addr)
      requires Valid() && a in blocks
      modifies this`blocks
      ensures Valid() && blocks == old(blocks) - {a}
    {
      blocks := blocks - {a};
    }

    /** Frees the blobs of a list of slots, one by one. */
    method FreeBlobs(ms: seq<Metric>)
      requires Valid() && Distinct(ms) && BlobSet(ms) <= blocks.Keys
      modifies this`blocks
      ensures Valid() && blocks == old(blocks) - BlobSet(ms)
    {
      assert ms[..0] == [];
      for i := 0 to |ms|
        invariant Valid() && blocks == old(blocks) - BlobSet(ms[..i])
      {
        var p := ms[..i + 1];
        assert p[..|p| - 1] == ms[..i] && p[|p| - 1] == ms[i];
        if BlobOf(ms[i]).Some? {
          InBlobSet(ms, i);
          NotYetFreed(ms, i);
          Free(BlobOf(ms[i]).value);
        }
      }
      assert ms[..|ms|] == ms;
    }
  }

  lemma NotYetFreed(ms: seq<Metric>, i: nat)
    requires i < |ms| && Distinct(ms) && BlobOf(ms[i]).Some?
    ensures BlobOf(ms[i]).value !in BlobSet(ms[..i])
  {
    if BlobOf(ms[i]).value in BlobSet(ms[..i]) {
      var j := BlobSetMember(ms[..i], BlobOf(ms[i]).value);
      assert false;
    }
  }

  /** From one heap to the other, nothing outside an owner's blocks changed, and apart from
      the owner's blocks the same ones are live: nothing leaked, nothing was freed elsewhere. */
  predicate Spared(h: Blocks, owned: set<Addr>, g: Blocks, owned': set<Addr>) {
    g.Keys - owned' == h.Keys - owned && Agree(h, g, h.Keys - owned)
  }

  /** One new block for the owner, which otherwise changed only its own. */
  lemma SparedByNew(h: Blocks, o: set<Addr>, a: Addr, h1: Blocks, h2: Blocks)
    requires a !in h && h1.Keys == h.Keys + {a} && (forall b :: b in h ==> h1[b] == h[b])
    requires h2.Keys == h1.Keys && Agree(h1, h2, h1.Keys - o)
    ensures Spared(h, o, h2, o + {a})
  {}

  lemma SparedTransitive(h: Blocks, o: set<Addr>, g: Blocks, p: set<Addr>, k: Blocks, q: set<Addr>)
    requires Spared(h, o, g, p) && Spared(g, p, k, q)
    ensures Spared(h, o, k, q)
  {
    forall x | x in h.Keys - o ensures x in h && x in k && h[x] == k[x] {
      assert x in g.Keys - p;
    }
  }

  predicate KeyFits(key: seq<Byte>, unit: seq<Byte>) {
    key != [] && |key| < 20 && |unit| < 8
  }

  predicate NeedsBlob(x: Reading) {
    x.Text? || (x.Bytes? && x.bytes != [])
  }

  datatype Outcome = Ok | InvalidArg | NoMemory

  /** One add call and the allocator's answers to it. */
  datatype Call = Call(key: seq<Byte>, unit: seq<Byte>, reading: Reading, inIsr: bool, grantTable: bool, grantBlob: bool)

  /** The entries of the calls that succeeded, in call order. */
  function Succeeded(calls: seq<Call>, results: seq<Outcome>): seq<Entry>
    requires |calls| == |results|
  {
    if calls == [] then [] else
    var c := calls[|calls| - 1];
    Succeeded(calls[..|calls| - 1], results[..|calls| - 1])
      + (if results[|calls| - 1].Ok? then [Entry(c.key, c.unit, c.reading)] else [])
  }

  /** A telemetry struct in memory. */
  class Telemetry {
    const heap: Heap
    var count: nat
    var inlined: seq<Metric>
    var table: Option<Addr>

    function View(): Record
      reads this
    {
      Record(count, inlined, table)
    }

    ghost predicate Valid()
      reads this, heap
    {
      heap.Valid() && Owned(View(), heap.blocks)
    }

    ghost function Says(): seq<Entry>
      requires Valid()
      reads this, heap
    {
      Contents(View(), heap.blocks)
    }

    ghost function Owns(): set<Addr>
      requires Valid()
      reads this, heap
    {
      Footprint(View(), heap.blocks)
    }

    /** aetus_telemetry_init */
    constructor (heap: Heap)
      requires heap.Valid()
      ensures this.heap == heap && Valid() && Says() == [] && Owns() == {}
    {
      this.heap := heap;
      count, inlined, table := 0, seq(INLINE_METRICS, _ => ZEROED), None;
    }

    method PutSlot(i: nat, m: Metric)
      requires Shaped(View(), heap.blocks) && i < |Slots(View(), heap.blocks)|
      modifies this`inlined, heap`blocks
      ensures View() == PutRecord(old(View()), i, m) && heap.blocks == PutBlocks(old(View()), old(heap.blocks), i, m)
    {
      if i < INLINE_METRICS {
        inlined := inlined[i := m];
      } else {
        heap.blocks := heap.blocks[table.value := Table(heap.blocks[table.value].rows[i - INLINE_METRICS := m])];
      }
    }

    /** The heap table, on the first metric that needs it; never from an interrupt. */
    method EnsureRoom(inIsr: bool, granted: bool) returns (r: Outcome)
      requires Valid() && count < IngestEvent.MAX_METRICS
      modifies this`table, heap
      ensures Valid() && Says() == old(Says()) && Spared(old(heap.blocks), old(Owns()), heap.blocks, Owns())
      ensures r == (if count < INLINE_METRICS || old(table).Some? then Ok else if inIsr then InvalidArg
                    else if granted then Ok else NoMemory)
      ensures r.Ok? ==> count < |Slots(View(), heap.blocks)|
      ensures table.Some? <==> old(table).Some? || (count >= INLINE_METRICS && r.Ok?)
    {
      if count >= INLINE_METRICS && table.None? {
        if inIsr {
          return InvalidArg;
        }
        AttachTable(View(), heap.blocks, heap.next);
        FootprintLive(View(), heap.blocks);
        var a := heap.Malloc(Table(seq(TABLE_SLOTS, _ => ZEROED)), granted);
        if a.None? {
          return NoMemory;
        }
        table := a;
      }
      r := Ok;
    }

    /** append_metric once there is room: a zeroed metric with key and unit. */
    method AppendZeroed(key: seq<Byte>, unit: seq<Byte>)
      requires Valid() && count < IngestEvent.MAX_METRICS && count < |Slots(View(), heap.blocks)|
      modifies this`inlined, this`count, heap`blocks
      ensures Valid() && count == old(count) + 1 && table == old(table)
      ensures Says() == old(Says()) + [Entry(key, unit, Int(0))]
      ensures Owns() == old(Owns()) && BlobOf(Used(View(), heap.blocks)[count - 1]).None?
      ensures Spared(old(heap.blocks), old(Owns()), heap.blocks, Owns())
    {
      var m := Metric(key, unit, IntValue(0));
      AppendOwned(View(), heap.blocks, m);
      PutSlots(View(), heap.blocks, count, m);
      PutSlot(count, m);
      count := count + 1;
    }

    /** Gives the last metric, which owns nothing yet, its value. */
    method SetLast(m: Metric)
      requires Valid() && count > 0 && BlobOf(Used(View(), heap.blocks)[count - 1]).None?
      requires BlobFits(m, heap.blocks) && (BlobOf(m).Some? ==> BlobOf(m).value !in Owns())
      modifies this`inlined, heap`blocks
      ensures Valid() && Says() == old(Says()[..count - 1] + [Resolve(m, heap.blocks)])
      ensures Owns() == old(Owns()) + if BlobOf(m).Some? then {BlobOf(m).value} else {}
      ensures heap.blocks.Keys == old(heap.blocks).Keys
      ensures Agree(old(heap.blocks), heap.blocks, old(heap.blocks.Keys - Owns()))
    {
      ReplaceLast(View(), heap.blocks, m);
      PutSlot(count - 1, m);
    }

    /** Takes the last metric back and zeroes its slot. */
    method UndoLast()
      requires Valid() && count > 0 && BlobOf(Used(View(), heap.blocks)[count - 1]).None?
      modifies this`inlined, this`count, heap`blocks
      ensures Valid() && Says() == old(Says())[..old(count) - 1] && Owns() == old(Owns())
      ensures Spared(old(heap.blocks), old(Owns()), heap.blocks, Owns())
    {
      DropLast(View(), heap.blocks);
      count := count - 1;
      PutUnused(View(), heap.blocks, ZEROED);
      PutSlots(View(), heap.blocks, count, ZEROED);
      PutSlot(count, ZEROED);
    }

    /** Any of the add functions: appends exactly one entry, or changes nothing visible. */
    method Add(key: seq<Byte>, unit: seq<Byte>, x: Reading, inIsr: bool, grantTable: bool, grantBlob: bool) returns (r: Outcome)
      requires Valid()
      modifies this, heap
      ensures Valid() && Spared(old(heap.blocks), old(Owns()), heap.blocks, Owns())
      ensures Says() == old(Says()) + if r.Ok? then [Entry(key, unit, x)] else []
      ensures r.InvalidArg? <==>
        key == [] || |key| >= 20 || |unit| >= 8 || old(count) >= 32 || (old(count) >= 4 && old(table).None? && inIsr)
      ensures r.Ok? <==>
        && key != [] && |key| < 20 && |unit| < 8 && old(count) < 32
        && (old(count) < 4 || old(table).Some? || (!inIsr && grantTable))
        && (x.Text? || (x.Bytes? && |x.bytes| > 0) ==> grantBlob)
      ensures count == old(count) + if r.Ok? then 1 else 0
      ensures table.Some? <==>
        old(table).Some? || (key != [] && |key| < 20 && |unit| < 8 && INLINE_METRICS <= old(count) < IngestEvent.MAX_METRICS && !inIsr && grantTable)
    {
      if !KeyFits(key, unit) || count >= IngestEvent.MAX_METRICS {
        return InvalidArg;
      }
      r := EnsureRoom(inIsr, grantTable);
      if !r.Ok? {
        return;
      }
      ghost var h, o := heap.blocks, Owns();
      r := Append(key, unit, x, grantBlob);
      SparedTransitive(old(heap.blocks), old(Owns()), h, o, heap.blocks, Owns());
    }

    /** A metric with its value, once there is room for it. */
    method Append(key: seq<Byte>, unit: seq<Byte>, x: Reading, granted: bool) returns (r: Outcome)
      requires Valid() && count < IngestEvent.MAX_METRICS && count < |Slots(View(), heap.blocks)|
      modifies this`inlined, this`count, heap
      ensures Valid() && Spared(old(heap.blocks), old(Owns()), heap.blocks, Owns())
      ensures Says() == old(Says()) + if r.Ok? then [Entry(key, unit, x)] else []
      ensures r == if NeedsBlob(x) && !granted then NoMemory else Ok
      ensures count == old(count) + if r.Ok? then 1 else 0
    {
      AppendZeroed(key, unit);
      ghost var h, o := heap.blocks, Owns();
      r := Ok;
      if NeedsBlob(x) {
        r := SetBlob(key, unit, x, granted);
      } else {
        SetPlain(key, unit, x);
      }
      SparedTransitive(old(heap.blocks), old(Owns()), h, o, heap.blocks, Owns());
    }

    method SetPlain(key: seq<Byte>, unit: seq<Byte>, x: Reading)
      requires Valid() && count > 0 && BlobOf(Used(View(), heap.blocks)[count - 1]).None? && !NeedsBlob(x)
      modifies this`inlined, heap`blocks
      ensures Valid() && Spared(old(heap.blocks), old(Owns()), heap.blocks, Owns())
      ensures Says() == old(Says())[..count - 1] + [Entry(key, unit, x)]
    {
      var value := if x.Double? then DoubleValue(x.bits) else if x.Bool? then BoolValue(x.b)
                   else if x.Int? then IntValue(x.i) else BytesValue(None, |x.bytes|);
      SetLast(Metric(key, unit, value));
    }

    /** Allocates and fills the blob of the last metric, or takes the metric back. */
    method SetBlob(key: seq<Byte>, unit: seq<Byte>, x: Reading, granted: bool) returns (r: Outcome)
      requires Valid() && count > 0 && BlobOf(Used(View(), heap.blocks)[count - 1]).None? && NeedsBlob(x)
      modifies this`inlined, this`count, heap
      ensures Valid() && Spared(old(heap.blocks), old(Owns()), heap.blocks, Owns())
      ensures Says() == old(Says())[..old(count) - 1] + if r.Ok? then [Entry(key, unit, x)] else []
      ensures r == if granted then Ok else NoMemory
    {
      var bytes := if x.Text? then x.text + [0] else x.bytes;
      ghost var h := heap.blocks;
      NewBlock(View(), h, heap.next, Blob(bytes));
      var a := heap.Malloc(Blob(bytes), granted);
      if a.None? {
        UndoLast();
        r := NoMemory;
      } else {
        FillBlob(key, unit, x, a.value, h);
        r := Ok;
      }
    }

    /** The success path: the new block becomes the owner's. */
    method FillBlob(key: seq<Byte>, unit: seq<Byte>, x: Reading, a: Addr, ghost h: Blocks)
      requires Valid() && count > 0 && BlobOf(Used(View(), heap.blocks)[count - 1]).None? && NeedsBlob(x)
      requires a !in h && heap.blocks == h[a := Blob(if x.Text? then x.text + [0] else x.bytes)] && a !in Owns()
      modifies this`inlined, heap`blocks
      ensures Valid() && Says() == old(Says())[..count - 1] + [Entry(key, unit, x)]
      ensures Spared(h, old(Owns()), heap.blocks, Owns())
    {
      PlaceBlob(key, unit, x, a);
      SparedByNew(h, old(Owns()), a, old(heap.blocks), heap.blocks);
    }

    /** Points the last metric to a new blob that holds its bytes. */
    method PlaceBlob(key: seq<Byte>, unit: seq<Byte>, x: Reading, a: Addr)
      requires Valid() && count > 0 && BlobOf(Used(View(), heap.blocks)[count - 1]).None? && NeedsBlob(x)
      requires a in heap.blocks && heap.blocks[a] == Blob(if x.Text? then x.text + [0] else x.bytes) && a !in Owns()
      modifies this`inlined, heap`blocks
      ensures Valid() && Says() == old(Says())[..count - 1] + [Entry(key, unit, x)] && Owns() == old(Owns()) + {a}
      ensures heap.blocks.Keys == old(heap.blocks).Keys
      ensures Agree(old(heap.blocks), heap.blocks, old(heap.blocks.Keys - Owns()))
    {
      BlobMetric(key, unit, x, a, heap.blocks);
      SetLast(Metric(key, unit, if x.Text? then StringValue(Some(a), |x.text|) else BytesValue(Some(a), |x.bytes|)));
    }

    /** Any run of add calls: the record says what it said, then exactly the successful adds. */
    method AddAll(calls: seq<Call>) returns (results: seq<Outcome>)
      requires Valid()
      modifies this, heap
      ensures Valid() && |results| == |calls|
      ensures Says() == old(Says()) + Succeeded(calls, results)
      ensures Spared(old(heap.blocks), old(Owns()), heap.blocks, Owns())
    {
      results := [];
      for i := 0 to |calls|
        invariant Valid() && |results| == i
        invariant Says() == old(Says()) + Succeeded(calls[..i], results)
        invariant Spared(old(heap.blocks), old(Owns()), heap.blocks, Owns())
      {
        ghost var h, o := heap.blocks, Owns();
        var c := calls[i];
        var r := Add(c.key, c.unit, c.reading, c.inIsr, c.grantTable, c.grantBlob);
        SparedTransitive(old(heap.blocks), old(Owns()), h, o, heap.blocks, Owns());
        SucceededSnoc(calls, results, i, r);
        results := results + [r];
      }
      assert calls[..|calls|] == calls;
    }
  }

  lemma SucceededSnoc(calls: seq<Call>, results: seq<Outcome>, i: nat, r: Outcome)
    requires i < |calls| && |results| == i
    ensures Succeeded(calls[..i + 1], results + [r]) == Succeeded(calls[..i], results)
            + if r.Ok? then [Entry(calls[i].key, calls[i].unit, calls[i].reading)] else []
  {
    assert calls[..i + 1][..i] == calls[..i] && (results + [r])[..i] == results;
  }
}
