/**
 Deep copy of a telemetry record into a queue item, and the release of either. The copy
 starts as a shallow memcpy and then replaces the table and, slot by slot, the blobs; the
 failure path releases whatever the item's slots point to at that moment.
 */
module QueueItem {
  import opened Wrappers
  import opened Telemetry

  // ----------------------------------------------------------------------- blob lists

  lemma {:induction false} BlobSetConcat(a: seq<Metric>, b: seq<Metric>)
    ensures BlobSet(a + b) == BlobSet(a) + BlobSet(b)
  {
    if b == [] {
      assert a + b == a;
    } else {
      assert (a + b)[..|a + b| - 1] == a + b[..|b| - 1];
      BlobSetConcat(a, b[..|b| - 1]);
    }
  }

  lemma DistinctParts(a: seq<Metric>, b: seq<Metric>)
    requires Distinct(a + b)
    ensures Distinct(a) && Distinct(b) && BlobSet(a) !! BlobSet(b)
  {
    var ab := a + b;
    assert forall i :: 0 <= i < |a| ==> ab[i] == a[i];
    assert forall i :: 0 <= i < |b| ==> ab[|a| + i] == b[i];
    forall x | x in BlobSet(a) ensures x !in BlobSet(b) {
      if x in BlobSet(b) {
        var i := BlobSetMember(a, x);
        var j := BlobSetMember(b, x);
        assert false;
      }
    }
  }

  lemma DistinctJoin(a: seq<Metric>, b: seq<Metric>)
    requires Distinct(a) && Distinct(b) && BlobSet(a) !! BlobSet(b)
    ensures Distinct(a + b)
  {
    forall i, j | 0 <= i < j < |a + b| && BlobOf((a + b)[i]).Some? ensures BlobOf((a + b)[i]) != BlobOf((a + b)[j]) {
      if i < |a| <= j {
        InBlobSet(a, i);
        if BlobOf(b[j - |a|]).Some? { InBlobSet(b, j - |a|); }
      }
    }
  }

  // -------------------------------------------------------------------------- release

  /** What release needs: the used slots' blobs are live blob blocks, each referenced once. */
  ghost predicate Releasable(t: Record, h: Blocks) {
    && Shaped(t, h) && Distinct(Used(t, h))
    && forall a :: a in BlobSet(Used(t, h)) ==> a in h && h[a].Blob?
  }

  lemma OwnedReleasable(t: Record, h: Blocks)
    requires Owned(t, h)
    ensures Releasable(t, h)
  {
    forall a | a in BlobSet(Used(t, h)) ensures a in h && h[a].Blob? {
      var i := BlobSetMember(Used(t, h), a);
      assert BlobFits(Used(t, h)[i], h);
    }
  }

  function Forget(m: Metric): Metric {
    match m.value
    case StringValue(Some(_), _) => m.(value := StringValue(None, 0))
    case BytesValue(Some(_), _) => m.(value := BytesValue(None, 0))
    case _ => m
  }

  /** The used slots are those inline and those in the table, and their blobs are all different. */
  lemma ReleasedParts(t: Record, h: Blocks, n: nat, front: seq<Metric>, back: seq<Metric>)
    requires Releasable(t, h) && n == (if t.count < INLINE_METRICS then t.count else INLINE_METRICS)
    requires front == t.inlined[..n]
    requires back == if t.table.Some? && t.count > INLINE_METRICS then h[t.table.value].rows[..t.count - INLINE_METRICS] else []
    ensures Distinct(front) && Distinct(back) && BlobSet(front) !! BlobSet(back)
    ensures BlobSet(Used(t, h)) == BlobSet(front) + BlobSet(back)
  {
    assert Used(t, h) == front + back;
    DistinctParts(front, back);
    BlobSetConcat(front, back);
  }

  /** Frees the blobs of the inline slots, then those of the table, then the table; the
      pointers are nulled on the way. */
  method Release(t: Telemetry)
    requires t.heap.Valid() && Releasable(t.View(), t.heap.blocks)
    modifies t, t.heap`blocks
    ensures t.heap.Valid()
    ensures t.heap.blocks == old(t.heap.blocks) - old(Footprint(t.View(), t.heap.blocks))
    ensures t.table.None? && t.count == old(t.count) && t.inlined == Forgotten(old(t.inlined), t.count)
  {
    var n := if t.count < INLINE_METRICS then t.count else INLINE_METRICS;
    var front := t.inlined[..n];
    var back := if t.table.Some? && t.count > INLINE_METRICS
                then t.heap.blocks[t.table.value].rows[..t.count - INLINE_METRICS] else [];
    ReleasedParts(t.View(), t.heap.blocks, n, front, back);
    t.heap.FreeBlobs(front);
    t.inlined := Forgotten(t.inlined, t.count);
    ReleaseTable(t, back);
  }

  /** The inline slots after the first `n` of all slots were released. */
  function Forgotten(slots: seq<Metric>, n: nat): seq<Metric> {
    seq(|slots|, i requires 0 <= i < |slots| => if i < n then Forget(slots[i]) else slots[i])
  }

  /** A slot whose blob was freed: pointer and size are zero; any other slot is as before. */
  predicate Nulled(before: Metric, after: Metric) {
    after == before.(value := if before.value.StringValue? && before.value.blob.Some? then StringValue(None, 0)
                              else if before.value.BytesValue? && before.value.blob.Some? then BytesValue(None, 0)
                              else before.value)
  }

  lemma ForgottenIs(slots: seq<Metric>, n: nat, i: nat)
    requires i < |slots|
    ensures if i < n then Nulled(slots[i], Forgotten(slots, n)[i]) else Forgotten(slots, n)[i] == slots[i]
  {}

  /** Frees the blobs of the table's used slots and the table, if there is one. */
  method ReleaseTable(t: Telemetry, back: seq<Metric>)
    requires t.heap.Valid() && Distinct(back) && BlobSet(back) <= t.heap.blocks.Keys
    requires t.table.None? ==> back == []
    requires t.table.Some? ==> t.table.value in t.heap.blocks && t.table.value !in BlobSet(back)
    modifies t`table, t.heap`blocks
    ensures t.heap.Valid() && t.table.None?
    ensures t.heap.blocks == old(t.heap.blocks) - BlobSet(back) - old(TableSet(t.View()))
  {
    if t.table.Some? {
      t.heap.FreeBlobs(back);
      t.heap.Free(t.table.value);
      t.table := None;
    }
  }

  /** aetus_telemetry_deinit: release, then zero the struct. */
  method Deinit(t: Telemetry)
    requires t.Valid()
    modifies t, t.heap`blocks
    ensures t.Valid() && t.Says() == [] && t.Owns() == {}
    ensures t.heap.blocks == old(t.heap.blocks) - old(t.Owns())
  {
    OwnedReleasable(t.View(), t.heap.blocks);
    Release(t);
    t.count, t.inlined := 0, seq(INLINE_METRICS, _ => ZEROED);
  }

  // ----------------------------------------------------------------------------- copy

  /** The slots for which the copy allocates a blob of its own. */
  predicate NeedsCopy(m: Metric) {
    (m.value.StringValue? || (m.value.BytesValue? && m.value.size > 0)) && m.value.blob.Some?
  }

  lemma NeedsCopyIsBlob(m: Metric, h: Blocks)
    requires BlobFits(m, h)
    ensures NeedsCopy(m) <==> BlobOf(m).Some?
  {
  }

  /** Same entry, though perhaps in another blob. */
  predicate CopyOf(x: Metric, h: Blocks, m: Metric, h0: Blocks) {
    BlobFits(m, h0) && BlobFits(x, h) && Resolve(x, h) == Resolve(m, h0)
  }

  /** `c` holds copies of the first slots `ms`: equal entries, blobs of their own above `bound`. */
  predicate Copies(c: seq<Metric>, h: Blocks, ms: seq<Metric>, h0: Blocks, bound: Addr) {
    && |c| <= |ms| && Distinct(c)
    && (forall i :: 0 <= i < |c| ==> CopyOf(c[i], h, ms[i], h0))
    && (forall a :: a in BlobSet(c) ==> bound <= a && a in h && h[a].Blob?)
  }

  predicate Extends(h: Blocks, h0: Blocks) {
    forall a :: a in h0 ==> a in h && h[a] == h0[a]
  }

  function TableSet(t: Record): set<Addr> {
    if t.table.Some? then {t.table.value} else {}
  }

  /** The state of a copy after the slots before `i` were done: the item's slots are copies
      followed by what memcpy put there, and the heap holds the copies besides what it held. */
  ghost predicate Copied(item: Record, h: Blocks, src: Record, h0: Blocks, bound: Addr, i: nat, c: seq<Metric>)
  {
    && Owned(src, h0) && i <= src.count && |c| == i
    && Shaped(item, h) && item.count == src.count && |Slots(item, h)| == |Slots(src, h0)|
    && Slots(item, h) == c + Slots(src, h0)[i..]
    && Copies(c, h, Used(src, h0), h0, bound)
    && Extends(h, h0) && (forall a :: a in h0 ==> a < bound)
    && (item.table.Some? ==> bound <= item.table.value)
    && h.Keys == h0.Keys + BlobSet(c) + TableSet(item)
  }

  /** All slots copied: the item owns an equal record, disjoint from the source. */
  lemma CopyComplete(item: Record, h: Blocks, src: Record, h0: Blocks, bound: Addr, c: seq<Metric>)
    requires Copied(item, h, src, h0, bound, src.count, c)
    ensures Owned(item, h) && Contents(item, h) == Contents(src, h0)
    ensures Footprint(item, h) == BlobSet(c) + TableSet(item)
    ensures h.Keys == h0.Keys + Footprint(item, h) && Footprint(item, h) !! h0.Keys
  {
    assert Used(item, h) == c;
    assert Contents(item, h) == Contents(src, h0);
  }

  lemma AbandonedBlobs(item: Record, h: Blocks, src: Record, h0: Blocks, bound: Addr, i: nat, c: seq<Metric>)
    requires Copied(item, h, src, h0, bound, i, c)
    ensures Releasable(item, h)
    ensures BlobSet(Used(item, h)) == BlobSet(c) + BlobSet(Used(src, h0)[i..])
    ensures BlobSet(Used(src, h0)[i..]) <= h0.Keys
  {
    var ms := Used(src, h0);
    var rest := ms[i..];
    assert Used(item, h) == c + rest;
    assert ms == ms[..i] + rest;
    DistinctParts(ms[..i], rest);
    OwnedReleasable(src, h0);
    BlobSetConcat(ms[..i], rest);
    DistinctJoin(c, rest);
    BlobSetConcat(c, rest);
  }

  lemma Subtract(h: Blocks, h0: Blocks, mine: set<Addr>, theirs: set<Addr>)
    requires Extends(h, h0) && h.Keys == h0.Keys + mine && mine !! h0.Keys && theirs <= h0.Keys
    ensures h - (mine + theirs) == h0 - theirs
  {
    assert (h - (mine + theirs)).Keys == (h0 - theirs).Keys;
  }

  /** Releasing an incomplete copy: the copies made so far, but also the source's blobs that
      the remaining slots still point to. */
  lemma CopyAbandoned(item: Record, h: Blocks, src: Record, h0: Blocks, bound: Addr, i: nat, c: seq<Metric>)
    requires Copied(item, h, src, h0, bound, i, c)
    ensures Releasable(item, h)
    ensures h - Footprint(item, h) == h0 - BlobSet(Used(src, h0)[i..])
  {
    AbandonedBlobs(item, h, src, h0, bound, i, c);
    var mine, theirs := BlobSet(c) + TableSet(item), BlobSet(Used(src, h0)[i..]);
    Subtract(h, h0, mine, theirs);
    assert Footprint(item, h) == mine + theirs;
  }

  /** One more slot: a metric without blob stays as it is. */
  lemma CopyPlain(item: Record, h: Blocks, src: Record, h0: Blocks, bound: Addr, i: nat, c: seq<Metric>)
    requires Copied(item, h, src, h0, bound, i, c) && i < src.count && !NeedsCopy(Used(src, h0)[i])
    ensures Copied(item, h, src, h0, bound, i + 1, c + [Used(src, h0)[i]])
  {
    var m := Used(src, h0)[i];
    NeedsCopyIsBlob(m, h0);
    PlainSlot(c, Slots(src, h0), i);
    SnocBlobSet(c, m);
    FitsElsewhere(m, h0, h);
    CopiesSnoc(c, h, Used(src, h0), h0, bound, m, h);
  }

  lemma PlainSlot(c: seq<Metric>, slots: seq<Metric>, i: nat)
    requires i < |slots|
    ensures c + slots[i..] == (c + [slots[i]]) + slots[i + 1..]
  {
    assert slots[i..] == [slots[i]] + slots[i + 1..];
  }

  lemma SnocBlobSet(c: seq<Metric>, m: Metric)
    ensures BlobSet(c + [m]) == BlobSet(c) + if BlobOf(m).Some? then {BlobOf(m).value} else {}
  {
    assert (c + [m])[..|c + [m]| - 1] == c;
  }

  /** The copy of a metric whose bytes now also live at `a`. */
  function Redirect(m: Metric, a: Addr): Metric {
    if m.value.StringValue? then m.(value := StringValue(Some(a), m.value.size))
    else if m.value.BytesValue? then m.(value := BytesValue(Some(a), m.value.size))
    else m
  }

  /** One more slot: a fresh blob with the same bytes, and the slot pointing to it. */
  lemma CopyBlob(item: Record, h: Blocks, src: Record, h0: Blocks, bound: Addr, i: nat, c: seq<Metric>, a: Addr)
    requires Copied(item, h, src, h0, bound, i, c) && i < src.count && NeedsCopy(Used(src, h0)[i])
    requires a !in h && bound <= a
    ensures var m := Used(src, h0)[i]; var h1 := h[a := h0[m.value.blob.value]];
            && Shaped(item, h1) && i < |Slots(item, h1)|
            && Copied(PutRecord(item, i, Redirect(m, a)), PutBlocks(item, h1, i, Redirect(m, a)),
                      src, h0, bound, i + 1, c + [Redirect(m, a)])
  {
    var m := Used(src, h0)[i];
    var h1 := h[a := h0[m.value.blob.value]];
    var x := Redirect(m, a);
    assert Slots(item, h1) == Slots(item, h);
    PutSlots(item, h1, i, x);
    RedirectSlot(c, Slots(src, h0), i, x);
    CopyBlobHeap(item, h, src, h0, bound, i, c, a);
  }

  lemma CopyBlobHeap(item: Record, h: Blocks, src: Record, h0: Blocks, bound: Addr, i: nat, c: seq<Metric>, a: Addr)
    requires Copied(item, h, src, h0, bound, i, c) && i < src.count && NeedsCopy(Used(src, h0)[i])
    requires a !in h && bound <= a
    ensures var x := Redirect(Used(src, h0)[i], a);
            var h1 := h[a := h0[Used(src, h0)[i].value.blob.value]];
            && Shaped(item, h1) && i < |Slots(item, h1)|
            && var h2 := PutBlocks(item, h1, i, x);
               Extends(h2, h0) && Copies(c + [x], h2, Used(src, h0), h0, bound)
               && h2.Keys == h0.Keys + BlobSet(c + [x]) + TableSet(item)
  {
    var m := Used(src, h0)[i];
    var h1 := h[a := h0[m.value.blob.value]];
    var x := Redirect(m, a);
    assert Slots(item, h1) == Slots(item, h);
    PutSlots(item, h1, i, x);
    SnocBlobSet(c, x);
    var h2 := PutBlocks(item, h1, i, x);
    forall j | 0 <= j < |c| ensures CopyOf(c[j], h2, Used(src, h0)[j], h0) {
      CopyOfKept(item, h, h1, i, x, c[j], Used(src, h0)[j], h0);
    }
    PutKeepsBlobs(item, h1, i, x, x);
    CopiesSnoc(c, h, Used(src, h0), h0, bound, x, h2);
  }

  lemma CopyOfKept(item: Record, h: Blocks, h1: Blocks, i: nat, x: Metric, y: Metric, m: Metric, h0: Blocks)
    requires CopyOf(y, h, m, h0) && Extends(h1, h) && Shaped(item, h1) && i < |Slots(item, h1)|
    ensures CopyOf(y, PutBlocks(item, h1, i, x), m, h0)
  {
    FitsElsewhere(y, h, h1);
    PutKeepsBlobs(item, h1, i, x, y);
  }

  lemma RedirectSlot(c: seq<Metric>, slots: seq<Metric>, i: nat, x: Metric)
    requires |c| == i < |slots|
    ensures (c + slots[i..])[i := x] == c + [x] + slots[i + 1..]
  {
  }

  lemma CopiesSnoc(c: seq<Metric>, h: Blocks, ms: seq<Metric>, h0: Blocks, bound: Addr, x: Metric, h2: Blocks)
    requires Copies(c, h, ms, h0, bound) && |c| < |ms|
    requires forall j :: 0 <= j < |c| ==> CopyOf(c[j], h2, ms[j], h0)
    requires CopyOf(x, h2, ms[|c|], h0)
    requires BlobOf(x).Some? ==> BlobOf(x).value !in BlobSet(c) && bound <= BlobOf(x).value
    ensures Copies(c + [x], h2, ms, h0, bound)
  {
    DistinctSnoc(c, x);
    BlobsAbove(c, x, bound);
    SnocCopyOf(c, x, h2, ms, h0);
    CopiesLive(c + [x], h2, ms, h0);
  }

  lemma SnocCopyOf(c: seq<Metric>, x: Metric, h: Blocks, ms: seq<Metric>, h0: Blocks)
    requires |c| < |ms| && (forall j :: 0 <= j < |c| ==> CopyOf(c[j], h, ms[j], h0)) && CopyOf(x, h, ms[|c|], h0)
    ensures forall j :: 0 <= j < |c + [x]| ==> CopyOf((c + [x])[j], h, ms[j], h0)
  {}

  lemma CopiesLive(c: seq<Metric>, h: Blocks, ms: seq<Metric>, h0: Blocks)
    requires |c| <= |ms| && forall j :: 0 <= j < |c| ==> CopyOf(c[j], h, ms[j], h0)
    ensures forall a :: a in BlobSet(c) ==> a in h && h[a].Blob?
  {
    forall j | 0 <= j < |c| ensures BlobFits(c[j], h) { assert CopyOf(c[j], h, ms[j], h0); }
    BlobsLive(c, h);
  }

  lemma BlobsAbove(c: seq<Metric>, x: Metric, bound: Addr)
    requires forall a :: a in BlobSet(c) ==> bound <= a
    requires BlobOf(x).Some? ==> bound <= BlobOf(x).value
    ensures forall a :: a in BlobSet(c + [x]) ==> bound <= a
  {
    SnocBlobSet(c, x);
  }

  lemma BlobsLive(ms: seq<Metric>, h: Blocks)
    requires forall i :: 0 <= i < |ms| ==> BlobFits(ms[i], h)
    ensures forall a :: a in BlobSet(ms) ==> a in h && h[a].Blob?
  {
    forall a | a in BlobSet(ms) ensures a in h && h[a].Blob? { BlobIsLive(ms, h, a); }
  }

  lemma BlobIsLive(ms: seq<Metric>, h: Blocks, a: Addr)
    requires a in BlobSet(ms) && forall i :: 0 <= i < |ms| ==> BlobFits(ms[i], h)
    ensures a in h && h[a].Blob?
  {
    var j := BlobSetMember(ms, a);
    assert BlobFits(ms[j], h);
  }

  // -------------------------------------------------------------------- the operation

  /** The slot whose allocation is the first to be denied; the number of slots if none is. */
  function FirstDenied(ms: seq<Metric>, grants: seq<bool>, from: nat): (k: nat)
    requires from <= |ms| <= |grants|
    ensures from <= k <= |ms|
    ensures forall i :: from <= i < k ==> NeedsCopy(ms[i]) ==> grants[i]
    ensures k < |ms| ==> NeedsCopy(ms[k]) && !grants[k]
    decreases |ms| - from
  {
    if from == |ms| || (NeedsCopy(ms[from]) && !grants[from]) then from else FirstDenied(ms, grants, from + 1)
  }

  /** The source's slots can still be read in the growing heap. */
  lemma SourceSlot(src: Record, h: Blocks, h0: Blocks, i: nat)
    requires Owned(src, h0) && Extends(h, h0) && i < src.count
    ensures i < INLINE_METRICS ==> src.inlined[i] == Used(src, h0)[i]
    ensures i >= INLINE_METRICS ==>
      HasTable(src, h) && i - INLINE_METRICS < |h[src.table.value].rows|
      && h[src.table.value].rows[i - INLINE_METRICS] == Used(src, h0)[i]
  {
  }

  /** The blob loop, slot by slot; stops at the first denied allocation. */
  method CopyBlobs(src: Telemetry, item: Telemetry, grants: seq<bool>, ghost h0: Blocks, ghost bound: Addr)
    returns (done: nat, ghost c: seq<Metric>)
    requires src.heap == item.heap && src != item && src.heap.Valid() && |grants| >= src.count
    requires bound <= src.heap.next && Copied(item.View(), src.heap.blocks, src.View(), h0, bound, 0, [])
    modifies item`inlined, src.heap
    ensures src.heap.Valid() && done <= src.count && Copied(item.View(), src.heap.blocks, src.View(), h0, bound, done, c)
    ensures done == FirstDenied(Used(src.View(), h0), grants, 0)
  {
    done, c := 0, [];
    while done < src.count
      invariant src.heap.Valid() && done <= src.count && bound <= src.heap.next
      invariant Copied(item.View(), src.heap.blocks, src.View(), h0, bound, done, c)
      invariant FirstDenied(Used(src.View(), h0), grants, done) == FirstDenied(Used(src.View(), h0), grants, 0)
    {
      var ok;
      ok, c := CopyOne(src, item, done, grants[done], h0, bound, c);
      if !ok {
        return;
      }
      done := done + 1;
    }
  }

  /** One round of the loop: slot `i`, with or without a blob. */
  method CopyOne(src: Telemetry, item: Telemetry, i: nat, granted: bool, ghost h0: Blocks, ghost bound: Addr, ghost c: seq<Metric>)
    returns (ok: bool, ghost c': seq<Metric>)
    requires src.heap == item.heap && src != item && src.heap.Valid() && bound <= src.heap.next && i < src.count
    requires Copied(item.View(), src.heap.blocks, src.View(), h0, bound, i, c)
    modifies item`inlined, src.heap
    ensures src.heap.Valid() && bound <= src.heap.next
    ensures ok <==> NeedsCopy(Used(src.View(), h0)[i]) ==> granted
    ensures Copied(item.View(), src.heap.blocks, src.View(), h0, bound, if ok then i + 1 else i, c')
  {
    SourceSlot(src.View(), src.heap.blocks, h0, i);
    var m := if i < INLINE_METRICS then src.inlined[i]
             else src.heap.blocks[src.table.value].rows[i - INLINE_METRICS];
    if NeedsCopy(m) {
      ok, c' := CopySlot(src, item, m, i, granted, h0, bound, c);
    } else {
      CopyPlain(item.View(), src.heap.blocks, src.View(), h0, bound, i, c);
      ok, c' := true, c + [m];
    }
  }

  /** Allocates a blob for slot `i`, copies the bytes, and points the item's slot to it. */
  method CopySlot(src: Telemetry, item: Telemetry, m: Metric, i: nat, granted: bool, ghost h0: Blocks, ghost bound: Addr, ghost c: seq<Metric>)
    returns (ok: bool, ghost c': seq<Metric>)
    requires src.heap == item.heap && src != item && src.heap.Valid() && bound <= src.heap.next
    requires Copied(item.View(), src.heap.blocks, src.View(), h0, bound, i, c)
    requires i < src.count && m == Used(src.View(), h0)[i] && NeedsCopy(m)
    modifies item`inlined, src.heap
    ensures src.heap.Valid() && bound <= src.heap.next && ok == granted
    ensures Copied(item.View(), src.heap.blocks, src.View(), h0, bound, if ok then i + 1 else i, c')
  {
    assert BlobFits(m, h0);
    var bytes := src.heap.blocks[m.value.blob.value];
    CopyBlob(item.View(), src.heap.blocks, src.View(), h0, bound, i, c, src.heap.next);
    var a := src.heap.Malloc(bytes, granted);
    if a.None? {
      return false, c;
    }
    item.PutSlot(i, Redirect(m, a.value));
    ok, c' := true, c + [Redirect(m, a.value)];
  }

  /** The state right after the memcpy of struct and table. */
  lemma ShallowCopied(src: Record, h0: Blocks, bound: Addr)
    requires Owned(src, h0) && (forall a :: a in h0 ==> a < bound)
    ensures src.table.None? ==> Copied(src, h0, src, h0, bound, 0, [])
    ensures src.table.Some? ==>
      Copied(src.(table := Some(bound)), h0[bound := h0[src.table.value]], src, h0, bound, 0, [])
  {
    assert Slots(src, h0)[0..] == Slots(src, h0);
    if src.table.Some? {
      var t, h := src.(table := Some(bound)), h0[bound := h0[src.table.value]];
      assert Slots(t, h) == Slots(src, h0);
    }
  }

  /**
   Copies a record into a fresh queue item. On success the item says the same, owns blocks of
   its own, and nothing else changed. A denied table leaves the heap as it was. A denied blob
   in slot k frees, besides the copies made so far, the source's own blobs from slot k on.
   */
  method Copy(src: Telemetry, grantTable: bool, grants: seq<bool>) returns (r: Outcome, item: Telemetry)
    requires src.Valid() && |grants| >= src.count
    modifies src.heap
    ensures fresh(item) && item.heap == src.heap && src.heap.Valid()
    ensures var ms, h0 := old(Used(src.View(), src.heap.blocks)), old(src.heap.blocks);
            var denied := FirstDenied(ms, grants, 0);
            && (r.Ok? <==> (src.table.Some? ==> grantTable) && denied == src.count)
            && (r.Ok? ==>
                  && src.Valid() && src.Says() == old(src.Says()) && src.Owns() == old(src.Owns())
                  && item.Valid() && item.Says() == src.Says() && item.Owns() !! h0.Keys
                  && src.heap.blocks.Keys == h0.Keys + item.Owns() && Extends(src.heap.blocks, h0))
            && (!r.Ok? ==>
                  src.heap.blocks == if src.table.Some? && !grantTable then h0 else h0 - BlobSet(ms[denied..]))
  {
    ghost var h0, bound := src.heap.blocks, src.heap.next;
    ShallowCopied(src.View(), h0, bound);
    item := new Telemetry(src.heap);
    item.count, item.inlined, item.table := src.count, src.inlined, None;
    if src.table.Some? {
      var a := src.heap.Malloc(src.heap.blocks[src.table.value], grantTable);
      if a.None? {
        return NoMemory, item;
      }
      item.table := a;
    }
    var done;
    ghost var c;
    done, c := CopyBlobs(src, item, grants, h0, bound);
    if done < src.count {
      CopyAbandoned(item.View(), src.heap.blocks, src.View(), h0, bound, done, c);
      Release(item);
      return NoMemory, item;
    }
    CopyComplete(item.View(), src.heap.blocks, src.View(), h0, bound, c);
    FootprintLive(src.View(), h0);
    Frame(src.View(), h0, src.heap.blocks);
    r := Ok;
  }

  // ------------------------------------------------------------------- consequences

  /** After a successful copy the two records can be released in either order: the one
      released first leaves the other intact, and both orders end in the same heap. */
  lemma EitherOrder(t: Record, u: Record, h: Blocks)
    requires Owned(t, h) && Owned(u, h) && Footprint(t, h) !! Footprint(u, h)
    ensures var ft, fu := Footprint(t, h), Footprint(u, h);
            && Owned(u, h - ft) && Contents(u, h - ft) == Contents(u, h) && Footprint(u, h - ft) == fu
            && Owned(t, h - fu) && Contents(t, h - fu) == Contents(t, h) && Footprint(t, h - fu) == ft
            && h - ft - fu == h - fu - ft && (h - ft - fu).Keys == h.Keys - ft - fu
  {
    FootprintLive(t, h);
    FootprintLive(u, h);
    Frame(u, h, h - Footprint(t, h));
    Frame(t, h, h - Footprint(u, h));
  }

  /** What a copy leaves of the heap, given the allocator's answers (the table's granted). */
  function HeapAfterCopy(src: Record, h0: Blocks, grants: seq<bool>): Blocks
    requires Owned(src, h0) && |grants| >= src.count
  {
    var ms := Used(src, h0);
    h0 - BlobSet(ms[FirstDenied(ms, grants, 0)..])
  }

  /** A denied blob always costs the source at least the blob of the slot it failed on. */
  lemma DeniedCopyDamages(src: Record, h0: Blocks, grants: seq<bool>)
    requires Owned(src, h0) && |grants| >= src.count && FirstDenied(Used(src, h0), grants, 0) < src.count
    ensures !Owned(src, HeapAfterCopy(src, h0, grants))
  {
    var ms, h := Used(src, h0), HeapAfterCopy(src, h0, grants);
    var k := FirstDenied(ms, grants, 0);
    InBlobSet(ms[k..], 0);
    assert !BlobFits(ms[k], h);
    assert Shaped(src, h) ==> Used(src, h)[k] == ms[k];
  }

  /** Exactly when a failed copy can never harm the source: when it has no blob to copy. */
  lemma CopyHarmlessIff(src: Record, h0: Blocks)
    requires Owned(src, h0)
    ensures (forall grants: seq<bool> :: |grants| >= src.count && FirstDenied(Used(src, h0), grants, 0) < src.count ==>
               Owned(src, HeapAfterCopy(src, h0, grants)))
       <==> (forall i :: 0 <= i < src.count ==> !NeedsCopy(Used(src, h0)[i]))
  {
    var ms := Used(src, h0);
    if i :| 0 <= i < src.count && NeedsCopy(ms[i]) {
      var grants := seq(src.count, _ => false);
      assert FirstDenied(ms, grants, 0) < src.count;
      DeniedCopyDamages(src, h0, grants);
    }
  }

  // ------------------------------------------------------------- enqueueing from an interrupt

  /** What the interrupt enqueue accepts: inline metrics only, and none of a type with a blob. */
  predicate InterruptAccepts(t: Record) {
    t.count <= INLINE_METRICS
    && forall i :: 0 <= i < t.count && i < |t.inlined| ==> !t.inlined[i].value.StringValue? && !t.inlined[i].value.BytesValue?
  }

  /** aetus_enqueue_telemetry_from_isr up to the send: the item is the struct itself. */
  method CopyInInterrupt(src: Telemetry) returns (item: Option<Record>)
    requires src.Valid()
    ensures item == if InterruptAccepts(src.View()) then Some(src.View()) else None
  {
    if src.count > INLINE_METRICS {
      return None;
    }
    for i := 0 to src.count
      invariant forall k :: 0 <= k < i ==> !src.inlined[k].value.StringValue? && !src.inlined[k].value.BytesValue?
    {
      if src.inlined[i].value.StringValue? || src.inlined[i].value.BytesValue? {
        return None;
      }
    }
    item := Some(src.View());
  }

  lemma {:induction false} NoBlobs(ms: seq<Metric>)
    requires forall i :: 0 <= i < |ms| ==> BlobOf(ms[i]).None?
    ensures BlobSet(ms) == {}
  {
    if ms != [] { NoBlobs(ms[..|ms| - 1]); }
  }

  /** An accepted record owns at most a table. */
  lemma InterruptOwnsTable(t: Record, h: Blocks)
    requires Owned(t, h) && InterruptAccepts(t)
    ensures Footprint(t, h) == TableSet(t)
  {
    var ms := Used(t, h);
    forall i | 0 <= i < |ms| ensures BlobOf(ms[i]).None? { assert ms[i] == t.inlined[i]; }
    NoBlobs(ms);
  }

  /** An accepted record and its struct copy share no block, and releasing the copy leaves the
      record intact, exactly if the record has no table. */
  lemma InterruptCopyApartIff(src: Record, item: Record, h: Blocks)
    requires Owned(src, h) && InterruptAccepts(src) && item == src
    ensures Footprint(item, h) !! Footprint(src, h) <==> src.table.None?
    ensures Owned(src, h - Footprint(item, h)) <==> src.table.None?
  {
    InterruptOwnsTable(src, h);
    if src.table.None? {
      assert h - Footprint(item, h) == h;
    } else {
      assert src.table.value in Footprint(item, h) && src.table.value in Footprint(src, h);
    }
  }

  /** Such a table is easily had: a fifth metric whose blob is denied leaves four metrics and the
      table that was allocated for the fifth. */
  method SharesTable(ints: seq<int>) returns (t: Telemetry)
    requires |ints| == INLINE_METRICS
    ensures fresh(t) && fresh(t.heap) && t.Valid() && |t.Says()| == INLINE_METRICS
    ensures InterruptAccepts(t.View()) && t.table.Some?
  {
    var heap := new Heap();
    t := new Telemetry(heap);
    for i := 0 to INLINE_METRICS
      invariant fresh(t) && fresh(t.heap) && t.Valid() && t.count == i && t.Says() == seq(i, k requires 0 <= k < i => Entry([1], [], Int(ints[k])))
    {
      var _ := t.Add([1], [], Int(ints[i]), false, false, false);
    }
    var _ := t.Add([1], [], Text([1]), false, true, false);
    AllInts(t.View(), t.heap.blocks);
  }

  lemma AllInts(t: Record, h: Blocks)
    requires Owned(t, h) && t.count <= INLINE_METRICS && forall i :: 0 <= i < t.count ==> Contents(t, h)[i].reading.Int?
    ensures InterruptAccepts(t)
  {
    forall i | 0 <= i < t.count ensures t.inlined[i].value.IntValue? {
      assert Used(t, h)[i] == t.inlined[i];
      assert Contents(t, h)[i] == Resolve(t.inlined[i], h);
    }
  }
}
