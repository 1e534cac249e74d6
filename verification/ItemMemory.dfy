/**
 The step system's telemetry blocks in the device's memory: each queued or held item's record is
 in memory, owns the blocks the step system counts for it, and says what the item says.
 */
module ItemMemory {
  import opened Wrappers
  import opened Uploader
  import T = Telemetry
  import QueueItem

  /** A telemetry item's struct owns its blocks and says what it should. */
  ghost predicate InMemory(k: Kind, b: T.Blocks) {
    k.Telemetry? ==> T.Owned(k.record, b) && T.Footprint(k.record, b) == k.owns && T.Contents(k.record, b) == k.says
  }

  /** Memory once an item's blocks are freed. */
  function Freed(b: T.Blocks, k: Kind): T.Blocks {
    if k.Telemetry? then b - k.owns else b
  }

  ghost predicate QueueStored(q: seq<Item>, b: T.Blocks) {
    forall i :: 0 <= i < |q| ==> InMemory(q[i].kind, b)
  }

  ghost predicate ProducerStored(p: Producer, b: T.Blocks) {
    p.Idle? || InMemory(p.kind, b)
  }

  ghost predicate ProducersStored(ps: seq<Producer>, b: T.Blocks) {
    forall p :: 0 <= p < |ps| ==> ProducerStored(ps[p], b)
  }

  ghost predicate HandStored(h: Hand, b: T.Blocks) {
    h.Received? ==> InMemory(h.item.kind, b)
  }

  /** Every item queued, in hand or with a producer is in memory. */
  ghost predicate Stored(s: State, b: T.Blocks) {
    s.heap <= b.Keys && QueueStored(s.queue, b) && ProducersStored(s.producers, b) && HandStored(s.hand, b)
  }

  /** Steps move items around and forget them; only a copy brings one in. */
  lemma StoredStep(s: State, a: Step, b: T.Blocks)
    requires Stored(s, b) && Enabled(s, a) && (a.Copy? ==> InMemory(a.copied, b))
    ensures Stored(Apply(s, a), b)
  {
    if a.Copy? { T.FootprintLive(a.copied.record, b); }
  }

  // ------------------------------------------------------------------- what a release leaves

  /** Live blocks that belong to no item. */
  function Others(b: T.Blocks, heap: set<Addr>): set<Addr> {
    b.Keys - heap
  }

  lemma FreeingKeepsOthers(b: T.Blocks, heap: set<Addr>, k: Kind)
    requires HeapOf(k) <= heap
    ensures Others(Freed(b, k), Without(heap, k)) == Others(b, heap)
  {}

  lemma NothingFreed(b: T.Blocks, heap: set<Addr>, k: Kind)
    requires HeapOf(k) == {}
    ensures Freed(b, k) == b && Without(heap, k) == heap
  {}

  /** A new record's blocks. */
  lemma FillingAddsOthers(b: T.Blocks, c: T.Blocks, heap: set<Addr>, owns: set<Addr>)
    requires heap <= b.Keys && T.Spared(b, {}, c, owns) && owns <= c.Keys
    ensures Others(c, heap) == Others(b, heap) + owns && owns !! b.Keys && T.Agree(b, c, heap)
  {
    assert c.Keys - owns == b.Keys;
    assert T.Agree(b, c, b.Keys - {});
    forall x | x in heap ensures x in c && c[x] == b[x] { assert x in b.Keys - {}; }
  }

  lemma ClearingTakesOthers(b: T.Blocks, heap: set<Addr>, owns: set<Addr>)
    requires heap <= b.Keys && owns !! heap
    ensures Others(b - owns, heap) == Others(b, heap) - owns && T.Agree(b, b - owns, heap)
  {}

  lemma AddAndTake(a: set<Addr>, b: set<Addr>)
    requires a !! b
    ensures a + b - b == a
  {}

  lemma CopyingKeepsOthers(b: T.Blocks, c: T.Blocks, heap: set<Addr>, owns: set<Addr>)
    requires c.Keys == b.Keys + owns && owns !! b.Keys
    ensures Others(c, heap + owns) == Others(b, heap)
  {}

  lemma {:induction false} QueueHolds(q: seq<Item>, i: nat, m: Measure)
    requires i < |q|
    ensures KindWeight(q[i].kind, m) <= QueueWeight(q, m)
  {
    if i < |q| - 1 { QueueHolds(q[..|q| - 1], i, m); }
  }

  /** With one holder per live block, what an item owns is live. */
  lemma OwnedIsLive(s: State, k: Kind)
    requires Held(s)
    requires forall a :: KindWeight(k, Holders(a)) <= Live(s, Holders(a))
    ensures HeapOf(k) <= s.heap
  {
    forall a | a in HeapOf(k) ensures a in s.heap { OneHolder(s, a); }
  }

  lemma QueuedIsLive(s: State, i: nat)
    requires Held(s) && i < |s.queue|
    ensures HeapOf(s.queue[i].kind) <= s.heap
  {
    forall a ensures KindWeight(s.queue[i].kind, Holders(a)) <= Live(s, Holders(a)) { QueueHolds(s.queue, i, Holders(a)); }
    OwnedIsLive(s, s.queue[i].kind);
  }

  lemma StaysInMemory(k: Kind, b: T.Blocks, c: T.Blocks)
    requires InMemory(k, b) && T.Agree(b, c, HeapOf(k))
    ensures InMemory(k, c)
  {
    if k.Telemetry? { T.Frame(k.record, b, c); }
  }

  /** Whatever happens to other blocks, the items stay as they are. */
  lemma Survives(s: State, b: T.Blocks, c: T.Blocks)
    requires Held(s) && Stored(s, b) && T.Agree(b, c, s.heap)
    ensures Stored(s, c)
  {
    forall i | 0 <= i < |s.queue| ensures InMemory(s.queue[i].kind, c) {
      QueuedIsLive(s, i);
      StaysInMemory(s.queue[i].kind, b, c);
    }
    forall p | 0 <= p < |s.producers| ensures ProducerStored(s.producers[p], c) {
      FreedOnce(s, p);
      if !s.producers[p].Idle? { StaysInMemory(s.producers[p].kind, b, c); }
    }
    FreedOnce(s, 0);
    if s.hand.Received? { StaysInMemory(s.hand.item.kind, b, c); }
  }

  /** The released blocks are none of the state's: it let go of the item before. */
  lemma ReleaseSpares(s: State, b: T.Blocks, k: Kind)
    requires Held(s) && Stored(s, b) && HeapOf(k) !! s.heap
    ensures Stored(s, Freed(b, k))
  {
    Survives(s, b, Freed(b, k));
  }

  /** A new item's blocks are none of the state's. */
  lemma NewItemSpares(s: State, b: T.Blocks, c: T.Blocks)
    requires Held(s) && Stored(s, b) && QueueItem.Extends(c, b)
    ensures Stored(s, c)
  {
    Survives(s, b, c);
  }
}
