/**
 The uploader and its producers as a step system. Producer tasks allocate sample blocks or copy
 telemetry and send items to a bounded queue; one uploader task receives, encodes, posts, and on
 a failed post puts the item back at the front of the queue or drops it. Any interleaving of
 the steps, any allocation, send and post outcome is a run.
 */
module Uploader {
  import opened Wrappers
  import opened Varint
  import opened SamplePool
  import opened FrameInput
  import I = IngestEvent
  import T = Telemetry
  import TelemetryEvent

  // --------------------------------------------------------------------------- states

  /** The queue's length, the largest sample block, the items on which the encode step may fail,
      and which payloads it may make of an item under a sequence number. */
  datatype Config = Config(depth: nat, maxSamples: nat, refuses: Kind -> bool, carries: (nat, Kind, seq<Byte>) -> bool)

  /** What a queue slot holds: the struct of a copied telemetry, with the blocks it owns and what
      it says, a status, or a signal frame with its pool block. `stamp` is their own time. */
  datatype Kind =
    | Telemetry(stamp: nat, record: T.Record, owns: set<Addr>, says: seq<T.Entry>)
    | Status(stamp: nat, report: I.Status)
    | Signal(frame: Input)

  /** A queued item; `position` is its place in the order of successful sends. */
  datatype Item = Item(kind: Kind, position: nat)

  /** A producer task: idle, holding an item it has not sent yet, or about to free what an
      item whose send failed owns. */
  datatype Producer = Idle | Owns(kind: Kind) | Unsent(kind: Kind)

  /** What the uploader has taken off the queue. Counting the reason and freeing a pool block
      are separate calls. */
  datatype Hand =
    | Nothing
    | Received(item: Item)
    | Counting(kind: Kind, reason: Reason)
    | Freeing(kind: Kind, reason: Reason)

  /** A successful post: the sequence counter at the time, the item, and the bytes posted. */
  datatype Post = Post(sequence: nat, item: Item, payload: seq<Byte>)

  /** How often things happened, without wrap-around; not part of the firmware's state. */
  datatype Totals = Totals(allocs: nat, frees: nat, sendFailures: nat, validationFailures: nat, uploadSuccesses: nat, finalDrops: nat,
                           failures: nat)

  /** `heap` are the live blocks of copied telemetry. `log`, `posts` and `totals` record the
      history: what was ever sent to the queue, what was posted, and how often. */
  datatype State = State(
    config: Config, queue: seq<Item>, producers: seq<Producer>, draining: bool, hand: Hand,
    sequence: nat, stats: Stats, heap: set<Addr>, log: seq<Kind>, posts: seq<Post>, totals: Totals)

  function Start(config: Config, producers: nat): State {
    State(config, [], seq(producers, _ => Idle), false, Nothing, 0, ZERO, {}, [], [], Totals(0, 0, 0, 0, 0, 0, 0))
  }

  // ---------------------------------------------------------------------- what is live

  /** What is counted: pool blocks, their bytes, blocks whose reason for release is already
      counted but which are not freed yet, or the holders of one telemetry block. */
  datatype Measure = Blocks | Bytes | Pending | Holders(a: Addr)

  function KindWeight(k: Kind, m: Measure): nat {
    match m
    case Blocks => if k.Signal? then 1 else 0
    case Bytes => if k.Signal? then k.frame.samplesSize else 0
    case Pending => 0
    case Holders(a) => if k.Telemetry? && a in k.owns then 1 else 0
  }

  /** The weight of an item that is counted and waits to be freed. */
  function CountedWeight(k: Kind, m: Measure): nat {
    if m.Pending? then KindWeight(k, Blocks) else KindWeight(k, m)
  }

  function QueueWeight(q: seq<Item>, m: Measure): nat {
    if q == [] then 0 else QueueWeight(q[..|q| - 1], m) + KindWeight(q[|q| - 1].kind, m)
  }

  function ProducerWeight(p: Producer, m: Measure): nat {
    match p
    case Idle => 0
    case Owns(kind) => KindWeight(kind, m)
    case Unsent(kind) => CountedWeight(kind, m)
  }

  function ProducersWeight(ps: seq<Producer>, m: Measure): nat {
    if ps == [] then 0 else ProducersWeight(ps[..|ps| - 1], m) + ProducerWeight(ps[|ps| - 1], m)
  }

  function HandWeight(h: Hand, m: Measure): nat {
    match h
    case Nothing => 0
    case Received(item) => KindWeight(item.kind, m)
    case Counting(kind, _) => KindWeight(kind, m)
    case Freeing(kind, _) => CountedWeight(kind, m)
  }

  /** The measure over everything queued, in hand or with a producer. */
  function Live(s: State, m: Measure): nat {
    QueueWeight(s.queue, m) + HandWeight(s.hand, m) + ProducersWeight(s.producers, m)
  }

  // ---------------------------------------------------------------------------- steps

  datatype Step =
    | Allocate(p: nat, frame: Input)
    | AllocationFails(p: nat)
    | Copy(p: nat, copied: Kind)
    | Send(p: nat)
    | SendFails(p: nat)
    | FreeUnsent(p: nat)
    | SendStatus(status: Kind)
    | Wake
    | Receive
    | Sleep
    | EncodeFails
    | PostOk(payload: seq<Byte>)
    | PostFails
    | Count
    | Free

  /** Ranges of C types; `status` is the application's enumeration value, whatever it is. */
  predicate ValidReport(report: I.Status) {
    -0x8000_0000 <= report.rssi < 0x8000_0000 && report.freeHeap < TWO_32
  }

  /** Frames that passed validation; telemetry and reports within the ranges of their C types. */
  ghost predicate Vetted(k: Kind, maxSamples: nat) {
    match k
    case Telemetry(stamp, _, _, says) => stamp < TWO_64 && TelemetryEvent.Sendable(says)
    case Status(stamp, report) => stamp < TWO_64 && ValidReport(report)
    case Signal(frame) => ValidInput(frame) && Acceptable(frame, maxSamples)
  }

  /** When a step can happen. A frame is validated before its block is allocated; a granted
      block never takes the live bytes past the 32-bit address space; copied telemetry gets new
      blocks; a send succeeds only into a free slot. */
  ghost predicate Enabled(s: State, a: Step) {
    match a
    case Allocate(p, frame) =>
      && p < |s.producers| && s.producers[p].Idle? && Vetted(Signal(frame), s.config.maxSamples)
      && Live(s, Bytes) + frame.samplesSize < TWO_32
    case AllocationFails(p) => p < |s.producers| && s.producers[p].Idle?
    case Copy(p, copied) =>
      && p < |s.producers| && s.producers[p].Idle? && Vetted(copied, s.config.maxSamples)
      && copied.Telemetry? && copied.owns !! s.heap
    case Send(p) => p < |s.producers| && s.producers[p].Owns? && |s.queue| < s.config.depth
    case SendFails(p) => p < |s.producers| && s.producers[p].Owns?
    case FreeUnsent(p) => p < |s.producers| && s.producers[p].Unsent?
    case SendStatus(status) => |s.queue| < s.config.depth && Vetted(status, s.config.maxSamples) && status.Status?
    case Wake => !s.draining
    case Receive => s.draining && s.hand.Nothing? && s.queue != []
    case Sleep => s.draining && s.hand.Nothing? && s.queue == []
    case EncodeFails => s.hand.Received? && s.config.refuses(s.hand.item.kind)
    case PostOk(payload) => s.hand.Received? && s.config.carries(s.sequence, s.hand.item.kind, payload)
    case PostFails => s.hand.Received?
    case Count => s.hand.Counting?
    case Free => s.hand.Freeing?
  }

  function CountReason(t: Totals, r: Reason): Totals {
    match r
    case SendFailure => t.(sendFailures := t.sendFailures + 1)
    case ValidationFailure => t.(validationFailures := t.validationFailures + 1)
    case UploadSuccess => t.(uploadSuccesses := t.uploadSuccesses + 1)
    case FinalDrop => t.(finalDrops := t.finalDrops + 1)
  }

  function Enqueue(s: State, kind: Kind): State {
    s.(queue := s.queue + [Item(kind, |s.log|)], log := s.log + [kind])
  }

  /** The 64-bit counter. */
  function NextSequence(n: nat): nat { (n + 1) % TWO_64 }

  function HeapOf(k: Kind): set<Addr> { if k.Telemetry? then k.owns else {} }

  /** The heap once an item's blocks are freed. */
  function Without(heap: set<Addr>, k: Kind): set<Addr> { if k.Telemetry? then heap - k.owns else heap }

  /** Signal items are counted and freed in two more steps; a telemetry's blocks go at once. */
  function Finish(s: State, kind: Kind, reason: Reason): State {
    if kind.Signal? then s.(hand := Counting(kind, reason))
    else s.(hand := Nothing, draining := s.draining && reason != FinalDrop, heap := Without(s.heap, kind))
  }

  function Apply(s: State, a: Step): State
    requires Enabled(s, a)
  {
    match a
    case Allocate(p, frame) =>
      s.(producers := s.producers[p := Owns(Signal(frame))], stats := NoteAlloc(s.stats, frame.samplesSize),
         totals := s.totals.(allocs := s.totals.allocs + 1))
    case AllocationFails(p) => s.(stats := NoteFailure(s.stats), totals := s.totals.(failures := s.totals.failures + 1))
    case Copy(p, copied) => s.(producers := s.producers[p := Owns(copied)], heap := s.heap + copied.owns)
    case Send(p) => Enqueue(s.(producers := s.producers[p := Idle]), s.producers[p].kind)
    case SendFails(p) =>
      var kind := s.producers[p].kind;
      var t := s.(producers := s.producers[p := Unsent(kind)]);
      if kind.Signal? then t.(stats := NoteReason(s.stats, SendFailure), totals := CountReason(s.totals, SendFailure)) else t
    case FreeUnsent(p) =>
      var kind := s.producers[p].kind;
      var t := s.(producers := s.producers[p := Idle]);
      if kind.Signal? then t.(stats := NoteRelease(s.stats, kind.frame.samplesSize), totals := s.totals.(frees := s.totals.frees + 1))
      else t.(heap := Without(s.heap, kind))
    case SendStatus(status) => Enqueue(s, status)
    case Wake => s.(draining := true)
    case Receive => s.(queue := s.queue[1..], hand := Received(s.queue[0]))
    case Sleep => s.(draining := false)
    case EncodeFails => Finish(s, s.hand.item.kind, ValidationFailure)
    case PostOk(payload) =>
      Finish(s.(posts := s.posts + [Post(s.sequence, s.hand.item, payload)], sequence := NextSequence(s.sequence)),
             s.hand.item.kind, UploadSuccess)
    case PostFails =>
      if |s.queue| < s.config.depth then s.(queue := [s.hand.item] + s.queue, hand := Nothing, draining := false)
      else Finish(s, s.hand.item.kind, FinalDrop)
    case Count =>
      s.(hand := Freeing(s.hand.kind, s.hand.reason), stats := NoteReason(s.stats, s.hand.reason),
         totals := CountReason(s.totals, s.hand.reason))
    case Free =>
      s.(hand := Nothing, draining := s.hand.reason != FinalDrop,
         stats := NoteRelease(s.stats, KindWeight(s.hand.kind, Bytes)),
         totals := s.totals.(frees := s.totals.frees + 1))
  }

  ghost predicate Possible(s: State, run: seq<Step>)
    decreases run
  {
    run == [] || (Enabled(s, run[0]) && Possible(Apply(s, run[0]), run[1..]))
  }

  function After(s: State, run: seq<Step>): State
    requires Possible(s, run)
    decreases run
  {
    if run == [] then s else After(Apply(s, run[0]), run[1..])
  }

  // ------------------------------------------------------------------ order invariant

  function QueuePositions(q: seq<Item>): seq<nat> { seq(|q|, i requires 0 <= i < |q| => q[i].position) }

  function PostPositions(ps: seq<Post>): seq<nat> { seq(|ps|, i requires 0 <= i < |ps| => ps[i].item.position) }

  function HandPositions(h: Hand): seq<nat> { if h.Received? then [h.item.position] else [] }

  /** Everything posted, then what is in hand, then the queue from front to back. */
  function Line(s: State): seq<nat> {
    PostPositions(s.posts) + HandPositions(s.hand) + QueuePositions(s.queue)
  }

  predicate Increasing(p: seq<nat>) {
    forall i, j :: 0 <= i < j < |p| ==> p[i] < p[j]
  }

  predicate Logged(item: Item, log: seq<Kind>) {
    item.position < |log| && item.kind == log[item.position]
  }

  predicate Numbered(s: State) {
    s.sequence == |s.posts| % TWO_64 && forall k :: 0 <= k < |s.posts| ==> s.posts[k].sequence == k % TWO_64
  }

  predicate AllLogged(s: State) {
    && (forall k :: 0 <= k < |s.posts| ==> Logged(s.posts[k].item, s.log))
    && (s.hand.Received? ==> Logged(s.hand.item, s.log))
    && (forall k :: 0 <= k < |s.queue| ==> Logged(s.queue[k], s.log))
  }

  predicate Ordered(s: State) {
    Numbered(s) && AllLogged(s) && Increasing(Line(s)) && |s.queue| <= s.config.depth
  }

  lemma LineBelow(s: State)
    requires AllLogged(s)
    ensures forall i :: 0 <= i < |Line(s)| ==> Line(s)[i] < |s.log|
  {
    var a, b, c := PostPositions(s.posts), HandPositions(s.hand), QueuePositions(s.queue);
    forall i | 0 <= i < |a + b + c| ensures (a + b + c)[i] < |s.log| {
      if i < |a| {
        assert (a + b + c)[i] == a[i];
      } else if i < |a| + |b| {
        assert (a + b + c)[i] == b[i - |a|];
      } else {
        assert (a + b + c)[i] == c[i - |a| - |b|];
      }
    }
  }

  /** Sending appends the largest position at the end of the line. */
  lemma EnqueueOrdered(s: State, kind: Kind)
    requires Ordered(s) && |s.queue| < s.config.depth
    ensures Ordered(Enqueue(s, kind))
  {
    var t := Enqueue(s, kind);
    LineBelow(s);
    assert QueuePositions(t.queue) == QueuePositions(s.queue) + [|s.log|];
    assert Line(t) == Line(s) + [|s.log|];
  }

  lemma ReceiveOrdered(s: State)
    requires Ordered(s) && Enabled(s, Receive)
    ensures Ordered(Apply(s, Receive))
  {
    var t := Apply(s, Receive);
    assert QueuePositions(s.queue) == [s.queue[0].position] + QueuePositions(t.queue);
    assert Line(t) == Line(s);
  }

  lemma RequeueOrdered(s: State)
    requires Ordered(s) && s.hand.Received? && |s.queue| < s.config.depth
    ensures Ordered(Apply(s, PostFails))
  {
    var t := Apply(s, PostFails);
    assert QueuePositions(t.queue) == [s.hand.item.position] + QueuePositions(s.queue);
    assert Line(t) == Line(s);
  }

  lemma PostOrdered(s: State, payload: seq<Byte>)
    requires Ordered(s) && Enabled(s, PostOk(payload))
    ensures Ordered(Apply(s, PostOk(payload)))
  {
    var t := Apply(s, PostOk(payload));
    assert PostPositions(t.posts) == PostPositions(s.posts) + [s.hand.item.position];
    assert Line(t) == Line(s);
    NextNumber(|s.posts|);
  }

  lemma NextNumber(n: nat)
    ensures NextSequence(n % TWO_64) == (n + 1) % TWO_64
  {
  }

  /** Losing the item in hand leaves a shorter line. */
  lemma LoseOrdered(s: State, t: State)
    requires Ordered(s) && s.hand.Received? && !t.hand.Received?
    requires t.posts == s.posts && t.queue == s.queue && t.log == s.log && t.sequence == s.sequence && t.config == s.config
    ensures Ordered(t)
  {
    var a, c := PostPositions(s.posts), QueuePositions(s.queue);
    var x := s.hand.item.position;
    assert Line(s) == a + [x] + c;
    assert Line(t) == a + c by { assert Line(t) == a + [] + c; }
    forall i, j | 0 <= i < j < |a + c| ensures (a + c)[i] < (a + c)[j] {
      var i', j' := if i < |a| then i else i + 1, if j < |a| then j else j + 1;
      assert Line(s)[i'] == (a + c)[i] && Line(s)[j'] == (a + c)[j];
    }
  }

  lemma OrderStep(s: State, a: Step)
    requires Ordered(s) && Enabled(s, a)
    ensures Ordered(Apply(s, a))
  {
    var t := Apply(s, a);
    match a
    case Send(p) => SendOrdered(s, p);
    case SendStatus(status) => EnqueueOrdered(s, status);
    case Receive => ReceiveOrdered(s);
    case PostOk(payload) => PostOrdered(s, payload);
    case EncodeFails => LoseOrdered(s, t);
    case PostFails => if |s.queue| < s.config.depth { RequeueOrdered(s); } else { LoseOrdered(s, t); }
    case _ => QuietOrdered(s, t);
  }

  lemma SendOrdered(s: State, p: nat)
    requires Ordered(s) && Enabled(s, Send(p))
    ensures Ordered(Apply(s, Send(p)))
  {
    EnqueueOrdered(s.(producers := s.producers[p := Idle]), s.producers[p].kind);
  }

  lemma QuietOrdered(s: State, t: State)
    requires Ordered(s) && HandPositions(t.hand) == HandPositions(s.hand) && (t.hand.Received? ==> t.hand == s.hand)
    requires t.posts == s.posts && t.queue == s.queue && t.log == s.log && t.sequence == s.sequence && t.config == s.config
    ensures Ordered(t)
  {
    assert Line(t) == Line(s);
  }

  // -------------------------------------------------------------- how steps move weights

  lemma {:induction false} QueueConcat(a: seq<Item>, b: seq<Item>, m: Measure)
    ensures QueueWeight(a + b, m) == QueueWeight(a, m) + QueueWeight(b, m)
  {
    if b == [] {
      assert a + b == a;
    } else {
      assert (a + b)[..|a + b| - 1] == a + b[..|b| - 1];
      QueueConcat(a, b[..|b| - 1], m);
    }
  }

  lemma QueueOne(item: Item, m: Measure)
    ensures QueueWeight([item], m) == KindWeight(item.kind, m)
  {
    assert [item][..|[item]| - 1] == [];
  }

  lemma {:induction false} ProducerUpdate(ps: seq<Producer>, p: nat, x: Producer, m: Measure)
    requires p < |ps|
    ensures ProducersWeight(ps[p := x], m) + ProducerWeight(ps[p], m) == ProducersWeight(ps, m) + ProducerWeight(x, m)
  {
    var front := ps[..|ps| - 1];
    if p == |ps| - 1 {
      assert ps[p := x][..|ps| - 1] == front;
    } else {
      assert ps[p := x][..|ps| - 1] == front[p := x];
      ProducerUpdate(front, p, x, m);
    }
  }

  lemma {:induction false} IdleProducers(n: nat, m: Measure)
    ensures ProducersWeight(seq(n, _ => Idle), m) == 0
  {
    if n > 0 {
      var ps := seq(n, _ => Idle);
      assert ps[..n - 1] == seq(n - 1, _ => Idle);
      IdleProducers(n - 1, m);
    }
  }

  lemma {:induction false} ProducerWithin(ps: seq<Producer>, p: nat, m: Measure)
    requires p < |ps|
    ensures ProducerWeight(ps[p], m) <= ProducersWeight(ps, m)
  {
    if p < |ps| - 1 { ProducerWithin(ps[..|ps| - 1], p, m); }
  }

  /** What finishing with the item in hand gives up at once. */
  function Shed(k: Kind, m: Measure): int {
    if k.Signal? then 0 else KindWeight(k, m)
  }

  /** By how much a step changes what is live. */
  function Flow(s: State, a: Step, m: Measure): int
    requires Enabled(s, a)
  {
    match a
    case Allocate(_, frame) => KindWeight(Signal(frame), m)
    case Copy(_, copied) => KindWeight(copied, m)
    case SendFails(p) => CountedWeight(s.producers[p].kind, m) - KindWeight(s.producers[p].kind, m)
    case FreeUnsent(p) => -(CountedWeight(s.producers[p].kind, m) as int)
    case EncodeFails => -Shed(s.hand.item.kind, m)
    case PostOk(_) => -Shed(s.hand.item.kind, m)
    case PostFails => if |s.queue| < s.config.depth then 0 else -Shed(s.hand.item.kind, m)
    case Count => CountedWeight(s.hand.kind, m) - KindWeight(s.hand.kind, m)
    case Free => -(CountedWeight(s.hand.kind, m) as int)
    case _ => 0
  }

  lemma ProducerFlow(s: State, p: nat, x: Producer, m: Measure)
    requires p < |s.producers|
    ensures Live(s.(producers := s.producers[p := x]), m) == Live(s, m) + ProducerWeight(x, m) - ProducerWeight(s.producers[p], m)
  {
    ProducerUpdate(s.producers, p, x, m);
  }

  lemma EnqueueFlow(s: State, kind: Kind, m: Measure)
    ensures Live(Enqueue(s, kind), m) == Live(s, m) + KindWeight(kind, m)
  {
    var item := Item(kind, |s.log|);
    QueueConcat(s.queue, [item], m);
    QueueOne(item, m);
  }

  lemma ReceiveFlow(s: State, m: Measure)
    requires Enabled(s, Receive)
    ensures Live(Apply(s, Receive), m) == Live(s, m)
  {
    assert s.queue == [s.queue[0]] + s.queue[1..];
    QueueConcat([s.queue[0]], s.queue[1..], m);
    QueueOne(s.queue[0], m);
  }

  lemma RequeueFlow(s: State, m: Measure)
    requires s.hand.Received? && |s.queue| < s.config.depth
    ensures Live(Apply(s, PostFails), m) == Live(s, m)
  {
    QueueConcat([s.hand.item], s.queue, m);
    QueueOne(s.hand.item, m);
  }

  /** Live weights depend on queue, hand and producers only. */
  lemma SameLive(s: State, t: State, m: Measure)
    requires t.queue == s.queue && t.hand == s.hand && t.producers == s.producers
    ensures Live(t, m) == Live(s, m)
  {}

  lemma FinishFlow(s: State, reason: Reason, m: Measure)
    requires s.hand.Received?
    ensures Live(Finish(s, s.hand.item.kind, reason), m) == Live(s, m) - Shed(s.hand.item.kind, m)
  {}

  lemma SendFlow(s: State, p: nat, m: Measure)
    requires Enabled(s, Send(p))
    ensures Live(Apply(s, Send(p)), m) == Live(s, m)
  {
    ProducerFlow(s, p, Idle, m);
    EnqueueFlow(s.(producers := s.producers[p := Idle]), s.producers[p].kind, m);
  }

  lemma PostOkFlow(s: State, payload: seq<Byte>, m: Measure)
    requires Enabled(s, PostOk(payload))
    ensures Live(Apply(s, PostOk(payload)), m) == Live(s, m) - Shed(s.hand.item.kind, m)
  {
    var t := s.(posts := s.posts + [Post(s.sequence, s.hand.item, payload)], sequence := NextSequence(s.sequence));
    SameLive(s, t, m);
    FinishFlow(t, UploadSuccess, m);
  }

  /** Steps in which a producer's own state changes. */
  predicate ByProducer(a: Step) {
    a.Allocate? || a.Copy? || a.SendFails? || a.FreeUnsent?
  }

  lemma ProducerStepFlow(s: State, a: Step, m: Measure)
    requires Enabled(s, a) && ByProducer(a)
    ensures Live(Apply(s, a), m) == Live(s, m) + Flow(s, a, m)
  {
    var t := Apply(s, a);
    ProducerFlow(s, a.p, t.producers[a.p], m);
    assert t.producers == s.producers[a.p := t.producers[a.p]];
    SameLive(s.(producers := t.producers), t, m);
  }

  lemma LiveFlow(s: State, a: Step, m: Measure)
    requires Enabled(s, a)
    ensures Live(Apply(s, a), m) == Live(s, m) + Flow(s, a, m)
  {
    if ByProducer(a) {
      ProducerStepFlow(s, a, m);
    } else {
      match a
      case Send(p) => SendFlow(s, p, m);
      case SendStatus(status) => EnqueueFlow(s, status, m);
      case Receive => ReceiveFlow(s, m);
      case EncodeFails => FinishFlow(s, ValidationFailure, m);
      case PostOk(payload) => PostOkFlow(s, payload, m);
      case PostFails => if |s.queue| < s.config.depth { RequeueFlow(s, m); } else { FinishFlow(s, FinalDrop, m); }
      case _ =>
    }
  }

  // ---------------------------------------------------------------------- vetted frames

  /** Every item anywhere in the system is vetted; only signal items are counted. */
  ghost predicate AllVetted(s: State) {
    && (forall k :: 0 <= k < |s.queue| ==> Vetted(s.queue[k].kind, s.config.maxSamples))
    && (forall p :: 0 <= p < |s.producers| ==> s.producers[p].Idle? || Vetted(s.producers[p].kind, s.config.maxSamples))
    && (s.hand.Received? ==> Vetted(s.hand.item.kind, s.config.maxSamples))
    && (s.hand.Counting? || s.hand.Freeing? ==> s.hand.kind.Signal? && Vetted(s.hand.kind, s.config.maxSamples))
  }

  lemma VettedProducerStep(s: State, a: Step)
    requires AllVetted(s) && Enabled(s, a) && (ByProducer(a) || a.Send?)
    ensures AllVetted(Apply(s, a)) && Apply(s, a).config == s.config
  {}

  lemma VettedStep(s: State, a: Step)
    requires AllVetted(s) && Enabled(s, a)
    ensures AllVetted(Apply(s, a)) && Apply(s, a).config == s.config
  {
    if ByProducer(a) || a.Send? { VettedProducerStep(s, a); }
  }

  lemma {:induction false} QueueSized(q: seq<Item>, maxSamples: nat)
    requires forall k :: 0 <= k < |q| ==> Vetted(q[k].kind, maxSamples)
    ensures QueueWeight(q, Blocks) <= QueueWeight(q, Bytes)
  {
    if q != [] { QueueSized(q[..|q| - 1], maxSamples); }
  }

  lemma {:induction false} ProducersSized(ps: seq<Producer>, maxSamples: nat)
    requires forall p :: 0 <= p < |ps| ==> ps[p].Idle? || Vetted(ps[p].kind, maxSamples)
    ensures ProducersWeight(ps, Blocks) <= ProducersWeight(ps, Bytes)
  {
    if ps != [] { ProducersSized(ps[..|ps| - 1], maxSamples); }
  }

  /** Every live block has at least one byte. */
  lemma BlocksWithinBytes(s: State)
    requires AllVetted(s)
    ensures Live(s, Blocks) <= Live(s, Bytes)
  {
    QueueSized(s.queue, s.config.maxSamples);
    ProducersSized(s.producers, s.config.maxSamples);
  }

  // ------------------------------------------------------------------- pool invariant

  function ReasonSum(t: Totals): nat {
    t.sendFailures + t.validationFailures + t.uploadSuccesses + t.finalDrops
  }

  /** Wrapped counters show the true totals modulo 2^32. */
  predicate Shows(stats: Stats, t: Totals) {
    && stats.allocationCount == t.allocs % TWO_32 && stats.releaseCount == t.frees % TWO_32
    && stats.sendFailures == t.sendFailures % TWO_32 && stats.validationFailures == t.validationFailures % TWO_32
    && stats.uploadSuccesses == t.uploadSuccesses % TWO_32 && stats.finalDrops == t.finalDrops % TWO_32
    && stats.failureCount == t.failures % TWO_32
  }

  /** The counters against what is live. */
  predicate Balanced(x: Stats, t: Totals, blocks: int, bytes: int, pending: int) {
    && Shows(x, t)
    && x.allocatedBlocks == blocks && x.allocatedBytes == bytes < TWO_32
    && t.allocs == t.frees + blocks && ReasonSum(t) == t.frees + pending
    && x.peakBlocks >= x.allocatedBlocks && x.peakBytes >= x.allocatedBytes
  }

  predicate Tallied(s: State) {
    Balanced(s.stats, s.totals, Live(s, Blocks), Live(s, Bytes), Live(s, Pending))
  }

  ghost predicate Accounted(s: State) {
    AllVetted(s) && Tallied(s)
  }

  lemma AllocateBalanced(x: Stats, t: Totals, blocks: nat, bytes: nat, pending: nat, size: nat)
    requires Balanced(x, t, blocks, bytes, pending) && blocks <= bytes && bytes + size < TWO_32 && size > 0
    ensures Balanced(NoteAlloc(x, size), t.(allocs := t.allocs + 1), blocks + 1, bytes + size, pending)
  {
    IncWraps(t.allocs);
  }

  lemma CountBalanced(x: Stats, t: Totals, blocks: nat, bytes: nat, pending: nat, r: Reason)
    requires Balanced(x, t, blocks, bytes, pending)
    ensures Balanced(NoteReason(x, r), CountReason(t, r), blocks, bytes, pending + 1)
  {
    match r
    case SendFailure => IncWraps(t.sendFailures);
    case ValidationFailure => IncWraps(t.validationFailures);
    case UploadSuccess => IncWraps(t.uploadSuccesses);
    case FinalDrop => IncWraps(t.finalDrops);
  }

  lemma ReleaseBalanced(x: Stats, t: Totals, blocks: nat, bytes: nat, pending: nat, size: nat)
    requires Balanced(x, t, blocks, bytes, pending) && blocks > 0 && bytes >= size && pending > 0
    ensures Balanced(NoteRelease(x, size), t.(frees := t.frees + 1), blocks - 1, bytes - size, pending - 1)
  {
    IncWraps(t.frees);
  }

  /** A producer's block, and one the uploader holds, are among the live ones. */
  lemma OwnedAmongLive(s: State, p: nat, m: Measure)
    requires p < |s.producers|
    ensures ProducerWeight(s.producers[p], m) <= Live(s, m)
  {
    ProducerWithin(s.producers, p, m);
  }

  /** The saturating branches of a release are not taken: the block is accounted for. */
  lemma FreeUnsentAccounted(s: State, p: nat)
    requires Accounted(s) && Enabled(s, FreeUnsent(p)) && s.producers[p].kind.Signal?
    ensures s.stats.allocatedBlocks > 0 && s.stats.allocatedBytes >= s.producers[p].kind.frame.samplesSize
    ensures Live(s, Pending) > 0
  {
    OwnedAmongLive(s, p, Blocks);
    OwnedAmongLive(s, p, Bytes);
    OwnedAmongLive(s, p, Pending);
  }

  lemma FreeAccounted(s: State)
    requires Accounted(s) && Enabled(s, Free)
    ensures s.stats.allocatedBlocks > 0 && s.stats.allocatedBytes >= s.hand.kind.frame.samplesSize
    ensures Live(s, Pending) > 0
  {}

  lemma PoolStep(s: State, a: Step)
    requires Accounted(s) && Enabled(s, a)
    ensures Accounted(Apply(s, a))
  {
    VettedStep(s, a);
    LiveFlow(s, a, Blocks);
    LiveFlow(s, a, Bytes);
    LiveFlow(s, a, Pending);
    BalancedStep(s, a);
  }

  /** Counters against what is live after a step's flow. */
  ghost predicate BalancedAfter(s: State, a: Step)
    requires Enabled(s, a)
  {
    var t := Apply(s, a);
    Balanced(t.stats, t.totals, Live(s, Blocks) + Flow(s, a, Blocks), Live(s, Bytes) + Flow(s, a, Bytes), Live(s, Pending) + Flow(s, a, Pending))
  }

  lemma AllocateStep(s: State, p: nat, frame: Input)
    requires Accounted(s) && Enabled(s, Allocate(p, frame))
    ensures BalancedAfter(s, Allocate(p, frame))
  {
    BlocksWithinBytes(s);
    AllocateBalanced(s.stats, s.totals, Live(s, Blocks), Live(s, Bytes), Live(s, Pending), frame.samplesSize);
  }

  lemma FreeUnsentStep(s: State, p: nat)
    requires Accounted(s) && Enabled(s, FreeUnsent(p))
    ensures BalancedAfter(s, FreeUnsent(p))
  {
    if s.producers[p].kind.Signal? {
      FreeUnsentAccounted(s, p);
      ReleaseBalanced(s.stats, s.totals, Live(s, Blocks), Live(s, Bytes), Live(s, Pending), s.producers[p].kind.frame.samplesSize);
    }
  }

  lemma FreeStep(s: State)
    requires Accounted(s) && Enabled(s, Free)
    ensures BalancedAfter(s, Free)
  {
    FreeAccounted(s);
    ReleaseBalanced(s.stats, s.totals, Live(s, Blocks), Live(s, Bytes), Live(s, Pending), s.hand.kind.frame.samplesSize);
  }

  lemma SendFailsStep(s: State, p: nat)
    requires Tallied(s) && Enabled(s, SendFails(p))
    ensures BalancedAfter(s, SendFails(p))
  {
    CountBalanced(s.stats, s.totals, Live(s, Blocks), Live(s, Bytes), Live(s, Pending), SendFailure);
  }

  lemma CountStep(s: State)
    requires Accounted(s) && Enabled(s, Count)
    ensures BalancedAfter(s, Count)
  {
    CountBalanced(s.stats, s.totals, Live(s, Blocks), Live(s, Bytes), Live(s, Pending), s.hand.reason);
  }

  /** Finishing with an item changes no counter and, of what is counted there, nothing. */
  lemma QuietFinish(s: State, reason: Reason)
    requires Tallied(s) && s.hand.Received?
    ensures var t := Finish(s, s.hand.item.kind, reason);
            t.stats == s.stats && t.totals == s.totals
    ensures Shed(s.hand.item.kind, Blocks) == 0 && Shed(s.hand.item.kind, Bytes) == 0 && Shed(s.hand.item.kind, Pending) == 0
  {}

  lemma EncodeFailsStep(s: State)
    requires Tallied(s) && Enabled(s, EncodeFails)
    ensures BalancedAfter(s, EncodeFails)
  {
    QuietFinish(s, ValidationFailure);
  }

  lemma PostOkStep(s: State, payload: seq<Byte>)
    requires Tallied(s) && Enabled(s, PostOk(payload))
    ensures BalancedAfter(s, PostOk(payload))
  {
    QuietFinish(s, UploadSuccess);
  }

  lemma PostFailsStep(s: State)
    requires Tallied(s) && Enabled(s, PostFails)
    ensures BalancedAfter(s, PostFails)
  {
    QuietFinish(s, FinalDrop);
  }

  /** Nor do the remaining steps. */
  lemma QuietStep(s: State, a: Step)
    requires Tallied(s) && Enabled(s, a)
    requires a.Copy? || a.Send? || a.SendStatus? || a.Wake? || a.Receive? || a.Sleep?
    ensures BalancedAfter(s, a)
  {}

  /** Each step's counters follow its flow. */
  lemma BalancedStep(s: State, a: Step)
    requires Accounted(s) && Enabled(s, a)
    ensures BalancedAfter(s, a)
  {
    match a
    case Allocate(p, frame) => AllocateStep(s, p, frame);
    case AllocationFails(_) => IncWraps(s.totals.failures);
    case SendFails(p) => SendFailsStep(s, p);
    case FreeUnsent(p) => FreeUnsentStep(s, p);
    case Count => CountStep(s);
    case Free => FreeStep(s);
    case EncodeFails => EncodeFailsStep(s);
    case PostOk(payload) => PostOkStep(s, payload);
    case PostFails => PostFailsStep(s);
    case _ => QuietStep(s, a);
  }

  // ------------------------------------------------------------------ telemetry blocks

  /** Every live telemetry block has exactly one holder, and every block held is live. */
  ghost predicate Held(s: State) {
    forall a :: Live(s, Holders(a)) == if a in s.heap then 1 else 0
  }

  lemma OneHolder(s: State, a: Addr)
    requires Held(s)
    ensures Live(s, Holders(a)) == if a in s.heap then 1 else 0
  {}

  lemma HeldStep(s: State, step: Step)
    requires Held(s) && AllVetted(s) && Enabled(s, step)
    ensures Held(Apply(s, step))
  {
    forall a ensures Live(Apply(s, step), Holders(a)) == if a in Apply(s, step).heap then 1 else 0 {
      LiveFlow(s, step, Holders(a));
      OneHolder(s, a);
      HeapFlow(s, step, a);
    }
  }

  /** A block leaves the heap exactly when its holder lets go of it, and enters it with one. */
  lemma HeapFlow(s: State, step: Step, a: Addr)
    requires Held(s) && AllVetted(s) && Enabled(s, step)
    ensures (if a in Apply(s, step).heap then 1 else 0) == (if a in s.heap then 1 else 0) + Flow(s, step, Holders(a))
  {
    OneHolder(s, a);
    if step.FreeUnsent? { OwnedAmongLive(s, step.p, Holders(a)); }
  }

  /** What a release frees is live, so nothing is freed twice. */
  lemma FreedOnce(s: State, p: nat)
    requires Held(s)
    ensures p < |s.producers| && !s.producers[p].Idle? ==> HeapOf(s.producers[p].kind) <= s.heap
    ensures s.hand.Received? ==> HeapOf(s.hand.item.kind) <= s.heap
  {
    if p < |s.producers| && !s.producers[p].Idle? {
      forall a | a in HeapOf(s.producers[p].kind) ensures a in s.heap {
        OneHolder(s, a);
        OwnedAmongLive(s, p, Holders(a));
      }
    }
    if s.hand.Received? {
      forall a | a in HeapOf(s.hand.item.kind) ensures a in s.heap { OneHolder(s, a); }
    }
  }

  // ---------------------------------------------------------------------- whole runs

  /** Every payload was made of its item under its sequence number. */
  ghost predicate AllCarried(s: State) {
    forall k :: 0 <= k < |s.posts| ==>
      Vetted(s.posts[k].item.kind, s.config.maxSamples)
      && s.config.carries(s.posts[k].sequence, s.posts[k].item.kind, s.posts[k].payload)
  }

  lemma CarriedStep(s: State, a: Step)
    requires AllVetted(s) && AllCarried(s) && Enabled(s, a)
    ensures AllCarried(Apply(s, a))
  {}

  ghost predicate Sane(s: State) {
    Ordered(s) && Accounted(s) && Held(s) && AllCarried(s)
  }

  lemma {:induction false} Invariant(s: State, run: seq<Step>)
    requires Sane(s) && Possible(s, run)
    ensures Sane(After(s, run)) && After(s, run).config == s.config
    decreases run
  {
    if run != [] {
      OrderStep(s, run[0]);
      PoolStep(s, run[0]);
      HeldStep(s, run[0]);
      CarriedStep(s, run[0]);
      VettedStep(s, run[0]);
      Invariant(Apply(s, run[0]), run[1..]);
    }
  }

  lemma StartSane(config: Config, producers: nat)
    ensures Sane(Start(config, producers))
  {
    var s := Start(config, producers);
    forall m: Measure ensures Live(s, m) == 0 { IdleProducers(producers, m); }
    assert Line(s) == [];
  }

  /** Over every run: successful posts carry sequence numbers 0, 1, 2, ... (modulo 2^64) and
      are a subsequence of what was sent to the queue, in that order; nothing is posted twice; and
      each payload was made of its item under that number. */
  lemma PostsInOrder(config: Config, producers: nat, run: seq<Step>)
    requires Possible(Start(config, producers), run)
    ensures var s := After(Start(config, producers), run);
            && (forall k :: 0 <= k < |s.posts| ==> s.posts[k].sequence == k % TWO_64)
            && AllCarried(s)
            && (forall k :: 0 <= k < |s.posts| ==> Logged(s.posts[k].item, s.log))
            && (forall j, k :: 0 <= j < k < |s.posts| ==> s.posts[j].item.position < s.posts[k].item.position)
            && |s.queue| <= config.depth
  {
    StartSane(config, producers);
    Invariant(Start(config, producers), run);
    var s := After(Start(config, producers), run);
    forall j, k | 0 <= j < k < |s.posts| ensures s.posts[j].item.position < s.posts[k].item.position {
      assert Line(s)[j] == s.posts[j].item.position && Line(s)[k] == s.posts[k].item.position;
    }
  }

  /** No block with a producer or the uploader is waiting to be freed. */
  predicate AtRest(s: State) {
    !s.hand.Freeing? && forall p :: 0 <= p < |s.producers| ==> !s.producers[p].Unsent?
  }

  lemma {:induction false} NonePending(ps: seq<Producer>)
    requires forall p :: 0 <= p < |ps| ==> !ps[p].Unsent?
    ensures ProducersWeight(ps, Pending) == 0
  {
    if ps != [] { NonePending(ps[..|ps| - 1]); }
  }

  lemma {:induction false} NonePendingQueue(q: seq<Item>)
    ensures QueueWeight(q, Pending) == 0
  {
    if q != [] { NonePendingQueue(q[..|q| - 1]); }
  }

  lemma RestHasNonePending(s: State)
    requires AtRest(s)
    ensures Live(s, Pending) == 0
  {
    NonePending(s.producers);
    NonePendingQueue(s.queue);
  }

  /** What the pool's counters say about the live blocks. */
  predicate Conserved(s: State) {
    var x := s.stats;
    && x.allocatedBlocks == Live(s, Blocks) && x.allocatedBytes == Live(s, Bytes)
    && (x.allocationCount - x.releaseCount) % TWO_32 == x.allocatedBlocks
    && (AtRest(s) ==>
         x.releaseCount == (x.sendFailures + x.validationFailures + x.uploadSuccesses + x.finalDrops) % TWO_32)
    && x.peakBlocks >= x.allocatedBlocks && x.peakBytes >= x.allocatedBytes
  }

  lemma AccountedConserves(s: State)
    requires Accounted(s)
    ensures Conserved(s)
  {
    var t := s.totals;
    BlocksWithinBytes(s);
    WrappedDifference(t.allocs, t.frees, Live(s, Blocks));
    WrappedSum(t.sendFailures, t.validationFailures, t.uploadSuccesses, t.finalDrops);
    if AtRest(s) { RestHasNonePending(s); }
  }

  /** Over every run the pool's counters describe exactly the live blocks; allocations minus
      releases is their number; at rest the releases are the sum of the four reasons. */
  lemma PoolConserved(config: Config, producers: nat, run: seq<Step>)
    requires Possible(Start(config, producers), run)
    ensures Conserved(After(Start(config, producers), run))
  {
    StartSane(config, producers);
    Invariant(Start(config, producers), run);
    AccountedConserves(After(Start(config, producers), run));
  }

  // ------------------------------------------------------------- what the counters count

  /** The pool's counters of events. */
  datatype Counter = Allocations | Releases | Failures | Because(reason: Reason)

  function TotalOf(t: Totals, c: Counter): nat {
    match c
    case Allocations => t.allocs
    case Releases => t.frees
    case Failures => t.failures
    case Because(SendFailure) => t.sendFailures
    case Because(ValidationFailure) => t.validationFailures
    case Because(UploadSuccess) => t.uploadSuccesses
    case Because(FinalDrop) => t.finalDrops
  }

  function ShownBy(x: Stats, c: Counter): nat {
    match c
    case Allocations => x.allocationCount
    case Releases => x.releaseCount
    case Failures => x.failureCount
    case Because(SendFailure) => x.sendFailures
    case Because(ValidationFailure) => x.validationFailures
    case Because(UploadSuccess) => x.uploadSuccesses
    case Because(FinalDrop) => x.finalDrops
  }

  /** Whether a step is what the counter counts: a signal frame that could not be sent, could not be
      encoded, was posted, or was lost to a full queue after its post failed; a block allocated,
      denied or given back. */
  predicate Happens(s: State, a: Step, c: Counter)
    requires Enabled(s, a)
  {
    match c
    case Allocations => a.Allocate?
    case Failures => a.AllocationFails?
    case Releases => a.Free? || (a.FreeUnsent? && s.producers[a.p].kind.Signal?)
    case Because(SendFailure) => a.SendFails? && s.producers[a.p].kind.Signal?
    case Because(ValidationFailure) => a.EncodeFails? && s.hand.item.kind.Signal?
    case Because(UploadSuccess) => a.PostOk? && s.hand.item.kind.Signal?
    case Because(FinalDrop) => a.PostFails? && |s.queue| >= s.config.depth && s.hand.item.kind.Signal?
  }

  /** How often it happened in a run. */
  function Occasions(s: State, run: seq<Step>, c: Counter): nat
    requires Possible(s, run)
    decreases run
  {
    if run == [] then 0 else (if Happens(s, run[0], c) then 1 else 0) + Occasions(Apply(s, run[0]), run[1..], c)
  }

  /** A frame in hand whose reason is still to be counted. */
  function Waiting(s: State, c: Counter): nat {
    if c.Because? && s.hand.Counting? && s.hand.reason == c.reason then 1 else 0
  }

  lemma CounterStep(s: State, a: Step, c: Counter)
    requires Enabled(s, a)
    ensures TotalOf(Apply(s, a).totals, c) + Waiting(Apply(s, a), c)
         == TotalOf(s.totals, c) + Waiting(s, c) + if Happens(s, a, c) then 1 else 0
  {}

  lemma {:induction false} CounterRun(s: State, run: seq<Step>, c: Counter)
    requires Possible(s, run)
    ensures TotalOf(After(s, run).totals, c) + Waiting(After(s, run), c) == TotalOf(s.totals, c) + Waiting(s, c) + Occasions(s, run, c)
    decreases run
  {
    if run != [] {
      CounterStep(s, run[0], c);
      CounterRun(Apply(s, run[0]), run[1..], c);
    }
  }

  /** Over every run each counter is the number of its occasions, but for a frame whose reason is
      still to be counted, modulo 2^32. */
  lemma {:induction false} CountersCount(config: Config, producers: nat, run: seq<Step>, c: Counter)
    requires Possible(Start(config, producers), run)
    ensures var s := After(Start(config, producers), run);
            Waiting(s, c) <= Occasions(Start(config, producers), run, c)
            && ShownBy(s.stats, c) == (Occasions(Start(config, producers), run, c) - Waiting(s, c)) % TWO_32
  {
    RunAccounted(config, producers, run);
    CountersOf(Start(config, producers), run, c);
  }

  lemma {:induction false} RunAccounted(config: Config, producers: nat, run: seq<Step>)
    requires Possible(Start(config, producers), run)
    ensures Accounted(After(Start(config, producers), run))
  {
    StartSane(config, producers);
    Invariant(Start(config, producers), run);
  }

  lemma {:induction false} CountersOf(s: State, run: seq<Step>, c: Counter)
    requires Possible(s, run) && TotalOf(s.totals, c) == Waiting(s, c) == 0 && Accounted(After(s, run))
    ensures Waiting(After(s, run), c) <= Occasions(s, run, c)
    ensures ShownBy(After(s, run).stats, c) == (Occasions(s, run, c) - Waiting(After(s, run), c)) % TWO_32
  {
    CounterRun(s, run, c);
    ShownIsTotal(After(s, run), c);
  }

  lemma ShownIsTotal(s: State, c: Counter)
    requires Accounted(s)
    ensures ShownBy(s.stats, c) == TotalOf(s.totals, c) % TWO_32
  {}

  /** The largest value of a measure in the course of a run. */
  function Highest(s: State, run: seq<Step>, m: Measure): nat
    requires Possible(s, run)
    decreases run
  {
    if run == [] then Live(s, m)
    else
      var later := Highest(Apply(s, run[0]), run[1..], m);
      if Live(s, m) > later then Live(s, m) else later
  }

  lemma PeakStep(s: State, a: Step)
    requires Accounted(s) && Enabled(s, a)
    ensures var x, y, t := s.stats, Apply(s, a).stats, Apply(s, a);
            && y.peakBlocks == (if Live(t, Blocks) > x.peakBlocks then Live(t, Blocks) else x.peakBlocks)
            && y.peakBytes == (if Live(t, Bytes) > x.peakBytes then Live(t, Bytes) else x.peakBytes)
  {
    PoolStep(s, a);
    PeaksAfter(s, a);
  }

  lemma PeaksAfter(s: State, a: Step)
    requires Enabled(s, a)
    ensures var x, y := s.stats, Apply(s, a).stats;
            && y.peakBlocks == (if a.Allocate? && y.allocatedBlocks > x.peakBlocks then y.allocatedBlocks else x.peakBlocks)
            && y.peakBytes == (if a.Allocate? && y.allocatedBytes > x.peakBytes then y.allocatedBytes else x.peakBytes)
  {}

  lemma {:induction false} PeakRun(s: State, run: seq<Step>)
    requires Accounted(s) && Possible(s, run)
    ensures var x, y := s.stats, After(s, run).stats;
            && y.peakBlocks == (if Highest(s, run, Blocks) > x.peakBlocks then Highest(s, run, Blocks) else x.peakBlocks)
            && y.peakBytes == (if Highest(s, run, Bytes) > x.peakBytes then Highest(s, run, Bytes) else x.peakBytes)
    decreases run
  {
    if run != [] {
      PeakStep(s, run[0]);
      PoolStep(s, run[0]);
      PeakRun(Apply(s, run[0]), run[1..]);
    }
  }

  /** Over every run the peaks are the most blocks and bytes that were ever live at once. */
  lemma PeaksAreHighest(config: Config, producers: nat, run: seq<Step>)
    requires Possible(Start(config, producers), run)
    ensures var s := After(Start(config, producers), run);
            && s.stats.peakBlocks == Highest(Start(config, producers), run, Blocks)
            && s.stats.peakBytes == Highest(Start(config, producers), run, Bytes)
  {
    StartSane(config, producers);
    PeakRun(Start(config, producers), run);
  }

  // -------------------------------------------------------------------- no telemetry leaks

  predicate Empty(s: State) {
    s.queue == [] && s.hand.Nothing? && forall p :: 0 <= p < |s.producers| ==> s.producers[p].Idle?
  }

  lemma {:induction false} NothingHeld(ps: seq<Producer>, m: Measure)
    requires forall p :: 0 <= p < |ps| ==> ps[p].Idle?
    ensures ProducersWeight(ps, m) == 0
  {
    if ps != [] { NothingHeld(ps[..|ps| - 1], m); }
  }

  /** Over every run each live telemetry block has exactly one holder among the queued items,
      the item in hand and the producers; what a release frees is live; and once nothing is
      queued or held, no block is left. */
  lemma TelemetryConserved(config: Config, producers: nat, run: seq<Step>, p: nat)
    requires Possible(Start(config, producers), run)
    ensures var s := After(Start(config, producers), run);
            && Held(s)
            && (p < |s.producers| && !s.producers[p].Idle? ==> HeapOf(s.producers[p].kind) <= s.heap)
            && (s.hand.Received? ==> HeapOf(s.hand.item.kind) <= s.heap)
            && (Empty(s) ==> s.heap == {})
  {
    StartSane(config, producers);
    Invariant(Start(config, producers), run);
    var s := After(Start(config, producers), run);
    FreedOnce(s, p);
    if Empty(s) {
      forall a ensures a !in s.heap {
        OneHolder(s, a);
        NothingHeld(s.producers, Holders(a));
      }
    }
  }

  // ------------------------------------------------------------- validated frames encode

  /** No status and no frame that passes validation can be refused later. */
  ghost predicate Adequate(c: Config) {
    forall k :: Vetted(k, c.maxSamples) && !k.Telemetry? ==> !c.refuses(k)
  }

  /** Encode failures of status and signal items in a run. */
  function Refusals(s: State, run: seq<Step>): nat
    requires Possible(s, run)
    decreases run
  {
    if run == [] then 0
    else (if run[0].EncodeFails? && !s.hand.item.kind.Telemetry? then 1 else 0) + Refusals(Apply(s, run[0]), run[1..])
  }

  /** No signal item is being counted as a validation failure. */
  predicate NoneRefused(s: State) {
    s.totals.validationFailures == 0 && (s.hand.Counting? ==> s.hand.reason != ValidationFailure)
  }

  lemma NoneRefusedStep(s: State, a: Step)
    requires AllVetted(s) && Adequate(s.config) && NoneRefused(s) && Enabled(s, a)
    ensures NoneRefused(Apply(s, a))
    ensures !(a.EncodeFails? && !s.hand.item.kind.Telemetry?)
  {
    if s.hand.Received? { assert Vetted(s.hand.item.kind, s.config.maxSamples); }
  }

  lemma {:induction false} NoneRefusedRun(s: State, run: seq<Step>)
    requires AllVetted(s) && Adequate(s.config) && NoneRefused(s) && Possible(s, run)
    ensures NoneRefused(After(s, run)) && Refusals(s, run) == 0
    decreases run
  {
    if run != [] {
      NoneRefusedStep(s, run[0]);
      VettedStep(s, run[0]);
      NoneRefusedRun(Apply(s, run[0]), run[1..]);
    }
  }

  /** Over every run the encode step then never fails on a status or a signal frame: none is lost
      that way and the counter stays at zero. */
  lemma QueuedFramesEncode(config: Config, producers: nat, run: seq<Step>)
    requires Adequate(config) && Possible(Start(config, producers), run)
    ensures var s := After(Start(config, producers), run);
            Refusals(Start(config, producers), run) == 0 && s.totals.validationFailures == 0 && s.stats.validationFailures == 0
  {
    StartSane(config, producers);
    Invariant(Start(config, producers), run);
    NoneRefusedRun(Start(config, producers), run);
    ShownCounts(After(Start(config, producers), run));
  }

  lemma ShownCounts(s: State)
    requires Accounted(s)
    ensures s.stats.validationFailures == s.totals.validationFailures % TWO_32
  {}

  // -------------------------------------------------------------- what becomes of items

  /** The two ways an item is lost: it cannot be encoded, or it failed and the queue is full. */
  predicate Loses(s: State, a: Step) {
    a.EncodeFails? || (a.PostFails? && |s.queue| >= s.config.depth)
  }

  function Losses(s: State, run: seq<Step>): nat
    requires Possible(s, run)
    decreases run
  {
    if run == [] then 0 else (if Loses(s, run[0]) then 1 else 0) + Losses(Apply(s, run[0]), run[1..])
  }

  /** Items posted, in hand or queued. */
  function Kept(s: State): nat {
    |s.posts| + |HandPositions(s.hand)| + |s.queue|
  }

  lemma ItemStep(s: State, a: Step)
    requires Enabled(s, a)
    ensures |Apply(s, a).log| + Kept(s) == |s.log| + Kept(Apply(s, a)) + if Loses(s, a) then 1 else 0
  {}

  lemma {:induction false} ItemsBalance(s: State, run: seq<Step>)
    requires Possible(s, run)
    ensures |After(s, run).log| + Kept(s) == |s.log| + Kept(After(s, run)) + Losses(s, run)
    decreases run
  {
    if run != [] {
      ItemStep(s, run[0]);
      ItemsBalance(Apply(s, run[0]), run[1..]);
    }
  }

  /** Over every run each enqueued item is posted, in hand, queued, or lost in one of the two
      ways: a failed post never loses an item while the queue has room. */
  lemma ItemsConserved(config: Config, producers: nat, run: seq<Step>)
    requires Possible(Start(config, producers), run)
    ensures var s := After(Start(config, producers), run);
            |s.log| == |s.posts| + |HandPositions(s.hand)| + |s.queue| + Losses(Start(config, producers), run)
  {
    ItemsBalance(Start(config, producers), run);
  }
}
