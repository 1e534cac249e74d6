/**
 The uploader's drain loop and the enqueue functions as the firmware runs them, on a mutable
 context and the heap. Their contract is that whatever they do extends a run of the step system
 in `Uploader` that began at its start, so the results about runs hold of the context. What
 other tasks do meanwhile and how calls out of the firmware end is given by one `Round` for
 every received item.
 */
module DrainQueue {
  import opened Wrappers
  import opened Varint
  import opened SamplePool
  import opened FrameInput
  import opened Uploader
  import opened ItemMemory
  import opened ItemEncoding
  import IngestEvent
  import EventEncoding
  import TelemetryEvent
  import QueueItem
  import T = Telemetry

  /** What another task tries to do: allocate and fill a frame's block, fill a telemetry record
      and copy it, send what it holds or free it, or enqueue a status. `granted`, `grantTable` and
      `grants` are the allocator's answers. */
  datatype Move =
    | FrameMove(p: nat, frame: Input, granted: bool)
    | CopyMove(p: nat, stamp: nat, calls: seq<T.Call>, grantTable: bool, grants: seq<bool>)
    | SendMove(p: nat)
    | FreeMove(p: nat)
    | StatusMove(stamp: nat, report: IngestEvent.Status)

  /** Ranges of C types; a record's values fit the address space. */
  ghost predicate ValidMove(m: Move) {
    match m
    case FrameMove(_, frame, _) => ValidInput(frame)
    case CopyMove(_, stamp, calls, _, grants) =>
      && stamp < TWO_64 && |grants| >= IngestEvent.MAX_METRICS && TelemetryEvent.Handed(calls) < 0x8000_0000
      && forall i :: 0 <= i < |calls| ==> TelemetryEvent.Typed(calls[i].reading)
    case StatusMove(stamp, report) => stamp < TWO_64 && ValidReport(report)
    case _ => true
  }

  ghost predicate ValidMoves(moves: seq<Move>) {
    forall i :: 0 <= i < |moves| ==> ValidMove(moves[i])
  }

  /** The allocator denies the copy nothing. */
  predicate Granted(m: Move) {
    m.CopyMove? ==> m.grantTable && forall i :: 0 <= i < |m.grants| ==> m.grants[i]
  }

  predicate AllGranted(moves: seq<Move>) {
    forall i :: 0 <= i < |moves| ==> Granted(moves[i])
  }

  /** While one item is in hand: what other tasks do, the header but for counter and time, and
      whether the post succeeds. */
  datatype Round = Round(moves: seq<Move>, header: IngestEvent.Header, accepted: bool)

  ghost predicate ValidRound(r: Round) {
    IngestEvent.ValidHeader(r.header) && ValidMoves(r.moves)
  }

  ghost predicate ValidRounds(rounds: seq<Round>) {
    forall i :: 0 <= i < |rounds| ==> ValidRound(rounds[i])
  }

  /** Between two timer or flush events other tasks act; then the queue is drained. */
  datatype Cycle = Cycle(moves: seq<Move>, rounds: seq<Round>)

  /** Extending a run by one step. */
  lemma {:induction false} Extend(s: State, run: seq<Step>, a: Step)
    requires Possible(s, run) && Enabled(After(s, run), a)
    ensures Possible(s, run + [a]) && After(s, run + [a]) == Apply(After(s, run), a)
    decreases run
  {
    if run == [] {
      assert run + [a] == [a] && [a][1..] == [];
    } else {
      assert (run + [a])[1..] == run[1..] + [a];
      Extend(Apply(s, run[0]), run[1..], a);
    }
  }

  /** The uploader's part of a state. */
  ghost predicate SameUploader(s: State, t: State) {
    t.hand == s.hand && t.posts == s.posts && t.draining == s.draining && t.sequence == s.sequence && t.config == s.config
  }

  datatype Result = Done | Invalid | NoMemory | TimedOut

  lemma IdleAgain(ps: seq<Producer>, p: nat, x: Producer)
    requires p < |ps| && ps[p].Idle?
    ensures ps[p := x][p := Idle] == ps
  {}

  /** Whether every allocation for a copy is granted. */
  ghost predicate CopyGranted(src: T.Record, b: T.Blocks, grantTable: bool, grants: seq<bool>)
    requires T.Owned(src, b) && |grants| >= src.count
  {
    (src.table.Some? ==> grantTable) && QueueItem.FirstDenied(T.Used(src, b), grants, 0) == src.count
  }

  /** The item says that much at that time, and its blocks are what was added to the heap. */
  ghost predicate CopiedAs(k: Kind, stamp: nat, says: seq<T.Entry>, before: T.Blocks, after: T.Blocks) {
    && k.Telemetry? && k.stamp == stamp && k.says == says
    && k.owns !! before.Keys && after.Keys == before.Keys + k.owns && QueueItem.Extends(after, before)
  }

  /** Freeing them restores the heap. */
  lemma GivenBack(k: Kind, stamp: nat, says: seq<T.Entry>, before: T.Blocks, after: T.Blocks, heap: set<Addr>)
    requires CopiedAs(k, stamp, says, before, after) && heap <= before.Keys
    ensures Freed(after, k) == before && Without(heap + k.owns, k) == heap
  {}

  lemma GrantedCopies(src: T.Record, b: T.Blocks, grantTable: bool, grants: seq<bool>)
    requires T.Owned(src, b) && |grants| >= src.count
    requires grantTable && forall i :: 0 <= i < |grants| ==> grants[i]
    ensures CopyGranted(src, b, grantTable, grants)
  {}

  /** aetus_telemetry_init and any add calls. */
  method Filled(mem: T.Heap, calls: seq<T.Call>) returns (src: T.Telemetry)
    requires mem.Valid() && TelemetryEvent.Handed(calls) < 0x8000_0000
    requires forall i :: 0 <= i < |calls| ==> TelemetryEvent.Typed(calls[i].reading)
    modifies mem
    ensures fresh(src) && src.heap == mem && src.Valid() && TelemetryEvent.Sendable(src.Says())
    ensures src.Owns() <= mem.blocks.Keys && T.Spared(old(mem.blocks), {}, mem.blocks, src.Owns())
  {
    src := new T.Telemetry(mem);
    var results := src.AddAll(calls);
    assert src.Says() == T.Succeeded(calls, results);
    TelemetryEvent.SucceededWithin(calls, results);
    T.FootprintLive(src.View(), mem.blocks);
  }

  class Context {
    const depth: nat
    const maxSamples: nat
    const capacity: nat
    ghost const config: Config
    ghost const begin: State
    const pool: Pool
    const mem: T.Heap
    var queue: seq<Item>
    var producers: seq<Producer>
    var sequence: nat
    var sent: nat            // numbers items in send order; the firmware keeps no such number
    ghost var run: seq<Step>

    ghost function Machine(): State
      reads this
      requires Possible(begin, run)
    {
      After(begin, run)
    }

    /** The run so far, the fields being what it leads to, and the items being in memory. */
    ghost predicate Coupled()
      reads this, pool, mem
    {
      && Possible(begin, run) && Accounted(Machine()) && Shown(Machine()) && maxSamples <= SAMPLES_ABSOLUTE_MAX
      && begin == Start(config, |begin.producers|) && mem.Valid() && Stored(Machine(), mem.blocks)
    }

    /** Blocks of the application: those of no item. */
    ghost function Outside(): set<Addr>
      reads this, mem
      requires Possible(begin, run)
    {
      Others(mem.blocks, Machine().heap)
    }

    /** Its encode step is the firmware's. */
    ghost predicate Built() {
      config == Firmware(depth, maxSamples, capacity)
    }

    ghost predicate Shown(s: State)
      reads this, pool
    {
      && s.config == config && config.depth == depth && config.maxSamples == maxSamples && s.queue == queue
      && s.producers == producers && s.sequence == sequence && |s.log| == sent && s.stats == pool.State()
      && sequence < TWO_64
    }

    constructor (depth: nat, maxSamples: nat, capacity: nat, tasks: nat, mem: T.Heap)
      requires maxSamples <= SAMPLES_ABSOLUTE_MAX && mem.Valid()
      ensures this.depth == depth && this.maxSamples == maxSamples && this.capacity == capacity && this.mem == mem
      ensures Coupled() && Built() && fresh(pool)
      ensures begin == Start(Firmware(depth, maxSamples, capacity), tasks) && run == []
    {
      this.depth, this.maxSamples, this.capacity, this.mem := depth, maxSamples, capacity, mem;
      config := Firmware(depth, maxSamples, capacity);
      pool := new Pool();
      queue, producers, sequence, sent := [], seq(tasks, _ => Idle), 0, 0;
      begin, run := Start(Firmware(depth, maxSamples, capacity), tasks), [];
      StartSane(Firmware(depth, maxSamples, capacity), tasks);
    }

    /** Records that the run took one more step; the caller changes the fields. */
    ghost method Took(a: Step)
      requires Possible(begin, run) && Accounted(Machine()) && Enabled(Machine(), a)
      requires Stored(Machine(), mem.blocks) && (a.Copy? ==> InMemory(a.copied, mem.blocks))
      modifies this`run
      ensures Possible(begin, run) && Machine() == Apply(old(Machine()), a) && Accounted(Machine())
      ensures Stored(Machine(), mem.blocks) && old(run) <= run
    {
      Extend(begin, run, a);
      PoolStep(Machine(), a);
      StoredStep(Machine(), a, mem.blocks);
      run := run + [a];
    }

    /** Where the run leads has all invariants. */
    lemma Reachable()
      requires Coupled()
      ensures Sane(Machine())
    {
      StartSane(config, |begin.producers|);
      Invariant(begin, run);
    }

    // ------------------------------------------------------------------- producer tasks

    /** Validates a frame and allocates its block; the heap never grants past the address space. */
    method AllocateBlock(p: nat, frame: Input, granted: bool) returns (r: Result)
      requires Coupled() && p < |producers| && producers[p].Idle? && ValidInput(frame)
      modifies this`producers, this`run, pool
      ensures Coupled() && old(run) <= run && SameUploader(old(Machine()), Machine()) && Machine().heap == old(Machine()).heap
      ensures r == if !Acceptable(frame, maxSamples) then Invalid
                   else if granted && old(pool.State()).allocatedBytes + frame.samplesSize < TWO_32 then Done else NoMemory
      ensures producers == if r.Done? then old(producers)[p := Owns(Signal(frame))] else old(producers)
    {
      var ok := Validate(frame, maxSamples);
      if !ok {
        return Invalid;
      }
      ok := pool.Alloc(frame.samplesSize, maxSamples, granted && pool.allocatedBytes + frame.samplesSize < TWO_32);
      if ok {
        Took(Allocate(p, frame));
        producers := producers[p := Owns(Signal(frame))];
        return Done;
      }
      Took(AllocationFails(p));
      r := NoMemory;
    }

    /** xQueueSend without waiting. On failure a signal frame's reason is counted. */
    method SendHeld(p: nat) returns (ok: bool)
      requires Coupled() && p < |producers| && producers[p].Owns?
      modifies this`producers, this`queue, this`sent, this`run, pool
      ensures Coupled() && old(run) <= run && SameUploader(old(Machine()), Machine()) && Machine().heap == old(Machine()).heap
      ensures ok <==> |old(queue)| < depth
      ensures var kind := old(producers)[p].kind;
              && producers == old(producers)[p := if ok then Idle else Unsent(kind)]
              && queue == if ok then old(queue) + [Item(kind, old(sent))] else old(queue)
    {
      var kind := producers[p].kind;
      if |queue| < depth {
        Took(Send(p));
        producers, queue, sent := producers[p := Idle], queue + [Item(kind, sent)], sent + 1;
        return true;
      }
      Took(SendFails(p));
      producers := producers[p := Unsent(kind)];
      if kind.Signal? {
        pool.Note(SendFailure);
      }
      ok := false;
    }

    /** Frees the blocks of a telemetry item the run has let go of. */
    method GiveBack(kind: Kind)
      requires Coupled() && InMemory(kind, mem.blocks) && HeapOf(kind) !! Machine().heap
      modifies mem`blocks
      ensures Coupled() && mem.blocks == Freed(old(mem.blocks), kind)
    {
      if kind.Telemetry? {
        Reachable();
        ReleaseSpares(Machine(), mem.blocks, kind);
        var item := Loaded(kind.record, mem);
        QueueItem.OwnedReleasable(kind.record, mem.blocks);
        QueueItem.Release(item);
      }
    }

    /** Frees what an unsent item owns. */
    method FreeHeld(p: nat)
      requires Coupled() && p < |producers| && producers[p].Unsent?
      modifies this`producers, this`run, pool, mem`blocks
      ensures Coupled() && old(run) <= run && SameUploader(old(Machine()), Machine())
      ensures producers == old(producers)[p := Idle] && mem.blocks == Freed(old(mem.blocks), old(producers)[p].kind)
      ensures Outside() == old(Outside())
      ensures Machine().heap == Without(old(Machine()).heap, old(producers)[p].kind)
    {
      var kind := LetGo(p);
      FreeingKeepsOthers(mem.blocks, old(Machine()).heap, kind);
      GiveBack(kind);
    }

    /** The producer drops an unsent item; a frame's block goes back to the pool. */
    method LetGo(p: nat) returns (kind: Kind)
      requires Coupled() && p < |producers| && producers[p].Unsent?
      modifies this`producers, this`run, pool
      ensures Coupled() && old(run) <= run && SameUploader(old(Machine()), Machine())
      ensures kind == old(producers)[p].kind && producers == old(producers)[p := Idle] && InMemory(kind, mem.blocks)
      ensures HeapOf(kind) <= old(Machine()).heap && Machine().heap == Without(old(Machine()).heap, kind)
    {
      kind := producers[p].kind;
      Reachable();
      FreedOnce(Machine(), p);
      Took(FreeUnsent(p));
      producers := producers[p := Idle];
      if kind.Signal? {
        pool.Release(kind.frame.samplesSize);
      }
    }

    /** Copies a record into an item with blocks of its own. A denied table leaves memory as it
        was; a denied blob costs the record its blobs from there on. */
    method CopyRecord(p: nat, stamp: nat, src: T.Telemetry, grantTable: bool, grants: seq<bool>) returns (copy: Option<Kind>)
      requires Coupled() && p < |producers| && producers[p].Idle? && stamp < TWO_64
      requires src.heap == mem && src.Valid() && src.Owns() !! Machine().heap && TelemetryEvent.Sendable(src.Says())
      requires |grants| >= src.count
      modifies this`producers, this`run, mem
      ensures Coupled() && old(run) <= run && SameUploader(old(Machine()), Machine())
      ensures copy.Some? <==> old(CopyGranted(src.View(), mem.blocks, grantTable, grants))
      ensures copy.None? ==> producers == old(producers) && Machine().heap == old(Machine()).heap
      ensures copy.Some? ==>
        && src.Valid() && src.Says() == old(src.Says()) && src.Owns() == old(src.Owns())
        && CopiedAs(copy.value, stamp, src.Says(), old(mem.blocks), mem.blocks)
        && producers == old(producers)[p := Owns(copy.value)] && Machine().heap == old(Machine()).heap + copy.value.owns
        && Outside() == old(Outside())
    {
      var ok, item := CopyBeside(src, grantTable, grants);
      if !ok {
        return None;
      }
      CopyingKeepsOthers(old(mem.blocks), mem.blocks, Machine().heap, item.Owns());
      var kind := HoldCopy(p, stamp, item, old(mem.blocks));
      copy := Some(kind);
    }

    /** The copy itself, whether or not it succeeds, leaves the items alone. */
    method CopyBeside(src: T.Telemetry, grantTable: bool, grants: seq<bool>) returns (ok: bool, item: T.Telemetry)
      requires Coupled() && src.heap == mem && src.Valid() && src.Owns() !! Machine().heap && |grants| >= src.count
      modifies mem
      ensures Coupled() && fresh(item) && ok == old(CopyGranted(src.View(), mem.blocks, grantTable, grants))
      ensures ok ==>
        && src.Valid() && src.Says() == old(src.Says()) && src.Owns() == old(src.Owns())
        && item.heap == mem && item.Valid() && item.Says() == src.Says() && item.Owns() !! old(mem.blocks).Keys
        && mem.blocks.Keys == old(mem.blocks).Keys + item.Owns() && QueueItem.Extends(mem.blocks, old(mem.blocks))
    {
      Reachable();
      ghost var h0 := mem.blocks;
      var copied;
      copied, item := QueueItem.Copy(src, grantTable, grants);
      ok := copied.Ok?;
      if ok {
        NewItemSpares(Machine(), h0, mem.blocks);
      } else {
        DamageSpares(src.View(), h0, mem.blocks, QueueItem.FirstDenied(T.Used(src.View(), h0), grants, 0));
      }
    }

    /** The producer holds the copy as an item. */
    method HoldCopy(p: nat, stamp: nat, item: T.Telemetry, ghost h0: T.Blocks) returns (kind: Kind)
      requires Coupled() && p < |producers| && producers[p].Idle? && stamp < TWO_64
      requires item.heap == mem && item.Valid() && TelemetryEvent.Sendable(item.Says())
      requires Machine().heap <= h0.Keys && item.Owns() !! h0.Keys && QueueItem.Extends(mem.blocks, h0)
      requires mem.blocks.Keys == h0.Keys + item.Owns()
      modifies this`producers, this`run
      ensures Coupled() && old(run) <= run && SameUploader(old(Machine()), Machine())
      ensures CopiedAs(kind, stamp, item.Says(), h0, mem.blocks) && producers == old(producers)[p := Owns(kind)]
      ensures Machine().heap == old(Machine()).heap + kind.owns
    {
      var record := item.View();
      kind := Telemetry(stamp, record, T.Footprint(record, mem.blocks), T.Contents(record, mem.blocks));
      Took(Copy(p, kind));
      producers := producers[p := Owns(kind)];
    }

    /** A failed copy took only blocks of its source. */
    lemma DamageSpares(src: T.Record, h0: T.Blocks, h: T.Blocks, denied: nat)
      requires Possible(begin, run) && Held(Machine()) && Stored(Machine(), h0)
      requires T.Owned(src, h0) && T.Footprint(src, h0) !! Machine().heap && denied <= src.count
      requires h == h0 || h == h0 - T.BlobSet(T.Used(src, h0)[denied..])
      ensures Stored(Machine(), h)
    {
      var ms := T.Used(src, h0);
      assert ms == ms[..denied] + ms[denied..];
      QueueItem.BlobSetConcat(ms[..denied], ms[denied..]);
      Survives(Machine(), h0, h);
    }

    /** Sends what a task holds, or frees it. */
    method SendOrFree(p: nat) returns (r: Result)
      requires Coupled() && p < |producers| && producers[p].Owns?
      modifies this, pool, mem`blocks
      ensures Coupled() && old(run) <= run && SameUploader(old(Machine()), Machine())
      ensures producers == old(producers)[p := Idle] && Outside() == old(Outside())
      ensures r == if |old(queue)| < depth then Done else TimedOut
      ensures queue == if r.Done? then old(queue) + [Item(old(producers)[p].kind, old(sent))] else old(queue)
      ensures mem.blocks == if r.Done? then old(mem.blocks) else Freed(old(mem.blocks), old(producers)[p].kind)
      ensures Machine().heap == if r.Done? then old(Machine()).heap else Without(old(Machine()).heap, old(producers)[p].kind)
    {
      var ok := SendHeld(p);
      if !ok {
        FreeHeld(p);
      }
      r := if ok then Done else TimedOut;
    }

    /** aetus_enqueue_telemetry. Queued: the item says what the record says, in blocks of its own.
        Timed out: memory is as before. Out of memory: the queue is. */
    method EnqueueTelemetry(p: nat, stamp: nat, src: T.Telemetry, grantTable: bool, grants: seq<bool>)
      returns (r: Result, copy: Option<Kind>)
      requires Coupled() && p < |producers| && producers[p].Idle? && stamp < TWO_64
      requires src.heap == mem && src.Valid() && src.Owns() !! Machine().heap && TelemetryEvent.Sendable(src.Says())
      requires |grants| >= src.count
      modifies this, pool, mem
      ensures Coupled() && old(run) <= run && SameUploader(old(Machine()), Machine()) && producers == old(producers)
      ensures r == if !old(CopyGranted(src.View(), mem.blocks, grantTable, grants)) then NoMemory
                   else if |old(queue)| < depth then Done else TimedOut
      ensures !r.NoMemory? ==> src.Valid() && src.Says() == old(src.Says()) && src.Owns() == old(src.Owns()) && src.Owns() !! Machine().heap
      ensures r.Done? ==>
        && copy.Some? && CopiedAs(copy.value, stamp, src.Says(), old(mem.blocks), mem.blocks)
        && queue == old(queue) + [Item(copy.value, old(sent))] && Machine().heap == old(Machine()).heap + copy.value.owns
      ensures r.TimedOut? ==> mem.blocks == old(mem.blocks)
      ensures !r.Done? ==> queue == old(queue) && Machine().heap == old(Machine()).heap
      ensures !r.NoMemory? ==> Outside() == old(Outside())
    {
      T.FootprintLive(src.View(), mem.blocks);
      copy := CopyRecord(p, stamp, src, grantTable, grants);
      if copy.None? {
        return NoMemory, None;
      }
      IdleAgain(old(producers), p, Owns(copy.value));
      r := SendCopy(p, stamp, src.Says(), copy.value, old(mem.blocks), old(Machine()).heap);
    }

    /** Queues a copied record, or frees it: then memory is as before the copy. */
    method SendCopy(p: nat, stamp: nat, ghost says: seq<T.Entry>, kind: Kind, ghost before: T.Blocks, ghost heap: set<Addr>)
      returns (r: Result)
      requires Coupled() && p < |producers| && producers[p] == Owns(kind)
      requires CopiedAs(kind, stamp, says, before, mem.blocks) && heap <= before.Keys && Machine().heap == heap + kind.owns
      modifies this, pool, mem`blocks
      ensures Coupled() && old(run) <= run && SameUploader(old(Machine()), Machine())
      ensures producers == old(producers)[p := Idle] && Outside() == old(Outside())
      ensures r == if |old(queue)| < depth then Done else TimedOut
      ensures queue == if r.Done? then old(queue) + [Item(kind, old(sent))] else old(queue)
      ensures mem.blocks == if r.Done? then old(mem.blocks) else before
      ensures Machine().heap == if r.Done? then heap + kind.owns else heap
    {
      GivenBack(kind, stamp, says, before, mem.blocks, heap);
      r := SendOrFree(p);
    }

    /** aetus_enqueue_status, and its twin for interrupts. */
    method EnqueueStatus(stamp: nat, report: IngestEvent.Status) returns (ok: bool)
      requires Coupled() && stamp < TWO_64 && ValidReport(report)
      modifies this`queue, this`sent, this`run
      ensures Coupled() && old(run) <= run && SameUploader(old(Machine()), Machine())
      ensures ok <==> |old(queue)| < depth
      ensures queue == if ok then old(queue) + [Item(Status(stamp, report), old(sent))] else old(queue)
      ensures Machine().heap == old(Machine()).heap
    {
      if |queue| >= depth {
        return false;
      }
      Took(SendStatus(Status(stamp, report)));
      queue, sent := queue + [Item(Status(stamp, report), sent)], sent + 1;
      ok := true;
    }

    /** aetus_enqueue_signal_frame in one go: queued, or everything given back. */
    method EnqueueSignalFrame(p: nat, frame: Input, granted: bool) returns (r: Result)
      requires Coupled() && p < |producers| && producers[p].Idle? && ValidInput(frame)
      modifies this, pool, mem`blocks
      ensures Coupled() && old(run) <= run && SameUploader(old(Machine()), Machine()) && producers == old(producers)
      ensures r == if !Acceptable(frame, maxSamples) then Invalid
                   else if !granted || old(pool.State()).allocatedBytes + frame.samplesSize >= TWO_32 then NoMemory
                   else if |old(queue)| < depth then Done else TimedOut
      ensures queue == if r.Done? then old(queue) + [Item(Signal(frame), old(sent))] else old(queue)
      ensures mem.blocks == old(mem.blocks) && Machine().heap == old(Machine()).heap
    {
      r := AllocateBlock(p, frame, granted);
      if !r.Done? {
        return;
      }
      IdleAgain(old(producers), p, Owns(Signal(frame)));
      r := SendPlain(p, Signal(frame));
    }

    /** Queues an item without telemetry blocks, or gives up on it. */
    method SendPlain(p: nat, kind: Kind) returns (r: Result)
      requires Coupled() && p < |producers| && producers[p] == Owns(kind) && HeapOf(kind) == {}
      modifies this, pool, mem`blocks
      ensures Coupled() && old(run) <= run && SameUploader(old(Machine()), Machine())
      ensures producers == old(producers)[p := Idle] && mem.blocks == old(mem.blocks) && Machine().heap == old(Machine()).heap
      ensures r == if |old(queue)| < depth then Done else TimedOut
      ensures queue == if r.Done? then old(queue) + [Item(kind, old(sent))] else old(queue)
    {
      NothingFreed(mem.blocks, Machine().heap, kind);
      r := SendOrFree(p);
    }

    /** aetus_enqueue_telemetry_from_isr, for a record without a table: the struct is queued as it
        is, and there is nothing to free if the queue is full. With a table the item would share
        it: see QueueItem.InterruptCopyApartIff. */
    method EnqueueInInterrupt(p: nat, stamp: nat, src: T.Telemetry) returns (r: Result)
      requires Coupled() && p < |producers| && producers[p].Idle? && stamp < TWO_64
      requires src.heap == mem && src.Valid() && src.table.None? && TelemetryEvent.Sendable(src.Says())
      modifies this, pool, mem`blocks
      ensures Coupled() && old(run) <= run && SameUploader(old(Machine()), Machine()) && producers == old(producers)
      ensures r == if !QueueItem.InterruptAccepts(src.View()) then Invalid else if |old(queue)| < depth then Done else TimedOut
      ensures mem.blocks == old(mem.blocks) && Machine().heap == old(Machine()).heap
      ensures queue == if r.Done? then old(queue) + [Item(Telemetry(stamp, src.View(), {}, old(src.Says())), old(sent))] else old(queue)
    {
      var item := QueueItem.CopyInInterrupt(src);
      if item.None? {
        return Invalid;
      }
      var kind := HoldStruct(p, stamp, src);
      IdleAgain(old(producers), p, Owns(kind));
      r := SendPlain(p, kind);
    }

    /** The struct of an accepted record without a table is an item that owns nothing. */
    method HoldStruct(p: nat, stamp: nat, src: T.Telemetry) returns (kind: Kind)
      requires Coupled() && p < |producers| && producers[p].Idle? && stamp < TWO_64
      requires src.heap == mem && src.Valid() && src.table.None? && TelemetryEvent.Sendable(src.Says())
      requires QueueItem.InterruptAccepts(src.View())
      modifies this`producers, this`run
      ensures Coupled() && old(run) <= run && SameUploader(old(Machine()), Machine())
      ensures kind == Telemetry(stamp, src.View(), {}, src.Says())
      ensures producers == old(producers)[p := Owns(kind)] && Machine().heap == old(Machine()).heap
    {
      QueueItem.InterruptOwnsTable(src.View(), mem.blocks);
      kind := Telemetry(stamp, src.View(), {}, T.Contents(src.View(), mem.blocks));
      Took(Copy(p, kind));
      producers := producers[p := Owns(kind)];
    }

    // ----------------------------------------------------------------------- other tasks

    /** Fills a record of its own, copies it into an item and frees it. After a denied copy the
        record is left alone: some of its blobs are gone. */
    method FillAndCopy(p: nat, stamp: nat, calls: seq<T.Call>, grantTable: bool, grants: seq<bool>)
      requires Coupled() && p < |producers| && producers[p].Idle? && ValidMove(CopyMove(p, stamp, calls, grantTable, grants))
      modifies this, mem
      ensures Coupled() && old(run) <= run && SameUploader(old(Machine()), Machine())
      ensures Granted(CopyMove(p, stamp, calls, grantTable, grants)) ==> Outside() == old(Outside())
    {
      var src := Fill(calls);
      AddAndTake(old(Outside()), src.Owns());
      if Granted(CopyMove(p, stamp, calls, grantTable, grants)) { GrantedCopies(src.View(), mem.blocks, grantTable, grants); }
      CopyAndClear(p, stamp, src, grantTable, grants);
    }

    /** Copies a record into an item, then frees it, unless the copy was denied. */
    method CopyAndClear(p: nat, stamp: nat, src: T.Telemetry, grantTable: bool, grants: seq<bool>)
      requires Coupled() && p < |producers| && producers[p].Idle? && stamp < TWO_64
      requires src.heap == mem && src.Valid() && src.Owns() !! Machine().heap && TelemetryEvent.Sendable(src.Says())
      requires |grants| >= src.count
      modifies this`producers, this`run, src, mem
      ensures Coupled() && old(run) <= run && SameUploader(old(Machine()), Machine())
      ensures old(CopyGranted(src.View(), mem.blocks, grantTable, grants)) ==> Outside() == old(Outside() - src.Owns())
    {
      T.FootprintLive(src.View(), mem.blocks);
      var copy := CopyRecord(p, stamp, src, grantTable, grants);
      if copy.Some? {
        Clear(src);
      }
    }

    /** A filled record of the application leaves the items alone. */
    method Fill(calls: seq<T.Call>) returns (src: T.Telemetry)
      requires Coupled() && TelemetryEvent.Handed(calls) < 0x8000_0000
      requires forall i :: 0 <= i < |calls| ==> TelemetryEvent.Typed(calls[i].reading)
      modifies mem
      ensures Coupled() && fresh(src) && src.heap == mem && src.Valid() && src.Owns() !! old(mem.blocks).Keys
      ensures TelemetryEvent.Sendable(src.Says()) && src.Owns() !! Machine().heap
      ensures Outside() == old(Outside()) + src.Owns() && src.Owns() !! old(Outside())
    {
      Reachable();
      src := Filled(mem, calls);
      FillingAddsOthers(old(mem.blocks), mem.blocks, Machine().heap, src.Owns());
      Survives(Machine(), old(mem.blocks), mem.blocks);
    }

    /** telemetry_deinit of a record of the application. */
    method Clear(src: T.Telemetry)
      requires Coupled() && src.heap == mem && src.Valid() && src.Owns() !! Machine().heap
      modifies src, mem`blocks
      ensures Coupled() && Outside() == old(Outside()) - old(src.Owns())
    {
      Reachable();
      ghost var b, owns := mem.blocks, src.Owns();
      ClearingTakesOthers(b, Machine().heap, owns);
      QueueItem.Deinit(src);
      Survives(Machine(), b, mem.blocks);
    }

    /** One step of another task, if it can take it now. */
    method Act(m: Move)
      requires Coupled() && ValidMove(m)
      modifies this, pool, mem
      ensures Coupled() && old(run) <= run && SameUploader(old(Machine()), Machine())
      ensures Granted(m) ==> Outside() == old(Outside())
    {
      if m.StatusMove? {
        var _ := EnqueueStatus(m.stamp, m.report);
      } else if m.p < |producers| {
        ActAs(m);
      }
    }

    method ActAs(m: Move)
      requires Coupled() && ValidMove(m) && !m.StatusMove? && m.p < |producers|
      modifies this, pool, mem
      ensures Coupled() && old(run) <= run && SameUploader(old(Machine()), Machine())
      ensures Granted(m) ==> Outside() == old(Outside())
    {
      var task := producers[m.p];
      if m.FrameMove? && task.Idle? {
        var _ := AllocateBlock(m.p, m.frame, m.granted);
      } else if m.CopyMove? && task.Idle? {
        FillAndCopy(m.p, m.stamp, m.calls, m.grantTable, m.grants);
      } else if m.SendMove? && task.Owns? {
        var _ := SendHeld(m.p);
      } else if m.FreeMove? && task.Unsent? {
        FreeHeld(m.p);
      }
    }

    /** What other tasks do for a while. */
    method Arrive(moves: seq<Move>)
      requires Coupled() && ValidMoves(moves)
      modifies this, pool, mem
      ensures Coupled() && old(run) <= run && SameUploader(old(Machine()), Machine())
      ensures AllGranted(moves) ==> Outside() == old(Outside())
      ensures moves == [] ==> queue == old(queue)
    {
      for i := 0 to |moves|
        invariant Coupled() && old(run) <= run && SameUploader(old(Machine()), Machine())
        invariant AllGranted(moves) ==> Outside() == old(Outside())
        invariant moves == [] ==> queue == old(queue)
      {
        Act(moves[i]);
      }
    }

    // ------------------------------------------------------------------ the uploader task

    /** The item in hand was vetted when it was queued, and its blocks are live. */
    lemma InHand(item: Item)
      requires Coupled() && Machine().hand == Received(item)
      ensures InRange(item.kind) && Accepted(item.kind, maxSamples) && InMemory(item.kind, mem.blocks)
      ensures HeapOf(item.kind) <= Machine().heap
    {
      Reachable();
      FreedOnce(Machine(), 0);
      assert Vetted(item.kind, maxSamples);
    }

    /** An item the uploader is done with: its telemetry blocks are still to be freed, and a signal
        frame is still to be counted and freed. */
    ghost predicate DoneWith(kind: Kind, reason: Reason)
      reads this, pool, mem
    {
      && Coupled() && InMemory(kind, mem.blocks) && HeapOf(kind) !! Machine().heap
      && Machine().hand == (if kind.Signal? then Counting(kind, reason) else Nothing)
      && Machine().draining == (kind.Signal? || reason != FinalDrop)
    }

    /** Counts the reason of a signal frame, then release_queue_item. */
    method Dispose(kind: Kind, reason: Reason)
      requires DoneWith(kind, reason)
      modifies this`run, pool, mem`blocks
      ensures Coupled() && old(run) <= run && Machine().hand.Nothing? && Machine().draining == (reason != FinalDrop)
      ensures Machine().posts == old(Machine()).posts && Machine().heap == old(Machine()).heap
      ensures mem.blocks == Freed(old(mem.blocks), kind)
    {
      if kind.Signal? {
        CountAndFree(kind, reason);
      } else {
        GiveBack(kind);
      }
    }

    method CountAndFree(kind: Kind, reason: Reason)
      requires DoneWith(kind, reason) && kind.Signal?
      modifies this`run, pool
      ensures Coupled() && old(run) <= run && Machine().hand.Nothing? && Machine().draining == (reason != FinalDrop)
      ensures Machine().posts == old(Machine()).posts && Machine().heap == old(Machine()).heap
    {
      Took(Count);
      pool.Note(reason);
      Took(Free);
      pool.Release(kind.frame.samplesSize);
    }

    /** A post that succeeded: the next number. */
    method Number(item: Item, payload: seq<Byte>)
      requires Coupled() && Machine().hand == Received(item) && Machine().draining
      requires config.carries(sequence, item.kind, payload)
      modifies this`sequence, this`run
      ensures DoneWith(item.kind, UploadSuccess) && old(run) <= run && sequence == NextSequence(old(sequence))
      ensures Machine().posts == old(Machine()).posts + [Post(old(sequence), item, payload)]
      ensures Machine().heap == Without(old(Machine()).heap, item.kind)
    {
      Took(PostOk(payload));
      sequence := NextSequence(sequence);
    }

    /** A successful post. */
    method Accept(item: Item, payload: seq<Byte>)
      requires Coupled() && Machine().hand == Received(item) && Machine().draining
      requires config.carries(sequence, item.kind, payload)
      modifies this`sequence, this`run, pool, mem`blocks
      ensures Coupled() && old(run) <= run && Machine().hand.Nothing? && Machine().draining && Outside() == old(Outside())
      ensures Machine().posts == old(Machine()).posts + [Post(old(sequence), item, payload)]
      ensures sequence == NextSequence(old(sequence))
    {
      InHand(item);
      FreeingKeepsOthers(mem.blocks, Machine().heap, item.kind);
      Number(item, payload);
      Dispose(item.kind, UploadSuccess);
    }

    method GiveUp(item: Item)
      requires Coupled() && Machine().hand == Received(item) && Machine().draining && config.refuses(item.kind)
      modifies this`run
      ensures DoneWith(item.kind, ValidationFailure) && old(run) <= run
      ensures Machine().posts == old(Machine()).posts && Machine().heap == Without(old(Machine()).heap, item.kind)
    {
      Took(EncodeFails);
    }

    /** An item that cannot be encoded is dropped. */
    method Refuse(item: Item)
      requires Coupled() && Machine().hand == Received(item) && Machine().draining && config.refuses(item.kind)
      modifies this`run, pool, mem`blocks
      ensures Coupled() && old(run) <= run && Machine().hand.Nothing? && Machine().draining && Outside() == old(Outside())
      ensures Machine().posts == old(Machine()).posts
    {
      InHand(item);
      FreeingKeepsOthers(mem.blocks, Machine().heap, item.kind);
      GiveUp(item);
      Dispose(item.kind, ValidationFailure);
    }

    method Drop(item: Item)
      requires Coupled() && Machine().hand == Received(item) && Machine().draining && |queue| >= depth
      modifies this`run
      ensures DoneWith(item.kind, FinalDrop) && old(run) <= run
      ensures Machine().posts == old(Machine()).posts && Machine().heap == Without(old(Machine()).heap, item.kind)
    {
      Took(PostFails);
    }

    /** A failed item goes back in front, or is dropped when the queue has filled up meanwhile. */
    method Requeue(item: Item)
      requires Coupled() && Machine().hand == Received(item) && Machine().draining
      modifies this`queue, this`run, pool, mem`blocks
      ensures Coupled() && old(run) <= run && Machine().hand.Nothing? && !Machine().draining && Outside() == old(Outside())
      ensures Machine().posts == old(Machine()).posts
      ensures queue == if |old(queue)| < depth then [item] + old(queue) else old(queue)
    {
      if |queue| < depth {
        Took(PostFails);
        queue := [item] + queue;
      } else {
        InHand(item);
        FreeingKeepsOthers(mem.blocks, Machine().heap, item.kind);
        Drop(item);
        Dispose(item.kind, FinalDrop);
      }
    }

    /** The payload for the item in hand, and what it allows the run to do. */
    method Encode(item: Item, header: IngestEvent.Header) returns (payload: Option<seq<Byte>>)
      requires Coupled() && Built() && IngestEvent.ValidHeader(header) && Machine().hand == Received(item)
      ensures (item.kind.Signal? ==> ValidInput(item.kind.frame)) && payload == Payload(header, sequence, item.kind, maxSamples, capacity)
      ensures if payload.Some? then config.carries(sequence, item.kind, payload.value) else config.refuses(item.kind)
      ensures payload.Some? ==> Reads(payload.value, header, sequence, item.kind)
    {
      InHand(item);
      payload := EncodeItem(item.kind, header, sequence, mem, maxSamples, capacity);
    }

    /** One pass of the drain loop's body after an item was received; false ends the loop. The item
        is posted under the next number, dropped if it cannot be encoded, or put back in front. */
    method Upload(item: Item, round: Round) returns (more: bool, payload: Option<seq<Byte>>)
      requires Coupled() && Built() && ValidRound(round) && Machine().hand == Received(item) && Machine().draining
      modifies this, pool, mem`blocks
      ensures Coupled() && old(run) <= run && Machine().hand.Nothing? && Machine().draining == more && Outside() == old(Outside())
      ensures (item.kind.Signal? ==> ValidInput(item.kind.frame))
           && payload == Payload(round.header, old(sequence), item.kind, maxSamples, capacity)
      ensures payload.Some? ==> Reads(payload.value, round.header, old(sequence), item.kind)
      ensures more <==> payload.None? || round.accepted
      ensures Machine().posts == if payload.Some? && round.accepted
                then old(Machine()).posts + [Post(old(sequence), item, payload.value)] else old(Machine()).posts
      ensures queue == if !more && |old(queue)| < depth then [item] + old(queue) else old(queue)
    {
      payload := Encode(item, round.header);
      more := Settle(item, payload, round.accepted);
    }

    /** After the encode step: dropped, posted, or put back in front. */
    method Settle(item: Item, payload: Option<seq<Byte>>, accepted: bool) returns (more: bool)
      requires Coupled() && Machine().hand == Received(item) && Machine().draining
      requires if payload.Some? then config.carries(sequence, item.kind, payload.value) else config.refuses(item.kind)
      modifies this, pool, mem`blocks
      ensures Coupled() && old(run) <= run && Machine().hand.Nothing? && Machine().draining == more && Outside() == old(Outside())
      ensures more <==> payload.None? || accepted
      ensures Machine().posts == if payload.Some? && accepted
                then old(Machine()).posts + [Post(old(sequence), item, payload.value)] else old(Machine()).posts
      ensures queue == if !more && |old(queue)| < depth then [item] + old(queue) else old(queue)
    {
      more := true;
      if payload.None? {
        Refuse(item);
      } else if accepted {
        Accept(item, payload.value);
      } else {
        Requeue(item);
        more := false;
      }
    }

    /** Takes the first item off the queue. */
    method TakeFirst() returns (item: Item)
      requires Coupled() && Machine().hand.Nothing? && Machine().draining && |queue| > 0
      modifies this`queue, this`run
      ensures Coupled() && old(run) <= run && item == old(queue)[0] && queue == old(queue)[1..] && Outside() == old(Outside())
      ensures Machine().hand == Received(item) && Machine().draining && Machine().posts == old(Machine()).posts
    {
      item := queue[0];
      Took(Receive);
      queue := queue[1..];
    }

    /** One round of the loop: receive, let others act, upload. */
    method DrainRound(round: Round) returns (more: bool, uploaded: bool)
      requires Coupled() && Built() && ValidRound(round) && Machine().hand.Nothing? && Machine().draining && |queue| > 0
      modifies this, pool, mem
      ensures Coupled() && old(run) <= run && Machine().hand.Nothing? && Machine().draining == more
      ensures AllGranted(round.moves) ==> Outside() == old(Outside())
      ensures old(Machine()).posts <= Machine().posts
      ensures |Machine().posts| == |old(Machine()).posts| + if uploaded then 1 else 0
      ensures round.accepted ==> more
      ensures round.moves == [] && more ==> queue == old(queue)[1..]
    {
      var item := TakeFirst();
      Arrive(round.moves);
      var payload;
      more, payload := Upload(item, round);
      uploaded := payload.Some? && round.accepted;
    }

    /** drain_queue: receives and uploads until the queue is empty, a post fails, or the given
        rounds are used up. */
    method DrainQueue(rounds: seq<Round>) returns (uploaded: nat)
      requires Coupled() && Built() && Machine().hand.Nothing? && ValidRounds(rounds)
      modifies this, pool, mem
      ensures Coupled() && old(run) <= run && Machine().hand.Nothing?
      ensures queue == [] ==> !Machine().draining
      ensures |Machine().posts| == |old(Machine()).posts| + uploaded && uploaded <= |rounds|
      ensures old(Machine()).posts <= Machine().posts
      ensures (forall i :: 0 <= i < |rounds| ==> AllGranted(rounds[i].moves)) ==> Outside() == old(Outside())
      ensures |old(queue)| <= |rounds| && (forall i :: 0 <= i < |rounds| ==> rounds[i].moves == [] && rounds[i].accepted) ==> queue == []
    {
      StartDraining();
      uploaded := 0;
      var more, k := true, 0;
      while more && |queue| > 0 && k < |rounds|
        invariant Coupled() && old(run) <= run && Machine().hand.Nothing? && Machine().draining == more
        invariant 0 <= k <= |rounds| && uploaded <= k
        invariant |Machine().posts| == |old(Machine()).posts| + uploaded
        invariant old(Machine()).posts <= Machine().posts
        invariant (forall i :: 0 <= i < |rounds| ==> AllGranted(rounds[i].moves)) ==> Outside() == old(Outside())
        invariant (forall i :: 0 <= i < |rounds| ==> rounds[i].moves == [] && rounds[i].accepted) ==>
                    more && |queue| + k == |old(queue)|
        decreases |rounds| - k
      {
        var ok;
        more, ok := DrainRound(rounds[k]);
        if ok {
          uploaded := uploaded + 1;
        }
        k := k + 1;
      }
      if more && |queue| == 0 {
        StopDraining();
      }
    }

    method StartDraining()
      requires Coupled() && Machine().hand.Nothing?
      modifies this`run
      ensures Coupled() && old(run) <= run && Machine().hand.Nothing? && Machine().draining
      ensures Machine().posts == old(Machine()).posts && Outside() == old(Outside())
    {
      if !Machine().draining {
        Took(Wake);
      }
    }

    method StopDraining()
      requires Coupled() && Machine().hand.Nothing? && Machine().draining && queue == []
      modifies this`run
      ensures Coupled() && old(run) <= run && Machine().hand.Nothing? && !Machine().draining
      ensures Machine().posts == old(Machine()).posts && Outside() == old(Outside())
    {
      Took(Sleep);
    }

    // ----------------------------------------------------------------------- all the laws

    /** Posts are in the order of their items, under 0, 1, 2, ..., each payload read back by the server as
        its item; every item is accounted for, and none but telemetry was refused. */
    ghost predicate PostsLawful()
      reads this, pool, mem
      requires Coupled()
    {
      var s := Machine();
      && (forall k :: 0 <= k < |s.posts| ==> PostedAs(s.posts[k], k, s.log))
      && (forall j, k :: 0 <= j < k < |s.posts| ==> s.posts[j].item.position < s.posts[k].item.position)
      && |s.log| == |s.posts| + |HandPositions(s.hand)| + |queue| + Losses(begin, run)
      && Refusals(begin, run) == 0 && pool.validationFailures == 0
    }

    /** The pool's blocks and bytes and the heap's blocks are exactly those of the items; counters and
        peaks are those of the run. */
    ghost predicate CountsLawful()
      reads this, pool, mem
      requires Coupled()
    {
      var s := Machine();
      && Conserved(s) && Held(s) && (Empty(s) ==> s.heap == {})
      && (forall c :: CountedWell(s, begin, run, c))
      && pool.peakBlocks == Highest(begin, run, Blocks) && pool.peakBytes == Highest(begin, run, Bytes)
    }

    lemma PostLaws()
      requires Coupled() && Built() && capacity >= maxSamples + EventEncoding.ENCODE_OVERHEAD
      ensures PostsLawful()
    {
      var tasks, s := |begin.producers|, Machine();
      PostsInOrder(config, tasks, run);
      forall k | 0 <= k < |s.posts| ensures PostedAs(s.posts[k], k, s.log) {
        PostsReadBack(depth, maxSamples, capacity, tasks, run, k);
      }
      ItemsConserved(config, tasks, run);
      DrainNeverRefuses(depth, maxSamples, capacity, tasks, run);
    }

    lemma CountLaws()
      requires Coupled()
      ensures CountsLawful()
    {
      var tasks, s := |begin.producers|, Machine();
      PoolConserved(config, tasks, run);
      TelemetryConserved(config, tasks, run, 0);
      forall c ensures CountedWell(s, begin, run, c) { CountersCount(config, tasks, run, c); }
      PeaksAreHighest(config, tasks, run);
    }
  }

  /** A counter shows its occasions in the run, but for a frame still to be counted, modulo 2^32. */
  ghost predicate CountedWell(s: State, begin: State, run: seq<Step>, c: Counter)
    requires Possible(begin, run)
  {
    Waiting(s, c) <= Occasions(begin, run, c) && ShownBy(s.stats, c) == (Occasions(begin, run, c) - Waiting(s, c)) % TWO_32
  }

  /** The k-th successful post is an item that was sent to the queue, under number k, and its bytes
      say so to the server. */
  ghost predicate PostedAs(p: Post, k: nat, log: seq<Kind>) {
    p.sequence == k % TWO_64 && Logged(p.item, log)
    && exists h :: IngestEvent.ValidHeader(h) && Reads(p.payload, h, k % TWO_64, p.item.kind)
  }

  /** The uploader task from start-up through any cycles in which other tasks act and the queue is
      drained: all laws hold, and if no copy was denied an allocation, the live blocks are exactly
      those of the items queued or held. */
  method UploaderTask(depth: nat, maxSamples: nat, capacity: nat, tasks: nat, cycles: seq<Cycle>) returns (ctx: Context)
    requires maxSamples <= SAMPLES_ABSOLUTE_MAX && capacity >= maxSamples + EventEncoding.ENCODE_OVERHEAD
    requires forall i :: 0 <= i < |cycles| ==> ValidMoves(cycles[i].moves) && ValidRounds(cycles[i].rounds)
    ensures fresh(ctx) && ctx.Coupled() && ctx.Built() && ctx.PostsLawful() && ctx.CountsLawful()
    ensures ctx.begin == Start(Firmware(depth, maxSamples, capacity), tasks)
    ensures (forall i :: 0 <= i < |cycles| ==> GrantedCycle(cycles[i])) ==> ctx.Outside() == {}
  {
    var mem := new T.Heap();
    ctx := new Context(depth, maxSamples, capacity, tasks, mem);
    for i := 0 to |cycles|
      invariant fresh(ctx) && fresh(ctx.pool) && fresh(ctx.mem) && ctx.Coupled() && ctx.Built() && ctx.Machine().hand.Nothing?
      invariant ctx.begin == Start(Firmware(depth, maxSamples, capacity), tasks) && ctx.maxSamples == maxSamples && ctx.capacity == capacity
      invariant (forall i :: 0 <= i < |cycles| ==> GrantedCycle(cycles[i])) ==> ctx.Outside() == {}
    {
      ctx.Arrive(cycles[i].moves);
      var _ := ctx.DrainQueue(cycles[i].rounds);
    }
    ctx.PostLaws();
    ctx.CountLaws();
  }

  predicate GrantedCycle(c: Cycle) {
    AllGranted(c.moves) && forall i :: 0 <= i < |c.rounds| ==> AllGranted(c.rounds[i].moves)
  }
}
