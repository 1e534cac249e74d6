/**
 Statistics of the pool that holds queued signal samples. All counters are 32 bits wide
 and wrap around; releasing saturates at zero instead of wrapping.
 */
module SamplePool {
  import opened Varint

  /** Why a block was given back. */
  datatype Reason = SendFailure | ValidationFailure | UploadSuccess | FinalDrop

  datatype Stats = Stats(
    allocatedBlocks: nat, peakBlocks: nat, allocationCount: nat, releaseCount: nat, failureCount: nat,
    sendFailures: nat, validationFailures: nat, uploadSuccesses: nat, finalDrops: nat,
    allocatedBytes: nat, peakBytes: nat)

  const ZERO: Stats := Stats(0, 0, 0, 0, 0, 0, 0, 0, 0, 0, 0)

  function Inc(n: nat): nat { (n + 1) % TWO_32 }

  /** A wrapped counter counts modulo 2^32. */
  lemma IncWraps(total: nat)
    ensures Inc(total % TWO_32) == (total + 1) % TWO_32
  {
  }

  lemma WrappedDifference(a: nat, b: nat, d: nat)
    requires a == b + d && d < TWO_32
    ensures (a % TWO_32 - b % TWO_32) % TWO_32 == d
  {
    var qa, qb := a / TWO_32, b / TWO_32;
    assert a % TWO_32 - b % TWO_32 == d + (qb - qa) * TWO_32;
  }

  lemma WrappedSum(a: nat, b: nat, c: nat, d: nat)
    ensures (a % TWO_32 + b % TWO_32 + c % TWO_32 + d % TWO_32) % TWO_32 == (a + b + c + d) % TWO_32
  {
    WrappedPair(a, b);
    WrappedPair(c, d);
    WrappedPair(a + b, c + d);
    WrappedPair(a % TWO_32 + b % TWO_32, c % TWO_32 + d % TWO_32);
  }

  lemma WrappedPair(a: nat, b: nat)
    ensures (a % TWO_32 + b % TWO_32) % TWO_32 == (a + b) % TWO_32
  {
  }

  function Max(a: int, b: int): (m: int)
    ensures m >= a && m >= b && (m == a || m == b)
  {
    if a > b then a else b
  }

  function NoteAlloc(s: Stats, size: nat): Stats {
    var blocks, bytes := Inc(s.allocatedBlocks), (s.allocatedBytes + size) % TWO_32;
    s.(allocatedBlocks := blocks, allocationCount := Inc(s.allocationCount), allocatedBytes := bytes,
       peakBlocks := Max(s.peakBlocks, blocks), peakBytes := Max(s.peakBytes, bytes))
  }

  function NoteRelease(s: Stats, size: nat): Stats {
    s.(allocatedBlocks := if s.allocatedBlocks > 0 then s.allocatedBlocks - 1 else s.allocatedBlocks,
       allocatedBytes := if s.allocatedBytes >= size then s.allocatedBytes - size else 0,
       releaseCount := Inc(s.releaseCount))
  }

  /** Blocks and bytes go down, but never below zero; only they and the number of releases change. */
  lemma ReleaseIs(s: Stats, size: nat)
    ensures var t := NoteRelease(s, size);
            && t.allocatedBlocks == Max(0, s.allocatedBlocks - 1) && t.allocatedBytes == Max(0, s.allocatedBytes - size)
            && t.releaseCount == (s.releaseCount + 1) % 0x1_0000_0000
            && t == s.(allocatedBlocks := t.allocatedBlocks, allocatedBytes := t.allocatedBytes, releaseCount := t.releaseCount)
  {}

  /** One more block of that size in 32-bit counters; the peaks follow the new values. */
  lemma AllocIs(s: Stats, size: nat)
    ensures var t := NoteAlloc(s, size);
            && t.allocatedBlocks == (s.allocatedBlocks + 1) % 0x1_0000_0000
            && t.allocatedBytes == (s.allocatedBytes + size) % 0x1_0000_0000
            && t.allocationCount == (s.allocationCount + 1) % 0x1_0000_0000
            && t.peakBlocks == Max(s.peakBlocks, t.allocatedBlocks) && t.peakBytes == Max(s.peakBytes, t.allocatedBytes)
            && t.failureCount == s.failureCount && t.releaseCount == s.releaseCount
  {}

  function NoteFailure(s: Stats): Stats { s.(failureCount := Inc(s.failureCount)) }

  function NoteReason(s: Stats, r: Reason): Stats {
    match r
    case SendFailure => s.(sendFailures := Inc(s.sendFailures))
    case ValidationFailure => s.(validationFailures := Inc(s.validationFailures))
    case UploadSuccess => s.(uploadSuccesses := Inc(s.uploadSuccesses))
    case FinalDrop => s.(finalDrops := Inc(s.finalDrops))
  }

  /** The statistics as the firmware keeps them: fields updated under a lock. */
  class Pool {
    var allocatedBlocks: nat
    var peakBlocks: nat
    var allocationCount: nat
    var releaseCount: nat
    var failureCount: nat
    var sendFailures: nat
    var validationFailures: nat
    var uploadSuccesses: nat
    var finalDrops: nat
    var allocatedBytes: nat
    var peakBytes: nat

    function State(): Stats
      reads this
    {
      Stats(allocatedBlocks, peakBlocks, allocationCount, releaseCount, failureCount, sendFailures,
            validationFailures, uploadSuccesses, finalDrops, allocatedBytes, peakBytes)
    }

    constructor ()
      ensures State() == ZERO
    {
      allocatedBlocks, peakBlocks, allocationCount, releaseCount, failureCount := 0, 0, 0, 0, 0;
      sendFailures, validationFailures, uploadSuccesses, finalDrops := 0, 0, 0, 0;
      allocatedBytes, peakBytes := 0, 0;
    }

    /** Rejects empty and oversized requests; `granted` is what malloc answered. */
    method Alloc(size: nat, maxSize: nat, granted: bool) returns (ok: bool)
      modifies this
      ensures ok <==> 0 < size <= maxSize && granted
      ensures State() == if ok then NoteAlloc(old(State()), size) else NoteFailure(old(State()))
    {
      if size == 0 || size > maxSize || !granted {
        failureCount := Inc(failureCount);
        return false;
      }
      allocatedBlocks := Inc(allocatedBlocks);
      allocationCount := Inc(allocationCount);
      allocatedBytes := (allocatedBytes + size) % TWO_32;
      if allocatedBlocks > peakBlocks {
        peakBlocks := allocatedBlocks;
      }
      if allocatedBytes > peakBytes {
        peakBytes := allocatedBytes;
      }
      ok := true;
    }

    method Release(size: nat)
      modifies this
      ensures State() == NoteRelease(old(State()), size)
    {
      if allocatedBlocks > 0 {
        allocatedBlocks := allocatedBlocks - 1;
      }
      if allocatedBytes >= size {
        allocatedBytes := allocatedBytes - size;
      } else {
        allocatedBytes := 0;
      }
      releaseCount := Inc(releaseCount);
    }

    method Note(r: Reason)
      modifies this
      ensures State() == NoteReason(old(State()), r)
    {
      match r {
        case SendFailure => sendFailures := Inc(sendFailures);
        case ValidationFailure => validationFailures := Inc(validationFailures);
        case UploadSuccess => uploadSuccesses := Inc(uploadSuccesses);
        case FinalDrop => finalDrops := Inc(finalDrops);
      }
    }
  }
}
