/** Facts about sequences that the verifier needs spelled out. */
module Seqs {
  lemma Assoc<T>(a: seq<T>, b: seq<T>, c: seq<T>)
    ensures (a + b) + c == a + (b + c)
  {
  }

  /** The last element of a non-empty concatenation comes off the right operand. */
  lemma PeelRight<T>(a: seq<T>, b: seq<T>)
    requires b != []
    ensures (a + b)[..|a + b| - 1] == a + b[..|b| - 1]
    ensures (a + b)[|a + b| - 1] == b[|b| - 1]
  {
  }

  /** Lists that start empty, and to which only step `c` adds. */
  lemma {:induction false} AddedOnce<T>(lists: seq<seq<T>>, whole: seq<T>, c: nat, t: nat)
    requires t < |lists| && lists[0] == []
    requires forall k :: 0 <= k < |lists| - 1 ==> lists[k + 1] == lists[k] + if k == c then whole else []
    ensures lists[t] == if t > c then whole else []
  {
    if t > 0 { AddedOnce(lists, whole, c, t - 1); }
  }
}
