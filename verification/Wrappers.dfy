/** Values that may be missing, shared by every module. */
module Wrappers {
  /** Where a heap block is. */
  type Addr = nat

  datatype Option<+T> = None | Some(value: T)

  /** Concatenation of two sequences either of which may have failed. */
  function Cat<T>(a: Option<seq<T>>, b: Option<seq<T>>): Option<seq<T>> {
    match (a, b)
    case (Some(x), Some(y)) => Some(x + y)
    case _ => None
  }

  lemma CatAssoc<T>(a: Option<seq<T>>, b: Option<seq<T>>, c: Option<seq<T>>)
    ensures Cat(Cat(a, b), c) == Cat(a, Cat(b, c))
  {
    if a.Some? && b.Some? && c.Some? {
      assert (a.value + b.value) + c.value == a.value + (b.value + c.value);
    }
  }

  lemma CatEmpty<T>(a: Option<seq<T>>)
    ensures Cat(a, Some([])) == a == Cat(Some([]), a)
  {
    if a.Some? { assert a.value + [] == a.value == [] + a.value; }
  }
}
