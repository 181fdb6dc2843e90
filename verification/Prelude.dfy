/** Small shared vocabulary: optional values, results, and first-match search. */
module Prelude {

  datatype Option<+T> = None | Some(value: T) {
    predicate IsFailure() {
      None?
    }

    function PropagateFailure<U>(): Option<U>
      requires None?
    {
      None
    }

    function Extract(): T
      requires Some?
    {
      value
    }
  }

  datatype Result<+T, +E> = Ok(value: T) | Err(error: E)

  /** 32-byte strings, read as a 256-bit number. */
  type Bytes32 = x: int | 0 <= x < 0x1_0000000000000000_0000000000000000_0000000000000000_0000000000000000

  const U64_MAX: nat := 0xFFFF_FFFF_FFFF_FFFF

  /** Unsigned 64-bit addition that sticks at the maximum. */
  function SaturatingAdd(a: nat, b: nat): (r: nat)
    ensures r <= U64_MAX
    ensures a + b <= U64_MAX ==> r == a + b
  {
    if a + b <= U64_MAX then a + b else U64_MAX
  }

  /** Index of the first element satisfying `pred`, as an iterator's `position` finds it. */
  function FirstIndex<T>(s: seq<T>, pred: T -> bool): (r: Option<nat>)
    ensures r.Some? ==> r.value < |s| && pred(s[r.value])
    ensures forall j :: 0 <= j < (if r.Some? then r.value else |s|) ==> !pred(s[j])
  {
    if s == [] then None
    else if pred(s[0]) then Some(0)
    else
      match FirstIndex(s[1..], pred)
      case None => None
      case Some(i) => Some(i + 1)
  }

  /** The first match is determined by where it is, not by how it was searched for. */
  lemma FirstIndexUnique<T>(s: seq<T>, pred: T -> bool, k: nat)
    requires k < |s| && pred(s[k])
    requires forall j :: 0 <= j < k ==> !pred(s[j])
    ensures FirstIndex(s, pred) == Some(k)
  {
    var r := FirstIndex(s, pred);
    assert r.Some?;
    assert r.value == k;
  }

  /** Searching a prefix finds the same element, or nothing when it lies past the cut. */
  lemma FirstIndexPrefix<T>(s: seq<T>, pred: T -> bool, n: nat)
    requires n <= |s|
    ensures FirstIndex(s[..n], pred) ==
            match FirstIndex(s, pred) case Some(i) => if i < n then Some(i) else None case None => None
  {
    var whole := FirstIndex(s, pred);
    if whole.Some? && whole.value < n {
      assert s[..n][whole.value] == s[whole.value];
      FirstIndexUnique(s[..n], pred, whole.value);
    }
  }

  /** Searches that agree element by element agree. */
  lemma FirstIndexPointwise<T, U>(s: seq<T>, f: T -> bool, t: seq<U>, g: U -> bool)
    requires |s| == |t|
    requires forall j :: 0 <= j < |s| ==> f(s[j]) == g(t[j])
    ensures FirstIndex(s, f) == FirstIndex(t, g)
  {
    var i := FirstIndex(s, f);
    if i.Some? {
      FirstIndexUnique(t, g, i.value);
    }
  }
}
