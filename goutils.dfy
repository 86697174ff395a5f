/**
 * The generic slice helpers of internal/utils/utils.go. A Go slice that is
 * appended to through a pointer is a `Slice` object; a pointer into its
 * backing array is an index into `elems` of that same object, so a write
 * through the pointer is a write to `elems` at that index.
 */
module GoUtils {
  import opened Types

  /** A heap cell holding one value (what `&v` allocates). */
  class Box<T> {
    var value: T

    constructor (v: T)
      ensures value == v
    {
      value := v;
    }
  }

  /** A growable slice whose elements can be reached by index "pointers". */
  class Slice<T> {
    var elems: seq<T>

    constructor (s: seq<T>)
      ensures elems == s
    {
      elems := s;
    }
  }

  /** `Ptr(v)`: a fresh cell whose target equals `v`. */
  method Ptr<T>(v: T) returns (p: Box<T>)
    ensures fresh(p)
    ensures p.value == v
  {
    p := new Box(v);
  }

  /** The elements of `c` satisfying `p`, in their original order. */
  function Filtered<T>(c: seq<T>, p: T -> bool): seq<T>
  {
    if |c| == 0 then []
    else Filtered(c[..|c| - 1], p) + (if p(c[|c| - 1]) then [c[|c| - 1]] else [])
  }

  /** Membership in `Filtered`: exactly the elements of `c` that satisfy `p`. */
  lemma {:induction false} FilteredMembers<T>(c: seq<T>, p: T -> bool, x: T)
    ensures x in Filtered(c, p) <==> x in c && p(x)
    decreases |c|
  {
    if |c| > 0 {
      FilteredMembers(c[..|c| - 1], p, x);
      assert c == c[..|c| - 1] + [c[|c| - 1]];
    }
  }

  /** `Filtered` keeps every occurrence of a satisfying element and drops all others. */
  lemma {:induction false} FilteredCounts<T>(c: seq<T>, p: T -> bool, x: T)
    ensures multiset(Filtered(c, p))[x] == if p(x) then multiset(c)[x] else 0
    decreases |c|
  {
    if |c| > 0 {
      FilteredCounts(c[..|c| - 1], p, x);
      assert c == c[..|c| - 1] + [c[|c| - 1]];
    }
  }

  /** `Where` appends, in order, every element satisfying the predicate. */
  method Where<T>(collection: seq<T>, pred: T -> bool) returns (out: seq<T>)
    ensures out == Filtered(collection, pred)
  {
    out := [];
    var i := 0;
    while i < |collection|
      invariant 0 <= i <= |collection|
      invariant out == Filtered(collection[..i], pred)
    {
      assert collection[..i + 1][..i] == collection[..i];
      if pred(collection[i]) {
        out := out + [collection[i]];
      }
      i := i + 1;
    }
    assert collection[..i] == collection;
  }

  /** The least index whose element satisfies `p`, if any. */
  function FirstIndex<T>(c: seq<T>, p: T -> bool): (r: Option<nat>)
    ensures r.Some? ==> r.value < |c| && p(c[r.value])
    ensures r.Some? ==> forall j :: 0 <= j < r.value ==> !p(c[j])
    ensures r.None? ==> forall j :: 0 <= j < |c| ==> !p(c[j])
    decreases |c|
  {
    if |c| == 0 then None
    else if p(c[0]) then Some(0)
    else
      match FirstIndex(c[1..], p)
      case None => None
      case Some(k) => Some(k + 1)
  }

  /** `First`: the first satisfying element and true, or the zero value and false. */
  method First<T>(collection: seq<T>, pred: T -> bool, zero: T) returns (out: T, ok: bool)
    ensures ok <==> FirstIndex(collection, pred).Some?
    ensures ok ==> out == collection[FirstIndex(collection, pred).value]
    ensures !ok ==> out == zero
  {
    var i := 0;
    while i < |collection|
      invariant 0 <= i <= |collection|
      invariant forall j :: 0 <= j < i ==> !pred(collection[j])
    {
      if pred(collection[i]) {
        FirstIndexIsLeast(collection, pred, i);
        return collection[i], true;
      }
      i := i + 1;
    }
    return zero, false;
  }

  /** `FirstPtr`: the slot of the least matching element of the slice, or none (nil). */
  method FirstPtr<T>(collection: Slice<T>, pred: T -> bool) returns (slot: Option<nat>)
    ensures slot == FirstIndex(collection.elems, pred)
  {
    var i := 0;
    while i < |collection.elems|
      invariant 0 <= i <= |collection.elems|
      invariant forall j :: 0 <= j < i ==> !pred(collection.elems[j])
    {
      if pred(collection.elems[i]) {
        FirstIndexIsLeast(collection.elems, pred, i);
        return Some(i);
      }
      i := i + 1;
    }
    return None;
  }

  /** `AppendAndGetPtr`: grows the slice by `value` and points at the new last slot. */
  method AppendAndGetPtr<T>(slice: Slice<T>, value: T) returns (slot: nat)
    modifies slice
    ensures slice.elems == old(slice.elems) + [value]
    ensures slot == |slice.elems| - 1 && slice.elems[slot] == value
  {
    slice.elems := slice.elems + [value];
    slot := |slice.elems| - 1;
  }

  /** A satisfying index with no satisfying index before it is the one `FirstIndex` finds. */
  lemma FirstIndexIsLeast<T>(c: seq<T>, p: T -> bool, i: nat)
    requires i < |c| && p(c[i])
    requires forall j :: 0 <= j < i ==> !p(c[j])
    ensures FirstIndex(c, p) == Some(i)
  {
  }
}
