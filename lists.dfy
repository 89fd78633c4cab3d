/** The Python list operations the gallery relies on: `list.index`,
    `del xs[i]` and `list.remove`, stated as functions on sequences. */
module Lists {

  datatype Option<+T> = None | Some(value: T)

  /** `xs.index(x)`: the first position holding `x`; `None` where Python
      raises `ValueError`. */
  function IndexOf<T(==)>(xs: seq<T>, x: T): (r: Option<nat>)
    ensures r.None? <==> x !in xs
    ensures r.Some? ==> r.value < |xs| && xs[r.value] == x
    ensures r.Some? ==> forall j :: 0 <= j < r.value ==> xs[j] != x
  {
    if xs == [] then None
    else if xs[0] == x then Some(0)
    else match IndexOf(xs[1..], x)
      case None => None
      case Some(i) => Some(i + 1)
  }

  /** `del xs[i]`: every other element keeps its relative order. */
  function RemoveAt<T>(xs: seq<T>, i: nat): (r: seq<T>)
    requires i < |xs|
    ensures |r| == |xs| - 1
    ensures forall k :: 0 <= k < i ==> r[k] == xs[k]
    ensures forall k :: i <= k < |r| ==> r[k] == xs[k + 1]
  {
    xs[..i] + xs[i + 1..]
  }

  /** `xs.remove(x)`: drops the first occurrence of `x`, which must be
      present (Python raises `ValueError` otherwise). */
  function RemoveFirst<T(==)>(xs: seq<T>, x: T): (r: seq<T>)
    requires x in xs
    ensures |r| == |xs| - 1
    ensures multiset(r) == multiset(xs) - multiset{x}
  {
    if xs[0] == x then
      assert xs == [xs[0]] + xs[1..];
      xs[1..]
    else
      assert xs == [xs[0]] + xs[1..];
      [xs[0]] + RemoveFirst(xs[1..], x)
  }

  lemma RemoveAtCons<T>(xs: seq<T>, i: nat)
    requires i + 1 < |xs|
    ensures RemoveAt(xs, i + 1) == [xs[0]] + RemoveAt(xs[1..], i)
  {
  }

  /** `list.remove` and `del xs[xs.index(x)]` remove the same element. */
  lemma {:induction false} RemoveFirstIsRemoveAtIndex<T>(xs: seq<T>, x: T)
    requires x in xs
    ensures IndexOf(xs, x).Some?
    ensures RemoveFirst(xs, x) == RemoveAt(xs, IndexOf(xs, x).value)
  {
    if xs[0] != x {
      assert x in xs[1..] by { assert xs == [xs[0]] + xs[1..]; }
      RemoveFirstIsRemoveAtIndex(xs[1..], x);
      RemoveAtCons(xs, IndexOf(xs[1..], x).value);
    }
  }
}
