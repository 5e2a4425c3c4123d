/**
 * Three-way comparison, the orders the dashboard sorts by, and the stable
 * in-place sort its tables use.
 */
module Sorting {

  datatype Ordering = Less | Equal | Greater {
    /** The same comparison with its two sides swapped. */
    function Reverse(): (r: Ordering)
      ensures r == Equal <==> this == Equal
      ensures r == Less <==> this == Greater
    {
      match this
      case Less => Greater
      case Equal => Equal
      case Greater => Less
    }
  }

  /** Numeric order. */
  function CompareInts(a: int, b: int): (r: Ordering)
    ensures r == Less <==> a < b
    ensures r == Equal <==> a == b
    ensures r == Greater <==> a > b
  {
    if a < b then Less else if a == b then Equal else Greater
  }

  /** Lexicographic order on text, character by character; a proper prefix comes first. */
  function CompareStrings(a: string, b: string): Ordering
    decreases |a|
  {
    if a == [] then (if b == [] then Equal else Less)
    else if b == [] then Greater
    else if a[0] < b[0] then Less
    else if a[0] > b[0] then Greater
    else CompareStrings(a[1..], b[1..])
  }

  lemma {:induction false} CompareStringsAntisymmetric(a: string, b: string)
    ensures CompareStrings(b, a) == CompareStrings(a, b).Reverse()
    decreases |a|
  {
    if a != [] && b != [] && a[0] == b[0] {
      CompareStringsAntisymmetric(a[1..], b[1..]);
    }
  }

  lemma {:induction false} CompareStringsEqual(a: string, b: string)
    ensures CompareStrings(a, b) == Equal <==> a == b
    decreases |a|
  {
    if a != [] && b != [] && a[0] == b[0] {
      CompareStringsEqual(a[1..], b[1..]);
      assert a == [a[0]] + a[1..] && b == [b[0]] + b[1..];
    }
  }

  lemma {:induction false} CompareStringsTransitive(a: string, b: string, c: string)
    requires CompareStrings(a, b) != Greater && CompareStrings(b, c) != Greater
    ensures CompareStrings(a, c) != Greater
    decreases |a|
  {
    if a != [] && b != [] && c != [] && a[0] == b[0] == c[0] {
      CompareStringsTransitive(a[1..], b[1..], c[1..]);
    }
  }

  /**
   * A comparator that sorts can rely on: swapping the sides reverses the
   * answer, and "not greater" is transitive.
   */
  ghost predicate IsTotalPreorder<T(!new)>(cmp: (T, T) -> Ordering) {
    && (forall x, y :: cmp(y, x) == cmp(x, y).Reverse())
    && (forall x, y, z :: cmp(x, y) != Greater && cmp(y, z) != Greater ==> cmp(x, z) != Greater)
  }

  /** No element is greater than one after it. */
  ghost predicate SortedBy<T>(s: seq<T>, cmp: (T, T) -> Ordering) {
    forall i, j :: 0 <= i < j < |s| ==> cmp(s[i], s[j]) != Greater
  }

  lemma CompareStringsIsTotalPreorder()
    ensures IsTotalPreorder(CompareStrings)
  {
    forall x, y ensures CompareStrings(y, x) == CompareStrings(x, y).Reverse() {
      CompareStringsAntisymmetric(x, y);
    }
    forall x, y, z | CompareStrings(x, y) != Greater && CompareStrings(y, z) != Greater
      ensures CompareStrings(x, z) != Greater
    {
      CompareStringsTransitive(x, y, z);
    }
  }

  method Swap<T>(a: array<T>, i: nat, j: nat)
    requires i < a.Length && j < a.Length
    modifies a
    ensures a[i] == old(a[j]) && a[j] == old(a[i])
    ensures forall k :: 0 <= k < a.Length && k != i && k != j ==> a[k] == old(a[k])
    ensures multiset(a[..]) == multiset(old(a[..]))
  {
    a[i], a[j] := a[j], a[i];
  }

  /** Two sequences with the same elements and the same suffix from `n` on have the same prefix elements. */
  lemma PrefixMultiset<T>(s: seq<T>, t: seq<T>, n: nat)
    requires |s| == |t| && n <= |s|
    requires multiset(s) == multiset(t)
    requires forall k :: n <= k < |s| ==> s[k] == t[k]
    ensures multiset(s[..n]) == multiset(t[..n])
  {
    assert s == s[..n] + s[n..];
    assert t == t[..n] + t[n..];
    assert s[n..] == t[n..];
    assert multiset(s) == multiset(s[..n]) + multiset(s[n..]);
    assert multiset(t) == multiset(t[..n]) + multiset(t[n..]);
    assert multiset(s[..n]) == multiset(s) - multiset(s[n..]);
  }

  /**
   * Moves `a[i]` left past every strictly greater element before it, so that
   * a sorted prefix of length `i` becomes one of length `i + 1`. Nothing moves
   * when `a[i]` is not smaller than its left neighbour, and nothing after
   * position `i` ever moves.
   */
  method InsertInto<T(!new)>(a: array<T>, i: nat, cmp: (T, T) -> Ordering)
    requires IsTotalPreorder(cmp)
    requires i < a.Length
    requires forall k, l :: 0 <= k < l < i ==> cmp(a[k], a[l]) != Greater
    modifies a
    ensures forall k, l :: 0 <= k < l <= i ==> cmp(a[k], a[l]) != Greater
    ensures multiset(a[..]) == multiset(old(a[..]))
    ensures multiset(a[..i + 1]) == multiset(old(a[..i + 1]))
    ensures forall k :: i < k < a.Length ==> a[k] == old(a[k])
    ensures (i == 0 || cmp(old(a[i - 1]), old(a[i])) != Greater) ==> a[..] == old(a[..])
  {
    ghost var input := a[..];
    ShiftLeft(a, i, cmp);
    ghost var output := a[..];
    assert forall k :: i + 1 <= k < |input| ==> input[k] == output[k];
    PrefixMultiset(input, output, i + 1);
  }

  /** The loop of InsertInto: swaps `a[i]` leftwards while its left neighbour is strictly greater. */
  method ShiftLeft<T(!new)>(a: array<T>, i: nat, cmp: (T, T) -> Ordering)
    requires IsTotalPreorder(cmp)
    requires i < a.Length
    requires forall k, l :: 0 <= k < l < i ==> cmp(a[k], a[l]) != Greater
    modifies a
    ensures forall k, l :: 0 <= k < l <= i ==> cmp(a[k], a[l]) != Greater
    ensures multiset(a[..]) == multiset(old(a[..]))
    ensures forall k :: i < k < a.Length ==> a[k] == old(a[k])
    ensures (i == 0 || cmp(old(a[i - 1]), old(a[i])) != Greater) ==> a[..] == old(a[..])
  {
    var j := i;
    while j > 0 && cmp(a[j - 1], a[j]) == Greater
      invariant 0 <= j <= i
      invariant forall k, l :: 0 <= k < l <= i && k != j && l != j ==> cmp(a[k], a[l]) != Greater
      invariant forall l :: j < l <= i ==> cmp(a[j], a[l]) != Greater
      invariant multiset(a[..]) == multiset(old(a[..]))
      invariant forall k :: i < k < a.Length ==> a[k] == old(a[k])
      invariant j == i ==> a[..] == old(a[..])
      invariant j < i ==> 0 < i && cmp(old(a[i - 1]), old(a[i])) == Greater
    {
      assert cmp(a[j], a[j - 1]) == Less;
      Swap(a, j - 1, j);
      j := j - 1;
    }
  }

  /**
   * Sorts `a` in place by `cmp`. Like a stable sort it only moves an element
   * past one that is strictly greater, so an already sorted array is left as
   * it is.
   */
  method InsertionSortBy<T(!new)>(a: array<T>, cmp: (T, T) -> Ordering)
    requires IsTotalPreorder(cmp)
    modifies a
    ensures SortedBy(a[..], cmp)
    ensures multiset(a[..]) == multiset(old(a[..]))
    ensures SortedBy(old(a[..]), cmp) ==> a[..] == old(a[..])
  {
    ghost var input := a[..];
    var i := 0;
    while i < a.Length
      invariant 0 <= i <= a.Length
      invariant forall k, l :: 0 <= k < l < i ==> cmp(a[k], a[l]) != Greater
      invariant multiset(a[..]) == multiset(input)
      invariant SortedBy(input, cmp) ==> a[..] == input
    {
      ghost var before := a[..];
      InsertInto(a, i, cmp);
      if SortedBy(input, cmp) {
        assert before == input;
        assert i == 0 || cmp(before[i - 1], before[i]) != Greater;
      }
      i := i + 1;
    }
  }
}
