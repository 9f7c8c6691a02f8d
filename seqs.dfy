/**
 * Facts about finite sequences of marks that the statistics are specified with:
 * sums, extremes, sortedness and first occurrences.
 */
module Seqs {

  /** Python's `sum`, over exact reals. */
  function Sum(s: seq<real>): real
  {
    if |s| == 0 then 0.0 else s[0] + Sum(s[1..])
  }

  /** The smallest mark (Python's `min`). */
  function Min(s: seq<real>): (m: real)
    requires |s| > 0
    ensures m in s
    ensures forall i :: 0 <= i < |s| ==> m <= s[i]
  {
    if |s| == 1 then s[0]
    else
      var rest := Min(s[1..]);
      if s[0] <= rest then s[0] else rest
  }

  /** The largest mark (Python's `max`). */
  function Max(s: seq<real>): (m: real)
    requires |s| > 0
    ensures m in s
    ensures forall i :: 0 <= i < |s| ==> s[i] <= m
  {
    if |s| == 1 then s[0]
    else
      var rest := Max(s[1..]);
      if rest <= s[0] then s[0] else rest
  }

  /** Ascending order, as `list.sort()` leaves a list of numbers. */
  predicate Sorted(s: seq<real>)
  {
    forall i, j :: 0 <= i < j < |s| ==> s[i] <= s[j]
  }

  predicate AllEqual(s: seq<real>)
  {
    forall i, j :: 0 <= i < |s| && 0 <= j < |s| ==> s[i] == s[j]
  }

  /** Every element of `s` is `c`. */
  predicate AllAre(s: seq<real>, c: real)
  {
    forall i :: 0 <= i < |s| ==> s[i] == c
  }

  predicate NoDuplicates(s: seq<real>)
  {
    forall i, j :: 0 <= i < j < |s| ==> s[i] != s[j]
  }

  /** The index at which `v` occurs in `s` for the first time. */
  function FirstIndex(s: seq<real>, v: real): (k: nat)
    requires v in s
    ensures k < |s| && s[k] == v
    ensures forall i :: 0 <= i < k ==> s[i] != v
  {
    if s[0] == v then 0 else 1 + FirstIndex(s[1..], v)
  }

  /** `keys` are values of `s`, listed in the order in which they first appear in `s`. */
  predicate InFirstAppearanceOrder(keys: seq<real>, s: seq<real>)
  {
    (forall k :: 0 <= k < |keys| ==> keys[k] in s) &&
    forall a, b :: 0 <= a < b < |keys| ==> FirstIndex(s, keys[a]) < FirstIndex(s, keys[b])
  }

  /**
   * A list of distinct values is fixed by which values it holds once it is in
   * order of first appearance in `s`.
   */
  lemma {:induction false} FirstAppearanceOrderUnique(a: seq<real>, b: seq<real>, s: seq<real>)
    requires NoDuplicates(a) && NoDuplicates(b)
    requires forall v :: v in a <==> v in b
    requires InFirstAppearanceOrder(a, s) && InFirstAppearanceOrder(b, s)
    ensures a == b
  {
    assert |b| > 0 ==> b[0] in b;
    if |a| > 0 {
      assert a[0] in a;
      assert |b| > 0;
      SameFirst(a, b, s);
      DropFirst(a, s);
      DropFirst(b, s);
      FirstAppearanceOrderUnique(a[1..], b[1..], s);
      assert a == [a[0]] + a[1..] && b == [b[0]] + b[1..];
    }
  }

  /** Two such lists start with the same value. */
  lemma SameFirst(a: seq<real>, b: seq<real>, s: seq<real>)
    requires |a| > 0 && |b| > 0
    requires forall v :: v in a <==> v in b
    requires InFirstAppearanceOrder(a, s) && InFirstAppearanceOrder(b, s)
    ensures a[0] == b[0]
  {
    var x, y := a[0], b[0];
    assert x in a && y in b;
  }

  /** Dropping the first value of such a list leaves one of the remaining values. */
  lemma DropFirst(a: seq<real>, s: seq<real>)
    requires |a| > 0 && NoDuplicates(a) && InFirstAppearanceOrder(a, s)
    ensures NoDuplicates(a[1..]) && InFirstAppearanceOrder(a[1..], s)
    ensures forall v :: v in a[1..] <==> v in a && v != a[0]
  {
    forall v | v in a ensures v in a[1..] <==> v != a[0] {
      var i :| 0 <= i < |a| && a[i] == v;
      if i > 0 {
        assert a[1..][i - 1] == v;
      }
    }
  }

  /**
   * `t` lists values of `s` that first appear before position `j`, in the order
   * of their first appearance.
   */
  predicate OrderedBefore(t: seq<real>, s: seq<real>, j: nat)
  {
    (forall k :: 0 <= k < |t| ==> t[k] in s && FirstIndex(s, t[k]) < j) &&
    forall a, b :: 0 <= a < b < |t| ==> FirstIndex(s, t[a]) < FirstIndex(s, t[b])
  }

  /** A value that does not occur before position `j` first appears at `j`. */
  lemma FirstOccurrence(s: seq<real>, j: nat)
    requires j < |s| && s[j] !in s[..j]
    ensures FirstIndex(s, s[j]) == j
  {
  }

  /** Appending the value that first appears at position `j` keeps `t` in order. */
  lemma AppendFirstOccurrence(t: seq<real>, s: seq<real>, j: nat)
    requires j < |s| && FirstIndex(s, s[j]) == j
    requires OrderedBefore(t, s, j)
    ensures OrderedBefore(t + [s[j]], s, j + 1)
    ensures s[j] !in t
    ensures NoDuplicates(t) ==> NoDuplicates(t + [s[j]])
  {
    var t' := t + [s[j]];
    forall k | 0 <= k < |t'| ensures t'[k] in s && FirstIndex(s, t'[k]) < j + 1 {
      if k < |t| { assert t'[k] == t[k]; }
    }
    forall a, b | 0 <= a < b < |t'| ensures FirstIndex(s, t'[a]) < FirstIndex(s, t'[b]) {
      assert t'[a] == t[a];
      if b < |t| { assert t'[b] == t[b]; }
    }
    forall k | 0 <= k < |t| ensures t[k] != s[j] {
      assert FirstIndex(s, t[k]) < j;
    }
  }

  /** Every mark lies between the bounds, so the sum lies between `|s|` times each bound. */
  lemma {:induction false} SumBounds(s: seq<real>, lo: real, hi: real)
    requires forall i :: 0 <= i < |s| ==> lo <= s[i] <= hi
    ensures |s| as real * lo <= Sum(s) <= |s| as real * hi
  {
    if |s| > 0 {
      SumBounds(s[1..], lo, hi);
    }
  }

  /**
   * The sum of a concatenation is the sum of the parts. With `b` a single mark this
   * is Python's left-to-right accumulation: `Sum(a + [x]) == Sum(a) + x`.
   */
  lemma {:induction false} SumAppend(a: seq<real>, b: seq<real>)
    ensures Sum(a + b) == Sum(a) + Sum(b)
  {
    if |a| > 0 {
      SumAppend(a[1..], b);
      assert (a + b)[1..] == a[1..] + b;
    } else {
      assert a + b == b;
    }
  }

  /** Every mark moved by `c`. */
  function Shift(s: seq<real>, c: real): (t: seq<real>)
    ensures |t| == |s| && forall i :: 0 <= i < |s| ==> t[i] == s[i] + c
  {
    seq(|s|, i requires 0 <= i < |s| => s[i] + c)
  }

  lemma ShiftTail(s: seq<real>, c: real)
    requires |s| > 0
    ensures Shift(s, c)[1..] == Shift(s[1..], c)
  {
  }

  /** Moving every mark by `c` moves their sum by `|s| * c`. */
  lemma {:induction false} SumShift(s: seq<real>, c: real)
    ensures Sum(Shift(s, c)) == Sum(s) + |s| as real * c
  {
    if |s| > 0 {
      ShiftTail(s, c);
      SumShift(s[1..], c);
    }
  }

  /** The extremes of a sorted sequence are its two ends. */
  lemma {:induction false} SortedMinMax(s: seq<real>)
    requires |s| > 0 && Sorted(s)
    ensures Min(s) == s[0] && Max(s) == s[|s| - 1]
  {
  }

  /** Reordering marks does not change their extremes. */
  lemma {:induction false} PermutationMinMax(s: seq<real>, t: seq<real>)
    requires |s| > 0 && multiset(s) == multiset(t)
    ensures |t| > 0 && Min(s) == Min(t) && Max(s) == Max(t)
  {
    assert |t| == |multiset(t)| == |multiset(s)| == |s|;
    assert Min(s) in multiset(t) && Min(t) in multiset(s);
    assert Max(s) in multiset(t) && Max(t) in multiset(s);
  }

  /** There is only one ascending arrangement of a multiset of marks. */
  lemma {:induction false} SortedPermutationUnique(s: seq<real>, t: seq<real>)
    requires Sorted(s) && Sorted(t) && multiset(s) == multiset(t)
    ensures s == t
  {
    SameLength(s, t);
    if |s| > 0 {
      SortedPermutationTails(s, t);
      SortedPermutationUnique(s[1..], t[1..]);
      assert s == [s[0]] + s[1..] && t == [t[0]] + t[1..];
    }
  }

  /** Permutations have the same length. */
  lemma SameLength(s: seq<real>, t: seq<real>)
    requires multiset(s) == multiset(t)
    ensures |s| == |t|
  {
    assert |t| == |multiset(t)| == |multiset(s)| == |s|;
  }

  /** Two ascending permutations start alike, and their tails are ascending permutations. */
  lemma SortedPermutationTails(s: seq<real>, t: seq<real>)
    requires |s| > 0 && |t| > 0
    requires Sorted(s) && Sorted(t) && multiset(s) == multiset(t)
    ensures s[0] == t[0]
    ensures Sorted(s[1..]) && Sorted(t[1..]) && multiset(s[1..]) == multiset(t[1..])
  {
    SortedHeadLeast(t, s[0]);
    SortedHeadLeast(s, t[0]);
    MultisetTail(s);
    MultisetTail(t);
  }

  /** The first element of an ascending sequence is at most any of its elements. */
  lemma SortedHeadLeast(s: seq<real>, v: real)
    requires Sorted(s) && v in multiset(s)
    ensures s[0] <= v
  {
    assert v in s;
    var j :| 0 <= j < |s| && s[j] == v;
  }

  /** Removing the first element removes one occurrence of it. */
  lemma MultisetTail(s: seq<real>)
    requires |s| > 0
    ensures multiset(s[1..]) == multiset(s) - multiset{s[0]}
  {
    assert s == [s[0]] + s[1..];
  }
}
