/**
 * The statistics of the student marks calculator: mean, median, mode and
 * skewness of a list of marks. Marks are exact reals.
 */
module Statistics {
  import opened Wrappers
  import opened Seqs

  // ---------------------------------------------------------------- mean

  /** The average mark; 0 stands for "no marks". */
  function Mean(numbers: seq<real>): (r: real)
    ensures |numbers| == 0 ==> r == 0.0
  {
    if |numbers| > 0 then Sum(numbers) / |numbers| as real else 0.0
  }

  /** The average of some marks, taken once for each mark, gives back their sum. */
  lemma MeanTimesCount(numbers: seq<real>)
    requires |numbers| > 0
    ensures |numbers| as real * Mean(numbers) == Sum(numbers)
  {
    QuotientTimes(Sum(numbers), |numbers| as real);
  }

  /** The average of some marks lies between the lowest and the highest of them. */
  lemma {:induction false} MeanBetweenMinMax(numbers: seq<real>)
    requires |numbers| > 0
    ensures Min(numbers) <= Mean(numbers) <= Max(numbers)
  {
    MeanBounds(numbers, Min(numbers), Max(numbers));
  }

  /** When every mark lies between `lo` and `hi`, so does their average. */
  lemma MeanBounds(numbers: seq<real>, lo: real, hi: real)
    requires |numbers| > 0
    requires forall i :: 0 <= i < |numbers| ==> lo <= numbers[i] <= hi
    ensures lo <= Mean(numbers) <= hi
  {
    SumBounds(numbers, lo, hi);
    DivideBounds(Sum(numbers), |numbers| as real, lo, hi);
  }

  /** Dividing `n * lo <= total <= n * hi` by a positive `n`. */
  lemma DivideBounds(total: real, n: real, lo: real, hi: real)
    requires 0.0 < n && n * lo <= total <= n * hi
    ensures lo <= total / n <= hi
  {
    var q := total / n;
    assert n * q == total;
  }

  // -------------------------------------------------------------- median

  /** Python's list sort: rearranges the marks in place into ascending order. */
  method Sort(a: array<real>)
    modifies a
    ensures Sorted(a[..])
    ensures multiset(a[..]) == multiset(old(a[..]))
  {
    var i := 0;
    while i < a.Length
      invariant 0 <= i <= a.Length
      invariant forall p, q :: 0 <= p < q < i ==> a[p] <= a[q]
      invariant multiset(a[..]) == multiset(old(a[..]))
    {
      Insert(a, i);
      i := i + 1;
    }
  }

  /** One step of insertion sort: moves `a[i]` left into the sorted prefix `a[..i]`. */
  method Insert(a: array<real>, i: nat)
    requires i < a.Length
    requires forall p, q :: 0 <= p < q < i ==> a[p] <= a[q]
    modifies a
    ensures forall p, q :: 0 <= p < q <= i ==> a[p] <= a[q]
    ensures forall k :: i < k < a.Length ==> a[k] == old(a[k])
    ensures multiset(a[..]) == multiset(old(a[..]))
  {
    var j := i;
    while 0 < j && a[j] < a[j - 1]
      invariant 0 <= j <= i
      invariant forall p, q :: 0 <= p < q <= i && p != j && q != j ==> a[p] <= a[q]
      invariant forall q :: j < q <= i ==> a[j] <= a[q]
      invariant 0 < j < i ==> a[j - 1] <= a[j + 1]
      invariant forall k :: i < k < a.Length ==> a[k] == old(a[k])
      invariant multiset(a[..]) == multiset(old(a[..]))
    {
      Swap(a, j - 1, j);
      j := j - 1;
    }
  }

  /** Exchanges two elements. */
  method Swap(a: array<real>, i: nat, j: nat)
    requires i < j < a.Length
    modifies a
    ensures a[i] == old(a[j]) && a[j] == old(a[i])
    ensures forall k :: 0 <= k < a.Length && k != i && k != j ==> a[k] == old(a[k])
    ensures multiset(a[..]) == multiset(old(a[..]))
  {
    a[i], a[j] := a[j], a[i];
  }

  /**
   * The middle of an ascending list of marks: its middle element when the length
   * is odd, the average of its two middle elements when it is even.
   */
  function MiddleValue(s: seq<real>): (r: real)
    requires |s| > 0
    ensures 2.0 * r == s[(|s| - 1) / 2] + s[|s| / 2]
  {
    var mid := |s| / 2;
    if |s| % 2 == 1 then s[mid] else (s[mid - 1] + s[mid]) / 2.0
  }

  /**
   * In an ascending list the middle value splits the marks in two: every mark in
   * the lower half is at most it, every mark in the upper half at least it, and it
   * lies between the two ends.
   */
  lemma MiddleValueSplits(s: seq<real>)
    requires |s| > 0 && Sorted(s)
    ensures forall i :: 0 <= i < |s| / 2 ==> s[i] <= MiddleValue(s)
    ensures forall i :: (|s| - 1) / 2 < i < |s| ==> MiddleValue(s) <= s[i]
    ensures s[0] <= MiddleValue(s) <= s[|s| - 1]
  {
  }

  /**
   * The median depends only on which marks there are, not on how the ascending
   * list was produced: two ascending arrangements of the same marks have the same
   * middle value.
   */
  lemma MiddleValueOfPermutation(s: seq<real>, t: seq<real>)
    requires |s| > 0 && Sorted(s) && Sorted(t) && multiset(s) == multiset(t)
    ensures |t| > 0 && MiddleValue(s) == MiddleValue(t)
  {
    SortedPermutationUnique(s, t);
  }

  /**
   * The middle mark. Leaves an empty list alone and returns 0; otherwise sorts
   * the caller's list in place and returns the middle value of the sorted list.
   */
  method Median(numbers: array<real>) returns (r: real)
    modifies numbers
    ensures numbers.Length == 0 ==> r == 0.0 && numbers[..] == old(numbers[..])
    ensures Sorted(numbers[..])
    ensures multiset(numbers[..]) == multiset(old(numbers[..]))
    ensures numbers.Length > 0 ==> r == MiddleValue(numbers[..])
    ensures numbers.Length > 0 ==> Min(old(numbers[..])) <= r <= Max(old(numbers[..]))
  {
    if numbers.Length == 0 {
      return 0.0;
    }
    Sort(numbers);
    var midIndex := numbers.Length / 2;
    if numbers.Length % 2 == 1 {
      r := numbers[midIndex];
    } else {
      r := (numbers[midIndex - 1] + numbers[midIndex]) / 2.0;
    }
    assert r == MiddleValue(numbers[..]);
    MiddleValueSplits(numbers[..]);
    SortedMinMax(numbers[..]);
    PermutationMinMax(numbers[..], old(numbers[..]));
  }

  // ---------------------------------------------------------------- mode

  /**
   * The counting loop of `mode`: a frequency dictionary, given as its entries
   * `frequency` and its keys in insertion order `keys`.
   */
  method Frequencies(numbers: seq<real>) returns (frequency: map<real, nat>, keys: seq<real>)
    ensures Counts(frequency, numbers)
    ensures forall v :: v in keys <==> v in numbers
    ensures NoDuplicates(keys)
    ensures InFirstAppearanceOrder(keys, numbers)
  {
    frequency, keys := map[], [];
    var i := 0;
    CountingStart(numbers);
    while i < |numbers|
      invariant CountedSoFar(frequency, keys, numbers, i)
    {
      var num := numbers[i];
      CountStep(frequency, keys, numbers, i);
      if num !in frequency {
        keys := keys + [num];
      }
      frequency := frequency[num := Get(frequency, num, 0) + 1];
      i := i + 1;
    }
    CountingDone(frequency, keys, numbers);
  }

  /** The count stored for `num`, or `default` when `num` is not a key. */
  function Get(frequency: map<real, nat>, num: real, default: nat): (r: nat)
    ensures num in frequency ==> r == frequency[num]
    ensures num !in frequency ==> r == default
  {
    if num in frequency then frequency[num] else default
  }

  /** `frequency` maps each value of `s`, and nothing else, to its number of occurrences. */
  ghost predicate Counts(frequency: map<real, nat>, s: seq<real>)
  {
    (forall v :: v in frequency <==> v in s) &&
    forall v :: v in frequency ==> frequency[v] == multiset(s)[v]
  }

  /** The invariant of the counting loop after the first `i` marks. */
  ghost predicate CountedSoFar(frequency: map<real, nat>, keys: seq<real>, numbers: seq<real>, i: nat)
  {
    i <= |numbers| &&
    Counts(frequency, numbers[..i]) &&
    (forall v :: v in keys <==> v in frequency) &&
    NoDuplicates(keys) && OrderedBefore(keys, numbers, i)
  }

  /** Counting one more value `num` adds one to its entry, or enters it with count 1. */
  lemma CountOneMore(frequency: map<real, nat>, s: seq<real>, num: real)
    requires Counts(frequency, s)
    ensures Counts(frequency[num := Get(frequency, num, 0) + 1], s + [num])
  {
    assert multiset(s + [num]) == multiset(s) + multiset{num};
  }

  /** One turn of the counting loop keeps its invariant. */
  lemma CountStep(frequency: map<real, nat>, keys: seq<real>, numbers: seq<real>, i: nat)
    requires i < |numbers| && CountedSoFar(frequency, keys, numbers, i)
    ensures numbers[i] in frequency ==>
      CountedSoFar(frequency[numbers[i] := Get(frequency, numbers[i], 0) + 1], keys, numbers, i + 1)
    ensures numbers[i] !in frequency ==>
      CountedSoFar(frequency[numbers[i] := Get(frequency, numbers[i], 0) + 1], keys + [numbers[i]], numbers, i + 1)
  {
    var num := numbers[i];
    assert numbers[..i + 1] == numbers[..i] + [num];
    if num !in frequency {
      FirstOccurrence(numbers, i);
      AppendFirstOccurrence(keys, numbers, i);
    } else {
      assert OrderedBefore(keys, numbers, i + 1);
    }
    CountOneMore(frequency, numbers[..i], num);
  }

  /** Before the loop, the empty dictionary has counted no marks. */
  lemma CountingStart(numbers: seq<real>)
    ensures CountedSoFar(map[], [], numbers, 0)
  {
  }

  /** When the loop has seen every mark, the dictionary counts all of them. */
  lemma CountingDone(frequency: map<real, nat>, keys: seq<real>, numbers: seq<real>)
    requires CountedSoFar(frequency, keys, numbers, |numbers|)
    ensures Counts(frequency, numbers)
    ensures forall v :: v in keys <==> v in numbers
    ensures NoDuplicates(keys)
    ensures InFirstAppearanceOrder(keys, numbers)
  {
    assert numbers[..|numbers|] == numbers;
  }

  /**
   * The largest count in `frequency`, or 0 when it has no keys, visiting the entries in the
   * dictionary's order `keys`.
   */
  method MaxFrequency(frequency: map<real, nat>, keys: seq<real>) returns (m: nat)
    requires forall v :: v in frequency <==> v in keys
    ensures forall v :: v in frequency ==> frequency[v] <= m
    ensures |keys| == 0 ==> m == 0
    ensures |keys| > 0 ==> exists v :: v in frequency && frequency[v] == m
  {
    KeysInMap(frequency, keys);
    m := 0;
    var j := 0;
    while j < |keys|
      invariant 0 <= j <= |keys|
      invariant forall k :: 0 <= k < j ==> frequency[keys[k]] <= m
      invariant j == 0 ==> m == 0
      invariant j > 0 ==> exists k :: 0 <= k < j && frequency[keys[k]] == m
    {
      if frequency[keys[j]] > m {
        m := frequency[keys[j]];
      }
      j := j + 1;
    }
    if |keys| > 0 {
      var k :| 0 <= k < |keys| && frequency[keys[k]] == m;
      var v := keys[k];
      assert v in frequency && frequency[v] == m;
    }
  }

  /** Every listed key of a dictionary is in it. */
  lemma KeysInMap(frequency: map<real, nat>, keys: seq<real>)
    requires forall v :: v in keys ==> v in frequency
    ensures forall k :: 0 <= k < |keys| ==> keys[k] in frequency
  {
    forall k | 0 <= k < |keys| ensures keys[k] in frequency {
      var key := keys[k];
      assert key in keys;
    }
  }

  /**
   * The keys whose count is `maxFrequency`, in the dictionary's order `keys`.
   */
  method KeysWithCount(frequency: map<real, nat>, keys: seq<real>, maxFrequency: nat)
    returns (selected: seq<real>)
    requires forall v :: v in frequency <==> v in keys
    requires NoDuplicates(keys)
    ensures forall v :: v in selected <==> v in frequency && frequency[v] == maxFrequency
    ensures NoDuplicates(selected)
    ensures InFirstAppearanceOrder(selected, keys)
  {
    KeysInMap(frequency, keys);
    selected := [];
    var j := 0;
    while j < |keys|
      invariant 0 <= j <= |keys|
      invariant forall v :: v in selected <==> v in keys[..j] && frequency[v] == maxFrequency
      invariant OrderedBefore(selected, keys, j)
      invariant NoDuplicates(selected)
    {
      var key := keys[j];
      assert keys[..j + 1] == keys[..j] + [key];
      if frequency[key] == maxFrequency {
        FirstOccurrence(keys, j);
        AppendFirstOccurrence(selected, keys, j);
        selected := selected + [key];
      } else {
        assert OrderedBefore(selected, keys, j + 1);
      }
      j := j + 1;
    }
    assert keys[..j] == keys;
  }

  /** `v` occurs in `numbers`, and no mark occurs more often. */
  predicate MostFrequent(v: real, numbers: seq<real>)
  {
    v in numbers && forall w :: w in numbers ==> multiset(numbers)[w] <= multiset(numbers)[v]
  }

  /** With exact counts, the keys whose count is the largest are the most frequent marks. */
  lemma MaxCountIsMostFrequent(numbers: seq<real>, frequency: map<real, nat>, maxFrequency: nat)
    requires forall v :: v in frequency <==> v in numbers
    requires forall v :: v in frequency ==> frequency[v] == multiset(numbers)[v]
    requires forall v :: v in frequency ==> frequency[v] <= maxFrequency
    requires exists v :: v in frequency && frequency[v] == maxFrequency
    ensures forall v :: v in frequency && frequency[v] == maxFrequency <==> MostFrequent(v, numbers)
  {
  }

  /** Picking keys in their dictionary order keeps the order of first appearance. */
  lemma SubsequenceOrder(numbers: seq<real>, keys: seq<real>, selected: seq<real>)
    requires InFirstAppearanceOrder(keys, numbers)
    requires InFirstAppearanceOrder(selected, keys)
    ensures InFirstAppearanceOrder(selected, numbers)
  {
    forall a, b | 0 <= a < b < |selected|
      ensures FirstIndex(numbers, selected[a]) < FirstIndex(numbers, selected[b])
    {
      var i, j := FirstIndex(keys, selected[a]), FirstIndex(keys, selected[b]);
      assert keys[i] == selected[a] && keys[j] == selected[b];
    }
  }

  /**
   * `modes` holds every most frequent mark of `numbers` and nothing else, each
   * once, in order of first appearance.
   */
  ghost predicate ModeList(modes: seq<real>, numbers: seq<real>)
  {
    NoDuplicates(modes) &&
    (forall v :: v in modes <==> MostFrequent(v, numbers)) &&
    InFirstAppearanceOrder(modes, numbers)
  }

  /** There is only one such list, so the contract of `Mode` fixes its result. */
  lemma ModeListUnique(a: seq<real>, b: seq<real>, numbers: seq<real>)
    requires ModeList(a, numbers) && ModeList(b, numbers)
    ensures a == b
  {
    FirstAppearanceOrderUnique(a, b, numbers);
  }

  /**
   * The most frequent marks: `None` for no marks, otherwise every mark whose
   * number of occurrences is the largest, once each, in order of first appearance.
   */
  method Mode(numbers: seq<real>) returns (r: Option<seq<real>>)
    ensures r.None? <==> |numbers| == 0
    ensures r.Some? ==> |r.value| > 0 && ModeList(r.value, numbers)
  {
    if |numbers| == 0 {
      return None;
    }
    var frequency, keys := Frequencies(numbers);
    var first := numbers[0];
    assert first in numbers && first in frequency;
    var maxFrequency := MaxFrequency(frequency, keys);
    var modes := KeysWithCount(frequency, keys, maxFrequency);
    var v0 :| v0 in frequency && frequency[v0] == maxFrequency;
    assert v0 in modes;
    MaxCountIsMostFrequent(numbers, frequency, maxFrequency);
    SubsequenceOrder(numbers, keys, modes);
    r := Some(modes);
  }

  // ------------------------------------------------------------ skewness

  /** `x ** 2`. */
  function Square(x: real): real
  {
    x * x
  }

  /** `x ** 3`. */
  function Cube(x: real): real
  {
    x * x * x
  }

  /** The sum of the squared deviations of the marks from `c`. */
  function SumSquaredDeviations(data: seq<real>, c: real): real
  {
    if |data| == 0 then 0.0 else Square(data[0] - c) + SumSquaredDeviations(data[1..], c)
  }

  /** The sum of the cubed deviations of the marks from `c`. */
  function SumCubedDeviations(data: seq<real>, c: real): real
  {
    if |data| == 0 then 0.0 else Cube(data[0] - c) + SumCubedDeviations(data[1..], c)
  }

  /** `m2`: the mean squared deviation from the mean (the population variance). */
  function SecondMoment(data: seq<real>): (r: real)
    requires |data| > 0
    ensures r * |data| as real == SumSquaredDeviations(data, Mean(data))
  {
    QuotientTimes(SumSquaredDeviations(data, Mean(data)), |data| as real);
    SumSquaredDeviations(data, Mean(data)) / |data| as real
  }

  /** `m3`: the mean cubed deviation from the mean. */
  function ThirdMoment(data: seq<real>): (r: real)
    requires |data| > 0
    ensures r * |data| as real == SumCubedDeviations(data, Mean(data))
  {
    QuotientTimes(SumCubedDeviations(data, Mean(data)), |data| as real);
    SumCubedDeviations(data, Mean(data)) / |data| as real
  }

  /**
   * Skewness `m3 / m2 ** 1.5`, with `pow15` standing for `x ** 1.5`. `None` when
   * there are fewer than three marks (before any moment is computed) and when
   * `m2` is 0.
   */
  function Skewness(data: seq<real>, pow15: real -> real): (r: Option<real>)
    requires forall x :: 0.0 < x ==> 0.0 < pow15(x)
    ensures |data| < 3 ==> r == None
    ensures |data| >= 3 ==> (r == None <==> AllEqual(data))
    ensures r.Some? ==> 0.0 < SecondMoment(data) && r.value * pow15(SecondMoment(data)) == ThirdMoment(data)
    ensures r.Some? ==> (0.0 < r.value <==> 0.0 < ThirdMoment(data))
    ensures r.Some? ==> (r.value == 0.0 <==> ThirdMoment(data) == 0.0)
  {
    if |data| < 3 then None
    else
      var m3 := ThirdMoment(data);
      var m2 := SecondMoment(data);
      SecondMomentZero(data);
      if m2 == 0.0 then None
      else
        var p := pow15(m2);
        QuotientTimes(m3, p);
        QuotientSign(m3, p);
        Some(m3 / p)
  }

  /**
   * Positivity as a named fact. The solver cannot always carry `0.0 < d * d`
   * over to a term equal to `d * d`, such as `Square(d)`; a fact stated through
   * a predicate carries over to equal terms unaided.
   */
  predicate Positive(x: real) { 0.0 < x }

  /** The product of a non-zero number with itself is positive. */
  lemma ProductPositive(d: real)
    requires d != 0.0
    ensures Positive(d * d)
  {
  }

  /** The square of a non-zero number is positive. */
  lemma SquarePositive(d: real)
    requires d != 0.0
    ensures 0.0 < Square(d)
  {
    ProductPositive(d);
    assert Positive(Square(d));
  }

  /** Dividing by a positive number keeps the sign, and keeps 0. */
  lemma QuotientSign(s: real, n: real)
    requires 0.0 < n
    ensures 0.0 <= s ==> 0.0 <= s / n
    ensures 0.0 < s / n <==> 0.0 < s
    ensures s / n == 0.0 <==> s == 0.0
  {
  }

  /** `(a / b) * b == a` for a non-zero `b`. */
  lemma QuotientTimes(a: real, b: real)
    requires b != 0.0
    ensures (a / b) * b == a
  {
  }

  /** A sum of squares is never negative, and is 0 exactly when every term is. */
  lemma {:induction false} SumSquaredDeviationsZero(data: seq<real>, c: real)
    ensures 0.0 <= SumSquaredDeviations(data, c)
    ensures SumSquaredDeviations(data, c) == 0.0 <==> AllAre(data, c)
  {
    if |data| > 0 {
      SumSquaredDeviationsZero(data[1..], c);
      var d := data[0] - c;
      assert SumSquaredDeviations(data, c) == Square(d) + SumSquaredDeviations(data[1..], c);
      if d != 0.0 {
        SquarePositive(d);
        assert !AllAre(data, c) by { assert data[0] != c; }
      } else {
        assert Square(d) == 0.0 * 0.0;
        assert AllAre(data, c) <==> AllAre(data[1..], c) by {
          assert forall i :: 0 < i < |data| ==> data[i] == data[1..][i - 1];
        }
      }
    }
  }

  /** The mean of marks that all equal `c` is `c`. */
  lemma MeanOfConstant(data: seq<real>, c: real)
    requires |data| > 0 && AllAre(data, c)
    ensures Mean(data) == c
  {
    var n := |data| as real;
    SumBounds(data, c, c);
    CancelFactor(Sum(data), n, c);
  }

  /** `s / n == c` when `s == n * c` and `n` is positive. */
  lemma CancelFactor(s: real, n: real, c: real)
    requires 0.0 < n && s == n * c
    ensures s / n == c
  {
  }

  /** Over the reals, `m2` is 0 exactly when all the marks are equal, and positive otherwise. */
  lemma {:induction false} SecondMomentZero(data: seq<real>)
    requires |data| > 0
    ensures 0.0 <= SecondMoment(data)
    ensures SecondMoment(data) == 0.0 <==> AllEqual(data)
  {
    var mean := Mean(data);
    var s := SumSquaredDeviations(data, mean);
    SumSquaredDeviationsZero(data, mean);
    QuotientSign(s, |data| as real);
    if AllEqual(data) {
      assert AllAre(data, data[0]);
      MeanOfConstant(data, data[0]);
      assert AllAre(data, mean);
    } else {
      assert !AllAre(data, mean) by {
        if AllAre(data, mean) {
          assert AllEqual(data);
        }
      }
    }
  }

  // ----------------------------------------------- shifting every mark

  /** Moving every mark by `c` moves their average by `c`. */
  lemma MeanShift(s: seq<real>, c: real)
    requires |s| > 0
    ensures Mean(Shift(s, c)) == Mean(s) + c
  {
    SumShift(s, c);
    DivideShift(Sum(s), |s| as real, c);
  }

  lemma DivideShift(total: real, n: real, c: real)
    requires 0.0 < n
    ensures (total + n * c) / n == total / n + c
  {
  }

  /** Deviations are unchanged when the marks and the centre move together. */
  lemma {:induction false} DeviationsShift(s: seq<real>, m: real, c: real)
    ensures SumSquaredDeviations(Shift(s, c), m + c) == SumSquaredDeviations(s, m)
    ensures SumCubedDeviations(Shift(s, c), m + c) == SumCubedDeviations(s, m)
  {
    if |s| > 0 {
      ShiftTail(s, c);
      DeviationsShift(s[1..], m, c);
      assert Shift(s, c)[0] - (m + c) == s[0] - m;
    }
  }

  /** `m2` and `m3` measure spread about the mean, so moving every mark alike leaves them unchanged. */
  lemma MomentsShift(data: seq<real>, c: real)
    requires |data| > 0
    ensures SecondMoment(Shift(data, c)) == SecondMoment(data)
    ensures ThirdMoment(Shift(data, c)) == ThirdMoment(data)
  {
    MeanShift(data, c);
    DeviationsShift(data, Mean(data), c);
  }

  /** Skewness is a property of the shape of the marks: moving them all alike leaves it unchanged. */
  lemma SkewnessShift(data: seq<real>, c: real, pow15: real -> real)
    requires forall x :: 0.0 < x ==> 0.0 < pow15(x)
    ensures Skewness(Shift(data, c), pow15) == Skewness(data, pow15)
  {
    if |data| >= 3 {
      MomentsShift(data, c);
    }
  }

  // ------------------------------------------------------------- examples

  /** Marks 70, 80 and 90: mean 80, median 80 and, being symmetric, skewness 0. */
  lemma ThreeMarksExample(pow15: real -> real)
    requires forall x :: 0.0 < x ==> 0.0 < pow15(x)
    ensures Mean([70.0, 80.0, 90.0]) == 80.0
    ensures MiddleValue([70.0, 80.0, 90.0]) == 80.0
    ensures Skewness([70.0, 80.0, 90.0], pow15) == Some(0.0)
  {
    var data := [70.0, 80.0, 90.0];
    assert Sum(data) == 240.0 by {
      assert data[1..] == [80.0, 90.0];
      assert data[1..][1..] == [90.0];
    }
    assert SumCubedDeviations(data, 80.0) == 0.0 by {
      assert data[1..] == [80.0, 90.0];
      assert data[1..][1..] == [90.0];
    }
  }
}
