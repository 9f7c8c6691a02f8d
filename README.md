# Student marks statistics, modelled in Dafny

The student marks calculator (`studentsmarks1.py`) collects a list of marks and
reports four statistics computed from it: `mean`, `median`, `mode` and
`calculate_skewness`. This project models those four functions and proves
what each one computes.

- `wrappers.dfy`, module `Wrappers`: `Option`, which stands for Python's `None`
  or a value.
- `seqs.dfy`, module `Seqs`: sequences of marks. It holds the sum, the
  minimum and maximum, sortedness, first occurrences, and the lemmas about
  them, such as the uniqueness of a sorted arrangement.
- `statistics.dfy`, module `Statistics`: the four statistics.
  - `mean` is a function.
  - `median` is a method over an `array<real>`. Like `median` in studentsmarks1.py,
    it sorts the caller's list in place.
  - `mode` is a method. Its counting loop fills a `map<real, nat>` plus the
    sequence of keys in insertion order (the dictionary). A second loop finds
    the maximum count, and a third keeps the keys that have it.
  - `calculate_skewness` is the function `Skewness`. It keeps the two early
    returns and the moments `m2` and `m3`.

Marks are Dafny `real`s, so all the arithmetic is exact.

The fractional power `m2 ** 1.5` is the parameter `pow15`. The only thing
assumed about it is that it maps positive numbers to positive numbers.
`Skewness` therefore promises `r * pow15(m2) == m3` rather than a closed form.

`get_marks` takes one number per entry and has no minimum count; `main`
offers six options; `median` sorts the caller's list in place; `mode` lists
its modes in order of first appearance. The model follows the code.

## Model

| member | source | states |
|---|---|---|
| Statistics.Mean | studentsmarks1.py:6-11 | the mean of no marks is 0 |
| Seqs.Sum | studentsmarks1.py:11 | Python's `sum` over exact reals: 0 for no marks, otherwise the first mark plus the sum of the rest |
| Seqs.SumAppend | studentsmarks1.py:11 | the sum of a concatenation is the sum of the parts, so the recursive sum equals Python's left-to-right accumulation `Sum(a + [x]) == Sum(a) + x` |
| Statistics.MeanTimesCount | studentsmarks1.py:11 | for a non-empty list, `len(numbers) * mean(numbers) == sum(numbers)` |
| Statistics.MeanBounds | studentsmarks1.py:11 | for a non-empty list, if every mark lies in `[lo, hi]`, so does the mean |
| Statistics.MeanBetweenMinMax | studentsmarks1.py:11 | the mean of a non-empty list lies between its minimum and maximum |
| Statistics.MeanShift | studentsmarks1.py:11 | for a non-empty list, adding `c` to every mark adds `c` to the mean |
| Statistics.Sort | studentsmarks1.py:20 | sorting leaves the array ascending and a permutation (same multiset) of what it held |
| Statistics.MiddleValue | studentsmarks1.py:21-22 | twice the selected value is the sum of the elements at `(n - 1) // 2` and `n // 2`: for odd `n` the single middle element, for even `n` the average of the two middle elements |
| Seqs.SortedPermutationUnique | studentsmarks1.py:20 | two ascending arrangements of the same multiset are equal, so any correct sort gives the list `list.sort()` gives |
| Statistics.MiddleValueSplits | studentsmarks1.py:21-22 | in an ascending list, the value picked at `len // 2` (or the average of the two middle ones) is at least every mark of the lower half and at most every mark of the upper half |
| Statistics.MiddleValueOfPermutation | studentsmarks1.py:20-22 | the median depends only on the multiset of marks |
| Statistics.Median | studentsmarks1.py:13-22 | empty list: returns 0 and leaves the list unchanged; otherwise the list ends sorted and a permutation of the input, the result is the element at `n // 2` for odd `n` or the average of the elements at `n // 2 - 1` and `n // 2` for even `n`, and it lies between the input's minimum and maximum |
| Statistics.Frequencies | studentsmarks1.py:31-33 | after the counting loop, the keys are exactly the distinct marks, each mapped to its number of occurrences; the keys are listed once each, in order of first appearance (dict insertion order) |
| Statistics.Get | studentsmarks1.py:33 | the stored count of a key, or the default when the value is not a key, as `dict.get` gives |
| Statistics.CountOneMore | studentsmarks1.py:33 | adding one to the stored count of `num` (0 when it is not yet a key) keeps the map an exact count of the marks seen so far |
| Statistics.MaxFrequency | studentsmarks1.py:34 | the largest count is an upper bound on every count and is attained by some key, or is 0 when there are no keys |
| Statistics.KeysWithCount | studentsmarks1.py:35 | the comprehension keeps exactly the keys whose count equals the maximum, once each, in dictionary order |
| Statistics.MaxCountIsMostFrequent | studentsmarks1.py:34-35 | a key has the maximum count exactly when no mark occurs more often |
| Statistics.Mode | studentsmarks1.py:24-35 | `None` exactly for the empty list; otherwise a non-empty list of exactly the most frequent marks, without duplicates, in order of first appearance |
| Statistics.ModeListUnique | studentsmarks1.py:35 | only one list meets the contract of `Mode`, so that contract fixes the result |
| Seqs.FirstAppearanceOrderUnique | studentsmarks1.py:31-35 | distinct values listed in order of first appearance are fixed by which values they are |
| Statistics.Skewness | studentsmarks1.py:37-48 | `None` for fewer than 3 marks; with 3 or more, `None` exactly when all marks are equal; otherwise `m2 > 0`, the value times `pow15(m2)` is `m3`, and the value has the sign of `m3` |
| Statistics.ThirdMoment | studentsmarks1.py:43 | `m3` times the number of marks is the sum of the cubed deviations from the mean |
| Statistics.SecondMoment | studentsmarks1.py:44 | `m2` times the number of marks is the sum of the squared deviations from the mean |
| Statistics.SumSquaredDeviationsZero | studentsmarks1.py:44 | a sum of squared deviations from `c` is never negative, and is 0 exactly when every mark equals `c` |
| Statistics.MeanOfConstant | studentsmarks1.py:42 | the mean of a non-empty list whose marks all equal `c` is `c` |
| Statistics.SecondMomentZero | studentsmarks1.py:44-46 | `m2 >= 0`, and `m2 == 0` exactly when all marks are equal (the guard at line 45) |
| Statistics.MomentsShift | studentsmarks1.py:42-44 | adding `c` to every mark leaves `m2` and `m3` unchanged |
| Statistics.SkewnessShift | studentsmarks1.py:37-48 | adding `c` to every mark leaves the skewness result unchanged |
| Statistics.ThreeMarksExample | studentsmarks1.py:6-48 | for marks 70, 80, 90 the mean and the median are 80 and the skewness is 0 |

## Left out

- `get_marks` (studentsmarks1.py:50-65): console input through `input()`, `str.lower()` and `float()`, which are outside the model.
- `display_menu` and `main` (studentsmarks1.py:67-103): printing and the interactive six-option dispatch; there is no computation to model.
- Floating point: marks are exact reals, not IEEE doubles. With doubles, the computed mean of equal marks can be off by a rounding error, so `m2` can come out tiny but non-zero. The model's "`m2 == 0` exactly when all marks are equal" only holds for exact arithmetic. In the other direction, a positive `m2` below about 2e-216 (marks `[0, 0, 1e-108]`, say) makes `m2 ** 1.5` underflow to `0.0`, and studentsmarks1.py:47 then raises `ZeroDivisionError`; `Skewness` assumes `pow15` is positive on positive inputs and returns a value there. Python's float `**` raises `OverflowError` when a power is too large, for example the cube of a deviation above about 5.6e102 at studentsmarks1.py:43 (marks `[0, 0, 1e103]`); the model has no overflow. `float()` at studentsmarks1.py:62 accepts `"nan"` and `"inf"`, so non-finite marks can reach the statistics; the model's marks are all finite.
- Statistics.Skewness: `m2 ** 1.5` is the parameter `pow15`, assumed only to be positive on positive inputs. The result is stated as `r * pow15(m2) == m3`, not as a closed form.
- Python returns the integer `0` for the mean and median of an empty list; the model returns `0.0`.
- `list.sort()` is modelled by an insertion sort, `Statistics.Sort`. Its contract (ascending, same multiset) is all that `median` relies on, and `Seqs.SortedPermutationUnique` shows any such sort gives the same list.
- Statistics.Mode: the input is a value (`seq<real>`), so the promise that `mode` does not change its argument holds by construction and is not stated.
- Dictionary keys are compared as exact reals. Python's hashing of floats (for example `1` and `1.0` as one key) agrees with that. Its treatment of `NaN` is not modelled.
