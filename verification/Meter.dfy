/** The level meter of terminal-model/src/pcm_extract.rs: a windowed median of AC levels. */
module Meter {

  // ---- the square root ----

  const U64_SIZE: int := 0x1_0000_0000_0000_0000

  newtype u64 = x: int | 0 <= x < 0x1_0000_0000_0000_0000

  predicate IsFloorSqrt(r: int, v: int) {
    0 <= r && r * r <= v < (r + 1) * (r + 1)
  }

  /** There is only one floor square root. */
  lemma FloorSqrtIsUnique(r: int, s: int, v: int)
    requires IsFloorSqrt(r, v) && IsFloorSqrt(s, v)
    ensures r == s
  {
    if r < s {
      SquareGrows(r + 1, s);
      assert false;
    }
    if s < r {
      SquareGrows(s + 1, r);
      assert false;
    }
  }

  lemma SquareGrows(a: int, b: int)
    requires 0 <= a <= b
    ensures a * a <= b * b
  {
    assert b * b - a * a == (b - a) * (b + a);
  }

  /** Twice the mean, squared, is at least four times the product. */
  lemma SquareOfSum(x: int, p: int)
    ensures (x + p) * (x + p) >= 4 * (p * x)
  {
    assert (x + p) * (x + p) == x * x + 2 * (p * x) + p * p;
    assert (x - p) * (x - p) == x * x - 2 * (p * x) + p * p;
    SquareIsNat(x - p);
  }

  lemma SquareIsNat(d: int)
    ensures d * d >= 0
  {
  }

  lemma SquareOfDouble(z: int)
    ensures (2 * z) * (2 * z) == 4 * (z * z)
  {
  }

  /** Newton's step from `x` lands at or above the root. */
  lemma NewtonStaysAbove(v: int, x: int, q: int, y: int)
    requires 0 < x && 0 <= q && v < (q + 1) * x && x + q <= 2 * y + 1 && 0 <= y
    ensures v < (y + 1) * (y + 1)
  {
    SquareOfSum(x, q + 1);
    SquareGrows(x + (q + 1), 2 * (y + 1));
    SquareOfDouble(y + 1);
  }

  /** A step that does not go down has arrived. */
  lemma NewtonArrives(v: int, x: int, q: int)
    requires 0 < x && x <= q && q * x <= v
    ensures x * x <= v
  {
    assert (q - x) * x >= 0;
  }

  /** The guess, added to its quotient, stays within 64 bits. */
  lemma NewtonFits(v: int, x: int, q: int)
    requires 0 < x <= 0x8000_0000_0000_0000 && v < U64_SIZE && q * x <= v < (x + 1) * (x + 1)
    ensures x + q < U64_SIZE
  {
    if q >= x + 3 {
      MulAtLeast(q, x, x + 3, x);
      assert false;
    }
    if x >= 0x2_0000_0000 && q >= 0x1_0000_0000 {
      MulAtLeast(q, x, 0x1_0000_0000, 0x2_0000_0000);
      assert false;
    }
  }

  lemma MulAtLeast(a: int, b: int, c: int, d: int)
    requires a >= c >= 0 && b >= d >= 0
    ensures a * b >= c * d
  {
    assert a * b >= c * b;
    assert c * b >= c * d;
  }

  lemma DivisionBounds(v: int, x: int)
    requires 0 <= v && 0 < x
    ensures v / x * x <= v < (v / x + 1) * x && 0 <= v / x
  {
    assert v == x * (v / x) + v % x;
    assert (v / x + 1) * x == v / x * x + x;
  }

  lemma FirstGuess(v: int, y: int)
    requires 0 < v && v <= 2 * y
    ensures v < (y + 1) * (y + 1)
  {
    assert (y + 1) * (y + 1) == y * y + 2 * y + 1;
  }

  lemma AboveIsPositive(v: int, y: int)
    requires 0 < v < (y + 1) * (y + 1) && 0 <= y
    ensures 0 < y
  {
  }

  lemma SelfQuotient(v: int)
    requires 0 < v
    ensures v / v == 1 && v < (v + 1) * (v + 1)
  {
    DivisionBounds(v, v);
    assert (v + 1) * (v + 1) == v * v + 2 * v + 1;
    assert (v / v - 1) * v >= -v + 1 && (v / v - 1) * v <= 0;
  }

  /** Exact for every 64-bit value, without overflow. */
  method IntegerSqrt(value: u64) returns (r: u64)
    ensures IsFloorSqrt(r as int, value as int)
  {
    if value == 0 {
      return 0;
    }
    var x := value;
    var y := x / 2 + x % 2;
    FirstGuess(value as int, y as int);
    SelfQuotient(value as int);
    AboveIsPositive(value as int, y as int);
    while y < x
      invariant 0 < x && 0 < y && y <= 0x8000_0000_0000_0000
      invariant (value as int) < (x as int + 1) * (x as int + 1)
      invariant (value as int) < (y as int + 1) * (y as int + 1)
      invariant y as int == (x as int + value as int / x as int) / 2
      decreases x
    {
      x := y;
      DivisionBounds(value as int, x as int);
      NewtonFits(value as int, x as int, value as int / x as int);
      y := (x + value / x) / 2;
      NewtonStaysAbove(value as int, x as int, value as int / x as int, y as int);
      AboveIsPositive(value as int, y as int);
    }
    DivisionBounds(value as int, x as int);
    NewtonArrives(value as int, x as int, value as int / x as int);
    r := x;
  }

  // ---- one window ----

  /** Signed division in the source's language truncates toward zero. */
  function TruncDiv(a: int, n: int): int
    requires n > 0
  {
    if a >= 0 then a / n else -((-a) / n)
  }

  function Sum(s: seq<int>): int {
    if s == [] then 0 else Sum(s[..|s| - 1]) + s[|s| - 1]
  }

  function SumSquares(s: seq<int>, mean: int): (r: nat) {
    if s == [] then 0
    else
      var d := s[|s| - 1] - mean;
      SquareIsNat(d);
      SumSquares(s[..|s| - 1], mean) + d * d
  }

  function Mean(s: seq<int>): int
    requires s != []
  {
    TruncDiv(Sum(s), |s|)
  }

  /** The floor square root, by search; `IntegerSqrt` computes the same number. */
  function FloorSqrt(v: nat): (r: nat)
    ensures IsFloorSqrt(r, v)
  {
    if v == 0 then 0
    else
      var r := FloorSqrt(v - 1);
      if (r + 1) * (r + 1) <= v then r + 1 else r
  }

  /** The root of a mean of `n` squares. */
  function MeanRoot(squares: nat, n: nat): (r: nat)
    requires n > 0
    ensures IsFloorSqrt(r, squares / n)
  {
    FloorSqrt(squares / n)
  }

  /** The level of one window: its RMS around its own mean. */
  function WindowLevel(s: seq<int>): nat
    requires s != []
  {
    MeanRoot(SumSquares(s, Mean(s)), |s|)
  }

  predicate Samples16(s: seq<int>) {
    forall i :: 0 <= i < |s| ==> -0x8000 <= s[i] < 0x8000
  }

  lemma {:induction false} SumBounds(s: seq<int>)
    requires Samples16(s)
    ensures -0x8000 * |s| <= Sum(s) <= 0x7FFF * |s|
  {
    if s != [] {
      SumBounds(s[..|s| - 1]);
    }
  }

  lemma TruncBounds(a: int, n: int, lo: int, hi: int)
    requires n > 0 && lo <= 0 <= hi && lo * n <= a <= hi * n
    ensures lo <= TruncDiv(a, n) <= hi
  {
    if a >= 0 {
      QuotientBound(a, n, hi);
    } else {
      assert -a <= (-lo) * n;
      QuotientBound(-a, n, -lo);
    }
  }

  lemma QuotientBound(a: int, n: int, hi: int)
    requires n > 0 && 0 <= a <= hi * n
    ensures 0 <= a / n <= hi
  {
    assert a == n * (a / n) + a % n;
    if a / n > hi {
      MulAtLeast(a / n, n, hi + 1, n);
      assert false;
    }
  }

  lemma {:induction false} SumSquaresBound(s: seq<int>, mean: int)
    requires Samples16(s) && -0x8000 <= mean < 0x8000
    ensures SumSquares(s, mean) <= 0xFFFF * 0xFFFF * |s|
  {
    if s != [] {
      SumSquaresBound(s[..|s| - 1], mean);
      DeviationBound(s[|s| - 1] - mean);
    }
  }

  lemma DeviationBound(d: int)
    requires -0xFFFF <= d <= 0xFFFF
    ensures d * d <= 0xFFFF * 0xFFFF
  {
    if d >= 0 {
      SquareGrows(d, 0xFFFF);
    } else {
      SquareGrows(-d, 0xFFFF);
      assert (-d) * (-d) == d * d;
    }
  }

  /** A level of 16-bit samples is below 2^16, so it survives the cast to 32 bits. */
  lemma LevelFits(s: seq<int>)
    requires s != [] && Samples16(s)
    ensures WindowLevel(s) <= 0xFFFF
  {
    SumBounds(s);
    TruncBounds(Sum(s), |s|, -0x8000, 0x7FFF);
    SumSquaresBound(s, Mean(s));
    var v := SumSquares(s, Mean(s)) / |s|;
    QuotientBound(SumSquares(s, Mean(s)), |s|, 0xFFFF * 0xFFFF);
    if FloorSqrt(v) > 0xFFFF {
      SquareGrows(0x1_0000, FloorSqrt(v));
      assert false;
    }
  }

  // ---- the median ----

  predicate IsSorted(s: seq<nat>) {
    forall i, j :: 0 <= i < j < |s| ==> s[i] <= s[j]
  }

  function Insert(x: nat, s: seq<nat>): (r: seq<nat>)
    ensures |r| == |s| + 1
  {
    if s == [] || x <= s[0] then [x] + s else [s[0]] + Insert(x, s[1..])
  }

  function Sort(s: seq<nat>): (r: seq<nat>)
    ensures |r| == |s|
  {
    if s == [] then [] else Insert(s[0], Sort(s[1..]))
  }

  lemma {:induction false} InsertKeeps(x: nat, s: seq<nat>)
    requires IsSorted(s)
    ensures IsSorted(Insert(x, s))
  {
    if s == [] || x <= s[0] {
    } else {
      var rest := Insert(x, s[1..]);
      InsertKeeps(x, s[1..]);
      InsertHead(x, s[1..], s[0]);
      Prepend(s[0], rest);
    }
  }

  lemma Prepend(low: nat, s: seq<nat>)
    requires IsSorted(s) && s != [] && low <= s[0]
    ensures IsSorted([low] + s)
  {
  }

  lemma {:induction false} InsertAdds(x: nat, s: seq<nat>)
    ensures multiset(Insert(x, s)) == multiset(s) + multiset{x}
  {
    if s == [] || x <= s[0] {
    } else {
      InsertAdds(x, s[1..]);
      assert s == [s[0]] + s[1..];
    }
  }

  lemma InsertHead(x: nat, s: seq<nat>, low: nat)
    requires low < x && (s == [] || low <= s[0])
    ensures low <= Insert(x, s)[0]
  {
  }

  lemma {:induction false} SortSorts(s: seq<nat>)
    ensures IsSorted(Sort(s)) && multiset(Sort(s)) == multiset(s)
  {
    if s != [] {
      SortSorts(s[1..]);
      InsertKeeps(s[0], Sort(s[1..]));
      InsertAdds(s[0], Sort(s[1..]));
      assert s == [s[0]] + s[1..];
    }
  }

  function Median(values: seq<nat>): nat {
    if values == [] then 0 else Sort(values)[|values| / 2]
  }

  /** What inserting does to each position of a sorted sequence. */
  lemma {:induction false} InsertAt(x: nat, s: seq<nat>, k: nat)
    requires IsSorted(s) && k <= |s|
    ensures Insert(x, s)[k] ==
            if k > 0 && x <= s[k - 1] then s[k - 1] else if k == |s| || x <= s[k] then x else s[k]
  {
    if s == [] || x <= s[0] {
    } else if k > 0 {
      InsertAt(x, s[1..], k - 1);
    }
  }

  lemma {:induction false} InsertsCommute(x: nat, y: nat, s: seq<nat>)
    ensures Insert(x, Insert(y, s)) == Insert(y, Insert(x, s))
  {
    if s == [] || x <= s[0] || y <= s[0] {
    } else {
      InsertsCommute(x, y, s[1..]);
    }
  }

  /** Where an element stands does not matter to the sorted order. */
  lemma {:induction false} SortPullsOut(s: seq<nat>, w: nat)
    requires w < |s|
    ensures Sort(s) == Insert(s[w], Sort(Without(s, w)))
  {
    if w == 0 {
      assert Without(s, 0) == s[1..];
    } else {
      SortPullsOut(s[1..], w - 1);
      var rest := Without(s, w);
      assert rest[0] == s[0] && rest[1..] == Without(s[1..], w - 1);
      InsertsCommute(s[0], s[w], Sort(rest[1..]));
    }
  }

  function Without<T>(s: seq<T>, w: nat): (r: seq<T>)
    requires w < |s|
    ensures |r| == |s| - 1
  {
    s[..w] + s[w + 1..]
  }

  /** With seven values fixed, the eighth moves the median only between the fourth and the
      fifth smallest of the seven. */
  lemma MedianOfEight(s: seq<nat>, w: nat)
    requires |s| == 8 && w < 8
    ensures var others := Sort(Without(s, w)); others[3] <= Median(s) <= others[4]
  {
    SortPullsOut(s, w);
    SortSorts(Without(s, w));
    InsertAt(s[w], Sort(Without(s, w)), 4);
  }

  // ---- the windows of a chunk ----

  const LEVEL_WINDOWS: nat := 8

  function WindowStart(len: nat, w: nat): nat {
    w * len / 8
  }

  lemma WindowsAreOrdered(len: nat, w: nat)
    ensures WindowStart(len, w) <= WindowStart(len, w + 1)
    ensures len >= LEVEL_WINDOWS ==> WindowStart(len, w) < WindowStart(len, w + 1)
    ensures WindowStart(len, 0) == 0 && WindowStart(len, LEVEL_WINDOWS) == len
  {
    assert (w + 1) * len == w * len + len;
  }

  /** The eight windows are as equal as can be: none differs from an eighth by a sample. */
  lemma WindowsAreEven(len: nat, w: nat)
    ensures var size := WindowStart(len, w + 1) - WindowStart(len, w);
            len / 8 <= size <= len / 8 + 1
  {
    assert (w + 1) * len == w * len + len;
  }

  lemma {:induction false} WindowsInside(len: nat, v: nat, w: nat)
    requires v <= w
    ensures WindowStart(len, v) <= WindowStart(len, w)
    decreases w
  {
    if v < w {
      WindowsInside(len, v, w - 1);
      WindowsAreOrdered(len, w - 1);
    }
  }

  lemma WindowBounds(len: nat, w: nat)
    requires w < LEVEL_WINDOWS
    ensures WindowStart(len, w) <= WindowStart(len, w + 1) <= len
  {
    WindowsAreOrdered(len, w);
    WindowsInside(len, w + 1, LEVEL_WINDOWS);
  }

  function Window(s: seq<int>, w: nat): seq<int>
    requires w < LEVEL_WINDOWS
  {
    WindowBounds(|s|, w);
    s[WindowStart(|s|, w)..WindowStart(|s|, w + 1)]
  }

  /** The non-empty ones of the first `n` windows. */
  function Windows(s: seq<int>, n: nat): (r: seq<seq<int>>)
    requires n <= LEVEL_WINDOWS
    ensures |r| <= n && NoneEmpty(r)
  {
    if n == 0 then []
    else if Window(s, n - 1) == [] then Windows(s, n - 1)
    else Windows(s, n - 1) + [Window(s, n - 1)]
  }

  predicate NoneEmpty(windows: seq<seq<int>>) {
    forall i :: 0 <= i < |windows| ==> windows[i] != []
  }

  function LevelsOf(windows: seq<seq<int>>): (r: seq<nat>)
    requires NoneEmpty(windows)
    ensures |r| == |windows|
  {
    seq(|windows|, i requires 0 <= i < |windows| => WindowLevel(windows[i]))
  }

  /** The levels of the first `n` windows, empty ones skipped. */
  function Levels(s: seq<int>, n: nat): (r: seq<nat>)
    requires n <= LEVEL_WINDOWS
    ensures |r| <= n
  {
    LevelsOf(Windows(s, n))
  }

  lemma LevelsSnoc(windows: seq<seq<int>>, window: seq<int>)
    requires NoneEmpty(windows) && window != []
    ensures NoneEmpty(windows + [window])
    ensures LevelsOf(windows + [window]) == LevelsOf(windows) + [WindowLevel(window)]
  {
  }

  lemma LevelsNext(s: seq<int>, w: nat, start: nat, end: nat)
    requires w < LEVEL_WINDOWS && start == WindowStart(|s|, w) && end == WindowStart(|s|, w + 1)
    ensures start <= end <= |s|
    ensures Levels(s, w + 1) == if start < end then Levels(s, w) + [WindowLevel(s[start..end])] else Levels(s, w)
  {
    WindowBounds(|s|, w);
    assert Window(s, w) == s[start..end];
    if start < end {
      LevelsSnoc(Windows(s, w), s[start..end]);
    }
  }

  function Meter(s: seq<int>): nat {
    if s == [] then 0 else Median(Levels(s, LEVEL_WINDOWS))
  }

  method WindowSum(s: seq<int>, start: nat, end: nat) returns (sum: int)
    requires start <= end <= |s|
    ensures sum == Sum(s[start..end])
  {
    sum := 0;
    var i := start;
    while i < end
      invariant start <= i <= end && sum == Sum(s[start..i])
    {
      assert s[start..i + 1][..i - start] == s[start..i];
      sum := sum + s[i];
      i := i + 1;
    }
  }

  method WindowSumSquares(s: seq<int>, start: nat, end: nat, mean: int) returns (sumSq: nat)
    requires start <= end <= |s|
    ensures sumSq == SumSquares(s[start..end], mean)
  {
    sumSq := 0;
    var i := start;
    while i < end
      invariant start <= i <= end && sumSq == SumSquares(s[start..i], mean)
    {
      assert s[start..i + 1][..i - start] == s[start..i];
      var d := s[i] - mean;
      SquareIsNat(d);
      sumSq := sumSq + d * d;
      i := i + 1;
    }
  }

  /** What the square root is taken of fits 64 bits. */
  lemma MeanSquareFits(s: seq<int>)
    requires s != [] && Samples16(s)
    ensures 0 <= SumSquares(s, Mean(s)) / |s| <= 0xFFFF * 0xFFFF
  {
    SumBounds(s);
    TruncBounds(Sum(s), |s|, -0x8000, 0x7FFF);
    SumSquaresBound(s, Mean(s));
    QuotientBound(SumSquares(s, Mean(s)), |s|, 0xFFFF * 0xFFFF);
  }

  method LevelOfWindow(s: seq<int>, start: nat, end: nat) returns (level: nat)
    requires start < end <= |s| && Samples16(s[start..end])
    ensures level == WindowLevel(s[start..end]) && level <= 0xFFFF
  {
    var n := end - start;
    var sum := WindowSum(s, start, end);
    var mean := TruncDiv(sum, n);
    var sumSq := WindowSumSquares(s, start, end, mean);
    MeanSquareFits(s[start..end]);
    LevelFits(s[start..end]);
    var root := IntegerSqrt((sumSq / n) as u64);
    FloorSqrtIsUnique(root as int, FloorSqrt(sumSq / n), sumSq / n);
    level := root as int;
  }

  /** Window `w` of the meter's loop: its level, unless it is empty, joins the others. */
  method LevelNext(s: seq<int>, w: nat, levels: array<nat>, count: nat) returns (count': nat)
    requires Samples16(s) && s != [] && w < LEVEL_WINDOWS && count <= w < levels.Length
    requires HasLevels(s, w, levels[..count])
    modifies levels
    ensures count' <= w + 1 && HasLevels(s, w + 1, levels[..count'])
  {
    var start, end := WindowStart(|s|, w), WindowStart(|s|, w + 1);
    LevelsNext(s, w, start, end);
    if start >= end {
      return count;
    }
    SliceIs16(s, start, end);
    var window := LevelOfWindow(s, start, end);
    AtMost16Grows(levels[..count], window);
    levels[count] := window;
    assert levels[..count + 1] == levels[..count] + [window];
    count' := count + 1;
  }

  /** What the meter has when its loop is at window `w`. */
  ghost predicate HasLevels(s: seq<int>, w: nat, levels: seq<nat>) {
    w <= LEVEL_WINDOWS && levels == Levels(s, w) && AtMost16(levels)
  }

  lemma NoLevels(s: seq<int>, none: seq<nat>)
    requires none == []
    ensures HasLevels(s, 0, none)
  {
  }

  /** The median of all the levels, which fits 16 bits with them. */
  method MedianOf(s: seq<int>, levels: seq<nat>) returns (level: nat)
    requires s != [] && HasLevels(s, LEVEL_WINDOWS, levels)
    ensures level == Meter(s) && level <= 0xFFFF
  {
    level := Median(levels);
    MedianIsAValue(levels);
  }

  /** The meter's value for a chunk of 16-bit samples. */
  method WindowedAcLevel(s: seq<int>) returns (level: nat)
    requires Samples16(s)
    ensures level == Meter(s) && level <= 0xFFFF
  {
    if |s| == 0 {
      return 0;
    }
    var levels := new nat[LEVEL_WINDOWS];
    var count: nat := 0;
    NoLevels(s, levels[..count]);
    var w: nat := 0;
    while w < LEVEL_WINDOWS
      invariant 0 <= w <= LEVEL_WINDOWS && count <= w
      invariant HasLevels(s, w, levels[..count])
    {
      count := LevelNext(s, w, levels, count);
      w := w + 1;
    }
    level := MedianOf(s, levels[..count]);
  }

  lemma SliceIs16(s: seq<int>, start: nat, end: nat)
    requires Samples16(s) && start <= end <= |s|
    ensures Samples16(s[start..end])
  {
  }

  predicate AtMost16(s: seq<nat>) {
    forall i :: 0 <= i < |s| ==> s[i] <= 0xFFFF
  }

  lemma AtMost16Grows(s: seq<nat>, x: nat)
    requires AtMost16(s) && x <= 0xFFFF
    ensures AtMost16(s + [x])
  {
  }

  lemma MedianIsAValue(s: seq<nat>)
    ensures s != [] ==> Median(s) in s
  {
    if s != [] {
      SortSorts(s);
      assert Median(s) in multiset(Sort(s));
    }
  }

  lemma WindowFilled(s: seq<int>, w: nat)
    requires |s| >= LEVEL_WINDOWS && w < LEVEL_WINDOWS
    ensures Window(s, w) != []
  {
    WindowBounds(|s|, w);
    WindowsAreOrdered(|s|, w);
  }

  lemma {:induction false} EightWindowsOf(s: seq<int>, n: nat, v: nat)
    requires |s| >= LEVEL_WINDOWS && v < n <= LEVEL_WINDOWS
    ensures |Windows(s, n)| == n && Windows(s, n)[v] == Window(s, v)
  {
    var w := n - 1;
    WindowFilled(s, w);
    if n == 1 {
      assert Windows(s, 0) == [];
    } else {
      EightWindowsOf(s, w, if v < w then v else 0);
    }
  }

  /** A chunk of at least eight samples has eight levels, one for each window. */
  lemma EightLevels(s: seq<int>, n: nat, v: nat)
    requires |s| >= LEVEL_WINDOWS && v < n <= LEVEL_WINDOWS
    ensures |Levels(s, n)| == n && Window(s, v) != [] && Levels(s, n)[v] == WindowLevel(Window(s, v))
  {
    WindowFilled(s, v);
    EightWindowsOf(s, n, v);
  }

  /** The chunks agree outside window `w`. */
  predicate AgreeOutside(a: seq<int>, b: seq<int>, w: nat)
    requires |a| == |b|
  {
    forall i :: 0 <= i < |a| && !(WindowStart(|a|, w) <= i < WindowStart(|a|, w + 1)) ==> a[i] == b[i]
  }

  lemma SlicesAgree(a: seq<int>, b: seq<int>, from: nat, to: nat)
    requires |a| == |b| && from <= to <= |a| && forall i :: from <= i < to ==> a[i] == b[i]
    ensures a[from..to] == b[from..to]
  {
  }

  lemma WindowsApart(len: nat, v: nat, w: nat, i: nat)
    requires v < LEVEL_WINDOWS && w < LEVEL_WINDOWS && v != w
    requires WindowStart(len, v) <= i < WindowStart(len, v + 1)
    ensures !(WindowStart(len, w) <= i < WindowStart(len, w + 1))
  {
    if v < w {
      WindowsInside(len, v + 1, w);
    } else {
      WindowsInside(len, w + 1, v);
    }
  }

  lemma OtherWindowsAgree(a: seq<int>, b: seq<int>, w: nat, v: nat)
    requires |a| == |b| && v < LEVEL_WINDOWS && w < LEVEL_WINDOWS && v != w && AgreeOutside(a, b, w)
    ensures Window(a, v) == Window(b, v)
  {
    WindowBounds(|a|, v);
    forall i | WindowStart(|a|, v) <= i < WindowStart(|a|, v + 1)
      ensures a[i] == b[i]
    {
      WindowsApart(|a|, v, w, i);
    }
    SlicesAgree(a, b, WindowStart(|a|, v), WindowStart(|a|, v + 1));
  }

  /** A spike inside one window is out-voted: however the samples of one window change, the
      meter stays between the fourth and the fifth smallest of the other seven levels. */
  lemma OneWindowIsOutvoted(a: seq<int>, b: seq<int>, w: nat)
    requires |a| == |b| >= LEVEL_WINDOWS && w < LEVEL_WINDOWS && AgreeOutside(a, b, w)
    ensures |Levels(a, 8)| == 8
    ensures var others := Sort(Without(Levels(a, 8), w));
            others[3] <= Meter(a) <= others[4] && others[3] <= Meter(b) <= others[4]
  {
    EightLevels(a, 8, 0);
    EightLevels(b, 8, 0);
    var la, lb := Levels(a, 8), Levels(b, 8);
    forall v | 0 <= v < 8 && v != w
      ensures la[v] == lb[v]
    {
      EightLevels(a, 8, v);
      EightLevels(b, 8, v);
      OtherWindowsAgree(a, b, w, v);
    }
    assert Without(la, w) == Without(lb, w);
    MedianOfEight(la, w);
    MedianOfEight(lb, w);
  }

  // ---- constant offsets ----

  function Shifted(s: seq<int>, c: int): (r: seq<int>)
    ensures |r| == |s|
  {
    seq(|s|, i requires 0 <= i < |s| => s[i] + c)
  }

  lemma {:induction false} ShiftedSums(s: seq<int>, c: int, mean: int)
    ensures Sum(Shifted(s, c)) == Sum(s) + c * |s|
    ensures SumSquares(Shifted(s, c), mean + c) == SumSquares(s, mean)
  {
    if s != [] {
      var front := s[..|s| - 1];
      ShiftedSums(front, c, mean);
      assert Shifted(s, c)[..|s| - 1] == Shifted(front, c);
      assert c * |s| == c * |front| + c;
    }
  }

  /** A constant offset moves the truncated mean along with it exactly when the sum divides
      evenly or does not change sign. */
  lemma TruncDivShift(a: int, c: int, n: int)
    requires n > 0
    ensures TruncDiv(a + c * n, n) == TruncDiv(a, n) + c <==>
            a % n == 0 || (a >= 0 <==> a + c * n >= 0)
  {
    var q, r := a / n, a % n;
    assert a == q * n + r;
    assert a + c * n == (q + c) * n + r;
    Truncated(a, q, r, n);
    Truncated(a + c * n, q + c, r, n);
  }

  /** Truncation against the floor quotient `q` with remainder `r`. */
  lemma Truncated(a: int, q: int, r: int, n: int)
    requires 0 <= r < n && a == q * n + r
    ensures TruncDiv(a, n) == if a >= 0 || r == 0 then q else q + 1
  {
    if a >= 0 {
      QuotientIs(a, q, r, n);
    } else if r == 0 {
      assert -a == (-q) * n + 0;
      QuotientIs(-a, -q, 0, n);
    } else {
      assert -a == (-q - 1) * n + (n - r);
      QuotientIs(-a, -q - 1, n - r, n);
    }
  }

  lemma QuotientIs(a: int, q: int, r: int, n: int)
    requires 0 <= r < n && a == q * n + r
    ensures a / n == q
  {
    assert a == n * (a / n) + a % n;
    assert (a / n - q) * n == r - a % n;
    if a / n > q {
      MulAtLeast(a / n - q, n, 1, n);
      assert false;
    }
    if a / n < q {
      MulAtLeast(q - a / n, n, 1, n);
      assert false;
    }
  }

  /** A sum that does not divide evenly has another sign after the offset: the truncated mean
      is one off. */
  predicate Slips(sum: int, after: int, n: int)
    requires n > 0
  {
    sum % n != 0 && ((sum >= 0) != (after >= 0))
  }

  function Abs(a: int): nat {
    if a >= 0 then a else -a
  }

  /** What an offset adds to the sum of squared deviations. */
  function OffsetError(sum: int, after: int, n: int): int
    requires n > 0
  {
    if Slips(sum, after, n) then n - 2 * (Abs(sum) % n) else 0
  }

  lemma RemainderIs(a: int, q: int, r: int, n: int)
    requires 0 <= r < n && a == q * n + r
    ensures a % n == r
  {
    QuotientIs(a, q, r, n);
    assert a == n * (a / n) + a % n;
  }

  lemma AbsRemainder(sum: int, n: int)
    requires n > 0 && sum % n != 0
    ensures Abs(sum) % n == if sum >= 0 then sum % n else n - sum % n
  {
    if sum < 0 {
      var q, r := sum / n, sum % n;
      assert -sum == (-q - 1) * n + (n - r);
      RemainderIs(-sum, -q - 1, n - r, n);
    }
  }

  lemma OffsetErrorBound(sum: int, after: int, n: int)
    requires n > 0
    ensures -n <= OffsetError(sum, after, n) <= n
  {
  }

  /** How far the truncated mean moves beyond the offset. */
  function Slip(sum: int, after: int, n: int): int
    requires n > 0
  {
    if !Slips(sum, after, n) then 0 else if sum >= 0 then 1 else -1
  }

  lemma MeanAfter(sum: int, c: int, n: int)
    requires n > 0
    ensures TruncDiv(sum + c * n, n) == TruncDiv(sum, n) + c + Slip(sum, sum + c * n, n)
  {
    var q, r := sum / n, sum % n;
    assert sum == q * n + r;
    assert sum + c * n == (q + c) * n + r;
    Truncated(sum, q, r, n);
    Truncated(sum + c * n, q + c, r, n);
  }

  lemma MeanMoves(s: seq<int>, t: seq<int>, c: int, n: nat)
    requires |s| == |t| == n > 0 && Sum(t) == Sum(s) + c * n
    ensures Mean(t) == Mean(s) + Slip(Sum(s), Sum(t), n) + c
  {
    MeanAfter(Sum(s), c, n);
  }

  lemma ShiftedMean(s: seq<int>, c: int)
    requires s != []
    ensures Mean(Shifted(s, c)) == Mean(s) + Slip(Sum(s), Sum(Shifted(s, c)), |s|) + c
  {
    ShiftedSums(s, c, 0);
    MeanMoves(s, Shifted(s, c), c, |s|);
  }

  /** The deviations from `mean` add up to what the mean leaves of the sum. */
  function Deviations(s: seq<int>, mean: int): int {
    if s == [] then 0 else Deviations(s[..|s| - 1], mean) + (s[|s| - 1] - mean)
  }

  lemma {:induction false} DeviationsAre(s: seq<int>, mean: int)
    ensures Deviations(s, mean) == Sum(s) - |s| * mean
  {
    if s != [] {
      DeviationsAre(s[..|s| - 1], mean);
      assert |s| * mean == (|s| - 1) * mean + mean;
    }
  }

  lemma OneLess(d: int)
    ensures (d - 1) * (d - 1) == d * d - 2 * d + 1
  {
  }

  /** The sum of squares around a mean one higher. */
  lemma {:induction false} SquaresAround(s: seq<int>, mean: int)
    ensures SumSquares(s, mean + 1) == SumSquares(s, mean) - 2 * Deviations(s, mean) + |s|
  {
    if s != [] {
      SquaresAround(s[..|s| - 1], mean);
      OneLess(s[|s| - 1] - mean);
    }
  }

  lemma {:induction false} DeviationsNext(s: seq<int>, mean: int)
    ensures Deviations(s, mean + 1) == Deviations(s, mean) - |s|
  {
    if s != [] {
      DeviationsNext(s[..|s| - 1], mean);
    }
  }

  /** The truncated remainder of the sum. */
  lemma RemainderOfMean(sum: int, n: int)
    requires n > 0
    ensures sum - n * TruncDiv(sum, n) == if sum >= 0 || sum % n == 0 then sum % n else sum % n - n
  {
    var q, r := sum / n, sum % n;
    assert sum == q * n + r;
    Truncated(sum, q, r, n);
    assert n * (q + 1) == n * q + n;
  }

  /** The sum of squares around the slipped mean. */
  lemma SquaresSlipped(s: seq<int>, after: int)
    requires s != []
    ensures SumSquares(s, Mean(s) + Slip(Sum(s), after, |s|)) ==
            SumSquares(s, Mean(s)) + OffsetError(Sum(s), after, |s|)
  {
    var sum, mean := Sum(s), Mean(s);
    if Slips(sum, after, |s|) {
      RemainderOfMean(sum, |s|);
      AbsRemainder(sum, |s|);
      DeviationsAre(s, mean);
      if sum >= 0 {
        SquaresAround(s, mean);
      } else {
        SquaresAround(s, mean - 1);
        DeviationsNext(s, mean - 1);
      }
    }
  }

  lemma SquaresAt(s: seq<int>, c: int, e: int)
    requires s != [] && Mean(Shifted(s, c)) == e + c
    ensures SumSquares(Shifted(s, c), Mean(Shifted(s, c))) == SumSquares(s, e)
  {
    ShiftedSums(s, c, e);
  }

  /** A constant offset changes a window's sum of squares by exactly its offset error. */
  lemma SquaresAfter(s: seq<int>, c: int)
    requires s != []
    ensures SumSquares(Shifted(s, c), Mean(Shifted(s, c))) ==
            SumSquares(s, Mean(s)) + OffsetError(Sum(s), Sum(Shifted(s, c)), |s|)
  {
    var after := Sum(Shifted(s, c));
    ShiftedMean(s, c);
    SquaresAt(s, c, Mean(s) + Slip(Sum(s), after, |s|));
    SquaresSlipped(s, after);
  }

  /** So the level with the offset is known from the window and the offset beforehand, and it
      is the level without it exactly when the offset error does not reach another root. */
  lemma OffsetIsRemovedIff(s: seq<int>, c: int, after: int)
    requires s != [] && after == Sum(s) + c * |s|
    ensures var squares, e := SumSquares(s, Mean(s)), OffsetError(Sum(s), after, |s|);
            && squares + e >= 0
            && WindowLevel(Shifted(s, c)) == MeanRoot(squares + e, |s|)
            && (WindowLevel(Shifted(s, c)) == WindowLevel(s) <==> MeanRoot(squares + e, |s|) == MeanRoot(squares, |s|))
  {
    assert after == Sum(Shifted(s, c)) by { ShiftedSums(s, c, 0); }
    SquaresAfter(s, c);
  }

  lemma RootsAreClose(r: int, t: int, v: int, w: int)
    requires IsFloorSqrt(r, v) && IsFloorSqrt(t, w) && v <= w <= v + 1
    ensures r <= t <= r + 1
  {
    if t < r {
      SquareGrows(t + 1, r);
      assert false;
    }
    if t > r + 1 {
      SquareGrows(r + 2, t);
      NextSquare(r + 1);
      assert false;
    }
  }

  lemma NextSquare(r: int)
    requires r >= 1
    ensures (r + 1) * (r + 1) > r * r + 1
  {
    assert (r + 1) * (r + 1) == r * r + 2 * r + 1;
  }

  lemma LessThanTwice(k: int, n: nat, d: int)
    requires k * n == d && d < 2 * n
    ensures k <= 1
  {
    if k >= 2 {
      MulAtLeast(k, n, 2, n);
      assert false;
    }
  }

  lemma QuotientsAreClose(a: nat, e: int, n: nat)
    requires n > 0 && -(n as int) <= e <= n && (a as int) + e >= 0
    ensures a / n - 1 <= (a + e) / n <= a / n + 1
  {
    var q, r, p, t := a / n, a % n, (a + e) / n, (a + e) % n;
    assert a == q * n + r && a + e == p * n + t;
    assert (p - q) * n == e + r - t;
    assert (q - p) * n == t - e - r;
    LessThanTwice(p - q, n, e + r - t);
    LessThanTwice(q - p, n, t - e - r);
  }

  predicate Close(a: int, b: int) {
    a - 1 <= b <= a + 1
  }

  lemma MeanRootsAreClose(squares: nat, e: int, n: nat)
    requires n > 0 && -(n as int) <= e <= n && (squares as int) + e >= 0
    ensures Close(MeanRoot(squares, n), MeanRoot(squares + e, n))
  {
    QuotientsAreClose(squares, e, n);
    var v, w := squares / n, (squares + e) / n;
    var r, t := MeanRoot(squares, n), MeanRoot(squares + e, n);
    if v <= w {
      RootsAreClose(r, t, v, w);
    } else {
      RootsAreClose(t, r, w, v);
    }
  }

  /** Whatever it is, an offset never moves a window's level by more than one. */
  lemma OffsetMovesByAtMostOne(s: seq<int>, c: int)
    requires s != []
    ensures Close(WindowLevel(s), WindowLevel(Shifted(s, c)))
  {
    var after := Sum(Shifted(s, c));
    SquaresAfter(s, c);
    OffsetErrorBound(Sum(s), after, |s|);
    MeanRootsAreClose(SumSquares(s, Mean(s)), OffsetError(Sum(s), after, |s|), |s|);
  }

  // ---- the meter under an offset ----

  /** Of equally many values, none above its partner by more than `d`. */
  predicate NotAbove(s: seq<nat>, t: seq<nat>, d: nat) {
    |s| == |t| && forall i :: 0 <= i < |s| ==> s[i] <= t[i] + d
  }

  lemma InsertNotAbove(x: nat, y: nat, s: seq<nat>, t: seq<nat>, d: nat)
    requires IsSorted(s) && IsSorted(t) && NotAbove(s, t, d) && x <= y + d
    ensures NotAbove(Insert(x, s), Insert(y, t), d)
  {
    forall k | 0 <= k <= |s|
      ensures Insert(x, s)[k] <= Insert(y, t)[k] + d
    {
      InsertAt(x, s, k);
      InsertAt(y, t, k);
    }
  }

  lemma {:induction false} SortNotAbove(s: seq<nat>, t: seq<nat>, d: nat)
    requires NotAbove(s, t, d)
    ensures NotAbove(Sort(s), Sort(t), d)
  {
    if s != [] {
      SortNotAbove(s[1..], t[1..], d);
      SortSorts(s[1..]);
      SortSorts(t[1..]);
      InsertNotAbove(s[0], t[0], Sort(s[1..]), Sort(t[1..]), d);
    }
  }

  lemma WindowOfShifted(s: seq<int>, c: int, w: nat)
    requires w < LEVEL_WINDOWS
    ensures Window(Shifted(s, c), w) == Shifted(Window(s, w), c)
  {
    WindowBounds(|s|, w);
  }

  lemma NotAboveAppend(s: seq<nat>, t: seq<nat>, x: nat, y: nat, d: nat)
    requires NotAbove(s, t, d) && x <= y + d
    ensures NotAbove(s + [x], t + [y], d)
  {
  }

  lemma LevelsAppend(s: seq<int>, w: nat)
    requires w < LEVEL_WINDOWS
    ensures Levels(s, w + 1) == if Window(s, w) == [] then Levels(s, w) else Levels(s, w) + [WindowLevel(Window(s, w))]
  {
    if Window(s, w) != [] {
      LevelsSnoc(Windows(s, w), Window(s, w));
    }
  }

  lemma {:induction false} LevelsOfShifted(s: seq<int>, c: int, n: nat)
    requires n <= LEVEL_WINDOWS
    ensures NotAbove(Levels(Shifted(s, c), n), Levels(s, n), 1)
    ensures NotAbove(Levels(s, n), Levels(Shifted(s, c), n), 1)
  {
    if n > 0 {
      var w := n - 1;
      var window := Window(s, w);
      LevelsOfShifted(s, c, w);
      WindowOfShifted(s, c, w);
      LevelsAppend(s, w);
      LevelsAppend(Shifted(s, c), w);
      if window != [] {
        OffsetMovesByAtMostOne(window, c);
        var x, y := WindowLevel(window), WindowLevel(Shifted(window, c));
        NotAboveAppend(Levels(Shifted(s, c), w), Levels(s, w), y, x, 1);
        NotAboveAppend(Levels(s, w), Levels(Shifted(s, c), w), x, y, 1);
      }
    }
  }

  /** The meter of any chunk moves by at most one under any constant offset. */
  lemma OffsetMovesMeterByAtMostOne(s: seq<int>, c: int)
    ensures Close(Meter(s), Meter(Shifted(s, c)))
  {
    var a, b := Levels(s, LEVEL_WINDOWS), Levels(Shifted(s, c), LEVEL_WINDOWS);
    LevelsOfShifted(s, c, LEVEL_WINDOWS);
    SortNotAbove(a, b, 1);
    SortNotAbove(b, a, 1);
  }

  /** A window whose level does move, and a chunk of eight of them. */
  const SLIPPING := [-3, 2, 1, -1]

  function EightWindows(window: seq<int>): (r: seq<int>)
    requires |window| == 4
    ensures |r| == 32
  {
    seq(32, i requires 0 <= i < 32 => window[i % 4])
  }

  lemma WindowOfEight(window: seq<int>, w: nat)
    requires |window| == 4 && w < LEVEL_WINDOWS
    ensures Window(EightWindows(window), w) == window
  {
    WindowBounds(32, w);
    assert WindowStart(32, w) == 4 * w && WindowStart(32, w + 1) == 4 * w + 4;
    RepeatedSlice(window, 4 * w);
  }

  lemma RepeatedSlice(window: seq<int>, at: nat)
    requires |window| == 4 && at % 4 == 0 && at + 4 <= 32
    ensures EightWindows(window)[at..at + 4] == window
  {
    var w := EightWindows(window);
    assert (at + 1) % 4 == 1 && (at + 2) % 4 == 2 && (at + 3) % 4 == 3;
    assert w[at] == window[0] && w[at + 1] == window[1] && w[at + 2] == window[2] && w[at + 3] == window[3];
    assert w[at..at + 4] == [window[0], window[1], window[2], window[3]];
  }

  lemma LevelOfEight(window: seq<int>, v: nat)
    requires |window| == 4 && v < 8
    ensures |Levels(EightWindows(window), 8)| == 8
    ensures Levels(EightWindows(window), 8)[v] == WindowLevel(window)
  {
    EightLevels(EightWindows(window), 8, v);
    WindowOfEight(window, v);
  }

  lemma MedianOfSame(s: seq<nat>, v: nat)
    requires s != [] && forall i :: 0 <= i < |s| ==> s[i] == v
    ensures Median(s) == v
  {
    MedianIsAValue(s);
  }

  lemma MeterOfEight(window: seq<int>)
    requires |window| == 4
    ensures Meter(EightWindows(window)) == WindowLevel(window)
  {
    var levels := Levels(EightWindows(window), 8);
    LevelOfEight(window, 0);
    forall v | 0 <= v < |levels|
      ensures levels[v] == WindowLevel(window)
    {
      LevelOfEight(window, v);
    }
    MedianOfSame(levels, WindowLevel(window));
  }

  /** Truncation toward zero is not invariant under an offset, for a window and for the meter. */
  lemma OffsetCanShow()
    ensures WindowLevel(SLIPPING) == 1 && WindowLevel(Shifted(SLIPPING, 1)) == 2
    ensures Meter(EightWindows(SLIPPING)) == 1 && Meter(Shifted(EightWindows(SLIPPING), 1)) == 2
  {
    assert Shifted(SLIPPING, 1) == [-2, 3, 2, 0];
    FourSums(-3, 2, 1, -1, 0);
    FourSums(-2, 3, 2, 0, 0);
    LevelIs(SLIPPING, 0, 15, 1);
    LevelIs([-2, 3, 2, 0], 0, 17, 2);
    assert Shifted(EightWindows(SLIPPING), 1) == EightWindows(Shifted(SLIPPING, 1));
    MeterOfEight(SLIPPING);
    MeterOfEight(Shifted(SLIPPING, 1));
  }

  lemma LevelIs(s: seq<int>, mean: int, squares: nat, level: nat)
    requires s != [] && Mean(s) == mean && SumSquares(s, mean) == squares && IsFloorSqrt(level, squares / |s|)
    ensures WindowLevel(s) == level
  {
    FloorSqrtIsUnique(FloorSqrt(squares / |s|), level, squares / |s|);
  }

  lemma SumsAppend(s: seq<int>, x: int, mean: int)
    ensures Sum(s + [x]) == Sum(s) + x
    ensures SumSquares(s + [x], mean) == SumSquares(s, mean) + (x - mean) * (x - mean)
  {
    assert (s + [x])[..|s|] == s;
  }

  lemma FourSums(a: int, b: int, c: int, d: int, mean: int)
    ensures Sum([a, b, c, d]) == a + b + c + d
    ensures SumSquares([a, b, c, d], mean) ==
            (a - mean) * (a - mean) + (b - mean) * (b - mean) + (c - mean) * (c - mean) + (d - mean) * (d - mean)
  {
    SumsAppend([], a, mean);
    SumsAppend([a], b, mean);
    SumsAppend([a, b], c, mean);
    SumsAppend([a, b, c], d, mean);
    assert [] + [a] == [a] && [a] + [b] == [a, b] && [a, b] + [c] == [a, b, c] && [a, b, c] + [d] == [a, b, c, d];
  }
}
