/** The GitHub activity widget's arithmetic: intensity levels, streaks, totals, the week grid,
    the month labels above it and the five-minute cache. */
module Contributions {
  import opened Wrappers
  import opened Text
  import Seqs

  /** Five minutes, in milliseconds. */
  const CacheDuration: int := 5 * 60 * 1000

  const DaysPerWeek: nat := 7

  /** Width of one week column of the grid, in pixels. */
  const CellPitch: nat := 13

  const MaxLevel: nat := 4

  /** Contributions per intensity step. */
  const LevelStep: nat := 5

  const MonthNames: seq<String> :=
    ["Jan", "Feb", "Mar", "Apr", "May", "Jun", "Jul", "Aug", "Sep", "Oct", "Nov", "Dec"]

  /** A month number as `Date.getMonth` returns it. */
  type Month = m: int | 0 <= m < 12

  datatype Day = Day(date: String, count: nat, level: nat)

  datatype Repo = Repo(stars: nat, forks: nat)

  datatype Streak = Streak(current: nat, longest: nat)

  datatype Stats = Stats(followers: nat, following: nat, publicRepos: nat, stars: nat, forks: nat, streak: Streak)

  datatype GitHubData = GitHubData(totalContributions: nat, contributions: seq<Day>, stats: Stats)

  datatype CacheEntry = CacheEntry(data: GitHubData, timestamp: int)

  datatype MonthLabel = MonthLabel(month: String, position: nat)

  // ---------------------------------------------------------------------------------------
  // Intensity levels
  // ---------------------------------------------------------------------------------------

  /** `Math.ceil(a / b)` for a non-negative `a`. */
  function CeilDiv(a: nat, b: nat): (r: nat)
    requires b > 0
    ensures b * r >= a
    ensures r > 0 ==> b * (r - 1) < a
  {
    (a + b - 1) / b
  }

  /** The colour level of a day: 0 for no contributions, else one level per five, capped at four. */
  function Level(count: nat): (r: nat)
    ensures r <= MaxLevel
    ensures r == 0 <==> count == 0
  {
    if count == 0 then 0 else Seqs.Min(CeilDiv(count, LevelStep), MaxLevel)
  }

  /** The level is the number of thresholds 1, 6, 11 and 16 that the count reaches. */
  lemma LevelByThresholds(count: nat)
    ensures Level(count) == (if count >= 1 then 1 else 0) + (if count >= 6 then 1 else 0)
                            + (if count >= 11 then 1 else 0) + (if count >= 16 then 1 else 0)
  {
    var c := CeilDiv(count, LevelStep);
    if count >= 1 {
      assert 5 * c >= count && 5 * (c - 1) < count;
    }
  }

  /** More contributions never give a lighter colour. */
  lemma LevelMonotone(a: nat, b: nat)
    requires a <= b
    ensures Level(a) <= Level(b)
  {
    LevelByThresholds(a);
    LevelByThresholds(b);
  }

  // ---------------------------------------------------------------------------------------
  // Streaks
  // ---------------------------------------------------------------------------------------

  /** The three counters of the streak loop. */
  datatype StreakScan = StreakScan(current: nat, longest: nat, temp: nat)

  /** One iteration of the streak loop on a day with `count` contributions. */
  function StreakStep(s: StreakScan, count: nat): (r: StreakScan)
    ensures s.longest <= r.longest
    ensures s.temp <= s.longest ==> r.temp <= r.longest
    ensures s.current <= s.longest ==> r.current <= r.longest
  {
    if count > 0 then
      var temp := s.temp + 1;
      var longest := if temp > s.longest then temp else s.longest;
      var current := if s.current == temp - 1 then temp else s.current;
      StreakScan(current, longest, temp)
    else
      s.(temp := 0)
  }

  /** The streak loop over the reversed day list: the last day is visited first, the first day last. */
  function ScanFromEnd(counts: seq<nat>): (r: StreakScan)
    ensures r.current <= r.longest <= |counts|
    ensures r.temp <= r.longest
  {
    if |counts| == 0 then StreakScan(0, 0, 0)
    else StreakStep(ScanFromEnd(counts[1..]), counts[0])
  }

  /** Days `i` up to but not including `j` all have contributions. */
  ghost predicate PositiveRun(counts: seq<nat>, i: int, j: int)
  {
    0 <= i <= j <= |counts| && forall k :: i <= k < j ==> counts[k] > 0
  }

  /** `n` is the length of the longest run of consecutive days with contributions. */
  ghost predicate IsLongestRun(counts: seq<nat>, n: nat)
  {
    && (exists i, j :: PositiveRun(counts, i, j) && j - i == n)
    && (forall i, j :: PositiveRun(counts, i, j) ==> j - i <= n)
  }

  /** Length of the run of days with contributions at the start of the list. */
  function LeadingRun(counts: seq<nat>): (r: nat)
    ensures r <= |counts|
  {
    if |counts| == 0 || counts[0] == 0 then 0 else 1 + LeadingRun(counts[1..])
  }

  lemma {:induction false} LeadingRunIsMaximal(counts: seq<nat>, j: int)
    ensures PositiveRun(counts, 0, LeadingRun(counts))
    ensures PositiveRun(counts, 0, j) ==> j <= LeadingRun(counts)
  {
    if |counts| > 0 && counts[0] > 0 {
      LeadingRunIsMaximal(counts[1..], j - 1);
      if PositiveRun(counts, 0, j) && j > 0 {
        assert PositiveRun(counts[1..], 0, j - 1);
      }
    }
  }

  /** A run that does not start on the first day is a run of the remaining days. */
  lemma RunShift(counts: seq<nat>, i: int, j: int)
    requires |counts| > 0 && 1 <= i
    ensures PositiveRun(counts, i, j) <==> PositiveRun(counts[1..], i - 1, j - 1)
  {
    if PositiveRun(counts[1..], i - 1, j - 1) {
      forall k | i <= k < j ensures counts[k] > 0 {
        assert counts[k] == counts[1..][k - 1];
      }
    }
  }

  /** What the streak loop computes: `temp` ends as the run at the start of the list, `longest`
      as the longest run, and `current` as `longest` again. */
  lemma {:induction false} ScanFromEndComputes(counts: seq<nat>)
    ensures ScanFromEnd(counts).temp == LeadingRun(counts)
    ensures IsLongestRun(counts, ScanFromEnd(counts).longest)
    ensures ScanFromEnd(counts).current == ScanFromEnd(counts).longest
    ensures ScanFromEnd(counts).temp <= ScanFromEnd(counts).longest
  {
    var s := ScanFromEnd(counts);
    if |counts| == 0 {
      assert PositiveRun(counts, 0, 0);
    } else {
      var t := counts[1..];
      var st := ScanFromEnd(t);
      ScanFromEndComputes(t);
      var i0, j0 :| PositiveRun(t, i0, j0) && j0 - i0 == st.longest;
      RunShift(counts, i0 + 1, j0 + 1);
      LeadingRunIsMaximal(counts, 0);
      forall i, j | PositiveRun(counts, i, j) ensures j - i <= s.longest {
        if i == 0 {
          LeadingRunIsMaximal(counts, j);
        } else {
          RunShift(counts, i, j);
        }
      }
    }
  }

  /** The streaks as the widget computes them. */
  function ComputeStreaks(counts: seq<nat>): (r: Streak)
    ensures IsLongestRun(counts, r.longest)
    ensures r.current == r.longest
  {
    ScanFromEndComputes(counts);
    var s := ScanFromEnd(counts);
    Streak(s.current, s.longest)
  }

  /** Length of the run of days with contributions that ends on the last (most recent) day. */
  function TrailingRun(counts: seq<nat>): (r: nat)
    ensures r <= |counts|
    ensures PositiveRun(counts, |counts| - r, |counts|)
    ensures r < |counts| ==> counts[|counts| - r - 1] == 0
  {
    if |counts| == 0 || counts[|counts| - 1] == 0 then 0
    else 1 + TrailingRun(counts[..|counts| - 1])
  }

  /** The streaks with the current streak read as the run ending on the most recent day. */
  function ComputeStreaksEndingToday(counts: seq<nat>): (r: Streak)
    ensures IsLongestRun(counts, r.longest)
    ensures PositiveRun(counts, |counts| - r.current, |counts|)
    ensures r.current < |counts| ==> counts[|counts| - r.current - 1] == 0
    ensures r.current <= r.longest
  {
    var longest := ComputeStreaks(counts).longest;
    Streak(TrailingRun(counts), longest)
  }

  /** With days [1, 1, 0, 1] the loop reports a current streak of 2, though only the last day
      continues to today. */
  lemma CurrentStreakAsWrittenIsLongest()
    ensures ComputeStreaks([1, 1, 0, 1]).current == 2
    ensures ComputeStreaksEndingToday([1, 1, 0, 1]).current == 1
  {
    ScanFourDays();
    TrailingFourDays();
  }

  lemma ScanFourDays()
    ensures ScanFromEnd([1, 1, 0, 1]) == StreakScan(2, 2, 2)
  {
    var c: seq<nat> := [1, 1, 0, 1];
    assert c[1..] == [1, 0, 1] && c[1..][1..] == [0, 1] && c[1..][1..][1..] == [1];
    assert ScanFromEnd([1]) == StreakScan(1, 1, 1);
    assert ScanFromEnd([0, 1]) == StreakScan(1, 1, 0);
    assert ScanFromEnd([1, 0, 1]) == StreakScan(1, 1, 1);
  }

  lemma TrailingFourDays()
    ensures TrailingRun([1, 1, 0, 1]) == 1
  {
    var c: seq<nat> := [1, 1, 0, 1];
    assert c[..3] == [1, 1, 0];
  }

  // ---------------------------------------------------------------------------------------
  // Totals
  // ---------------------------------------------------------------------------------------

  /** `reduce((sum, x) => sum + x, 0)` over a list of non-negative numbers. */
  method Total(xs: seq<nat>) returns (total: nat)
    ensures total == Seqs.Sum(xs)
    ensures forall i :: 0 <= i < |xs| ==> xs[i] <= total
  {
    total := 0;
    var i := 0;
    while i < |xs|
      invariant 0 <= i <= |xs|
      invariant total == Seqs.Sum(xs[..i])
      invariant forall k :: 0 <= k < i ==> xs[k] <= total
    {
      assert xs[..i + 1][..i] == xs[..i];
      total := total + xs[i];
      i := i + 1;
    }
    assert xs[..i] == xs;
  }

  /** Stars and forks summed over the user's repositories in one pass. */
  method RepoTotals(repos: seq<Repo>) returns (stars: nat, forks: nat)
    ensures stars == Seqs.Sum(seq(|repos|, i requires 0 <= i < |repos| => repos[i].stars))
    ensures forks == Seqs.Sum(seq(|repos|, i requires 0 <= i < |repos| => repos[i].forks))
  {
    var ss := seq(|repos|, i requires 0 <= i < |repos| => repos[i].stars);
    var fs := seq(|repos|, i requires 0 <= i < |repos| => repos[i].forks);
    stars, forks := 0, 0;
    var i := 0;
    while i < |repos|
      invariant 0 <= i <= |repos|
      invariant stars == Seqs.Sum(ss[..i]) && forks == Seqs.Sum(fs[..i])
    {
      assert ss[..i + 1][..i] == ss[..i] && fs[..i + 1][..i] == fs[..i];
      stars, forks := stars + repos[i].stars, forks + repos[i].forks;
      i := i + 1;
    }
    assert ss[..i] == ss && fs[..i] == fs;
  }

  // ---------------------------------------------------------------------------------------
  // The week grid
  // ---------------------------------------------------------------------------------------

  /** The days cut into consecutive weeks of seven; the last week may be shorter. */
  function Weeks<T>(days: seq<T>): (r: seq<seq<T>>)
    ensures |r| == (|days| + 6) / 7
    ensures forall w :: 0 <= w < |r| ==> 1 <= |r[w]| <= 7
    ensures forall w :: 0 <= w < |r| - 1 ==> |r[w]| == 7
    decreases |days|
  {
    if |days| == 0 then []
    else
      var n := Seqs.Min(DaysPerWeek, |days|);
      var r := [days[..n]] + Weeks(days[n..]);
      assert r[1..] == Weeks(days[n..]);
      r
  }

  /** Laid end to end, the weeks are the days. */
  lemma {:induction false} WeeksFlatten<T>(days: seq<T>)
    ensures Seqs.Flatten(Weeks(days)) == days
    decreases |days|
  {
    if |days| > 0 {
      var n := Seqs.Min(DaysPerWeek, |days|);
      var ws := Weeks(days);
      WeeksFlatten(days[n..]);
      assert ws[1..] == Weeks(days[n..]);
      assert days == days[..n] + days[n..];
    }
  }

  /** Week `w` holds the days from `7 * w` on, in order. */
  lemma {:induction false} WeekContents<T>(days: seq<T>, w: nat)
    requires w < |Weeks(days)|
    ensures 7 * w + |Weeks(days)[w]| <= |days|
    ensures Weeks(days)[w] == days[7 * w .. 7 * w + |Weeks(days)[w]|]
  {
    var n := Seqs.Min(DaysPerWeek, |days|);
    var ws := Weeks(days);
    assert ws == [days[..n]] + Weeks(days[n..]);
    if w > 0 {
      assert n == 7;
      var rest := days[7..];
      WeekContents(rest, w - 1);
      var m := |ws[w]|;
      assert ws[w] == Weeks(rest)[w - 1];
      var a := 7 * (w - 1);
      assert a + 7 == 7 * w;
      assert a + m <= |rest|;
      var x, y := rest[a .. a + m], days[7 * w .. 7 * w + m];
      assert forall k :: 0 <= k < m ==> x[k] == y[k];
      assert x == y;
    }
  }

  /** Day `d` is drawn in week column `d / 7`, at row `d % 7`. */
  lemma DayInWeek<T>(days: seq<T>, d: nat)
    requires d < |days|
    ensures var ws := Weeks(days);
            d / 7 < |ws| && d % 7 < |ws[d / 7]| && ws[d / 7][d % 7] == days[d]
  {
    var ws := Weeks(days);
    var w := d / 7;
    assert 7 * w <= d < 7 * w + 7;
    assert w < |ws|;
    WeekContents(days, w);
    if w < |ws| - 1 {
      assert |ws[w]| == 7;
    } else {
      assert 7 * w + |ws[w]| == |days| by {
        WeeksFlatten(days);
        FlattenLength(ws, w);
      }
    }
  }

  /** The weeks before `w`, plus week `w`, account for exactly the days up to the end of week `w`. */
  lemma {:induction false} FlattenLength<T>(ws: seq<seq<T>>, w: nat)
    requires w < |ws|
    requires forall v :: 0 <= v < |ws| - 1 ==> |ws[v]| == 7
    ensures w == |ws| - 1 ==> |Seqs.Flatten(ws)| == 7 * w + |ws[w]|
  {
    if w == |ws| - 1 && w > 0 {
      assert Seqs.Flatten(ws) == ws[0] + Seqs.Flatten(ws[1..]);
      FlattenLength(ws[1..], w - 1);
    }
  }

  lemma {:induction false} SumFlatten(ws: seq<seq<nat>>)
    ensures Seqs.Sum(Seqs.Flatten(ws)) == Seqs.Sum(seq(|ws|, w requires 0 <= w < |ws| => Seqs.Sum(ws[w])))
  {
    var sums := seq(|ws|, w requires 0 <= w < |ws| => Seqs.Sum(ws[w]));
    if |ws| > 0 {
      SumFlatten(ws[1..]);
      Seqs.SumAppend(ws[0], Seqs.Flatten(ws[1..]));
      var tail := seq(|ws[1..]|, w requires 0 <= w < |ws[1..]| => Seqs.Sum(ws[1..][w]));
      assert sums == [sums[0]] + tail;
      Seqs.SumAppend([sums[0]], tail);
      assert Seqs.Sum([sums[0]]) == sums[0] by {
        assert [sums[0]][..0] == [];
      }
    }
  }

  /** Adding up the weeks gives the same total as adding up the days. */
  lemma WeeksKeepTotal(counts: seq<nat>)
    ensures var ws := Weeks(counts);
            Seqs.Sum(seq(|ws|, w requires 0 <= w < |ws| => Seqs.Sum(ws[w]))) == Seqs.Sum(counts)
  {
    SumFlatten(Weeks(counts));
    WeeksFlatten(counts);
  }

  // ---------------------------------------------------------------------------------------
  // Month labels
  // ---------------------------------------------------------------------------------------

  /** Day `i` starts a new month label: it is the first day, or its month differs from the day before. */
  predicate IsMonthStart(months: seq<Month>, i: int)
  {
    0 <= i < |months| && (i == 0 || months[i] != months[i - 1])
  }

  /** The days from `from` on that start a month label, in increasing order. */
  function MonthStarts(months: seq<Month>, from: nat): (r: seq<nat>)
    requires from <= |months|
    ensures forall k :: 0 <= k < |r| ==> from <= r[k] && IsMonthStart(months, r[k])
    decreases |months| - from
  {
    if from == |months| then []
    else (if IsMonthStart(months, from) then [from] else []) + MonthStarts(months, from + 1)
  }

  /** The month starts are listed in increasing order. */
  lemma {:induction false} MonthStartsSorted(months: seq<Month>, from: nat)
    requires from <= |months|
    ensures forall k, l :: 0 <= k < l < |MonthStarts(months, from)| ==>
              MonthStarts(months, from)[k] < MonthStarts(months, from)[l]
    decreases |months| - from
  {
    if from < |months| {
      MonthStartsSorted(months, from + 1);
      var rest := MonthStarts(months, from + 1);
      var head: seq<nat> := if IsMonthStart(months, from) then [from] else [];
      var r := head + rest;
      assert MonthStarts(months, from) == r;
      forall k, l | 0 <= k < l < |r| ensures r[k] < r[l] {
        if |head| == 1 && k == 0 {
          assert r[l] == rest[l - 1];
          assert from + 1 <= rest[l - 1];
        } else {
          assert r[k] == rest[k - |head|] && r[l] == rest[l - |head|];
        }
      }
    }
  }

  /** No month start is missed. */
  lemma {:induction false} MonthStartsComplete(months: seq<Month>, from: nat)
    requires from <= |months|
    ensures forall i :: from <= i < |months| && IsMonthStart(months, i) ==> i in MonthStarts(months, from)
    decreases |months| - from
  {
    if from < |months| {
      MonthStartsComplete(months, from + 1);
      var rest := MonthStarts(months, from + 1);
      var head: seq<nat> := if IsMonthStart(months, from) then [from] else [];
      assert MonthStarts(months, from) == head + rest;
    }
  }

  /** The labels for the given month-start days, each placed by `position`. */
  function LabelsFor(months: seq<Month>, starts: seq<nat>, position: nat -> nat): (r: seq<MonthLabel>)
    requires forall k :: 0 <= k < |starts| ==> starts[k] < |months|
    ensures |r| == |starts|
  {
    if |starts| == 0 then []
    else [MonthLabel(MonthNames[months[starts[0]]], position(starts[0]))]
         + LabelsFor(months, starts[1..], position)
  }

  /** The number of times `weekIndex` has been incremented before day `i` is visited. */
  function WeeksBefore(i: nat): nat
  {
    CeilDiv(i, DaysPerWeek)
  }

  /** Where the widget places the label of a month that starts on day `i`. */
  function AsWrittenPosition(i: nat): nat
  {
    CellPitch * WeeksBefore(i)
  }

  /** Visiting day `i` bumps the week counter exactly when `i` is a multiple of seven. */
  lemma WeeksBeforeStep(i: nat)
    ensures WeeksBefore(i + 1) == WeeksBefore(i) + (if i % DaysPerWeek == 0 then 1 else 0)
  {
    var q, m := i / 7, i % 7;
    assert i == 7 * q + m;
    if m == 0 {
      assert (i + 6) / 7 == q;
      assert (i + 7) / 7 == q + 1;
    } else {
      assert (i + 6) / 7 == q + 1;
      assert (i + 7) / 7 == q + 1;
    }
  }

  /** The label loop from day `index` on, with the month last labelled and the week counter. */
  function ScanLabels(months: seq<Month>, index: nat, currentMonth: int, weekIndex: nat): (r: seq<MonthLabel>)
    requires index <= |months|
    ensures |r| <= |months| - index
    ensures forall k :: 0 <= k < |r| ==> CellPitch * weekIndex <= r[k].position
    decreases |months| - index
  {
    if index == |months| then []
    else
      var changed := months[index] != currentMonth;
      var here := if changed then [MonthLabel(MonthNames[months[index]], CellPitch * weekIndex)] else [];
      here + ScanLabels(months, index + 1, if changed then months[index] else currentMonth,
                        if index % DaysPerWeek == 0 then weekIndex + 1 else weekIndex)
  }

  /** The month labels as the widget computes them; no days, no labels. */
  function MonthLabels(months: seq<Month>): (r: seq<MonthLabel>)
    ensures r == LabelsFor(months, MonthStarts(months, 0), AsWrittenPosition)
  {
    if |months| == 0 then []
    else
      ScanLabelsComputes(months, 0, -1, 0);
      ScanLabels(months, 0, -1, 0)
  }

  lemma {:induction false} ScanLabelsComputes(months: seq<Month>, index: nat, currentMonth: int, weekIndex: nat)
    requires index <= |months|
    requires index == 0 ==> currentMonth == -1 && weekIndex == 0
    requires index > 0 ==> currentMonth == months[index - 1] && weekIndex == WeeksBefore(index)
    ensures ScanLabels(months, index, currentMonth, weekIndex)
            == LabelsFor(months, MonthStarts(months, index), AsWrittenPosition)
    decreases |months| - index
  {
    if index < |months| {
      var w' := if index % DaysPerWeek == 0 then weekIndex + 1 else weekIndex;
      WeeksBeforeStep(index);
      if IsMonthStart(months, index) {
        ScanLabelsComputes(months, index + 1, months[index], w');
        ScanStepAtStart(months, index, currentMonth, weekIndex);
      } else {
        ScanLabelsComputes(months, index + 1, currentMonth, w');
        ScanStepInside(months, index, currentMonth, weekIndex);
      }
    } else {
      assert MonthStarts(months, index) == [];
    }
  }

  /** On a month start the loop emits the label at the current week counter, then goes on. */
  lemma ScanStepAtStart(months: seq<Month>, index: nat, currentMonth: int, weekIndex: nat)
    requires index < |months| && IsMonthStart(months, index)
    requires index == 0 ==> currentMonth == -1 && weekIndex == 0
    requires index > 0 ==> currentMonth == months[index - 1] && weekIndex == WeeksBefore(index)
    requires ScanLabels(months, index + 1, months[index],
                        if index % DaysPerWeek == 0 then weekIndex + 1 else weekIndex)
             == LabelsFor(months, MonthStarts(months, index + 1), AsWrittenPosition)
    ensures ScanLabels(months, index, currentMonth, weekIndex)
            == LabelsFor(months, MonthStarts(months, index), AsWrittenPosition)
  {
    assert months[index] != currentMonth by {
      if index == 0 {
        assert months[0] >= 0;
      }
    }
    var tail := MonthStarts(months, index + 1);
    assert MonthStarts(months, index) == [index] + tail;
    assert ([index] + tail)[1..] == tail;
  }

  /** Inside a month the loop emits nothing and goes on. */
  lemma ScanStepInside(months: seq<Month>, index: nat, currentMonth: int, weekIndex: nat)
    requires index < |months| && !IsMonthStart(months, index)
    requires index > 0 && currentMonth == months[index - 1]
    requires ScanLabels(months, index + 1, currentMonth,
                        if index % DaysPerWeek == 0 then weekIndex + 1 else weekIndex)
             == LabelsFor(months, MonthStarts(months, index + 1), AsWrittenPosition)
    ensures ScanLabels(months, index, currentMonth, weekIndex)
            == LabelsFor(months, MonthStarts(months, index), AsWrittenPosition)
  {
    var w' := if index % DaysPerWeek == 0 then weekIndex + 1 else weekIndex;
    assert months[index] == currentMonth;
    var rest := ScanLabels(months, index + 1, currentMonth, w');
    assert ScanLabels(months, index, currentMonth, weekIndex) == [] + rest;
    assert [] + rest == rest;
    var tail := MonthStarts(months, index + 1);
    assert MonthStarts(months, index) == [] + tail;
    assert [] + tail == tail;
  }

  lemma {:induction false} LabelsForElements(months: seq<Month>, starts: seq<nat>, position: nat -> nat, k: nat)
    requires forall k :: 0 <= k < |starts| ==> starts[k] < |months|
    requires k < |starts|
    ensures LabelsFor(months, starts, position)[k] == MonthLabel(MonthNames[months[starts[k]]], position(starts[k]))
  {
    if k > 0 {
      LabelsForElements(months, starts[1..], position, k - 1);
    }
  }

  lemma {:induction false} LabelsAppend(months: seq<Month>, a: seq<nat>, b: seq<nat>, position: nat -> nat)
    requires forall k :: 0 <= k < |a| ==> a[k] < |months|
    requires forall k :: 0 <= k < |b| ==> b[k] < |months|
    ensures LabelsFor(months, a + b, position) == LabelsFor(months, a, position) + LabelsFor(months, b, position)
  {
    if |a| == 0 {
      assert a + b == b;
    } else {
      assert (a + b)[0] == a[0] && (a + b)[1..] == a[1..] + b;
      LabelsAppend(months, a[1..], b, position);
    }
  }

  lemma PositionsMonotone(a: nat, b: nat)
    requires a <= b
    ensures AsWrittenPosition(a) <= AsWrittenPosition(b)
    ensures AsWrittenPosition(a) % CellPitch == 0
  {
    var ca, cb := (a + 6) / 7, (b + 6) / 7;
    assert 7 * ca <= a + 6 < 7 * ca + 7 && 7 * cb <= b + 6 < 7 * cb + 7;
    assert (13 * ca) % 13 == 0;
  }

  /** As written, the label of a month starting on day `d` sits at 13 times the number of days
      among 0, 7, 14, ... that come before `d`; positions are multiples of 13 and never decrease. */
  lemma MonthLabelsAsWritten(months: seq<Month>)
    ensures var starts := MonthStarts(months, 0);
            var labels := MonthLabels(months);
            && labels == LabelsFor(months, starts, AsWrittenPosition)
            && (forall k :: 0 <= k < |labels| ==>
                  labels[k] == MonthLabel(MonthNames[months[starts[k]]], CellPitch * WeeksBefore(starts[k])))
            && (forall k :: 0 <= k < |labels| ==> labels[k].position % CellPitch == 0)
            && (forall k, l :: 0 <= k < l < |labels| ==> labels[k].position <= labels[l].position)
  {
    var starts := MonthStarts(months, 0);
    MonthStartsSorted(months, 0);
    if |months| > 0 {
      ScanLabelsComputes(months, 0, -1, 0);
    } else {
      assert starts == [];
    }
    var labels := MonthLabels(months);
    forall k | 0 <= k < |labels|
      ensures labels[k] == MonthLabel(MonthNames[months[starts[k]]], CellPitch * WeeksBefore(starts[k]))
      ensures labels[k].position % CellPitch == 0
    {
      LabelsForElements(months, starts, AsWrittenPosition, k);
      PositionsMonotone(starts[k], starts[k]);
    }
    forall k, l | 0 <= k < l < |labels| ensures labels[k].position <= labels[l].position {
      LabelsForElements(months, starts, AsWrittenPosition, k);
      LabelsForElements(months, starts, AsWrittenPosition, l);
      PositionsMonotone(starts[k], starts[l]);
    }
  }

  /** Each label sits over the first week column whose first day falls on or after the first
      day of its month: column w starts with day 7w, so a month starting mid-week is labelled
      over the next column. */
  lemma LabelsSitOverFirstColumnInMonth(months: seq<Month>, k: nat)
    requires k < |MonthStarts(months, 0)|
    ensures k < |MonthLabels(months)|
    ensures var d := MonthStarts(months, 0)[k];
            var w := MonthLabels(months)[k].position / CellPitch;
            && DaysPerWeek * w >= d
            && (w > 0 ==> DaysPerWeek * (w - 1) < d)
  {
    MonthLabelsAsWritten(months);
    var d := MonthStarts(months, 0)[k];
    var w := WeeksBefore(d);
    assert MonthLabels(months)[k].position == CellPitch * w;
    assert (CellPitch * w) / CellPitch == w;
  }

  /** January on day 0 and February on day 1: both days are drawn in week column 0, and the
      February label goes to column 1, the first column that starts inside February. */
  lemma MonthLabelsTwoDayExample()
    ensures MonthLabels([0, 1]) == [MonthLabel("Jan", 0), MonthLabel("Feb", 13)]
    ensures Weeks([0, 1]) == [[0, 1]]
  {
    var ms: seq<Month> := [0, 1];
    assert ScanLabels(ms, 2, 1, 1) == [];
    assert ScanLabels(ms, 1, 0, 1) == [MonthLabel("Feb", 13)];
    assert ScanLabels(ms, 0, -1, 0) == [MonthLabel("Jan", 0), MonthLabel("Feb", 13)];
    var days: seq<int> := [0, 1];
    assert days[..2] == days && days[2..] == [];
  }

  // ---------------------------------------------------------------------------------------
  // Cache
  // ---------------------------------------------------------------------------------------

  /** A cache entry written at `timestamp` is still used at time `now`: less than five minutes old. */
  predicate IsFresh(now: int, timestamp: int): (ok: bool)
    ensures ok <==> timestamp > now - 300000
  {
    now - timestamp < CacheDuration
  }

  /** The data restored from the cache on start-up, if present and fresh. */
  function CachedData(cache: Option<CacheEntry>, now: int): (r: Option<GitHubData>)
    ensures r.Some? <==> cache.Some? && now < cache.value.timestamp + 300000
    ensures r.Some? ==> r.value == cache.value.data
  {
    if cache.Some? && IsFresh(now, cache.value.timestamp) then Some(cache.value.data) else None
  }

  /** A fresh entry was fresh at every earlier moment since it was written, and an entry is
      stale from exactly five minutes after it was written. */
  lemma FreshnessWindow(timestamp: int, now: int, earlier: int)
    ensures IsFresh(timestamp + CacheDuration - 1, timestamp) && !IsFresh(timestamp + CacheDuration, timestamp)
    ensures IsFresh(now, timestamp) && earlier <= now ==> IsFresh(earlier, timestamp)
  {
  }

  datatype FetchPlan = NoUsername | UseCache(data: GitHubData) | Download

  /** What a refresh does: nothing without a user name, the cached data when fresh, else a download. */
  function PlanFetch(username: String, cache: Option<CacheEntry>, now: int): (r: FetchPlan)
    ensures username == [] <==> r.NoUsername?
    ensures r.UseCache? <==> username != [] && CachedData(cache, now).Some?
    ensures r.UseCache? ==> r.data == cache.value.data
  {
    if username == [] then NoUsername
    else match CachedData(cache, now)
      case Some(d) => UseCache(d)
      case None => Download
  }
}
