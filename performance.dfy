/**
 * `calculatePerformance`: the seven-day completion trend, the weighted
 * performance score and the best day of a list of tasks at instant `now`.
 */
module AgentPerformance {
  import opened Wrappers
  import opened Lists
  import opened Tasks
  import opened AgentStats

  /** A day (by index) and the number of completions counted in it. */
  datatype DayCount = DayCount(day: int, count: nat)

  datatype Performance = Performance(
    weeklyTrend: seq<DayCount>,
    performanceScore: real,
    completionRate: real,
    avgCompletionTime: real,
    bestDay: Option<DayCount>)

  // ---------------------------------------------------------------- weekly trend

  /** Completed tasks whose completion falls in the window of day `d`. */
  function CompletedOn(tasks: seq<Task>, d: int): nat {
    |Filter(tasks, (t: Task) => CompletedInDay(t, d))|
  }

  /** Seven entries, oldest first, for the days today-6 .. today, each with its completion count. */
  ghost predicate IsWeeklyTrend(tasks: seq<Task>, now: int, trend: seq<DayCount>) {
    |trend| == 7 &&
    forall k :: 0 <= k < |trend| ==>
      trend[k] == DayCount(Today(now) - 6 + k, CompletedOn(tasks, Today(now) - 6 + k))
  }

  /** Builds the trend day by day, from six days ago up to today. */
  method WeeklyTrend(tasks: seq<Task>, now: int) returns (trend: seq<DayCount>)
    ensures IsWeeklyTrend(tasks, now, trend)
  {
    trend := [];
    var i := 6;
    while i >= 0
      invariant -1 <= i <= 6
      invariant |trend| == 6 - i
      invariant forall k :: 0 <= k < |trend| ==>
        trend[k] == DayCount(Today(now) - 6 + k, CompletedOn(tasks, Today(now) - 6 + k))
    {
      var day := Today(now) - i;
      var dayTasks := |Filter(tasks, (t: Task) => CompletedInDay(t, day))|;
      trend := trend + [DayCount(day, dayTasks)];
      i := i - 1;
    }
  }

  function SumCounts(trend: seq<DayCount>): nat {
    if trend == [] then 0 else SumCounts(trend[..|trend| - 1]) + trend[|trend| - 1].count
  }

  /** Completions in the `n` consecutive days starting at day `lo`, summed day by day. */
  function SumOfDays(tasks: seq<Task>, lo: int, n: nat): nat {
    if n == 0 then 0 else SumOfDays(tasks, lo, n - 1) + CompletedOn(tasks, lo + n - 1)
  }

  predicate CompletedBetween(t: Task, lo: int, n: nat) {
    HasCompletion(t) && lo <= DayOf(t.completedDate.value) < lo + n
  }

  /** Because day windows are disjoint, summing per day counts each completion at most once. */
  lemma {:induction false} SumOfDaysIsCount(tasks: seq<Task>, lo: int, n: nat)
    ensures SumOfDays(tasks, lo, n) == |Filter(tasks, (t: Task) => CompletedBetween(t, lo, n))|
  {
    var p := (t: Task) => CompletedBetween(t, lo, n);
    if n == 0 {
      FilterNone(tasks, p);
    } else {
      SumOfDaysIsCount(tasks, lo, n - 1);
      var before := (t: Task) => CompletedBetween(t, lo, n - 1);
      var last := (t: Task) => CompletedInDay(t, lo + n - 1);
      forall t: Task
        ensures p(t) <==> before(t) || last(t)
        ensures !(before(t) && last(t))
      {
        if HasCompletion(t) {
          InDayIffDayOf(t.completedDate.value, lo + n - 1);
        }
      }
      FilterSplit(tasks, before, last, p);
    }
  }

  /** The partial sums of a trend are the day-by-day sums of its days. */
  lemma {:induction false} TrendPrefixSum(tasks: seq<Task>, now: int, trend: seq<DayCount>, k: nat)
    requires IsWeeklyTrend(tasks, now, trend)
    requires k <= 7
    ensures SumCounts(trend[..k]) == SumOfDays(tasks, Today(now) - 6, k)
  {
    if k > 0 {
      TrendPrefixSum(tasks, now, trend, k - 1);
      assert trend[..k][..k - 1] == trend[..k - 1];
    }
  }

  /** The trend never counts more completions than there are completed tasks. */
  lemma TrendSumAtMostCompleted(tasks: seq<Task>, now: int, trend: seq<DayCount>)
    requires IsWeeklyTrend(tasks, now, trend)
    ensures SumCounts(trend) <= CountStatus(tasks, Completed)
  {
    TrendPrefixSum(tasks, now, trend, 7);
    assert trend[..7] == trend;
    SumOfDaysIsCount(tasks, Today(now) - 6, 7);
    FilterMono(tasks, (t: Task) => CompletedBetween(t, Today(now) - 6, 7), (t: Task) => t.status == Completed);
  }

  /** The last trend entry is today, and it counts exactly the tasks counted as completed today. */
  lemma TrendEndsWithToday(tasks: seq<Task>, now: int, trend: seq<DayCount>)
    requires IsWeeklyTrend(tasks, now, trend)
    ensures trend[6].day == Today(now)
    ensures trend[6].count == CalculateStats(tasks, now).todayCompleted
  {
  }

  // ----------------------------------------------------------------- the score

  /** Speed component: 50 without data, else linear from 100 down to 0 at 48 hours. */
  function TimeScore(avg: real): (r: real)
    ensures 0.0 <= r <= 100.0
    ensures avg <= 0.0 ==> r == 50.0
    ensures avg >= 48.0 ==> r == 0.0
    ensures 0.0 < avg < 48.0 ==> r > 0.0
  {
    if avg > 0.0 then
      var linear := 100.0 - (avg / 48.0) * 100.0;
      if linear > 0.0 then linear else 0.0
    else 50.0
  }

  /** Among averages that carry data, a slower average never scores higher. */
  lemma TimeScoreAntitone(a: real, b: real)
    requires 0.0 < a <= b
    ensures TimeScore(b) <= TimeScore(a)
  {
  }

  /** 70% completion rate, 30% speed. */
  function PerformanceScore(completionRate: real, timeScore: real): (r: real)
    ensures 0.0 <= completionRate <= 100.0 && 0.0 <= timeScore <= 100.0 ==> 0.0 <= r <= 100.0
  {
    completionRate * 0.7 + timeScore * 0.3
  }

  /** A higher completion rate never lowers the score. */
  lemma PerformanceScoreMonotone(rate1: real, rate2: real, timeScore: real)
    requires rate1 <= rate2
    ensures PerformanceScore(rate1, timeScore) <= PerformanceScore(rate2, timeScore)
  {
  }

  /** One task completed 48 hours after creation: rate 100, time score 0, score 70. */
  lemma OneTaskInFortyEightHours()
    ensures var tasks := [Task("a", Completed, Some(0), Some(48 * MsPerHour), None, "", "")];
      var rate := CompletionRate(CountStatus(tasks, Completed), |tasks|);
      var avg := AvgCompletionTime(tasks);
      && rate == 100.0
      && avg == 48.0
      && TimeScore(avg) == 0.0
      && PerformanceScore(rate, TimeScore(avg)) == 70.0
  {
    var t := Task("a", Completed, Some(0), Some(48 * MsPerHour), None, "", "");
    assert WithDuration([t]) == [t];
    assert CountStatus([t], Completed) == 1;
    assert TotalDuration([t]) == 48 * MsPerHour;
  }

  // ------------------------------------------------------------------ best day

  /** Completed tasks whose completion date has day index `d`. */
  function DailyCount(tasks: seq<Task>, d: int): nat {
    |Filter(tasks, (t: Task) => HasCompletion(t) && DayOf(t.completedDate.value) == d)|
  }

  /** The days of the completion dates, without repetition, in order of first appearance. */
  ghost function DayKeys(tasks: seq<Task>): seq<int> {
    if tasks == [] then []
    else
      var keys := DayKeys(tasks[..|tasks| - 1]);
      var t := tasks[|tasks| - 1];
      if HasCompletion(t) && DayOf(t.completedDate.value) !in keys
      then keys + [DayOf(t.completedDate.value)]
      else keys
  }

  /**
   * `best` is what the strict-`>` reduction over the insertion-ordered day
   * dictionary produces: nothing when no day was recorded, otherwise a day
   * with the greatest count, the first such day in insertion order.
   */
  ghost predicate IsBestDay(tasks: seq<Task>, best: Option<DayCount>) {
    var keys := DayKeys(tasks);
    match best
    case None => keys == []
    case Some(b) =>
      && b.count == DailyCount(tasks, b.day)
      && (forall d :: d in keys ==> DailyCount(tasks, d) <= b.count)
      && exists k :: 0 <= k < |keys| && keys[k] == b.day &&
           forall j :: 0 <= j < k ==> DailyCount(tasks, keys[j]) < b.count
  }

  lemma DailyCountSnoc(s: seq<Task>, t: Task, d: int)
    ensures DailyCount(s + [t], d) ==
      DailyCount(s, d) + (if HasCompletion(t) && DayOf(t.completedDate.value) == d then 1 else 0)
  {
    FilterConcat(s, [t], (x: Task) => HasCompletion(x) && DayOf(x.completedDate.value) == d);
  }

  /** A day is recorded exactly when some completed task was completed on it. */
  lemma {:induction false} DayKeysMembership(tasks: seq<Task>, d: int)
    ensures d in DayKeys(tasks) <==> DailyCount(tasks, d) > 0
  {
    if tasks != [] {
      var s := tasks[..|tasks| - 1];
      var t := tasks[|tasks| - 1];
      assert s + [t] == tasks;
      DayKeysMembership(s, d);
      DailyCountSnoc(s, t, d);
    }
  }

  /** No day is recorded twice. */
  lemma {:induction false} DayKeysDistinct(tasks: seq<Task>)
    ensures forall i, j :: 0 <= i < j < |DayKeys(tasks)| ==> DayKeys(tasks)[i] != DayKeys(tasks)[j]
  {
    if tasks != [] {
      DayKeysDistinct(tasks[..|tasks| - 1]);
    }
  }

  /** `keys` and `counts` describe the completions per day of `prefix`, in insertion order. */
  ghost predicate DescribesDays(prefix: seq<Task>, keys: seq<int>, counts: map<int, nat>) {
    && keys == DayKeys(prefix)
    && (forall d :: d in keys ==> d in counts)
    && (forall d :: d in counts ==> d in keys && counts[d] == DailyCount(prefix, d) && counts[d] > 0)
    && (forall d :: d !in counts ==> DailyCount(prefix, d) == 0)
  }

  /** The dictionary after recording task `t`, as the `forEach` body updates it. */
  function Record(keys: seq<int>, counts: map<int, nat>, t: Task): (r: (seq<int>, map<int, nat>))
    ensures |keys| <= |r.0| <= |keys| + 1 && r.0[..|keys|] == keys
    ensures !HasCompletion(t) ==> r == (keys, counts)
    ensures HasCompletion(t) ==> DayOf(t.completedDate.value) in r.0
    ensures HasCompletion(t) && DayOf(t.completedDate.value) in keys ==> r.0 == keys
    ensures HasCompletion(t) && DayOf(t.completedDate.value) !in keys ==> r.0 == keys + [DayOf(t.completedDate.value)]
    ensures forall d :: d in r.1 <==> d in counts || (HasCompletion(t) && d == DayOf(t.completedDate.value))
    ensures forall d :: d in r.1 ==>
      r.1[d] == (if d in counts then counts[d] else 0) + (if HasCompletion(t) && d == DayOf(t.completedDate.value) then 1 else 0)
  {
    if HasCompletion(t) then
      var date := DayOf(t.completedDate.value);
      (if date in keys then keys else keys + [date],
       counts[date := (if date in counts then counts[date] else 0) + 1])
    else (keys, counts)
  }

  /** One step of the `forEach` keeps the dictionary in step with the tasks seen so far. */
  lemma RecordStep(prefix: seq<Task>, t: Task, keys: seq<int>, counts: map<int, nat>)
    requires DescribesDays(prefix, keys, counts)
    ensures DescribesDays(prefix + [t], Record(keys, counts, t).0, Record(keys, counts, t).1)
  {
    assert (prefix + [t])[..|prefix|] == prefix;
    forall d
      ensures DailyCount(prefix + [t], d) ==
        DailyCount(prefix, d) + (if HasCompletion(t) && DayOf(t.completedDate.value) == d then 1 else 0)
    {
      DailyCountSnoc(prefix, t, d);
    }
  }

  /** The `forEach` body: counts one more completion on the task's day, adding the day when new. */
  method RecordTask(keys: seq<int>, counts: map<int, nat>, t: Task) returns (keys': seq<int>, counts': map<int, nat>)
    ensures (keys', counts') == Record(keys, counts, t)
  {
    keys', counts' := keys, counts;
    if t.status == Completed && t.completedDate.Some? {
      var date := DayOf(t.completedDate.value);
      counts' := counts'[date := (if date in counts' then counts'[date] else 0) + 1];
      if date !in keys' {
        keys' := keys' + [date];
      }
    }
  }

  /**
   * The `dailyCompletions` dictionary: its keys in insertion order and the
   * count recorded for each.
   */
  method DailyCompletions(tasks: seq<Task>) returns (keys: seq<int>, counts: map<int, nat>)
    ensures DescribesDays(tasks, keys, counts)
  {
    keys, counts := [], map[];
    var i := 0;
    while i < |tasks|
      invariant 0 <= i <= |tasks|
      invariant DescribesDays(tasks[..i], keys, counts)
    {
      ghost var next := Record(keys, counts, tasks[i]);
      assert DescribesDays(tasks[..i + 1], next.0, next.1) by {
        RecordStep(tasks[..i], tasks[i], keys, counts);
        assert tasks[..i + 1] == tasks[..i] + [tasks[i]];
      }
      keys, counts := RecordTask(keys, counts, tasks[i]);
      i := i + 1;
    }
    assert tasks[..i] == tasks;
  }

  /**
   * `best` is the first entry of `keys` whose count is the greatest, or
   * nothing when there are no keys.
   */
  ghost predicate IsFirstMaximum(keys: seq<int>, counts: map<int, nat>, best: Option<DayCount>) {
    match best
    case None => keys == []
    case Some(b) =>
      && b.day in counts
      && b.count == counts[b.day]
      && (forall m :: 0 <= m < |keys| ==> keys[m] in counts && counts[keys[m]] <= b.count)
      && exists k :: 0 <= k < |keys| && keys[k] == b.day &&
           forall m :: 0 <= m < k ==> counts[keys[m]] < b.count
  }

  /**
   * The reduction `count > max.count ? {date, count} : max` from `{date: null, count: 0}`
   * over the dictionary's entries in insertion order.
   */
  method FirstMaximum(keys: seq<int>, counts: map<int, nat>) returns (best: Option<DayCount>)
    requires forall m :: 0 <= m < |keys| ==> keys[m] in counts && counts[keys[m]] > 0
    ensures IsFirstMaximum(keys, counts, best)
  {
    var bestDate: Option<int> := None;
    var bestCount: nat := 0;
    ghost var bestIndex := 0;
    var j := 0;
    while j < |keys|
      invariant 0 <= j <= |keys|
      invariant bestDate.None? <==> j == 0
      invariant bestDate.None? ==> bestCount == 0
      invariant forall m :: 0 <= m < j ==> counts[keys[m]] <= bestCount
      invariant bestDate.Some? ==>
        && 0 <= bestIndex < j
        && keys[bestIndex] == bestDate.value
        && counts[keys[bestIndex]] == bestCount
        && forall m :: 0 <= m < bestIndex ==> counts[keys[m]] < bestCount
    {
      var count := counts[keys[j]];
      if count > bestCount {
        bestDate, bestCount := Some(keys[j]), count;
        bestIndex := j;
      }
      j := j + 1;
    }
    if bestDate.Some? {
      best := Some(DayCount(bestDate.value, bestCount));
      assert keys[bestIndex] == best.value.day;
    } else {
      best := None;
    }
  }

  /** Every recorded day has a positive count. */
  lemma RecordedDaysCounted(tasks: seq<Task>, keys: seq<int>, counts: map<int, nat>)
    requires DescribesDays(tasks, keys, counts)
    ensures forall m :: 0 <= m < |keys| ==> keys[m] in counts && counts[keys[m]] > 0
  {
    forall m | 0 <= m < |keys|
      ensures keys[m] in counts && counts[keys[m]] > 0
    {
      var d := keys[m];
      assert d in keys;
      assert forall d' :: d' in keys ==> d' in counts;
      assert d in counts;
    }
  }

  /** The first maximum of the dictionary of `tasks` is the best day of `tasks`. */
  lemma FirstMaximumIsBestDay(tasks: seq<Task>, keys: seq<int>, counts: map<int, nat>, best: Option<DayCount>)
    requires DescribesDays(tasks, keys, counts)
    requires IsFirstMaximum(keys, counts, best)
    ensures IsBestDay(tasks, best)
  {
    if best.Some? {
      var b := best.value;
      var k :| 0 <= k < |keys| && keys[k] == b.day && forall m :: 0 <= m < k ==> counts[keys[m]] < b.count;
      forall d | d in keys
        ensures DailyCount(tasks, d) <= b.count
      {
        var m :| 0 <= m < |keys| && keys[m] == d;
      }
      forall m | 0 <= m < k
        ensures DailyCount(tasks, keys[m]) < b.count
      {
        assert keys[m] in keys;
      }
    }
  }

  /** `dailyCompletions` followed by the reduction that picks the best day. */
  method BestDay(tasks: seq<Task>) returns (best: Option<DayCount>)
    ensures IsBestDay(tasks, best)
  {
    var keys, counts := DailyCompletions(tasks);
    RecordedDaysCounted(tasks, keys, counts);
    best := FirstMaximum(keys, counts);
    FirstMaximumIsBestDay(tasks, keys, counts, best);
  }

  /** There is no best day exactly when no completed task records a completion date. */
  lemma BestDayNoneIff(tasks: seq<Task>, best: Option<DayCount>)
    requires IsBestDay(tasks, best)
    ensures best.None? <==> forall t :: t in tasks ==> !HasCompletion(t)
  {
    if best.None? {
      forall t | t in tasks && HasCompletion(t)
        ensures false
      {
        var d := DayOf(t.completedDate.value);
        assert t in Filter(tasks, (x: Task) => HasCompletion(x) && DayOf(x.completedDate.value) == d);
        DayKeysMembership(tasks, d);
      }
    } else {
      var k :| 0 <= k < |DayKeys(tasks)| && DayKeys(tasks)[k] == best.value.day;
      var d := best.value.day;
      DayKeysMembership(tasks, d);
      var r := Filter(tasks, (x: Task) => HasCompletion(x) && DayOf(x.completedDate.value) == d);
      assert r[0] in r;
    }
  }

  /** The same count as the trend's, for day indices. */
  lemma CompletedOnIsDailyCount(tasks: seq<Task>, d: int)
    ensures CompletedOn(tasks, d) == DailyCount(tasks, d)
  {
    forall t: Task
      ensures CompletedInDay(t, d) == (HasCompletion(t) && DayOf(t.completedDate.value) == d)
    {
      if HasCompletion(t) {
        InDayIffDayOf(t.completedDate.value, d);
      }
    }
    FilterExt(tasks, (t: Task) => CompletedInDay(t, d),
                     (t: Task) => HasCompletion(t) && DayOf(t.completedDate.value) == d);
  }

  /** No day of the weekly trend beats the best day; without a best day the trend is all zeros. */
  lemma BestDayDominatesTrend(tasks: seq<Task>, now: int, trend: seq<DayCount>, best: Option<DayCount>)
    requires IsWeeklyTrend(tasks, now, trend)
    requires IsBestDay(tasks, best)
    ensures forall k :: 0 <= k < 7 ==> trend[k].count <= (if best.Some? then best.value.count else 0)
  {
    forall k | 0 <= k < 7
      ensures trend[k].count <= (if best.Some? then best.value.count else 0)
    {
      var d := Today(now) - 6 + k;
      CompletedOnIsDailyCount(tasks, d);
      DayKeysMembership(tasks, d);
    }
  }

  // ----------------------------------------------------------- the whole record

  /**
   * Computes the performance record; its completion rate and average time are
   * recomputed here and agree with those of `CalculateStats`.
   */
  method CalculatePerformance(tasks: seq<Task>, now: int) returns (p: Performance)
    ensures IsWeeklyTrend(tasks, now, p.weeklyTrend)
    ensures p.completionRate == CalculateStats(tasks, now).completionRate
    ensures p.avgCompletionTime == CalculateStats(tasks, now).avgCompletionTime
    ensures p.performanceScore == PerformanceScore(p.completionRate, TimeScore(p.avgCompletionTime))
    ensures 0.0 <= p.performanceScore <= 100.0
    ensures IsBestDay(tasks, p.bestDay)
  {
    var weeklyTrend := WeeklyTrend(tasks, now);

    var totalTasks := |tasks|;
    var completedTasks := CountStatus(tasks, Completed);
    var completionRate := if totalTasks > 0 then (completedTasks as real / totalTasks as real) * 100.0 else 0.0;

    var withTime := WithDuration(tasks);
    var avgCompletionTime := 0.0;
    if |withTime| > 0 {
      var totalTime := TotalDuration(withTime);
      avgCompletionTime := totalTime as real / |withTime| as real / (MsPerHour as real);
    }
    var timeScore := TimeScore(avgCompletionTime);
    var performanceScore := PerformanceScore(completionRate, timeScore);

    var bestDay := BestDay(tasks);
    p := Performance(weeklyTrend, performanceScore, completionRate, avgCompletionTime, bestDay);
  }
}
