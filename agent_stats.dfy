/**
 * Status counters, completion rate, the "today" window and the average
 * completion time of a list of tasks (`calculateStats` and `getTodayTasks`).
 */
module AgentStats {
  import opened Wrappers
  import opened Lists
  import opened Tasks

  datatype Stats = Stats(
    totalTasks: nat,
    pendingTasks: nat,
    inProgressTasks: nat,
    completedTasks: nat,
    completionRate: real,
    todayTasks: nat,
    todayCompleted: nat,
    avgCompletionTime: real)

  /** Number of tasks whose status is exactly `status`. */
  function CountStatus(tasks: seq<Task>, status: string): (n: nat)
    ensures n <= |tasks|
    ensures n == 0 <==> forall t :: t in tasks ==> t.status != status
    ensures n == |tasks| <==> forall t :: t in tasks ==> t.status == status
  {
    var p := (t: Task) => t.status == status;
    FilterMultiplicity(tasks, p);
    FilterAllIff(tasks, p);
    |Filter(tasks, p)|
  }

  /** A status none of the three counters recognises. */
  predicate OtherStatus(t: Task) {
    t.status != Pending && t.status != InProgress && t.status != Completed
  }

  /** Percentage of completed tasks; zero for an empty list. */
  function CompletionRate(completed: nat, total: nat): (r: real)
    ensures total == 0 ==> r == 0.0
    ensures 0.0 <= r
    ensures completed <= total ==> r <= 100.0
    ensures 0 < total && completed == total ==> r == 100.0
    ensures 0 < total ==> r * (total as real) == (completed as real) * 100.0
  {
    if total > 0 then
      var r := (completed as real) / (total as real) * 100.0;
      assert r * (total as real) == (completed as real) * 100.0;
      r
    else 0.0
  }

  /** The tasks created today, in their original order. */
  function GetTodayTasks(tasks: seq<Task>, now: int): (r: seq<Task>)
    ensures forall t :: t in r <==> t in tasks && CreatedInDay(t, Today(now))
    ensures forall t :: multiset(r)[t] == (if CreatedInDay(t, Today(now)) then multiset(tasks)[t] else 0)
    ensures Subsequence(r, tasks)
  {
    var p := (t: Task) => CreatedInDay(t, Today(now));
    FilterMultiplicity(tasks, p);
    FilterIsSubsequence(tasks, p);
    Filter(tasks, p)
  }

  /** Number of completed tasks whose completion falls in today's window. */
  function CountCompletedToday(tasks: seq<Task>, now: int): (n: nat)
    ensures n <= |tasks|
    ensures n == 0 <==> forall t :: t in tasks ==> !CompletedInDay(t, Today(now))
  {
    var p := (t: Task) => CompletedInDay(t, Today(now));
    FilterMultiplicity(tasks, p);
    |Filter(tasks, p)|
  }

  /** A task that enters the average completion time. */
  predicate HasDuration(t: Task) {
    t.status == Completed && t.completedDate.Some? && t.createdAt.Some?
  }

  /** Milliseconds from creation to completion; may be negative, it is not clamped. */
  function Duration(t: Task): int
    requires HasDuration(t)
  {
    t.completedDate.value - t.createdAt.value
  }

  function TotalDuration(ws: seq<Task>): int
    requires forall t :: t in ws ==> HasDuration(t)
  {
    if ws == [] then 0 else Duration(ws[0]) + TotalDuration(ws[1..])
  }

  /** The tasks that enter the average completion time. */
  function WithDuration(tasks: seq<Task>): (ws: seq<Task>)
    ensures forall t :: t in ws ==> HasDuration(t)
    ensures forall t :: multiset(ws)[t] == (if HasDuration(t) then multiset(tasks)[t] else 0)
  {
    FilterMultiplicity(tasks, HasDuration);
    Filter(tasks, HasDuration)
  }

  /** Mean time from creation to completion, in hours; zero when no task qualifies. */
  function AvgCompletionTime(tasks: seq<Task>): (r: real)
    ensures WithDuration(tasks) == [] ==> r == 0.0
  {
    var ws := WithDuration(tasks);
    if |ws| > 0 then (TotalDuration(ws) as real / |ws| as real) / (MsPerHour as real) else 0.0
  }

  /** The average times the number of qualifying tasks is their total duration, in hours. */
  lemma AvgIsMean(tasks: seq<Task>)
    requires WithDuration(tasks) != []
    ensures AvgCompletionTime(tasks) * (|WithDuration(tasks)| as real) * (MsPerHour as real)
            == TotalDuration(WithDuration(tasks)) as real
  {
    var ws := WithDuration(tasks);
    QuotientTimesDivisors(TotalDuration(ws) as real, |ws| as real, MsPerHour as real);
  }

  /** Dividing by `n` and then by `h` is undone by multiplying by both. */
  lemma QuotientTimesDivisors(total: real, n: real, h: real)
    requires n > 0.0 && h > 0.0
    ensures (total / n) / h * n * h == total
  {
    var q := total / n;
    assert q * n == total;
    assert (q / h) * h == q;
  }

  /** The counters of a task list at instant `now`, before display rounding. */
  function CalculateStats(tasks: seq<Task>, now: int): (s: Stats)
    ensures s.totalTasks == |tasks|
    ensures s.pendingTasks == CountStatus(tasks, Pending)
    ensures s.inProgressTasks == CountStatus(tasks, InProgress)
    ensures s.completedTasks == CountStatus(tasks, Completed)
    ensures s.pendingTasks + s.inProgressTasks + s.completedTasks + |Filter(tasks, OtherStatus)| == s.totalTasks
    ensures s.completionRate == CompletionRate(s.completedTasks, s.totalTasks)
    ensures s.todayCompleted == CountCompletedToday(tasks, now)
    ensures s.avgCompletionTime == AvgCompletionTime(tasks)
    ensures 0.0 <= s.completionRate <= 100.0
    ensures s.todayTasks == |GetTodayTasks(tasks, now)|
    ensures s.todayCompleted <= s.completedTasks
    ensures tasks == [] ==> s == Stats(0, 0, 0, 0, 0.0, 0, 0, 0.0)
  {
    var total := |tasks|;
    var pending := CountStatus(tasks, Pending);
    var inProgress := CountStatus(tasks, InProgress);
    var completed := CountStatus(tasks, Completed);
    StatusCountsPartition(tasks);
    TodayCompletedAtMostCompleted(tasks, now);
    Stats(total, pending, inProgress, completed,
          CompletionRate(completed, total),
          |GetTodayTasks(tasks, now)|,
          CountCompletedToday(tasks, now),
          AvgCompletionTime(tasks))
  }

  /**
   * Every task is counted by exactly one of the three status counters or has
   * some other status.
   */
  lemma StatusCountsPartition(tasks: seq<Task>)
    ensures CountStatus(tasks, Pending) + CountStatus(tasks, InProgress) + CountStatus(tasks, Completed)
            + |Filter(tasks, OtherStatus)| == |tasks|
  {
    var isP := (t: Task) => t.status == Pending;
    var isI := (t: Task) => t.status == InProgress;
    var isC := (t: Task) => t.status == Completed;
    var isPI := (t: Task) => isP(t) || isI(t);
    var isPIC := (t: Task) => isPI(t) || isC(t);
    var any := (t: Task) => isPIC(t) || OtherStatus(t);
    FilterSplit(tasks, isP, isI, isPI);
    FilterSplit(tasks, isPI, isC, isPIC);
    FilterSplit(tasks, isPIC, OtherStatus, any);
    FilterAll(tasks, any);
  }

  /** A task completed today is in particular a completed task. */
  lemma TodayCompletedAtMostCompleted(tasks: seq<Task>, now: int)
    ensures CountCompletedToday(tasks, now) <= CountStatus(tasks, Completed)
  {
    FilterMono(tasks, (t: Task) => CompletedInDay(t, Today(now)), (t: Task) => t.status == Completed);
  }

  /** Today's tasks of a concatenation are today's tasks of each part, in order. */
  lemma GetTodayTasksConcat(a: seq<Task>, b: seq<Task>, now: int)
    ensures GetTodayTasks(a + b, now) == GetTodayTasks(a, now) + GetTodayTasks(b, now)
  {
    FilterConcat(a, b, (t: Task) => CreatedInDay(t, Today(now)));
  }

  /** Bounds on the durations of the qualifying tasks bound the total. */
  lemma {:induction false} TotalDurationWithin(ws: seq<Task>, lo: int, hi: int)
    requires forall t :: t in ws ==> HasDuration(t) && lo <= Duration(t) <= hi
    ensures |ws| * lo <= TotalDuration(ws) <= |ws| * hi
  {
    if ws != [] {
      TotalDurationWithin(ws[1..], lo, hi);
      assert |ws| * lo == (|ws| - 1) * lo + lo;
      assert |ws| * hi == (|ws| - 1) * hi + hi;
    }
  }

  /**
   * The average lies between the shortest and the longest qualifying duration
   * (converted to hours): it is a mean, with no clamping of its inputs.
   */
  lemma AvgCompletionTimeWithin(tasks: seq<Task>, lo: int, hi: int)
    requires WithDuration(tasks) != []
    requires forall t :: t in WithDuration(tasks) ==> lo <= Duration(t) <= hi
    ensures (lo as real) / (MsPerHour as real) <= AvgCompletionTime(tasks) <= (hi as real) / (MsPerHour as real)
  {
    var ws := WithDuration(tasks);
    assert forall t :: t in ws ==> HasDuration(t) && lo <= Duration(t) <= hi;
    TotalDurationWithin(ws, lo, hi);
    MeanWithin(TotalDuration(ws), |ws|, lo, hi);
    DivideByHour(TotalDuration(ws) as real / |ws| as real, lo as real, hi as real);
  }

  /** Dividing a bounded value by the length of an hour bounds the quotient. */
  lemma DivideByHour(x: real, lo: real, hi: real)
    requires lo <= x <= hi
    ensures lo / (MsPerHour as real) <= x / (MsPerHour as real) <= hi / (MsPerHour as real)
  {
  }

  /** The mean of `n` integers in [lo, hi] lies in [lo, hi]. */
  lemma MeanWithin(total: int, n: nat, lo: int, hi: int)
    requires n > 0
    requires n * lo <= total <= n * hi
    ensures lo as real <= total as real / n as real <= hi as real
  {
    var m := total as real / n as real;
    assert m * (n as real) == total as real;
    assert (n * lo) as real == (n as real) * (lo as real);
    assert (n * hi) as real == (n as real) * (hi as real);
  }

  /** A task completed two hours before it was created yields a negative average. */
  lemma NegativeDurationNotClamped()
    ensures AvgCompletionTime([Task("a", Completed, Some(2 * MsPerHour), Some(0), None, "", "")]) == -2.0
  {
    var t := Task("a", Completed, Some(2 * MsPerHour), Some(0), None, "", "");
    assert WithDuration([t]) == [t];
    assert TotalDuration([t]) == -2 * MsPerHour;
  }
}
