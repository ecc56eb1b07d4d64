/**
 * The task record that the statistics engine and the agent's task page read,
 * and the fixed-length day windows the engine counts in.
 */
module Tasks {
  import opened Wrappers

  const Pending: string := "pending"
  const InProgress: string := "in-progress"
  const Completed: string := "completed"

  const MsPerHour: int := 1000 * 60 * 60
  const MsPerDay: int := 1000 * 60 * 60 * 24

  /**
   * A task as the server sends it. Timestamps are milliseconds since the epoch;
   * a field the record does not carry is `None`. `status` is free text: only the
   * three values above are recognised. An absent `notes` is the empty string.
   */
  datatype Task = Task(
    id: string,
    status: string,
    createdAt: Option<int>,
    completedDate: Option<int>,
    updatedAt: Option<int>,
    notes: string,
    firstName: string)

  /** The index of the day that contains instant `ts` (each day is one fixed window). */
  function DayOf(ts: int): int {
    ts / MsPerDay
  }

  /** The index of today's window: the one containing `now`. */
  function Today(now: int): int {
    DayOf(now)
  }

  /** `ts` lies in the window [start of day `d`, start of day `d + 1`). */
  predicate InDay(ts: int, d: int) {
    d * MsPerDay <= ts < (d + 1) * MsPerDay
  }

  /** The window test and the day index agree. */
  lemma InDayIffDayOf(ts: int, d: int)
    ensures InDay(ts, d) <==> DayOf(ts) == d
  {
    var q := ts / MsPerDay;
    assert q * MsPerDay <= ts < (q + 1) * MsPerDay;
  }

  /** A completed task that records when it was completed. */
  predicate HasCompletion(t: Task) {
    t.status == Completed && t.completedDate.Some?
  }

  /** A task created in day `d`; a task with no creation time is in no day. */
  predicate CreatedInDay(t: Task, d: int) {
    t.createdAt.Some? && InDay(t.createdAt.value, d)
  }

  /** A completed task whose completion falls in day `d`. */
  predicate CompletedInDay(t: Task, d: int) {
    HasCompletion(t) && InDay(t.completedDate.value, d)
  }
}
