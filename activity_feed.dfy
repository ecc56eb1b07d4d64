/**
 * `getActivityFeed`: one activity entry per task, classified by a fixed
 * priority rule, sorted most recent first and cut to a limit.
 */
module ActivityFeed {
  import opened Wrappers
  import opened Tasks

  datatype ActivityType = CompletedActivity | InProgressActivity | AssignedActivity

  /** An entry of the feed; `task` carries the task fields the entry copies. */
  datatype Activity = Activity(
    id: string,
    activityType: ActivityType,
    timestamp: Option<int>,
    message: string,
    task: Task)

  const DefaultLimit: int := 20

  const CompletedPrefix: string := "Completed task: "
  const StartedPrefix: string := "Started working on: "
  const AssignedPrefix: string := "New task assigned: "

  function Prefix(kind: ActivityType): string {
    match kind
    case CompletedActivity => CompletedPrefix
    case InProgressActivity => StartedPrefix
    case AssignedActivity => AssignedPrefix
  }

  /** What a message names the task by: its notes, or its first name when the notes are empty. */
  function Subject(t: Task): string {
    if t.notes != "" then t.notes else t.firstName
  }

  /**
   * Completed-with-a-date first, then in progress, else assigned; the timestamp
   * is the date that belongs to the chosen kind.
   */
  function ToActivity(t: Task): (a: Activity)
    ensures a.id == t.id && a.task == t
    ensures a.activityType == CompletedActivity <==> HasCompletion(t)
    ensures a.activityType == InProgressActivity <==> !HasCompletion(t) && t.status == InProgress
    ensures a.activityType == AssignedActivity <==> !HasCompletion(t) && t.status != InProgress
    ensures a.activityType == CompletedActivity ==> a.timestamp == t.completedDate && a.timestamp.Some?
    ensures a.activityType == InProgressActivity ==> a.timestamp == t.updatedAt
    ensures a.activityType == AssignedActivity ==> a.timestamp == t.createdAt
    ensures a.message == Prefix(a.activityType) + Subject(t)
  {
    if t.status == Completed && t.completedDate.Some? then
      Activity(t.id, CompletedActivity, t.completedDate, CompletedPrefix + Subject(t), t)
    else if t.status == InProgress then
      Activity(t.id, InProgressActivity, t.updatedAt, StartedPrefix + Subject(t), t)
    else
      Activity(t.id, AssignedActivity, t.createdAt, AssignedPrefix + Subject(t), t)
  }

  predicate StartsWith(s: string, prefix: string) {
    |prefix| <= |s| && s[..|prefix|] == prefix
  }

  /** Reads the kind of an entry back from its message. */
  function KindOfMessage(message: string): Option<ActivityType> {
    if StartsWith(message, CompletedPrefix) then Some(CompletedActivity)
    else if StartsWith(message, StartedPrefix) then Some(InProgressActivity)
    else if StartsWith(message, AssignedPrefix) then Some(AssignedActivity)
    else None
  }

  /** The message prefix determines the kind: the three prefixes cannot be confused. */
  lemma MessageNamesKind(t: Task)
    ensures KindOfMessage(ToActivity(t).message) == Some(ToActivity(t).activityType)
  {
    var a := ToActivity(t);
    var p := Prefix(a.activityType);
    assert a.message[..|p|] == p;
    assert a.message[0] == p[0];
  }

  /** The entries of all tasks, in task order (`tasks.map`). */
  function Activities(tasks: seq<Task>): (r: seq<Activity>)
    ensures |r| == |tasks|
    ensures forall i :: 0 <= i < |tasks| ==> r[i] == ToActivity(tasks[i])
  {
    seq(|tasks|, i requires 0 <= i < |tasks| => ToActivity(tasks[i]))
  }

  /**
   * `x` is at least as recent as `y`. The comparator of the source yields NaN
   * when a timestamp is missing; here a missing timestamp ranks after every
   * present one.
   */
  predicate Newer(x: Option<int>, y: Option<int>) {
    match y
    case None => true
    case Some(b) => x.Some? && x.value >= b
  }

  lemma NewerIsTotalPreorder(x: Option<int>, y: Option<int>, z: Option<int>)
    ensures Newer(x, x)
    ensures Newer(x, y) || Newer(y, x)
    ensures Newer(x, y) && Newer(y, z) ==> Newer(x, z)
  {
  }

  /**
   * For two present timestamps `Newer` is the comparator `b - a` of the source
   * read as "a may come first"; a missing timestamp sorts after every present one.
   */
  lemma NewerMatchesComparator(x: int, y: int)
    ensures Newer(Some(x), Some(y)) <==> y - x <= 0
    ensures Newer(Some(x), None) && !Newer(None, Some(y))
  {
  }

  ghost predicate SortedByRecency(s: seq<Activity>) {
    forall i, j :: 0 <= i < j < |s| ==> Newer(s[i].timestamp, s[j].timestamp)
  }

  /** Neither entry is more recent than the other: the comparator returns 0 for them. */
  predicate Tied(x: Activity, y: Activity) {
    Newer(x.timestamp, y.timestamp) && Newer(y.timestamp, x.timestamp)
  }

  /**
   * `after[k]` is `before[perm[k]]`, `perm` is a permutation of the positions,
   * and tied entries keep their relative order: the rearrangement a stable sort makes.
   */
  ghost predicate StablyRearranges(perm: seq<int>, before: seq<Activity>, after: seq<Activity>) {
    && Origins(perm, before, after)
    && (forall p, q :: 0 <= p < q < |perm| ==> perm[p] != perm[q])
    && (forall p, q :: 0 <= p < q < |perm| && Tied(after[p], after[q]) ==> perm[p] < perm[q])
  }

  /** Each entry of `after` is the entry of `before` at the position `perm` gives. */
  ghost predicate Origins(perm: seq<int>, before: seq<Activity>, after: seq<Activity>) {
    && |perm| == |before| == |after|
    && forall k :: 0 <= k < |perm| ==> 0 <= perm[k] < |before| && after[k] == before[perm[k]]
  }

  /**
   * The first `i` entries are sorted, come from the first `i` positions, once
   * each, with ties in their original order; the rest are still in place.
   */
  ghost predicate SortedPrefix(s: seq<Activity>, perm: seq<int>, i: int)
    requires 0 <= i <= |s| == |perm|
  {
    && (forall p, q :: 0 <= p < q < i ==> Newer(s[p].timestamp, s[q].timestamp))
    && (forall k :: 0 <= k < i ==> perm[k] < i)
    && (forall k :: i <= k < |s| ==> perm[k] == k)
    && (forall p, q :: 0 <= p < q < i ==> perm[p] != perm[q])
    && (forall p, q :: 0 <= p < q < i && Tied(s[p], s[q]) ==> perm[p] < perm[q])
  }

  /**
   * `activities.sort(...)`: sorts in place, most recent first, keeping tied
   * entries in their original order. `perm` says where each entry came from.
   */
  method SortByRecency(a: array<Activity>) returns (ghost perm: seq<int>)
    modifies a
    ensures SortedByRecency(a[..])
    ensures multiset(a[..]) == multiset(old(a[..]))
    ensures StablyRearranges(perm, old(a[..]), a[..])
  {
    ghost var before := a[..];
    perm := seq(a.Length, k => k);
    var i := 0;
    while i < a.Length
      invariant 0 <= i <= a.Length
      invariant multiset(a[..]) == multiset(before)
      invariant Origins(perm, before, a[..])
      invariant SortedPrefix(a[..], perm, i)
    {
      perm := InsertNext(a, i, before, perm);
      i := i + 1;
    }
  }

  /** One step of insertion sort: moves `a[i]` back past the strictly older entries. */
  method InsertNext(a: array<Activity>, i: int, ghost before: seq<Activity>, ghost perm0: seq<int>)
    returns (ghost perm: seq<int>)
    requires 0 <= i < a.Length
    requires Origins(perm0, before, a[..])
    requires SortedPrefix(a[..], perm0, i)
    modifies a
    ensures multiset(a[..]) == multiset(old(a[..]))
    ensures Origins(perm, before, a[..])
    ensures SortedPrefix(a[..], perm, i + 1)
  {
    perm := perm0;
    var j := i;
    StartSifting(a[..], perm, i);
    while j > 0 && !Newer(a[j - 1].timestamp, a[j].timestamp)
      invariant 0 <= j <= i
      invariant multiset(a[..]) == multiset(old(a[..]))
      invariant Origins(perm, before, a[..])
      invariant Sifting(a[..], perm, i, j)
    {
      ghost var s := a[..];
      a[j - 1], a[j] := a[j], a[j - 1];
      assert a[..] == Swap(s, j - 1, j);
      SwapKeepsMultiset(s, j - 1, j);
      SiftStep(s, perm, before, i, j);
      perm := Swap(perm, j - 1, j);
      j := j - 1;
    }
    StopSifting(a[..], perm, i, j);
  }

  /** `s` with the entries at `x` and `y` exchanged. */
  function Swap<T>(s: seq<T>, x: int, y: int): (r: seq<T>)
    requires 0 <= x < |s| && 0 <= y < |s|
    ensures |r| == |s| && r[x] == s[y] && r[y] == s[x]
    ensures forall k :: 0 <= k < |s| && k != x && k != y ==> r[k] == s[k]
  {
    s[x := s[y]][y := s[x]]
  }

  lemma SwapKeepsMultiset<T>(s: seq<T>, x: int, y: int)
    requires 0 <= x < y < |s|
    ensures multiset(Swap(s, x, y)) == multiset(s)
  {
    var r := Swap(s, x, y);
    assert s == s[..x] + [s[x]] + s[x + 1..y] + [s[y]] + s[y + 1..];
    assert r == s[..x] + [s[y]] + s[x + 1..y] + [s[x]] + s[y + 1..];
  }

  /**
   * The entry that started at position `i` now sits at `j`; the other entries
   * of `s[..i + 1]` are sorted, from the first `i` positions with ties in
   * their original order; the entries after `j` are strictly older than it.
   */
  ghost predicate Sifting(s: seq<Activity>, perm: seq<int>, i: int, j: int)
  {
    && 0 <= j <= i < |s| == |perm|
    && (forall p, q :: 0 <= p < q <= i && p != j && q != j ==> Newer(s[p].timestamp, s[q].timestamp))
    && (forall q :: j < q <= i ==> Newer(s[j].timestamp, s[q].timestamp) && !Newer(s[q].timestamp, s[j].timestamp))
    && perm[j] == i
    && (forall k :: 0 <= k <= i && k != j ==> perm[k] < i)
    && (forall k :: i < k < |s| ==> perm[k] == k)
    && (forall p, q :: 0 <= p < q <= i && p != j && q != j ==> perm[p] != perm[q])
    && (forall p, q :: 0 <= p < q <= i && p != j && q != j && Tied(s[p], s[q]) ==> perm[p] < perm[q])
  }

  lemma StartSifting(s: seq<Activity>, perm: seq<int>, i: int)
    requires 0 <= i < |s| == |perm|
    requires SortedPrefix(s, perm, i)
    ensures Sifting(s, perm, i, i)
  {
  }

  /** Exchanging the moving entry with a strictly older one before it keeps the sifting state. */
  lemma SiftStep(s: seq<Activity>, perm: seq<int>, before: seq<Activity>, i: int, j: int)
    requires Sifting(s, perm, i, j) && Origins(perm, before, s)
    requires 0 < j && !Newer(s[j - 1].timestamp, s[j].timestamp)
    ensures Sifting(Swap(s, j - 1, j), Swap(perm, j - 1, j), i, j - 1)
    ensures Origins(Swap(perm, j - 1, j), before, Swap(s, j - 1, j))
  {
    var s', perm' := Swap(s, j - 1, j), Swap(perm, j - 1, j);
    NewerIsTotalPreorder(s[j - 1].timestamp, s[j].timestamp, s[j].timestamp);
    forall q | j - 1 < q <= i
      ensures Newer(s'[j - 1].timestamp, s'[q].timestamp) && !Newer(s'[q].timestamp, s'[j - 1].timestamp)
    {
      if q == j {
        NewerIsTotalPreorder(s[j].timestamp, s[j - 1].timestamp, s[j].timestamp);
      }
    }
  }

  /** When the moving entry stops, the first `i + 1` entries form a sorted prefix. */
  lemma StopSifting(s: seq<Activity>, perm: seq<int>, i: int, j: int)
    requires Sifting(s, perm, i, j)
    requires j == 0 || Newer(s[j - 1].timestamp, s[j].timestamp)
    ensures SortedPrefix(s, perm, i + 1)
  {
    forall p, q | 0 <= p < q <= i
      ensures Newer(s[p].timestamp, s[q].timestamp)
    {
      if q == j {
        if p < j - 1 {
          NewerIsTotalPreorder(s[p].timestamp, s[j - 1].timestamp, s[j].timestamp);
        }
      }
    }
  }

  /** Where `slice(0, limit)` stops on a list of length `len`. */
  function SliceEnd(len: nat, limit: int): (n: nat)
    ensures n <= len
    ensures 0 <= limit ==> n == (if limit < len then limit else len)
    ensures limit < 0 ==> n == (if len + limit > 0 then len + limit else 0)
  {
    if limit < 0 then (if len + limit > 0 then len + limit else 0)
    else if limit < len then limit else len
  }

  /**
   * The most recent entries of the tasks: as many as the limit allows, sorted
   * most recent first, and none left out that is more recent than one kept.
   * The feed is the front of a stable sort of the entries, so among entries
   * with equal timestamps the earlier task's comes first.
   */
  method GetActivityFeed(tasks: seq<Task>, limit: int := DefaultLimit) returns (feed: seq<Activity>)
    ensures 0 <= limit ==> |feed| == (if limit < |tasks| then limit else |tasks|)
    ensures |feed| == SliceEnd(|tasks|, limit)
    ensures SortedByRecency(feed)
    ensures multiset(feed) <= multiset(Activities(tasks))
    ensures forall x, y :: x in feed && y in multiset(Activities(tasks)) - multiset(feed) ==>
      Newer(x.timestamp, y.timestamp)
    ensures exists perm, sorted ::
              StablyRearranges(perm, Activities(tasks), sorted) && SortedByRecency(sorted) && feed == sorted[..|feed|]
  {
    var activities := new Activity[|tasks|](i requires 0 <= i < |tasks| => ToActivity(tasks[i]));
    assert activities[..] == Activities(tasks);
    ghost var perm := SortByRecency(activities);
    var n := SliceEnd(activities.Length, limit);
    feed := activities[..n];
    SortedPrefixIsMostRecent(activities[..], n);
    assert StablyRearranges(perm, Activities(tasks), activities[..]);
  }

  /**
   * Two tasks whose entries carry the same timestamp: every stable
   * rearrangement, and so every feed of limit 1, keeps the first task's entry.
   */
  lemma TieKeepsTaskOrder(ta: Task, tb: Task, perm: seq<int>, sorted: seq<Activity>)
    requires ToActivity(ta).timestamp == ToActivity(tb).timestamp
    requires StablyRearranges(perm, Activities([ta, tb]), sorted)
    ensures sorted[..1] == [ToActivity(ta)]
  {
    var before := Activities([ta, tb]);
    assert Tied(sorted[0], sorted[1]);
    assert perm[0] < perm[1];
    assert sorted[0] == before[0];
  }

  /** A prefix of a sorted list is sorted and at least as recent as everything after it. */
  lemma SortedPrefixIsMostRecent(sorted: seq<Activity>, n: nat)
    requires SortedByRecency(sorted)
    requires n <= |sorted|
    ensures SortedByRecency(sorted[..n])
    ensures multiset(sorted[..n]) <= multiset(sorted)
    ensures forall x, y :: x in sorted[..n] && y in multiset(sorted) - multiset(sorted[..n]) ==>
      Newer(x.timestamp, y.timestamp)
  {
    var feed, rest := sorted[..n], sorted[n..];
    assert sorted == feed + rest;
    assert multiset(sorted) == multiset(feed) + multiset(rest);
    forall x, y | x in feed && y in multiset(sorted) - multiset(feed)
      ensures Newer(x.timestamp, y.timestamp)
    {
      assert y in rest;
      var p :| 0 <= p < n && sorted[p] == x;
      var q :| 0 <= q < |rest| && rest[q] == y;
      assert sorted[n + q] == y;
    }
  }
}
