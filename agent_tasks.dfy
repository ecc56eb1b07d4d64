/**
 * The agent's task list page: the status filter, the next-status rule of the
 * action button, replacing a task by id after a status update and removing a
 * task by id after a deletion.
 */
module AgentTasks {
  import opened Wrappers
  import opened Lists
  import opened Tasks
  import opened AgentStats

  const AllFilter: string := "all"

  const LoadError: string := "Failed to load tasks. Please try again."
  const DeletedMessage: string := "Task deleted successfully!"
  const DeleteError: string := "Failed to delete Task."
  const UpdateMessagePrefix: string := "Task marked as "
  const UpdateError: string := "Failed to update task status."

  /** The tasks the list shows under `filter`. */
  function FilteredTasks(tasks: seq<Task>, filter: string): (r: seq<Task>)
    ensures filter == Completed ==> forall t :: t in r <==> t in tasks && t.status == Completed
    ensures filter == Pending ==> forall t :: t in r <==> t in tasks && t.status == Pending
    ensures filter == Completed || filter == Pending ==>
              forall t :: multiset(r)[t] == (if t.status == filter then multiset(tasks)[t] else 0)
    ensures filter != Completed && filter != Pending ==> r == tasks
    ensures Subsequence(r, tasks)
  {
    if filter == Completed || filter == Pending then
      var p := (t: Task) => t.status == filter;
      FilterMultiplicity(tasks, p);
      FilterIsSubsequence(tasks, p);
      Filter(tasks, p)
    else
      SubsequenceRefl(tasks);
      tasks
  }

  /** An in-progress task is listed only when the list is not filtered. */
  lemma InProgressOnlyUnfiltered(tasks: seq<Task>, filter: string, t: Task)
    requires t in FilteredTasks(tasks, filter) && t.status == InProgress
    ensures filter != Completed && filter != Pending
  {
  }

  /**
   * The "completed" and "pending" views hold exactly as many tasks as the
   * statistics engine counts for those statuses.
   */
  lemma FilteredCountsAreStatusCounts(tasks: seq<Task>)
    ensures |FilteredTasks(tasks, Completed)| == CountStatus(tasks, Completed)
    ensures |FilteredTasks(tasks, Pending)| == CountStatus(tasks, Pending)
  {
    FilterExt(tasks, (t: Task) => t.status == Completed, (t: Task) => t.status == Completed);
    FilterExt(tasks, (t: Task) => t.status == Pending, (t: Task) => t.status == Pending);
  }

  /**
   * The two filtered views never share a task, and together with the
   * in-progress tasks and those of any other status they account for the
   * whole list.
   */
  lemma FilteredViewsPartition(tasks: seq<Task>)
    ensures forall t :: !(t in FilteredTasks(tasks, Completed) && t in FilteredTasks(tasks, Pending))
    ensures |FilteredTasks(tasks, Completed)| + |FilteredTasks(tasks, Pending)|
            + CountStatus(tasks, InProgress) + |Filter(tasks, OtherStatus)| == |tasks|
  {
    FilteredCountsAreStatusCounts(tasks);
    StatusCountsPartition(tasks);
  }

  /** The status the action button of a task with status `status` asks for. */
  function NextStatus(status: string): (r: string)
    ensures r == Pending || r == InProgress || r == Completed
    ensures r == InProgress <==> status == Pending
    ensures r == Completed <==> status == InProgress
  {
    if status == Pending then InProgress
    else if status == InProgress then Completed
    else Pending
  }

  /** The button always asks for a change of status. */
  lemma NextStatusChanges(status: string)
    ensures NextStatus(status) != status
  {
  }

  /** Pressing the button three times from a recognised status comes back to it. */
  lemma NextStatusCycle(status: string)
    requires status == Pending || status == InProgress || status == Completed
    ensures NextStatus(NextStatus(NextStatus(status))) == status
  {
  }

  /** An unrecognised status is reset to pending. */
  lemma NextStatusOfOther(status: string)
    requires status != Pending && status != InProgress && status != Completed
    ensures NextStatus(status) == Pending
  {
  }

  /** ASCII lower-casing of one character. */
  function LowerChar(c: char): (r: char)
    ensures 'A' <= c <= 'Z' ==> 'a' <= r <= 'z'
    ensures !('A' <= c <= 'Z') ==> r == c
  {
    if 'A' <= c <= 'Z' then (c as int - 'A' as int + 'a' as int) as char else c
  }

  /** ASCII lower-casing of a string (`String.prototype.toLowerCase` on ASCII text). */
  function ToLower(s: string): (r: string)
    ensures |r| == |s|
    ensures forall i :: 0 <= i < |s| ==> r[i] == LowerChar(s[i])
  {
    if s == [] then [] else [LowerChar(s[0])] + ToLower(s[1..])
  }

  /** Text without upper-case ASCII letters is its own lower-case form. */
  lemma {:induction false} ToLowerOfLower(s: string)
    requires forall i :: 0 <= i < |s| ==> !('A' <= s[i] <= 'Z')
    ensures ToLower(s) == s
  {
    if s != [] {
      ToLowerOfLower(s[1..]);
    }
  }

  /** The three recognised statuses are already lower case. */
  lemma StatusIsLowerCase(status: string)
    requires status == Pending || status == InProgress || status == Completed
    ensures ToLower(status) == status
  {
    if status == Pending {
      ToLowerOfLower(Pending);
    } else if status == InProgress {
      ToLowerOfLower(InProgress);
    } else {
      ToLowerOfLower(Completed);
    }
  }

  /** The body and target of a status-update request: which task, and the status asked for. */
  datatype StatusRequest = StatusRequest(taskId: string, status: string)

  /** `t`, or `updated` when it carries the same id. */
  function Replace(t: Task, updated: Task): Task {
    if t.id == updated.id then updated else t
  }

  /** The list after the server returned `updated`: each task with its id is replaced. */
  function ApplyUpdate(tasks: seq<Task>, updated: Task): (r: seq<Task>)
    ensures |r| == |tasks|
    ensures forall i :: 0 <= i < |tasks| ==> r[i].id == tasks[i].id
    ensures forall i :: 0 <= i < |tasks| && tasks[i].id == updated.id ==> r[i] == updated
    ensures forall i :: 0 <= i < |tasks| && tasks[i].id != updated.id ==> r[i] == tasks[i]
  {
    if tasks == [] then [] else [Replace(tasks[0], updated)] + ApplyUpdate(tasks[1..], updated)
  }

  /** Applying the same server response twice changes nothing more. */
  lemma ApplyUpdateIdempotent(tasks: seq<Task>, updated: Task)
    ensures ApplyUpdate(ApplyUpdate(tasks, updated), updated) == ApplyUpdate(tasks, updated)
  {
  }

  /** A response for an id that is not in the list leaves the list as it was. */
  lemma ApplyUpdateAbsent(tasks: seq<Task>, updated: Task)
    requires forall t :: t in tasks ==> t.id != updated.id
    ensures ApplyUpdate(tasks, updated) == tasks
  {
  }

  /** The updated task appears in the new list exactly when its id was in the old one. */
  lemma ApplyUpdatePresent(tasks: seq<Task>, updated: Task)
    ensures updated in ApplyUpdate(tasks, updated) <==> exists t :: t in tasks && t.id == updated.id
  {
    var r := ApplyUpdate(tasks, updated);
    if updated in r {
      var i :| 0 <= i < |r| && r[i] == updated;
      assert tasks[i] in tasks;
    }
    if exists t :: t in tasks && t.id == updated.id {
      var t :| t in tasks && t.id == updated.id;
      var i :| 0 <= i < |tasks| && tasks[i] == t;
      assert r[i] == updated;
    }
  }

  /** The list after the server deleted task `id`. */
  function RemoveById(tasks: seq<Task>, id: string): (r: seq<Task>)
    ensures forall t :: t in r <==> t in tasks && t.id != id
    ensures forall t :: multiset(r)[t] == (if t.id != id then multiset(tasks)[t] else 0)
    ensures Subsequence(r, tasks)
  {
    var p := (t: Task) => t.id != id;
    FilterMultiplicity(tasks, p);
    FilterIsSubsequence(tasks, p);
    Filter(tasks, p)
  }

  /** Removing an id that is not in the list leaves the list as it was. */
  lemma RemoveAbsent(tasks: seq<Task>, id: string)
    requires forall t :: t in tasks ==> t.id != id
    ensures RemoveById(tasks, id) == tasks
  {
    FilterAll(tasks, (t: Task) => t.id != id);
  }

  /** Removing the same id twice removes nothing more. */
  lemma RemoveIdempotent(tasks: seq<Task>, id: string)
    ensures RemoveById(RemoveById(tasks, id), id) == RemoveById(tasks, id)
  {
    RemoveAbsent(RemoveById(tasks, id), id);
  }

  /** Deleting a task discards any earlier status update of it. */
  lemma {:induction false} RemoveAfterUpdate(tasks: seq<Task>, updated: Task)
    ensures RemoveById(ApplyUpdate(tasks, updated), updated.id) == RemoveById(tasks, updated.id)
  {
    if tasks != [] {
      RemoveAfterUpdate(tasks[1..], updated);
      var p := (t: Task) => t.id != updated.id;
      assert ApplyUpdate(tasks, updated)[1..] == ApplyUpdate(tasks[1..], updated);
      assert Filter(ApplyUpdate(tasks, updated), p)
          == (if p(Replace(tasks[0], updated)) then [tasks[0]] else []) + Filter(ApplyUpdate(tasks[1..], updated), p);
    }
  }

  /** The task list page: server data, the filter, the notifications and the delete dialog. */
  class TaskListPage {
    var tasks: seq<Task>
    var loading: bool
    var error: string
    var success: string
    var deleteModalOpen: bool
    var taskToDelete: Option<string>
    var filter: string

    /** The page before its tasks have arrived. */
    constructor ()
      ensures tasks == [] && loading && error == "" && success == ""
      ensures !deleteModalOpen && taskToDelete == None && filter == AllFilter
    {
      tasks := [];
      loading := true;
      error := "";
      success := "";
      deleteModalOpen := false;
      taskToDelete := None;
      filter := AllFilter;
    }

    /** The tasks currently listed. */
    function Visible(): seq<Task>
      reads this
    {
      FilteredTasks(tasks, filter)
    }

    /** The fetch of the agent's tasks finished; `fetched` is None when it failed. */
    method TasksLoaded(fetched: Option<seq<Task>>)
      modifies this`tasks, this`error, this`loading
      ensures fetched.Some? ==> tasks == fetched.value && error == old(error)
      ensures fetched.None? ==> tasks == old(tasks) && error == LoadError
      ensures !loading
    {
      if fetched.Some? {
        tasks := fetched.value;
      } else {
        error := LoadError;
      }
      loading := false;
    }

    /** One of the three filter buttons was pressed. */
    method SetFilter(f: string)
      modifies this`filter
      ensures filter == f
      ensures Visible() == FilteredTasks(tasks, f)
    {
      filter := f;
    }

    /** The notification timer fired. */
    method ClearMessages()
      modifies this`error, this`success
      ensures error == "" && success == ""
    {
      error := "";
      success := "";
    }

    /** The trash button of task `id` was pressed. */
    method DeleteClick(id: string)
      modifies this`taskToDelete, this`deleteModalOpen
      ensures taskToDelete == Some(id) && deleteModalOpen
    {
      taskToDelete := Some(id);
      deleteModalOpen := true;
    }

    /** The dialog was cancelled. */
    method CloseModal()
      modifies this`deleteModalOpen
      ensures !deleteModalOpen
    {
      deleteModalOpen := false;
    }

    /**
     * The deletion request for `id` finished; `deleted` says whether the server
     * accepted it. The dialog closes either way. A missing id (the dialog
     * confirmed before any task was chosen) matches no task.
     */
    method HandleTaskDeletion(id: Option<string>, deleted: bool)
      modifies this`tasks, this`success, this`error, this`deleteModalOpen
      ensures deleted && id.Some? ==> tasks == RemoveById(old(tasks), id.value)
      ensures deleted && id.None? ==> tasks == old(tasks)
      ensures deleted ==> success == DeletedMessage && error == old(error)
      ensures !deleted ==> tasks == old(tasks) && error == DeleteError && success == old(success)
      ensures !deleteModalOpen
    {
      if deleted {
        if id.Some? {
          tasks := RemoveById(tasks, id.value);
        }
        success := DeletedMessage;
      } else {
        error := DeleteError;
      }
      deleteModalOpen := false;
    }

    /** The dialog's Delete button: deletes the task chosen by the trash button. */
    method ConfirmDeletion(deleted: bool)
      modifies this`tasks, this`success, this`error, this`deleteModalOpen
      ensures deleted && old(taskToDelete).Some? ==> tasks == RemoveById(old(tasks), old(taskToDelete).value)
      ensures deleted && old(taskToDelete).None? ==> tasks == old(tasks)
      ensures deleted ==> success == DeletedMessage && error == old(error)
      ensures !deleted ==> tasks == old(tasks) && error == DeleteError && success == old(success)
      ensures !deleteModalOpen
    {
      HandleTaskDeletion(taskToDelete, deleted);
    }

    /**
     * The status update of task `taskId` to `newStatus` finished; `response`
     * is the task the server returned, or None when the request failed.
     * Returns the request that was sent.
     */
    method HandleStatusUpdate(taskId: string, newStatus: string, response: Option<Task>)
      returns (request: StatusRequest)
      modifies this`tasks, this`success, this`error
      ensures request == StatusRequest(taskId, newStatus)
      ensures response.Some? ==> tasks == ApplyUpdate(old(tasks), response.value)
      ensures response.Some? ==> success == UpdateMessagePrefix + ToLower(newStatus) && error == old(error)
      ensures response.None? ==> tasks == old(tasks) && error == UpdateError && success == old(success)
    {
      request := StatusRequest(taskId, newStatus);
      if response.Some? {
        tasks := ApplyUpdate(tasks, response.value);
        success := UpdateMessagePrefix + ToLower(newStatus);
      } else {
        error := UpdateError;
      }
    }

    /** The action button of `task`: asks the server to move the task to its next status. */
    method AdvanceStatus(task: Task, response: Option<Task>) returns (request: StatusRequest)
      modifies this`tasks, this`success, this`error
      ensures request == StatusRequest(task.id, NextStatus(task.status))
      ensures response.Some? ==> tasks == ApplyUpdate(old(tasks), response.value)
      ensures response.Some? ==> success == UpdateMessagePrefix + NextStatus(task.status) && error == old(error)
      ensures response.None? ==> tasks == old(tasks) && error == UpdateError && success == old(success)
    {
      StatusIsLowerCase(NextStatus(task.status));
      request := HandleStatusUpdate(task.id, NextStatus(task.status), response);
    }
  }
}
