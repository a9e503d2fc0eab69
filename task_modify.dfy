/**
 * Modifying a task: validating a partial update in place, the sharing rule,
 * the completion status swap and reordering a task among its siblings.
 */
module TaskModify {
  import opened Common
  import opened Tasks
  import Helpers

  const NanosecondsInSecond: int := 1_000_000_000

  const Int64Min: int := -0x8000_0000_0000_0000
  const Int64Max: int := 0x7FFF_FFFF_FFFF_FFFF
  const TwoTo64: int := 0x1_0000_0000_0000_0000

  /** Two's-complement wrap-around of a Go int64 result. */
  function WrapInt64(x: int): (r: int)
    ensures Int64Min <= r <= Int64Max
    ensures (r - x) % TwoTo64 == 0
    ensures Int64Min <= x <= Int64Max ==> r == x
  {
    (x - Int64Min) % TwoTo64 + Int64Min
  }

  /** Durations up to about 292 years are converted to nanoseconds exactly. */
  lemma DurationConvertsExactly(seconds: int)
    requires 0 <= seconds <= Int64Max / NanosecondsInSecond
    ensures WrapInt64(seconds * NanosecondsInSecond) == seconds * NanosecondsInSecond
    ensures WrapInt64(seconds * NanosecondsInSecond) >= 0
  {
    assert seconds * NanosecondsInSecond <= (Int64Max / NanosecondsInSecond) * NanosecondsInSecond;
  }

  /** One second more than that and the stored duration turns negative. */
  lemma LongDurationWrapsNegative()
    ensures WrapInt64((Int64Max / NanosecondsInSecond + 1) * NanosecondsInSecond) < 0
  {
  }

  // ---------------------------------------------------------------------
  // The request's changeable fields, rewritten in place by ValidateFields

  /** A snapshot of TaskItemChangeableFields (with the nested task fields flattened). */
  datatype Fields = Fields(
    title: Option<string>,
    body: Option<string>,
    dueDate: Option<string>,
    timeAllocation: Option<int>,
    isCompleted: Option<bool>,
    completedAt: int,
    isDeleted: Option<bool>,
    deletedAt: int,
    sharedAccess: Option<string>,
    sharedUntil: int,
    externalPriority: Option<ExternalTaskPriority>,
    priorityNormalized: Option<Float64>,
    taskNumber: Option<int>,
    comments: Option<seq<Comment>>,
    status: Option<ExternalTaskStatus>,
    previousStatus: Option<ExternalTaskStatus>,
    completedStatus: Option<ExternalTaskStatus>,
    recurringTaskTemplateID: Option<string>)

  class ChangeableFields {
    var title: Option<string>
    var body: Option<string>
    var dueDate: Option<string>
    var timeAllocation: Option<int>
    var isCompleted: Option<bool>
    var completedAt: int
    var isDeleted: Option<bool>
    var deletedAt: int
    var sharedAccess: Option<string>
    var sharedUntil: int
    var externalPriority: Option<ExternalTaskPriority>
    var priorityNormalized: Option<Float64>
    var taskNumber: Option<int>
    var comments: Option<seq<Comment>>
    var status: Option<ExternalTaskStatus>
    var previousStatus: Option<ExternalTaskStatus>
    var completedStatus: Option<ExternalTaskStatus>
    var recurringTaskTemplateID: Option<string>

    function Value(): Fields
      reads this
    {
      Fields(title, body, dueDate, timeAllocation, isCompleted, completedAt, isDeleted, deletedAt,
             sharedAccess, sharedUntil, externalPriority, priorityNormalized, taskNumber, comments,
             status, previousStatus, completedStatus, recurringTaskTemplateID)
    }
  }

  /** Why an update is refused with status 400. */
  datatype Rejection =
    | CannotBeMarkedDone   // "cannot be marked done"
    | StatusNotAllowed     // "status value not in all status field for task"
    | EmptyTitle           // "title cannot be empty"
    | NegativeDuration     // "time duration cannot be negative"
    | PriorityNotAllowed   // "priority value not valid for task"

  function StatusID(s: ExternalTaskStatus): string { s.externalID }

  function PriorityID(p: ExternalTaskPriority): string { p.externalID }

  /** The last entry of `xs` whose ID, as read by `idOf`, is `externalID` (later entries win). */
  function LastWithID<T(==)>(xs: seq<T>, idOf: T -> string, externalID: string): (m: Option<T>)
    ensures m.None? <==> forall i :: 0 <= i < |xs| ==> idOf(xs[i]) != externalID
    ensures m.Some? ==> exists i :: 0 <= i < |xs| && xs[i] == m.value && idOf(m.value) == externalID &&
                                    forall j :: i < j < |xs| ==> idOf(xs[j]) != externalID
  {
    if xs == [] then None
    else if idOf(xs[|xs| - 1]) == externalID then Some(xs[|xs| - 1])
    else LastWithID(xs[..|xs| - 1], idOf, externalID)
  }

  /** The task counts as deleted: it is deleted in the store and the request does not undelete it. */
  predicate StaysDeleted(requestIsDeleted: Option<bool>, storedIsDeleted: Option<bool>)
  {
    (requestIsDeleted.None? || requestIsDeleted.value) && storedIsDeleted == Some(true)
  }

  /** Completion is refused when the source cannot complete tasks or the task stays deleted. */
  predicate RefusesCompletion(f: Fields, isCompletable: bool, task: Task)
  {
    f.isCompleted == Some(true) && (!isCompletable || StaysDeleted(f.isDeleted, task.isDeleted))
  }

  /** The effect of moving to the stored status `s`: a completed status is remembered, and
      the completion flag follows the status when it disagrees with the task's. */
  function WithStatus(f: Fields, s: ExternalTaskStatus, task: Task): Fields
  {
    f.(completedStatus := if s.isCompletedStatus then Some(s) else f.completedStatus,
       isCompleted := if task.isCompleted.Some? && task.isCompleted.value != s.isCompletedStatus
                      then Some(s.isCompletedStatus) else f.isCompleted)
  }

  function Stamped(f: Fields, now: int): Fields
  {
    f.(completedAt := if f.isCompleted == Some(true) then now else f.completedAt,
       deletedAt := if f.isDeleted == Some(true) then now else f.deletedAt)
  }

  /** First stage: the completion check and the status lookup. */
  function CheckStatus(f: Fields, isCompletable: bool, task: Task): Result<Fields, Rejection>
  {
    if RefusesCompletion(f, isCompletable, task) then Failure(CannotBeMarkedDone)
    else if f.status.None? then Success(f)
    else
      var matched := LastWithID(task.allStatuses, StatusID, f.status.value.externalID);
      if matched.None? then Failure(StatusNotAllowed) else Success(WithStatus(f, matched.value, task))
  }

  /** Second stage: the timestamps, the title and the duration. */
  function CheckScalars(f: Fields, now: int): Result<Fields, Rejection>
  {
    var g := Stamped(f, now);
    if g.title == Some("") then Failure(EmptyTitle)
    else if g.timeAllocation.None? then Success(g)
    else if g.timeAllocation.value < 0 then Failure(NegativeDuration)
    else Success(g.(timeAllocation := Some(WrapInt64(g.timeAllocation.value * NanosecondsInSecond))))
  }

  /** Last stage: the priority lookup. */
  function CheckPriority(f: Fields, task: Task): Result<Fields, Rejection>
  {
    if f.externalPriority.None? then Success(f)
    else
      var p := LastWithID(task.allExternalPriorities, PriorityID, f.externalPriority.value.externalID);
      if p.None? then Failure(PriorityNotAllowed)
      else Success(f.(externalPriority := p, priorityNormalized := Some(p.value.priorityNormalized)))
  }

  /** The update ValidateFields leaves behind, or the reason it refuses the request. */
  function Validate(f: Fields, isCompletable: bool, task: Task, now: int): (r: Result<Fields, Rejection>)
    ensures r.Success? ==>
      r.value.title == f.title && r.value.body == f.body && r.value.dueDate == f.dueDate &&
      r.value.isDeleted == f.isDeleted && r.value.sharedAccess == f.sharedAccess &&
      r.value.sharedUntil == f.sharedUntil && r.value.taskNumber == f.taskNumber &&
      r.value.comments == f.comments && r.value.status == f.status &&
      r.value.previousStatus == f.previousStatus &&
      r.value.recurringTaskTemplateID == f.recurringTaskTemplateID
    ensures r.Success? ==> f.title != Some("") && (f.timeAllocation.Some? ==> f.timeAllocation.value >= 0)
    ensures r.Success? && f.timeAllocation.Some? ==>
      r.value.timeAllocation == Some(WrapInt64(f.timeAllocation.value * NanosecondsInSecond))
    ensures r.Success? && f.timeAllocation.None? ==> r.value.timeAllocation.None?
    ensures r.Success? && f.status.None? ==>
      r.value.isCompleted == f.isCompleted && r.value.completedStatus == f.completedStatus
    ensures r.Success? && f.externalPriority.None? ==>
      r.value.externalPriority == f.externalPriority && r.value.priorityNormalized == f.priorityNormalized
  {
    match CheckStatus(f, isCompletable, task)
    case Failure(e) => Failure(e)
    case Success(f1) =>
      match CheckScalars(f1, now)
      case Failure(e) => Failure(e)
      case Success(f2) => CheckPriority(f2, task)
  }

  /** The status lookup loop of ValidateFields: it has no break, so the last match wins. */
  method FindStatus(statuses: seq<ExternalTaskStatus>, wanted: string) returns (found: Option<ExternalTaskStatus>)
    ensures found == LastWithID(statuses, StatusID, wanted)
  {
    found := None;
    for i := 0 to |statuses|
      invariant found == LastWithID(statuses[..i], StatusID, wanted)
    {
      assert statuses[..i + 1][..i] == statuses[..i];
      if statuses[i].externalID == wanted {
        found := Some(statuses[i]);
      }
    }
    assert statuses[..|statuses|] == statuses;
  }

  /** The completion check and status lookup of ValidateFields. */
  method ApplyStatus(u: ChangeableFields, isCompletable: bool, task: Task) returns (rejection: Option<Rejection>)
    modifies u
    ensures var v := CheckStatus(old(u.Value()), isCompletable, task);
            (rejection.None? <==> v.Success?) &&
            (v.Failure? ==> rejection == Some(v.error)) &&
            (v.Success? ==> u.Value() == v.value)
  {
    if u.isCompleted == Some(true) &&
       (!isCompletable || ((u.isDeleted.None? || u.isDeleted.value) && task.isDeleted == Some(true))) {
      return Some(CannotBeMarkedDone);
    }
    if u.status.Some? {
      var statusToUpdateTo := FindStatus(task.allStatuses, u.status.value.externalID);
      if statusToUpdateTo.None? {
        return Some(StatusNotAllowed);
      }
      ghost var before := u.Value();
      var matched := statusToUpdateTo.value;
      if matched.isCompletedStatus {
        u.completedStatus := statusToUpdateTo;
      }
      if task.isCompleted.Some? && task.isCompleted.value != matched.isCompletedStatus {
        u.isCompleted := Some(matched.isCompletedStatus);
      }
      assert u.Value() == WithStatus(before, matched, task);
    }
    return None;
  }

  /** The timestamps, title and duration steps of ValidateFields; `now` stands for the clock. */
  method ApplyScalars(u: ChangeableFields, now: int) returns (rejection: Option<Rejection>)
    modifies u
    ensures var v := CheckScalars(old(u.Value()), now);
            (rejection.None? <==> v.Success?) &&
            (v.Failure? ==> rejection == Some(v.error)) &&
            (v.Success? ==> u.Value() == v.value)
  {
    if u.isCompleted == Some(true) {
      u.completedAt := now;
    }
    if u.isDeleted == Some(true) {
      u.deletedAt := now;
    }
    if u.title == Some("") {
      return Some(EmptyTitle);
    }
    if u.timeAllocation.Some? {
      if u.timeAllocation.value < 0 {
        return Some(NegativeDuration);
      } else {
        u.timeAllocation := Some(WrapInt64(u.timeAllocation.value * NanosecondsInSecond));
      }
    }
    return None;
  }

  /** The priority step of ValidateFields. */
  method ApplyPriority(u: ChangeableFields, task: Task) returns (rejection: Option<Rejection>)
    modifies u
    ensures var v := CheckPriority(old(u.Value()), task);
            (rejection.None? <==> v.Success?) &&
            (v.Failure? ==> rejection == Some(v.error)) &&
            (v.Success? ==> u.Value() == v.value)
  {
    if u.externalPriority.Some? {
      var wanted := u.externalPriority.value.externalID;
      ghost var before := u.Value();
      var matched := false;
      for i := 0 to |task.allExternalPriorities|
        invariant u.externalPriority.Some? && u.externalPriority.value.externalID == wanted
        invariant u.Value().(externalPriority := before.externalPriority, priorityNormalized := before.priorityNormalized) == before
        invariant matched <==> LastWithID(task.allExternalPriorities[..i], PriorityID, wanted).Some?
        invariant matched ==> u.externalPriority == LastWithID(task.allExternalPriorities[..i], PriorityID, wanted) &&
                              u.priorityNormalized == Some(u.externalPriority.value.priorityNormalized)
        invariant !matched ==> u.Value() == before
      {
        assert task.allExternalPriorities[..i + 1][..i] == task.allExternalPriorities[..i];
        var priority := task.allExternalPriorities[i];
        if u.externalPriority.value.externalID == priority.externalID {
          u.externalPriority := Some(priority);
          u.priorityNormalized := Some(priority.priorityNormalized);
          matched := true;
        }
      }
      assert task.allExternalPriorities[..|task.allExternalPriorities|] == task.allExternalPriorities;
      if !matched {
        return Some(PriorityNotAllowed);
      }
    }
    return None;
  }

  /**
   * ValidateFields: checks the update against the stored task and rewrites it in place
   * (completed status, completion flag, timestamps, duration in nanoseconds, stored priority).
   * `isCompletable` stands for the task source's details.
   */
  method ValidateFields(u: ChangeableFields, isCompletable: bool, task: Task, now: int) returns (rejection: Option<Rejection>)
    modifies u
    ensures var v := Validate(old(u.Value()), isCompletable, task, now);
            (rejection.None? <==> v.Success?) &&
            (v.Failure? ==> rejection == Some(v.error)) &&
            (v.Success? ==> u.Value() == v.value)
  {
    rejection := ApplyStatus(u, isCompletable, task);
    if rejection.Some? {
      return;
    }
    rejection := ApplyScalars(u, now);
    if rejection.Some? {
      return;
    }
    rejection := ApplyPriority(u, task);
  }

  lemma CompletionRefusal(f: Fields, isCompletable: bool, task: Task, now: int)
    ensures Validate(f, isCompletable, task, now) == Failure(CannotBeMarkedDone) <==>
            f.isCompleted == Some(true) && (!isCompletable || (f.isDeleted != Some(false) && task.isDeleted == Some(true)))
  {
  }

  /** A status update must name one of the task's statuses; the last one with that ID is used. */
  lemma StatusMustBeListed(f: Fields, isCompletable: bool, task: Task, now: int)
    requires f.status.Some? && !RefusesCompletion(f, isCompletable, task)
    ensures Validate(f, isCompletable, task, now) == Failure(StatusNotAllowed) <==>
            forall i :: 0 <= i < |task.allStatuses| ==> task.allStatuses[i].externalID != f.status.value.externalID
  {
  }

  /** After a successful status update: a completed status is kept as the completed status, and the
      completion flag is overwritten by the status's whenever the task's own flag disagrees with it. */
  lemma StatusDrivesCompletion(f: Fields, isCompletable: bool, task: Task, now: int)
    requires f.status.Some?
    requires Validate(f, isCompletable, task, now).Success?
    ensures var s := LastWithID(task.allStatuses, StatusID, f.status.value.externalID).value;
            var g := Validate(f, isCompletable, task, now).value;
            s.externalID == f.status.value.externalID &&
            (s.isCompletedStatus ==> g.completedStatus == Some(s)) &&
            (!s.isCompletedStatus ==> g.completedStatus == f.completedStatus) &&
            (task.isCompleted.Some? && task.isCompleted.value != s.isCompletedStatus ==>
               g.isCompleted == Some(s.isCompletedStatus)) &&
            (task.isCompleted.None? || task.isCompleted.value == s.isCompletedStatus ==>
               g.isCompleted == f.isCompleted)
  {
  }

  /** A successful update stamps completion and deletion with the current time, and only then. */
  lemma TimestampsFollowFlags(f: Fields, isCompletable: bool, task: Task, now: int)
    requires Validate(f, isCompletable, task, now).Success?
    ensures var g := Validate(f, isCompletable, task, now).value;
            (g.isCompleted == Some(true) ==> g.completedAt == now) &&
            (g.isCompleted != Some(true) ==> g.completedAt == f.completedAt) &&
            (g.isDeleted == Some(true) ==> g.deletedAt == now) &&
            (g.isDeleted != Some(true) ==> g.deletedAt == f.deletedAt)
  {
    var f1 := CheckStatus(f, isCompletable, task).value;
    assert f1.completedAt == f.completedAt && f1.deletedAt == f.deletedAt && f1.isDeleted == f.isDeleted;
    var stamped := Stamped(f1, now);
    var f2 := CheckScalars(f1, now).value;
    assert f2.(timeAllocation := stamped.timeAllocation) == stamped;
    var g := CheckPriority(f2, task).value;
    assert g.(externalPriority := f2.externalPriority, priorityNormalized := f2.priorityNormalized) == f2;
  }

  /** A requested priority is replaced by the task's own priority with that ID, and its normalized value. */
  lemma PriorityIsTheStoredOne(f: Fields, isCompletable: bool, task: Task, now: int)
    requires f.externalPriority.Some?
    requires Validate(f, isCompletable, task, now).Success?
    ensures var g := Validate(f, isCompletable, task, now).value;
            g.externalPriority.Some? &&
            g.externalPriority.value.externalID == f.externalPriority.value.externalID &&
            (exists i :: 0 <= i < |task.allExternalPriorities| && task.allExternalPriorities[i] == g.externalPriority.value) &&
            g.priorityNormalized == Some(g.externalPriority.value.priorityNormalized)
  {
    var f1 := CheckStatus(f, isCompletable, task).value;
    assert f1.externalPriority == f.externalPriority;
    var f2 := CheckScalars(f1, now).value;
    assert f2.externalPriority == f1.externalPriority;
    var p := LastWithID(task.allExternalPriorities, PriorityID, f2.externalPriority.value.externalID);
    assert Validate(f, isCompletable, task, now).value == f2.(externalPriority := p, priorityNormalized := Some(p.value.priorityNormalized));
  }

  /** A priority no stored priority shares an ID with is refused, unless an earlier check already refused. */
  lemma UnknownPriorityRefused(f: Fields, isCompletable: bool, task: Task, now: int)
    requires f.externalPriority.Some?
    requires forall i :: 0 <= i < |task.allExternalPriorities| ==>
               task.allExternalPriorities[i].externalID != f.externalPriority.value.externalID
    ensures Validate(f, isCompletable, task, now).Failure?
  {
  }

  // ---------------------------------------------------------------------
  // Sharing

  const StringSharedAccessPublic := "public"
  const StringSharedAccessDomain := "domain"

  datatype SharingRejection =
    | OnlyGeneralTasksShared    // "only General Task tasks can be shared"
    | InvalidSharedAccessToken  // "invalid shared access token"

  /** The shared access TaskModify writes into the update, or why the request is refused. */
  function SharingUpdate(source: Source, sharedUntil: int, sharedAccess: Option<string>): (r: Result<Option<Helpers.SharedAccess>, SharingRejection>)
    ensures r == Failure(OnlyGeneralTasksShared) <==> source != GeneralTask && (sharedUntil != 0 || sharedAccess.Some?)
    ensures r == Failure(InvalidSharedAccessToken) <==>
            r != Failure(OnlyGeneralTasksShared) && sharedAccess.Some? &&
            sharedAccess.value != StringSharedAccessPublic && sharedAccess.value != StringSharedAccessDomain
    ensures r.Success? ==> (r.value.None? <==> sharedAccess.None?)
    ensures r.Success? && r.value.Some? ==> Helpers.CheckTaskSharingAccessValid(r.value.value)
  {
    if source != GeneralTask && (sharedUntil != 0 || sharedAccess.Some?) then Failure(OnlyGeneralTasksShared)
    else if sharedAccess.None? then Success(None)
    else if sharedAccess.value == StringSharedAccessPublic then Success(Some(Helpers.Public))
    else if sharedAccess.value == StringSharedAccessDomain then Success(Some(Helpers.Domain))
    else Failure(InvalidSharedAccessToken)
  }

  /** The request token of a task sharing mode. */
  function AccessToken(access: Helpers.SharedAccess): string
    requires Helpers.CheckTaskSharingAccessValid(access)
  {
    if access == Helpers.Public then StringSharedAccessPublic else StringSharedAccessDomain
  }

  /** Every valid task sharing mode is reached from its token, and only from it. */
  lemma {:induction false} SharingTokensRoundTrip(access: Helpers.SharedAccess, sharedUntil: int, token: string)
    requires Helpers.CheckTaskSharingAccessValid(access)
    ensures SharingUpdate(GeneralTask, sharedUntil, Some(AccessToken(access))) == Success(Some(access))
    ensures SharingUpdate(GeneralTask, sharedUntil, Some(token)) == Success(Some(access)) ==> token == AccessToken(access)
  {
    assert access == Helpers.Public || access == Helpers.Domain;
  }

  // ---------------------------------------------------------------------
  // Completion status swap in UpdateTaskInDBWithError

  /** The fields of the update document the swap touches. */
  class TaskUpdate {
    var isCompleted: Option<bool>
    var status: Option<ExternalTaskStatus>
    var previousStatus: Option<ExternalTaskStatus>
  }

  /** Status and previous status written when (un)completing `task`. */
  function SwappedStatuses(task: Task, completing: bool): (Option<ExternalTaskStatus>, Option<ExternalTaskStatus>)
  {
    (if completing then task.completedStatus else task.previousStatus, task.status)
  }

  method SwapStatus(update: TaskUpdate, task: Task)
    modifies update
    ensures update.isCompleted == old(update.isCompleted)
    ensures old(update.isCompleted).None? ==>
              update.status == old(update.status) && update.previousStatus == old(update.previousStatus)
    ensures old(update.isCompleted).Some? ==>
              (update.status, update.previousStatus) == SwappedStatuses(task, old(update.isCompleted).value)
  {
    if update.isCompleted.Some? {
      update.previousStatus := task.status;
      if update.isCompleted.value {
        update.status := task.completedStatus;
      } else {
        update.status := task.previousStatus;
      }
    }
  }

  /** A `$set` of an omitempty field: a nil value leaves the stored one. */
  function SetField<T>(stored: Option<T>, update: Option<T>): Option<T>
  {
    if update.Some? then update else stored
  }

  /** The stored task after a completion change carrying no status of its own. */
  function AfterCompletionChange(task: Task, completing: bool): (t: Task)
    ensures t.isCompleted == Some(completing)
    ensures task.status.Some? ==> t.previousStatus == task.status
    ensures task.status.None? ==> t.previousStatus == task.previousStatus
    ensures t.status == (if completing && task.completedStatus.Some? then task.completedStatus
                         else if !completing && task.previousStatus.Some? then task.previousStatus
                         else task.status)
    ensures t == task.(isCompleted := t.isCompleted, status := t.status, previousStatus := t.previousStatus)
  {
    var (status, previous) := SwappedStatuses(task, completing);
    task.(isCompleted := Some(completing),
          status := SetField(task.status, status),
          previousStatus := SetField(task.previousStatus, previous))
  }

  /** Completing a task with a status and then reopening it restores that status. */
  lemma {:induction false} CompleteThenReopenRestoresStatus(task: Task)
    requires task.status.Some?
    ensures AfterCompletionChange(AfterCompletionChange(task, true), false).status == task.status
  {
    var done := AfterCompletionChange(task, true);
    assert done.previousStatus == task.status;
  }

  /** Completing moves the task to its completed status, when it has one. */
  lemma CompletingUsesCompletedStatus(task: Task)
    requires task.completedStatus.Some?
    ensures AfterCompletionChange(task, true).status == task.completedStatus
  {
  }

  // ---------------------------------------------------------------------
  // ReOrderTask

  /** The stored fields of a task that reordering reads or writes. */
  datatype TaskDocument = TaskDocument(
    id: ObjectId,
    userID: ObjectId,
    ordering: int,
    isDeleted: Option<bool>,
    isCompleted: Option<bool>,
    parentTaskID: ObjectId,
    idTaskSection: ObjectId,
    hasBeenReordered: bool)

  datatype ReorderOutcome = Reordered | TaskNotFound

  /** The section the task ends up in; an unparsable hex yields the nil ID. */
  function TargetSection(sectionHex: Option<string>, task: Task): (s: ObjectId)
    ensures sectionHex.None? ==> s == task.idTaskSection
    ensures sectionHex.Some? && ObjectIdFromHex(sectionHex.value).Some? ==> s == ObjectIdFromHex(sectionHex.value).value
    ensures sectionHex.Some? && ObjectIdFromHex(sectionHex.value).None? ==> s == NilObjectId
  {
    if sectionHex.None? then task.idTaskSection
    else match ObjectIdFromHex(sectionHex.value)
      case None => NilObjectId
      case Some(id) => id
  }

  /** The siblings a reorder may move: this user's live tasks other than the moved one, under the same
      parent for a subtask, or in the same section and not completed for a top-level task. */
  predicate Sibling(d: TaskDocument, taskID: ObjectId, userID: ObjectId, task: Task, section: ObjectId)
  {
    d.id != taskID && d.isDeleted != Some(true) && d.userID == userID &&
    if task.parentTaskID != NilObjectId then d.parentTaskID == task.parentTaskID
    else d.idTaskSection == section && d.isCompleted != Some(true)
  }

  /** The tasks the `$inc` moves one place down. */
  predicate Shifts(d: TaskDocument, taskID: ObjectId, userID: ObjectId, ordering: int, task: Task, section: ObjectId)
  {
    Sibling(d, taskID, userID, task, section) && d.ordering >= ordering
  }

  /** The moved task's own `$set`. */
  function MarkReordered(d: TaskDocument, idOrdering: Option<int>, sectionHex: Option<string>, task: Task): TaskDocument
  {
    d.(hasBeenReordered := true,
       ordering := if idOrdering.Some? then idOrdering.value else d.ordering,
       idTaskSection := if sectionHex.Some? then TargetSection(sectionHex, task) else d.idTaskSection)
  }

  predicate IsTarget(d: TaskDocument, taskID: ObjectId, userID: ObjectId)
  {
    d.id == taskID && d.userID == userID
  }

  /** The collection after reordering, with the moved task at index `target`. */
  ghost function AfterReorder(before: seq<TaskDocument>, target: nat, taskID: ObjectId, userID: ObjectId,
                              idOrdering: Option<int>, sectionHex: Option<string>, task: Task): (after: seq<TaskDocument>)
    requires target < |before| && IsTarget(before[target], taskID, userID)
    ensures |after| == |before|
  {
    var section := TargetSection(sectionHex, task);
    seq(|before|, i requires 0 <= i < |before| =>
      if i == target then MarkReordered(before[i], idOrdering, sectionHex, task)
      else if idOrdering.Some? && Shifts(before[i], taskID, userID, idOrdering.value, task, section)
      then before[i].(ordering := before[i].ordering + 1)
      else before[i])
  }

  /**
   * ReOrderTask: marks the task reordered (with its new ordering and section) and, when an ordering
   * is given, moves every sibling at or after that ordering one place down. The
   * `updateOrderingIDsV2` gap removal that follows is not part of this model.
   */
  method ReOrderTask(docs: array<TaskDocument>, taskID: ObjectId, userID: ObjectId, idOrdering: Option<int>,
                     sectionHex: Option<string>, task: Task) returns (outcome: ReorderOutcome)
    modifies docs
    ensures outcome == TaskNotFound <==> forall i :: 0 <= i < docs.Length ==> !IsTarget(old(docs[i]), taskID, userID)
    ensures outcome == TaskNotFound ==> docs[..] == old(docs[..])
    ensures outcome == Reordered ==>
              exists target :: 0 <= target < docs.Length && IsTarget(old(docs[target]), taskID, userID) &&
                (forall j :: 0 <= j < target ==> !IsTarget(old(docs[j]), taskID, userID)) &&
                docs[..] == AfterReorder(old(docs[..]), target, taskID, userID, idOrdering, sectionHex, task)
  {
    var target := 0;
    while target < docs.Length && !IsTarget(docs[target], taskID, userID)
      invariant 0 <= target <= docs.Length
      invariant forall j :: 0 <= j < target ==> !IsTarget(docs[j], taskID, userID)
    {
      target := target + 1;
    }
    if target == docs.Length {
      return TaskNotFound;
    }
    ghost var before := docs[..];
    ghost var spec := AfterReorder(before, target, taskID, userID, idOrdering, sectionHex, task);
    docs[target] := MarkReordered(docs[target], idOrdering, sectionHex, task);
    if idOrdering.None? {
      assert docs[..] == spec;
      return Reordered;
    }
    var section := TargetSection(sectionHex, task);
    for i := 0 to docs.Length
      invariant forall k :: 0 <= k < i ==> docs[k] == spec[k]
      invariant forall k :: i <= k < docs.Length ==> docs[k] == if k == target then spec[k] else before[k]
    {
      if Shifts(docs[i], taskID, userID, idOrdering.value, task, section) {
        docs[i] := docs[i].(ordering := docs[i].ordering + 1);
      }
    }
    assert docs[..] == spec;
    return Reordered;
  }

  /** Without a new ordering no other task changes. */
  lemma NoOrderingMovesNoSibling(before: seq<TaskDocument>, target: nat, taskID: ObjectId, userID: ObjectId,
                                 sectionHex: Option<string>, task: Task, i: nat)
    requires target < |before| && IsTarget(before[target], taskID, userID)
    requires i < |before| && i != target
    ensures AfterReorder(before, target, taskID, userID, None, sectionHex, task)[i] == before[i]
  {
  }

  /**
   * With a new ordering `v`: the moved task takes `v`; no sibling is left at `v`; siblings keep their
   * relative order; tasks that are not siblings do not move.
   */
  lemma ReorderFreesTheSlot(before: seq<TaskDocument>, target: nat, taskID: ObjectId, userID: ObjectId,
                            v: int, sectionHex: Option<string>, task: Task)
    requires target < |before| && IsTarget(before[target], taskID, userID)
    ensures var after := AfterReorder(before, target, taskID, userID, Some(v), sectionHex, task);
            var section := TargetSection(sectionHex, task);
            after[target].ordering == v &&
            (forall i :: 0 <= i < |before| && i != target && Sibling(before[i], taskID, userID, task, section) ==>
               after[i].ordering != v) &&
            (forall i, j ::
               (0 <= i < |before| && 0 <= j < |before| && i != target && j != target &&
                Sibling(before[i], taskID, userID, task, section) && Sibling(before[j], taskID, userID, task, section) &&
                before[i].ordering < before[j].ordering) ==> after[i].ordering < after[j].ordering) &&
            (forall i :: 0 <= i < |before| && i != target && !Sibling(before[i], taskID, userID, task, section) ==>
               after[i] == before[i])
  {
  }
}
