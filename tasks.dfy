/** The stored task, as the task handlers read it. */
module Tasks {
  import opened Common
  import Helpers

  /** Where a task comes from; only General Task and Linear are told apart by the handlers. */
  datatype Source = GeneralTask | Linear | OtherSource(sourceID: string)

  /** A workflow status of an external task. */
  datatype ExternalTaskStatus = ExternalTaskStatus(externalID: string, state: string, isCompletedStatus: bool)

  /** A 64-bit float that is only ever copied, never computed with. */
  datatype Float64 = Float64(bits: bv64)

  datatype ExternalTaskPriority = ExternalTaskPriority(externalID: string, name: string, priorityNormalized: Float64)

  /** A comment on a task; the empty string and 0 are the zero values. */
  datatype Comment = Comment(externalID: string, body: string, authorName: string, createdAt: int)

  datatype Task = Task(
    id: ObjectId,
    userID: ObjectId,
    source: Source,
    isDeleted: Option<bool>,
    isCompleted: Option<bool>,
    allStatuses: seq<ExternalTaskStatus>,
    allExternalPriorities: seq<ExternalTaskPriority>,
    status: Option<ExternalTaskStatus>,
    previousStatus: Option<ExternalTaskStatus>,
    completedStatus: Option<ExternalTaskStatus>,
    comments: Option<seq<Comment>>,
    sharedAccess: Option<Helpers.SharedAccess>,
    idTaskSection: ObjectId,
    parentTaskID: ObjectId)
}
