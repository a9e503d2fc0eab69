/** Adding a comment to a task: the request checks, the external call and the stored update. */
module TaskComment {
  import opened Common
  import opened Tasks

  /** The tasks collection, keyed by task ID. */
  class TaskStore {
    var tasks: map<ObjectId, Task>
  }

  /** database.GetTask: the task with this ID, if it belongs to this user. */
  function GetTask(tasks: map<ObjectId, Task>, taskID: ObjectId, userID: ObjectId): Option<Task>
  {
    if taskID in tasks && tasks[taskID].userID == userID then Some(tasks[taskID]) else None
  }

  /** A comment with every field at its zero value. */
  const ZeroComment := Comment("", "", "", 0)

  /** The HTTP status the handler answers with. */
  datatype Response = Ok | NotFound | BadRequest(detail: string) | ServerError

  /**
   * TaskAddComment. `body` is the decoded request (None when binding fails); `sourceKnown` says
   * whether the task's source is registered; `freshUUID` stands for uuid.New(); `addCommentSucceeds`
   * is the outcome of the source's own AddComment. `sent` is the comment handed to that source.
   */
  method TaskAddComment(store: TaskStore, taskIDHex: string, userID: ObjectId, body: Option<Comment>,
                        sourceKnown: bool, freshUUID: string, addCommentSucceeds: bool)
    returns (response: Response, sent: Option<Comment>)
    modifies store
    ensures ObjectIdFromHex(taskIDHex).None? ==> response == NotFound && sent.None?
    ensures ObjectIdFromHex(taskIDHex).Some? && GetTask(old(store.tasks), ObjectIdFromHex(taskIDHex).value, userID).None? ==>
              response == NotFound && sent.None?
    ensures response == NotFound ==>
              ObjectIdFromHex(taskIDHex).None? || GetTask(old(store.tasks), ObjectIdFromHex(taskIDHex).value, userID).None?
    ensures response.BadRequest? ==> body.None? || body == Some(ZeroComment)
    ensures ObjectIdFromHex(taskIDHex).Some? && GetTask(old(store.tasks), ObjectIdFromHex(taskIDHex).value, userID).Some? &&
            (body.None? || body == Some(ZeroComment)) ==>
              response.BadRequest? && sent.None?
    ensures sent.Some? <==>
              ObjectIdFromHex(taskIDHex).Some? && GetTask(old(store.tasks), ObjectIdFromHex(taskIDHex).value, userID).Some? &&
              body.Some? && body.value != ZeroComment && sourceKnown
    ensures response == ServerError ==> !sourceKnown || !addCommentSucceeds
    ensures response != Ok ==> store.tasks == old(store.tasks)
    ensures sent.Some? ==>
              (body.Some? && body.value != ZeroComment &&
               sent.value == (if GetTask(old(store.tasks), ObjectIdFromHex(taskIDHex).value, userID).value.source == Linear
                              then body.value.(externalID := freshUUID) else body.value))
    ensures response == Ok <==>
              ObjectIdFromHex(taskIDHex).Some? && GetTask(old(store.tasks), ObjectIdFromHex(taskIDHex).value, userID).Some? &&
              body.Some? && body.value != ZeroComment && sourceKnown && addCommentSucceeds
    ensures response == Ok ==>
              sent.Some? &&
              var taskID := ObjectIdFromHex(taskIDHex).value;
              var task := old(store.tasks)[taskID];
              var previous := if task.comments.Some? then task.comments.value else [];
              store.tasks == old(store.tasks)[taskID := task.(comments := Some(previous + [sent.value]))]
  {
    sent := None;
    var parsed := ObjectIdFromHex(taskIDHex);
    if parsed.None? {
      return NotFound, None;
    }
    var taskID := parsed.value;
    var found := GetTask(store.tasks, taskID, userID);
    if found.None? {
      return NotFound, None;
    }
    var task := found.value;
    if body.None? {
      return BadRequest("parameter missing or malformatted"), None;
    }
    var commentParams := body.value;
    if commentParams == ZeroComment {
      return BadRequest("parameter missing"), None;
    }
    if !sourceKnown {
      return ServerError, None;
    }
    if task.source == Linear {
      commentParams := commentParams.(externalID := freshUUID);
    }
    sent := Some(commentParams);
    if !addCommentSucceeds {
      return ServerError, sent;
    }
    var comments: seq<Comment> := [];
    if task.comments.Some? {
      comments := task.comments.value;
    }
    comments := comments + [commentParams];
    store.tasks := store.tasks[taskID := task.(comments := Some(comments))];
    return Ok, sent;
  }
}
