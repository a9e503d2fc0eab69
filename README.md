# Task manager core, modelled in Dafny

The task manager gathers tasks, calendar events, GitHub pull requests and notes from several
services into a single inbox. This project models the rule-heavy parts of its Go backend:

- **GitHub pull-request triage** (`github_pr.dfy`, module `GithubPR`). From a pull request's
  reviews, check runs and reviewers, it decides the single *required action* the signed-in user
  has to take. It also assembles the pull request's comment feed, counts reviewers and
  additions/deletions, and decides which API errors are logged.
- **Database helpers** (`helpers.dfy`, module `Helpers`):
  - email domains;
  - validity of the task and note sharing modes;
  - who may see a shared task or note;
  - the `$and` query built by `getDBQuery`;
  - the reorder-and-renumber algorithm `AdjustOrderingIDsForCollection`;
  - the Google Calendar scope checks.
- **Modifying a task** (`task_modify.dfy`, module `TaskModify`):
  - `ValidateFields`, which checks a partial update and rewrites it in place;
  - the sharing rule;
  - the completion status swap made before a task update is stored;
  - the way `ReOrderTask` moves a task and its siblings.
- **Adding a comment to a task** (`task_comment.dfy`, module `TaskComment`).
- **Listing calendar accounts** (`calendar_list.dfy`, module `CalendarList`).
- **Shared vocabulary**:
  - `common.dfy`, module `Common`: `Option`, `Result`, MongoDB object IDs parsed from 24 hex
    digits, and substring search.
  - `tasks.dfy`, module `Tasks`: the stored task.

The code's form follows the Go source:
- Decision rules are functions.
- Loops that accumulate a result are methods with loop invariants, each proved against a
  specification function.
- Objects the handlers rewrite in place are classes. These are the request's changeable fields
  and the update document.
- The task and item collections are arrays updated in place.

Calls to GitHub, MongoDB, the clock and the UUID generator are replaced by their outcomes, which
are passed in as parameters.

## Model

| member | source | states |
|---|---|---|
| `Common.ObjectIdFromHex` | backend/api/task_comment.go:12-18 | an ID parses exactly when it has 24 hex digits, and its value fits in 96 bits |
| `Common.Contains` | backend/external/github_pr.go:438-446 | substring search: true iff `sub` occurs at some position of `s` |
| `Common.ContainsInfix` | backend/external/github_pr.go:438-446 | any text built as prefix + sub + suffix contains sub |
| `GithubPR.RequiredAction` | backend/external/github_pr.go:795-822 | the action is always one of the ten ranked actions. For a non-owner it is "Review PR" iff the user is a reviewer, else "Waiting on Author". An owner never gets those two or "Not Actionable" |
| `GithubPR.ActionOrderingIsARanking` | backend/external/github_pr.go:48-59 | the ten actions have distinct ranks, exactly 0..9 |
| `GithubPR.OwnedActionIsMostUrgentRule` | backend/external/github_pr.go:797-812 | for an owned pull request the action is an applicable owner rule's action, and no applicable rule ranks more urgent |
| `GithubPR.LatestDecisionsStand` | backend/external/github_pr.go:759-775 | the login-to-state map built from non-comment reviews holds, per login, exactly that login's last non-comment review |
| `GithubPR.ReviewersHaveRequestedChanges` | backend/external/github_pr.go:759-775 | true iff some reviewer's latest non-comment review requests changes |
| `GithubPR.CommentKeepsChangesRequested` | backend/external/github_pr.go:761-767 | a later plain comment never clears an outstanding change request |
| `GithubPR.ApprovalClearsChangesRequested` | backend/external/github_pr.go:759-775 | an approval by the only reviewer who requested changes leaves none outstanding |
| `GithubPR.PullRequestIsApproved` | backend/external/github_pr.go:654-661 | true iff some review is in state APPROVED |
| `GithubPR.ChecksDidFinish` | backend/external/github_pr.go:777-784 | true iff every check run has status "completed" (vacuously true with no runs) |
| `GithubPR.ChecksDidFail` | backend/external/github_pr.go:786-793 | true iff some run is completed with conclusion "failure" or "timed_out" |
| `GithubPR.FailedChecksHaveCompletedRun` | backend/external/github_pr.go:786-793 | failed checks imply at least one completed run |
| `GithubPR.UserIsOwner` | backend/external/github_pr.go:603-607 | the user owns the pull request iff both IDs are present and equal |
| `GithubPR.HasUserGetID` | backend/external/github_pr.go:613-617 | some requested reviewer's ID, read through the nil-safe getter, equals the user's |
| `GithubPR.TeamsShareGetID` | backend/external/github_pr.go:618-624 | some team of the user shares a getter-read ID with some requested team |
| `GithubPR.UserNeedsToSubmitReview` | backend/external/github_pr.go:609-626 | false for a nil user or nil reviewer list; otherwise true iff the user is a requested reviewer or one of the user's teams is requested |
| `GithubPR.HasUserID` | backend/external/github_pr.go:633-637 | a requested reviewer carries the user's present ID |
| `GithubPR.TeamsShareID` | backend/external/github_pr.go:638-644 | one of the user's teams with a present ID is requested |
| `GithubPR.HasReviewBy` | backend/external/github_pr.go:645-650 | some review was written by a user with this ID |
| `GithubPR.UserIsReviewer` | backend/external/github_pr.go:628-652 | false for a nil pull request or nil user; otherwise true iff the user is requested, has reviewed, or belongs to a requested team |
| `GithubPR.NeedsToReviewImpliesReviewer` | backend/external/github_pr.go:609-652 | when every ID is present, a user who must still review counts as a reviewer |
| `GithubPR.SubmittedReviewCount` | backend/external/github_pr.go:749-755 | the number of submitted reviews (with a user, approving or requesting changes) never exceeds the number of reviews |
| `GithubPR.SubmittedReviewCountAppend` | backend/external/github_pr.go:749-755 | the count is additive over concatenation |
| `GithubPR.SubmittedReviewCountZero` | backend/external/github_pr.go:749-755 | the count is 0 iff no review is a submitted one |
| `GithubPR.ReviewerCount` | backend/external/github_pr.go:738-757 | errors for a nil repository, a nil pull request or a failed listing; otherwise submitted reviews plus requested users plus requested teams |
| `GithubPR.AddReviewersWhenNobodyReviews` | backend/external/github_pr.go:738-757 | an owner is told to add reviewers iff nobody has reviewed and no user or team is requested |
| `GithubPR.ReviewBody` | backend/external/github_pr.go:698-709 | a review's feed body is never empty: its own text, or a placeholder chosen by its state |
| `GithubPR.Comments` | backend/external/github_pr.go:663-718 | errors in the source's order; otherwise inline comments, then issue comments, then reviews, each converted in its given order |
| `GithubPR.TotalsAppend` | backend/external/github_pr.go:729-734 | added and deleted line totals are additive over file lists |
| `GithubPR.TotalsNonNegative` | backend/external/github_pr.go:729-734 | totals over non-negative per-file counts are non-negative |
| `GithubPR.AdditionsDeletions` | backend/external/github_pr.go:720-736 | the comparison's error is passed through; otherwise the sums of additions and deletions over all files, and the commit count |
| `GithubPR.ContainsNone` | backend/external/github_pr.go:438-446 | true iff none of the fragments occurs in the error text |
| `GithubPR.ShouldLogError` | backend/external/github_pr.go:438-446 | an error is not logged iff its text contains "404 Not Found", "451 Repository access blocked" or "403 API rate limit" |
| `GithubPR.RateLimitIsNotLogged` | backend/external/github_pr.go:438-446 | any error text containing the rate-limit fragment is not logged |
| `Helpers.IndexOf` | backend/database/helpers.go:206 | the first position of a character, or none when it does not occur |
| `Helpers.GetEmailDomain` | backend/database/helpers.go:202-211 | fails without '@'; a result is the non-empty text between the first and second '@'; with an '@' it fails only when that text is empty |
| `Helpers.SingleAtDomain` | backend/database/helpers.go:202-211 | round trip: `local@domain` with a single '@' yields `domain` |
| `Helpers.TrailingAtHasNoDomain` | backend/database/helpers.go:206-209 | an address ending in its only '@' is invalid |
| `Helpers.CheckNoteSharingAccessValid` | backend/database/helpers.go:213-221 | nil is valid; otherwise valid iff public, domain or meeting attendees |
| `Helpers.CheckTaskSharingAccessValid` | backend/database/helpers.go:223-225 | a task mode is valid iff it is a valid note mode other than meeting attendees (that is, public or domain) |
| `Helpers.TaskModesAreNoteModes` | backend/database/helpers.go:213-225 | every valid task mode is a valid note mode; meeting attendees is valid for notes only |
| `Helpers.CompareDomains` | backend/database/helpers.go:257-281 | succeeds iff both users' emails are found and share a domain |
| `Helpers.GetSharedTask` | backend/database/helpers.go:227-285 | only a found, live task with public or domain access is returned. Public needs no viewer; domain needs a signed-in viewer with the owner's email domain |
| `Helpers.GetSharedNote` | backend/database/helpers.go:287-308 | returns the note iff it is found, live and its sharing mode is unset or public. A domain or meeting-attendees note needs a signed-in viewer |
| `Helpers.GetSharedNoteWithAuth` | backend/database/helpers.go:310-388 | the owner always sees a live note. Nil or public access is open. Domain needs the same email domain. Meeting attendees needs a linked event whose attendees include the viewer's email. Other modes are invalid |
| `Helpers.SignedInSeesPublicNotes` | backend/database/helpers.go:287-388 | whatever the unauthenticated lookup returns, the authenticated one returns too |
| `Helpers.DBQuery` | backend/database/helpers.go:599-613 | clauses are id_external, source_id, user_id, then the extra filters in order; a document matches iff it satisfies all three and every extra filter |
| `Helpers.ShiftedItem` | backend/database/helpers.go:1178-1186 | keeps id and user; moves an item down by one exactly when it is the user's, not the moved item, and at or after the new ordering |
| `Helpers.NothingStaleWhenNumbered` | backend/database/helpers.go:1208-1210 | no item is rewritten iff every listed item already sits at its index + 1 |
| `Helpers.SortedListingKeepsOrder` | backend/database/helpers.go:1194-1197 | in the sorted listing a smaller ordering comes first |
| `Helpers.RenumberedListing` | backend/database/helpers.go:1194-1224 | after renumbering: ids and users kept, other users untouched, the user's orderings in 1..n, distinct, and in the listing's order |
| `Helpers.ShiftOrderings` | backend/database/helpers.go:1178-1186 | the array afterwards is the item-wise shift of the array before |
| `Helpers.Renumber` | backend/database/helpers.go:1208-1224 | each listed item gets its index + 1; the items rewritten are exactly those not already there |
| `Helpers.AdjustOrderingIDsForCollection` | backend/database/helpers.go:1177-1226 | after shift and renumbering the user's items are numbered 1..n in shifted order, other users are untouched, and only stale items are rewritten |
| `Helpers.RenumberingNumberedChangesNothing` | backend/database/helpers.go:1208-1224 | renumbering an already 1..n listing changes nothing and rewrites nothing |
| `Helpers.HasUserGrantedMultiCalendarScope` | backend/database/helpers.go:1441-1443 | true iff some granted scope is the full calendar scope string. That the match is exact, so the events scope does not qualify, is proved by `Helpers.EventsScopeIsNotMultiCalendar` |
| `Helpers.HasUserGrantedPrimaryCalendarScope` | backend/database/helpers.go:1445-1447 | true iff some granted scope is the calendar events scope string. `Helpers.EventsScopeIsNotMultiCalendar` shows it holds for an events-only grant where the multi-calendar check fails |
| `Helpers.EventsScopeIsNotMultiCalendar` | backend/database/helpers.go:1441-1447 | holding only the events scope grants primary but not multi-calendar access |
| `TaskModify.WrapInt64` | backend/api/task_modify.go:242 | the stored int64 is congruent to the product modulo 2^64, and equals it when the product is in range |
| `TaskModify.DurationConvertsExactly` | backend/api/task_modify.go:237-243 | durations up to MaxInt64 / 1e9 seconds convert to nanoseconds exactly and stay non-negative |
| `TaskModify.LongDurationWrapsNegative` | backend/api/task_modify.go:242 | one second longer and the stored duration becomes negative |
| `TaskModify.LastWithID` | backend/api/task_modify.go:208-213 | the status (and, at lines 247-253, priority) lookup: none iff no entry has the ID; otherwise an entry with that ID after which none has it, so the last match wins |
| `TaskModify.Validate` | backend/api/task_modify.go:199-260 | an accepted update keeps title, body, due date, deletion flag, sharing, status and the other passive fields. It had a non-empty title and a non-negative duration, which is now that duration times 1e9 with int64 wrap. Without a status in the request the completion flag and completed status stay as sent. Without a priority the priority fields stay as sent |
| `TaskModify.FindStatus` | backend/api/task_modify.go:208-213 | the status picked by the loop without a break is the last stored status with the requested ID, or none when no stored status has it |
| `TaskModify.ApplyStatus` | backend/api/task_modify.go:200-225 | rewrites the fields exactly as the completion and status stage specifies, or returns that stage's rejection |
| `TaskModify.ApplyScalars` | backend/api/task_modify.go:227-244 | stamps, checks the title and converts the duration exactly as that stage specifies |
| `TaskModify.ApplyPriority` | backend/api/task_modify.go:245-258 | replaces the priority as that stage specifies, or refuses it |
| `TaskModify.ValidateFields` | backend/api/task_modify.go:199-260 | refuses with `Validate`'s reason, or leaves the fields equal to `Validate`'s update |
| `TaskModify.CompletionRefusal` | backend/api/task_modify.go:200-206 | marking done is refused iff the source is not completable, or the task is deleted in the store and the request does not set is_deleted=false |
| `TaskModify.StatusMustBeListed` | backend/api/task_modify.go:207-217 | after the completion check, a status update is refused iff no stored status has its ExternalID |
| `TaskModify.StatusDrivesCompletion` | backend/api/task_modify.go:218-224 | a completed status becomes the completed status. The completion flag becomes the status's flag when the task's own flag disagrees; otherwise it is left alone |
| `TaskModify.TimestampsFollowFlags` | backend/api/task_modify.go:227-232 | completed_at and deleted_at are set to now exactly when the update completes or deletes the task |
| `TaskModify.PriorityIsTheStoredOne` | backend/api/task_modify.go:245-258 | an accepted priority is one of the task's priorities with the requested ID, and the normalized priority is its value |
| `TaskModify.UnknownPriorityRefused` | backend/api/task_modify.go:245-258 | a priority ID the task does not list is never accepted |
| `TaskModify.SharingUpdate` | backend/api/task_modify.go:151-166 | non-GT tasks cannot be shared. "public" and "domain" map to their modes; any other token is refused; every stored mode is a valid task mode |
| `TaskModify.SharingTokensRoundTrip` | backend/api/task_modify.go:155-162 | each valid task mode is reached from its token, and only from it |
| `TaskModify.SwapStatus` | backend/api/task_modify.go:386-393 | with is_completed set, the previous status becomes the task's status and the status becomes the completed or previous one; with it nil nothing changes |
| `TaskModify.AfterCompletionChange` | backend/api/task_modify.go:383-413 | the stored task is (un)completed. Its status becomes the completed status when completing, or the previous status when reopening, whichever is present; otherwise it is unchanged. The old status, if any, becomes the previous status. Every other stored field is kept |
| `TaskModify.CompleteThenReopenRestoresStatus` | backend/api/task_modify.go:386-393 | completing a task that has a status and then reopening it restores that status |
| `TaskModify.CompletingUsesCompletedStatus` | backend/api/task_modify.go:388-390 | completing moves the task to its completed status when it has one |
| `TaskModify.TargetSection` | backend/api/task_modify.go:270-276 | without a section in the request the task's own section is used. A supplied hex gives its parsed ID, or the nil ID when it does not parse |
| `TaskModify.ReOrderTask` | backend/api/task_modify.go:263-319 | 404 and nothing changed iff no task of this user has the ID. Otherwise the first such task is marked reordered (new ordering and section), and, when an ordering is given, exactly its siblings at or after it move down by one |
| `TaskModify.NoOrderingMovesNoSibling` | backend/api/task_modify.go:296-299 | without a new ordering no other task changes |
| `TaskModify.ReorderFreesTheSlot` | backend/api/task_modify.go:301-319 | the moved task takes the new ordering. No sibling keeps it, siblings keep their relative order, and non-siblings (other parent, section, user, deleted or completed top-level tasks) do not move |
| `TaskComment.TaskAddComment` | backend/api/task_comment.go:11-70 | 404 for a malformed ID or a task not found. 400 for a bad or all-zero comment. A found task with a missing or all-zero comment is always a 400, before the source is consulted. The source's AddComment is reached exactly when the task is found, the comment is valid and the source is known. 500 for an unknown source or a failed external call, with nothing stored. Linear comments get the fresh UUID. On success the stored comments are the old ones (nil as empty) with the new comment appended |
| `CalendarList.CalendarResults` | backend/api/calendar_list.go:50-63 | one result per calendar, in order, copying every field; can_write iff the role is "owner" or "writer" |
| `CalendarList.CalendarsList` | backend/api/calendar_list.go:31-74 | fails iff the user or accounts lookup fails. Otherwise one result per account in order, with its ID, its mirrored calendars and both scope flags |
| `CalendarList.EventsScopeOnlyAccount` | backend/api/calendar_list.go:67-68 | an account holding only the events scope is reported with primary but not multi-calendar access |

## Left out

- The GitHub fetch pipeline is not modelled: `GetPullRequests`, `processRepository`, `getPullRequestInfo`, the goroutine fan-out and channels, `pullRequestHasBeenModified` and `setOverrideURL`. So are the `list*` wrappers, which only call the GitHub API. Their results are parameters of the modelled functions.
- `handleErrorLogging` writes to the database; only its decision, `shouldLogError`, is modelled.
- MongoDB reads and writes outside the modelled operations are replaced by their outcomes as parameters: the user, task, note, email and event lookups. Transport errors of a write are not modelled.
- `Helpers.AdjustOrderingIDsForCollection`: the sorted `Find` result is an input `order` (positions in the array). A requires states that it lists exactly the user's items sorted by shifted ordering. MongoDB leaves the order of ties unspecified, and the model does not choose one. An error midway through the renumbering loop, which leaves earlier items rewritten, is not modelled.
- `TaskModify.ReOrderTask` stops after the sibling shift. The later gap removal (`getTaskResultsFromQuery` followed by `updateOrderingIDsV2`) is not modelled because `updateOrderingIDsV2` is not part of this model. Database errors of the two updates are not modelled.
- `TaskModify` handler steps around the modelled parts are not modelled: request binding, the due-date parsing with `time.Parse`, the empty-request check, `GetSourceResult`, the recurring template ID parse, the external `ModifyTask`, and the assignee lookup `getValidExternalOwnerAssignedTask`.
- `UpdateTaskInDBWithError`: only the status swap and its effect on the stored statuses are modelled. The `$set` of other fields and the matched-count error are not.
- `TaskComment.TaskAddComment`: a failure of the final `UpdateTaskInDB` is not modelled. Its 500 response is followed by the handler's own 200.
- `database.Comment` is not part of this model. Its fields are taken to be external ID, body, author name and creation time.
- The constants package is not part of this model. Its values are taken as:
  - the owner access role is "owner";
  - one second is 10^9 nanoseconds;
  - the shared-access tokens are "public" and "domain".
  Task sources are told apart only as General Task, Linear or other.
- `priority_normalized` is a float64 that is only copied. It is kept as its 64-bit pattern.
- The clock (`time.Now`) and `uuid.New` are parameters.
- `feedback.go`, `recurring_task_template_list_v2.go` and `slack.go` are outside the modelled core.
