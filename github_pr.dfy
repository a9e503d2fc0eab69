/**
 * The pull-request triage rules of the Github source: from a pull request's reviews, check runs and
 * reviewers, decide which action the signed-in user has to take, and assemble its comment feed.
 * Every call to the Github API is replaced by its outcome, passed in as a parameter.
 */
module GithubPR {
  import opened Common

  const StateApproved := "APPROVED"
  const StateChangesRequested := "CHANGES_REQUESTED"
  const StateCommented := "COMMENTED"

  const ActionReviewPR := "Review PR"
  const ActionAddReviewers := "Add Reviewers"
  const ActionFixFailedCI := "Fix Failed CI"
  const ActionAddressComments := "Address Comments"
  const ActionFixMergeConflicts := "Fix Merge Conflicts"
  const ActionWaitingOnCI := "Waiting on CI"
  const ActionMergePR := "Merge PR"
  const ActionWaitingOnReview := "Waiting on Review"
  const ActionWaitingOnAuthor := "Waiting on Author"
  const ActionNoneNeeded := "Not Actionable"

  /** Sort rank of every required action: lower ranks are shown first. */
  const ActionOrdering: map<string, int> := map[
    ActionReviewPR := 0,
    ActionAddReviewers := 1,
    ActionFixFailedCI := 2,
    ActionAddressComments := 3,
    ActionFixMergeConflicts := 4,
    ActionWaitingOnCI := 5,
    ActionMergePR := 6,
    ActionWaitingOnReview := 7,
    ActionWaitingOnAuthor := 8,
    ActionNoneNeeded := 9
  ]

  const ChecksStatusCompleted := "completed"
  const ChecksConclusionFailure := "failure"
  const ChecksConclusionTimedOut := "timed_out"

  /** The error texts that are not reported to the error log. */
  const SuppressedErrorFragments := ["404 Not Found", "451 Repository access blocked", "403 API rate limit"]

  /** A Github account; Github may leave `id` out. */
  datatype GithubUser = GithubUser(id: Option<int>, login: string)

  datatype Team = Team(id: Option<int>)

  /** The users and teams whose review is still requested. */
  datatype Reviewers = Reviewers(users: seq<GithubUser>, teams: seq<Team>)

  /** A submitted review. A missing state or body is the empty string, as go-github's getters give it. */
  datatype Review = Review(user: Option<GithubUser>, state: string, body: string, submittedAt: int)

  datatype PullRequest = PullRequest(author: GithubUser, requestedReviewers: seq<GithubUser>, requestedTeams: seq<Team>)

  datatype CheckRun = CheckRun(status: string, conclusion: string)

  /** The facts the required action is decided from. */
  datatype PRData = PRData(
    requestedReviewers: int,
    isMergeable: bool,
    isApproved: bool,
    haveRequestedChanges: bool,
    checksDidFail: bool,
    checksDidFinish: bool,
    isOwnedByUser: bool,
    userLogin: string,
    userIsReviewer: bool)

  datatype CommentType = Inline | TopLevel

  datatype InlineComment = InlineComment(user: Option<GithubUser>, body: string, path: string, startLine: int, line: int, createdAt: int)

  datatype IssueComment = IssueComment(user: Option<GithubUser>, body: string, createdAt: int)

  /** One entry of the comment feed stored with a pull request. */
  datatype PullRequestComment = PullRequestComment(
    kind: CommentType, body: string, author: string, filepath: string,
    lineNumberStart: int, lineNumberEnd: int, createdAt: int)

  datatype FileDiff = FileDiff(additions: int, deletions: int)

  datatype Comparison = Comparison(files: seq<FileDiff>, totalCommits: int)

  datatype Counts = Counts(additions: int, deletions: int, commits: int)

  // ---------------------------------------------------------------------------------------------
  // go-github's nil-safe getters

  /** `GetID()` of a possibly nil user: 0 when the user or its ID is nil. */
  function UserGetID(u: Option<GithubUser>): int
  {
    if u.Some? && u.value.id.Some? then u.value.id.value else 0
  }

  /** `GetLogin()` of a possibly nil user: "" when the user is nil. */
  function UserGetLogin(u: Option<GithubUser>): string
  {
    if u.Some? then u.value.login else ""
  }

  /** `GetID()` of a team: 0 when its ID is nil. */
  function TeamGetID(t: Team): int
  {
    if t.id.Some? then t.id.value else 0
  }

  // ---------------------------------------------------------------------------------------------
  // Required action

  /** The required action of a pull request, from the point of view of the signed-in user. */
  function RequiredAction(d: PRData): (r: string)
    ensures r in ActionOrdering && r != ""
    ensures !d.isOwnedByUser ==> (r == ActionReviewPR <==> d.userIsReviewer)
    ensures !d.isOwnedByUser && !d.userIsReviewer ==> r == ActionWaitingOnAuthor
    ensures d.isOwnedByUser ==> r != ActionReviewPR && r != ActionWaitingOnAuthor && r != ActionNoneNeeded
  {
    if d.isOwnedByUser then
      if d.requestedReviewers == 0 then ActionAddReviewers
      else if d.checksDidFail then ActionFixFailedCI
      else if d.haveRequestedChanges then ActionAddressComments
      else if !d.isMergeable then ActionFixMergeConflicts
      else if !d.checksDidFinish then ActionWaitingOnCI
      else if d.isApproved then ActionMergePR
      else ActionWaitingOnReview
    else
      var action := if d.userIsReviewer then ActionReviewPR else "";
      if action == "" then ActionWaitingOnAuthor else action
  }

  /** A triage rule for an owned pull request: when it applies, the owner should take its action. */
  datatype Rule = Rule(applies: bool, action: string)

  /** Every rule that can apply to an owned pull request, in no particular order of evaluation. */
  function OwnerRules(d: PRData): seq<Rule>
  {
    [ Rule(d.isApproved, ActionMergePR),
      Rule(!d.checksDidFinish, ActionWaitingOnCI),
      Rule(!d.isMergeable, ActionFixMergeConflicts),
      Rule(d.haveRequestedChanges, ActionAddressComments),
      Rule(d.checksDidFail, ActionFixFailedCI),
      Rule(d.requestedReviewers == 0, ActionAddReviewers),
      Rule(true, ActionWaitingOnReview) ]
  }

  /** Ranks 0 to 9 are given to ten distinct actions, one each. */
  lemma ActionOrderingIsARanking()
    ensures forall a, b :: a in ActionOrdering && b in ActionOrdering && a != b ==> ActionOrdering[a] != ActionOrdering[b]
    ensures ActionOrdering.Values == {0, 1, 2, 3, 4, 5, 6, 7, 8, 9}
  {
    assert ActionOrdering.Keys == {ActionReviewPR, ActionAddReviewers, ActionFixFailedCI, ActionAddressComments,
      ActionFixMergeConflicts, ActionWaitingOnCI, ActionMergePR, ActionWaitingOnReview, ActionWaitingOnAuthor, ActionNoneNeeded};
    forall k | 0 <= k < 10 ensures k in ActionOrdering.Values {
      var a :=
        if k == 0 then ActionReviewPR else if k == 1 then ActionAddReviewers else if k == 2 then ActionFixFailedCI
        else if k == 3 then ActionAddressComments else if k == 4 then ActionFixMergeConflicts
        else if k == 5 then ActionWaitingOnCI else if k == 6 then ActionMergePR
        else if k == 7 then ActionWaitingOnReview else if k == 8 then ActionWaitingOnAuthor else ActionNoneNeeded;
      assert ActionOrdering[a] == k;
    }
  }

  /**
   * For an owned pull request the required action is the most urgent rule that applies: it is the
   * action of an applicable rule, and no applicable rule has a smaller rank.
   */
  lemma OwnedActionIsMostUrgentRule(d: PRData)
    requires d.isOwnedByUser
    ensures var r := RequiredAction(d);
      (exists k :: 0 <= k < |OwnerRules(d)| && OwnerRules(d)[k].applies && OwnerRules(d)[k].action == r) &&
      (forall k :: 0 <= k < |OwnerRules(d)| && OwnerRules(d)[k].applies ==> ActionOrdering[r] <= ActionOrdering[OwnerRules(d)[k].action])
  {
    var rules := OwnerRules(d);
    var r := RequiredAction(d);
    var k :=
      if r == ActionMergePR then 0 else if r == ActionWaitingOnCI then 1 else if r == ActionFixMergeConflicts then 2
      else if r == ActionAddressComments then 3 else if r == ActionFixFailedCI then 4
      else if r == ActionAddReviewers then 5 else 6;
    assert rules[k].applies && rules[k].action == r;
  }

  // ---------------------------------------------------------------------------------------------
  // Reviews

  /** The login a review is filed under ("" for a review without a user). */
  function ReviewLogin(r: Review): string
  {
    UserGetLogin(r.user)
  }

  /**
   * Review `i` still stands: nobody with the same login filed a review other than a plain comment
   * after it.
   */
  ghost predicate Stands(reviews: seq<Review>, i: int)
  {
    0 <= i < |reviews| &&
    forall j :: i < j < |reviews| && ReviewLogin(reviews[j]) == ReviewLogin(reviews[i]) ==> reviews[j].state == StateCommented
  }

  /** Some reviewer's standing review requests changes. */
  ghost predicate ChangesOutstanding(reviews: seq<Review>)
  {
    exists i :: Stands(reviews, i) && reviews[i].state == StateChangesRequested
  }

  /** Per login, the state of that reviewer's latest review that is not a plain comment. */
  ghost function LatestDecisions(reviews: seq<Review>): map<string, string>
  {
    if reviews == [] then map[]
    else
      var last := reviews[|reviews| - 1];
      var earlier := LatestDecisions(reviews[..|reviews| - 1]);
      if last.state == StateCommented then earlier else earlier[ReviewLogin(last) := last.state]
  }

  /** `LatestDecisions` records, for each login, exactly the state of its standing decision. */
  lemma {:induction false} LatestDecisionsStand(reviews: seq<Review>, login: string, state: string)
    requires state != StateCommented
    ensures (login in LatestDecisions(reviews) && LatestDecisions(reviews)[login] == state) <==>
            (exists i :: Stands(reviews, i) && ReviewLogin(reviews[i]) == login && reviews[i].state == state)
  {
    if reviews != [] {
      var n := |reviews| - 1;
      var earlier := reviews[..n];
      var last := reviews[n];
      LatestDecisionsStand(earlier, login, state);
      assert forall i :: 0 <= i < n ==> earlier[i] == reviews[i];
      if last.state == StateCommented {
        forall i | 0 <= i < n ensures Stands(reviews, i) <==> Stands(earlier, i) { }
      } else if ReviewLogin(last) == login {
        assert Stands(reviews, n);
        forall i | Stands(reviews, i) && ReviewLogin(reviews[i]) == login ensures i == n { }
      } else {
        forall i | 0 <= i < n && ReviewLogin(reviews[i]) == login ensures Stands(reviews, i) <==> Stands(earlier, i) { }
      }
    }
  }

  /**
   * Whether changes are requested: ignoring plain comments, some reviewer's latest review asks
   * for changes.
   */
  method ReviewersHaveRequestedChanges(reviews: seq<Review>) returns (r: bool)
    ensures r <==> ChangesOutstanding(reviews)
  {
    var latest: map<string, string> := map[];
    for i := 0 to |reviews|
      invariant latest == LatestDecisions(reviews[..i])
    {
      assert reviews[..i + 1][..i] == reviews[..i];
      var state := reviews[i].state;
      if state == StateCommented {
        continue;
      }
      latest := latest[ReviewLogin(reviews[i]) := state];
    }
    assert reviews[..|reviews|] == reviews;
    var pending := latest.Keys;
    while pending != {}
      invariant pending <= latest.Keys
      invariant forall k :: k in latest.Keys - pending ==> latest[k] != StateChangesRequested
    {
      var k :| k in pending;
      if latest[k] == StateChangesRequested {
        LatestDecisionsStand(reviews, k, StateChangesRequested);
        return true;
      }
      pending := pending - {k};
    }
    forall i | Stands(reviews, i) && reviews[i].state == StateChangesRequested ensures false {
      LatestDecisionsStand(reviews, ReviewLogin(reviews[i]), StateChangesRequested);
    }
    return false;
  }

  /** A plain comment changes nothing about whether changes are requested. */
  lemma CommentKeepsChangesRequested(reviews: seq<Review>, comment: Review)
    requires comment.state == StateCommented
    ensures ChangesOutstanding(reviews + [comment]) <==> ChangesOutstanding(reviews)
  {
    var extended := reviews + [comment];
    forall i | 0 <= i < |reviews| ensures Stands(extended, i) <==> Stands(reviews, i) {
      assert extended[i] == reviews[i];
      assert forall j :: i < j < |reviews| ==> extended[j] == reviews[j];
    }
    if ChangesOutstanding(extended) {
      var i :| Stands(extended, i) && extended[i].state == StateChangesRequested;
      assert i < |reviews|;
    }
  }

  /**
   * A later approval clears the request: if every request for changes came from one login, an
   * approval filed under that login afterwards leaves no changes requested.
   */
  lemma ApprovalClearsChangesRequested(reviews: seq<Review>, approval: Review)
    requires approval.state == StateApproved
    requires forall i :: 0 <= i < |reviews| && reviews[i].state == StateChangesRequested ==> ReviewLogin(reviews[i]) == ReviewLogin(approval)
    ensures !ChangesOutstanding(reviews + [approval])
  {
    var extended := reviews + [approval];
    forall i | 0 <= i < |reviews| && reviews[i].state == StateChangesRequested ensures !Stands(extended, i) {
      assert extended[i] == reviews[i];
      assert ReviewLogin(extended[|reviews|]) == ReviewLogin(extended[i]) && extended[|reviews|].state != StateCommented;
    }
  }

  /** The pull request has been approved by some review. */
  function PullRequestIsApproved(reviews: seq<Review>): (r: bool)
    ensures r <==> exists i :: 0 <= i < |reviews| && reviews[i].state == StateApproved
  {
    if reviews == [] then false
    else reviews[0].state == StateApproved || PullRequestIsApproved(reviews[1..])
  }

  // ---------------------------------------------------------------------------------------------
  // Check runs

  /** Every check run has completed; in particular an empty list has. */
  function ChecksDidFinish(runs: seq<CheckRun>): (r: bool)
    ensures r <==> forall i :: 0 <= i < |runs| ==> runs[i].status == ChecksStatusCompleted
  {
    if runs == [] then true
    else if runs[0].status != ChecksStatusCompleted then false
    else ChecksDidFinish(runs[1..])
  }

  predicate RunFailed(run: CheckRun)
  {
    run.status == ChecksStatusCompleted &&
    (run.conclusion == ChecksConclusionFailure || run.conclusion == ChecksConclusionTimedOut)
  }

  /** Some check run completed with a failure or a time-out. */
  function ChecksDidFail(runs: seq<CheckRun>): (r: bool)
    ensures r <==> exists i :: 0 <= i < |runs| && RunFailed(runs[i])
  {
    if runs == [] then false
    else if RunFailed(runs[0]) then true
    else ChecksDidFail(runs[1..])
  }

  /** A failure needs a completed run, so an empty list of runs has not failed. */
  lemma FailedChecksHaveCompletedRun(runs: seq<CheckRun>)
    requires ChecksDidFail(runs)
    ensures exists i :: 0 <= i < |runs| && runs[i].status == ChecksStatusCompleted
  {
    var i :| 0 <= i < |runs| && RunFailed(runs[i]);
  }

  // ---------------------------------------------------------------------------------------------
  // Ownership and reviewers

  /** The signed-in user opened the pull request: both IDs are present and equal. */
  function UserIsOwner(user: GithubUser, pr: PullRequest): (r: bool)
    ensures r ==> user.id.Some? && pr.author.id.Some?
    ensures r <==> user.id.Some? && user.id == pr.author.id
  {
    user.id != None && pr.author.id != None && user.id.value == pr.author.id.value
  }

  /** Some user in `users` has this `GetID()`. */
  function HasUserGetID(users: seq<GithubUser>, id: int): (r: bool)
    ensures r <==> exists i :: 0 <= i < |users| && UserGetID(Some(users[i])) == id
  {
    if users == [] then false else UserGetID(Some(users[0])) == id || HasUserGetID(users[1..], id)
  }

  /** Some team in `teams` has this `GetID()`. */
  function HasTeamGetID(teams: seq<Team>, id: int): (r: bool)
    ensures r <==> exists j :: 0 <= j < |teams| && TeamGetID(teams[j]) == id
  {
    if teams == [] then false else TeamGetID(teams[0]) == id || HasTeamGetID(teams[1..], id)
  }

  /** Some user team and some reviewer team share a `GetID()`. */
  function TeamsShareGetID(userTeams: seq<Team>, teams: seq<Team>): (r: bool)
    ensures r <==> exists i, j :: 0 <= i < |userTeams| && 0 <= j < |teams| && TeamGetID(userTeams[i]) == TeamGetID(teams[j])
  {
    if userTeams == [] then false
    else HasTeamGetID(teams, TeamGetID(userTeams[0])) || TeamsShareGetID(userTeams[1..], teams)
  }

  /**
   * The signed-in user still has to review: they are a requested reviewer, or one of their teams
   * is. IDs are compared through `GetID()`, so a missing ID reads as 0.
   */
  function UserNeedsToSubmitReview(user: Option<GithubUser>, reviewers: Option<Reviewers>, userTeams: seq<Team>): (r: bool)
    ensures user.None? || reviewers.None? ==> !r
    ensures user.Some? && reviewers.Some? ==>
      (r <==> (exists i :: 0 <= i < |reviewers.value.users| && UserGetID(Some(reviewers.value.users[i])) == UserGetID(user)) ||
              (exists i, j :: 0 <= i < |userTeams| && 0 <= j < |reviewers.value.teams| &&
                              TeamGetID(userTeams[i]) == TeamGetID(reviewers.value.teams[j])))
  {
    if user.None? || reviewers.None? then false
    else HasUserGetID(reviewers.value.users, UserGetID(user)) || TeamsShareGetID(userTeams, reviewers.value.teams)
  }

  /** Some user in `users` carries this ID, which must be present. */
  function HasUserID(users: seq<GithubUser>, id: Option<int>): (r: bool)
    ensures r <==> id.Some? && exists i :: 0 <= i < |users| && users[i].id == id
  {
    if users == [] || id.None? then false else users[0].id == id || HasUserID(users[1..], id)
  }

  /** Some team in `teams` carries this ID, which must be present. */
  function HasTeamID(teams: seq<Team>, id: Option<int>): (r: bool)
    ensures r <==> id.Some? && exists j :: 0 <= j < |teams| && teams[j].id == id
  {
    if teams == [] || id.None? then false else teams[0].id == id || HasTeamID(teams[1..], id)
  }

  /** Some user team carries a present ID that a requested team also carries. */
  function TeamsShareID(userTeams: seq<Team>, teams: seq<Team>): (r: bool)
    ensures r <==> exists i, j :: 0 <= i < |userTeams| && 0 <= j < |teams| && userTeams[i].id.Some? && teams[j].id == userTeams[i].id
  {
    if userTeams == [] then false
    else HasTeamID(teams, userTeams[0].id) || TeamsShareID(userTeams[1..], teams)
  }

  /** Some review was filed by a user with this `GetID()`. */
  function HasReviewBy(reviews: seq<Review>, id: int): (r: bool)
    ensures r <==> exists k :: 0 <= k < |reviews| && UserGetID(reviews[k].user) == id
  {
    if reviews == [] then false else UserGetID(reviews[0].user) == id || HasReviewBy(reviews[1..], id)
  }

  /**
   * The signed-in user counts as a reviewer: they or one of their teams is requested (with IDs
   * present), or they have already filed a review.
   */
  function UserIsReviewer(user: Option<GithubUser>, pr: Option<PullRequest>, reviews: seq<Review>, userTeams: seq<Team>): (r: bool)
    ensures pr.None? || user.None? ==> !r
    ensures pr.Some? && user.Some? ==>
      (r <==> (user.value.id.Some? && exists i :: 0 <= i < |pr.value.requestedReviewers| && pr.value.requestedReviewers[i].id == user.value.id) ||
              (exists i, j :: 0 <= i < |userTeams| && 0 <= j < |pr.value.requestedTeams| &&
                              userTeams[i].id.Some? && pr.value.requestedTeams[j].id == userTeams[i].id) ||
              (exists k :: 0 <= k < |reviews| && UserGetID(reviews[k].user) == UserGetID(user)))
  {
    if pr.None? || user.None? then false
    else
      HasUserID(pr.value.requestedReviewers, user.value.id) ||
      TeamsShareID(userTeams, pr.value.requestedTeams) ||
      HasReviewBy(reviews, UserGetID(user))
  }

  /**
   * When every ID is present, a user who still has to review the pull request's requested
   * reviewers and teams counts as its reviewer.
   */
  lemma NeedsToReviewImpliesReviewer(user: GithubUser, pr: PullRequest, reviews: seq<Review>, userTeams: seq<Team>)
    requires user.id.Some?
    requires forall i :: 0 <= i < |pr.requestedReviewers| ==> pr.requestedReviewers[i].id.Some?
    requires forall i :: 0 <= i < |userTeams| ==> userTeams[i].id.Some?
    requires forall j :: 0 <= j < |pr.requestedTeams| ==> pr.requestedTeams[j].id.Some?
    requires UserNeedsToSubmitReview(Some(user), Some(Reviewers(pr.requestedReviewers, pr.requestedTeams)), userTeams)
    ensures UserIsReviewer(Some(user), Some(pr), reviews, userTeams)
  {
    if i :| 0 <= i < |pr.requestedReviewers| && UserGetID(Some(pr.requestedReviewers[i])) == UserGetID(Some(user)) {
      assert pr.requestedReviewers[i].id == user.id;
    } else {
      var i, j :| 0 <= i < |userTeams| && 0 <= j < |pr.requestedTeams| && TeamGetID(userTeams[i]) == TeamGetID(pr.requestedTeams[j]);
      assert pr.requestedTeams[j].id == userTeams[i].id;
    }
  }

  // ---------------------------------------------------------------------------------------------
  // Reviewer count

  /** A review that counts as submitted: it has a user and approves or requests changes. */
  predicate IsSubmittedReview(r: Review)
  {
    r.user.Some? && (r.state == StateApproved || r.state == StateChangesRequested)
  }

  /** How many reviews count as submitted. */
  function SubmittedReviewCount(reviews: seq<Review>): (n: nat)
    ensures n <= |reviews|
  {
    if reviews == [] then 0
    else SubmittedReviewCount(reviews[..|reviews| - 1]) + (if IsSubmittedReview(reviews[|reviews| - 1]) then 1 else 0)
  }

  /** Counting submitted reviews is additive over concatenation. */
  lemma {:induction false} SubmittedReviewCountAppend(a: seq<Review>, b: seq<Review>)
    ensures SubmittedReviewCount(a + b) == SubmittedReviewCount(a) + SubmittedReviewCount(b)
  {
    if b != [] {
      assert (a + b)[..|a + b| - 1] == a + b[..|b| - 1];
      SubmittedReviewCountAppend(a, b[..|b| - 1]);
    } else {
      assert a + b == a;
    }
  }

  /** No review counts as submitted exactly when the count is zero. */
  lemma {:induction false} SubmittedReviewCountZero(reviews: seq<Review>)
    ensures SubmittedReviewCount(reviews) == 0 <==> forall i :: 0 <= i < |reviews| ==> !IsSubmittedReview(reviews[i])
  {
    if reviews != [] {
      var n := |reviews| - 1;
      SubmittedReviewCountZero(reviews[..n]);
      assert forall i :: 0 <= i < n ==> reviews[..n][i] == reviews[i];
    }
  }

  /**
   * The reviewer count: submitted reviews plus requested users and teams, or the error that
   * stopped the count.
   */
  method ReviewerCount(repositoryPresent: bool, pullRequestPresent: bool, listed: Result<Reviewers, string>, reviews: seq<Review>)
    returns (r: Result<int, string>)
    ensures !repositoryPresent ==> r == Failure("repository is nil")
    ensures repositoryPresent && !pullRequestPresent ==> r == Failure("pull request is nil")
    ensures repositoryPresent && pullRequestPresent && listed.Failure? ==> r == Failure(listed.error)
    ensures repositoryPresent && pullRequestPresent && listed.Success? ==>
      r == Success(SubmittedReviewCount(reviews) + |listed.value.users| + |listed.value.teams|)
  {
    if !repositoryPresent {
      return Failure("repository is nil");
    }
    if !pullRequestPresent {
      return Failure("pull request is nil");
    }
    if listed.Failure? {
      return Failure(listed.error);
    }
    var submitted := 0;
    for i := 0 to |reviews|
      invariant submitted == SubmittedReviewCount(reviews[..i])
    {
      assert reviews[..i + 1][..i] == reviews[..i];
      if IsSubmittedReview(reviews[i]) {
        submitted := submitted + 1;
      }
    }
    assert reviews[..|reviews|] == reviews;
    return Success(submitted + |listed.value.users| + |listed.value.teams|);
  }

  /**
   * An owner is asked to add reviewers exactly when no review was submitted and no user or team
   * is requested.
   */
  lemma AddReviewersWhenNobodyReviews(d: PRData, reviews: seq<Review>, listed: Reviewers)
    requires d.isOwnedByUser
    requires d.requestedReviewers == SubmittedReviewCount(reviews) + |listed.users| + |listed.teams|
    ensures RequiredAction(d) == ActionAddReviewers <==>
      (forall i :: 0 <= i < |reviews| ==> !IsSubmittedReview(reviews[i])) && listed.users == [] && listed.teams == []
  {
    SubmittedReviewCountZero(reviews);
  }

  // ---------------------------------------------------------------------------------------------
  // Comment feed

  /** The body shown for a review: its own text, or a placeholder naming what the review did. */
  function ReviewBody(review: Review): (body: string)
    ensures body != ""
    ensures review.body != "" ==> body == review.body
    ensures review.body == "" ==>
      body == (if review.state == StateApproved then "(Approved changes)"
               else if review.state == StateChangesRequested then "(Requested changes)"
               else "(Reviewed changes)")
  {
    if review.body != "" then review.body
    else if review.state == StateApproved then "(Approved changes)"
    else if review.state == StateChangesRequested then "(Requested changes)"
    else "(Reviewed changes)"
  }

  function FromInlineComment(c: InlineComment): PullRequestComment
  {
    PullRequestComment(Inline, c.body, UserGetLogin(c.user), c.path, c.startLine, c.line, c.createdAt)
  }

  function FromIssueComment(c: IssueComment): PullRequestComment
  {
    PullRequestComment(TopLevel, c.body, UserGetLogin(c.user), "", 0, 0, c.createdAt)
  }

  function FromReview(review: Review): PullRequestComment
  {
    PullRequestComment(TopLevel, ReviewBody(review), UserGetLogin(review.user), "", 0, 0, review.submittedAt)
  }

  /**
   * The comment feed: inline comments, then issue comments, then one entry per review, each group
   * in its given order; or the first error met.
   */
  method Comments(repositoryPresent: bool, pullRequestPresent: bool,
                  listedInline: Result<seq<InlineComment>, string>, listedIssue: Result<seq<IssueComment>, string>,
                  reviews: seq<Review>)
    returns (r: Result<seq<PullRequestComment>, string>)
    ensures !repositoryPresent ==> r == Failure("repository is nil")
    ensures repositoryPresent && !pullRequestPresent ==> r == Failure("pull request is nil")
    ensures repositoryPresent && pullRequestPresent && listedInline.Failure? ==> r == Failure(listedInline.error)
    ensures repositoryPresent && pullRequestPresent && listedInline.Success? && listedIssue.Failure? ==> r == Failure(listedIssue.error)
    ensures r.Success? <==> repositoryPresent && pullRequestPresent && listedInline.Success? && listedIssue.Success?
    ensures r.Success? ==>
      var inline, issue := listedInline.value, listedIssue.value;
      var feed := r.value;
      && |feed| == |inline| + |issue| + |reviews|
      && (forall i :: 0 <= i < |inline| ==> feed[i] == FromInlineComment(inline[i]))
      && (forall i :: 0 <= i < |issue| ==> feed[|inline| + i] == FromIssueComment(issue[i]))
      && (forall i :: 0 <= i < |reviews| ==> feed[|inline| + |issue| + i] == FromReview(reviews[i]))
  {
    if !repositoryPresent {
      return Failure("repository is nil");
    }
    if !pullRequestPresent {
      return Failure("pull request is nil");
    }
    var feed: seq<PullRequestComment> := [];
    if listedInline.Failure? {
      return Failure(listedInline.error);
    }
    var inline := listedInline.value;
    for i := 0 to |inline|
      invariant |feed| == i
      invariant forall k :: 0 <= k < i ==> feed[k] == FromInlineComment(inline[k])
    {
      feed := feed + [FromInlineComment(inline[i])];
    }
    if listedIssue.Failure? {
      return Failure(listedIssue.error);
    }
    var issue := listedIssue.value;
    for i := 0 to |issue|
      invariant |feed| == |inline| + i
      invariant forall k :: 0 <= k < |inline| ==> feed[k] == FromInlineComment(inline[k])
      invariant forall k :: 0 <= k < i ==> feed[|inline| + k] == FromIssueComment(issue[k])
    {
      feed := feed + [FromIssueComment(issue[i])];
    }
    for i := 0 to |reviews|
      invariant |feed| == |inline| + |issue| + i
      invariant forall k :: 0 <= k < |inline| ==> feed[k] == FromInlineComment(inline[k])
      invariant forall k :: 0 <= k < |issue| ==> feed[|inline| + k] == FromIssueComment(issue[k])
      invariant forall k :: 0 <= k < i ==> feed[|inline| + |issue| + k] == FromReview(reviews[k])
    {
      var body := reviews[i].body;
      if body == "" {
        var state := reviews[i].state;
        if state == StateApproved {
          body := "(Approved changes)";
        } else if state == StateChangesRequested {
          body := "(Requested changes)";
        } else {
          body := "(Reviewed changes)";
        }
      }
      feed := feed + [PullRequestComment(TopLevel, body, UserGetLogin(reviews[i].user), "", 0, 0, reviews[i].submittedAt)];
    }
    return Success(feed);
  }

  // ---------------------------------------------------------------------------------------------
  // Additions and deletions

  function TotalAdditions(files: seq<FileDiff>): int
  {
    if files == [] then 0 else TotalAdditions(files[..|files| - 1]) + files[|files| - 1].additions
  }

  function TotalDeletions(files: seq<FileDiff>): int
  {
    if files == [] then 0 else TotalDeletions(files[..|files| - 1]) + files[|files| - 1].deletions
  }

  /** Totals over two groups of files add up. */
  lemma {:induction false} TotalsAppend(a: seq<FileDiff>, b: seq<FileDiff>)
    ensures TotalAdditions(a + b) == TotalAdditions(a) + TotalAdditions(b)
    ensures TotalDeletions(a + b) == TotalDeletions(a) + TotalDeletions(b)
  {
    if b == [] {
      assert a + b == a;
    } else {
      assert (a + b)[..|a + b| - 1] == a + b[..|b| - 1];
      TotalsAppend(a, b[..|b| - 1]);
    }
  }

  /** When every file reports non-negative counts, so do the totals. */
  lemma {:induction false} TotalsNonNegative(files: seq<FileDiff>)
    requires forall i :: 0 <= i < |files| ==> files[i].additions >= 0 && files[i].deletions >= 0
    ensures TotalAdditions(files) >= 0 && TotalDeletions(files) >= 0
  {
    if files != [] {
      TotalsNonNegative(files[..|files| - 1]);
    }
  }

  /** Lines added and deleted over all files of a comparison, and its commit count. */
  method AdditionsDeletions(compared: Result<Comparison, string>) returns (r: Result<Counts, string>)
    ensures compared.Failure? ==> r == Failure(compared.error)
    ensures compared.Success? ==>
      r == Success(Counts(TotalAdditions(compared.value.files), TotalDeletions(compared.value.files), compared.value.totalCommits))
  {
    if compared.Failure? {
      return Failure(compared.error);
    }
    var files := compared.value.files;
    var additions, deletions := 0, 0;
    for i := 0 to |files|
      invariant additions == TotalAdditions(files[..i])
      invariant deletions == TotalDeletions(files[..i])
    {
      assert files[..i + 1][..i] == files[..i];
      additions := additions + files[i].additions;
      deletions := deletions + files[i].deletions;
    }
    assert files[..|files|] == files;
    return Success(Counts(additions, deletions, compared.value.totalCommits));
  }

  // ---------------------------------------------------------------------------------------------
  // Error logging

  /** None of `fragments` occurs in `err`. */
  function ContainsNone(err: string, fragments: seq<string>): (r: bool)
    ensures r <==> forall k :: 0 <= k < |fragments| ==> !Contains(err, fragments[k])
  {
    if fragments == [] then true
    else if Contains(err, fragments[0]) then false
    else ContainsNone(err, fragments[1..])
  }

  /** An error is logged unless its text contains one of the suppressed fragments. */
  function ShouldLogError(err: string): (r: bool)
    ensures !r <==> exists k :: 0 <= k < |SuppressedErrorFragments| && Contains(err, SuppressedErrorFragments[k])
  {
    ContainsNone(err, SuppressedErrorFragments)
  }

  /** A rate-limit error is never logged, whatever surrounds the fragment. */
  lemma RateLimitIsNotLogged(prefix: string, suffix: string)
    ensures !ShouldLogError(prefix + "403 API rate limit" + suffix)
  {
    ContainsInfix(prefix, "403 API rate limit", suffix);
    assert SuppressedErrorFragments[2] == "403 API rate limit";
  }
}
