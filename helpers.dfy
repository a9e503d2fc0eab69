/**
 * Database helpers of the task manager: e-mail domains, the sharing modes of tasks and notes, who may
 * open a shared task or note, the filter that identifies an external item, the renumbering of a
 * user's `id_ordering` values, and the calendar scopes a linked account holds.
 * Every document the helpers look up in MongoDB is passed in, as is the current time.
 */
module Helpers {
  import opened Common

  // ---------------------------------------------------------------------------------------------
  // E-mail domains

  /** The position of the first `c` in `s`, if any. */
  function IndexOf(s: string, c: char): (r: Option<nat>)
    ensures r.None? <==> c !in s
    ensures r.Some? ==> r.value < |s| && s[r.value] == c && c !in s[..r.value]
  {
    if s == [] then None
    else if s[0] == c then Some(0)
    else
      match IndexOf(s[1..], c)
      case None => None
      case Some(k) =>
        assert s[..k + 1] == [s[0]] + s[1..][..k];
        Some(k + 1)
  }

  const InvalidEmail := "invalid email address"

  /** The first '@' of `email` is at `at`, and `domain` is the text from there to the next '@' or the end. */
  predicate DomainAt(email: string, at: int, domain: string)
  {
    0 <= at && at + 1 + |domain| <= |email| &&
    email[at] == '@' && '@' !in email[..at] &&
    email[at + 1..at + 1 + |domain|] == domain && '@' !in domain &&
    (at + 1 + |domain| == |email| || email[at + 1 + |domain|] == '@')
  }

  /**
   * The domain of an e-mail address: the text after its first '@', up to a second '@' if there is
   * one. It fails when there is no '@' or that text is empty.
   */
  function GetEmailDomain(email: string): (r: Result<string, string>)
    ensures r.Failure? ==> r.error == InvalidEmail
    ensures '@' !in email ==> r.Failure?
    ensures r.Success? ==> r.value != "" && exists at :: DomainAt(email, at, r.value)
    ensures r.Failure? && '@' in email ==> exists at :: DomainAt(email, at, "")
  {
    match IndexOf(email, '@')
    case None => Failure(InvalidEmail)
    case Some(at) =>
      var rest := email[at + 1..];
      var domain := match IndexOf(rest, '@') case None => rest case Some(k) => rest[..k];
      assert email[at + 1..at + 1 + |domain|] == domain;
      assert DomainAt(email, at, domain);
      if domain == "" then Failure(InvalidEmail) else Success(domain)
  }

  /** For an address with a single '@' and a non-empty domain, the domain is everything after the '@'. */
  lemma SingleAtDomain(local: string, domain: string)
    requires '@' !in local && '@' !in domain && domain != ""
    ensures GetEmailDomain(local + "@" + domain) == Success(domain)
  {
    var email := local + "@" + domain;
    assert email[..|local|] == local;
    assert email[|local| + 1..] == domain;
    assert email[|local|] == '@';
    assert forall i :: 0 <= i < |local| ==> email[i] == local[i];
  }

  /** An address whose '@' has nothing after it has no domain. */
  lemma TrailingAtHasNoDomain(local: string)
    requires '@' !in local
    ensures GetEmailDomain(local + "@").Failure?
  {
    var email := local + "@";
    assert forall i :: 0 <= i < |local| ==> email[i] == local[i];
  }

  /** Both addresses have a domain and the domains are equal. */
  predicate SameDomain(a: string, b: string)
  {
    GetEmailDomain(a).Success? && GetEmailDomain(b).Success? && GetEmailDomain(a).value == GetEmailDomain(b).value
  }

  // ---------------------------------------------------------------------------------------------
  // Sharing modes

  /** The stored sharing mode; `Unrecognised` stands for any other stored value. */
  datatype SharedAccess = Public | Domain | MeetingAttendees | Unrecognised(raw: int)

  /** A note's sharing mode is valid when it is unset (older notes) or one of the three modes. */
  function CheckNoteSharingAccessValid(access: Option<SharedAccess>): (r: bool)
    ensures access.None? ==> r
    ensures access.Some? ==> (r <==> access.value in {Public, Domain, MeetingAttendees})
  {
    if access.None? then true
    else if access.value != MeetingAttendees && access.value != Domain && access.value != Public then false
    else true
  }

  /** A task's sharing mode is valid when it is domain or public: the note modes without meeting attendees. */
  function CheckTaskSharingAccessValid(access: SharedAccess): (r: bool)
    ensures r <==> CheckNoteSharingAccessValid(Some(access)) && access != MeetingAttendees
  {
    access == Domain || access == Public
  }

  /** Every mode valid for tasks is valid for notes; meeting attendees is valid for notes only. */
  lemma TaskModesAreNoteModes(access: SharedAccess)
    ensures CheckTaskSharingAccessValid(access) ==> CheckNoteSharingAccessValid(Some(access))
    ensures CheckNoteSharingAccessValid(Some(MeetingAttendees)) && !CheckTaskSharingAccessValid(MeetingAttendees)
  {
  }

  // ---------------------------------------------------------------------------------------------
  // Opening shared tasks and notes

  datatype AccessError =
    | NotFound
    | NotShared
    | InvalidSharedAccess
    | SignInRequired
    | UserLookupFailed
    | BadEmail
    | DomainMismatch
    | AuthRequired
    | LinkedEventRequired
    | EventLookupFailed
    | NotAnAttendee

  datatype StoredTask = StoredTask(id: ObjectId, userID: ObjectId, sharedUntil: int, isDeleted: Option<bool>, sharedAccess: Option<SharedAccess>)

  datatype StoredNote = StoredNote(id: ObjectId, userID: ObjectId, sharedUntil: int, isDeleted: Option<bool>,
                                   sharedAccess: Option<SharedAccess>, linkedEventID: ObjectId)

  /** The lookup filter: `shared_until` has not passed and the item is not marked deleted. */
  predicate IsLive(sharedUntil: int, isDeleted: Option<bool>, now: int)
  {
    sharedUntil >= now && isDeleted != Some(true)
  }

  /** Look up the domains of two users' e-mail addresses and compare them. */
  function CompareDomains(viewer: ObjectId, owner: ObjectId, emails: map<ObjectId, string>): (r: Result<(), AccessError>)
    ensures r.Success? <==> viewer in emails && owner in emails && SameDomain(emails[viewer], emails[owner])
  {
    if viewer !in emails || owner !in emails then Failure(UserLookupFailed)
    else if GetEmailDomain(emails[viewer]).Failure? || GetEmailDomain(emails[owner]).Failure? then Failure(BadEmail)
    else if GetEmailDomain(emails[viewer]).value != GetEmailDomain(emails[owner]).value then Failure(DomainMismatch)
    else Success(())
  }

  /**
   * Open a shared task. `found` is the task with the requested ID, if any; `viewer` is the signed-in
   * user, if any; `emails` maps the user IDs the database knows to their e-mail addresses.
   */
  function GetSharedTask(found: Option<StoredTask>, now: int, viewer: Option<ObjectId>, emails: map<ObjectId, string>)
    : (r: Result<StoredTask, AccessError>)
    ensures r.Success? ==> found == Some(r.value)
    ensures r.Success? ==> IsLive(r.value.sharedUntil, r.value.isDeleted, now) && r.value.sharedAccess in {Some(Public), Some(Domain)}
    ensures found.Some? && IsLive(found.value.sharedUntil, found.value.isDeleted, now) && found.value.sharedAccess == Some(Public) ==>
      r.Success?
    ensures found.Some? && IsLive(found.value.sharedUntil, found.value.isDeleted, now) && found.value.sharedAccess == Some(Domain) ==>
      (r.Success? <==> viewer.Some? && viewer.value in emails && found.value.userID in emails &&
                       SameDomain(emails[viewer.value], emails[found.value.userID]))
  {
    if found.None? || !IsLive(found.value.sharedUntil, found.value.isDeleted, now) then Failure(NotFound)
    else
      var task := found.value;
      if task.sharedAccess.None? then Failure(NotShared)
      else if task.sharedAccess.value != Domain && task.sharedAccess.value != Public then Failure(InvalidSharedAccess)
      else if task.sharedAccess.value == Domain then
        if viewer.None? then Failure(SignInRequired)
        else
          match CompareDomains(viewer.value, task.userID, emails)
          case Failure(e) => Failure(e)
          case Success(_) => Success(task)
      else Success(task)
  }

  /** Open a shared note without a signed-in user: only public notes and notes with no mode set. */
  function GetSharedNote(found: Option<StoredNote>, now: int): (r: Result<StoredNote, AccessError>)
    ensures r.Success? ==> found == Some(r.value)
    ensures r.Success? <==>
      found.Some? && IsLive(found.value.sharedUntil, found.value.isDeleted, now) &&
      (found.value.sharedAccess.None? || found.value.sharedAccess == Some(Public))
  {
    if found.None? || !IsLive(found.value.sharedUntil, found.value.isDeleted, now) then Failure(NotFound)
    else if found.value.sharedAccess.Some? && found.value.sharedAccess.value != Public then Failure(AuthRequired)
    else Success(found.value)
  }

  /**
   * Open a shared note as the signed-in user `viewer`. `events` maps the calendar events the
   * database knows to their attendees' e-mail addresses.
   */
  function GetSharedNoteWithAuth(found: Option<StoredNote>, now: int, viewer: ObjectId,
                                 emails: map<ObjectId, string>, events: map<ObjectId, seq<string>>)
    : (r: Result<StoredNote, AccessError>)
    ensures r.Success? ==> found == Some(r.value) && IsLive(r.value.sharedUntil, r.value.isDeleted, now)
    ensures found.Some? && IsLive(found.value.sharedUntil, found.value.isDeleted, now) ==>
      var note := found.value;
      && (note.userID == viewer || note.sharedAccess.None? || note.sharedAccess == Some(Public) ==> r.Success?)
      && (note.userID != viewer && note.sharedAccess == Some(Domain) ==>
            (r.Success? <==> viewer in emails && note.userID in emails && SameDomain(emails[viewer], emails[note.userID])))
      && (note.userID != viewer && note.sharedAccess == Some(MeetingAttendees) ==>
            (r.Success? <==> viewer in emails && note.linkedEventID != NilObjectId && note.linkedEventID in events &&
                             emails[viewer] in events[note.linkedEventID]))
      && (note.userID != viewer && note.sharedAccess.Some? && note.sharedAccess.value.Unrecognised? ==> r.Failure?)
  {
    if found.None? || !IsLive(found.value.sharedUntil, found.value.isDeleted, now) then Failure(NotFound)
    else
      var note := found.value;
      if note.sharedAccess.Some? && note.sharedAccess.value != Public && note.userID != viewer then
        if !CheckNoteSharingAccessValid(note.sharedAccess) then Failure(InvalidSharedAccess)
        else if viewer !in emails then Failure(UserLookupFailed)
        else if note.sharedAccess.value == Domain then
          match CompareDomains(viewer, note.userID, emails)
          case Failure(e) => Failure(e)
          case Success(_) => Success(note)
        else if note.sharedAccess.value == MeetingAttendees then
          if note.linkedEventID == NilObjectId then Failure(LinkedEventRequired)
          else if note.linkedEventID !in events then Failure(EventLookupFailed)
          else if emails[viewer] in events[note.linkedEventID] then Success(note)
          else Failure(NotAnAttendee)
        else Success(note)
      else Success(note)
  }

  /** Signing in never loses access: a note readable without a user is readable by every user. */
  lemma SignedInSeesPublicNotes(found: Option<StoredNote>, now: int, viewer: ObjectId,
                                emails: map<ObjectId, string>, events: map<ObjectId, seq<string>>)
    requires GetSharedNote(found, now).Success?
    ensures GetSharedNoteWithAuth(found, now, viewer, emails, events) == GetSharedNote(found, now)
  {
  }

  // ---------------------------------------------------------------------------------------------
  // The filter that identifies an external item

  /** One clause of a `$and` filter. */
  datatype Filter = IDExternalIs(idExternal: string) | SourceIDIs(sourceID: string) | UserIDIs(userID: ObjectId)
                  | FieldIs(field: string, value: string)

  /** A stored document, as far as filters can see it. */
  datatype Document = Document(idExternal: string, sourceID: string, userID: ObjectId, fields: map<string, string>)

  predicate Satisfies(doc: Document, f: Filter)
  {
    match f
    case IDExternalIs(x) => doc.idExternal == x
    case SourceIDIs(s) => doc.sourceID == s
    case UserIDIs(u) => doc.userID == u
    case FieldIs(k, v) => k in doc.fields && doc.fields[k] == v
  }

  /** A document matches a `$and` filter when it satisfies every clause. */
  predicate MatchesAll(doc: Document, clauses: seq<Filter>)
  {
    forall k :: 0 <= k < |clauses| ==> Satisfies(doc, clauses[k])
  }

  /**
   * The filter for the item with this external ID and source, owned by this user, narrowed by any
   * additional filters in their given order.
   */
  method DBQuery(userID: ObjectId, idExternal: string, sourceID: string, additionalFilters: Option<seq<Filter>>)
    returns (clauses: seq<Filter>)
    ensures |clauses| >= 3 && clauses[..3] == [IDExternalIs(idExternal), SourceIDIs(sourceID), UserIDIs(userID)]
    ensures clauses[3..] == if additionalFilters.Some? then additionalFilters.value else []
    ensures forall doc :: MatchesAll(doc, clauses) <==>
      doc.idExternal == idExternal && doc.sourceID == sourceID && doc.userID == userID &&
      (additionalFilters.Some? ==> MatchesAll(doc, additionalFilters.value))
  {
    clauses := [IDExternalIs(idExternal), SourceIDIs(sourceID), UserIDIs(userID)];
    if additionalFilters.Some? && |additionalFilters.value| > 0 {
      var extra := additionalFilters.value;
      for i := 0 to |extra|
        invariant clauses == [IDExternalIs(idExternal), SourceIDIs(sourceID), UserIDIs(userID)] + extra[..i]
      {
        assert extra[..i + 1] == extra[..i] + [extra[i]];
        clauses := clauses + [extra[i]];
      }
      assert extra[..|extra|] == extra;
    }
    forall doc ensures MatchesAll(doc, clauses) <==>
      doc.idExternal == idExternal && doc.sourceID == sourceID && doc.userID == userID &&
      (additionalFilters.Some? ==> MatchesAll(doc, additionalFilters.value))
    {
      if MatchesAll(doc, clauses) {
        assert Satisfies(doc, clauses[0]) && Satisfies(doc, clauses[1]) && Satisfies(doc, clauses[2]);
        if additionalFilters.Some? {
          forall k | 0 <= k < |additionalFilters.value| ensures Satisfies(doc, additionalFilters.value[k]) {
            assert clauses[3 + k] == additionalFilters.value[k];
          }
        }
      }
    }
  }

  // ---------------------------------------------------------------------------------------------
  // Renumbering id_ordering

  /** The fields of a stored item that reordering reads and writes. */
  datatype Item = Item(id: ObjectId, userID: ObjectId, ordering: int)

  /** The first step of a reorder: the user's other items at or after `orderingID` move back by one. */
  function ShiftedItem(x: Item, userID: ObjectId, itemID: ObjectId, orderingID: int): (y: Item)
    ensures y.id == x.id && y.userID == x.userID
    ensures x.userID != userID || x.id == itemID || x.ordering < orderingID ==> y == x
    ensures x.userID == userID && x.id != itemID && x.ordering >= orderingID ==> y.ordering == x.ordering + 1
  {
    if x.id != itemID && x.userID == userID && x.ordering >= orderingID then x.(ordering := x.ordering + 1) else x
  }

  ghost function Shifted(items: seq<Item>, userID: ObjectId, itemID: ObjectId, orderingID: int): (s: seq<Item>)
    ensures |s| == |items|
  {
    seq(|items|, i requires 0 <= i < |items| => ShiftedItem(items[i], userID, itemID, orderingID))
  }

  /** `order` lists distinct positions of `items`. */
  ghost predicate DistinctPositions(order: seq<int>, n: int)
  {
    (forall k :: 0 <= k < |order| ==> 0 <= order[k] < n) &&
    (forall k, l :: 0 <= k < l < |order| ==> order[k] != order[l])
  }

  /**
   * `order` is what the sorted lookup of the user's items returns: every item of the user exactly
   * once, in ascending `id_ordering` (ties in any order).
   */
  ghost predicate ListsUserItemsSorted(items: seq<Item>, userID: ObjectId, order: seq<int>)
  {
    DistinctPositions(order, |items|) &&
    (forall k :: 0 <= k < |order| ==> items[order[k]].userID == userID) &&
    (forall i :: 0 <= i < |items| && items[i].userID == userID ==> i in order) &&
    (forall k, l :: 0 <= k < l < |order| ==> items[order[k]].ordering <= items[order[l]].ordering)
  }

  /** The positions in `order` whose item does not already carry its rank (position + 1). */
  ghost function StalePositions(items: seq<Item>, order: seq<int>): seq<int>
    requires forall k :: 0 <= k < |order| ==> 0 <= order[k] < |items|
  {
    if order == [] then []
    else
      var n := |order| - 1;
      StalePositions(items, order[..n]) + (if items[order[n]].ordering != n + 1 then [order[n]] else [])
  }

  /** Nothing is stale exactly when every listed item already carries its rank. */
  lemma {:induction false} NothingStaleWhenNumbered(items: seq<Item>, order: seq<int>)
    requires forall k :: 0 <= k < |order| ==> 0 <= order[k] < |items|
    ensures StalePositions(items, order) == [] <==> forall k :: 0 <= k < |order| ==> items[order[k]].ordering == k + 1
  {
    if order != [] {
      var n := |order| - 1;
      NothingStaleWhenNumbered(items, order[..n]);
      assert forall k :: 0 <= k < n ==> order[..n][k] == order[k];
    }
  }

  /** In a sorted listing, an item with a smaller ordering is listed earlier. */
  lemma SortedListingKeepsOrder(items: seq<Item>, userID: ObjectId, order: seq<int>, k: int, l: int)
    requires ListsUserItemsSorted(items, userID, order)
    requires 0 <= k < |order| && 0 <= l < |order|
    requires items[order[k]].ordering < items[order[l]].ordering
    ensures k < l
  {
  }

  /**
   * `after` is `before` with the item listed at position k of `order` given ordering k + 1 and
   * every unlisted item left alone.
   */
  ghost predicate RenumberedFrom(before: seq<Item>, after: seq<Item>, order: seq<int>)
    requires DistinctPositions(order, |before|)
  {
    |after| == |before| &&
    (forall k :: 0 <= k < |order| ==> after[order[k]] == before[order[k]].(ordering := k + 1)) &&
    (forall i :: 0 <= i < |before| && i !in order ==> after[i] == before[i])
  }

  /**
   * Renumbering a sorted listing of the user's items gives them exactly the orderings 1..n, each
   * once, in the order of their previous orderings, and leaves other users' items alone.
   */
  lemma RenumberedListing(before: seq<Item>, after: seq<Item>, userID: ObjectId, order: seq<int>)
    requires ListsUserItemsSorted(before, userID, order)
    requires RenumberedFrom(before, after, order)
    ensures forall i :: 0 <= i < |after| ==> after[i].id == before[i].id && after[i].userID == before[i].userID
    ensures forall i :: 0 <= i < |after| && after[i].userID != userID ==> after[i] == before[i]
    ensures forall i :: 0 <= i < |after| && after[i].userID == userID ==> 1 <= after[i].ordering <= |order|
    ensures forall i, j :: 0 <= i < |after| && 0 <= j < |after| && i != j && after[i].userID == userID && after[j].userID == userID ==>
      after[i].ordering != after[j].ordering
    ensures forall i, j ::
      (0 <= i < |after| && 0 <= j < |after| && after[i].userID == userID && after[j].userID == userID &&
       before[i].ordering < before[j].ordering) ==> after[i].ordering < after[j].ordering
  {
    forall i | 0 <= i < |after| ensures after[i].id == before[i].id && after[i].userID == before[i].userID {
      if k :| 0 <= k < |order| && order[k] == i { }
    }
    forall i | 0 <= i < |after| && after[i].userID == userID ensures exists k :: 0 <= k < |order| && order[k] == i {
      assert before[i].userID == userID;
    }
    forall i, j | 0 <= i < |after| && 0 <= j < |after| && after[i].userID == userID && after[j].userID == userID &&
      before[i].ordering < before[j].ordering
      ensures after[i].ordering < after[j].ordering
    {
      var k :| 0 <= k < |order| && order[k] == i;
      var l :| 0 <= l < |order| && order[l] == j;
      SortedListingKeepsOrder(before, userID, order, k, l);
    }
  }

  /** Move back the user's other items at or after `orderingID` (one multi-document increment). */
  method ShiftOrderings(a: array<Item>, userID: ObjectId, itemID: ObjectId, orderingID: int)
    modifies a
    ensures a[..] == Shifted(old(a[..]), userID, itemID, orderingID)
  {
    for i := 0 to a.Length
      invariant forall j :: 0 <= j < i ==> a[j] == ShiftedItem(old(a[j]), userID, itemID, orderingID)
      invariant forall j :: i <= j < a.Length ==> a[j] == old(a[j])
    {
      a[i] := ShiftedItem(a[i], userID, itemID, orderingID);
    }
  }

  /**
   * Give the listed items the orderings 1, 2, ... in listing order, writing only the items whose
   * ordering changes; `rewritten` lists the items written, in the order they are written.
   */
  method Renumber(a: array<Item>, order: seq<int>) returns (rewritten: seq<int>)
    requires DistinctPositions(order, a.Length)
    modifies a
    ensures RenumberedFrom(old(a[..]), a[..], order)
    ensures rewritten == StalePositions(old(a[..]), order)
  {
    rewritten := [];
    for k := 0 to |order|
      invariant forall m :: 0 <= m < k ==> a[order[m]] == old(a[order[m]]).(ordering := m + 1)
      invariant forall i :: 0 <= i < a.Length && i !in order[..k] ==> a[i] == old(a[i])
      invariant rewritten == StalePositions(old(a[..]), order[..k])
    {
      assert order[..k + 1][..k] == order[..k];
      assert order[..k + 1] == order[..k] + [order[k]];
      var index := order[k];
      assert index !in order[..k];
      if a[index].ordering != k + 1 {
        a[index] := a[index].(ordering := k + 1);
        rewritten := rewritten + [index];
      }
    }
    assert order[..|order|] == order;
  }

  /**
   * Make room at `orderingID` for the item `itemID` of user `userID`, then renumber all of the
   * user's items 1..n. `order` is the user's items as the sorted lookup after the shift returns them.
   */
  method AdjustOrderingIDsForCollection(a: array<Item>, userID: ObjectId, itemID: ObjectId, orderingID: int, order: seq<int>)
    returns (rewritten: seq<int>)
    requires ListsUserItemsSorted(Shifted(a[..], userID, itemID, orderingID), userID, order)
    modifies a
    ensures forall i :: 0 <= i < a.Length ==> a[i].id == old(a[i].id) && a[i].userID == old(a[i].userID)
    ensures forall i :: 0 <= i < a.Length && a[i].userID != userID ==> a[i] == old(a[i])
    ensures forall k :: 0 <= k < |order| ==> a[order[k]].ordering == k + 1
    ensures forall i :: 0 <= i < a.Length && a[i].userID == userID ==> 1 <= a[i].ordering <= |order|
    ensures forall i, j :: 0 <= i < a.Length && 0 <= j < a.Length && i != j && a[i].userID == userID && a[j].userID == userID ==>
      a[i].ordering != a[j].ordering
    ensures forall i, j ::
      (0 <= i < a.Length && 0 <= j < a.Length && a[i].userID == userID && a[j].userID == userID &&
       ShiftedItem(old(a[i]), userID, itemID, orderingID).ordering < ShiftedItem(old(a[j]), userID, itemID, orderingID).ordering) ==>
      a[i].ordering < a[j].ordering
    ensures rewritten == StalePositions(Shifted(old(a[..]), userID, itemID, orderingID), order)
  {
    ghost var before := a[..];
    ShiftOrderings(a, userID, itemID, orderingID);
    ghost var shifted := a[..];
    rewritten := Renumber(a, order);
    RenumberedListing(shifted, a[..], userID, order);
  }

  /** Renumbering a listing whose items already carry orderings 1..n changes no item. */
  lemma RenumberingNumberedChangesNothing(before: seq<Item>, after: seq<Item>, order: seq<int>)
    requires DistinctPositions(order, |before|)
    requires forall k :: 0 <= k < |order| ==> before[order[k]].ordering == k + 1
    requires RenumberedFrom(before, after, order)
    ensures after == before
    ensures StalePositions(before, order) == []
  {
    forall i | 0 <= i < |before| ensures after[i] == before[i] {
      if k :| 0 <= k < |order| && order[k] == i {
        assert after[order[k]] == before[order[k]].(ordering := k + 1);
      }
    }
    NothingStaleWhenNumbered(before, order);
  }

  // ---------------------------------------------------------------------------------------------
  // Calendar scopes

  const CalendarScope := "https://www.googleapis.com/auth/calendar"
  const CalendarEventsScope := "https://www.googleapis.com/auth/calendar.events"

  /** The account may see and edit every calendar: the full calendar scope itself was granted. */
  function HasUserGrantedMultiCalendarScope(scopes: seq<string>): (r: bool)
    ensures r <==> exists i :: 0 <= i < |scopes| && scopes[i] == CalendarScope
  {
    CalendarScope in scopes
  }

  /** The account may edit events of its primary calendar. */
  function HasUserGrantedPrimaryCalendarScope(scopes: seq<string>): (r: bool)
    ensures r <==> exists i :: 0 <= i < |scopes| && scopes[i] == CalendarEventsScope
  {
    CalendarEventsScope in scopes
  }

  /** The scopes are matched exactly: the events scope alone does not grant the full calendar scope. */
  lemma EventsScopeIsNotMultiCalendar(scopes: seq<string>)
    requires forall i :: 0 <= i < |scopes| ==> scopes[i] == CalendarEventsScope
    ensures !HasUserGrantedMultiCalendarScope(scopes)
    ensures scopes != [] ==> HasUserGrantedPrimaryCalendarScope(scopes)
  {
    assert CalendarScope != CalendarEventsScope by {
      assert |CalendarScope| != |CalendarEventsScope|;
    }
    if scopes != [] {
      assert scopes[0] == CalendarEventsScope;
    }
  }
}
