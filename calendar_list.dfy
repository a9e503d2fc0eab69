/** Listing a user's calendar accounts with their calendars and granted scopes. */
module CalendarList {
  import opened Common
  import Helpers

  /** constants.AccessControlOwner, the Google Calendar owner access role. */
  const AccessControlOwner := "owner"
  const AccessRoleWriter := "writer"

  /** A calendar as stored on a calendar account. */
  datatype Calendar = Calendar(calendarID: string, colorID: string, title: string, accessRole: string,
                               colorBackground: string, colorForeground: string)

  datatype CalendarAccount = CalendarAccount(idExternal: string, calendars: seq<Calendar>, scopes: seq<string>)

  datatype CalendarResult = CalendarResult(calendarID: string, colorID: string, title: string, canWrite: bool,
                                           accessRole: string, colorBackground: string, colorForeground: string)

  datatype CalendarAccountResult = CalendarAccountResult(accountID: string, calendars: seq<CalendarResult>,
                                                         hasMulticalScope: bool, hasPrimaryCalendarScope: bool)

  /** The result describes the calendar: every field copied, and write access for owners and writers. */
  predicate Mirrors(r: CalendarResult, c: Calendar)
  {
    r.calendarID == c.calendarID && r.colorID == c.colorID && r.title == c.title &&
    r.accessRole == c.accessRole && r.colorBackground == c.colorBackground &&
    r.colorForeground == c.colorForeground &&
    (r.canWrite <==> c.accessRole == AccessControlOwner || c.accessRole == AccessRoleWriter)
  }

  /** The account result describes the account, calendar by calendar and in order. */
  predicate DescribesAccount(r: CalendarAccountResult, a: CalendarAccount)
  {
    r.accountID == a.idExternal &&
    |r.calendars| == |a.calendars| &&
    (forall j :: 0 <= j < |a.calendars| ==> Mirrors(r.calendars[j], a.calendars[j])) &&
    r.hasMulticalScope == Helpers.HasUserGrantedMultiCalendarScope(a.scopes) &&
    r.hasPrimaryCalendarScope == Helpers.HasUserGrantedPrimaryCalendarScope(a.scopes)
  }

  /** The calendars of one account, in order. */
  method CalendarResults(calendars: seq<Calendar>) returns (results: seq<CalendarResult>)
    ensures |results| == |calendars|
    ensures forall j :: 0 <= j < |calendars| ==> Mirrors(results[j], calendars[j])
  {
    results := [];
    for j := 0 to |calendars|
      invariant |results| == j
      invariant forall k :: 0 <= k < j ==> Mirrors(results[k], calendars[k])
    {
      var calendar := calendars[j];
      var canWrite := calendar.accessRole in [AccessControlOwner, AccessRoleWriter];
      results := results + [CalendarResult(calendar.calendarID, calendar.colorID, calendar.title, canWrite,
                                           calendar.accessRole, calendar.colorBackground, calendar.colorForeground)];
    }
  }

  /**
   * CalendarsList. `userFound` is the outcome of the user lookup and `accounts` that of the
   * calendar account lookup; either failing answers 500, shown here as Failure.
   */
  method CalendarsList(userFound: bool, accounts: Result<seq<CalendarAccount>, string>)
    returns (r: Result<seq<CalendarAccountResult>, string>)
    ensures r.Failure? <==> !userFound || accounts.Failure?
    ensures r.Success? ==> |r.value| == |accounts.value|
    ensures r.Success? ==> forall i :: 0 <= i < |accounts.value| ==> DescribesAccount(r.value[i], accounts.value[i])
  {
    if !userFound {
      return Failure("failed to find user");
    }
    if accounts.Failure? {
      return Failure(accounts.error);
    }
    var results: seq<CalendarAccountResult> := [];
    for i := 0 to |accounts.value|
      invariant |results| == i
      invariant forall k :: 0 <= k < i ==> DescribesAccount(results[k], accounts.value[k])
    {
      var account := accounts.value[i];
      var calendars := CalendarResults(account.calendars);
      var result := CalendarAccountResult(account.idExternal, calendars,
                                          Helpers.HasUserGrantedMultiCalendarScope(account.scopes),
                                          Helpers.HasUserGrantedPrimaryCalendarScope(account.scopes));
      results := results + [result];
    }
    return Success(results);
  }

  /** An account holding only the events scope is reported with primary access and without multi-calendar access. */
  lemma {:induction false} EventsScopeOnlyAccount(account: CalendarAccount, r: CalendarAccountResult)
    requires DescribesAccount(r, account)
    requires account.scopes == [Helpers.CalendarEventsScope]
    ensures r.hasPrimaryCalendarScope && !r.hasMulticalScope
  {
    Helpers.EventsScopeIsNotMultiCalendar(account.scopes);
  }
}
