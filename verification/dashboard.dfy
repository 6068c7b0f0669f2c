/** The employee dashboard: the "this week's report" card, found by a
    first-match search on the current ISO week and calendar year, and the
    "recent reports" list. */
module Dashboard {
  import opened Wrappers
  import opened Json
  import opened IsoWeek
  import opened Sorting
  import opened Reports
  import Users
  import opened ReportForm

  /** `report.week === week.toString() && report.year === year`: strict
      comparisons, so the value's type must match as well. */
  predicate IsCurrentWeekReport(v: ReportView, now: LocalTime) {
    v.week == JsonStr(IntToDecimal(GetWeekNumber(now))) && v.year == Atom(Int(now.date.year))
  }

  /** `Array.prototype.find`: the first element, in order, that passes
      `test`; `None` (JavaScript's `undefined`) when none does. */
  function Find<T>(xs: seq<T>, test: T -> bool): (found: Option<T>)
    ensures found.None? <==> forall i :: 0 <= i < |xs| ==> !test(xs[i])
    ensures found.Some? ==>
      exists i :: (0 <= i < |xs| && xs[i] == found.value && test(xs[i])
        && forall j :: 0 <= j < i ==> !test(xs[j]))
  {
    if xs == [] then None
    else if test(xs[0]) then Some(xs[0])
    else
      var rest := Find(xs[1..], test);
      assert forall i :: 0 < i < |xs| ==> xs[i] == xs[1..][i - 1];
      rest
  }

  /** `getCurrentWeekReport`: the first report, in list order, for the
      current week; `None` when there is none. */
  function GetCurrentWeekReport(reports: seq<ReportView>, now: LocalTime): (found: Option<ReportView>)
    ensures found.None? <==> forall i :: 0 <= i < |reports| ==> !IsCurrentWeekReport(reports[i], now)
    ensures found.Some? ==>
      exists i :: (0 <= i < |reports| && reports[i] == found.value && IsCurrentWeekReport(reports[i], now)
        && forall j :: 0 <= j < i ==> !IsCurrentWeekReport(reports[j], now))
  {
    Find(reports, v => IsCurrentWeekReport(v, now))
  }

  /** What the "This Week's Report" panel shows. */
  datatype ThisWeek =
    | NotStarted                      // the prompt to create a report
    | InProgress(report: ReportView)  // a draft: "Continue Editing"
    | Done(report: ReportView)        // any other status: "View Report"

  function ThisWeekPanel(reports: seq<ReportView>, now: LocalTime): (panel: ThisWeek)
    ensures panel.NotStarted? <==> forall i :: 0 <= i < |reports| ==> !IsCurrentWeekReport(reports[i], now)
    ensures !panel.NotStarted? ==>
      panel.report in reports && IsCurrentWeekReport(panel.report, now)
      && (panel.InProgress? <==> panel.report.status == Draft)
  {
    match GetCurrentWeekReport(reports, now)
    case None => NotStarted
    case Some(r) => if r.status == Draft then InProgress(r) else Done(r)
  }

  /** A report whose year is stored as text never counts as the current
      week's report. */
  lemma TextYearNeverCurrent(v: ReportView, now: LocalTime)
    requires v.year.Atom? && v.year.a.Str?
    ensures !IsCurrentWeekReport(v, now)
  {
  }

  /** The form's default period is exactly what the dashboard looks for. */
  lemma DefaultPeriodIsCurrent(v: ReportView, now: LocalTime)
    requires (v.week, v.year) == DefaultPeriod(now)
    ensures IsCurrentWeekReport(v, now)
  {
  }

  /** A report whose week and year were sent as multipart form fields holds
      its year as text, so the dashboard never finds it; the same form sent
      as JSON keeps the default period's number and is found. */
  lemma TransportDecidesCurrent(form: Form, asDraft: bool, v: ReportView, now: LocalTime)
    requires (form.data.week, form.data.year) == DefaultPeriod(now)
    requires v.week == ServerGet(SubmitRequest(form, asDraft).body, "week")
    requires v.year == ServerGet(SubmitRequest(form, asDraft).body, "year")
    ensures IsCurrentWeekReport(v, now) <==> !UsesMultipart(form, asDraft)
  {
    if UsesMultipart(form, asDraft) {
      MultipartYearIsText(form, asDraft);
    } else {
      JsonKeepsFields(form, asDraft);
    }
  }

  /** "Recent Reports": `userReports.slice(0, 3)`. */
  function Recent(reports: seq<ReportView>): (shown: seq<ReportView>)
    ensures |shown| == if |reports| < 3 then |reports| else 3
    ensures shown == reports[..|shown|]
  {
    if |reports| < 3 then reports else reports[..3]
  }

  /** The dashboard's list comes from `find_by_user`, newest first, so the
      recent reports are the user's newest: none left out is newer than one
      shown. */
  lemma RecentAreNewest(docs: map<nat, Report>, n: nat, uid: nat, users: seq<Users.User>)
    ensures var all := Views(Listing(docs, n, Some(uid)), users);
      var shown := Recent(all);
      forall i, j :: 0 <= i < |shown| <= j < |all| ==> shown[i].createdAt >= all[j].createdAt
  {
    var es := Listing(docs, n, Some(uid));
    var all := Views(es, users);
    ListingSpec(docs, n, Some(uid));
    forall i, j | 0 <= i < j < |all| ensures all[i].createdAt >= all[j].createdAt {
      assert Newer(es[i], es[j]);
      assert Some(all[i]) == ToDict(Some(es[i]), users) && Some(all[j]) == ToDict(Some(es[j]), users);
    }
  }
}
