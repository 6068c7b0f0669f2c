# Weekly reports: a Dafny model

The system is a weekly-report application. Employees write one report per
ISO week: achievements, challenges, next week's plan, tags and
attachments. They save it as a `draft` or `submit` it. An administrator
then approves or rejects a `submitted` report and reads weekly statistics.
The backend is Flask over MongoDB and the frontend is React. This project
models the core of both sides and proves what each step promises.

- **Report store** (`reports.dfy`, class `Reports.ReportStore`). A map
  from id to report document, with these operations:
  - creation defaults;
  - `save`, which stamps `submitted_at` exactly for `submitted` reports;
  - `update`, a field-wise `$set` that re-stamps `submitted_at` whenever
    the status is set to `submitted`;
  - `delete`;
  - `to_dict`;
  - the newest-first listings `find_by_user` and `find_all`.
- **Report endpoints** (`report_routes.dfy`):
  - tag parsing on create and on update;
  - the 10 MiB upload guard and the upload loop;
  - the update whitelist, with new attachments appended after the old ones;
  - the owner-or-admin rule for get, update and delete;
  - approve and reject, both legal only from `submitted`; reject also
    needs a comment;
  - the statistics endpoint.
- **Weekly statistics** (`weekly_stats.dfy`, `grouping.dfy`,
  `bson_order.dfy`). The `$group` by `(year, week)` and its `$sort`, the
  formatted rows, and the overall counts.
- **Users and accounts** (`users.dfy`, `auth.dfy`). The user document with
  its hashed password and `employee` default role, lookup by email, and
  `to_dict` without the password. Three handlers:
  - `register`, with its duplicate-email check;
  - `login`, which answers "Invalid credentials" for an unknown email and
    for a wrong password alike;
  - `PATCH /me`, which collects fields one by one, checks that no other
    user holds the email, and changes the password only when one is given.
- **Week identity** (`iso_week.dfy`). The browser's `getWeekNumber` is
  modelled in integer day numbers. It is proved equal to the ISO 8601 week
  number (ISO 8601:2004, section 4.1.4), which is defined independently in
  the same file. The function is written out identically in `ReportForm.js`
  and `Dashboard.js`, so both use the one definition.
- **Report form** (`report_form.dfy`, class `ReportForm.FormComponent`).
  The default period, the `parseTags` helper, the edit form's fetch, and
  the request each submit button sends: its status, whether it goes as
  JSON or multipart, and what the server reads back from it.
- **Dashboard** (`dashboard.dfy`). The first-match search for this week's
  report, the "this week" panel and the three recent reports.
- **Timeline** (`report_calendar.dfy`). The `forEach` loop that groups
  reports by `${year}-W${week}`, and the string-sorted display of the
  groups.
- **Reset-password form** (`reset_password.dfy`). Its two guards, in
  order, and the messages it shows.

The rest is shared vocabulary:
- `json.dfy`: JSON values, Python truthiness and JavaScript `String(...)`;
- `text.dfy`: split, join and trim under Python's and JavaScript's white
  space;
- `orders.dfy` and `sorting.dfy`: orders and a stable insertion sort;
- `wrappers.dfy`: `Option`.

Each quantity that comes from outside is a parameter:
- clock readings (`now`);
- password salts;
- stored upload names (a random prefix and the sanitised file name);
- server replies seen by the frontend.

Ids are natural numbers handed out in increasing order, so insertion order
is id order.

One cross-component fact is proved rather than assumed. A submit that goes
out as multipart sends every field as text, so the year is stored as a
string. The dashboard compares the year with `===` against a number, so it
never finds such a report as this week's. A JSON submit of the default
period is found (`Dashboard.TransportDecidesCurrent`).

## Model

| member | source | states |
|---|---|---|
| Reports.NewReport | backend/app/models/report.py:6-22 | a new report keeps the given fields; it defaults to `draft`, empty attachments, tags and approvals, and no `submitted_at` |
| Reports.SetFields | backend/app/models/report.py:71-74 | `$set` never changes the author or the creation time; an empty patch changes nothing |
| Reports.SetFieldsIdempotent | backend/app/models/report.py:71-74 | applying the same `$set` twice gives the same document as applying it once |
| Reports.SetFieldsFrame | backend/app/models/report.py:71-74 | every field the patch does not name keeps its old value |
| Reports.Stamped | backend/app/models/report.py:68-69 | an update that sets status `submitted` gets `submitted_at = now`, overwriting any earlier stamp; any other update is left exactly as it was; only `submitted_at` is ever added |
| Reports.ToDict | backend/app/models/report.py:83-107 | `None` maps to `None`; otherwise every stored field is kept; missing attachments, tags and approvals become `[]`; the author summary is present exactly when the author exists, and then holds the author's id, name, email and department, with `username` null because users have none |
| Reports.OwnedBy | backend/app/models/report.py:53-57 | the selection holds exactly the entries of the given user |
| Reports.ListingSpec | backend/app/models/report.py:53-63 | `find_by_user` lists exactly that user's reports and `find_all` lists every report; each appears once, ordered by `created_at` descending |
| Reports.Views | backend/app/models/report.py:57 | one `to_dict` view per listed document, in listing order |
| Reports.ReportStore.FindById | backend/app/models/report.py:47-51 | a view exists exactly when the id is stored, and it is that document's `to_dict` |
| Reports.ReportStore.Save | backend/app/models/report.py:24-45 | inserts under a fresh id and leaves the other documents alone; `submitted_at` is set exactly when the status is `submitted` |
| Reports.ReportStore.Update | backend/app/models/report.py:65-75 | only the target document changes, and it becomes the stamped `$set` of the patch; a `submitted` status always carries `submitted_at = now`; the result is the re-read document |
| Reports.ReportStore.Delete | backend/app/models/report.py:77-81 | returns true exactly when the id existed; afterwards the id is absent and nothing else changed |
| ReportRoutes.CreateTags | backend/app/routes/reports.py:68-75 | a falsy or missing value gives no tags; a list is kept as it is |
| ReportRoutes.UpdateTags | backend/app/routes/reports.py:270-279 | a list is kept as it is; a value that is neither a string nor a list gives `[]` |
| ReportRoutes.CreateAndUpdateTagsAgree | backend/app/routes/reports.py:68-75 | creation and update turn a present `tags` value into the same tags |
| ReportRoutes.ParsedTagsAreWords | backend/app/routes/reports.py:73 | each tag parsed from a string is non-empty, comma-free and trimmed of Python white space |
| ReportRoutes.TagsRoundTrip | backend/app/routes/reports.py:73 | trimmed comma-free words joined with ", " parse back to the same words, in order |
| ReportRoutes.KeptMetas | backend/app/routes/reports.py:40-66 | at most one entry per file; each kept entry has a name and a URL under `/api/reports/uploads/` for its stored name |
| ReportRoutes.CollectUploads | backend/app/routes/reports.py:40-66 | refuses exactly when a named file is over 10 MiB, with the message for the first such file; otherwise returns the metadata of the named files in upload order |
| ReportRoutes.UpdateData | backend/app/routes/reports.py:255-279 | the whitelist never sets attachments, approvals or `submitted_at` |
| ReportRoutes.UpdateDataIgnoresOtherKeys | backend/app/routes/reports.py:255-279 | a body key outside the whitelist (`next_week_plan` included) does not change the update |
| ReportRoutes.UpdateDataEmpty | backend/app/routes/reports.py:255-279 | a body with no whitelisted key sets nothing |
| ReportRoutes.RequestPatch | backend/app/routes/reports.py:281-313 | without files the update leaves attachments alone; with files the new metadata follows the existing attachments, whose order is kept |
| ReportRoutes.CreateReport | backend/app/routes/reports.py:24-100 | an oversized file gives 400 and stores nothing; otherwise exactly one new document is stored with the caller as author, `draft` as default status, the parsed tags and uploads, and `submitted_at` exactly for `submitted`; the reply is 201 with its view |
| ReportRoutes.GetReport | backend/app/routes/reports.py:210-224 | 404 for an unknown id, 401 for a caller who is neither the owner nor an admin, otherwise 200 with the view |
| ReportRoutes.UpdateReport | backend/app/routes/reports.py:236-323 | 404, 401 and 400 (oversized file) leave the store unchanged; success happens exactly when none of them applies, and then only the target document becomes the stamped `$set` of the whitelisted fields and appended attachments |
| ReportRoutes.DeleteReport | backend/app/routes/reports.py:325-347 | 404 and 401 leave the store unchanged; an owner or admin removes exactly that document |
| ReportRoutes.Reviewed | backend/app/routes/reports.py:509-521 | the new status is set, and `approvals` grows by exactly the new entry, after the unchanged earlier entries; nothing else changes |
| ReportRoutes.ApproveReport | backend/app/routes/reports.py:493-543 | 403 for non-admins, then 404, then 400 unless the status is `submitted`, each leaving the store unchanged; success happens exactly from `submitted`: the status becomes `approved` with one `approved` entry appended |
| ReportRoutes.RejectReport | backend/app/routes/reports.py:546-595 | 403, then 404, then the status check, and only then the comment check (400 on a falsy comment), each leaving the store unchanged; success happens exactly from `submitted` with a comment: `rejected` with one `rejected` entry appended |
| ReportRoutes.ReportsStats | backend/app/routes/reports.py:398-461 | 403 for non-admins; otherwise the weekly rows and overall counts of all reports |
| WeeklyStats.CountSubmitted | backend/app/routes/reports.py:407-411 | the submitted count never exceeds the number of reports counted |
| WeeklyStats.RowsFor | backend/app/routes/reports.py:417-422 | one row per group key, in key order, with that group's size and its count of `submitted` reports |
| WeeklyStats.SortedKeysSpec | backend/app/routes/reports.py:405-414 | the group keys are exactly the reports' distinct `(year, week)` pairs, each once, in ascending order |
| WeeklyStats.WeeklyRowsCover | backend/app/routes/reports.py:405-422 | every report's `(year, week)` has a row |
| WeeklyStats.WeeklyRowsNonEmpty | backend/app/routes/reports.py:405-422 | every row belongs to some report and counts at least one |
| WeeklyStats.WeeklyRowsAscending | backend/app/routes/reports.py:405-422 | rows are strictly ascending by year then week, so no pair has two rows; in every row, submitted ≤ total |
| WeeklyStats.WeeklyRowsSum | backend/app/routes/reports.py:405-422 | the row totals add up to the number of reports |
| WeeklyStats.CountMatching | backend/app/routes/reports.py:452 | the query `{"status": "submitted"}` also matches an array status holding "submitted", so it counts at least the exact matches and at most every report; the two counts are equal exactly when no array status matches |
| WeeklyStats.OverallCounts | backend/app/routes/reports.py:450-457 | total is the number of reports; submitted is the query count, between the exact-match count and the total |
| WeeklyStats.ArrayStatusCountedOnlyOverall | backend/app/routes/reports.py:410-452 | a report whose status is `["submitted"]` counts as submitted overall but in no weekly row, so the two figures can disagree |
| WeeklyStats.WeeklyMatchesOverall | backend/app/routes/reports.py:405-457 | the weekly totals add up to the overall total |
| BsonOrder.PeriodLeqTotalOrder | backend/app/routes/reports.py:413 | the `(year, week)` sort order is a total order, so the sorted rows are well defined |
| Users.CheckPasswordHash | backend/app/models/user.py:38-41 | a password verifies exactly when rehashing it with the stored salt reproduces the stored hash |
| Users.NewUser | backend/app/models/user.py:6-13 | fields kept, role `employee` by default; the stored password is a hash that only the given password verifies against |
| Users.FindByEmail | backend/app/models/user.py:28-31 | returns the first user with that email, or `None` exactly when no user has it |
| Users.FindById | backend/app/models/user.py:33-36 | a user exactly for a stored id, and that user |
| Users.ToDict | backend/app/models/user.py:43-50 | `None` maps to `None` and a document maps to a view |
| Users.ToDictDropsOnlyPassword | backend/app/models/user.py:46-49 | two documents have the same view exactly when they differ at most in the password: the password is removed and every other key kept |
| Users.UserStore.Save | backend/app/models/user.py:15-26 | appends the user and returns its new id |
| Users.UserStore.Replace | backend/app/routes/auth.py:104-105 | only the given user's document changes |
| Auth.FirstMissing | backend/app/routes/auth.py:17-28 | `None` exactly when every key read is present; otherwise a key that is read but missing |
| Auth.Register | backend/app/routes/auth.py:12-46 | a held email gives 400 and adds no user; a missing key gives 500 and adds no user; success happens exactly otherwise, adds exactly one user and returns its role `employee`; emails stay unique |
| Auth.Login | backend/app/routes/auth.py:48-76 | success happens exactly when the first user with the email verifies the password, and it returns that user |
| Auth.LoginFailuresIndistinguishable | backend/app/routes/auth.py:54-60 | an unknown email and a wrong password get the same 400 "Invalid credentials" |
| Auth.LoginAfterRegister | backend/app/routes/auth.py:12-76 | whoever registered can log in with the same email and password, and gets the new account |
| Auth.ApplyPatch | backend/app/routes/auth.py:104-105 | the role and the creation time never change; an empty update changes nothing |
| Auth.UpdateCurrentUser | backend/app/routes/auth.py:84-111 | 400 with no change exactly when another user holds the new email (one's own email is allowed); otherwise only name, email, department and a non-empty password are taken; no recognised key means no write; other users are untouched; emails stay unique |
| IsoWeek.YearOf | frontend/src/components/reports/ReportForm.js:64 | the year read from the shifted date is the unique year that contains it, at most one year away |
| IsoWeek.GetWeekNumberIsIsoWeek | frontend/src/components/reports/ReportForm.js:60-66 | `getWeekNumber` is the ISO 8601 week number, week 1 being the week with the year's first Thursday |
| IsoWeek.WeekNumberRange | frontend/src/components/reports/ReportForm.js:60-66 | the result lies in 1..53 |
| IsoWeek.SameWeekFromMonday | frontend/src/components/reports/ReportForm.js:62-63 | all seven days from a Monday to the following Sunday give the same number |
| IsoWeek.BoundaryWeeks | frontend/src/components/reports/ReportForm.js:60-66 | 2021-01-01 gives 53, 2021-01-04 gives 1, and 2024-12-31 gives 1 |
| IsoWeek.TwoDigitYearWeek | frontend/src/components/reports/ReportForm.js:61-64 | `Date.UTC` maps years 0..99 to 1900..1999, which makes 0100-01-01 give a negative week |
| ReportForm.ParseTags | frontend/src/components/reports/ReportForm.js:70-73 | an empty field gives `[]`; every tag is non-empty, comma-free and trimmed of JavaScript white space |
| ReportForm.TagsTextRoundTrip | frontend/src/components/reports/ReportForm.js:51 | tags loaded into the edit form and parsed again come back unchanged |
| ReportForm.DefaultPeriod | frontend/src/components/reports/ReportForm.js:28-32 | the default week is a string and the default year is the calendar year as a number |
| ReportForm.DefaultPeriodAtYearEnd | frontend/src/components/reports/ReportForm.js:30-32 | on 2024-12-31 the default is week "1" of 2024, not of 2025 |
| ReportForm.FormEntries | frontend/src/components/reports/ReportForm.js:88 | the multipart body lists seven form fields, ending with the chosen status |
| ReportForm.SubmitRequest | frontend/src/components/reports/ReportForm.js:77-159 | multipart exactly when attachments are picked, or when an edit-submit has tags; PUT when editing, POST otherwise |
| ReportForm.ServerGet | backend/app/routes/reports.py:28-32 | from a multipart body the server can read only text or nothing |
| ReportForm.FormComponent.constructor | frontend/src/components/reports/ReportForm.js:8-36 | the form opens on the current week and year, the current month, empty texts and `draft`; it is an edit form exactly when there is a route id |
| ReportForm.FormComponent.LoadReport | frontend/src/components/reports/ReportForm.js:35-56 | a fetched report fills the form; a month that is falsy under JavaScript's `||` (never an array, even an empty one) falls back to the current month; tags are joined with ", "; a failed fetch only sets the error |
| Json.TruthinessDiffers | frontend/src/components/reports/ReportForm.js:43 | JavaScript's `||` and Python's truth test disagree on exactly one JSON value, the empty array |
| ReportForm.FormComponent.Submit | frontend/src/components/reports/ReportForm.js:77-159 | exactly one request is sent, built from the form as it was; the form's fields are unchanged; the spinner is off afterwards; the messages shown are the outcome `SubmitOutcome` gives for the button and the reply |
| ReportForm.SubmitOutcome | frontend/src/components/reports/ReportForm.js:96-155 | a finished submit shows exactly one message: a success message when the server accepted the request, otherwise an error, which is the server's `msg` whenever that is non-empty |
| ReportForm.SubmitSendsChosenStatus | frontend/src/components/reports/ReportForm.js:77-159 | "Submit" always sends `submitted` and "save as draft" always sends `draft`, whatever the form's status and transport |
| ReportForm.MultipartYearIsText | frontend/src/components/reports/ReportForm.js:86-91 | a multipart submit delivers the year as its text |
| ReportForm.JsonKeepsFields | frontend/src/components/reports/ReportForm.js:92-95 | a JSON submit delivers week and year with their types, and the tags already split |
| ReportForm.TagParsersAgree | frontend/src/components/reports/ReportForm.js:70-73 | the browser's `parseTags` and the server's split agree on text where both languages' white space agree |
| ReportForm.TagParsersDisagree | frontend/src/components/reports/ReportForm.js:72 | they do disagree on U+001C: JavaScript keeps it as a tag, while Python strips it away |
| Dashboard.Find | frontend/src/components/dashboard/Dashboard.js:33 | `Array.prototype.find`: the first element in order that passes the test; `None` exactly when none does |
| Dashboard.GetCurrentWeekReport | frontend/src/components/dashboard/Dashboard.js:28-36 | the first report in list order with the current week (as a string) and year (as a number); `None` exactly when there is none |
| Dashboard.ThisWeekPanel | frontend/src/components/dashboard/Dashboard.js:66-112 | the create prompt exactly when no report matches; otherwise that report, labelled "continue editing" exactly when it is a draft |
| Dashboard.TextYearNeverCurrent | frontend/src/components/dashboard/Dashboard.js:34 | a report whose year is a string never matches |
| Dashboard.DefaultPeriodIsCurrent | frontend/src/components/dashboard/Dashboard.js:28-44 | the form's default period, computed with the same week function, is exactly what the dashboard looks for |
| Dashboard.TransportDecidesCurrent | frontend/src/components/dashboard/Dashboard.js:33-35 | a report sent with the default period is found exactly when it went as JSON |
| Dashboard.Recent | frontend/src/components/dashboard/Dashboard.js:148 | the first min(3, n) reports, in fetch order |
| Dashboard.RecentAreNewest | backend/app/routes/reports.py:145-147 | since the list comes newest first, no report left out is newer than one shown |
| ReportCalendar.Grouped | frontend/src/components/reports/ReportCalendar.js:14-19 | there is a group exactly for each key some report has |
| ReportCalendar.GroupReports | frontend/src/components/reports/ReportCalendar.js:15-19 | the loop builds one bucket per key, holding that key's reports in fetch order; the keys come out in first-seen order |
| ReportCalendar.GroupStep | frontend/src/components/reports/ReportCalendar.js:15-19 | one pass of the `forEach` keeps the invariant: the keys are those first seen so far, and each bucket holds exactly that key's reports so far, in order |
| ReportCalendar.LoadTimeline | frontend/src/components/reports/ReportCalendar.js:12-20 | the loop's result is the grouping by `${year}-W${week}` |
| ReportCalendar.DisplayOrder | frontend/src/components/reports/ReportCalendar.js:38 | the display order only lists existing keys |
| ReportCalendar.Render | frontend/src/components/reports/ReportCalendar.js:35-38 | "No reports found." exactly when there are no keys; otherwise one section per key, in display order, holding its group |
| ReportCalendar.GroupsPartition | frontend/src/components/reports/ReportCalendar.js:15-19 | each report is in the group of its own key, no group holds another key's report, and no group is empty |
| ReportCalendar.GroupsKeepFetchOrder | frontend/src/components/reports/ReportCalendar.js:17-18 | later reports only extend a group at its end |
| ReportCalendar.GroupSizesSum | frontend/src/components/reports/ReportCalendar.js:15-19 | the group sizes add up to the number of reports |
| ReportCalendar.DisplayOrderSpec | frontend/src/components/reports/ReportCalendar.js:38 | the keys are shown each once, in ascending string order |
| ReportCalendar.TenBeforeTwo | frontend/src/components/reports/ReportCalendar.js:38 | `2024-W10` is shown before `2024-W2` |
| ReportCalendar.EmptyFetch | frontend/src/components/reports/ReportCalendar.js:35-36 | an empty fetch gives no groups and the "No reports found." branch |
| ResetPassword.Validate | frontend/src/components/auth/ResetPassword.js:23-24 | passes exactly when the password has at least 6 characters and equals the confirmation; a short one gives the length message, and otherwise a mismatch gives the mismatch message |
| ResetPassword.OnSubmit | frontend/src/components/auth/ResetPassword.js:19-35 | a request carrying the token and password is sent exactly when both guards pass; a failed guard shows its message and sends nothing; the outcome message follows the reply |
| ResetPassword.MessagesCleared | frontend/src/components/auth/ResetPassword.js:21-22 | the result does not depend on the messages shown before the submit |
| ResetPassword.LengthCheckedFirst | frontend/src/components/auth/ResetPassword.js:23-24 | a short password that also differs from its confirmation reports the length error |

## Left out

- File I/O: writing uploads to disk, `os.makedirs`, serving uploads, CSV export and PDF generation. Only the metadata an upload produces is modelled.
- JWT issuing and verification (`token_required`). The caller is a parameter, and `admin_required` is the test `role == "admin"`.
- Notifications (e-mail, Slack) and the audit log. Both are outside effects whose errors the handlers swallow.
- Floating point: the `completion_rate` of the statistics.
- The department statistics. They use a `$lookup` join, which belongs to MongoDB.
- The filters of `/myreports` and of the admin listing: status, week, year, user, and the case-insensitive `$regex` search. Only the unfiltered listings (`find_by_user`, `find_all`) are modelled.
- `team_aggregates`: it follows a `return` inside `reports_stats`, is never reached and is never registered.
- Invalid ids: `ObjectId(...)` raises on a malformed id and the handler answers 500. Ids here are natural numbers.
- Generic `except Exception` replies of 500. The only one modelled is the `KeyError` of a missing key in `register` and `login`.
- ReportRoutes.DeleteReport: the 500 "Failed to delete report" branch cannot happen without a concurrent writer, so it is not part of the contract.
- ReportRoutes.UpdateReport: the handler applies `to_dict` to an already converted document. That second pass leaves the view as it was, so the model converts once.
- Reports.ReportStore.Update: an update with nothing to set is modelled as no change. Older MongoDB servers reject an empty `$set`, which would give a 500.
- Reports.ToDict: a list field stored as an explicit `null` is not modelled. `Option` distinguishes only a missing key from a present list.
- Reports.ReportStore.Save: one `now` serves both `created_at` and `submitted_at`. The source reads the clock twice.
- Reports.ListingSpec: reports with equal `created_at` are listed in id order. MongoDB leaves ties unordered, and the model proves nothing that depends on ties.
- BsonOrder.PeriodLeqTotalOrder: arrays in the `(year, week)` sort are compared element by element. This approximates MongoDB's array comparison; scalars follow its type order.
- ReportCalendar.DisplayOrder: strings are compared by code point. JavaScript's `sort()` compares UTF-16 code units, which differs only outside the Basic Multilingual Plane.
- ResetPassword.Validate: the length counts code points, not UTF-16 code units.
- IsoWeek.WeekNumberRange: years -1 and 100 are excluded. There `Date.UTC` reads the Thursday's two-digit year as 19xx, and the result leaves 1..53 (IsoWeek.TwoDigitYearWeek).
- IsoWeek.GetWeekNumberIsIsoWeek: years -1 to 100 are excluded, for the same reason.
- IsoWeek.SameWeekFromMonday: years -1 to 100 are excluded, for the same reason. The range of a JavaScript `Date` (±10^8 days) is not modelled either.
- ReportRoutes.CreateReport: JSON numbers with a fraction part and JSON objects in the report body are not modelled. A JSON value here is null, a boolean, an integer, a string or an array of those.
- ReportRoutes.UpdateReport: the same restriction on the values of the report body.
- ReportRoutes.RejectReport: the same restriction on the review body. A `comment` of `{}` or `0.0`, which Python finds falsy and answers with 400, is outside the model.
- WeeklyStats, Dashboard and ReportCalendar: a `week` or `year` stored as a fractional number or an object, and how `$group`, `$sort`, JavaScript's `===` and the calendar's template key treat it, are not modelled, for the same reason.
- Auth.Register: request bodies hold string values only. Non-string JSON values and non-object bodies are not modelled.
- Auth.Login: request bodies hold string values only, as for registration.
- Auth.UpdateCurrentUser: request bodies hold string values only, as for registration.
- Users.CheckPasswordHash: the hash keeps the salt and secret side by side instead of computing a digest. Only the verify-by-rehash property is modelled, not one-wayness.
- The random parts of upload names (`uuid4`, `secure_filename`) and of password salts are parameters.
- Form UI state: `onChange`, attachment previews, the redirect timers after a submit, and the loading screens.
- The dashboard's PDF download.
- The login page sends `username` while the login handler reads `email`. The pages that are not part of the core are not part of this model.
