/** The report form in the browser: the default period it proposes, how it
    reads the comma-separated tags field, and the request it sends on
    "submit" and on "save as draft" (the status, the JSON or multipart
    transport, and what the server reads from each). */
module ReportForm {
  import opened Wrappers
  import opened Json
  import opened Text
  import opened IsoWeek
  import Reports

  /** `parseTags`: nothing for an empty field; otherwise the comma-separated
      pieces, trimmed, empties dropped, order kept. */
  function ParseTags(tagsStr: string): (tags: seq<string>)
    ensures tagsStr == "" ==> tags == []
    ensures forall k :: 0 <= k < |tags| ==> IsTrimmedWord(tags[k], JsWhitespace) && ',' !in tags[k]
  {
    CommaWordsAreWords(tagsStr, JsWhitespace);
    if tagsStr == "" then [] else CommaWords(tagsStr, JsWhitespace)
  }

  /** The tags field of the edit form: `(res.data.tags || []).join(', ')`. */
  function TagsText(tags: seq<Scalar>): string {
    Join(seq(|tags|, i requires 0 <= i < |tags| => ElementString(tags[i])), ", ")
  }

  /** Tags loaded into the edit form and submitted again come back unchanged
      when each is a trimmed word without commas. */
  lemma TagsTextRoundTrip(tags: seq<string>)
    requires forall k :: 0 <= k < |tags| ==> IsTrimmedWord(tags[k], JsWhitespace) && ',' !in tags[k]
    ensures ParseTags(TagsText(seq(|tags|, i requires 0 <= i < |tags| => Str(tags[i])))) == tags
  {
    var scalars := seq(|tags|, i requires 0 <= i < |tags| => Str(tags[i]));
    assert seq(|scalars|, i requires 0 <= i < |scalars| => ElementString(scalars[i])) == tags;
    assert JsWhitespace(' ');
    CommaWordsOfJoin(tags, JsWhitespace);
    if tags != [] {
      assert Join(tags, ", ") != "" by {
        if |tags| > 1 {
          assert Join(tags, ", ") == tags[0] + ", " + Join(tags[1..], ", ");
        }
      }
    }
  }

  /** The week and year the form starts with: `getWeekNumber(now).toString()`
      and `now.getFullYear()`. */
  function DefaultPeriod(now: LocalTime): (period: (Value, Value))
    ensures period.0.Atom? && period.0.a.Str?
    ensures period.1 == Atom(Int(now.date.year))
  {
    (JsonStr(IntToDecimal(GetWeekNumber(now))), Atom(Int(now.date.year)))
  }

  /** The default period pairs the week with the calendar year, not with the
      year the week belongs to: on 2024-12-31 it is week "1" of 2024. */
  lemma DefaultPeriodAtYearEnd()
    ensures DefaultPeriod(LocalTime(Date(2024, 12, 31), 0)) == (JsonStr("1"), Atom(Int(2024)))
  {
    var now := LocalTime(Date(2024, 12, 31), 0);
    var week := GetWeekNumber(now);
    assert week == 1 by {
      BoundaryWeeks();
    }
    assert IntToDecimal(week) == "1";
  }

  /** The form fields, in the order the form object lists them. */
  datatype FormData = FormData(
    week: Value,
    year: Value,
    month: Value,
    achievements: Value,
    challenges: Value,
    nextWeekPlan: Value,
    status: Value)

  /** A file picked in the attachments input. */
  datatype PickedFile = PickedFile(name: string, mime: string, size: nat)

  /** The form's state when a submit button is pressed. */
  datatype Form = Form(
    data: FormData,
    tagsText: string,
    attachments: seq<PickedFile>,
    isEdit: bool,
    id: string)

  datatype Body =
    | JsonBody(json: map<string, Value>)
    | Multipart(fields: seq<(string, string)>, files: seq<PickedFile>)

  datatype Request = Request(verb: string, url: string, body: Body)

  /** `Object.entries({...formData, status})` appended to a `FormData`: each
      value as `String(v)`. */
  function FormEntries(d: FormData, status: string): (entries: seq<(string, string)>)
    ensures |entries| == 7 && entries[6] == ("status", status)
  {
    [("week", JsString(d.week)), ("year", JsString(d.year)), ("month", JsString(d.month)),
     ("achievements", JsString(d.achievements)), ("challenges", JsString(d.challenges)),
     ("nextWeekPlan", JsString(d.nextWeekPlan)), ("status", status)]
  }

  /** `{...formData, status, tags: parseTags(tags)}`. */
  function JsonFields(d: FormData, status: string, tagsText: string): map<string, Value> {
    map["week" := d.week, "year" := d.year, "month" := d.month,
        "achievements" := d.achievements, "challenges" := d.challenges,
        "nextWeekPlan" := d.nextWeekPlan, "status" := JsonStr(status),
        "tags" := Array(seq(|ParseTags(tagsText)|, i requires 0 <= i < |ParseTags(tagsText)| => Str(ParseTags(tagsText)[i])))]
  }

  /** Whether a submit goes out as multipart: an edit-submit when there are
      attachments or tags, every other submit only when there are attachments. */
  predicate UsesMultipart(form: Form, asDraft: bool) {
    if form.isEdit && !asDraft then |form.attachments| > 0 || form.tagsText != ""
    else |form.attachments| > 0
  }

  /** The error and success messages a finished submit shows: the button's
      own success message, or the server's `msg` with the button's own
      fallback when the reply has none. */
  function SubmitOutcome(asDraft: bool, reply: Option<string>): (shown: (string, string))
    ensures shown.0 == "" <==> reply.None?
    ensures shown.1 == "" <==> reply.Some?
    ensures reply.Some? && reply.value != "" ==> shown.0 == reply.value
  {
    match reply
    case None => ("", if asDraft then "Report saved as draft!" else "Report submitted successfully!")
    case Some(msg) =>
      (if msg != "" then msg else if asDraft then "Failed to save report" else "Failed to submit report", "")
  }

  /** The request `onSubmit` (`asDraft == false`) and `onSubmitAsDraft`
      (`asDraft == true`) send. */
  function SubmitRequest(form: Form, asDraft: bool): (req: Request)
    ensures req.body.Multipart? <==> UsesMultipart(form, asDraft)
    ensures req.verb == (if form.isEdit then "PUT" else "POST")
  {
    var status := if asDraft then "draft" else "submitted";
    var verb := if form.isEdit then "PUT" else "POST";
    var url := if form.isEdit then "/api/reports/" + form.id else "/api/reports/";
    if UsesMultipart(form, asDraft) then
      var tagEntry := if form.tagsText != "" then [("tags", form.tagsText)] else [];
      Request(verb, url, Multipart(FormEntries(form.data, status) + tagEntry, form.attachments))
    else
      Request(verb, url, JsonBody(JsonFields(form.data, status, form.tagsText)))
  }

  /** The first value of `key` among the multipart fields. */
  function FirstField(fields: seq<(string, string)>, key: string): Option<string> {
    if fields == [] then None
    else if fields[0].0 == key then Some(fields[0].1)
    else FirstField(fields[1..], key)
  }

  /** The first field named `key` gives the value. */
  lemma {:induction false} FirstFieldAt(fields: seq<(string, string)>, key: string, j: nat)
    requires j < |fields| && fields[j].0 == key
    requires forall i :: 0 <= i < j ==> fields[i].0 != key
    ensures FirstField(fields, key) == Some(fields[j].1)
  {
    if j > 0 {
      FirstFieldAt(fields[1..], key, j - 1);
    }
  }

  /** What the server's `data.get(key)` reads from a request body: the JSON
      value, or for multipart the first field's text. */
  function ServerGet(body: Body, key: string): (v: Value)
    ensures body.Multipart? ==> v == NULL || (v.Atom? && v.a.Str?)
  {
    match body
    case JsonBody(fields) => Get(fields, key)
    case Multipart(fields, _) =>
      match FirstField(fields, key)
      case None => NULL
      case Some(s) => JsonStr(s)
  }

  /** The form component: its fields, the messages it shows, and the requests
      it has sent so far. */
  class FormComponent {
    var data: FormData
    var tagsText: string
    var attachments: seq<PickedFile>
    var isEdit: bool
    var id: string
    var error: string
    var success: string
    var loading: bool
    var sent: seq<Request>

    /** What a submit button sees. */
    function Snapshot(): Form
      reads this`data, this`tagsText, this`attachments, this`isEdit, this`id
    {
      Form(data, tagsText, attachments, isEdit, id)
    }

    /** Mounting the form for route parameter `routeId` ("" for a new
        report), including the effect that fills in the current period. */
    constructor (now: LocalTime, routeId: string)
      ensures data == FormData(DefaultPeriod(now).0, DefaultPeriod(now).1, Atom(Int(now.date.month)),
        JsonStr(""), JsonStr(""), JsonStr(""), JsonStr("draft"))
      ensures tagsText == "" && attachments == [] && isEdit == (routeId != "") && id == routeId
      ensures error == "" && success == "" && !loading && sent == []
    {
      var period := DefaultPeriod(now);
      data := FormData(period.0, period.1, Atom(Int(now.date.month)),
        JsonStr(""), JsonStr(""), JsonStr(""), JsonStr("draft"));
      tagsText := "";
      attachments := [];
      isEdit := routeId != "";
      id := routeId;
      error := "";
      success := "";
      loading := false;
      sent := [];
    }

    /** The edit form's fetch of the report: on success the stored fields,
        a month falsy for JavaScript replaced by the current one, and the tags joined with
        ", "; on failure an error message. */
    method LoadReport(reply: Option<Reports.ReportView>, now: LocalTime)
      modifies this
      ensures reply.Some? ==> var v := reply.value;
        && data == FormData(v.week, v.year, if JsTruthy(v.month) then v.month else Atom(Int(now.date.month)),
             v.achievements, v.challenges, v.nextWeekPlan, v.status)
        && tagsText == TagsText(v.tags) && error == old(error)
      ensures reply.None? ==> data == old(data) && tagsText == old(tagsText) && error == "Failed to fetch report data"
      ensures attachments == old(attachments) && isEdit == old(isEdit) && id == old(id)
      ensures success == old(success) && loading == old(loading) && sent == old(sent)
    {
      if reply.Some? {
        var v := reply.value;
        var month := if JsTruthy(v.month) then v.month else Atom(Int(now.date.month));
        data := FormData(v.week, v.year, month, v.achievements, v.challenges, v.nextWeekPlan, v.status);
        tagsText := TagsText(v.tags);
      } else {
        error := "Failed to fetch report data";
      }
    }

    /** `onSubmit` (`asDraft == false`) or `onSubmitAsDraft` (`asDraft ==
        true`) run to completion: messages cleared, the request sent, then
        the outcome shown. `reply` is `None` when the server accepted the
        request and otherwise the `msg` of its error reply ("" when absent). */
    method Submit(asDraft: bool, reply: Option<string>)
      modifies this
      ensures sent == old(sent) + [SubmitRequest(old(Snapshot()), asDraft)]
      ensures Snapshot() == old(Snapshot()) && !loading
      ensures (error, success) == SubmitOutcome(asDraft, reply)
    {
      error, success, loading := "", "", true;
      sent := sent + [SubmitRequest(Snapshot(), asDraft)];
      error, success := SubmitOutcome(asDraft, reply).0, SubmitOutcome(asDraft, reply).1;
      loading := false;
    }
  }

  /** "Submit" always sends `submitted` and "save as draft" always sends
      `draft`, whatever the form's status was, over either transport. */
  lemma SubmitSendsChosenStatus(form: Form, asDraft: bool)
    ensures ServerGet(SubmitRequest(form, asDraft).body, "status")
      == JsonStr(if asDraft then "draft" else "submitted")
  {
    var status := if asDraft then "draft" else "submitted";
    if UsesMultipart(form, asDraft) {
      var entries := FormEntries(form.data, status);
      var tagEntry := if form.tagsText != "" then [("tags", form.tagsText)] else [];
      var fields := entries + tagEntry;
      FirstFieldAt(fields, "status", 6);
    }
  }

  /** A multipart submit sends the year as text. */
  lemma MultipartYearIsText(form: Form, asDraft: bool)
    requires UsesMultipart(form, asDraft)
    ensures var y := ServerGet(SubmitRequest(form, asDraft).body, "year");
      y.Atom? && y.a.Str? && y.a.s == JsString(form.data.year)
  {
    var status := if asDraft then "draft" else "submitted";
    var tagEntry := if form.tagsText != "" then [("tags", form.tagsText)] else [];
    var fields := FormEntries(form.data, status) + tagEntry;
    FirstFieldAt(fields, "year", 1);
  }

  /** A JSON submit sends the week and year with their types, and the tags
      already split. */
  lemma JsonKeepsFields(form: Form, asDraft: bool)
    requires !UsesMultipart(form, asDraft)
    ensures var body := SubmitRequest(form, asDraft).body;
      && ServerGet(body, "week") == form.data.week
      && ServerGet(body, "year") == form.data.year
      && ServerGet(body, "tags") == Array(seq(|ParseTags(form.tagsText)|,
           i requires 0 <= i < |ParseTags(form.tagsText)| => Str(ParseTags(form.tagsText)[i])))
  {
  }

  /** Over JSON the server parses exactly the tags the browser parsed; over
      multipart it parses the raw text itself with Python's white space. The
      two agree whenever the text has no character on which JavaScript's
      `trim` and Python's `strip` differ. */
  lemma TagParsersAgree(s: string)
    requires forall c :: c in s ==> PyWhitespace(c) == JsWhitespace(c)
    ensures ParseTags(s) == (if s == "" then [] else CommaWords(s, PyWhitespace))
  {
    CommaWordsAgree(s, JsWhitespace, PyWhitespace);
  }

  const InfoSeparator: char := 0x1C as char

  /** A one-character word that is not white space trims to itself. */
  lemma TrimLetter(c: char, ws: char -> bool)
    requires !ws(c)
    ensures Trim([c], ws) == [c]
  {
    assert TrimStart([c], ws) == [c];
    assert TrimEnd([c], ws) == [c];
  }

  /** A white-space character alone trims to nothing. */
  lemma TrimBlank(c: char, ws: char -> bool)
    requires ws(c)
    ensures Trim([c], ws) == ""
  {
    assert [c][1..] == [];
    assert TrimStart([c], ws) == "";
  }

  lemma SplitOne(c: char)
    requires c != ','
    ensures Split([c], ',') == [[c]]
  {
    assert [c][1..] == [] && [c] + "" == [c];
  }

  /** A tag field holding one character `c`: the tag `c` unless `c` is blank. */
  lemma CommaWordsOne(c: char, ws: char -> bool)
    requires c != ','
    ensures CommaWords([c], ws) == if ws(c) then [] else [[c]]
  {
    SplitOne(c);
    if ws(c) {
      TrimBlank(c, ws);
    } else {
      TrimLetter(c, ws);
    }
    assert [[c]][1..] == [];
  }

  /** An information-separator character (U+001C) is white space to Python
      but not to JavaScript: sent as the whole tags field, the browser keeps it
      as a tag and the server drops it. */
  lemma TagParsersDisagree()
    ensures ParseTags([InfoSeparator]) == [[InfoSeparator]]
    ensures CommaWords([InfoSeparator], PyWhitespace) == []
  {
    assert !JsWhitespace(InfoSeparator) && PyWhitespace(InfoSeparator);
    CommaWordsOne(InfoSeparator, JsWhitespace);
    CommaWordsOne(InfoSeparator, PyWhitespace);
  }
}
