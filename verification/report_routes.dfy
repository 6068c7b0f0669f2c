/** The report endpoints: creation with uploads and tags, reading, updating
    through a field whitelist, deletion, the owner-or-admin rule, the review
    actions (approve, reject) that are legal only from `submitted`, and the
    weekly statistics. The caller comes from the access token; the token
    check itself is not part of the model. */
module ReportRoutes {
  import opened Wrappers
  import opened Json
  import opened Text
  import Users
  import opened Reports
  import opened WeeklyStats

  /** The authenticated caller (`current_user`). */
  datatype Caller = Caller(id: nat, role: string)

  /** `admin_required`: the caller's role is `admin`. */
  predicate IsAdmin(me: Caller) {
    me.role == "admin"
  }

  /** The owner-or-admin rule for reading, updating and deleting a report. */
  predicate MayAccess(me: Caller, r: Report) {
    r.userId == me.id || IsAdmin(me)
  }

  datatype Reply =
    | Msg(code: int, msg: string)
    | Doc(code: int, view: Option<ReportView>)
    | Stats(code: int, weekly: seq<WeekRow>, overall: Overall)

  // ---------------------------------------------------------------------
  // Tags

  /** Words as JSON strings. */
  function Strs(words: seq<string>): (xs: seq<Scalar>)
    ensures |xs| == |words|
    ensures forall k :: 0 <= k < |words| ==> xs[k] == Str(words[k])
  {
    if words == [] then [] else [Str(words[0])] + Strs(words[1..])
  }

  /** Tags on creation: a non-empty string gives its comma-separated words,
      trimmed, empties dropped; a non-empty list is kept as it is; anything
      else, a missing key included, gives no tags. */
  function CreateTags(data: map<string, Value>): (tags: seq<Scalar>)
    ensures !Truthy(Get(data, "tags")) ==> tags == []
    ensures Get(data, "tags").Array? ==> tags == Get(data, "tags").items
  {
    var raw := Get(data, "tags");
    if !Truthy(raw) then []
    else match raw
      case Atom(Str(s)) => Strs(CommaWords(s, PyWhitespace))
      case Array(xs) => xs
      case _ => []
  }

  /** Tags on update, when the body has the key: a string gives its
      comma-separated words, a list is kept, anything else gives `[]`. */
  function UpdateTags(raw: Value): (tags: seq<Scalar>)
    ensures raw.Array? ==> tags == raw.items
    ensures !raw.Array? && !(raw.Atom? && raw.a.Str?) ==> tags == []
  {
    match raw
    case Atom(Str(s)) => Strs(CommaWords(s, PyWhitespace))
    case Array(xs) => xs
    case _ => []
  }

  /** Creation and update read a present `tags` value alike: the truthiness
      test on creation only skips values that give no tags anyway. */
  lemma CreateAndUpdateTagsAgree(data: map<string, Value>)
    requires "tags" in data
    ensures CreateTags(data) == UpdateTags(data["tags"])
  {
    if data["tags"] == JsonStr("") {
      assert Split("", ',') == [""];
      assert Trim("", PyWhitespace) == "";
    }
  }

  /** Every tag parsed from a string is a non-empty word without commas and
      without white space at either end. */
  lemma ParsedTagsAreWords(s: string)
    ensures var tags := CreateTags(map["tags" := JsonStr(s)]);
      forall k :: 0 <= k < |tags| ==>
        tags[k].Str? && IsTrimmedWord(tags[k].s, PyWhitespace) && ',' !in tags[k].s
  {
    CommaWordsAreWords(s, PyWhitespace);
  }

  /** Tags shown joined with ", " parse back to the same tags. */
  lemma TagsRoundTrip(words: seq<string>)
    requires words != []
    requires forall k :: 0 <= k < |words| ==> IsTrimmedWord(words[k], PyWhitespace) && ',' !in words[k]
    ensures CreateTags(map["tags" := JsonStr(Join(words, ", "))]) == Strs(words)
  {
    var s := Join(words, ", ");
    var data := map["tags" := JsonStr(s)];
    assert PyWhitespace(' ');
    CommaWordsOfJoin(words, PyWhitespace);
    assert s != [] by {
      if |words| > 1 {
        assert s == words[0] + ", " + Join(words[1..], ", ");
      }
    }
    assert Get(data, "tags") == JsonStr(s);
    assert Truthy(JsonStr(s));
  }

  // ---------------------------------------------------------------------
  // Uploads

  /** 10 MiB. */
  const MaxBytes: nat := 10 * 1024 * 1024

  /** An uploaded file: its client-side name, MIME type and measured size
      (`None` when the stream could not be measured), and the name the server
      stores it under (a random prefix and the sanitised name, chosen outside
      the model). */
  datatype Upload = Upload(filename: string, mime: string, size: Option<nat>, storedName: string)

  /** `if not f or f.filename == ''`: a file without a name is skipped. */
  predicate Skipped(f: Upload) {
    f.filename == ""
  }

  /** `if size and size > MAX_BYTES`. */
  predicate TooLarge(f: Upload) {
    f.size.Some? && f.size.value != 0 && f.size.value > MaxBytes
  }

  function TooLargeMessage(name: string): string {
    "File " + name + " is too large (max 10MB)"
  }

  function MetaOf(f: Upload): Attachment {
    Attachment(f.storedName, f.filename, f.mime, f.size, "/api/reports/uploads/" + f.storedName)
  }

  /** The metadata of the files that are not skipped, in upload order. */
  function KeptMetas(files: seq<Upload>): (metas: seq<Attachment>)
    ensures |metas| <= |files|
    ensures forall k :: 0 <= k < |metas| ==>
      metas[k].originalName != "" && metas[k].url == "/api/reports/uploads/" + metas[k].filename
  {
    if files == [] then []
    else
      var f := files[|files| - 1];
      KeptMetas(files[..|files| - 1]) + (if Skipped(f) then [] else [MetaOf(f)])
  }

  /** Some file that is not skipped is too large. */
  predicate AnyTooLarge(files: seq<Upload>) {
    exists i :: 0 <= i < |files| && !Skipped(files[i]) && TooLarge(files[i])
  }

  datatype Collected = Stored(metas: seq<Attachment>) | Refused(msg: string)

  /** The upload loop: skips nameless files, refuses the request at the
      first file over the limit, and collects the metadata of the others. */
  method CollectUploads(files: seq<Upload>) returns (c: Collected)
    ensures c.Stored? <==> !AnyTooLarge(files)
    ensures c.Stored? ==> c.metas == KeptMetas(files)
    ensures c.Refused? ==>
      exists i :: 0 <= i < |files| && !Skipped(files[i]) && TooLarge(files[i])
        && c.msg == TooLargeMessage(files[i].filename)
        && forall j :: 0 <= j < i && !Skipped(files[j]) ==> !TooLarge(files[j])
  {
    var metas := [];
    var i := 0;
    while i < |files|
      invariant 0 <= i <= |files|
      invariant metas == KeptMetas(files[..i])
      invariant forall j :: 0 <= j < i && !Skipped(files[j]) ==> !TooLarge(files[j])
    {
      var f := files[i];
      assert files[..i + 1][..i] == files[..i];
      if !Skipped(f) {
        if TooLarge(f) {
          return Refused(TooLargeMessage(f.filename));
        }
        metas := metas + [MetaOf(f)];
      }
      i := i + 1;
    }
    assert files[..i] == files;
    c := Stored(metas);
  }

  // ---------------------------------------------------------------------
  // Update whitelist

  function Field(body: map<string, Value>, key: string): Option<Value> {
    if key in body then Some(body[key]) else None
  }

  /** The body keys an update reads. */
  const UpdateKeys: set<string> :=
    {"week", "year", "month", "achievements", "challenges", "nextWeekPlan", "status", "tags"}

  /** `update_data` from the request body: the whitelisted keys, with
      `nextWeekPlan` stored as `next_week_plan` and `tags` parsed. */
  function UpdateData(body: map<string, Value>): (p: ReportPatch)
    ensures p.attachments.None? && p.approvals.None? && p.submittedAt.None?
  {
    ReportPatch(
      week := Field(body, "week"),
      year := Field(body, "year"),
      month := Field(body, "month"),
      achievements := Field(body, "achievements"),
      challenges := Field(body, "challenges"),
      nextWeekPlan := Field(body, "nextWeekPlan"),
      status := Field(body, "status"),
      tags := if "tags" in body then Some(UpdateTags(body["tags"])) else None,
      attachments := None,
      approvals := None,
      submittedAt := None)
  }

  /** A key outside the whitelist, `next_week_plan` included, changes nothing. */
  lemma UpdateDataIgnoresOtherKeys(body: map<string, Value>, key: string, v: Value)
    requires key !in UpdateKeys
    ensures UpdateData(body[key := v]) == UpdateData(body)
  {
    var b := body[key := v];
    assert forall k :: k in UpdateKeys ==> (k in b <==> k in body) && (k in b ==> b[k] == body[k]);
  }

  /** A body with none of the whitelisted keys sets nothing. */
  lemma UpdateDataEmpty(body: map<string, Value>)
    requires forall k :: k in UpdateKeys ==> k !in body
    ensures UpdateData(body) == NoChange
  {
  }

  /** What the update handler sets: the whitelisted fields, and, when files
      were sent, the existing attachments followed by the new ones. */
  function RequestPatch(r: Report, body: map<string, Value>, files: seq<Upload>): (p: ReportPatch)
    ensures files == [] ==> p.attachments.None?
    ensures files != [] ==> p.attachments == Some(r.attachments.GetOr([]) + KeptMetas(files))
  {
    var p := UpdateData(body);
    if files == [] then p else p.(attachments := Some(r.attachments.GetOr([]) + KeptMetas(files)))
  }

  // ---------------------------------------------------------------------
  // Handlers

  /** `POST /api/reports/`. */
  method CreateReport(store: ReportStore, users: seq<Users.User>, me: Caller,
                      data: map<string, Value>, files: seq<Upload>, now: nat)
    returns (reply: Reply)
    requires store.Valid()
    modifies store
    ensures store.Valid()
    ensures reply.Msg? <==> AnyTooLarge(files)
    ensures reply.Msg? ==>
      reply.code == 400 && store.docs == old(store.docs) && store.nextId == old(store.nextId)
    ensures reply.Doc? ==>
      var id := old(store.nextId);
      && id !in old(store.docs) && store.nextId == id + 1
      && store.docs.Keys == old(store.docs).Keys + {id}
      && (forall k :: k in old(store.docs) ==> store.docs[k] == old(store.docs)[k])
      && var r := store.docs[id];
         && r.userId == me.id && r.createdAt == now
         && r.status == (if "status" in data then data["status"] else Draft)
         && r.week == Get(data, "week") && r.year == Get(data, "year") && r.month == Get(data, "month")
         && r.achievements == Get(data, "achievements") && r.challenges == Get(data, "challenges")
         && r.nextWeekPlan == Get(data, "nextWeekPlan")
         && r.tags == Some(CreateTags(data)) && r.attachments == Some(KeptMetas(files))
         && r.approvals == Some([])
         && (r.submittedAt.Some? <==> r.status == Submitted)
         && reply == Doc(201, store.FindById(id, users))
  {
    var metas := [];
    if files != [] {
      var collected := CollectUploads(files);
      if collected.Refused? {
        return Msg(400, collected.msg);
      }
      metas := collected.metas;
    }
    var tags := CreateTags(data);
    var status := if "status" in data then data["status"] else Draft;
    var report := NewReport(now, me.id, Get(data, "week"), Get(data, "year"),
                            Get(data, "achievements"), Get(data, "challenges"), Get(data, "nextWeekPlan"),
                            month := Get(data, "month"), status := status,
                            attachments := metas, tags := tags);
    var id := store.Save(report, now);
    reply := Doc(201, store.FindById(id, users));
  }

  /** `GET /api/reports/<id>`. */
  method GetReport(store: ReportStore, users: seq<Users.User>, me: Caller, id: nat)
    returns (reply: Reply)
    ensures id !in store.docs ==> reply == Msg(404, "Report not found")
    ensures id in store.docs && !MayAccess(me, store.docs[id]) ==> reply == Msg(401, "Not authorized")
    ensures id in store.docs && MayAccess(me, store.docs[id]) ==>
      reply == Doc(200, store.FindById(id, users)) && reply.view.Some?
  {
    var found := store.FindById(id, users);
    if found.None? {
      return Msg(404, "Report not found");
    }
    if found.value.userId != me.id && !IsAdmin(me) {
      return Msg(401, "Not authorized");
    }
    reply := Doc(200, found);
  }

  /** `PUT /api/reports/<id>`. */
  method UpdateReport(store: ReportStore, users: seq<Users.User>, me: Caller, id: nat,
                      body: map<string, Value>, files: seq<Upload>, now: nat)
    returns (reply: Reply)
    requires store.Valid()
    modifies store
    ensures store.Valid() && store.nextId == old(store.nextId)
    ensures id !in old(store.docs) ==>
      reply == Msg(404, "Report not found") && store.docs == old(store.docs)
    ensures id in old(store.docs) && !MayAccess(me, old(store.docs)[id]) ==>
      reply == Msg(401, "Not authorized") && store.docs == old(store.docs)
    ensures id in old(store.docs) && MayAccess(me, old(store.docs)[id]) && AnyTooLarge(files) ==>
      reply.Msg? && reply.code == 400 && store.docs == old(store.docs)
    ensures reply.Doc? <==>
      id in old(store.docs) && MayAccess(me, old(store.docs)[id]) && !AnyTooLarge(files)
    ensures reply.Doc? ==>
      var was := old(store.docs)[id];
      && store.docs == old(store.docs)[id := SetFields(was, Stamped(RequestPatch(was, body, files), now))]
      && reply == Doc(200, store.FindById(id, users))
  {
    var report := store.FindById(id, users);
    if report.None? {
      return Msg(404, "Report not found");
    }
    if report.value.userId != me.id && !IsAdmin(me) {
      return Msg(401, "Not authorized");
    }
    var update := UpdateData(body);
    if files != [] {
      var collected := CollectUploads(files);
      if collected.Refused? {
        return Msg(400, collected.msg);
      }
      update := update.(attachments := Some(report.value.attachments + collected.metas));
    }
    var updated := store.Update(id, update, now, users);
    reply := Doc(200, updated);
  }

  /** `DELETE /api/reports/<id>`. */
  method DeleteReport(store: ReportStore, me: Caller, id: nat) returns (reply: Reply)
    requires store.Valid()
    modifies store
    ensures store.Valid() && store.nextId == old(store.nextId)
    ensures id !in old(store.docs) ==>
      reply == Msg(404, "Report not found") && store.docs == old(store.docs)
    ensures id in old(store.docs) && !MayAccess(me, old(store.docs)[id]) ==>
      reply == Msg(401, "Not authorized") && store.docs == old(store.docs)
    ensures id in old(store.docs) && MayAccess(me, old(store.docs)[id]) ==>
      reply == Msg(200, "Report removed") && store.docs == old(store.docs) - {id}
  {
    if id !in store.docs {
      return Msg(404, "Report not found");
    }
    if store.docs[id].userId != me.id && !IsAdmin(me) {
      return Msg(401, "Not authorized");
    }
    var deleted := store.Delete(id);
    if deleted {
      reply := Msg(200, "Report removed");
    } else {
      reply := Msg(500, "Failed to delete report");
    }
  }

  /** The review entry an approval or rejection appends. */
  function Decision(me: Caller, action: string, comment: Value, now: nat): Approval {
    Approval(me.id, action, comment, now)
  }

  /** The report after a review: the new status and one more review entry
      after the earlier ones. */
  function Reviewed(r: Report, status: string, entry: Approval): (s: Report)
    ensures s.status == JsonStr(status)
    ensures s.approvals.Some? && |s.approvals.value| == |r.approvals.GetOr([])| + 1
    ensures s.approvals.value[..|s.approvals.value| - 1] == r.approvals.GetOr([])
    ensures s.approvals.value[|s.approvals.value| - 1] == entry
    ensures s == SetFields(r, NoChange.(status := Some(JsonStr(status)), approvals := s.approvals))
  {
    var approvals := r.approvals.GetOr([]) + [entry];
    assert approvals[..|approvals| - 1] == r.approvals.GetOr([]);
    r.(status := JsonStr(status), approvals := Some(approvals))
  }

  /** `POST /api/reports/<id>/approve`. */
  method ApproveReport(store: ReportStore, users: seq<Users.User>, me: Caller, id: nat,
                       data: map<string, Value>, now: nat)
    returns (reply: Reply)
    requires store.Valid()
    modifies store
    ensures store.Valid() && store.nextId == old(store.nextId)
    ensures !IsAdmin(me) ==>
      reply == Msg(403, "Admin access required") && store.docs == old(store.docs)
    ensures IsAdmin(me) && id !in old(store.docs) ==>
      reply == Msg(404, "Report not found") && store.docs == old(store.docs)
    ensures IsAdmin(me) && id in old(store.docs) && old(store.docs)[id].status != Submitted ==>
      reply == Msg(400, "Only submitted reports can be approved") && store.docs == old(store.docs)
    ensures reply.Doc? <==> IsAdmin(me) && id in old(store.docs) && old(store.docs)[id].status == Submitted
    ensures reply.Doc? ==>
      var was := old(store.docs)[id];
      && store.docs == old(store.docs)[id := Reviewed(was, "approved", Decision(me, "approved", Get(data, "comment"), now))]
      && reply == Doc(200, store.FindById(id, users))
  {
    if !IsAdmin(me) {
      return Msg(403, "Admin access required");
    }
    var report := store.FindById(id, users);
    if report.None? {
      return Msg(404, "Report not found");
    }
    if report.value.status != Submitted {
      return Msg(400, "Only submitted reports can be approved");
    }
    var comment := Get(data, "comment");
    var approval := Decision(me, "approved", comment, now);
    var update := NoChange.(status := Some(JsonStr("approved")),
                            approvals := Some(report.value.approvals + [approval]));
    var updated := store.Update(id, update, now, users);
    reply := Doc(200, updated);
  }

  /** `POST /api/reports/<id>/reject`: the status is checked before the
      comment, and the comment must be truthy. */
  method RejectReport(store: ReportStore, users: seq<Users.User>, me: Caller, id: nat,
                      data: map<string, Value>, now: nat)
    returns (reply: Reply)
    requires store.Valid()
    modifies store
    ensures store.Valid() && store.nextId == old(store.nextId)
    ensures !IsAdmin(me) ==>
      reply == Msg(403, "Admin access required") && store.docs == old(store.docs)
    ensures IsAdmin(me) && id !in old(store.docs) ==>
      reply == Msg(404, "Report not found") && store.docs == old(store.docs)
    ensures IsAdmin(me) && id in old(store.docs) && old(store.docs)[id].status != Submitted ==>
      reply == Msg(400, "Only submitted reports can be rejected") && store.docs == old(store.docs)
    ensures IsAdmin(me) && id in old(store.docs) && old(store.docs)[id].status == Submitted
            && !Truthy(Get(data, "comment")) ==>
      reply == Msg(400, "Rejection requires a comment") && store.docs == old(store.docs)
    ensures reply.Doc? <==>
      IsAdmin(me) && id in old(store.docs) && old(store.docs)[id].status == Submitted
      && Truthy(Get(data, "comment"))
    ensures reply.Doc? ==>
      var was := old(store.docs)[id];
      && store.docs == old(store.docs)[id := Reviewed(was, "rejected", Decision(me, "rejected", Get(data, "comment"), now))]
      && reply == Doc(200, store.FindById(id, users))
  {
    if !IsAdmin(me) {
      return Msg(403, "Admin access required");
    }
    var report := store.FindById(id, users);
    if report.None? {
      return Msg(404, "Report not found");
    }
    if report.value.status != Submitted {
      return Msg(400, "Only submitted reports can be rejected");
    }
    var comment := Get(data, "comment");
    if !Truthy(comment) {
      return Msg(400, "Rejection requires a comment");
    }
    var rejection := Decision(me, "rejected", comment, now);
    var update := NoChange.(status := Some(JsonStr("rejected")),
                            approvals := Some(report.value.approvals + [rejection]));
    var updated := store.Update(id, update, now, users);
    reply := Doc(200, updated);
  }

  /** The documents of the collection in natural order. */
  function AllReports(docs: map<nat, Report>, n: nat): (rs: seq<Report>)
    ensures forall r :: r in rs <==> exists id :: id < n && id in docs && docs[id] == r
  {
    var es := Entries(docs, n);
    var rs := seq(|es|, i requires 0 <= i < |es| => es[i].1);
    forall r | r in rs ensures exists id :: id < n && id in docs && docs[id] == r {
      var i :| 0 <= i < |es| && rs[i] == r;
      assert es[i] in es;
    }
    forall id | id < n && id in docs ensures docs[id] in rs {
      assert (id, docs[id]) in es;
      var i :| 0 <= i < |es| && es[i] == (id, docs[id]);
      assert rs[i] == docs[id];
    }
    rs
  }

  /** `GET /api/reports/stats`, weekly rows and overall counts. */
  method ReportsStats(store: ReportStore, me: Caller) returns (reply: Reply)
    ensures !IsAdmin(me) ==> reply == Msg(403, "Admin access required")
    ensures IsAdmin(me) ==>
      var rs := AllReports(store.docs, store.nextId);
      reply == Stats(200, WeeklyRows(rs), OverallCounts(rs))
  {
    if !IsAdmin(me) {
      return Msg(403, "Admin access required");
    }
    var rs := AllReports(store.docs, store.nextId);
    reply := Stats(200, WeeklyRows(rs), OverallCounts(rs));
  }
}
