/** The reports collection: the report document, its creation defaults, the
    `submitted_at` stamp on save and on update, field-wise `$set` updates,
    deletion, and the listings ordered newest first, each document rendered
    by `to_dict` with a summary of its author. */
module Reports {
  import opened Wrappers
  import opened Json
  import Users
  import opened Orders
  import opened Sorting

  /** Upload metadata: `{filename, original_name, mime, size, url}`; `size`
      is `None` when the upload could not be measured. */
  datatype Attachment = Attachment(
    filename: string,
    originalName: string,
    mime: string,
    size: Option<nat>,
    url: string)

  /** One review decision: `{by, action, comment, at}`. */
  datatype Approval = Approval(reviewer: nat, action: string, comment: Value, at: nat)

  /** A stored report document. The list fields are `None` when the document
      lacks the key. */
  datatype Report = Report(
    userId: nat,
    week: Value,
    year: Value,
    month: Value,
    achievements: Value,
    challenges: Value,
    nextWeekPlan: Value,
    status: Value,
    attachments: Option<seq<Attachment>>,
    tags: Option<seq<Scalar>>,
    approvals: Option<seq<Approval>>,
    createdAt: nat,
    submittedAt: Option<nat>)

  const Draft: Value := JsonStr("draft")
  const Submitted: Value := JsonStr("submitted")

  /** `Report(user_id, week, year, achievements, challenges, next_week_plan,
      month=None, status='draft', attachments=None, tags=None)`, created at
      time `now`. */
  function NewReport(now: nat, userId: nat, week: Value, year: Value,
                     achievements: Value, challenges: Value, nextWeekPlan: Value,
                     month: Value := NULL, status: Value := Draft,
                     attachments: seq<Attachment> := [], tags: seq<Scalar> := []): (r: Report)
    ensures r.userId == userId && r.createdAt == now
    ensures r.week == week && r.year == year && r.month == month
    ensures r.achievements == achievements && r.challenges == challenges
    ensures r.nextWeekPlan == nextWeekPlan && r.status == status
    ensures r.attachments == Some(attachments) && r.tags == Some(tags)
    ensures r.approvals == Some([]) && r.submittedAt == None
  {
    Report(userId, week, year, month, achievements, challenges, nextWeekPlan, status,
           Some(attachments), Some(tags), Some([]), now, None)
  }

  /** The fields an update sets (`update_data` for `$set`); `None` is a key
      that is not set. */
  datatype ReportPatch = ReportPatch(
    week: Option<Value>,
    year: Option<Value>,
    month: Option<Value>,
    achievements: Option<Value>,
    challenges: Option<Value>,
    nextWeekPlan: Option<Value>,
    status: Option<Value>,
    tags: Option<seq<Scalar>>,
    attachments: Option<seq<Attachment>>,
    approvals: Option<seq<Approval>>,
    submittedAt: Option<nat>)

  const NoChange: ReportPatch :=
    ReportPatch(None, None, None, None, None, None, None, None, None, None, None)

  /** `{"$set": patch}`: each field the patch names takes the patch's value. */
  function SetFields(r: Report, p: ReportPatch): (s: Report)
    ensures s.userId == r.userId && s.createdAt == r.createdAt
    ensures p == NoChange ==> s == r
  {
    r.(week := p.week.GetOr(r.week),
       year := p.year.GetOr(r.year),
       month := p.month.GetOr(r.month),
       achievements := p.achievements.GetOr(r.achievements),
       challenges := p.challenges.GetOr(r.challenges),
       nextWeekPlan := p.nextWeekPlan.GetOr(r.nextWeekPlan),
       status := p.status.GetOr(r.status),
       tags := if p.tags.Some? then p.tags else r.tags,
       attachments := if p.attachments.Some? then p.attachments else r.attachments,
       approvals := if p.approvals.Some? then p.approvals else r.approvals,
       submittedAt := if p.submittedAt.Some? then p.submittedAt else r.submittedAt)
  }

  /** Setting the same fields twice is setting them once. */
  lemma SetFieldsIdempotent(r: Report, p: ReportPatch)
    ensures SetFields(SetFields(r, p), p) == SetFields(r, p)
  {
  }

  /** A field the patch leaves out keeps its value. */
  lemma SetFieldsFrame(r: Report, p: ReportPatch)
    ensures p.week.None? ==> SetFields(r, p).week == r.week
    ensures p.year.None? ==> SetFields(r, p).year == r.year
    ensures p.month.None? ==> SetFields(r, p).month == r.month
    ensures p.achievements.None? ==> SetFields(r, p).achievements == r.achievements
    ensures p.challenges.None? ==> SetFields(r, p).challenges == r.challenges
    ensures p.nextWeekPlan.None? ==> SetFields(r, p).nextWeekPlan == r.nextWeekPlan
    ensures p.status.None? ==> SetFields(r, p).status == r.status
    ensures p.tags.None? ==> SetFields(r, p).tags == r.tags
    ensures p.attachments.None? ==> SetFields(r, p).attachments == r.attachments
    ensures p.approvals.None? ==> SetFields(r, p).approvals == r.approvals
    ensures p.submittedAt.None? ==> SetFields(r, p).submittedAt == r.submittedAt
  {
  }

  /** `Report.update` adds `submitted_at = now` to an update that sets the
      status to `submitted`. */
  function Stamped(p: ReportPatch, now: nat): (q: ReportPatch)
    ensures p.status == Some(Submitted) ==> q.submittedAt == Some(now)
    ensures p.status != Some(Submitted) ==> q == p
    ensures q.(submittedAt := p.submittedAt) == p
  {
    if p.status == Some(Submitted) then p.(submittedAt := Some(now)) else p
  }

  /** The author summary `to_dict` attaches: `{id, name, email, username,
      department}`; user documents have no `username`, so it is `null`. */
  datatype UserSummary = UserSummary(id: nat, name: string, email: string, username: Value, department: string)

  /** A report as the API returns it. */
  datatype ReportView = ReportView(
    id: nat,
    userId: nat,
    week: Value,
    year: Value,
    month: Value,
    achievements: Value,
    challenges: Value,
    nextWeekPlan: Value,
    status: Value,
    attachments: seq<Attachment>,
    tags: seq<Scalar>,
    approvals: seq<Approval>,
    createdAt: nat,
    submittedAt: Option<nat>,
    user: Option<UserSummary>)

  /** `Report.to_dict(report)`: `None` stays `None`; missing list fields
      become empty lists, present ones are kept; the author's summary is added
      when the author exists. */
  function ToDict(doc: Option<(nat, Report)>, users: seq<Users.User>): (v: Option<ReportView>)
    ensures v.None? <==> doc.None?
    ensures v.Some? ==>
      var (id, r) := doc.value;
      && v.value.id == id && v.value.userId == r.userId
      && v.value.week == r.week && v.value.year == r.year && v.value.month == r.month
      && v.value.achievements == r.achievements && v.value.challenges == r.challenges
      && v.value.nextWeekPlan == r.nextWeekPlan && v.value.status == r.status
      && v.value.createdAt == r.createdAt && v.value.submittedAt == r.submittedAt
      && v.value.attachments == (if r.attachments.Some? then r.attachments.value else [])
      && v.value.tags == (if r.tags.Some? then r.tags.value else [])
      && v.value.approvals == (if r.approvals.Some? then r.approvals.value else [])
      && (v.value.user.Some? <==> r.userId < |users|)
      && (v.value.user.Some? ==>
            v.value.user.value
            == UserSummary(r.userId, users[r.userId].name, users[r.userId].email, NULL, users[r.userId].department))
  {
    match doc
    case None => None
    case Some((id, r)) =>
      var author := match Users.FindById(users, r.userId)
        case None => None
        case Some(u) => Some(UserSummary(r.userId, u.name, u.email, NULL, u.department));
      Some(ReportView(id, r.userId, r.week, r.year, r.month, r.achievements, r.challenges,
                      r.nextWeekPlan, r.status, r.attachments.GetOr([]), r.tags.GetOr([]),
                      r.approvals.GetOr([]), r.createdAt, r.submittedAt, author))
  }

  /** The stored documents with ids below `n`, in insertion (natural) order. */
  function Entries(docs: map<nat, Report>, n: nat): (es: seq<(nat, Report)>)
    ensures forall e :: e in es <==> e.0 < n && e.0 in docs && docs[e.0] == e.1
    ensures AscendingIds(es)
  {
    if n == 0 then []
    else Entries(docs, n - 1) + (if n - 1 in docs then [(n - 1, docs[n - 1])] else [])
  }

  /** The entries of user `uid`, order kept (`find({"user_id": uid})`). */
  function OwnedBy(es: seq<(nat, Report)>, uid: nat): (r: seq<(nat, Report)>)
    ensures forall e :: e in r <==> e in es && e.1.userId == uid
  {
    if es == [] then []
    else if es[0].1.userId == uid then [es[0]] + OwnedBy(es[1..], uid)
    else OwnedBy(es[1..], uid)
  }

  predicate AscendingIds(es: seq<(nat, Report)>) {
    forall i, j :: 0 <= i < j < |es| ==> es[i].0 < es[j].0
  }

  /** Selecting keeps a lower bound on the ids. */
  lemma OwnedByAbove(es: seq<(nat, Report)>, uid: nat, lo: int)
    requires forall i :: 0 <= i < |es| ==> lo < es[i].0
    ensures forall j :: 0 <= j < |OwnedBy(es, uid)| ==> lo < OwnedBy(es, uid)[j].0
  {
    var r := OwnedBy(es, uid);
    forall j | 0 <= j < |r| ensures lo < r[j].0 {
      assert r[j] in r;
    }
  }

  /** Selecting keeps the natural order. */
  lemma {:induction false} OwnedByAscending(es: seq<(nat, Report)>, uid: nat)
    requires AscendingIds(es)
    ensures AscendingIds(OwnedBy(es, uid))
  {
    if es != [] {
      var tail := es[1..];
      OwnedByAscending(tail, uid);
      OwnedByAbove(tail, uid, es[0].0);
    }
  }

  /** `.sort("created_at", -1)`: newer documents first. */
  function Newer(a: (nat, Report), b: (nat, Report)): bool {
    a.1.createdAt >= b.1.createdAt
  }

  lemma NewerTotalPreorder()
    ensures TotalPreorder(Newer)
  {
    forall a: (nat, Report), b: (nat, Report) ensures Newer(a, b) || Newer(b, a) {
    }
    forall a: (nat, Report), b: (nat, Report), c: (nat, Report) | Newer(a, b) && Newer(b, c)
      ensures Newer(a, c)
    {
    }
  }

  /** Entries in ascending id order are distinct. */
  lemma AscendingDistinct(es: seq<(nat, Report)>)
    requires AscendingIds(es)
    ensures Distinct(es)
  {
    forall i, j | 0 <= i < j < |es| ensures es[i] != es[j] {
      assert es[i].0 < es[j].0;
    }
  }

  /** The entries a listing shows, before `to_dict`: those of user `uid`
      (all of them when `uid` is `None`), newest first. */
  function Listing(docs: map<nat, Report>, n: nat, uid: Option<nat>): seq<(nat, Report)> {
    var es := Entries(docs, n);
    SortBy(if uid.Some? then OwnedBy(es, uid.value) else es, Newer)
  }

  /** `find_by_user(uid)` lists exactly that user's reports, each once, newest
      first; `find_all()` lists every report, each once, newest first. */
  lemma ListingSpec(docs: map<nat, Report>, n: nat, uid: Option<nat>)
    ensures forall e :: e in Listing(docs, n, uid) <==>
      e.0 < n && e.0 in docs && docs[e.0] == e.1 && (uid.Some? ==> e.1.userId == uid.value)
    ensures Distinct(Listing(docs, n, uid))
    ensures SortedBy(Listing(docs, n, uid), Newer)
  {
    var es := Entries(docs, n);
    var picked := if uid.Some? then OwnedBy(es, uid.value) else es;
    if uid.Some? {
      OwnedByAscending(es, uid.value);
    }
    AscendingDistinct(picked);
    NewerTotalPreorder();
    SortBySorted(picked, Newer);
    DistinctPermutation(picked, SortBy(picked, Newer));
    forall e ensures e in Listing(docs, n, uid) <==> e in picked {
      assert e in Listing(docs, n, uid) <==> e in multiset(SortBy(picked, Newer));
    }
  }

  /** `[Report.to_dict(r) for r in entries]`. */
  function Views(es: seq<(nat, Report)>, users: seq<Users.User>): (vs: seq<ReportView>)
    ensures |vs| == |es|
    ensures forall i :: 0 <= i < |es| ==> Some(vs[i]) == ToDict(Some(es[i]), users)
  {
    seq(|es|, i requires 0 <= i < |es| => ToDict(Some(es[i]), users).value)
  }

  /** The reports collection. Ids are handed out in increasing order. */
  class ReportStore {
    var docs: map<nat, Report>
    var nextId: nat

    ghost predicate Valid()
      reads this
    {
      forall id :: id in docs ==> id < nextId
    }

    constructor ()
      ensures Valid() && docs == map[] && nextId == 0
    {
      docs := map[];
      nextId := 0;
    }

    /** `find_one({"_id": id})` followed by `to_dict`. */
    function FindById(id: nat, users: seq<Users.User>): (v: Option<ReportView>)
      reads this
      ensures v.Some? <==> id in docs
      ensures v.Some? ==> v == ToDict(Some((id, docs[id])), users)
    {
      ToDict(if id in docs then Some((id, docs[id])) else None, users)
    }

    /** `Report.find_by_user(uid)`. */
    function FindByUser(uid: nat, users: seq<Users.User>): seq<ReportView>
      reads this
    {
      Views(Listing(docs, nextId, Some(uid)), users)
    }

    /** `Report.find_all()`. */
    function FindAll(users: seq<Users.User>): seq<ReportView>
      reads this
    {
      Views(Listing(docs, nextId, None), users)
    }

    /** `report.save()`: inserts the document, adding `submitted_at` exactly
        when the status is `submitted`. */
    method Save(r: Report, now: nat) returns (id: nat)
      requires Valid()
      modifies this
      ensures Valid()
      ensures id == old(nextId) && id !in old(docs) && nextId == id + 1
      ensures docs == old(docs)[id := r.(submittedAt := if r.status == Submitted then Some(now) else None)]
      ensures docs[id].submittedAt.Some? <==> r.status == Submitted
    {
      id := nextId;
      var stored := r.(submittedAt := if r.status == Submitted then Some(now) else None);
      docs := docs[id := stored];
      nextId := nextId + 1;
    }

    /** `Report.update(id, patch)`: `$set` of the patch, with `submitted_at`
        stamped when it sets the status to `submitted`; then `find_by_id`. */
    method Update(id: nat, p: ReportPatch, now: nat, users: seq<Users.User>) returns (v: Option<ReportView>)
      requires Valid()
      modifies this
      ensures Valid() && nextId == old(nextId)
      ensures docs.Keys == old(docs).Keys
      ensures forall k :: k in docs && k != id ==> docs[k] == old(docs)[k]
      ensures id in docs ==> docs[id] == SetFields(old(docs)[id], Stamped(p, now))
      ensures id in docs && p.status == Some(Submitted) ==> docs[id].submittedAt == Some(now)
      ensures v == FindById(id, users)
    {
      if id in docs {
        docs := docs[id := SetFields(docs[id], Stamped(p, now))];
      }
      v := FindById(id, users);
    }

    /** `Report.delete(id)`: whether a document was removed. */
    method Delete(id: nat) returns (deleted: bool)
      requires Valid()
      modifies this
      ensures Valid() && nextId == old(nextId)
      ensures deleted <==> id in old(docs)
      ensures docs == old(docs) - {id} && id !in docs
    {
      deleted := id in docs;
      docs := docs - {id};
    }
  }
}
