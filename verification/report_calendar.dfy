/** The reports timeline: the user's reports grouped by `${year}-W${week}`,
    groups shown in the default (string) sort order of their keys. */
module ReportCalendar {
  import opened Json
  import opened Orders
  import opened Sorting
  import opened Grouping
  import opened Reports

  /** The template literal `${r.year}-W${r.week}`. */
  function KeyOf(r: ReportView): string {
    JsString(r.year) + "-W" + JsString(r.week)
  }

  /** The groups the loop builds: one per key, holding that key's reports in
      fetch order. */
  function Grouped(reports: seq<ReportView>): (groups: map<string, seq<ReportView>>)
    ensures forall k :: k in groups <==> exists i :: 0 <= i < |reports| && KeyOf(reports[i]) == k
  {
    map k | k in KeysInOrder(reports, KeyOf) :: Bucket(reports, KeyOf, k)
  }

  /** The loop's state after it has seen `done`: the keys in first-seen
      order, and one bucket per key holding that key's reports in order. */
  ghost predicate GroupedSoFar(done: seq<ReportView>, keyOf: ReportView -> string,
                         groups: map<string, seq<ReportView>>, keys: seq<string>)
  {
    && keys == KeysInOrder(done, keyOf)
    && (forall k :: k in groups <==> k in keys)
    && (forall k :: k in groups ==> groups[k] == Bucket(done, keyOf, k))
  }

  /** One iteration: pushing `r` onto its key's bucket (created empty when
      missing) and recording a new key keeps the state in step. */
  lemma GroupStep(done: seq<ReportView>, r: ReportView, keyOf: ReportView -> string,
                  groups: map<string, seq<ReportView>>, keys: seq<string>)
    requires GroupedSoFar(done, keyOf, groups, keys)
    ensures var key := keyOf(r);
      GroupedSoFar(done + [r], keyOf,
        groups[key := (if key in groups then groups[key] else []) + [r]],
        if key in keys then keys else keys + [key])
  {
    var key := keyOf(r);
    KeysPush(done, r, keyOf);
    if key !in groups {
      BucketOfAbsentKey(done, keyOf, key);
    }
    forall k ensures Bucket(done + [r], keyOf, k) == Bucket(done, keyOf, k) + (if key == k then [r] else []) {
      BucketPush(done, r, keyOf, k);
    }
  }

  /** The `forEach` that fills `map`: `map[key] = map[key] || []` then
      `push`, with `keyOf` computing each report's key. Also returns
      `Object.keys(map)`, the keys in insertion order. */
  method GroupReports(reports: seq<ReportView>, keyOf: ReportView -> string)
    returns (groups: map<string, seq<ReportView>>, keys: seq<string>)
    ensures keys == KeysInOrder(reports, keyOf)
    ensures forall k :: k in groups <==> k in keys
    ensures forall k :: k in groups ==> groups[k] == Bucket(reports, keyOf, k)
  {
    groups := map[];
    keys := [];
    for i := 0 to |reports|
      invariant GroupedSoFar(reports[..i], keyOf, groups, keys)
    {
      var r := reports[i];
      var key := keyOf(r);
      GroupStep(reports[..i], r, keyOf, groups, keys);
      assert reports[..i + 1] == reports[..i] + [r];
      var bucket := if key in groups then groups[key] else [];
      groups := groups[key := bucket + [r]];
      if key !in keys {
        keys := keys + [key];
      }
    }
    assert reports[..|reports|] == reports;
  }

  /** The effect after the fetch: the reports grouped by `${year}-W${week}`. */
  method LoadTimeline(reports: seq<ReportView>) returns (groups: map<string, seq<ReportView>>, keys: seq<string>)
    ensures groups == Grouped(reports)
    ensures keys == KeysInOrder(reports, KeyOf)
  {
    groups, keys := GroupReports(reports, KeyOf);
  }

  /** `Object.keys(grouped).sort()`: by UTF-16 code unit, here by code point. */
  function DisplayOrder(keys: seq<string>): (order: seq<string>)
    ensures forall s :: 0 <= s < |order| ==> order[s] in keys
  {
    var order := SortBy(keys, StrLeq);
    assert forall s :: 0 <= s < |order| ==> order[s] in multiset(keys);
    order
  }

  /** What the page shows. */
  datatype Timeline =
    | NoReports                                        // "No reports found."
    | Sections(sections: seq<(string, seq<ReportView>)>)

  function Render(groups: map<string, seq<ReportView>>, keys: seq<string>): (t: Timeline)
    requires forall k :: k in keys ==> k in groups
    ensures t.NoReports? <==> keys == []
    ensures t.Sections? ==>
      |t.sections| == |keys|
      && forall s :: 0 <= s < |t.sections| ==> t.sections[s] == (DisplayOrder(keys)[s], groups[DisplayOrder(keys)[s]])
  {
    if keys == [] then NoReports
    else
      var order := DisplayOrder(keys);
      Sections(seq(|order|, s requires 0 <= s < |order| => (order[s], groups[order[s]])))
  }

  /** Every report is in exactly one group, the one for its own key; no group
      is empty; within a group the reports keep fetch order. */
  lemma GroupsPartition(reports: seq<ReportView>)
    ensures var groups := Grouped(reports);
      && (forall i :: 0 <= i < |reports| ==> KeyOf(reports[i]) in groups && reports[i] in groups[KeyOf(reports[i])])
      && (forall k, r :: k in groups && r in groups[k] ==> KeyOf(r) == k)
      && (forall k :: k in groups ==> groups[k] != [])
  {
    var groups := Grouped(reports);
    forall i | 0 <= i < |reports|
      ensures KeyOf(reports[i]) in groups && reports[i] in groups[KeyOf(reports[i])]
    {
      InOwnBucket(reports, KeyOf, i);
    }
    forall k | k in groups ensures groups[k] != [] {
      BucketNonEmpty(reports, KeyOf, k);
    }
  }

  /** Grouping a longer fetch extends each group at its end. */
  lemma GroupsKeepFetchOrder(reports: seq<ReportView>, later: seq<ReportView>, k: string)
    requires k in Grouped(reports)
    ensures k in Grouped(reports + later)
    ensures Grouped(reports + later)[k] == Grouped(reports)[k] + Bucket(later, KeyOf, k)
  {
    var i :| 0 <= i < |reports| && KeyOf(reports[i]) == k;
    assert (reports + later)[i] == reports[i];
    BucketAppend(reports, later, KeyOf, k);
  }

  /** The group sizes add up to the number of reports. */
  lemma GroupSizesSum(reports: seq<ReportView>)
    ensures BucketTotal(reports, KeyOf, KeysInOrder(reports, KeyOf)) == |reports|
  {
    BucketsPartition(reports, KeyOf, KeysInOrder(reports, KeyOf));
  }

  /** The display order lists every key once, in ascending string order. */
  lemma DisplayOrderSpec(keys: seq<string>)
    requires Distinct(keys)
    ensures SortedBy(DisplayOrder(keys), StrLeq)
    ensures multiset(DisplayOrder(keys)) == multiset(keys) && Distinct(DisplayOrder(keys))
  {
    StrLeqTotalOrder();
    SortBySorted(keys, StrLeq);
    DistinctPermutation(keys, DisplayOrder(keys));
  }

  /** String order is not numeric order: week 10 is listed before week 2. */
  lemma TenBeforeTwo()
    ensures DisplayOrder(["2024-W2", "2024-W10"]) == ["2024-W10", "2024-W2"]
  {
    var a, b := "2024-W2", "2024-W10";
    WeekTwoAfterWeekTen();
    assert [a, b][1..] == [b];
    assert SortBy([b], StrLeq) == [b];
    assert Insert(a, [b], StrLeq) == [b] + Insert(a, [], StrLeq);
  }

  /** The keys first differ at the week's first digit, and '1' < '2'. */
  lemma WeekTwoAfterWeekTen()
    ensures !StrLeq("2024-W2", "2024-W10")
  {
    var a, b := "2024-W2", "2024-W10";
    assert a[1..][1..][1..][1..][1..][1..] == "2";
    assert b[1..][1..][1..][1..][1..][1..] == "10";
  }

  /** An empty fetch shows "No reports found.". */
  lemma EmptyFetch()
    ensures Grouped([]) == map[] && KeysInOrder([], KeyOf) == []
    ensures Render(map[], []) == NoReports
  {
  }
}
