/** The weekly part of the admin statistics: reports grouped by their
    `(year, week)` pair, one row per group with the number of reports and
    the number still `submitted`, rows in ascending `(year, week)` order;
    and the overall counts. */
module WeeklyStats {
  import opened Json
  import opened Orders
  import opened Sorting
  import opened Grouping
  import opened BsonOrder
  import opened Reports

  /** The `_id` of a group: `{"year": "$year", "week": "$week"}`. */
  function PeriodOf(r: Report): (Value, Value) {
    (r.year, r.week)
  }

  predicate IsSubmitted(r: Report) {
    r.status == Submitted
  }

  /** `{"$sum": {"$cond": [{"$eq": ["$status", "submitted"]}, 1, 0]}}`. */
  function CountSubmitted(rs: seq<Report>): (n: nat)
    ensures n <= |rs|
  {
    if rs == [] then 0 else (if IsSubmitted(rs[0]) then 1 else 0) + CountSubmitted(rs[1..])
  }

  /** One formatted row: `{year, week, total, submitted}`. */
  datatype WeekRow = WeekRow(year: Value, week: Value, total: nat, submitted: nat)

  function RowsFor(rs: seq<Report>, keys: seq<(Value, Value)>): (rows: seq<WeekRow>)
    ensures |rows| == |keys|
    ensures forall i :: 0 <= i < |keys| ==>
      var b := Bucket(rs, PeriodOf, keys[i]);
      rows[i] == WeekRow(keys[i].0, keys[i].1, |b|, CountSubmitted(b))
  {
    if keys == [] then []
    else
      var b := Bucket(rs, PeriodOf, keys[0]);
      [WeekRow(keys[0].0, keys[0].1, |b|, CountSubmitted(b))] + RowsFor(rs, keys[1..])
  }

  /** The group keys after `$sort`. */
  function SortedKeys(rs: seq<Report>): seq<(Value, Value)> {
    SortBy(KeysInOrder(rs, PeriodOf), PeriodLeq)
  }

  /** The `$group` stage followed by the `$sort` stage and the formatting
      comprehension, over the reports in the collection. */
  function WeeklyRows(rs: seq<Report>): seq<WeekRow> {
    RowsFor(rs, SortedKeys(rs))
  }

  function SumTotals(rows: seq<WeekRow>): nat {
    if rows == [] then 0 else rows[0].total + SumTotals(rows[1..])
  }

  lemma {:induction false} SumTotalsOfRows(rs: seq<Report>, keys: seq<(Value, Value)>)
    ensures SumTotals(RowsFor(rs, keys)) == BucketTotal(rs, PeriodOf, keys)
  {
    if keys != [] {
      SumTotalsOfRows(rs, keys[1..]);
      assert RowsFor(rs, keys)[1..] == RowsFor(rs, keys[1..]);
    }
  }

  /** The sorted keys are the distinct `(year, week)` pairs of the reports,
      each once, in ascending order. */
  lemma SortedKeysSpec(rs: seq<Report>)
    ensures Distinct(SortedKeys(rs)) && SortedBy(SortedKeys(rs), PeriodLeq)
    ensures forall k :: k in SortedKeys(rs) <==> exists n :: 0 <= n < |rs| && PeriodOf(rs[n]) == k
  {
    var firstSeen := KeysInOrder(rs, PeriodOf);
    var keys := SortedKeys(rs);
    PeriodLeqTotalOrder();
    SortBySorted(firstSeen, PeriodLeq);
    DistinctPermutation(firstSeen, keys);
    forall k ensures k in keys <==> k in firstSeen {
      assert k in keys <==> k in multiset(keys);
    }
  }

  /** Every report's `(year, week)` has a row. */
  lemma WeeklyRowsCover(rs: seq<Report>)
    ensures var rows := WeeklyRows(rs);
      forall r :: r in rs ==> exists i :: 0 <= i < |rows| && rows[i].year == r.year && rows[i].week == r.week
  {
    var keys, rows := SortedKeys(rs), WeeklyRows(rs);
    SortedKeysSpec(rs);
    forall r | r in rs
      ensures exists i :: 0 <= i < |rows| && rows[i].year == r.year && rows[i].week == r.week
    {
      var n :| 0 <= n < |rs| && rs[n] == r;
      assert PeriodOf(rs[n]) in keys;
      var i :| 0 <= i < |keys| && keys[i] == PeriodOf(r);
      assert rows[i].year == r.year && rows[i].week == r.week;
    }
  }

  /** Every row belongs to some report and counts at least one. */
  lemma WeeklyRowsNonEmpty(rs: seq<Report>)
    ensures var rows := WeeklyRows(rs);
      forall i :: 0 <= i < |rows| ==>
        1 <= rows[i].total && exists r :: r in rs && rows[i].year == r.year && rows[i].week == r.week
  {
    var keys, rows := SortedKeys(rs), WeeklyRows(rs);
    SortedKeysSpec(rs);
    forall i | 0 <= i < |rows|
      ensures 1 <= rows[i].total && exists r :: r in rs && rows[i].year == r.year && rows[i].week == r.week
    {
      assert keys[i] in SortedKeys(rs);
      var n :| 0 <= n < |rs| && PeriodOf(rs[n]) == keys[i];
      assert rows[i].year == rs[n].year && rows[i].week == rs[n].week;
      BucketNonEmpty(rs, PeriodOf, keys[i]);
    }
  }

  /** Rows come in strictly ascending `(year, week)` order, so no pair has
      two rows; no row counts more submitted reports than reports. */
  lemma WeeklyRowsAscending(rs: seq<Report>)
    ensures var rows := WeeklyRows(rs);
      && (forall i, j :: 0 <= i < j < |rows| ==>
            (rows[i].year, rows[i].week) != (rows[j].year, rows[j].week)
            && PeriodLeq((rows[i].year, rows[i].week), (rows[j].year, rows[j].week)))
      && (forall i :: 0 <= i < |rows| ==> rows[i].submitted <= rows[i].total)
  {
    var keys, rows := SortedKeys(rs), WeeklyRows(rs);
    SortedKeysSpec(rs);
    forall i | 0 <= i < |rows| ensures (rows[i].year, rows[i].week) == keys[i] {
    }
  }

  /** The row totals add up to the number of reports. */
  lemma WeeklyRowsSum(rs: seq<Report>)
    ensures SumTotals(WeeklyRows(rs)) == |rs|
  {
    var keys := SortedKeys(rs);
    SortedKeysSpec(rs);
    SumTotalsOfRows(rs, keys);
    forall n | 0 <= n < |rs| ensures PeriodOf(rs[n]) in keys {
    }
    BucketsPartition(rs, PeriodOf, keys);
  }

  /** The query filter `{"status": "submitted"}`: MongoDB's equality match
      also selects a document whose `status` is an array holding the string. */
  predicate MatchesSubmitted(r: Report) {
    r.status == Submitted || (r.status.Array? && Str("submitted") in r.status.items)
  }

  /** `count_documents({"status": "submitted"})`. */
  function CountMatching(rs: seq<Report>): (n: nat)
    ensures CountSubmitted(rs) <= n <= |rs|
    ensures n == CountSubmitted(rs) <==> forall i :: 0 <= i < |rs| ==> MatchesSubmitted(rs[i]) ==> IsSubmitted(rs[i])
  {
    if rs == [] then 0
    else
      var rest := CountMatching(rs[1..]);
      assert forall i :: 0 < i < |rs| ==> rs[i] == rs[1..][i - 1];
      (if MatchesSubmitted(rs[0]) then 1 else 0) + rest
  }

  /** `count_documents({})` and `count_documents({"status": "submitted"})`. */
  datatype Overall = Overall(total: nat, submitted: nat)

  function OverallCounts(rs: seq<Report>): (o: Overall)
    ensures o.total == |rs|
    ensures CountSubmitted(rs) <= o.submitted <= o.total
    ensures o.submitted == CountMatching(rs)
  {
    Overall(|rs|, CountMatching(rs))
  }

  /** The weekly totals add up to the overall total. */
  lemma WeeklyMatchesOverall(rs: seq<Report>)
    ensures SumTotals(WeeklyRows(rs)) == OverallCounts(rs).total
  {
    WeeklyRowsSum(rs);
  }

  /** Reports none of which has status `submitted` count zero. */
  lemma {:induction false} NoneSubmitted(rs: seq<Report>)
    requires forall i :: 0 <= i < |rs| ==> !IsSubmitted(rs[i])
    ensures CountSubmitted(rs) == 0
  {
    if rs != [] {
      NoneSubmitted(rs[1..]);
    }
  }

  /** A report stored with status `["submitted"]` is counted as submitted
      overall but in no weekly row. */
  lemma ArrayStatusCountedOnlyOverall(r: Report)
    requires r.status == Array([Str("submitted")])
    ensures OverallCounts([r]).submitted == 1
    ensures forall k :: 0 <= k < |WeeklyRows([r])| ==> WeeklyRows([r])[k].submitted == 0
  {
    assert [r][1..] == [];
    assert MatchesSubmitted(r);
    var keys := SortedKeys([r]);
    forall k | 0 <= k < |keys| ensures WeeklyRows([r])[k].submitted == 0 {
      var b := Bucket([r], PeriodOf, keys[k]);
      assert forall i :: 0 <= i < |b| ==> b[i] == r;
      NoneSubmitted(b);
    }
  }
}
