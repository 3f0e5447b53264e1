/** The pure parts of app/data_sources.py: the wallet-count estimate of a
    distribution, the payload-shape selection and rank sort applied to a
    loaded distribution file, and the section partition of a wallet report. */
module DataSources {
  import opened Common
  import opened Buckets
  import opened PyStr

  // ---------------------------------------------------------------------
  // Cohort size estimate
  // ---------------------------------------------------------------------

  /** `estimate_og_cohort_size`: the total of the rows' wallet counts, a
      missing or null count counting as 0. */
  function EstimateOgCohortSize(dist: seq<Bucket>): (n: int)
    ensures dist == [] ==> n == 0
    ensures (forall i :: 0 <= i < |dist| ==> Count(dist[i]) >= 0) ==> n >= 0
  {
    if dist == [] then 0 else Count(dist[0]) + EstimateOgCohortSize(dist[1..])
  }

  /** The estimate of two concatenated distributions is the sum of theirs. */
  lemma {:induction false} EstimateConcat(a: seq<Bucket>, b: seq<Bucket>)
    ensures EstimateOgCohortSize(a + b) == EstimateOgCohortSize(a) + EstimateOgCohortSize(b)
  {
    if a == [] {
      assert a + b == b;
    } else {
      assert (a + b)[1..] == a[1..] + b;
      EstimateConcat(a[1..], b);
    }
  }

  /** When no count is negative, the estimate is the number of wallets the
      band locator can rank: its running count past the last bucket. */
  lemma {:induction false} EstimateIsRankableTotal(dist: seq<Bucket>)
    requires forall i :: 0 <= i < |dist| ==> Count(dist[i]) >= 0
    ensures EstimateOgCohortSize(dist) == Before(dist, |dist|)
  {
    if dist != [] {
      var init := dist[..|dist| - 1];
      EstimateIsRankableTotal(init);
      assert dist == init + [dist[|dist| - 1]];
      EstimateConcat(init, [dist[|dist| - 1]]);
      BeforePrefix(dist, |init|, |init|);
    }
  }

  /** The running count up to i only looks at the first i buckets. */
  lemma {:induction false} BeforePrefix(dist: seq<Bucket>, n: nat, i: nat)
    requires i <= n <= |dist|
    ensures Before(dist[..n], i) == Before(dist, i)
  {
    if i > 0 {
      BeforePrefix(dist, n, i - 1);
      assert dist[..n][i - 1] == dist[i - 1];
    }
  }

  // ---------------------------------------------------------------------
  // Loading a distribution file
  // ---------------------------------------------------------------------

  /** The `"rows"` member of a result object: missing, a JSON array of rows,
      or a JSON scalar (`null`, a number, a boolean), which is not iterable. */
  datatype RowsValue = NoRows | Rows(list: seq<Bucket>) | Scalar

  /** The `"result"` object of a query-result document. */
  datatype ResultObject = ResultObject(rows: RowsValue)

  /** What `json.load` produced from a distribution path, or `NoFile` when
      the path does not exist. `Document` is a JSON object, with its
      `"result"` member if it has one; `OtherJson` is any other JSON value. */
  datatype Payload =
    | NoFile
    | RowList(list: seq<Bucket>)
    | Document(result: Option<ResultObject>)
    | OtherJson

  /** False exactly when the shape selection picks a `rows` value that
      `sorted` cannot iterate. */
  predicate RowsIterable(p: Payload) {
    !(p.Document? && p.result.Some? && p.result.value.rows.Scalar?)
  }

  /** The shape selection: a document's `result.rows` (`[]` without one), a
      bare list as it is, nothing for anything else. A scalar `rows` value
      selects nothing here; `LoadDistribution` turns it into an error. */
  function SelectRows(p: Payload): (rows: seq<Bucket>)
    ensures p.RowList? ==> rows == p.list
    ensures p.Document? && p.result.Some? && p.result.value.rows.Rows? ==> rows == p.result.value.rows.list
    ensures p.NoFile? || p.OtherJson? || (p.Document? && p.result.None?) ==> rows == []
    ensures p.Document? && p.result.Some? && !p.result.value.rows.Rows? ==> rows == []
  {
    match p
    case NoFile => []
    case RowList(list) => list
    case Document(result) => (if result.Some? && result.value.rows.Rows? then result.value.rows.list else [])
    case OtherJson => []
  }

  /** A sort key as Python sees it: `None`, a number or a string. */
  datatype Key = NoneKey | NumKey(x: real) | StrKey(s: string)

  /** The sort key `row.get("usd_percentile_rank", 0)`: only a missing key
      falls back to 0; a JSON `null` stays `None`. */
  function RankKey(b: Bucket): Key {
    match b.usdPercentileRank
    case Absent => NumKey(0.0)
    case Null => NoneKey
    case Num(x) => NumKey(x)
    case Text(t) => StrKey(t)
  }

  /** `sorted` compares keys with `<`, which Python defines between two
      numbers and between two strings and nowhere else. Every row of a sort
      of two or more rows meets another in some comparison, and adjacent rows
      of the result meet each other, so the sort completes exactly when there
      are fewer than two rows or the keys are all numbers or all strings. */
  predicate Sortable(rows: seq<Bucket>) {
    || |rows| <= 1
    || (forall i :: 0 <= i < |rows| ==> RankKey(rows[i]).NumKey?)
    || (forall i :: 0 <= i < |rows| ==> RankKey(rows[i]).StrKey?)
  }

  /** Key order. Between two numbers or two strings it is Python's `<=`;
      the other cases never reach the sort (see Sortable) and only make the
      order total. */
  predicate KeyLe(a: Key, b: Key) {
    match (a, b)
    case (NoneKey, _) => true
    case (NumKey(x), NumKey(y)) => x <= y
    case (NumKey(_), StrKey(_)) => true
    case (StrKey(s), StrKey(t)) => StrLe(s, t)
    case _ => false
  }

  lemma KeyLeRefl(a: Key)
    ensures KeyLe(a, a)
  {
    if a.StrKey? {
      StrLeRefl(a.s);
    }
  }

  lemma KeyLeTotal(a: Key, b: Key)
    ensures KeyLe(a, b) || KeyLe(b, a)
  {
    if a.StrKey? && b.StrKey? {
      StrLeTotal(a.s, b.s);
    }
  }

  lemma KeyLeTrans(a: Key, b: Key, c: Key)
    requires KeyLe(a, b) && KeyLe(b, c)
    ensures KeyLe(a, c)
  {
    if a.StrKey? && b.StrKey? && c.StrKey? {
      StrLeTrans(a.s, b.s, c.s);
    }
  }

  lemma KeyLeAntisym(a: Key, b: Key)
    requires KeyLe(a, b) && KeyLe(b, a)
    ensures a == b
  {
    if a.StrKey? && b.StrKey? {
      StrLeAntisym(a.s, b.s);
    }
  }

  predicate SortedByRank(s: seq<Bucket>) {
    forall i, j :: 0 <= i < j < |s| ==> KeyLe(RankKey(s[i]), RankKey(s[j]))
  }

  /** The test "has rank key k", as the filter predicate. */
  function HasKey(k: Key): Bucket -> bool {
    (b: Bucket) => RankKey(b) == k
  }

  /** The rows of s whose rank key is k, in their order in s. */
  function WithKey(k: Key, s: seq<Bucket>): seq<Bucket> {
    Filter(HasKey(k), s)
  }

  /** Inserts b after the leading rows of s whose key is at most b's; on a
      sorted s, that is after every row that does not rank above b. */
  function InsertByRank(b: Bucket, s: seq<Bucket>): (r: seq<Bucket>)
    ensures |r| == |s| + 1
  {
    if s == [] then [b]
    else if KeyLe(RankKey(s[0]), RankKey(b)) then [s[0]] + InsertByRank(b, s[1..])
    else [b] + s
  }

  /** Insertion adds exactly b to the rows. */
  lemma {:induction false} InsertAddsOne(b: Bucket, s: seq<Bucket>)
    ensures multiset(InsertByRank(b, s)) == multiset(s) + multiset{b}
  {
    if s != [] && KeyLe(RankKey(s[0]), RankKey(b)) {
      InsertAddsOne(b, s[1..]);
      assert s == [s[0]] + s[1..];
    }
  }

  /** Insertion into a sorted sequence leaves it sorted. */
  lemma {:induction false} InsertKeepsSorted(b: Bucket, s: seq<Bucket>)
    requires SortedByRank(s)
    ensures SortedByRank(InsertByRank(b, s))
  {
    if s == [] {
    } else if KeyLe(RankKey(s[0]), RankKey(b)) {
      var tail := InsertByRank(b, s[1..]);
      InsertKeepsSorted(b, s[1..]);
      InsertAddsOne(b, s[1..]);
      forall i | 0 <= i < |tail|
        ensures KeyLe(RankKey(s[0]), RankKey(tail[i]))
      {
        assert tail[i] in multiset(tail);
        assert tail[i] in s[1..] || tail[i] == b;
      }
      assert InsertByRank(b, s) == [s[0]] + tail;
    } else {
      KeyLeTotal(RankKey(s[0]), RankKey(b));
      forall i | 0 <= i < |s|
        ensures KeyLe(RankKey(b), RankKey(s[i]))
      {
        if i > 0 {
          KeyLeTrans(RankKey(b), RankKey(s[0]), RankKey(s[i]));
        }
      }
      assert InsertByRank(b, s) == [b] + s;
    }
  }

  /** Inserting b keeps the rows that share a key in their order, with b
      after the ones that share its key. */
  lemma {:induction false} InsertKeepsKeyOrder(b: Bucket, s: seq<Bucket>, k: Key)
    requires SortedByRank(s)
    ensures WithKey(k, InsertByRank(b, s)) == WithKey(k, s) + (if RankKey(b) == k then [b] else [])
  {
    if s == [] {
      assert InsertByRank(b, s) == [b];
    } else if KeyLe(RankKey(s[0]), RankKey(b)) {
      InsertKeepsKeyOrder(b, s[1..], k);
      InsertPastHead(b, s, k);
    } else {
      InsertAtFront(b, s, k);
    }
  }

  /** The step of InsertKeepsKeyOrder where b goes past the head of s. */
  lemma InsertPastHead(b: Bucket, s: seq<Bucket>, k: Key)
    requires s != [] && KeyLe(RankKey(s[0]), RankKey(b))
    requires WithKey(k, InsertByRank(b, s[1..])) == WithKey(k, s[1..]) + (if RankKey(b) == k then [b] else [])
    ensures WithKey(k, InsertByRank(b, s)) == WithKey(k, s) + (if RankKey(b) == k then [b] else [])
  {
    var e: seq<Bucket> := if RankKey(b) == k then [b] else [];
    var tail := InsertByRank(b, s[1..]);
    assert InsertByRank(b, s) == [s[0]] + tail;
    assert s == [s[0]] + s[1..];
    FilterConsSuffix(HasKey(k), s[0], tail, s[1..], e);
  }

  /** The step of InsertKeepsKeyOrder where b goes in front of s. */
  lemma InsertAtFront(b: Bucket, s: seq<Bucket>, k: Key)
    requires SortedByRank(s) && s != [] && !KeyLe(RankKey(s[0]), RankKey(b))
    ensures WithKey(k, InsertByRank(b, s)) == WithKey(k, s) + (if RankKey(b) == k then [b] else [])
  {
    assert InsertByRank(b, s) == [b] + s;
    FilterConcat(HasKey(k), [b], s);
    if RankKey(b) == k {
      KeyLeRefl(k);
      NoneWithKey(k, s);
    }
  }

  /** No row of s has key k. */
  lemma {:induction false} NoneWithKey(k: Key, s: seq<Bucket>)
    requires forall i :: 0 <= i < |s| ==> RankKey(s[i]) != k
    ensures WithKey(k, s) == []
  {
    if s != [] {
      NoneWithKey(k, s[1..]);
    }
  }

  /** `sorted(rows, key=rank)`: Python's sort is stable, modelled as an
      insertion sort that places each row after the earlier ones that do not
      rank above it. */
  function SortByRank(rows: seq<Bucket>): (r: seq<Bucket>)
    ensures |r| == |rows|
  {
    if rows == [] then [] else InsertByRank(rows[|rows| - 1], SortByRank(rows[..|rows| - 1]))
  }

  /** The sort's output is in rank order. */
  lemma {:induction false} SortIsSorted(rows: seq<Bucket>)
    ensures SortedByRank(SortByRank(rows))
  {
    if rows != [] {
      SortIsSorted(rows[..|rows| - 1]);
      InsertKeepsSorted(rows[|rows| - 1], SortByRank(rows[..|rows| - 1]));
    }
  }

  /** The sort's output is a permutation of its input. */
  lemma {:induction false} SortIsPermutation(rows: seq<Bucket>)
    ensures multiset(SortByRank(rows)) == multiset(rows)
  {
    if rows != [] {
      var init := rows[..|rows| - 1];
      SortIsPermutation(init);
      InsertAddsOne(rows[|rows| - 1], SortByRank(init));
      assert rows == init + [rows[|rows| - 1]];
    }
  }

  /** Stability: for every key, the rows with that key keep their relative
      order through the sort. */
  lemma {:induction false} SortIsStable(rows: seq<Bucket>, k: Key)
    ensures WithKey(k, SortByRank(rows)) == WithKey(k, rows)
  {
    if rows != [] {
      var init := rows[..|rows| - 1];
      var last := rows[|rows| - 1];
      SortIsStable(init, k);
      SortIsSorted(init);
      InsertKeepsKeyOrder(last, SortByRank(init), k);
      assert rows == init + [last];
      FilterConcat(HasKey(k), init, [last]);
    }
  }

  /** A distribution that is already in rank order comes back unchanged. */
  lemma {:induction false} SortOfSorted(rows: seq<Bucket>)
    requires SortedByRank(rows)
    ensures SortByRank(rows) == rows
  {
    if rows != [] {
      var init := rows[..|rows| - 1];
      var last := rows[|rows| - 1];
      assert SortedByRank(init);
      SortOfSorted(init);
      InsertAtEnd(last, init);
      assert rows == init + [last];
    }
  }

  lemma {:induction false} InsertAtEnd(b: Bucket, s: seq<Bucket>)
    requires forall x :: x in s ==> KeyLe(RankKey(x), RankKey(b))
    ensures InsertByRank(b, s) == s + [b]
  {
    if s != [] {
      InsertAtEnd(b, s[1..]);
    }
  }

  /** Sorting only reorders rows, so it leaves the estimate unchanged. */
  lemma {:induction false} SortKeepsEstimate(rows: seq<Bucket>)
    ensures EstimateOgCohortSize(SortByRank(rows)) == EstimateOgCohortSize(rows)
  {
    if rows != [] {
      var init := rows[..|rows| - 1];
      var last := rows[|rows| - 1];
      SortKeepsEstimate(init);
      InsertAddsCount(last, SortByRank(init));
      assert rows == init + [last];
      EstimateConcat(init, [last]);
    }
  }

  lemma {:induction false} InsertAddsCount(b: Bucket, s: seq<Bucket>)
    ensures EstimateOgCohortSize(InsertByRank(b, s)) == EstimateOgCohortSize(s) + Count(b)
  {
    if s != [] && KeyLe(RankKey(s[0]), RankKey(b)) {
      InsertAddsCount(b, s[1..]);
      var tail := InsertByRank(b, s[1..]);
      assert ([s[0]] + tail)[1..] == tail;
    }
  }

  /** `_load_distribution_cached` after the file read: the selected rows,
      sorted by rank, or the TypeError `sorted` raises on a `rows` value it
      cannot iterate or on keys it cannot compare. */
  function LoadDistribution(p: Payload): (r: Result<seq<Bucket>>)
    ensures r.Err? <==> !RowsIterable(p) || !Sortable(SelectRows(p))
    ensures r.Err? ==> r.error == TypeError
    ensures p.Document? && p.result.Some? && p.result.value.rows.Scalar? ==> r == Err(TypeError)
    ensures |SelectRows(p)| >= 2 && (exists i :: 0 <= i < |SelectRows(p)| && SelectRows(p)[i].usdPercentileRank.Null?)
      ==> r == Err(TypeError)
    ensures r.Ok? ==> SortedByRank(r.value)
    ensures r.Ok? ==> multiset(r.value) == multiset(SelectRows(p))
    ensures r.Ok? ==> forall k :: WithKey(k, r.value) == WithKey(k, SelectRows(p))
    ensures p.NoFile? ==> r == Ok([])
  {
    var rows := SelectRows(p);
    if !RowsIterable(p) || !Sortable(rows) then Err(TypeError)
    else
      SortIsSorted(rows);
      SortIsPermutation(rows);
      forall k
        ensures WithKey(k, SortByRank(rows)) == WithKey(k, rows)
      {
        SortIsStable(rows, k);
      }
      Ok(SortByRank(rows))
  }

  /** A missing rank sorts as 0: a row without one goes ahead of rows of
      positive rank. */
  lemma MissingRankSortsFirst(a: Bucket, b: Bucket)
    requires a.usdPercentileRank.Absent? && b.usdPercentileRank.Num? && b.usdPercentileRank.n > 0.0
    ensures LoadDistribution(RowList([b, a])) == Ok([a, b])
  {
    var rows := [b, a];
    assert Sortable(rows) by {
      assert RankKey(rows[0]).NumKey? && RankKey(rows[1]).NumKey?;
    }
    assert rows[..1] == [b] && [b][..0] == [];
    assert SortByRank([b]) == [b];
    assert SortByRank(rows) == InsertByRank(a, [b]);
    assert !KeyLe(RankKey(b), RankKey(a));
    assert InsertByRank(a, [b]) == [a, b];
    assert SelectRows(RowList(rows)) == rows;
  }

  // ---------------------------------------------------------------------
  // Wallet report partition
  // ---------------------------------------------------------------------

  /** A row of the wallet-statistics query: its `section` tag and, on the
      summary row, the wallet's `total_usd` (`None` when absent or null). */
  datatype ReportRow = ReportRow(section: Option<string>, totalUsd: Option<real>)

  /** The dictionary `fetch_wallet_report` returns for a non-empty result. */
  datatype Report = Report(summary: Option<ReportRow>, buyerSeller: seq<ReportRow>, collections: seq<ReportRow>)

  predicate InSection(name: string, row: ReportRow) {
    row.section == Some(name)
  }

  /** Position of the first row tagged `name`, or |rows| when there is none. */
  function FirstInSectionIndex(name: string, rows: seq<ReportRow>): (k: nat)
    ensures k <= |rows|
    ensures k < |rows| ==> InSection(name, rows[k])
    ensures forall j :: 0 <= j < k ==> !InSection(name, rows[j])
  {
    if rows == [] then 0
    else if InSection(name, rows[0]) then 0
    else 1 + FirstInSectionIndex(name, rows[1..])
  }

  /** `next((row for row in rows if ...), None)`: the first row tagged `name`. */
  function FirstInSection(name: string, rows: seq<ReportRow>): (r: Option<ReportRow>)
    ensures r.Some? ==> r.value in rows && InSection(name, r.value)
    ensures r.Some? ==> var k := FirstInSectionIndex(name, rows); k < |rows| && r.value == rows[k]
    ensures r.None? <==> forall i :: 0 <= i < |rows| ==> !InSection(name, rows[i])
  {
    var k := FirstInSectionIndex(name, rows);
    if k < |rows| then Some(rows[k]) else None
  }

  /** The test "tagged `name`", as the filter predicate. */
  function Tagged(name: string): ReportRow -> bool {
    (row: ReportRow) => InSection(name, row)
  }

  /** The tail of `fetch_wallet_report`: no rows give the empty dictionary
      (`None` here); otherwise the first summary row and the buyer/seller and
      collection rows in their original order. */
  function PartitionReport(rows: seq<ReportRow>): (r: Option<Report>)
    ensures rows == [] <==> r.None?
    ensures r.Some? ==> r.value.summary == FirstInSection("summary", rows)
    ensures r.Some? ==> r.value.buyerSeller == Filter(Tagged("buyer_seller"), rows)
    ensures r.Some? ==> r.value.collections == Filter(Tagged("collection"), rows)
    ensures r.Some? ==> forall x :: x in r.value.buyerSeller <==> x in rows && x.section == Some("buyer_seller")
    ensures r.Some? ==> forall x :: x in r.value.collections <==> x in rows && x.section == Some("collection")
  {
    if rows == [] then None
    else
      FilterMembers(Tagged("buyer_seller"), rows);
      FilterMembers(Tagged("collection"), rows);
      Some(Report(
        FirstInSection("summary", rows),
        Filter(Tagged("buyer_seller"), rows),
        Filter(Tagged("collection"), rows)))
  }

  /** The three sections are disjoint: no row lands in two of them. */
  lemma PartitionDisjoint(rows: seq<ReportRow>)
    requires rows != []
    ensures var r := PartitionReport(rows).value;
      (forall x :: x in r.buyerSeller ==> x !in r.collections && Some(x) != r.summary)
  {
  }
}
