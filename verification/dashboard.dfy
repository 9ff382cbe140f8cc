/**
 * `DashboardReport`: aggregate counts over a snapshot of findings and the
 * table rows built from them.
 */
module Dashboard {
  import opened Text
  import opened Models
  import opened Tally

  /** A report owns a copy of the findings it was built from; sequences
      are values, so later changes to the caller's collection cannot reach
      it. The generation time is not modelled. */
  datatype Report = Report(findings: seq<Finding>)

  function TotalFindings(r: Report): nat {
    |r.findings|
  }

  function Providers(fs: seq<Finding>): (ps: seq<string>)
    ensures |ps| == |fs| && forall i :: 0 <= i < |fs| ==> ps[i] == fs[i].provider
  {
    seq(|fs|, i requires 0 <= i < |fs| => fs[i].provider)
  }

  function Severities(fs: seq<Finding>): (ss: seq<Severity>)
    ensures |ss| == |fs| && forall i :: 0 <= i < |fs| ==> ss[i] == fs[i].severity
  {
    seq(|fs|, i requires 0 <= i < |fs| => fs[i].severity)
  }

  /** Each finding as its (provider, severity) pair. */
  function Pairs(fs: seq<Finding>): (ps: seq<(string, Severity)>)
    ensures |ps| == |fs| && forall i :: 0 <= i < |fs| ==> ps[i] == (fs[i].provider, fs[i].severity)
  {
    seq(|fs|, i requires 0 <= i < |fs| => (fs[i].provider, fs[i].severity))
  }

  /** `findings_by_provider`, in first-seen provider order. */
  function FindingsByProvider(r: Report): Tally<string> {
    CountAll(Providers(r.findings))
  }

  /** `findings_by_severity`, in first-seen severity order. */
  function FindingsBySeverity(r: Report): Tally<Severity> {
    CountAll(Severities(r.findings))
  }

  /** `findings_by_provider_and_severity`. */
  function FindingsByProviderAndSeverity(r: Report): Grouped<string, Severity> {
    GroupAll(Pairs(r.findings))
  }

  // ---------------------------------------------------------------------
  // Rows
  // ---------------------------------------------------------------------

  /** One table row: `Provider`, `Total` and one column per severity. */
  datatype Row = Row(provider: string, total: nat, critical: nat, high: nat, medium: nat, low: nat, informational: nat) {

    /** The value in the column of severity `s`. */
    function Column(s: Severity): nat {
      match s
      case Critical => critical
      case High => high
      case Medium => medium
      case Low => low
      case Informational => informational
    }
  }

  /** `str.title()` of a single word of ASCII letters. */
  function TitleWord(w: string): (r: string)
    ensures |r| == |w|
  {
    if w == [] then [] else [UpperChar(w[0])] + seq(|w| - 1, i requires 0 <= i < |w| - 1 => LowerChar(w[i + 1]))
  }

  /** The header of a severity column: `severity.value.title()`. */
  function ColumnTitle(s: Severity): string {
    TitleWord(Label(s))
  }

  /** The severity columns are headed `Critical`, `High`, `Medium`, `Low`
      and `Informational`. */
  lemma {:induction false} ColumnTitles()
    ensures ColumnTitle(Critical) == "Critical"
    ensures ColumnTitle(High) == "High"
    ensures ColumnTitle(Medium) == "Medium"
    ensures ColumnTitle(Low) == "Low"
    ensures ColumnTitle(Informational) == "Informational"
  {
    ColumnTitleCritical();
    ColumnTitleHigh();
    ColumnTitleMedium();
    ColumnTitleLow();
    ColumnTitleInformational();
  }

  lemma {:induction false} ColumnTitleCritical()
    ensures ColumnTitle(Critical) == "Critical"
  {
  }

  lemma {:induction false} ColumnTitleHigh()
    ensures ColumnTitle(High) == "High"
  {
  }

  lemma {:induction false} ColumnTitleMedium()
    ensures ColumnTitle(Medium) == "Medium"
  {
  }

  lemma {:induction false} ColumnTitleLow()
    ensures ColumnTitle(Low) == "Low"
  {
  }

  lemma {:induction false} ColumnTitleInformational()
    ensures ColumnTitle(Informational) == "Informational"
  {
  }

  /** The row for one provider: its total and each severity's count, 0
      where the provider has none. */
  function MakeRow(provider: string, counts: Tally<Severity>): Row {
    Row(provider, Sum(counts),
        Lookup(counts, Critical), Lookup(counts, High), Lookup(counts, Medium),
        Lookup(counts, Low), Lookup(counts, Informational))
  }

  lemma {:induction false} MakeRowColumn(provider: string, counts: Tally<Severity>, s: Severity)
    ensures MakeRow(provider, counts).Column(s) == Lookup(counts, s)
  {
    match s
    case Critical =>
    case High =>
    case Medium =>
    case Low =>
    case Informational =>
  }

  /** The rows before sorting, one per entry of the nested grouping. */
  function RowsOf(g: Grouped<string, Severity>): (rows: seq<Row>)
    ensures |rows| == |g| && forall i :: 0 <= i < |g| ==> rows[i] == MakeRow(g[i].0, g[i].1)
  {
    seq(|g|, i requires 0 <= i < |g| => MakeRow(g[i].0, g[i].1))
  }

  function SumTotals(rows: seq<Row>): nat {
    if rows == [] then 0 else rows[0].total + SumTotals(rows[1..])
  }

  predicate NonIncreasing(rows: seq<Row>) {
    forall i, j :: 0 <= i < j < |rows| ==> rows[i].total >= rows[j].total
  }

  /** Insert `x` after every row whose total is at least its own. */
  function InsertByTotal(sorted: seq<Row>, x: Row): (r: seq<Row>)
    ensures |r| == |sorted| + 1
    ensures multiset(r) == multiset(sorted) + multiset{x}
  {
    if sorted == [] then [x]
    else if sorted[0].total >= x.total then
      assert sorted == [sorted[0]] + sorted[1..];
      [sorted[0]] + InsertByTotal(sorted[1..], x)
    else
      [x] + sorted
  }

  /** Every row of `s` is `x` or a row of `s`'s input. */
  lemma {:induction false} InsertMembers(sorted: seq<Row>, x: Row, y: Row)
    requires y in InsertByTotal(sorted, x)
    ensures y == x || y in sorted
  {
    assert y in multiset(InsertByTotal(sorted, x));
  }

  lemma {:induction false} InsertSumTotals(sorted: seq<Row>, x: Row)
    ensures SumTotals(InsertByTotal(sorted, x)) == SumTotals(sorted) + x.total
  {
    if sorted != [] && sorted[0].total >= x.total {
      InsertSumTotals(sorted[1..], x);
    }
  }

  /** Prepending a row at least as large as every other keeps the order. */
  lemma {:induction false} ConsNonIncreasing(h: Row, rest: seq<Row>)
    requires NonIncreasing(rest)
    requires forall k :: 0 <= k < |rest| ==> rest[k].total <= h.total
    ensures NonIncreasing([h] + rest)
  {
    var r := [h] + rest;
    forall i, j | 0 <= i < j < |r| ensures r[i].total >= r[j].total {
      assert r[j] == rest[j - 1];
      if i > 0 {
        assert r[i] == rest[i - 1];
      }
    }
  }

  lemma {:induction false} InsertNonIncreasing(sorted: seq<Row>, x: Row)
    requires NonIncreasing(sorted)
    ensures NonIncreasing(InsertByTotal(sorted, x))
  {
    if sorted != [] && sorted[0].total >= x.total {
      var h := sorted[0];
      var tail := sorted[1..];
      assert NonIncreasing(tail) by {
        forall i, j | 0 <= i < j < |tail| ensures tail[i].total >= tail[j].total {
          assert tail[i] == sorted[i + 1] && tail[j] == sorted[j + 1];
        }
      }
      var rest := InsertByTotal(tail, x);
      InsertNonIncreasing(tail, x);
      forall k | 0 <= k < |rest| ensures rest[k].total <= h.total {
        InsertMembers(tail, x, rest[k]);
        if rest[k] != x {
          var m :| 0 <= m < |tail| && tail[m] == rest[k];
          assert sorted[m + 1] == rest[k];
        }
      }
      ConsNonIncreasing(h, rest);
      assert InsertByTotal(sorted, x) == [h] + rest;
    }
  }

  /** `rows.sort(key=Total, reverse=True)`: a stable sort by `Total`,
      largest first. */
  function SortByTotal(rows: seq<Row>): (r: seq<Row>)
    ensures |r| == |rows|
    ensures multiset(r) == multiset(rows)
  {
    if rows == [] then []
    else
      var pre := rows[..|rows| - 1];
      var x := rows[|rows| - 1];
      assert rows == pre + [x];
      InsertByTotal(SortByTotal(pre), x)
  }

  /** The sort neither adds nor drops any count, and leads with the largest
      totals. */
  lemma {:induction false} SortByTotalSpec(rows: seq<Row>)
    ensures SumTotals(SortByTotal(rows)) == SumTotals(rows)
    ensures NonIncreasing(SortByTotal(rows))
  {
    if rows != [] {
      var pre := rows[..|rows| - 1];
      var x := rows[|rows| - 1];
      assert rows == pre + [x];
      SortByTotalSpec(pre);
      SumTotalsSnoc(pre, x);
      InsertSumTotals(SortByTotal(pre), x);
      InsertNonIncreasing(SortByTotal(pre), x);
    }
  }

  lemma {:induction false} SumTotalsSnoc(rows: seq<Row>, x: Row)
    ensures SumTotals(rows + [x]) == SumTotals(rows) + x.total
  {
    if rows != [] {
      assert (rows + [x])[1..] == rows[1..] + [x];
      SumTotalsSnoc(rows[1..], x);
    } else {
      assert rows + [x] == [x];
    }
  }

  /** `to_rows`. */
  function ToRows(r: Report): seq<Row> {
    SortByTotal(RowsOf(FindingsByProviderAndSeverity(r)))
  }

  // ---------------------------------------------------------------------
  // Ordering: Total descending, ties in first-seen order
  // ---------------------------------------------------------------------

  /** `a` may precede `b`: a larger total, or an equal total and an earlier
      rank. */
  predicate RankedBefore(a: Row, b: Row, rank: Row -> int) {
    a.total > b.total || (a.total == b.total && rank(a) < rank(b))
  }

  predicate Ranked(rows: seq<Row>, rank: Row -> int) {
    forall i, j :: 0 <= i < j < |rows| ==> RankedBefore(rows[i], rows[j], rank)
  }

  lemma {:induction false} InsertRanked(s: seq<Row>, x: Row, rank: Row -> int)
    requires Ranked(s, rank)
    requires forall i :: 0 <= i < |s| ==> rank(s[i]) < rank(x)
    ensures Ranked(InsertByTotal(s, x), rank)
  {
    if s != [] {
      var r := InsertByTotal(s, x);
      if s[0].total >= x.total {
        InsertRanked(s[1..], x, rank);
        var rest := InsertByTotal(s[1..], x);
        assert r == [s[0]] + rest;
        forall j | 0 < j < |r| ensures RankedBefore(r[0], r[j], rank) {
          var y := r[j];
          InsertMembers(s[1..], x, y);
          if y != x {
            var k :| 0 <= k < |s[1..]| && s[1..][k] == y;
            assert s[k + 1] == y;
          }
        }
      } else {
        assert r == [x] + s;
        forall j | 0 < j < |r| ensures RankedBefore(r[0], r[j], rank) {
          if j > 1 {
            assert RankedBefore(s[0], s[j - 1], rank);
          }
        }
      }
    }
  }

  /**
   * The stable descending sort puts the rows in (Total descending, rank
   * ascending) order whenever they arrive in strictly increasing rank: a
   * stable sort keeps rows of equal Total in their incoming order.
   */
  lemma {:induction false} SortRanked(rows: seq<Row>, rank: Row -> int)
    requires forall i, j :: 0 <= i < j < |rows| ==> rank(rows[i]) < rank(rows[j])
    ensures Ranked(SortByTotal(rows), rank)
  {
    if rows != [] {
      var pre := rows[..|rows| - 1];
      var x := rows[|rows| - 1];
      SortRanked(pre, rank);
      var s := SortByTotal(pre);
      forall i | 0 <= i < |s| ensures rank(s[i]) < rank(x) {
        assert s[i] in multiset(pre);
        var k :| 0 <= k < |pre| && pre[k] == s[i];
      }
      InsertRanked(s, x, rank);
    }
  }

  // ---------------------------------------------------------------------
  // What the report's aggregates hold
  // ---------------------------------------------------------------------

  /**
   * `findings_by_provider`: every provider of the snapshot exactly once, in
   * order of first appearance, with its number of findings; the counts add
   * up to `total_findings`.
   */
  lemma {:induction false} ByProviderSpec(r: Report)
    ensures Distinct(Keys(FindingsByProvider(r)))
    ensures forall p :: p in Keys(FindingsByProvider(r)) <==> p in Providers(r.findings)
    ensures forall p :: Lookup(FindingsByProvider(r), p) == Count(Providers(r.findings), p)
    ensures Sum(FindingsByProvider(r)) == TotalFindings(r)
    ensures forall i, j :: 0 <= i < j < |FindingsByProvider(r)| ==>
      FirstIndex(Providers(r.findings), FindingsByProvider(r)[i].0) < FirstIndex(Providers(r.findings), FindingsByProvider(r)[j].0)
  {
    CountAllSpec(Providers(r.findings));
  }

  /** Every finding has exactly one of the five severities. */
  lemma {:induction false} SeverityPartition(ss: seq<Severity>)
    ensures Count(ss, Critical) + Count(ss, High) + Count(ss, Medium) + Count(ss, Low) + Count(ss, Informational) == |ss|
  {
    if ss != [] {
      SeverityPartition(ss[1..]);
      var rest := ss[1..];
      assert Count(ss, Critical) == (if ss[0] == Critical then 1 else 0) + Count(rest, Critical);
      assert Count(ss, High) == (if ss[0] == High then 1 else 0) + Count(rest, High);
      assert Count(ss, Medium) == (if ss[0] == Medium then 1 else 0) + Count(rest, Medium);
      assert Count(ss, Low) == (if ss[0] == Low then 1 else 0) + Count(rest, Low);
      assert Count(ss, Informational) == (if ss[0] == Informational then 1 else 0) + Count(rest, Informational);
    }
  }

  /**
   * `findings_by_severity`: every severity present exactly once, in order
   * of first appearance, with its number of findings; the counts add up to
   * `total_findings`.
   */
  lemma {:induction false} BySeveritySpec(r: Report)
    ensures Distinct(Keys(FindingsBySeverity(r)))
    ensures forall s :: s in Keys(FindingsBySeverity(r)) <==> s in Severities(r.findings)
    ensures forall s :: Lookup(FindingsBySeverity(r), s) == Count(Severities(r.findings), s)
    ensures Sum(FindingsBySeverity(r)) == TotalFindings(r)
    ensures Lookup(FindingsBySeverity(r), Critical) + Lookup(FindingsBySeverity(r), High)
          + Lookup(FindingsBySeverity(r), Medium) + Lookup(FindingsBySeverity(r), Low)
          + Lookup(FindingsBySeverity(r), Informational) == TotalFindings(r)
  {
    CountAllSpec(Severities(r.findings));
    SeverityPartition(Severities(r.findings));
  }

  /**
   * `findings_by_provider_and_severity`: the same providers in the same
   * order as `findings_by_provider`; under each, the severities its findings
   * carry, each with the number of findings of that provider and severity,
   * adding up to the provider's own count.
   */
  lemma {:induction false} NestedSpec(r: Report)
    ensures Keys(FindingsByProviderAndSeverity(r)) == Keys(FindingsByProvider(r))
    ensures forall p, s :: Lookup(InnerOf(FindingsByProviderAndSeverity(r), p), s) == Count(Pairs(r.findings), (p, s))
    ensures forall p, s :: s in Keys(InnerOf(FindingsByProviderAndSeverity(r), p)) <==> (p, s) in Pairs(r.findings)
    ensures forall p :: Distinct(Keys(InnerOf(FindingsByProviderAndSeverity(r), p)))
    ensures forall p :: Sum(InnerOf(FindingsByProviderAndSeverity(r), p)) == Lookup(FindingsByProvider(r), p)
  {
    var pairs := Pairs(r.findings);
    var ps := Providers(r.findings);
    var g := FindingsByProviderAndSeverity(r);
    GroupAllSpec(pairs);
    assert Keys(pairs) == ps;
    CountAllSpec(ps);
    forall p ensures Sum(InnerOf(g, p)) == Lookup(FindingsByProvider(r), p)
      && Distinct(Keys(InnerOf(g, p)))
      && (forall s :: Lookup(InnerOf(g, p), s) == Count(pairs, (p, s))
            && (s in Keys(InnerOf(g, p)) <==> (p, s) in pairs))
    {
      CountAllSpec(Select(pairs, p));
      SelectLength(pairs, p);
      forall s ensures Lookup(InnerOf(g, p), s) == Count(pairs, (p, s))
        && (s in Keys(InnerOf(g, p)) <==> (p, s) in pairs)
      {
        CountSelect(pairs, p, s);
        CountPositive(Select(pairs, p), s);
        CountPositive(pairs, (p, s));
      }
    }
  }

  // ---------------------------------------------------------------------
  // What `to_rows` returns
  // ---------------------------------------------------------------------

  function RowProviders(rows: seq<Row>): (ps: seq<string>)
    ensures |ps| == |rows| && forall i :: 0 <= i < |rows| ==> ps[i] == rows[i].provider
  {
    seq(|rows|, i requires 0 <= i < |rows| => rows[i].provider)
  }

  /** The row is right about its provider's findings in `fs`. */
  predicate RowCounts(row: Row, fs: seq<Finding>) {
    && row.provider in Providers(fs)
    && row.total == Count(Providers(fs), row.provider)
    && (forall s :: row.Column(s) == Count(Pairs(fs), (row.provider, s)))
    && row.total == row.critical + row.high + row.medium + row.low + row.informational
  }

  /** One unsorted row per entry of `findings_by_provider`. */
  lemma {:induction false} RowsLength(r: Report)
    ensures |RowsOf(FindingsByProviderAndSeverity(r))| == |FindingsByProvider(r)|
  {
    GroupAllKeys(Pairs(r.findings));
    assert Keys(Pairs(r.findings)) == Providers(r.findings);
  }

  /** Row `i` before sorting is right about provider `i` of
      `findings_by_provider`. */
  lemma {:induction false} UnsortedRow(r: Report, i: nat)
    requires i < |FindingsByProvider(r)|
    ensures |RowsOf(FindingsByProviderAndSeverity(r))| == |FindingsByProvider(r)|
    ensures RowsOf(FindingsByProviderAndSeverity(r))[i].provider == FindingsByProvider(r)[i].0
    ensures RowsOf(FindingsByProviderAndSeverity(r))[i].total == FindingsByProvider(r)[i].1
    ensures RowCounts(RowsOf(FindingsByProviderAndSeverity(r))[i], r.findings)
  {
    var fs := r.findings;
    var pairs := Pairs(fs);
    var ps := Providers(fs);
    var g := FindingsByProviderAndSeverity(r);
    var t := FindingsByProvider(r);
    GroupAllKeys(pairs);
    assert Keys(pairs) == ps;
    assert Keys(g) == Keys(t);
    CountAllKeys(ps);
    assert g[i].0 == t[i].0 by {
      assert Keys(g)[i] == Keys(t)[i];
    }
    var p := t[i].0;
    CountAllAt(ps, i);
    InnerOfAt(g, i);
    GroupAllInner(pairs, p);
    var sel := Select(pairs, p);
    var c := CountAll(sel);
    assert g[i].1 == c;
    CountAllKeys(sel);
    SelectLength(pairs, p);
    CountAllCounts(sel);
    SeverityPartition(sel);
    var row := RowsOf(g)[i];
    assert row == MakeRow(p, c);
    forall s ensures row.Column(s) == Count(pairs, (p, s)) {
      MakeRowColumn(p, c, s);
      CountSelect(pairs, p, s);
    }
  }

  /** Before sorting, the rows follow `findings_by_provider` entry by entry. */
  lemma {:induction false} UnsortedRows(r: Report)
    ensures |RowsOf(FindingsByProviderAndSeverity(r))| == |FindingsByProvider(r)|
    ensures forall i :: 0 <= i < |FindingsByProvider(r)| ==>
      && RowsOf(FindingsByProviderAndSeverity(r))[i].provider == FindingsByProvider(r)[i].0
      && RowsOf(FindingsByProviderAndSeverity(r))[i].total == FindingsByProvider(r)[i].1
      && RowCounts(RowsOf(FindingsByProviderAndSeverity(r))[i], r.findings)
  {
    GroupAllKeys(Pairs(r.findings));
    assert Keys(Pairs(r.findings)) == Providers(r.findings);
    forall i | 0 <= i < |FindingsByProvider(r)|
      ensures && RowsOf(FindingsByProviderAndSeverity(r))[i].provider == FindingsByProvider(r)[i].0
              && RowsOf(FindingsByProviderAndSeverity(r))[i].total == FindingsByProvider(r)[i].1
              && RowCounts(RowsOf(FindingsByProviderAndSeverity(r))[i], r.findings)
    {
      UnsortedRow(r, i);
    }
  }

  lemma {:induction false} SumTotalsOfCounts(rows: seq<Row>, t: Tally<string>)
    requires |rows| == |t| && forall i :: 0 <= i < |t| ==> rows[i].total == t[i].1
    ensures SumTotals(rows) == Sum(t)
  {
    if rows != [] {
      SumTotalsOfCounts(rows[1..], t[1..]);
    }
  }

  /** A sort keeps exactly the rows it was given. */
  lemma {:induction false} SortedMembers(rows: seq<Row>, x: Row)
    ensures x in SortByTotal(rows) <==> x in rows
  {
    assert x in SortByTotal(rows) <==> x in multiset(SortByTotal(rows));
  }

  /** Each row of `to_rows` is one of the unsorted rows. */
  lemma {:induction false} ToRowsFrom(r: Report, i: nat)
    requires i < |ToRows(r)|
    ensures exists k :: 0 <= k < |RowsOf(FindingsByProviderAndSeverity(r))| && ToRows(r)[i] == RowsOf(FindingsByProviderAndSeverity(r))[k]
  {
    var pre := RowsOf(FindingsByProviderAndSeverity(r));
    UnsortedRows(r);
    SortedMembers(pre, ToRows(r)[i]);
  }

  /** Each row of `to_rows` is right about its provider. */
  lemma {:induction false} ToRowsCounts(r: Report)
    ensures forall i :: 0 <= i < |ToRows(r)| ==> RowCounts(ToRows(r)[i], r.findings)
  {
    RowsLength(r);
    forall i | 0 <= i < |ToRows(r)| ensures RowCounts(ToRows(r)[i], r.findings) {
      ToRowsFrom(r, i);
      var k :| 0 <= k < |RowsOf(FindingsByProviderAndSeverity(r))| && ToRows(r)[i] == RowsOf(FindingsByProviderAndSeverity(r))[k];
      UnsortedRow(r, k);
    }
  }

  /** Every provider of the snapshot has a row. */
  lemma {:induction false} ToRowsCoverProviders(r: Report, p: string)
    requires p in Providers(r.findings)
    ensures p in RowProviders(ToRows(r))
  {
    var t := FindingsByProvider(r);
    var pre := RowsOf(FindingsByProviderAndSeverity(r));
    var rows := ToRows(r);
    ByProviderSpec(r);
    var k :| 0 <= k < |t| && Keys(t)[k] == p;
    UnsortedRow(r, k);
    SortedMembers(pre, pre[k]);
    var j :| 0 <= j < |rows| && rows[j] == pre[k];
    assert RowProviders(rows)[j] == p;
  }

  /**
   * `to_rows`: one row per provider of the snapshot, each provider once;
   * each row's Total is that provider's number of findings and each
   * severity column the number of its findings of that severity, so the
   * columns add up to the Total; the Totals add up to `total_findings`, and
   * an empty snapshot gives no rows.
   */
  lemma {:induction false} ToRowsContents(r: Report)
    ensures |ToRows(r)| == |FindingsByProvider(r)|
    ensures forall p :: p in RowProviders(ToRows(r)) <==> p in Providers(r.findings)
    ensures forall i :: 0 <= i < |ToRows(r)| ==> RowCounts(ToRows(r)[i], r.findings)
    ensures SumTotals(ToRows(r)) == TotalFindings(r)
    ensures ToRows(r) == [] <==> r.findings == []
  {
    RowsLength(r);
    ToRowsCounts(r);
    ToRowsTotal(r);
    forall p ensures p in RowProviders(ToRows(r)) <==> p in Providers(r.findings) {
      if p in Providers(r.findings) {
        ToRowsCoverProviders(r, p);
      }
      if p in RowProviders(ToRows(r)) {
        var j :| 0 <= j < |ToRows(r)| && RowProviders(ToRows(r))[j] == p;
        assert RowCounts(ToRows(r)[j], r.findings);
      }
    }
  }

  /** The Totals of `to_rows` add up to `total_findings`. */
  lemma {:induction false} ToRowsTotal(r: Report)
    ensures SumTotals(ToRows(r)) == TotalFindings(r)
  {
    var t := FindingsByProvider(r);
    var pre := RowsOf(FindingsByProviderAndSeverity(r));
    UnsortedRows(r);
    CountAllKeys(Providers(r.findings));
    SortByTotalSpec(pre);
    SumTotalsOfCounts(pre, t);
  }

  /**
   * `to_rows` orders the rows by Total, largest first, and rows with equal
   * Totals by where their provider first appears in the snapshot.
   */
  lemma {:induction false} ToRowsOrder(r: Report)
    ensures forall i, j :: 0 <= i < j < |ToRows(r)| ==>
      || ToRows(r)[i].total > ToRows(r)[j].total
      || (&& ToRows(r)[i].total == ToRows(r)[j].total
          && FirstIndex(Providers(r.findings), ToRows(r)[i].provider) < FirstIndex(Providers(r.findings), ToRows(r)[j].provider))
  {
    var ps := Providers(r.findings);
    var t := FindingsByProvider(r);
    var pre := RowsOf(FindingsByProviderAndSeverity(r));
    var rank := (row: Row) => FirstIndex(ps, row.provider);
    UnsortedRows(r);
    ByProviderSpec(r);
    SortRanked(pre, rank);
    assert Ranked(ToRows(r), rank);
  }

  /** No provider has two rows. */
  lemma {:induction false} ToRowsDistinct(r: Report)
    ensures Distinct(RowProviders(ToRows(r)))
  {
    var rows := ToRows(r);
    var pre := RowsOf(FindingsByProviderAndSeverity(r));
    var t := FindingsByProvider(r);
    ToRowsOrder(r);
    RowsLength(r);
    CountAllKeys(Providers(r.findings));
    forall i, j | 0 <= i < j < |rows| ensures rows[i].provider != rows[j].provider {
      ToRowsFrom(r, i);
      ToRowsFrom(r, j);
      var a :| 0 <= a < |pre| && rows[i] == pre[a];
      var b :| 0 <= b < |pre| && rows[j] == pre[b];
      UnsortedRow(r, a);
      UnsortedRow(r, b);
    }
  }
}
