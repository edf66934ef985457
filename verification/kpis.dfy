/**
 * Reducing the selected rows to the daily KPIs: total output, total scrap,
 * mean first-pass yield, mean equipment effectiveness and the most frequent
 * defect type.
 */
module Kpis {
  import opened Production
  import opened Outcomes

  /** Sum of the output column. */
  function TotalOutput(s: seq<Row>): (total: int) {
    if s == [] then 0 else s[0].output + TotalOutput(s[1..])
  }

  /** Sum of the scrap column. */
  function TotalScrap(s: seq<Row>): (total: int) {
    if s == [] then 0 else s[0].scrap + TotalScrap(s[1..])
  }

  /** Bounds every row obeys give bounds on the column sums, scaled by the row count. */
  lemma {:induction false} TotalsInRange(s: seq<Row>)
    requires Schema(s)
    ensures MinOutput * |s| <= TotalOutput(s) <= MaxOutput * |s|
    ensures MinScrap * |s| <= TotalScrap(s) <= MaxScrap * |s|
  {
    if s != [] {
      assert WellFormed(s[0]);
      TotalsInRange(s[1..]);
    }
  }

  function FpyColumn(s: seq<Row>): (c: seq<real>)
    ensures |c| == |s| && forall i :: 0 <= i < |s| ==> c[i] == s[i].fpy
  {
    seq(|s|, i requires 0 <= i < |s| => s[i].fpy)
  }

  function OeeColumn(s: seq<Row>): (c: seq<real>)
    ensures |c| == |s| && forall i :: 0 <= i < |s| ==> c[i] == s[i].oee
  {
    seq(|s|, i requires 0 <= i < |s| => s[i].oee)
  }

  function Sum(xs: seq<real>): (total: real) {
    if xs == [] then 0.0 else xs[0] + Sum(xs[1..])
  }

  /** Arithmetic mean of a non-empty column. */
  function Mean(xs: seq<real>): (mean: real)
    requires xs != []
  {
    Sum(xs) / (|xs| as real)
  }

  lemma {:induction false} SumInRange(xs: seq<real>, lo: real, hi: real)
    requires forall i :: 0 <= i < |xs| ==> lo <= xs[i] <= hi
    ensures lo * (|xs| as real) <= Sum(xs) <= hi * (|xs| as real)
  {
    if xs != [] {
      SumInRange(xs[1..], lo, hi);
      assert lo * (|xs| as real) == lo + lo * (|xs[1..]| as real);
      assert hi * (|xs| as real) == hi + hi * (|xs[1..]| as real);
    }
  }

  /**
   * The mean lies between any lower and upper bound of the column, in
   * particular between its minimum and its maximum.
   */
  lemma {:induction false} MeanInRange(xs: seq<real>, lo: real, hi: real)
    requires xs != []
    requires forall i :: 0 <= i < |xs| ==> lo <= xs[i] <= hi
    ensures lo <= Mean(xs) <= hi
  {
    SumInRange(xs, lo, hi);
    var n := |xs| as real;
    assert Mean(xs) * n == Sum(xs);
  }

  /** Number of rows reporting defect type `d`. */
  function Count(s: seq<Row>, d: string): (n: nat) {
    if s == [] then 0 else (if s[0].defect == d then 1 else 0) + Count(s[1..], d)
  }

  /** A defect type that never occurs has count zero. */
  lemma {:induction false} CountAbsent(s: seq<Row>, d: string)
    requires forall i :: 0 <= i < |s| ==> s[i].defect != d
    ensures Count(s, d) == 0
  {
    if s != [] {
      CountAbsent(s[1..], d);
    }
  }

  /** `d` occurs in the rows and no defect type occurs more often. */
  ghost predicate IsMode(s: seq<Row>, d: string) {
    && (exists i :: 0 <= i < |s| && s[i].defect == d)
    && forall x :: Count(s, x) <= Count(s, d)
  }

  /**
   * Scanning `s` from index `i`, the most frequent defect type so far; a
   * later type replaces `best` only when it occurs strictly more often.
   */
  function ModeFrom(s: seq<Row>, i: nat, best: string): (d: string)
    requires i <= |s|
    requires exists k :: 0 <= k < |s| && s[k].defect == best
    ensures exists k :: 0 <= k < |s| && s[k].defect == d
    ensures Count(s, best) <= Count(s, d)
    ensures forall k :: i <= k < |s| ==> Count(s, s[k].defect) <= Count(s, d)
    decreases |s| - i
  {
    if i == |s| then best
    else if Count(s, s[i].defect) > Count(s, best) then ModeFrom(s, i + 1, s[i].defect)
    else ModeFrom(s, i + 1, best)
  }

  /** The most frequent defect type of a non-empty selection. */
  function TopDefect(s: seq<Row>): (d: string)
    requires s != []
    ensures IsMode(s, d)
  {
    var d := ModeFrom(s, 1, s[0].defect);
    forall x ensures Count(s, x) <= Count(s, d) {
      if k :| 0 <= k < |s| && s[k].defect == x {
      } else {
        CountAbsent(s, x);
      }
    }
    d
  }

  /** The daily KPIs. */
  datatype Summary = Summary(
    totalOutput: int,
    totalScrap: int,
    avgFpy: real,
    avgOee: real,
    topDefect: string)

  /** Aggregation fails only on an empty selection, where no most frequent defect exists. */
  datatype AggregateError = EmptySelection

  function Aggregate(sel: seq<Row>): (r: Result<Summary, AggregateError>)
    ensures r.Ok? <==> sel != []
    ensures r.Ok? ==> IsMode(sel, r.value.topDefect)
  {
    if sel == [] then Err(EmptySelection)
    else Ok(Summary(
      TotalOutput(sel),
      TotalScrap(sel),
      Mean(FpyColumn(sel)),
      Mean(OeeColumn(sel)),
      TopDefect(sel)))
  }

  /**
   * On a well-formed selection of n rows the KPIs stay within the ranges the
   * rows are drawn from: output in [800n, 1199n], scrap in [20n, 49n], both
   * means within their column's range, and the top defect a known label.
   */
  lemma {:induction false} AggregateInRange(sel: seq<Row>)
    requires sel != [] && Schema(sel)
    ensures var k, n := Aggregate(sel).value, |sel|;
      && MinOutput * n <= k.totalOutput <= MaxOutput * n
      && MinScrap * n <= k.totalScrap <= MaxScrap * n
      && MinFpy <= k.avgFpy <= MaxFpy
      && MinOee <= k.avgOee <= MaxOee
      && k.topDefect in DefectLabels
  {
    TotalsInRange(sel);
    MeanInRange(FpyColumn(sel), MinFpy, MaxFpy);
    MeanInRange(OeeColumn(sel), MinOee, MaxOee);
    var k :| 0 <= k < |sel| && sel[k].defect == TopDefect(sel);
    assert WellFormed(sel[k]);
  }

  /** Scrap rate, the ratio of scrapped units to output. */
  function ScrapRate(k: Summary): (rate: real)
    requires k.totalOutput != 0
  {
    (k.totalScrap as real) / (k.totalOutput as real)
  }

  /** Dividing by a positive number preserves an upper and a lower bound. */
  lemma QuotientBounds(a: real, b: real, lo: real, hi: real)
    requires b > 0.0 && lo * b <= a <= hi * b
    ensures lo <= a / b <= hi
  {
  }

  /**
   * On a well-formed non-empty selection the output total is positive, so
   * the scrap rate is defined, and it lies in [20/1199, 49/800].
   */
  lemma {:induction false} ScrapRateInRange(sel: seq<Row>)
    requires sel != [] && Schema(sel)
    ensures Aggregate(sel).value.totalOutput > 0
    ensures var k := Aggregate(sel).value;
      (MinScrap as real) / (MaxOutput as real) <= ScrapRate(k) <= (MaxScrap as real) / (MinOutput as real)
  {
    AggregateInRange(sel);
    var k := Aggregate(sel).value;
    var n := |sel|;
    assert k.totalScrap * 800 <= 49 * k.totalOutput;
    assert 20 * k.totalOutput <= k.totalScrap * 1199;
    var s, o := k.totalScrap as real, k.totalOutput as real;
    QuotientBounds(s, o, 20.0 / 1199.0, 49.0 / 800.0);
  }
}
