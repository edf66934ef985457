/**
 * The report pipeline up to the page layout: select the day, aggregate the
 * KPIs and generate the insights.
 */
module Report {
  import opened Production
  import opened Outcomes
  import opened DaySelection
  import opened Kpis
  import opened Insights

  /** The figures and findings the report page is drawn from. */
  datatype DailyReport = DailyReport(
    kpis: Summary,
    insights: seq<string>)

  /**
   * Runs the pipeline on the production table with `today` given. It fails
   * exactly when the table is empty; otherwise the KPIs are those of the
   * selected day, the insight list is the one the threshold checks build
   * and, on a well-formed table, the output total is positive so the scrap
   * rate is defined and bounded.
   */
  method GenerateReport(table: seq<Row>, today: Day) returns (r: Result<DailyReport, AggregateError>)
    ensures r.Ok? <==> table != []
    ensures r.Ok? ==> Aggregate(SelectDay(table, today)) == Ok(r.value.kpis)
    ensures r.Ok? ==> var k, summary := r.value.kpis, r.value.insights;
      && 1 <= |summary| <= 3
      && (FpyWarning in summary <==> FpyLow(k))
      && (OeeWarning in summary <==> OeeLow(k))
      && (ScrapWarning(k.topDefect) in summary <==> ScrapHigh(k))
      && (HealthyMessage in summary <==> !FpyLow(k) && !OeeLow(k) && !ScrapHigh(k))
      && (HealthyMessage in summary ==> summary == [HealthyMessage])
      && (forall i :: 0 <= i < |summary| ==> CheckOrder(k, summary[i]) < 4)
      && (forall i, j :: 0 <= i < j < |summary| ==> CheckOrder(k, summary[i]) < CheckOrder(k, summary[j]))
    ensures r.Ok? && Schema(table) ==>
      && r.value.kpis.totalOutput > 0
      && (MinScrap as real) / (MaxOutput as real) <= ScrapRate(r.value.kpis) <= (MaxScrap as real) / (MinOutput as real)
  {
    var selection := SelectDay(table, today);
    var kpis := Aggregate(selection);
    if kpis.Err? {
      return Err(kpis.error);
    }
    var k := kpis.value;
    if Schema(table) {
      SelectionSchema(table, today);
      ScrapRateInRange(selection);
    }
    var summary := BuildInsights(k);
    r := Ok(DailyReport(k, summary));
  }
}
