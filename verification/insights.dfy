/**
 * Threshold checks on the daily KPIs, each appending a fixed finding to the
 * report's insight list, with a "healthy" default when none fires.
 */
module Insights {
  import opened Kpis

  const FpyThreshold: real := 0.9
  const OeeThreshold: real := 0.75
  const ScrapLimit: int := 300

  const FpyWarning: string := "FPY dropped below 90%. Investigate welding."
  // The two sentences of the downtime warning.
  const OeeWarning: string := "OEE is below optimal." + " Check for downtime causes."
  const HealthyMessage: string := "All KPIs are within healthy range."

  /** The scrap finding names the most frequent defect type. */
  function ScrapWarning(topDefect: string): (m: string)
    ensures |m| == |topDefect| + 34 && m[0] == 'H'
    ensures m[33..|m| - 1] == topDefect
  {
    "High scrap detected. Top defect: " + topDefect + "."
  }

  predicate FpyLow(k: Summary) { k.avgFpy < FpyThreshold }
  predicate OeeLow(k: Summary) { k.avgOee < OeeThreshold }
  predicate ScrapHigh(k: Summary) { k.totalScrap > ScrapLimit }

  /**
   * Position of a message in the order the checks run: the three warnings,
   * then the healthy default; any other text comes last.
   */
  function CheckOrder(k: Summary, m: string): (position: nat) {
    if m == FpyWarning then 0
    else if m == OeeWarning then 1
    else if m == ScrapWarning(k.topDefect) then 2
    else if m == HealthyMessage then 3
    else 4
  }

  /**
   * Builds the insight list by appending one finding per tripped threshold,
   * then the healthy default if the list is still empty. Each warning is
   * present exactly when its strict comparison holds, every entry is one of
   * the four messages, entries follow the check order without repetition,
   * and the default is present exactly when no check fires, as the only
   * entry.
   */
  method BuildInsights(k: Summary) returns (summary: seq<string>)
    ensures 1 <= |summary| <= 3
    ensures FpyWarning in summary <==> FpyLow(k)
    ensures OeeWarning in summary <==> OeeLow(k)
    ensures ScrapWarning(k.topDefect) in summary <==> ScrapHigh(k)
    ensures HealthyMessage in summary <==> !FpyLow(k) && !OeeLow(k) && !ScrapHigh(k)
    ensures HealthyMessage in summary ==> summary == [HealthyMessage]
    ensures forall i :: 0 <= i < |summary| ==> CheckOrder(k, summary[i]) < 4
    ensures forall i, j :: 0 <= i < j < |summary| ==> CheckOrder(k, summary[i]) < CheckOrder(k, summary[j])
  {
    var scrap := ScrapWarning(k.topDefect);
    assert FpyWarning[0] == 'F' && OeeWarning[0] == 'O';
    assert HealthyMessage[0] == 'A';
    summary := [];
    if k.avgFpy < FpyThreshold {
      summary := summary + [FpyWarning];
    }
    if k.avgOee < OeeThreshold {
      summary := summary + [OeeWarning];
    }
    if k.totalScrap > ScrapLimit {
      summary := summary + [scrap];
    }
    if summary == [] {
      summary := summary + [HealthyMessage];
    }
  }
}
