/**
 * The production table: one record per calendar day and shift, with the
 * value ranges the data source draws from.
 */
module Production {

  /** A calendar day, as a day number; only equality and maximum are used. */
  type Day = int

  /** One row of the production table. */
  datatype Row = Row(
    date: Day,
    shift: string,
    output: int,
    scrap: int,
    fpy: real,
    oee: real,
    defect: string)

  const ShiftLabels: set<string> := {"Shift 1", "Shift 2", "Shift 3"}
  const DefectLabels: set<string> := {"Weld Fail", "Crack", "Missing Tab", "Bent Pin"}

  /** Output is drawn from 800..1199 (the upper bound 1200 is exclusive). */
  const MinOutput: int := 800
  const MaxOutput: int := 1199
  /** Scrap is drawn from 20..49 (the upper bound 50 is exclusive). */
  const MinScrap: int := 20
  const MaxScrap: int := 49
  /** First-pass yield is drawn from [0.85, 0.99]. */
  const MinFpy: real := 0.85
  const MaxFpy: real := 0.99
  /** Overall equipment effectiveness is drawn from [0.65, 0.9]. */
  const MinOee: real := 0.65
  const MaxOee: real := 0.9

  /** A row whose fields lie in the ranges and label sets the data source uses. */
  predicate WellFormed(r: Row) {
    && r.shift in ShiftLabels
    && MinOutput <= r.output <= MaxOutput
    && MinScrap <= r.scrap <= MaxScrap
    && MinFpy <= r.fpy <= MaxFpy
    && MinOee <= r.oee <= MaxOee
    && r.defect in DefectLabels
  }

  /** Every row of the table respects the schema. */
  predicate Schema(table: seq<Row>) {
    forall i :: 0 <= i < |table| ==> WellFormed(table[i])
  }
}
