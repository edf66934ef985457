/**
 * Picking the rows of one day: today's rows, or, when there are none, the
 * rows of the most recent day present in the table.
 */
module DaySelection {
  import opened Production
  import opened Sequences

  /** The rows dated `day`, in table order. */
  function RowsOn(table: seq<Row>, day: Day): (s: seq<Row>)
    ensures forall r :: multiset(s)[r] == if r.date == day then multiset(table)[r] else 0
    ensures forall r :: r in s <==> r in table && r.date == day
  {
    if table == [] then []
    else
      assert table == [table[0]] + table[1..];
      (if table[0].date == day then [table[0]] else []) + RowsOn(table[1..], day)
  }

  /** The rows dated `day` form an order-preserving subsequence of the table. */
  lemma {:induction false} RowsOnIsSubseq(table: seq<Row>, day: Day)
    ensures IsSubseq(RowsOn(table, day), table)
  {
    if table != [] {
      RowsOnIsSubseq(table[1..], day);
      var rest := RowsOn(table[1..], day);
      if table[0].date == day {
        assert RowsOn(table, day) == [table[0]] + rest;
        assert ([table[0]] + rest)[1..] == rest;
      } else {
        assert RowsOn(table, day) == rest;
        if rest != [] {
          assert IsSubseq(rest, table[1..]);
        }
      }
    }
  }

  /** The latest date in a non-empty table. */
  function MaxDate(table: seq<Row>): (m: Day)
    requires table != []
    ensures exists r :: r in table && r.date == m
    ensures forall r :: r in table ==> r.date <= m
  {
    if |table| == 1 then table[0].date
    else
      var rest := MaxDate(table[1..]);
      assert forall r :: r in table[1..] ==> r in table;
      assert forall r :: r in table ==> r == table[0] || r in table[1..];
      if table[0].date >= rest then table[0].date else rest
  }

  /** True when some row of the table is dated `day`. */
  predicate HasDay(table: seq<Row>, day: Day) {
    exists r :: r in table && r.date == day
  }

  /**
   * The rows of `today`; when none exist, the rows of the latest date. An
   * empty table leaves the selection empty.
   */
  function SelectDay(table: seq<Row>, today: Day): (sel: seq<Row>)
    ensures HasDay(table, today) ==> sel == RowsOn(table, today)
    ensures !HasDay(table, today) && table != [] ==> sel == RowsOn(table, MaxDate(table))
    ensures sel != [] <==> table != []
    ensures forall i, j :: 0 <= i < |sel| && 0 <= j < |sel| ==> sel[i].date == sel[j].date
  {
    var todays := RowsOn(table, today);
    if todays != [] then
      assert todays[0] in todays;
      SameDay(todays, today);
      todays
    else if table == [] then []
    else
      var latest := MaxDate(table);
      var rows := RowsOn(table, latest);
      assert HasDay(table, latest);
      SameDay(rows, latest);
      rows
  }

  /** Every row of `s` is dated `day`, so any two rows share a date. */
  lemma SameDay(s: seq<Row>, day: Day)
    requires forall r :: r in s ==> r.date == day
    ensures forall i, j :: 0 <= i < |s| && 0 <= j < |s| ==> s[i].date == s[j].date
  {
  }

  /** The day the selection falls on: `today` if present, otherwise the latest date. */
  function SelectedDay(table: seq<Row>, today: Day): (d: Day)
    requires table != []
    ensures HasDay(table, d)
    ensures HasDay(table, today) ==> d == today
    ensures !HasDay(table, today) ==> forall r :: r in table ==> r.date <= d
  {
    if HasDay(table, today) then today else MaxDate(table)
  }

  /**
   * The selection is exactly the rows of the selected day: an order-preserving
   * subsequence of the table holding every row of that day, with its
   * multiplicity, and no other row.
   */
  lemma {:induction false} SelectionIsDay(table: seq<Row>, today: Day)
    requires table != []
    ensures var sel, d := SelectDay(table, today), SelectedDay(table, today);
      && IsSubseq(sel, table)
      && (forall r :: multiset(sel)[r] == if r.date == d then multiset(table)[r] else 0)
      && (forall r :: r in sel ==> r.date == d)
  {
    RowsOnIsSubseq(table, SelectedDay(table, today));
  }

  /** A selection of a well-formed table is itself well-formed. */
  lemma {:induction false} SelectionSchema(table: seq<Row>, today: Day)
    requires Schema(table)
    ensures Schema(SelectDay(table, today))
  {
  }
}
