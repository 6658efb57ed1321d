/** What a confirmed dialogue does to the views: the record it appends is counted by
    `/summary` under its own type and opens `/history`. */
module Flows {
  import opened Wrappers
  import opened Text
  import opened Decimal
  import opened Auth
  import opened Dialogue
  import opened Reports

  /** `row` is how the store lists the appended record `r`: the same columns, with the
      amount present. */
  predicate StoredAs(r: Record, row: Row) {
    r.amount == Some(row.amount)
    && row.date == r.date && row.timestamp == r.timestamp && row.kind == r.kind
    && row.returnAmount == r.returnAmount && row.status == r.status && row.notes == r.notes
  }

  /** Confirming a session that went through its amount and note steps adds the
      session's amount, read as a number, to the total of the session's type, leaves the
      other total alone, and moves the net by as much as the Invest total rises or the
      Return total falls. */
  lemma ConfirmedAmountCounted(m: Sessions, u: UserId, dateClock: string, stampClock: string, written: bool, rows: seq<Row>, row: Row)
    requires AllWellFormed(m) && u in m && m[u].step == AwaitConfirm
    requires StoredAs(Press(m, u, ConfirmYes, dateClock, stampClock, written).record.value, row)
    ensures
      var s, before, after := m[u], SummaryOf(rows), SummaryOf(rows + [row]);
      var v := DigitsValue(s.amount.value);
      match s.kind
      case Invest => after == Totals(before.invest + v, before.returned, before.net + v)
      case Return => after == Totals(before.invest, before.returned + v, before.net - v)
  {
    var s := m[u];
    assert row.amount == s.amount.value;
    assert "Invest" != "Return" by { assert "Invest"[0] != "Return"[0]; }
    SummaryOfAppend(rows, row);
  }

  /** The record a confirmation appends is the first line of the next history, dated
      with the day of the clock read for `Date` and shown as Pending. */
  lemma ConfirmedRecordHeadsHistory(m: Sessions, u: UserId, dateClock: string, stampClock: string, written: bool, rows: seq<Row>, row: Row)
    requires u in m
    requires StoredAs(Press(m, u, ConfirmYes, dateClock, stampClock, written).record.value, row)
    ensures
      var v := HistoryOf(rows + [row]);
      v.Listing? && v.lines[0] == Line(DatePart(dateClock), TypeName(m[u].kind), row.amount, "Pending")
  {
    NewestRowFirst(rows, row);
  }
}
