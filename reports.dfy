/** The two read-only views over the list of rows fetched from the store: `/summary`
    (per-type totals and their difference) and `/history` (the ten most recent rows,
    newest first). */
module Reports {
  import opened Text
  import opened Decimal

  /** One row as the store lists it: every column is a string. */
  datatype Row = Row(
    date: string,
    timestamp: string,
    kind: string,
    amount: string,
    returnAmount: string,
    status: string,
    notes: string)

  /** `Number(t.Amount)` on the amounts the bot writes: a digit string is its decimal value.
      Other strings count as 0. */
  function NumberOf(s: string): int {
    if IsDigits(s) then DigitsValue(s) else 0
  }

  /** The sum of `Number(t.Amount)` over the rows whose `Type` is exactly `kind`. With
      amounts read as digit strings no total is negative. */
  function TypeTotal(rows: seq<Row>, kind: string): (t: int)
    ensures t >= 0
    decreases |rows|
  {
    if rows == [] then 0
    else (if rows[0].kind == kind then NumberOf(rows[0].amount) else 0) + TypeTotal(rows[1..], kind)
  }

  /** The total of a concatenation is the sum of the totals. */
  lemma {:induction false} TypeTotalAppend(a: seq<Row>, b: seq<Row>, kind: string)
    ensures TypeTotal(a + b, kind) == TypeTotal(a, kind) + TypeTotal(b, kind)
    decreases |a|
  {
    if a != [] {
      assert (a + b)[1..] == a[1..] + b;
      TypeTotalAppend(a[1..], b, kind);
    } else {
      assert a + b == b;
    }
  }

  datatype Totals = Totals(invest: int, returned: int, net: int)

  /** `/summary`: the Invest total, the Return total and their difference. */
  function SummaryOf(rows: seq<Row>): (t: Totals)
    ensures t.invest == TypeTotal(rows, "Invest") && t.returned == TypeTotal(rows, "Return")
    ensures t.net == t.invest - t.returned
    ensures rows == [] ==> t == Totals(0, 0, 0)
  {
    var invest := TypeTotal(rows, "Invest");
    var returned := TypeTotal(rows, "Return");
    Totals(invest, returned, invest - returned)
  }

  /** The `forEach` loop of `/summary`, accumulating both totals in one pass. */
  method Summarize(rows: seq<Row>) returns (t: Totals)
    ensures t == SummaryOf(rows)
  {
    var investTotal := 0;
    var returnTotal := 0;
    for i := 0 to |rows|
      invariant investTotal == TypeTotal(rows[..i], "Invest")
      invariant returnTotal == TypeTotal(rows[..i], "Return")
    {
      var row := rows[i];
      assert rows[..i + 1] == rows[..i] + [row];
      TypeTotalAppend(rows[..i], [row], "Invest");
      TypeTotalAppend(rows[..i], [row], "Return");
      if row.kind == "Invest" { investTotal := investTotal + NumberOf(row.amount); }
      if row.kind == "Return" { returnTotal := returnTotal + NumberOf(row.amount); }
    }
    assert rows[..|rows|] == rows;
    t := Totals(investTotal, returnTotal, investTotal - returnTotal);
  }

  /** A row whose type is neither "Invest" nor "Return" changes no total, wherever it stands. */
  lemma OtherTypesIgnored(a: seq<Row>, row: Row, b: seq<Row>)
    requires row.kind != "Invest" && row.kind != "Return"
    ensures SummaryOf(a + [row] + b) == SummaryOf(a + b)
  {
    TypeTotalAppend(a + [row], b, "Invest");
    TypeTotalAppend(a + [row], b, "Return");
    TypeTotalAppend(a, [row], "Invest");
    TypeTotalAppend(a, [row], "Return");
    TypeTotalAppend(a, b, "Invest");
    TypeTotalAppend(a, b, "Return");
  }

  /** Appending one row adds its amount to the total of its own type and to no other. */
  lemma SummaryOfAppend(rows: seq<Row>, row: Row)
    ensures var before, after := SummaryOf(rows), SummaryOf(rows + [row]);
      after.invest == before.invest + (if row.kind == "Invest" then NumberOf(row.amount) else 0)
      && after.returned == before.returned + (if row.kind == "Return" then NumberOf(row.amount) else 0)
  {
    TypeTotalAppend(rows, [row], "Invest");
    TypeTotalAppend(rows, [row], "Return");
  }

  /** Summary totals do not depend on the order of the rows: swapping two neighbours keeps them. */
  lemma SummarySwap(a: seq<Row>, x: Row, y: Row, b: seq<Row>)
    ensures SummaryOf(a + [x, y] + b) == SummaryOf(a + [y, x] + b)
  {
    forall kind | kind == "Invest" || kind == "Return"
      ensures TypeTotal(a + [x, y] + b, kind) == TypeTotal(a + [y, x] + b, kind)
    {
      TypeTotalAppend(a + [x, y], b, kind);
      TypeTotalAppend(a + [y, x], b, kind);
      TypeTotalAppend(a, [x, y], kind);
      TypeTotalAppend(a, [y, x], kind);
      assert [x, y] == [x] + [y] && [y, x] == [y] + [x];
      TypeTotalAppend([x], [y], kind);
      TypeTotalAppend([y], [x], kind);
    }
  }

  lemma ExampleAmounts()
    ensures NumberOf("300") == 300 && NumberOf("100") == 100 && NumberOf("200") == 200
  {
    assert "300"[..2] == "30" && "30"[..1] == "3" && "3"[..0] == [];
    assert "100"[..2] == "10" && "10"[..1] == "1" && "1"[..0] == [];
    assert "200"[..2] == "20" && "20"[..1] == "2" && "2"[..0] == [];
  }

  /** Invest 300, Return 100, Invest 200 give 500 invested, 100 returned, 400 net. */
  lemma SummaryExample(x: Row, y: Row, z: Row)
    requires x.kind == "Invest" && x.amount == "300"
    requires y.kind == "Return" && y.amount == "100"
    requires z.kind == "Invest" && z.amount == "200"
    ensures SummaryOf([x, y, z]) == Totals(500, 100, 400)
  {
    ExampleAmounts();
    assert [x, y, z][1..] == [y, z] && [y, z][1..] == [z] && [z][1..] == [];
    assert "Invest" != "Return" by { assert "Invest"[0] != "Return"[0]; }
    assert z.kind != "Return";
    assert TypeTotal([z][1..], "Invest") == 0 && TypeTotal([z][1..], "Return") == 0;
    assert TypeTotal([z], "Invest") == 200 && TypeTotal([z], "Return") == 0;
    assert TypeTotal([y, z], "Invest") == 200 && TypeTotal([y, z], "Return") == 100;
    assert TypeTotal([x, y, z], "Invest") == 500 && TypeTotal([x, y, z], "Return") == 100;
  }

  /** The maximum number of rows `/history` shows. */
  const HistoryLimit: nat := 10

  /** `rows.slice(-n)` for a positive `n`: the last `n` rows, or all of them when there are fewer. */
  function LastN(rows: seq<Row>, n: nat): (r: seq<Row>)
    requires n > 0
    ensures |r| == if |rows| < n then |rows| else n
    ensures r == rows[|rows| - |r|..]
  {
    if |rows| <= n then rows else rows[|rows| - n..]
  }

  /** `Array.prototype.reverse`. */
  function Reverse(s: seq<Row>): (r: seq<Row>)
    ensures |r| == |s|
    ensures forall k :: 0 <= k < |s| ==> r[k] == s[|s| - 1 - k]
    decreases |s|
  {
    if s == [] then [] else Reverse(s[1..]) + [s[0]]
  }

  /** One history line: `date | type | amount | status`. */
  datatype Line = Line(date: string, kind: string, amount: string, status: string)

  function LineOf(row: Row): Line {
    Line(row.date, row.kind, row.amount, row.status)
  }

  datatype HistoryView = NoTransactions | Listing(lines: seq<Line>)

  /** `/history`: "No transactions found" for no rows; otherwise a line for each of the
      last `HistoryLimit` rows, the most recent first. */
  function HistoryOf(rows: seq<Row>): (v: HistoryView)
    ensures v.NoTransactions? <==> rows == []
    ensures v.Listing? ==>
      |v.lines| == (if |rows| < HistoryLimit then |rows| else HistoryLimit)
      && forall k :: 0 <= k < |v.lines| ==> v.lines[k] == LineOf(rows[|rows| - 1 - k])
  {
    if rows == [] then NoTransactions
    else
      var recent := Reverse(LastN(rows, HistoryLimit));
      Listing(seq(|recent|, k requires 0 <= k < |recent| => LineOf(recent[k])))
  }

  /** The loop of `/history` that appends one line per row of the reversed slice. */
  method RenderHistory(rows: seq<Row>) returns (v: HistoryView)
    ensures v == HistoryOf(rows)
  {
    if |rows| == 0 {
      return NoTransactions;
    }
    var recent := Reverse(LastN(rows, HistoryLimit));
    var lines: seq<Line> := [];
    for i := 0 to |recent|
      invariant |lines| == i
      invariant forall k :: 0 <= k < i ==> lines[k] == LineOf(recent[k])
    {
      lines := lines + [LineOf(recent[i])];
    }
    v := Listing(lines);
  }

  /** Only the last `HistoryLimit` rows matter to the history. */
  lemma HistoryKeepsLastRows(rows: seq<Row>)
    requires |rows| > HistoryLimit
    ensures HistoryOf(rows) == HistoryOf(rows[|rows| - HistoryLimit..])
  {
    var tail := rows[|rows| - HistoryLimit..];
    var v, w := HistoryOf(rows), HistoryOf(tail);
    assert |v.lines| == |w.lines|;
    forall k | 0 <= k < |v.lines| ensures v.lines[k] == w.lines[k] {
      assert tail[|tail| - 1 - k] == rows[|rows| - 1 - k];
    }
  }

  /** The row appended last opens the history. */
  lemma NewestRowFirst(rows: seq<Row>, row: Row)
    ensures HistoryOf(rows + [row]).Listing? && HistoryOf(rows + [row]).lines[0] == LineOf(row)
  {
    var v := HistoryOf(rows + [row]);
    assert (rows + [row])[|rows|] == row;
  }
}
