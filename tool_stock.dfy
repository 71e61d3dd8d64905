/** The stand-alone price tool: the last five rows of a month of history, one
    line each, joined by newlines. */
module ToolStock {
  import opened Text
  import opened Provider

  const NoDataFound := "Error: NO DATA FOUND"

  /** How many rows `history.tail(5)` keeps. */
  const Window := 5

  /** `rows.tail(n)`: the last n rows, or all of them when there are fewer. */
  function Tail(rows: seq<Row>, n: nat): (r: seq<Row>)
    ensures |r| == if |rows| < n then |rows| else n
  {
    rows[|rows| - (if |rows| < n then |rows| else n)..]
  }

  /** The line of one row. */
  function StockLine(r: Row): string {
    "Date: " + r.date + ", Close: $" + r.close
  }

  function StockLines(rows: seq<Row>): seq<string> {
    seq(|rows|, k requires 0 <= k < |rows| => StockLine(rows[k]))
  }

  /** The tool's outcome: the history call's exception (not caught here), the
      error text for an empty history, or the lines of the trailing window. */
  function StockText(history: Fetch<seq<Row>>): Fetch<string> {
    match history
    case Raised(m) => Raised(m)
    case Fetched(rows) =>
      if |rows| == 0 then Fetched(NoDataFound)
      else Fetched(Join(StockLines(Tail(rows, Window)), "\n"))
  }

  /** The price tool. */
  method GetStockData(history: Fetch<seq<Row>>) returns (r: Fetch<string>)
    ensures r == StockText(history)
    ensures history == Fetched([]) ==> r == Fetched(NoDataFound)
  {
    if history.Raised? {
      return Raised(history.message);
    }
    var rows := history.value;
    if |rows| == 0 {
      return Fetched(NoDataFound);
    }
    var recentData := Tail(rows, Window);
    var output: seq<string> := [];
    var i := 0;
    while i < |recentData|
      invariant 0 <= i <= |recentData|
      invariant output == StockLines(recentData[..i])
    {
      assert StockLines(recentData[..i + 1]) == StockLines(recentData[..i]) + [StockLine(recentData[i])];
      output := output + [StockLine(recentData[i])];
      i := i + 1;
    }
    assert recentData[..i] == recentData;
    r := Fetched(Join(output, "\n"));
  }

  lemma LineFree(r: Row)
    requires Free(r.date, '\n') && Free(r.close, '\n')
    ensures Free(StockLine(r), '\n')
  {
  }

  /** Joined lines of newline-free rows split back into those lines, with one
      newline between each two. */
  lemma JoinedLines(recent: seq<Row>)
    requires |recent| > 0
    requires forall k :: 0 <= k < |recent| ==> Free(recent[k].date, '\n') && Free(recent[k].close, '\n')
    ensures Split(Join(StockLines(recent), "\n"), '\n') == StockLines(recent)
    ensures Occurrences(Join(StockLines(recent), "\n"), '\n') == |recent| - 1
  {
    var lines := StockLines(recent);
    forall k | 0 <= k < |lines| ensures Free(lines[k], '\n') {
      LineFree(recent[k]);
    }
    SplitJoin(lines, '\n');
    JoinOccurrences(lines, '\n');
  }

  /** The window holds min(5, rows) lines, line k being the line of the k-th of
      the trailing rows, in their original order. */
  lemma WindowLines(rows: seq<Row>)
    ensures var n := if |rows| < Window then |rows| else Window;
      && |StockLines(Tail(rows, Window))| == n
      && forall k :: 0 <= k < n ==> StockLines(Tail(rows, Window))[k] == StockLine(rows[|rows| - n + k])
  {
  }

  /** For a non-empty history whose fields hold no newline, the text splits at
      newlines into exactly the lines of the trailing window, and it has one
      newline fewer than lines. */
  lemma TrailingLines(rows: seq<Row>)
    requires |rows| > 0
    requires forall k :: 0 <= k < |rows| ==> Free(rows[k].date, '\n') && Free(rows[k].close, '\n')
    ensures Split(StockText(Fetched(rows)).value, '\n') == StockLines(Tail(rows, Window))
    ensures Occurrences(StockText(Fetched(rows)).value, '\n') == |Tail(rows, Window)| - 1
  {
    var recent := Tail(rows, Window);
    assert StockText(Fetched(rows)).value == Join(StockLines(recent), "\n");
    JoinedLines(recent);
  }
}
