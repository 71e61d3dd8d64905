/** The command-line prototype: a price tool and a news tool that turn every
    failure into text, and the report prompt built from their two outputs. */
module App {
  import opened Text
  import opened Provider

  const NoPriceData := "No price data available."
  const StockErrorPrefix := "Error getting stock data: "
  const NewsErrorPrefix := "Error getting news: "
  const PriceHeader := "Recent Price History:\n"
  const NewsHeader := "Recent News Sources:\n"

  /** The history line of one row, without its newline. */
  function PriceEntry(r: Row): string {
    "- " + r.date + ": $" + r.close
  }

  function PriceLines(rows: seq<Row>): seq<string> {
    seq(|rows|, k requires 0 <= k < |rows| => PriceEntry(rows[k]) + "\n")
  }

  /** What the price tool returns for the outcome of its history call. */
  function StockReport(history: Fetch<seq<Row>>): string {
    match history
    case Raised(m) => StockErrorPrefix + m
    case Fetched(rows) =>
      if |rows| == 0 then NoPriceData else PriceHeader + Concat(PriceLines(rows))
  }

  /** The price tool: a header and one line per row, appended in row order; an
      empty history or a raised exception becomes a message instead. */
  method GetStockData(history: Fetch<seq<Row>>) returns (s: string)
    ensures s == StockReport(history)
    ensures history.Raised? ==> s == StockErrorPrefix + history.message
    ensures history == Fetched([]) ==> s == NoPriceData
  {
    if history.Raised? {
      return StockErrorPrefix + history.message;
    }
    var hist := history.value;
    if |hist| == 0 {
      return NoPriceData;
    }
    s := PriceHeader;
    var i := 0;
    while i < |hist|
      invariant 0 <= i <= |hist|
      invariant s == PriceHeader + Concat(PriceLines(hist[..i]))
    {
      assert PriceLines(hist[..i + 1]) == PriceLines(hist[..i]) + [PriceEntry(hist[i]) + "\n"];
      ConcatSnoc(PriceLines(hist[..i]), PriceEntry(hist[i]) + "\n");
      s := s + PriceEntry(hist[i]) + "\n";
      i := i + 1;
    }
    assert hist[..i] == hist;
  }

  /** When no field holds a newline, the lines of a non-empty history's text are
      the header and then one "- date: $close" line per row, in row order, each
      ended by a newline. */
  lemma StockReportLines(rows: seq<Row>)
    requires |rows| > 0
    requires forall k :: 0 <= k < |rows| ==> Free(rows[k].date, '\n') && Free(rows[k].close, '\n')
    ensures Split(StockReport(Fetched(rows)), '\n') ==
      ["Recent Price History:"] + seq(|rows|, k requires 0 <= k < |rows| => PriceEntry(rows[k])) + [""]
  {
    var entries := seq(|rows|, k requires 0 <= k < |rows| => PriceEntry(rows[k]));
    var xs := ["Recent Price History:"] + entries;
    ConcatLines(entries);
    assert PriceLines(rows) == seq(|entries|, k requires 0 <= k < |entries| => entries[k] + "\n");
    assert xs[1..] == entries;
    assert Lines(xs) == PriceHeader + Lines(entries);
    forall i | 0 <= i < |xs| ensures Free(xs[i], '\n') {
      if i > 0 {
        assert xs[i] == "- " + rows[i - 1].date + ": $" + rows[i - 1].close;
      }
    }
    SplitLines(xs);
  }

  /** The block of the result with ordinal `i`: its source line, its URL line
      and its snippet line, then an empty line. */
  function NewsBlock(i: nat, r: SearchResult): string {
    ("Source " + Label(i) + ": " + r.title + "\n") + ("URL: " + r.url + "\n") + ("Snippet: " + r.content + "\n\n")
  }

  function NewsBlocks(rs: seq<SearchResult>): seq<string> {
    seq(|rs|, k requires 0 <= k < |rs| => NewsBlock(k + 1, rs[k]))
  }

  /** What the news tool returns for the outcome of its search call. */
  function NewsReport(search: Fetch<seq<SearchResult>>): string {
    match search
    case Raised(m) => NewsErrorPrefix + m
    case Fetched(rs) => NewsHeader + Concat(NewsBlocks(rs))
  }

  /** The news tool: a header and one numbered block per result, in result
      order; a raised exception becomes a message instead. */
  method GetMarketNews(search: Fetch<seq<SearchResult>>) returns (s: string)
    ensures s == NewsReport(search)
    ensures search.Raised? ==> s == NewsErrorPrefix + search.message
  {
    if search.Raised? {
      return NewsErrorPrefix + search.message;
    }
    var results := search.value;
    s := NewsHeader;
    var i := 0;
    while i < |results|
      invariant 0 <= i <= |results|
      invariant s == NewsHeader + Concat(NewsBlocks(results[..i]))
    {
      var result := results[i];
      NewsStep(results, i);
      ghost var before := s;
      var source, url, snippet := "Source " + Label(i + 1) + ": " + result.title + "\n",
        "URL: " + result.url + "\n", "Snippet: " + result.content + "\n\n";
      s := s + source;
      s := s + url;
      s := s + snippet;
      Assoc(before, source, url);
      Assoc(before, source + url, snippet);
      i := i + 1;
    }
    assert results[..i] == results;
  }

  lemma NewsStep(results: seq<SearchResult>, i: nat)
    requires i < |results|
    ensures NewsHeader + Concat(NewsBlocks(results[..i + 1])) ==
      NewsHeader + Concat(NewsBlocks(results[..i])) + NewsBlock(i + 1, results[i])
  {
    assert NewsBlocks(results[..i + 1]) == NewsBlocks(results[..i]) + [NewsBlock(i + 1, results[i])];
    ConcatSnoc(NewsBlocks(results[..i]), NewsBlock(i + 1, results[i]));
  }

  /** In the text of a successful search, block k (with ordinal k and the k-th
      result) comes after the header and the blocks of the earlier results, and
      before the blocks of the later ones. */
  lemma NewsReportBlocks(rs: seq<SearchResult>, k: nat)
    requires 1 <= k <= |rs|
    ensures NewsReport(Fetched(rs)) ==
      NewsHeader + Concat(NewsBlocks(rs[..k - 1])) + NewsBlock(k, rs[k - 1])
        + Concat(NewsBlocks(rs)[k..])
  {
    var blocks := NewsBlocks(rs);
    ConcatAt(blocks, k - 1);
    assert blocks[..k - 1] == NewsBlocks(rs[..k - 1]);
    assert blocks[k - 1] == NewsBlock(k, rs[k - 1]);
    assert NewsReport(Fetched(rs)) == NewsHeader + Concat(blocks);
    var a, b, c := Concat(blocks[..k - 1]), blocks[k - 1], Concat(blocks[k..]);
    Assoc(NewsHeader, a + b, c);
    Assoc(NewsHeader, a, b);
  }

  /** No results: the header alone. */
  lemma NoResultsHeaderOnly(rs: seq<SearchResult>)
    requires rs == []
    ensures NewsReport(Fetched(rs)) == "Recent News Sources:\n"
  {
    assert NewsBlocks(rs) == [];
  }

  /** The search query the report asks for. */
  function NewsQuery(ticker: string): (q: string)
    ensures |q| == |ticker| + 27
    ensures q[..7] == "Why is " && q[7..7 + |ticker|] == ticker
    ensures q[7 + |ticker|..] == " stock moving today?"
  {
    "Why is " + ticker + " stock moving today?"
  }

  /** The user prompt of the report, with the template's indentation. */
  function UserPrompt(priceData: string, newsData: string, ticker: string): string {
    "\n    DATA:\n    " + priceData + "\n    \n    NEWS:\n    " + newsData
      + "\n    \n    Task: Analyze " + ticker + ".\n    "
  }

  /** The price data comes first in the prompt, the news data after it, and the
      ticker last. */
  lemma PromptOrder(priceData: string, newsData: string, ticker: string)
    ensures var p, i := UserPrompt(priceData, newsData, ticker), 15;
      var j := i + |priceData| + 20;
      var t := j + |newsData| + 24;
      && |p| == t + |ticker| + 6
      && p[i..i + |priceData|] == priceData
      && p[j..j + |newsData|] == newsData
      && p[t..t + |ticker|] == ticker
  {
  }

  /** What `generate_report` sends out: the news query to the search service,
      and, to the generation backend, the prompt built from the two tools'
      texts. `history` and `search` are what those services return. */
  method GenerateReport(ticker: string, history: Fetch<seq<Row>>, search: Fetch<seq<SearchResult>>)
    returns (query: string, prompt: string)
    ensures query == NewsQuery(ticker)
    ensures prompt == UserPrompt(StockReport(history), NewsReport(search), ticker)
  {
    var priceData := GetStockData(history);
    query := NewsQuery(ticker);
    var newsData := GetMarketNews(search);
    prompt := UserPrompt(priceData, newsData, ticker);
  }
}
