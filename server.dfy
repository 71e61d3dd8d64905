/** The streaming analysis endpoint: both feeds are fetched, a metadata frame is
    sent, then the generation backend's deltas are relayed one frame each, and any
    exception ends the stream with one error frame. */
module Server {
  import opened Text
  import opened Provider

  /** One citation entry of the metadata frame: a 1-based ordinal, title and url. */
  datatype Source = Source(id: nat, title: string, url: string)

  /** What the news coroutine returns: the numbered context and its sources. */
  datatype News = News(context: string, sources: seq<Source>)

  /** The three kinds of NDJSON message the endpoint writes. */
  datatype Frame =
    | Usage(ticker: string, priceData: string, sources: seq<Source>)
    | Content(delta: string)
    | Error(message: string)

  /** The placeholder sent instead of technicals when the price history is empty. */
  const NoData := "No data."

  /** What pandas raises when `iloc[-2]` is read on a one-row series. */
  const IndexOutOfBounds := "single positional indexer is out-of-bounds"

  /** The `:.2f` renderings of the latest close, the percent change and the RSI,
      as the floating-point code computes them; `rsi` is None when that value is NaN. */
  datatype Technicals = Technicals(current: string, change: string, rsi: Option<string>)

  /** The technicals text; a NaN RSI is replaced by 0.0, which renders as "0.00". */
  function TechnicalsText(t: Technicals): string {
    "Price: $" + t.current + "\nChange: " + t.change + "%\nRSI: "
      + (match t.rsi case Some(v) => v case None => "0.00")
  }

  /** The price coroutine once its history fetch has finished: an empty history
      gives the placeholder, a one-row history raises when the previous close is
      read, and a longer one gives the technicals text. */
  function StockData(history: Fetch<seq<Row>>, t: Technicals): (r: Fetch<string>)
    ensures r.Raised? <==> history.Raised? || |history.value| == 1
    ensures history.Raised? ==> r == Raised(history.message)
    ensures history == Fetched([]) ==> r == Fetched(NoData)
    ensures history.Fetched? && |history.value| >= 2 ==> r == Fetched(TechnicalsText(t))
  {
    match history
    case Raised(m) => Raised(m)
    case Fetched(rows) =>
      if |rows| == 0 then Fetched(NoData)
      else if |rows| == 1 then Raised(IndexOutOfBounds)
      else Fetched(TechnicalsText(t))
  }

  /** The context line of the result with ordinal `i`. */
  function NewsLine(i: nat, r: SearchResult): string {
    Label(i) + " " + r.title + ": " + r.content + "\n"
  }

  function NewsLines(rs: seq<SearchResult>): seq<string> {
    seq(|rs|, k requires 0 <= k < |rs| => NewsLine(k + 1, rs[k]))
  }

  function NewsContext(rs: seq<SearchResult>): string {
    Concat(NewsLines(rs))
  }

  function NewsSources(rs: seq<SearchResult>): seq<Source> {
    seq(|rs|, k requires 0 <= k < |rs| => Source(k + 1, rs[k].title, rs[k].url))
  }

  /** The news coroutine, on the outcome of its search call. */
  function NewsOutcome(response: Fetch<seq<SearchResult>>): Fetch<News> {
    match response
    case Raised(m) => Raised(m)
    case Fetched(rs) => Fetched(News(NewsContext(rs), NewsSources(rs)))
  }

  /** The news coroutine: one context line and one source per search result,
      numbered from 1 in the order the search returned them. */
  method GetNewsAsync(response: Fetch<seq<SearchResult>>) returns (r: Fetch<News>)
    ensures r == NewsOutcome(response)
  {
    if response.Raised? {
      return Raised(response.message);
    }
    var results := response.value;
    var context := "";
    var sources: seq<Source> := [];
    var i := 0;
    while i < |results|
      invariant 0 <= i <= |results|
      invariant context == NewsContext(results[..i])
      invariant sources == NewsSources(results[..i])
    {
      var res := results[i];
      assert NewsLines(results[..i + 1]) == NewsLines(results[..i]) + [NewsLine(i + 1, res)];
      ConcatSnoc(NewsLines(results[..i]), NewsLine(i + 1, res));
      context := context + NewsLine(i + 1, res);
      sources := sources + [Source(i + 1, res.title, res.url)];
      i := i + 1;
    }
    assert results[..i] == results;
    r := Fetched(News(context, sources));
  }

  /** There is one source per result, entry k carrying ordinal k + 1 and the k-th
      result's title and url; the ordinals are exactly 1..N, each used once. */
  lemma SourcesNumbered(rs: seq<SearchResult>)
    ensures |NewsSources(rs)| == |rs|
    ensures forall k :: 0 <= k < |rs| ==>
      NewsSources(rs)[k] == Source(k + 1, rs[k].title, rs[k].url)
    ensures Ids(NewsSources(rs)) == seq(|rs|, k => k + 1)
    ensures forall j, k :: 0 <= j < k < |rs| ==> NewsSources(rs)[j].id != NewsSources(rs)[k].id
  {
  }

  /** The ordinals of a source list, in list order. */
  function Ids(sources: seq<Source>): seq<nat> {
    seq(|sources|, k requires 0 <= k < |sources| => sources[k].id)
  }

  /** No results: an empty context and no sources. */
  lemma NoResultsNoContext(rs: seq<SearchResult>)
    requires rs == []
    ensures NewsOutcome(Fetched(rs)) == Fetched(News("", []))
  {
    assert NewsLines(rs) == [];
    assert NewsSources(rs) == [];
  }

  /** Citation `[k]` resolves to the k-th result: the context is the lines before
      it, then the line that starts with `[k]` and holds the k-th title and content,
      then the lines after it; source k - 1 is that result with ordinal k; and no
      other line starts with `[k]`. */
  lemma CitationResolves(rs: seq<SearchResult>, k: nat)
    requires 1 <= k <= |rs|
    ensures NewsContext(rs) ==
      NewsContext(rs[..k - 1]) + Label(k) + " " + rs[k - 1].title + ": " + rs[k - 1].content + "\n"
        + Concat(NewsLines(rs)[k..])
    ensures NewsSources(rs)[k - 1] == Source(k, rs[k - 1].title, rs[k - 1].url)
    ensures forall j :: 0 <= j < |rs| && j != k - 1 ==>
      !(|Label(k)| <= |NewsLines(rs)[j]| && NewsLines(rs)[j][..|Label(k)|] == Label(k))
  {
    var lines, r := NewsLines(rs), rs[k - 1];
    var pre, post := NewsContext(rs[..k - 1]), Concat(lines[k..]);
    assert NewsContext(rs) == pre + NewsLine(k, r) + post by {
      ConcatAt(lines, k - 1);
      assert lines[..k - 1] == NewsLines(rs[..k - 1]);
    }
    var a := Label(k) + " ";
    var b := a + r.title;
    var c := b + ": ";
    var d := c + r.content;
    Assoc(pre, d, "\n");
    Assoc(pre, c, r.content);
    Assoc(pre, b, ": ");
    Assoc(pre, a, r.title);
    Assoc(pre, Label(k), " ");
    LabelHeadsOneLine(rs, k);
  }

  /** Only line k - 1 of the context starts with `[k]`. */
  lemma LabelHeadsOneLine(rs: seq<SearchResult>, k: nat)
    requires 1 <= k <= |rs|
    ensures forall j :: 0 <= j < |rs| && j != k - 1 ==>
      !(|Label(k)| <= |NewsLines(rs)[j]| && NewsLines(rs)[j][..|Label(k)|] == Label(k))
  {
    forall j | 0 <= j < |rs| && j != k - 1
      ensures !(|Label(k)| <= |NewsLines(rs)[j]| && NewsLines(rs)[j][..|Label(k)|] == Label(k))
    {
      LineHeadedByLabel(rs, j);
      LabelPrefixFree(k, j + 1);
      LabelPrefixFree(j + 1, k);
      NotHeadedBy(Label(k), Label(j + 1), NewsLines(rs)[j]);
    }
  }

  lemma LineHeadedByLabel(rs: seq<SearchResult>, j: nat)
    requires j < |rs|
    ensures |Label(j + 1)| <= |NewsLines(rs)[j]|
    ensures NewsLines(rs)[j][..|Label(j + 1)|] == Label(j + 1)
  {
    var lj := Label(j + 1);
    assert NewsLines(rs)[j] == lj + (" " + rs[j].title + ": " + rs[j].content + "\n");
  }

  /** A line headed by `other` is not headed by `lab` when neither of the two
      is a prefix of the other. */
  lemma NotHeadedBy(lab: string, other: string, line: string)
    requires |other| <= |line| && line[..|other|] == other
    requires !(|lab| <= |other| && other[..|lab|] == lab)
    requires !(|other| <= |lab| && lab[..|other|] == other)
    ensures !(|lab| <= |line| && line[..|lab|] == lab)
  {
  }

  /** The two coroutines' results once both have finished. */
  datatype Gathered = Gathered(priceData: string, news: News)

  /** `asyncio.gather` of the two coroutines: both values when both finish, and
      otherwise the exception that surfaces first. When both raise, which one
      comes first depends on timing, so `priceRaisesFirst` decides it. */
  function Gather(price: Fetch<string>, news: Fetch<News>, priceRaisesFirst: bool): (r: Fetch<Gathered>)
    ensures r.Fetched? <==> price.Fetched? && news.Fetched?
    ensures r.Fetched? ==> r.value.priceData == price.value && r.value.news == news.value
    ensures price.Raised? && news.Fetched? ==> r == Raised(price.message)
    ensures news.Raised? && price.Fetched? ==> r == Raised(news.message)
    ensures price.Raised? && news.Raised? ==>
      r == Raised(if priceRaisesFirst then price.message else news.message)
  {
    if price.Raised? && (news.Fetched? || priceRaisesFirst) then Raised(price.message)
    else if news.Raised? then Raised(news.message)
    else Fetched(Gathered(price.value, news.value))
  }

  /** The user prompt sent to the generation backend. */
  function UserPrompt(priceData: string, newsContext: string): string {
    "TECHNICALS:\n" + priceData + "\n\nNEWS:\n" + newsContext + "\n\nTASK:\nWrite the research report."
  }

  /** The prompt holds the price data first and the news context after it. */
  lemma PromptOrder(priceData: string, newsContext: string)
    ensures var p, i, j := UserPrompt(priceData, newsContext), 12, 12 + |priceData| + 8;
      && |p| == j + |newsContext| + 34
      && p[i..i + |priceData|] == priceData
      && i + |priceData| <= j
      && p[j..j + |newsContext|] == newsContext
  {
  }

  /** The text of one streamed chunk's delta: present, or None. */
  predicate HasText(d: Option<string>) {
    d.Some? && d.value != ""
  }

  /** What the backend does: the create call raises, or it yields chunks whose
      delta contents are `deltas`, after which iteration either ends or raises
      `failure`. */
  datatype Completion =
    | CreateFailed(message: string)
    | Streamed(deltas: seq<Option<string>>, failure: Option<string>)

  /** The content frames for a run of chunks: one per chunk with non-empty text. */
  function ContentFrames(ds: seq<Option<string>>): (r: seq<Frame>)
    ensures forall j :: 0 <= j < |r| ==> r[j].Content? && r[j].delta != ""
  {
    if |ds| == 0 then []
    else
      var last := ds[|ds| - 1];
      ContentFrames(ds[..|ds| - 1]) + (if HasText(last) then [Content(last.value)] else [])
  }

  /** The indices of the chunks that carry text, in stream order. */
  function Emitting(ds: seq<Option<string>>): seq<nat> {
    if |ds| == 0 then []
    else Emitting(ds[..|ds| - 1]) + (if HasText(ds[|ds| - 1]) then [|ds| - 1] else [])
  }

  /** Content frames correspond one-to-one and in order to the chunks with text:
      frame j relays chunk Emitting(ds)[j], those indices increase, and every chunk
      with text is among them (so empty and None deltas give no frame). */
  lemma {:induction false} ContentFramesMatchChunks(ds: seq<Option<string>>)
    ensures |ContentFrames(ds)| == |Emitting(ds)|
    ensures forall j :: 0 <= j < |Emitting(ds)| ==>
      Emitting(ds)[j] < |ds| && HasText(ds[Emitting(ds)[j]])
      && ContentFrames(ds)[j] == Content(ds[Emitting(ds)[j]].value)
    ensures forall j, j' :: 0 <= j < j' < |Emitting(ds)| ==> Emitting(ds)[j] < Emitting(ds)[j']
    ensures forall k :: 0 <= k < |ds| && HasText(ds[k]) ==> k in Emitting(ds)
  {
    if |ds| > 0 {
      var init := ds[..|ds| - 1];
      ContentFramesMatchChunks(init);
      assert forall k :: 0 <= k < |init| ==> init[k] == ds[k];
    }
  }

  /** The frames after the metadata frame. */
  function Generation(llm: Completion): seq<Frame> {
    match llm
    case CreateFailed(m) => [Error(m)]
    case Streamed(ds, failure) =>
      ContentFrames(ds) + (match failure case Some(m) => [Error(m)] case None => [])
  }

  /** The whole stream for a request: the specification of AnalyzeStock. */
  function EventFrames(ticker: string, history: Fetch<seq<Row>>, t: Technicals,
                       search: Fetch<seq<SearchResult>>, priceRaisesFirst: bool,
                       llm: Completion): seq<Frame>
  {
    match Gather(StockData(history, t), NewsOutcome(search), priceRaisesFirst)
    case Raised(m) => [Error(m)]
    case Fetched(fed) => [Usage(ticker, fed.priceData, fed.news.sources)] + Generation(llm)
  }

  /** The prompt the backend receives, or None when the fetch step raised. */
  function SentPrompt(history: Fetch<seq<Row>>, t: Technicals,
                      search: Fetch<seq<SearchResult>>, priceRaisesFirst: bool): Option<string>
  {
    match Gather(StockData(history, t), NewsOutcome(search), priceRaisesFirst)
    case Raised(_) => None
    case Fetched(fed) => Some(UserPrompt(fed.priceData, fed.news.context))
  }

  /** The request handler with its event generator: upper-cases the ticker,
      fetches both feeds, sends the metadata frame, then relays the stream. It
      returns the frames written, in order, and the user prompt it sent. */
  method AnalyzeStock(requestTicker: string, history: Fetch<seq<Row>>, t: Technicals,
                      search: Fetch<seq<SearchResult>>, priceRaisesFirst: bool,
                      llm: Completion)
    returns (frames: seq<Frame>, sent: Option<string>)
    ensures frames == EventFrames(Upper(requestTicker), history, t, search, priceRaisesFirst, llm)
    ensures sent == SentPrompt(history, t, search, priceRaisesFirst)
  {
    var ticker := Upper(requestTicker);
    var stock := StockData(history, t);
    var news := GetNewsAsync(search);
    var fed := Gather(stock, news, priceRaisesFirst);
    if fed.Raised? {
      frames, sent := [Error(fed.message)], None;
      return;
    }
    var priceData, newsContext, sources := fed.value.priceData, fed.value.news.context, fed.value.news.sources;
    frames := [Usage(ticker, priceData, sources)];
    sent := Some(UserPrompt(priceData, newsContext));
    match llm {
      case CreateFailed(m) =>
        frames := frames + [Error(m)];
      case Streamed(ds, failure) =>
        var i := 0;
        while i < |ds|
          invariant 0 <= i <= |ds|
          invariant frames == [Usage(ticker, priceData, sources)] + ContentFrames(ds[..i])
        {
          assert ds[..i + 1][..i] == ds[..i];
          if HasText(ds[i]) {
            frames := frames + [Content(ds[i].value)];
          }
          i := i + 1;
        }
        assert ds[..i] == ds;
        if failure.Some? {
          frames := frames + [Error(failure.value)];
        }
    }
  }

  /** The fetch step fails when a search or history call raises, or when the
      history has exactly one row. */
  predicate FetchFails(history: Fetch<seq<Row>>, search: Fetch<seq<SearchResult>>) {
    history.Raised? || (history.Fetched? && |history.value| == 1) || search.Raised?
  }

  /** The request fails when fetching fails or the backend raises. */
  predicate RequestFails(history: Fetch<seq<Row>>, search: Fetch<seq<SearchResult>>, llm: Completion) {
    FetchFails(history, search) || llm.CreateFailed? || llm.failure.Some?
  }

  /** A failure in either feed aborts the whole request: the stream is one error
      frame and nothing else (no metadata frame); when fetching succeeds the first
      frame is not an error. */
  lemma FetchFailureAborts(ticker: string, history: Fetch<seq<Row>>, t: Technicals,
                           search: Fetch<seq<SearchResult>>, priceRaisesFirst: bool, llm: Completion)
    ensures var frames := EventFrames(ticker, history, t, search, priceRaisesFirst, llm);
      FetchFails(history, search) <==> (|frames| == 1 && frames[0].Error?)
  {
  }

  /** On the success path the first frame is the metadata frame, carrying the
      ticker, the price data and the numbered sources, and it is the only one. */
  lemma UsageFirst(ticker: string, history: Fetch<seq<Row>>, t: Technicals,
                   search: Fetch<seq<SearchResult>>, priceRaisesFirst: bool, llm: Completion)
    requires !FetchFails(history, search)
    ensures var frames := EventFrames(ticker, history, t, search, priceRaisesFirst, llm);
      && |frames| >= 1
      && frames[0] == Usage(ticker, StockData(history, t).value, NewsSources(search.value))
      && forall j :: 0 < j < |frames| ==> !frames[j].Usage?
  {
    var frames := EventFrames(ticker, history, t, search, priceRaisesFirst, llm);
    var g := Generation(llm);
    assert frames == [frames[0]] + g;
    forall j | 0 < j < |frames| ensures !frames[j].Usage? {
      assert frames[j] == g[j - 1];
      if llm.Streamed? && j - 1 < |ContentFrames(llm.deltas)| {
        assert g[j - 1] == ContentFrames(llm.deltas)[j - 1];
      }
    }
  }

  /** On the success path with a stream, frames 1..n relay exactly the chunks with
      text, one each and in stream order. */
  lemma StreamRelayed(ticker: string, history: Fetch<seq<Row>>, t: Technicals,
                      search: Fetch<seq<SearchResult>>, priceRaisesFirst: bool,
                      ds: seq<Option<string>>, failure: Option<string>)
    requires !FetchFails(history, search)
    ensures var frames := EventFrames(ticker, history, t, search, priceRaisesFirst, Streamed(ds, failure));
      var emitted := Emitting(ds);
      && |frames| == 1 + |emitted| + (if failure.Some? then 1 else 0)
      && (forall j :: 0 <= j < |emitted| ==>
            emitted[j] < |ds| && HasText(ds[emitted[j]]) && frames[1 + j] == Content(ds[emitted[j]].value))
      && (forall j, j' :: 0 <= j < j' < |emitted| ==> emitted[j] < emitted[j'])
      && (forall k :: 0 <= k < |ds| && HasText(ds[k]) ==> k in emitted)
  {
    var frames := EventFrames(ticker, history, t, search, priceRaisesFirst, Streamed(ds, failure));
    var cs := ContentFrames(ds);
    var emitted := Emitting(ds);
    var g := Generation(Streamed(ds, failure));
    GeneratedAfterUsage(ticker, history, t, search, priceRaisesFirst, Streamed(ds, failure));
    ContentFramesMatchChunks(ds);
    assert |g| == |cs| + (if failure.Some? then 1 else 0);
    forall j | 0 <= j < |emitted|
      ensures emitted[j] < |ds| && HasText(ds[emitted[j]]) && frames[1 + j] == Content(ds[emitted[j]].value)
    {
      assert g[j] == cs[j];
    }
  }

  /** When both feeds succeed, the metadata frame is followed by the generated frames. */
  lemma GeneratedAfterUsage(ticker: string, history: Fetch<seq<Row>>, t: Technicals,
                            search: Fetch<seq<SearchResult>>, priceRaisesFirst: bool, llm: Completion)
    requires !FetchFails(history, search)
    ensures var frames := EventFrames(ticker, history, t, search, priceRaisesFirst, llm);
      && |frames| == 1 + |Generation(llm)| && frames[0].Usage?
      && forall j :: 0 <= j < |Generation(llm)| ==> frames[1 + j] == Generation(llm)[j]
  {
  }

  /** An error frame appears exactly when the request fails; then there is just
      one, and it is the last frame. */
  lemma ErrorTerminates(ticker: string, history: Fetch<seq<Row>>, t: Technicals,
                        search: Fetch<seq<SearchResult>>, priceRaisesFirst: bool, llm: Completion)
    ensures var frames := EventFrames(ticker, history, t, search, priceRaisesFirst, llm);
      && |frames| >= 1
      && (RequestFails(history, search, llm) <==> frames[|frames| - 1].Error?)
      && forall j :: 0 <= j < |frames| - 1 ==> !frames[j].Error?
  {
    var frames := EventFrames(ticker, history, t, search, priceRaisesFirst, llm);
    if !FetchFails(history, search) && llm.Streamed? {
      var cs := ContentFrames(llm.deltas);
      var tail: seq<Frame> := if llm.failure.Some? then [Error(llm.failure.value)] else [];
      assert frames == [frames[0]] + cs + tail;
      forall j | 0 <= j < |frames| - 1 ensures !frames[j].Error? {
        if j > 0 {
          assert frames[j] == cs[j - 1];
        }
      }
    }
  }

  /** An empty history is sent as the placeholder "No data." when the news feed
      succeeds. */
  lemma EmptyHistoryPlaceholder(ticker: string, t: Technicals, rs: seq<SearchResult>,
                                priceRaisesFirst: bool, llm: Completion)
    ensures EventFrames(ticker, Fetched([]), t, Fetched(rs), priceRaisesFirst, llm)[0]
      == Usage(ticker, NoData, NewsSources(rs))
  {
  }

  /** A one-row history does not degrade to a placeholder: reading the previous
      close raises, and the whole stream is that one error. */
  lemma OneRowHistoryFails(ticker: string, r: Row, t: Technicals, rs: seq<SearchResult>,
                           priceRaisesFirst: bool, llm: Completion)
    ensures EventFrames(ticker, Fetched([r]), t, Fetched(rs), priceRaisesFirst, llm)
      == [Error(IndexOutOfBounds)]
  {
  }

  /** A failed news search does not degrade either: with a usable history the
      stream is the search's error alone. */
  lemma NewsFailureFails(ticker: string, history: seq<Row>, t: Technicals, m: string,
                         priceRaisesFirst: bool, llm: Completion)
    requires |history| != 1
    ensures EventFrames(ticker, Fetched(history), t, Raised(m), priceRaisesFirst, llm) == [Error(m)]
  {
  }

  /** The encoded lines of a run of frames, one per frame, in frame order; `enc`
      stands for `json.dumps`, which is not modelled. */
  function Encoded(frames: seq<Frame>, enc: Frame -> string): seq<string> {
    seq(|frames|, k requires 0 <= k < |frames| => enc(frames[k]))
  }

  /** The response body: each frame's encoding followed by one newline. */
  function Ndjson(frames: seq<Frame>, enc: Frame -> string): string {
    Lines(Encoded(frames, enc))
  }

  /** When the encoder never writes a raw newline (`json.dumps` escapes them),
      the body has exactly one newline per frame, and splitting it at newlines
      gives back frame k's encoding as line k, followed by one empty field. */
  lemma NdjsonFraming(frames: seq<Frame>, enc: Frame -> string)
    requires forall k :: 0 <= k < |frames| ==> Free(enc(frames[k]), '\n')
    ensures Occurrences(Ndjson(frames, enc), '\n') == |frames|
    ensures var lines := Split(Ndjson(frames, enc), '\n');
      && |lines| == |frames| + 1 && lines[|frames|] == ""
      && forall k :: 0 <= k < |frames| ==> lines[k] == enc(frames[k])
  {
    SplitLines(Encoded(frames, enc));
  }

  /** The body written for a request: one line per frame of `EventFrames`, so a
      reader splitting it at newlines sees the metadata frame first on the
      success path, and the error frame alone when fetching fails. */
  lemma ResponseBody(ticker: string, history: Fetch<seq<Row>>, t: Technicals,
                     search: Fetch<seq<SearchResult>>, priceRaisesFirst: bool, llm: Completion,
                     enc: Frame -> string)
    requires forall f: Frame :: Free(enc(f), '\n')
    ensures var frames := EventFrames(ticker, history, t, search, priceRaisesFirst, llm);
      var lines := Split(Ndjson(frames, enc), '\n');
      && |lines| == |frames| + 1
      && (FetchFails(history, search) ==> lines == [enc(frames[0]), ""] && frames[0].Error?)
      && (!FetchFails(history, search) ==> lines[0] == enc(frames[0]) && frames[0].Usage?)
  {
    var frames := EventFrames(ticker, history, t, search, priceRaisesFirst, llm);
    NdjsonFraming(frames, enc);
    FetchFailureAborts(ticker, history, t, search, priceRaisesFirst, llm);
    if !FetchFails(history, search) {
      GeneratedAfterUsage(ticker, history, t, search, priceRaisesFirst, llm);
    }
  }
}
