# Finance research engine: verified model of its report pipeline

This project models the text-producing core of a small finance research
engine. A user names a ticker. The engine fetches a price history and a set
of news search results, turns them into plain-text context blocks with
numbered citations, builds a prompt, and hands it to a text-generation
backend.

There are two front ends.

- The streaming endpoint (`server.py`, module `Server`) upper-cases the ticker
  and fetches both feeds together. It writes one metadata frame holding the
  ticker, the technicals text and the numbered sources. It then relays every
  streamed chunk that has text as one content frame. Any exception ends the
  stream with one error frame. Every frame goes on the wire followed by one
  newline (NDJSON).
- The command-line prototype (`app.py`, module `App`) has a price tool and a
  news tool. Each turns every failure into text. The prototype then builds the
  report prompt from the two outputs.

Two stand-alone tools are modelled as well. `tool_search.py` (module
`ToolSearch`) refuses to search without an API key, and otherwise joins numbered
entries with newlines. `tool_stock.py` (module `ToolStock`) keeps the last five
rows of a month of history, renders one line each, and joins them with newlines.

Module `Text` holds the string operations the four files use, and the tools
the proofs use to read their texts back:

- `str(n)` for the citation ordinals (`Show`, with its inverse `ParseNat`);
- the text built by repeated `+=` appends, as the concatenation of the
  appended parts (`Concat`);
- `"\n".join` (`Join`);
- ASCII `str.upper` (`Upper`);
- splitting a text at one character (`Split`), used only in lemmas, to state
  that a text reads back into the lines it was built from.

Module `Provider` holds the values the external services return. Every call
into market data or the search service is an input of type `Fetch<T>`:
`Fetched(value)` or `Raised(message)`, where the message is the exception's
`str`. In the streaming endpoint the generation backend's behaviour is an
input of type `Server.Completion`: its create call raises, or it yields a run
of chunk deltas and then ends or raises. In `app.py` the backend's answer is
not modelled.

Three behaviours of the code are worth stating plainly:

- In the streaming endpoint, a failed history call, a failed search call or a
  one-row history does not degrade to a placeholder. The exception reaches the
  generator's handler, which sends one error frame and no metadata frame
  (`FetchFailureAborts`, `OneRowHistoryFails`, `NewsFailureFails`). Only an
  empty history gives the placeholder "No data." (`EmptyHistoryPlaceholder`).
- With a one-row history, `iloc[-2]` raises. The model uses pandas' message
  for it.
- `tool_search.py` and `tool_stock.py` do not catch exceptions from their
  provider calls. The exception is their outcome (`Raised`).

## Model

| member | source | states |
|---|---|---|
| Text.Show | server.py:64 | `str(i+1)` is a non-empty run of decimal digits with no leading zero |
| Text.ParseShow | server.py:64 | reading the rendered digits back gives the ordinal, so the rendering loses nothing |
| Text.ShowInjective | server.py:64 | different ordinals render differently |
| Text.LabelPrefixFree | server.py:64 | no citation marker `[j]` is a prefix of another marker `[k]`, even when j and k share leading digits |
| Text.Upper | server.py:70 | upper-casing keeps the ticker's length |
| Text.UpperNormalises | server.py:70 | the upper-cased ticker has no lower-case ASCII letter, keeps every other character, and upper-casing it again changes nothing |
| Text.JoinOccurrences | tool_search.py:32 | joining separator-free parts with a one-character separator puts exactly parts-1 separators in the text |
| Text.SplitJoin | tool_search.py:32 | splitting at the separator gives back exactly the joined parts when none of them holds it |
| Text.ConcatAt | server.py:63-64 | in an append-built text, part k sits after the parts before it and before the parts after it |
| Text.SplitLines | server.py:88 | a text of newline-free lines, each ended by a newline, has one newline per line and splits back into the lines plus one empty field |
| Server.StockData | server.py:39-54 | the price coroutine raises exactly when the history call raises (passing its message on) or the history has one row; an empty history gives "No data."; two or more rows give the technicals text |
| Server.Gather | server.py:76-78 | the result holds both values exactly when both coroutines finish; a lone exception surfaces as it is; when both raise, `priceRaisesFirst` picks which one surfaces |
| Server.GetNewsAsync | server.py:56-66 | the loop builds the context of one numbered line per result and the source list with ordinals from 1, in result order; a raised search propagates |
| Server.SourcesNumbered | server.py:63-65 | one source per result; entry k has ordinal k+1 and the k-th result's title and url; the ordinals are exactly 1..N, pairwise distinct |
| Server.NoResultsNoContext | server.py:61-66 | no results give an empty context and no sources |
| Server.CitationResolves | server.py:63-65 | citation `[k]` resolves to result k: the context is the earlier lines, then the line with `[k]`, title and content, then the later lines; source k-1 is that result with ordinal k; no other line starts with `[k]` |
| Server.LabelHeadsOneLine | server.py:64 | only the k-th line of the context starts with `[k]` |
| Server.PromptOrder | server.py:104 | the user prompt has the technicals at offset 12, then the news context, each whole and in that order, with its exact length |
| Server.AnalyzeStock | server.py:69-124 | the frames written are exactly `EventFrames` of the upper-cased ticker, and the prompt sent is exactly `SentPrompt` (none when fetching raised) |
| Server.ContentFrames | server.py:114-121 | the relay loop gives only content frames, each with a non-empty delta |
| Server.ContentFramesMatchChunks | server.py:114-121 | content frame j relays chunk `Emitting(ds)[j]`; those chunk indices increase; every chunk with text is among them |
| Server.FetchFailureAborts | server.py:74-124 | the stream is one error frame and nothing else exactly when a feed raised or the history has one row |
| Server.UsageFirst | server.py:78-88 | on success the first frame is the metadata frame with the ticker, the price text and the numbered sources, and no later frame is one |
| Server.GeneratedAfterUsage | server.py:88-121 | on success the metadata frame is followed by exactly the frames of the generation step |
| Server.StreamRelayed | server.py:114-121 | frames 1..n relay, one each and in stream order, exactly the chunks whose delta has text; a mid-stream exception adds one frame |
| Server.ErrorTerminates | server.py:123-124 | an error frame appears exactly when the request fails, and then only as the last frame |
| Server.EmptyHistoryPlaceholder | server.py:46 | an empty history is sent as "No data." in the metadata frame |
| Server.OneRowHistoryFails | server.py:48-49 | a one-row history makes the whole stream the index error alone |
| Server.NewsFailureFails | server.py:60 | a raised search makes the whole stream that one error, whatever a usable history gives |
| Server.NdjsonFraming | server.py:88 | when the encoder writes no raw newline, the body has one newline per frame, and splitting it gives frame k's encoding as line k, then one empty field |
| Server.ResponseBody | server.py:73-126 | the body of a request has one line per frame of `EventFrames`: the error frame's line alone when fetching fails, and the metadata frame's line first otherwise |
| App.GetStockData | app.py:18-35 | the loop builds the header and one `- date: $close` line per row in row order; an empty history and a raised call give their messages |
| App.StockReportLines | app.py:28-33 | the price text splits into the header, then one line per row in row order, then an empty field |
| App.GetMarketNews | app.py:38-57 | the loop builds the header and, per result in order, its source, URL and snippet lines and an empty line; a raised search gives its message |
| App.NewsReportBlocks | app.py:48-55 | block k, with ordinal k and the k-th result, sits after the header and the earlier blocks and before the later ones |
| App.NoResultsHeaderOnly | app.py:48-55 | no results give the header alone |
| App.NewsQuery | app.py:68 | the query is "Why is ", the ticker and " stock moving today?", with its exact length |
| App.PromptOrder | app.py:83-91 | the user prompt holds the price text, the news text and the ticker, each whole, at fixed offsets in that order |
| App.GenerateReport | app.py:60-91 | the search query and the prompt sent are built from the two tools' texts for the services' outcomes |
| ToolSearch.GetMarketNews | tool_search.py:8-32 | the search is made exactly when the key is present and non-empty; without one the text is the key error; otherwise the loop gives the joined numbered entries, or the search's exception |
| ToolSearch.NoResultsEmpty | tool_search.py:25-32 | no results give the empty string |
| ToolSearch.EntryAt | tool_search.py:27-32 | entry k sits between the earlier and later entries, separated from each by one newline |
| ToolSearch.EntryFields | tool_search.py:29 | an entry starts with `[i] Title: ` and holds the title, url and content at fixed offsets, in that order |
| ToolStock.Tail | tool_stock.py:10 | `tail(5)` keeps min(5, n) rows |
| ToolStock.GetStockData | tool_stock.py:2-17 | the loop builds one line per row of the trailing window, joined by newlines; an empty history gives the no-data error; a raised history call propagates |
| ToolStock.LineFree | tool_stock.py:15 | a line built from newline-free fields holds no newline |
| ToolStock.JoinedLines | tool_stock.py:17 | joined newline-free lines split back into those lines, with one newline between each two |
| ToolStock.WindowLines | tool_stock.py:10-15 | the window has min(5, n) lines; line k renders row n-min(5,n)+k, so the last rows appear in their original order |
| ToolStock.TrailingLines | tool_stock.py:8-17 | for a non-empty history with newline-free fields, the text splits into exactly the window's lines and has one newline fewer than lines |

## Left out

- Network and clients: market data, search and the generation backend are inputs (`Fetch` values, `Completion`), so the key loading, client construction and request parameters (period, topic, `max_results=3`, model, temperature) are not modelled.
- Server search query: the query `f"Why is {ticker} moving?"` sent at server.py:58 is not modelled, because the endpoint's search outcome is an input.
- Concurrency: `asyncio.gather` is modelled by `Gather`. When both feeds raise, the exception that wins depends on timing, so it is the parameter `priceRaisesFirst`.
- Floating point: the closes, the percent change and the RSI (rolling means, NaN) are not computed. Rows carry their date and close already rendered as strings (`strftime`, `round(…, 2)`), and the technicals are the `:.2f` renderings (`Technicals`). A NaN RSI is modelled as `None`, which renders as "0.00".
- JSON encoding: `json.dumps` of each frame is not modelled. The encoder is a parameter `enc` of `Ndjson`, assumed to write no raw newline, as `json.dumps` does with its default settings.
- Chunk structure: a chunk is modelled by its delta's content alone. A chunk with no `choices` (an IndexError at server.py:115) is covered only as the stream's `failure`.
- Text.Upper: upper-cases ASCII letters only, because Unicode case mapping is not available.
- The unused cache (`REPORT_CACHE`, `CACHE_DURATION`), the current date and the system prompts' prose are not modelled: none of it reaches a modelled output except as fixed text.
- The backend's report text in `generate_report` (app.py:95-104) is the service's output, so it is not modelled.
- Console output (`print`) and the `__main__` blocks are not modelled.
- A search result without a `title`, `url` or `content` key raises KeyError in the source. Results are modelled as records that always have all three.
- Consumer disconnect: when the client goes away, the generator is closed with `GeneratorExit`, which `except Exception` (server.py:123) does not catch. The stream can then stop after any frame with no error frame. `EventFrames` and `ErrorTerminates` describe a stream that is read to its end.
- ui.py and test_llm.py are not part of this model.
