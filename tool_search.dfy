/** The stand-alone news tool: it refuses to search without an API key, and
    otherwise lists the results as numbered entries separated by newlines. */
module ToolSearch {
  import opened Text
  import opened Provider

  const MissingKey := "Error: TAVILY_API_KEY not found in .env"

  /** The entry of the result with ordinal `i`. */
  function Entry(i: nat, r: SearchResult): string {
    Label(i) + " Title: " + r.title + "\n    Link: " + r.url + "\n    Snippet: " + r.content + "\n"
  }

  function Entries(rs: seq<SearchResult>): seq<string> {
    seq(|rs|, k requires 0 <= k < |rs| => Entry(k + 1, rs[k]))
  }

  /** Python's truthiness of the key read from the environment. */
  predicate HasKey(apiKey: Option<string>) {
    apiKey.Some? && apiKey.value != ""
  }

  /** The tool's outcome: the error text without a key; with one, the search's
      exception (not caught here) or the joined entries. */
  function SearchText(apiKey: Option<string>, search: Fetch<seq<SearchResult>>): Fetch<string> {
    if !HasKey(apiKey) then Fetched(MissingKey)
    else match search
      case Raised(m) => Raised(m)
      case Fetched(rs) => Fetched(Join(Entries(rs), "\n"))
  }

  /** The news tool. `search` is what the search call would give; `searched`
      says whether the call is made at all. */
  method GetMarketNews(apiKey: Option<string>, search: Fetch<seq<SearchResult>>)
    returns (r: Fetch<string>, searched: bool)
    ensures searched <==> HasKey(apiKey)
    ensures !searched ==> r == Fetched(MissingKey)
    ensures r == SearchText(apiKey, search)
  {
    if !HasKey(apiKey) {
      return Fetched(MissingKey), false;
    }
    searched := true;
    if search.Raised? {
      return Raised(search.message), searched;
    }
    var results := search.value;
    var resultsText: seq<string> := [];
    var i := 0;
    while i < |results|
      invariant 0 <= i <= |results|
      invariant resultsText == Entries(results[..i])
    {
      var entry := Entry(i + 1, results[i]);
      assert Entries(results[..i + 1]) == Entries(results[..i]) + [entry];
      resultsText := resultsText + [entry];
      i := i + 1;
    }
    assert results[..i] == results;
    r := Fetched(Join(resultsText, "\n"));
  }

  /** No results give the empty string. */
  lemma NoResultsEmpty(apiKey: Option<string>, rs: seq<SearchResult>)
    requires HasKey(apiKey) && rs == []
    ensures SearchText(apiKey, Fetched(rs)) == Fetched("")
  {
    assert Entries(rs) == [];
  }

  /** Entry k - 1 of the text sits between the earlier and later entries, with
      one newline separating it from each neighbour. */
  lemma EntryAt(rs: seq<SearchResult>, k: nat)
    requires 1 <= k <= |rs|
    ensures Join(Entries(rs), "\n") ==
      (if k == 1 then "" else Join(Entries(rs[..k - 1]), "\n") + "\n") + Entry(k, rs[k - 1])
        + (if k == |rs| then "" else "\n" + Join(Entries(rs)[k..], "\n"))
  {
    var entries := Entries(rs);
    assert entries[..k - 1] == Entries(rs[..k - 1]);
    assert entries[k - 1] == Entry(k, rs[k - 1]);
    JoinAt(entries, "\n", k - 1);
  }

  /** An entry begins with "[i] Title: " and then holds the title, the url and
      the content, in that order. */
  lemma EntryFields(i: nat, r: SearchResult)
    ensures var e, h := Entry(i, r), |Label(i)| + 8;
      var u := h + |r.title| + 11;
      var c := u + |r.url| + 14;
      && |e| == c + |r.content| + 1
      && e[..h] == Label(i) + " Title: "
      && e[h..h + |r.title|] == r.title
      && e[u..u + |r.url|] == r.url
      && e[c..c + |r.content|] == r.content
  {
  }
}
