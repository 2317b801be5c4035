/**
 * The web-search agent: widens a query that lacks a Hindu keyword, asks the search backend
 * (an oracle here), puts the knowledge-graph item first, and shapes the top results into a
 * numbered text, a list of links and a count-based confidence.
 */
module WebSearchAgent {
  import opened Wrappers
  import opened Text
  import opened Json
  import opened BaseAgent

  const AgentName := "Web_Search_Agent"

  /** A query containing any of these (lower-cased) is searched as it is. */
  const HinduKeywords: seq<string> :=
    ["hindu", "hinduism", "vedic", "sanskrit", "bhagavad", "gita",
     "veda", "upanishad", "purana", "ramayana", "mahabharata"]

  predicate HasHinduKeyword(query: string) {
    exists k :: 0 <= k < |HinduKeywords| && Contains(Lower(query), HinduKeywords[k])
  }

  /** `_enhance_query` */
  function EnhanceQuery(query: string): (r: string)
    ensures HasHinduKeyword(query) ==> r == query
    ensures !HasHinduKeyword(query) ==> r == query + " hinduism"
  {
    if HasHinduKeyword(query) then query else query + " hinduism"
  }

  /** Enhancing twice is enhancing once: an enhanced query always contains "hindu". */
  lemma EnhanceQueryIdempotent(query: string)
    ensures EnhanceQuery(EnhanceQuery(query)) == EnhanceQuery(query)
  {
    if !HasHinduKeyword(query) {
      var e := query + " hinduism";
      assert Lower(e) == Lower(query) + Lower(" hinduism");
      assert Lower(e)[|query| + 1..|query| + 6] == "hindu";
      ContainsAt(Lower(e), "hindu", |query| + 1);
      assert HasHinduKeyword(e) by {
        assert Contains(Lower(e), HinduKeywords[0]);
      }
    }
  }

  /** One organic item of the backend's reply; every key may be missing. */
  datatype OrganicItem = OrganicItem(
    title: Option<string>, snippet: Option<string>, link: Option<string>, position: Option<int>)

  datatype KnowledgeGraph = KnowledgeGraph(
    title: Option<string>, description: Option<string>, website: Option<string>)

  /** The parsed reply: the "organic" and "knowledgeGraph" keys, each possibly absent. */
  datatype SearchReply = SearchReply(
    organic: Option<seq<OrganicItem>>, knowledgeGraph: Option<KnowledgeGraph>)

  datatype SearchResult = SearchResult(
    title: string, snippet: string, link: string, position: int, fromKnowledgeGraph: bool)

  function OrganicResult(item: OrganicItem): SearchResult {
    SearchResult(item.title.GetOr(""), item.snippet.GetOr(""), item.link.GetOr(""),
                 item.position.GetOr(0), false)
  }

  function GraphResult(kg: KnowledgeGraph): SearchResult {
    SearchResult(kg.title.GetOr(""), kg.description.GetOr(""), kg.website.GetOr(""), 0, true)
  }

  /**
   * The results `_search` builds from the backend's reply: the organic items in order, with
   * the knowledge-graph item inserted in front when present; a failed request or an
   * unreadable reply gives [].
   */
  function Results(reply: Result<SearchReply, string>): (results: seq<SearchResult>)
    ensures reply.Failure? ==> results == []
    ensures reply.Success? ==>
              var organic := reply.value.organic.GetOr([]);
              var front := if reply.value.knowledgeGraph.Some? then 1 else 0;
              && |results| == |organic| + front
              && (reply.value.knowledgeGraph.Some? ==>
                    results[0] == GraphResult(reply.value.knowledgeGraph.value))
              && forall k :: 0 <= k < |organic| ==> results[front + k] == OrganicResult(organic[k])
  {
    match reply
    case Failure(_) => []
    case Success(data) =>
      var organic := data.organic.GetOr([]);
      (if data.knowledgeGraph.Some? then [GraphResult(data.knowledgeGraph.value)] else []) +
      seq(|organic|, k requires 0 <= k < |organic| => OrganicResult(organic[k]))
  }

  /** `_search` after the HTTP exchange: the append loop, then the insertion at the front. */
  method AssembleResults(reply: Result<SearchReply, string>) returns (results: seq<SearchResult>)
    ensures results == Results(reply)
  {
    if reply.Failure? {
      return [];
    }
    var data := reply.value;
    results := [];
    if data.organic.Some? {
      var items := data.organic.value;
      for i := 0 to |items|
        invariant |results| == i
        invariant forall k :: 0 <= k < i ==> results[k] == OrganicResult(items[k])
      {
        results := results + [OrganicResult(items[i])];
      }
    }
    if data.knowledgeGraph.Some? {
      results := [GraphResult(data.knowledgeGraph.value)] + results;
    }
  }

  function Take5<T>(xs: seq<T>): (r: seq<T>)
    ensures |r| <= 5 && |r| <= |xs| && r == xs[..|r|]
    ensures |xs| <= 5 ==> r == xs
  {
    if |xs| <= 5 then xs else xs[..5]
  }

  /** Entry `i` (from 0) of the formatted text: its rank, title and snippet. */
  function FormatEntry(rank: nat, r: SearchResult): string {
    NatToString(rank) + ". " + r.title + "\n" + r.snippet
  }

  function FormatEntries(results: seq<SearchResult>): (entries: seq<string>)
    ensures |entries| == |Take5(results)|
    ensures forall k :: 0 <= k < |entries| ==> entries[k] == FormatEntry(k + 1, results[k])
  {
    var top := Take5(results);
    seq(|top|, k requires 0 <= k < |top| => FormatEntry(k + 1, top[k]))
  }

  /**
   * `_format_results`: at most the first five results, numbered from 1, each as
   * `<rank>. <title>` over its snippet, separated by blank lines; "No results found." for none.
   */
  function FormatText(results: seq<SearchResult>): (text: string)
    ensures results == [] ==> text == "No results found."
    ensures results != [] ==>
              exists entries: seq<string> ::
                && text == Join(entries, "\n\n")
                && |entries| == (if |results| < 5 then |results| else 5)
                && forall k :: 0 <= k < |entries| ==> entries[k] == FormatEntry(k + 1, results[k])
  {
    if results == [] then "No results found." else Join(FormatEntries(results), "\n\n")
  }

  /** `_format_results` as written: the loop over the first five, then the join. */
  method FormatResults(results: seq<SearchResult>) returns (text: string)
    ensures text == FormatText(results)
  {
    if results == [] {
      return "No results found.";
    }
    var formatted: seq<string> := [];
    var top := Take5(results);
    for i := 0 to |top|
      invariant formatted == FormatEntries(results)[..i]
    {
      formatted := formatted + [FormatEntry(i + 1, top[i])];
    }
    assert formatted == FormatEntries(results);
    text := Join(formatted, "\n\n");
  }

  /** The non-empty links of `results`, in order. */
  function Links(results: seq<SearchResult>): (links: seq<string>)
    ensures |links| <= |results|
    ensures forall k :: 0 <= k < |links| ==> links[k] != ""
  {
    if results == [] then []
    else
      var rest := Links(results[..|results| - 1]);
      var last := results[|results| - 1].link;
      if last != "" then rest + [last] else rest
  }

  /** Every link listed is the link of one of the given results. */
  lemma {:induction false} LinksComeFromResults(results: seq<SearchResult>, k: nat)
    requires k < |Links(results)|
    ensures exists j :: 0 <= j < |results| && results[j].link == Links(results)[k]
    decreases |results|
  {
    var init := results[..|results| - 1];
    if k < |Links(init)| {
      LinksComeFromResults(init, k);
      var j :| 0 <= j < |init| && init[j].link == Links(init)[k];
      assert results[j] == init[j];
    } else {
      assert results[|results| - 1].link == Links(results)[k];
    }
  }

  /** Every non-empty link of a result is listed. */
  lemma {:induction false} LinksComplete(results: seq<SearchResult>, j: nat)
    requires j < |results| && results[j].link != ""
    ensures results[j].link in Links(results)
    decreases |results|
  {
    if j < |results| - 1 {
      LinksComplete(results[..|results| - 1], j);
    }
  }

  /** `_extract_sources`: the non-empty links of the first five results, in rank order. */
  method ExtractSources(results: seq<SearchResult>) returns (sources: seq<string>)
    ensures sources == Links(Take5(results))
    ensures |sources| <= 5
  {
    sources := [];
    var top := Take5(results);
    for i := 0 to |top|
      invariant sources == Links(top[..i])
    {
      assert top[..i + 1][..i] == top[..i];
      if top[i].link != "" {
        sources := sources + [top[i].link];
      }
    }
    assert top[..|top|] == top;
  }

  /** The count-based confidence: 20 per result, capped at 100. */
  function CountConfidence(n: nat): (c: int)
    ensures 0 <= c <= 100
    ensures n <= 5 ==> c == 20 * n
    ensures n >= 5 ==> c == 100
  {
    if n * 20 < 100 then n * 20 else 100
  }

  function ResultJson(r: SearchResult): Json {
    JObj([("title", JStr(r.title)), ("snippet", JStr(r.snippet)), ("link", JStr(r.link)),
          ("position", JInt(r.position))] +
         (if r.fromKnowledgeGraph then [("type", JStr("knowledge_graph"))] else []))
  }

  function FirstThree(results: seq<SearchResult>): seq<Json> {
    var top := if |results| <= 3 then results else results[..3];
    seq(|top|, k requires 0 <= k < |top| => ResultJson(top[k]))
  }

  /**
   * `process`: the enhanced query goes to the backend (an oracle from query to reply); no
   * results is a normal outcome with a fixed text and confidence 0, otherwise the formatted
   * text, the links and the count-based confidence. This `process` never raises.
   */
  function Process(query: string, backend: string -> Result<SearchReply, string>)
    : (r: Result<ProcessOutput, string>)
    ensures r.Success?
    ensures var results := Results(backend(EnhanceQuery(query)));
            && (results == [] ==>
                  r.value == ProcessOutput(Some("No web results found for this query."), Some(0),
                                           Some([]), Some([])))
            && (results != [] ==>
                  && r.value.response == Some(FormatText(results))
                  && r.value.sources == Some(Links(Take5(results)))
                  && r.value.confidence == Some(CountConfidence(|results|)))
  {
    var enhanced := EnhanceQuery(query);
    var results := Results(backend(enhanced));
    if results == [] then
      Success(ProcessOutput(Some("No web results found for this query."), Some(0), Some([]), Some([])))
    else
      Success(ProcessOutput(
        Some(FormatText(results)),
        Some(CountConfidence(|results|)),
        Some(Links(Take5(results))),
        Some([("num_results", JInt(|results|)), ("query_used", JStr(enhanced)),
              ("raw_results", JArr(FirstThree(results)))])))
  }

  /** The query `search_specific` sends: `site:<site> ` in front only when a site is given. */
  function SiteQuery(query: string, site: Option<string>): (q: string)
    ensures site.Some? && site.value != "" ==> q == "site:" + site.value + " " + query
    ensures !(site.Some? && site.value != "") ==> q == query
  {
    if site.Some? && site.value != "" then "site:" + site.value + " " + query else query
  }

  /**
   * `search_specific`: searches the query with the optional site prefix, no keyword widening,
   * and reports the results as `process` does except that no results give the formatter's own
   * "No results found." text. The date range is accepted and ignored.
   */
  function SearchSpecific(query: string, site: Option<string>, dateRange: Option<string>,
                          backend: string -> Result<SearchReply, string>): (r: ProcessOutput)
    ensures var results := Results(backend(SiteQuery(query, site)));
            && r.response == Some(FormatText(results))
            && r.confidence == Some(CountConfidence(|results|))
            && r.sources == Some(Links(Take5(results)))
  {
    var enhanced := SiteQuery(query, site);
    var results := Results(backend(enhanced));
    ProcessOutput(
      Some(FormatText(results)),
      Some(CountConfidence(|results|)),
      Some(Links(Take5(results))),
      Some([("num_results", JInt(|results|)), ("query_used", JStr(enhanced))]))
  }

  /** The date range has no effect on what `search_specific` returns. */
  lemma DateRangeIgnored(query: string, site: Option<string>, a: Option<string>, b: Option<string>,
                         backend: string -> Result<SearchReply, string>)
    ensures SearchSpecific(query, site, a, backend) == SearchSpecific(query, site, b, backend)
  {
  }
}
