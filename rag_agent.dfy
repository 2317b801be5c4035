/**
 * The scripture-retrieval agent: embeds the query, asks the vector index for its nearest
 * passages (both oracles here), keeps the matches scoring above 0.7 in the order returned,
 * and reports them with a confidence taken from the first kept one.
 */
module RagAgent {
  import opened Wrappers
  import opened Text
  import opened Json
  import opened BaseAgent

  const AgentName := "RAG_Scripture_Agent"

  /** Matches must score strictly above this to be kept. */
  const Threshold: real := 0.7

  /** The metadata stored with an indexed passage; any key may be missing. */
  datatype PassageMetadata = PassageMetadata(
    text: Option<string>, source: Option<string>, book: Option<string>,
    chapter: Option<Json>, verse: Option<Json>)

  /** One match of an index query: a similarity score and the stored metadata. */
  datatype Match = Match(score: real, metadata: PassageMetadata)

  /** A kept passage, as `process` records it. */
  datatype Passage = Passage(
    text: string, source: string, book: string, chapter: Option<Json>, verse: Option<Json>,
    score: real)

  /** The matches scoring above the threshold, in the order the index returned them. */
  function Above(matches: seq<Match>): (kept: seq<Match>)
    ensures |kept| <= |matches|
    ensures forall k :: 0 <= k < |kept| ==> kept[k].score > Threshold
  {
    if matches == [] then []
    else
      var init := Above(matches[..|matches| - 1]);
      var last := matches[|matches| - 1];
      if last.score > Threshold then init + [last] else init
  }

  /** Filtering distributes over concatenation, so kept matches keep their relative order. */
  lemma {:induction false} AboveAppend(a: seq<Match>, b: seq<Match>)
    ensures Above(a + b) == Above(a) + Above(b)
    decreases |b|
  {
    if b == [] {
      assert a + b == a;
    } else {
      assert (a + b)[..|a + b| - 1] == a + b[..|b| - 1];
      AboveAppend(a, b[..|b| - 1]);
    }
  }

  /** Every match above the threshold is kept, and every kept match is one of the matches. */
  lemma {:induction false} AboveExactly(matches: seq<Match>, m: Match)
    ensures m in Above(matches) <==> m in matches && m.score > Threshold
    decreases |matches|
  {
    if matches != [] {
      var init := matches[..|matches| - 1];
      AboveExactly(init, m);
      assert matches == init + [matches[|matches| - 1]];
    }
  }

  /** The passage record of a match: missing text, source and book become "". */
  function PassageOf(m: Match): Passage {
    Passage(m.metadata.text.GetOr(""), m.metadata.source.GetOr(""), m.metadata.book.GetOr(""),
            m.metadata.chapter, m.metadata.verse, m.score)
  }

  /** The source listed for a match: a missing source becomes "Unknown". */
  function SourceOf(m: Match): string {
    m.metadata.source.GetOr("Unknown")
  }

  function Passages(kept: seq<Match>): (ps: seq<Passage>)
    ensures |ps| == |kept| && forall k :: 0 <= k < |kept| ==> ps[k] == PassageOf(kept[k])
  {
    seq(|kept|, k requires 0 <= k < |kept| => PassageOf(kept[k]))
  }

  function Sources(kept: seq<Match>): (ss: seq<string>)
    ensures |ss| == |kept| && forall k :: 0 <= k < |kept| ==> ss[k] == SourceOf(kept[k])
  {
    seq(|kept|, k requires 0 <= k < |kept| => SourceOf(kept[k]))
  }

  /**
   * The filtering loop of `process`: one passage and one source per match above the
   * threshold, in order; the two lists stay the same length, and a missing source is
   * "Unknown" in the list but "" in the passage.
   */
  method FilterMatches(matches: seq<Match>) returns (passages: seq<Passage>, sources: seq<string>)
    ensures passages == Passages(Above(matches))
    ensures sources == Sources(Above(matches))
    ensures |passages| == |sources|
    ensures forall k :: 0 <= k < |passages| ==>
              && passages[k].score > Threshold
              && (Above(matches)[k].metadata.source.None? ==>
                    sources[k] == "Unknown" && passages[k].source == "")
  {
    passages := [];
    sources := [];
    for i := 0 to |matches|
      invariant passages == Passages(Above(matches[..i]))
      invariant sources == Sources(Above(matches[..i]))
    {
      assert matches[..i + 1][..i] == matches[..i];
      var m := matches[i];
      if m.score > Threshold {
        passages := passages + [PassageOf(m)];
        sources := sources + [SourceOf(m)];
      }
    }
    assert matches[..|matches|] == matches;
  }

  /** `int(score * 100)` for a positive score: the whole part, Python's `int` truncating. */
  function Percent(score: real): (c: int)
    requires score > 0.0
    ensures c as real <= score * 100.0 < c as real + 1.0
  {
    (score * 100.0).Floor
  }

  /** The confidence of a kept passage is at least 70, as its score exceeds 0.7. */
  lemma PercentAboveThreshold(score: real)
    requires score > Threshold
    ensures Percent(score) >= 70
  {
  }

  function RenderPassage(p: Passage): string {
    p.source + ":\n" + p.text
  }

  function RenderAll(passages: seq<Passage>): (r: seq<string>)
    ensures |r| == |passages| && forall k :: 0 <= k < |r| ==> r[k] == RenderPassage(passages[k])
  {
    seq(|passages|, k requires 0 <= k < |passages| => RenderPassage(passages[k]))
  }

  /** `_format_response`: each passage as `<source>:` over its text, blank lines between. */
  function FormatPassages(passages: seq<Passage>): string {
    Join(RenderAll(passages), "\n\n")
  }

  /** `_format_response` as written: an append loop, then the join. */
  method FormatResponse(passages: seq<Passage>) returns (text: string)
    ensures text == FormatPassages(passages)
  {
    var formatted: seq<string> := [];
    for i := 0 to |passages|
      invariant formatted == RenderAll(passages[..i])
    {
      formatted := formatted + [RenderPassage(passages[i])];
    }
    assert passages[..|passages|] == passages;
    text := Join(formatted, "\n\n");
  }

  /** Formatting more passages extends the text: one blank line, then the new passages. */
  lemma FormatPassagesAppend(a: seq<Passage>, b: seq<Passage>)
    requires a != [] && b != []
    ensures FormatPassages(a + b) == FormatPassages(a) + "\n\n" + FormatPassages(b)
  {
    assert RenderAll(a + b) == RenderAll(a) + RenderAll(b);
    JoinAppend(RenderAll(a), RenderAll(b), "\n\n");
  }

  function PassageJson(p: Passage): Json {
    JObj([("text", JStr(p.text)), ("source", JStr(p.source)), ("book", JStr(p.book)),
          ("chapter", p.chapter.GetOr(JNull)), ("verse", p.verse.GetOr(JNull)),
          ("score", JReal(p.score))])
  }

  /** The passage records of the output's metadata: one per passage, in order, with its fields. */
  function PassagesJson(ps: seq<Passage>): (j: Json)
    ensures j.JArr? && |j.items| == |ps|
    ensures forall k :: 0 <= k < |ps| ==>
              var o := j.items[k];
              && o.JObj?
              && Get(o.fields, "text") == Some(JStr(ps[k].text))
              && Get(o.fields, "source") == Some(JStr(ps[k].source))
              && Get(o.fields, "book") == Some(JStr(ps[k].book))
              && Get(o.fields, "chapter") == Some(ps[k].chapter.GetOr(JNull))
              && Get(o.fields, "verse") == Some(ps[k].verse.GetOr(JNull))
              && Get(o.fields, "score") == Some(JReal(ps[k].score))
  {
    var items := seq(|ps|, k requires 0 <= k < |ps| => PassageJson(ps[k]));
    forall k | 0 <= k < |ps|
      ensures var o := items[k];
              && o.JObj?
              && Get(o.fields, "text") == Some(JStr(ps[k].text))
              && Get(o.fields, "source") == Some(JStr(ps[k].source))
              && Get(o.fields, "book") == Some(JStr(ps[k].book))
              && Get(o.fields, "chapter") == Some(ps[k].chapter.GetOr(JNull))
              && Get(o.fields, "verse") == Some(ps[k].verse.GetOr(JNull))
              && Get(o.fields, "score") == Some(JReal(ps[k].score))
    {
      PassageJsonFields(ps[k]);
    }
    JArr(items)
  }

  lemma PassageJsonFields(p: Passage)
    ensures var o := PassageJson(p);
            && o.JObj?
            && Get(o.fields, "text") == Some(JStr(p.text))
            && Get(o.fields, "source") == Some(JStr(p.source))
            && Get(o.fields, "book") == Some(JStr(p.book))
            && Get(o.fields, "chapter") == Some(p.chapter.GetOr(JNull))
            && Get(o.fields, "verse") == Some(p.verse.GetOr(JNull))
            && Get(o.fields, "score") == Some(JReal(p.score))
  {
    var f := PassageJson(p).fields;
    assert Get(f[5..], "score") == Some(JReal(p.score));
    assert Get(f[4..], "verse") == Some(p.verse.GetOr(JNull));
    assert Get(f[4..], "score") == Get(f[5..], "score");
    assert Get(f[3..], "chapter") == Some(p.chapter.GetOr(JNull));
    assert Get(f[3..], "verse") == Get(f[4..], "verse");
    assert Get(f[3..], "score") == Get(f[4..], "score");
    assert Get(f[2..], "book") == Some(JStr(p.book));
    assert Get(f[2..], "chapter") == Get(f[3..], "chapter");
    assert Get(f[2..], "verse") == Get(f[3..], "verse");
    assert Get(f[2..], "score") == Get(f[3..], "score");
    assert Get(f[1..], "book") == Get(f[2..], "book");
    assert Get(f[1..], "chapter") == Get(f[2..], "chapter");
    assert Get(f[1..], "verse") == Get(f[2..], "verse");
    assert Get(f[1..], "score") == Get(f[2..], "score");
  }

  /**
   * `process`: the query is embedded (an oracle from text to vector) and the vector sent to
   * the index (an oracle from vector to its matches); a failure of either is raised. The
   * kept passages give the response, the sources and a confidence taken from the first kept
   * score; with none kept, the fixed text and confidence 0.
   */
  function Process(query: string, embed: string -> Result<seq<real>, string>,
                   search: seq<real> -> Result<seq<Match>, string>)
    : (r: Result<ProcessOutput, string>)
    ensures embed(query).Failure? ==> r == Failure(embed(query).error)
    ensures embed(query).Success? && search(embed(query).value).Failure? ==>
              r == Failure(search(embed(query).value).error)
    ensures embed(query).Success? && search(embed(query).value).Success? ==>
              var kept := Above(search(embed(query).value).value);
              && r.Success?
              && r.value.sources == Some(Sources(kept))
              && r.value.metadata.Some?
              && Get(r.value.metadata.value, "num_passages") == Some(JInt(|kept|))
              && Get(r.value.metadata.value, "passages") == Some(PassagesJson(Passages(kept)))
              && (kept == [] ==>
                    && r.value.response == Some("No relevant scripture passages found for this query.")
                    && r.value.confidence == Some(0))
              && (kept != [] ==>
                    && r.value.response == Some(FormatPassages(Passages(kept)))
                    && r.value.confidence == Some(Percent(kept[0].score))
                    && 70 <= r.value.confidence.value)
  {
    match embed(query)
    case Failure(e) => Failure(e)
    case Success(vector) =>
      match search(vector)
      case Failure(e) => Failure(e)
      case Success(matches) =>
        var kept := Above(matches);
        var passages := Passages(kept);
        var response :=
          if kept != [] then FormatPassages(passages)
          else "No relevant scripture passages found for this query.";
        var confidence := if kept != [] then Percent(kept[0].score) else 0;
        Success(ProcessOutput(
          Some(response), Some(confidence), Some(Sources(kept)),
          Some([("num_passages", JInt(|kept|)), ("passages", PassagesJson(passages))])))
  }

  /** `{"$eq": v}` */
  function Eq(v: Json): Json {
    JObj([("$eq", v)])
  }

  /**
   * The filter `search_specific_scripture` builds: always the book, then the chapter and the
   * verse each only when given, in that order.
   */
  method BuildFilter(book: string, chapter: Option<int>, verse: Option<int>)
    returns (filter: seq<(string, Json)>)
    ensures |filter| == 1 + (if chapter.Some? then 1 else 0) + (if verse.Some? then 1 else 0)
    ensures filter[0] == ("book", Eq(JStr(book)))
    ensures Get(filter, "book") == Some(Eq(JStr(book)))
    ensures chapter.Some? ==> Get(filter, "chapter") == Some(Eq(JInt(chapter.value)))
    ensures chapter.None? ==> Get(filter, "chapter") == None
    ensures verse.Some? ==> Get(filter, "verse") == Some(Eq(JInt(verse.value)))
    ensures verse.None? ==> Get(filter, "verse") == None
  {
    filter := [("book", Eq(JStr(book)))];
    if chapter.Some? {
      GetAppend(filter, "book", "chapter", Eq(JInt(chapter.value)));
      GetAppend(filter, "verse", "chapter", Eq(JInt(chapter.value)));
      filter := filter + [("chapter", Eq(JInt(chapter.value)))];
    }
    if verse.Some? {
      GetAppend(filter, "book", "verse", Eq(JInt(verse.value)));
      GetAppend(filter, "chapter", "verse", Eq(JInt(verse.value)));
      GetAppend(filter, "verse", "verse", Eq(JInt(verse.value)));
      filter := filter + [("verse", Eq(JInt(verse.value)))];
    }
  }

  /** What `search_specific_scripture` reports. */
  datatype Lookup =
    | NotFound
    | Found(text: string, source: string, book: string, chapter: Option<Json>, verse: Option<Json>)

  /**
   * `search_specific_scripture` after the filter is built: the index (an oracle from filter
   * to matches, asked for one) either raises, finds nothing (`{"found": False}`), or its
   * first match's metadata is reported with "" for a missing text, source or book.
   */
  function LookupResult(reply: Result<seq<Match>, string>): (r: Result<Lookup, string>)
    ensures reply.Failure? ==> r == Failure(reply.error)
    ensures reply.Success? && reply.value == [] ==> r == Success(NotFound)
    ensures reply.Success? && reply.value != [] ==>
              var md := reply.value[0].metadata;
              r == Success(Found(md.text.GetOr(""), md.source.GetOr(""), md.book.GetOr(""),
                                 md.chapter, md.verse))
  {
    match reply
    case Failure(e) => Failure(e)
    case Success(matches) =>
      if matches == [] then Success(NotFound)
      else
        var md := matches[0].metadata;
        Success(Found(md.text.GetOr(""), md.source.GetOr(""), md.book.GetOr(""),
                      md.chapter, md.verse))
  }

  /** `search_specific_scripture`: builds the filter, asks the index, reports the first match. */
  method SearchSpecificScripture(book: string, chapter: Option<int>, verse: Option<int>,
                                 lookup: seq<(string, Json)> -> Result<seq<Match>, string>)
    returns (filter: seq<(string, Json)>, r: Result<Lookup, string>)
    ensures |filter| == 1 + (if chapter.Some? then 1 else 0) + (if verse.Some? then 1 else 0)
    ensures Get(filter, "book") == Some(Eq(JStr(book)))
    ensures (Get(filter, "chapter") == None) <==> chapter.None?
    ensures chapter.Some? ==> Get(filter, "chapter") == Some(Eq(JInt(chapter.value)))
    ensures (Get(filter, "verse") == None) <==> verse.None?
    ensures verse.Some? ==> Get(filter, "verse") == Some(Eq(JInt(verse.value)))
    ensures r == LookupResult(lookup(filter))
  {
    filter := BuildFilter(book, chapter, verse);
    r := LookupResult(lookup(filter));
  }
}
