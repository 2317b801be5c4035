/**
 * The general-knowledge agent: builds one prompt from a fixed preamble, the last few turns of
 * history and the query, asks the language model (an oracle here), and scores the answer with
 * a hedging/assertiveness heuristic.
 */
module GeminiAgent {
  import opened Wrappers
  import opened Text
  import opened Json
  import opened BaseAgent

  const AgentName := "Gemini_AI_Agent"

  /** Phrases that lower the score by 10 each when present. */
  const UncertaintyWords: seq<string> :=
    ["might", "maybe", "perhaps", "possibly", "i think", "i believe", "not sure", "unclear"]

  /** Phrases that raise the score by 10 each when present. */
  const DefinitiveWords: seq<string> :=
    ["according to", "as mentioned in", "specifically", "definitely", "clearly"]

  /** How many of `words` occur in `text`, each counted once however often it occurs. */
  function CountPresent(words: seq<string>, text: string): (n: nat)
    ensures n <= |words|
  {
    if words == [] then 0
    else CountPresent(words[..|words| - 1], text) +
         (if Contains(text, words[|words| - 1]) then 1 else 0)
  }

  function Clamp(x: int): (r: int)
    ensures 0 <= r <= 100
    ensures 0 <= x <= 100 ==> r == x
  {
    if x < 0 then 0 else if x > 100 then 100 else x
  }

  /** The heuristic score: start at 70, -10 per hedging phrase, +10 per assertive one, clamped. */
  function ConfidenceScore(response: string): (r: int)
    ensures 0 <= r <= 100
  {
    var lower := Lower(response);
    Clamp(70 - 10 * CountPresent(UncertaintyWords, lower) + 10 * CountPresent(DefinitiveWords, lower))
  }

  /** `_estimate_confidence`: the accumulator loop over both phrase lists, then the clamp. */
  method EstimateConfidence(response: string) returns (confidence: int)
    ensures confidence == ConfidenceScore(response)
    ensures 0 <= confidence <= 100
  {
    confidence := 70;
    var lower := Lower(response);
    for i := 0 to |UncertaintyWords|
      invariant confidence == 70 - 10 * CountPresent(UncertaintyWords[..i], lower)
    {
      assert UncertaintyWords[..i + 1][..i] == UncertaintyWords[..i];
      if Contains(lower, UncertaintyWords[i]) {
        confidence := confidence - 10;
      }
    }
    assert UncertaintyWords[..|UncertaintyWords|] == UncertaintyWords;
    var afterHedging := confidence;
    for i := 0 to |DefinitiveWords|
      invariant confidence == afterHedging + 10 * CountPresent(DefinitiveWords[..i], lower)
    {
      assert DefinitiveWords[..i + 1][..i] == DefinitiveWords[..i];
      if Contains(lower, DefinitiveWords[i]) {
        confidence := confidence + 10;
      }
    }
    assert DefinitiveWords[..|DefinitiveWords|] == DefinitiveWords;
    confidence := Clamp(confidence);
  }

  lemma {:induction false} CountPresentSame(words: seq<string>, a: string, b: string)
    requires forall k :: 0 <= k < |words| ==> (Contains(a, words[k]) <==> Contains(b, words[k]))
    ensures CountPresent(words, a) == CountPresent(words, b)
    decreases |words|
  {
    if words != [] {
      CountPresentSame(words[..|words| - 1], a, b);
    }
  }

  lemma {:induction false} CountPresentNone(words: seq<string>, text: string)
    requires forall k :: 0 <= k < |words| ==> !Contains(text, words[k])
    ensures CountPresent(words, text) == 0
    decreases |words|
  {
    if words != [] {
      CountPresentNone(words[..|words| - 1], text);
    }
  }

  /** The phrases a response contains, in lower case. */
  predicate HasPhrase(response: string, w: string) {
    Contains(Lower(response), w)
  }

  /**
   * The score depends only on which listed phrases occur, not on how often: two responses
   * containing the same phrases score the same.
   */
  lemma ScoreDependsOnlyOnPresence(a: string, b: string)
    requires forall k :: 0 <= k < |UncertaintyWords| ==>
               (HasPhrase(a, UncertaintyWords[k]) <==> HasPhrase(b, UncertaintyWords[k]))
    requires forall k :: 0 <= k < |DefinitiveWords| ==>
               (HasPhrase(a, DefinitiveWords[k]) <==> HasPhrase(b, DefinitiveWords[k]))
    ensures ConfidenceScore(a) == ConfidenceScore(b)
  {
    CountPresentSame(UncertaintyWords, Lower(a), Lower(b));
    CountPresentSame(DefinitiveWords, Lower(a), Lower(b));
  }

  /** A response with none of the listed phrases scores exactly 70. */
  lemma NeutralScore(response: string)
    requires forall k :: 0 <= k < |UncertaintyWords| ==> !HasPhrase(response, UncertaintyWords[k])
    requires forall k :: 0 <= k < |DefinitiveWords| ==> !HasPhrase(response, DefinitiveWords[k])
    ensures ConfidenceScore(response) == 70
  {
    CountPresentNone(UncertaintyWords, Lower(response));
    CountPresentNone(DefinitiveWords, Lower(response));
  }

  /** The fixed persona and guidelines that open every prompt. */
  const Preamble: seq<string> := [
    "You are a knowledgeable Hindu spiritual guide. Answer questions about Hindu philosophy, scriptures, and practices.",
    "",
    "Guidelines:",
    "- Provide accurate information based on Hindu scriptures",
    "- Be respectful and balanced in your responses",
    "- Cite specific scriptures when relevant",
    "- Acknowledge if you're uncertain about something",
    ""]

  /** One history turn as `Role: content`; a missing role is "user", missing content "". */
  function RenderEntry(e: HistoryEntry): string {
    Capitalize(e.role.GetOr("user")) + ": " + e.content.GetOr("")
  }

  /** `history[-5:]` */
  function LastFive<T>(h: seq<T>): (r: seq<T>)
    ensures |r| == if |h| <= 5 then |h| else 5
    ensures r == h[|h| - |r|..]
  {
    if |h| <= 5 then h else h[|h| - 5..]
  }

  function RenderAll(h: seq<HistoryEntry>): (r: seq<string>)
    ensures |r| == |h| && forall k :: 0 <= k < |h| ==> r[k] == RenderEntry(h[k])
  {
    seq(|h|, k requires 0 <= k < |h| => RenderEntry(h[k]))
  }

  /** The history block: present only when the context holds a non-empty history. */
  function HistoryLines(context: Context): seq<string> {
    match context.conversationHistory
    case Some(h) =>
      if h != [] then ["Previous conversation:"] + RenderAll(LastFive(h)) + [""] else []
    case None => []
  }

  function Closing(query: string): seq<string> {
    ["User: " + query, "", "Assistant:"]
  }

  /** The prompt's lines: preamble, optional history block, then the query and the cue. */
  function PromptLines(query: string, context: Context): seq<string> {
    Preamble + HistoryLines(context) + Closing(query)
  }

  function Prompt(query: string, context: Context): string {
    Join(PromptLines(query, context), "\n")
  }

  /** `_build_prompt`: appends the parts one by one, then joins them with newlines. */
  method BuildPrompt(query: string, context: Context) returns (prompt: string)
    ensures prompt == Prompt(query, context)
  {
    var parts := Preamble;
    if context.conversationHistory.Some? && context.conversationHistory.value != [] {
      var history := context.conversationHistory.value;
      parts := parts + ["Previous conversation:"];
      parts := AppendTurns(parts, LastFive(history));
      parts := parts + [""];
      Concat4(Preamble, ["Previous conversation:"], RenderAll(LastFive(history)), [""]);
    }
    ghost var front := parts;
    assert front == Preamble + HistoryLines(context);
    parts := parts + ["User: " + query];
    parts := parts + [""];
    parts := parts + ["Assistant:"];
    Concat4(front, ["User: " + query], [""], ["Assistant:"]);
    assert ["User: " + query] + [""] + ["Assistant:"] == Closing(query);
    prompt := Join(parts, "\n");
  }

  /** Appending three pieces one after another appends their concatenation. */
  lemma Concat4<T>(p: seq<T>, a: seq<T>, b: seq<T>, c: seq<T>)
    ensures p + a + b + c == p + (a + b + c)
  {
  }

  /** The loop of `_build_prompt` over the recent turns: one `Role: content` line per turn. */
  method AppendTurns(parts: seq<string>, recent: seq<HistoryEntry>) returns (r: seq<string>)
    ensures r == parts + RenderAll(recent)
  {
    r := parts;
    for i := 0 to |recent|
      invariant r == parts + RenderAll(recent[..i])
    {
      assert RenderAll(recent[..i + 1]) == RenderAll(recent[..i]) + [RenderEntry(recent[i])];
      r := r + [RenderEntry(recent[i])];
    }
    assert recent[..|recent|] == recent;
  }

  predicate HasHistory(context: Context) {
    context.conversationHistory.Some? && context.conversationHistory.value != []
  }

  /** Where the pieces of `[a] + r + [b]` sit. */
  lemma Framed<T>(a: T, r: seq<T>, b: T)
    ensures var s := [a] + r + [b];
            && |s| == |r| + 2 && s[0] == a && s[|r| + 1] == b
            && forall k :: 1 <= k <= |r| ==> s[k] == r[k - 1]
  {
  }

  /**
   * The history block holds the newest turns, at most five, oldest first, each as
   * `Role: content`, between a heading and a blank line; it appears exactly when the context
   * carries a non-empty history.
   */
  lemma HistoryBlockShape(context: Context)
    ensures HistoryLines(context) != [] <==> HasHistory(context)
    ensures HasHistory(context) ==>
              var h := context.conversationHistory.value;
              var lines := HistoryLines(context);
              var n := if |h| <= 5 then |h| else 5;
              && |lines| == n + 2
              && lines[0] == "Previous conversation:" && lines[n + 1] == ""
              && forall k :: 1 <= k <= n ==> lines[k] == RenderEntry(h[|h| - n + k - 1])
  {
    if HasHistory(context) {
      var h := context.conversationHistory.value;
      var recent := LastFive(h);
      var lines := HistoryLines(context);
      var n := |recent|;
      assert lines == ["Previous conversation:"] + RenderAll(recent) + [""];
      Framed("Previous conversation:", RenderAll(recent), "");
      forall k | 1 <= k <= n
        ensures lines[k] == RenderEntry(h[|h| - n + k - 1])
      {
        assert recent[k - 1] == h[|h| - n + k - 1];
      }
    }
  }

  /** Whatever comes before, the joined lines end with the query line and the cue. */
  lemma JoinEndsWithClosing(front: seq<string>, query: string)
    requires front != []
    ensures Join(front + Closing(query), "\n") ==
              Join(front, "\n") + "\n" + "User: " + query + "\n\nAssistant:"
  {
    JoinAppend(front, Closing(query), "\n");
    var tail: seq<string> := ["", "Assistant:"];
    assert Join(tail[1..], "\n") == "Assistant:";
    assert Join(tail, "\n") == "" + "\n" + "Assistant:";
    assert Closing(query)[1..] == tail;
    assert Join(Closing(query), "\n") == "User: " + query + "\n" + Join(tail, "\n");
  }

  /** Every prompt ends with the user's query line, a blank line and the assistant cue. */
  lemma PromptEndsWithQuery(query: string, context: Context)
    ensures exists head: string ::
              Prompt(query, context) == head + "\n" + "User: " + query + "\n\nAssistant:"
  {
    var front := Preamble + HistoryLines(context);
    assert PromptLines(query, context) == front + Closing(query);
    JoinEndsWithClosing(front, query);
  }

  /**
   * `process`: the model (an oracle from prompt to reply text, or the error it raised) is
   * asked with the built prompt. Generation errors are re-raised; an empty reply raises too;
   * otherwise the stripped text is returned with its heuristic score, the single source
   * "Gemini AI" and the prompt length.
   */
  function Process(query: string, context: Context, modelName: string,
                   generate: string -> Result<string, string>): (r: Result<ProcessOutput, string>)
    ensures var reply := generate(Prompt(query, context));
            && (reply.Failure? ==> r == Failure(reply.error))
            && (reply.Success? && reply.value == "" ==> r == Failure("Empty response from Gemini"))
            && (reply.Success? && reply.value != "" ==>
                  && r.Success?
                  && r.value.response == Some(Strip(reply.value))
                  && r.value.confidence == Some(ConfidenceScore(Strip(reply.value)))
                  && 0 <= r.value.confidence.value <= 100
                  && r.value.sources == Some(["Gemini AI"]))
  {
    var prompt := Prompt(query, context);
    match generate(prompt)
    case Failure(e) => Failure(e)
    case Success(text) =>
      if text == "" then Failure("Empty response from Gemini")
      else
        var answer := Strip(text);
        Success(ProcessOutput(
          Some(answer),
          Some(ConfidenceScore(answer)),
          Some(["Gemini AI"]),
          Some([("model", JStr(modelName)), ("prompt_length", JInt(|prompt|))])))
  }
}
