/**
 * The multi-agent orchestrator: dispatches the agents, keeps the results that came back,
 * routes each successful answer into its slot, asks the language model to verify and then to
 * split the answer into chat messages (falling back on fixed rules when it fails), scans the
 * answer for scripture citations, and records both turns of the exchange.
 */
module Orchestrator {
  import opened Wrappers
  import opened Text
  import opened Json
  import opened BaseAgent
  import RagAgent
  import WebSearchAgent
  import GeminiAgent
  import ContextAgent

  /** `MAX_MESSAGES_PER_RESPONSE` */
  const MaxMessagesPerResponse := 6

  // ---------------------------------------------------------------- dispatch and fan-in

  datatype AgentKind = RagScripture | ContextMemory | WebSearch | GeminiAi

  function NameOf(kind: AgentKind): string {
    match kind
    case RagScripture => RagAgent.AgentName
    case ContextMemory => ContextAgent.AgentName
    case WebSearch => WebSearchAgent.AgentName
    case GeminiAi => GeminiAgent.AgentName
  }

  /**
   * The agents `_query_all_agents` starts, in order: the scripture and memory agents always,
   * the web and general-knowledge agents only in full mode.
   */
  function Dispatched(useAll: bool): (agents: seq<AgentKind>)
    ensures |agents| == if useAll then 4 else 2
    ensures agents[0] == RagScripture && agents[1] == ContextMemory
    ensures useAll ==> agents[2] == WebSearch && agents[3] == GeminiAi
  {
    [RagScripture, ContextMemory] + (if useAll then [WebSearch, GeminiAi] else [])
  }

  /** Quick mode starts a prefix of what full mode starts; full mode starts every agent once. */
  lemma DispatchModes()
    ensures Dispatched(false) == Dispatched(true)[..2]
    ensures forall k: AgentKind :: k in Dispatched(true)
    ensures forall i, j :: 0 <= i < j < 4 ==> Dispatched(true)[i] != Dispatched(true)[j]
  {
    var full := Dispatched(true);
    assert full == [RagScripture, ContextMemory, WebSearch, GeminiAi];
    forall k: AgentKind ensures k in full {
      match k
      case RagScripture => assert full[0] == k;
      case ContextMemory => assert full[1] == k;
      case WebSearch => assert full[2] == k;
      case GeminiAi => assert full[3] == k;
    }
  }

  /** What one awaited task produced: a record, or an exception that escaped it. */
  datatype Outcome = Returned(record: AgentRecord) | Raised(error: string)

  /** The records of the tasks that did not raise, in dispatch order. */
  function Survivors(outcomes: seq<Outcome>): (r: seq<AgentRecord>)
    ensures |r| <= |outcomes|
  {
    if outcomes == [] then []
    else
      var last := outcomes[|outcomes| - 1];
      Survivors(outcomes[..|outcomes| - 1]) + (if last.Returned? then [last.record] else [])
  }

  /** The positions of the tasks that did not raise, ascending. */
  function ReturnedAt(outcomes: seq<Outcome>): (ix: seq<nat>)
    ensures forall k :: 0 <= k < |ix| ==> ix[k] < |outcomes| && outcomes[ix[k]].Returned?
    ensures forall k, l :: 0 <= k < l < |ix| ==> ix[k] < ix[l]
    ensures forall i :: 0 <= i < |outcomes| && outcomes[i].Returned? ==> i in ix
  {
    if outcomes == [] then []
    else
      var n := |outcomes| - 1;
      var front := ReturnedAt(outcomes[..n]);
      if outcomes[n].Returned? then front + [n] else front
  }

  /**
   * Fan-in keeps exactly the records that came back, in dispatch order: the k-th survivor is
   * the record of the k-th task that did not raise.
   */
  lemma {:induction false} SurvivorsInOrder(outcomes: seq<Outcome>)
    ensures var ix := ReturnedAt(outcomes);
            |Survivors(outcomes)| == |ix| &&
            forall k :: 0 <= k < |ix| ==> Survivors(outcomes)[k] == outcomes[ix[k]].record
  {
    if outcomes != [] {
      var n := |outcomes| - 1;
      var front := outcomes[..n];
      SurvivorsInOrder(front);
      var ix, sv := ReturnedAt(front), Survivors(front);
      forall k | 0 <= k < |ix| ensures sv[k] == outcomes[ix[k]].record {
        assert front[ix[k]] == outcomes[ix[k]];
      }
      if outcomes[n].Returned? {
        assert Survivors(outcomes) == sv + [outcomes[n].record];
        assert ReturnedAt(outcomes) == ix + [n];
      } else {
        assert Survivors(outcomes) == sv;
        assert ReturnedAt(outcomes) == ix;
      }
    }
  }

  /** When no task raises (the agents' `execute` never does), fan-in keeps every record. */
  lemma {:induction false} SurvivorsAllReturned(outcomes: seq<Outcome>)
    requires forall k :: 0 <= k < |outcomes| ==> outcomes[k].Returned?
    ensures Survivors(outcomes) == seq(|outcomes|, k requires 0 <= k < |outcomes| => outcomes[k].record)
  {
    if outcomes != [] {
      SurvivorsAllReturned(outcomes[..|outcomes| - 1]);
    }
  }

  /** The filtering loop of `_query_all_agents`. */
  method FanIn(outcomes: seq<Outcome>) returns (valid: seq<AgentRecord>)
    ensures valid == Survivors(outcomes)
  {
    valid := [];
    for i := 0 to |outcomes|
      invariant valid == Survivors(outcomes[..i])
    {
      assert outcomes[..i + 1][..i] == outcomes[..i];
      if outcomes[i].Returned? {
        valid := valid + [outcomes[i].record];
      }
    }
    assert outcomes[..|outcomes|] == outcomes;
  }

  // ---------------------------------------------------------------- routing into slots

  datatype Slot = RagSlot | WebSlot | GeminiSlot | ContextSlot

  /** The slot an agent's answer goes to: the first of "RAG", "Web", "Gemini", "Context" in its name. */
  function SlotOf(agent: string): (r: Option<Slot>)
    ensures r == Some(RagSlot) <==> Contains(agent, "RAG")
    ensures r == Some(WebSlot) <==> !Contains(agent, "RAG") && Contains(agent, "Web")
    ensures r == Some(GeminiSlot) <==>
              !Contains(agent, "RAG") && !Contains(agent, "Web") && Contains(agent, "Gemini")
    ensures r == Some(ContextSlot) <==>
              !Contains(agent, "RAG") && !Contains(agent, "Web") && !Contains(agent, "Gemini") &&
              Contains(agent, "Context")
  {
    if Contains(agent, "RAG") then Some(RagSlot)
    else if Contains(agent, "Web") then Some(WebSlot)
    else if Contains(agent, "Gemini") then Some(GeminiSlot)
    else if Contains(agent, "Context") then Some(ContextSlot)
    else None
  }

  /** The four answers handed to verification; "" where no agent supplied one. */
  datatype Slots = Slots(rag: string, web: string, gemini: string, context: string)

  function SlotValue(s: Slots, slot: Slot): string {
    match slot
    case RagSlot => s.rag
    case WebSlot => s.web
    case GeminiSlot => s.gemini
    case ContextSlot => s.context
  }

  function Fill(s: Slots, slot: Slot, content: string): (r: Slots)
    ensures SlotValue(r, slot) == content
    ensures forall other :: other != slot ==> SlotValue(r, other) == SlotValue(s, other)
  {
    match slot
    case RagSlot => s.(rag := content)
    case WebSlot => s.(web := content)
    case GeminiSlot => s.(gemini := content)
    case ContextSlot => s.(context := content)
  }

  /** A record that writes into `slot`: successful, and routed there by its agent name. */
  predicate Feeds(r: AgentRecord, slot: Slot) {
    r.success && SlotOf(r.agent) == Some(slot)
  }

  /** The slots after the routing loop has seen `records`. */
  function Route(records: seq<AgentRecord>): Slots {
    if records == [] then Slots("", "", "", "")
    else
      var s := Route(records[..|records| - 1]);
      var r := records[|records| - 1];
      if !r.success then s
      else match SlotOf(r.agent)
        case None => s
        case Some(slot) => Fill(s, slot, r.response)
  }

  /** The last record overwrites `slot` exactly when it feeds it. */
  lemma RouteStep(records: seq<AgentRecord>, slot: Slot)
    requires records != []
    ensures var last := records[|records| - 1];
            SlotValue(Route(records), slot) ==
              if Feeds(last, slot) then last.response
              else SlotValue(Route(records[..|records| - 1]), slot)
  {
  }

  /** The index of the last record that feeds `slot`, if any. */
  function LastFeeder(records: seq<AgentRecord>, slot: Slot): (r: Option<nat>)
    ensures r.None? <==> forall k :: 0 <= k < |records| ==> !Feeds(records[k], slot)
    ensures r.Some? ==>
              && r.value < |records| && Feeds(records[r.value], slot)
              && forall l :: r.value < l < |records| ==> !Feeds(records[l], slot)
  {
    if records == [] then None
    else
      var n := |records| - 1;
      if Feeds(records[n], slot) then Some(n)
      else
        assert forall k :: 0 <= k < n ==> records[..n][k] == records[k];
        LastFeeder(records[..n], slot)
  }

  /** The routing loop leaves in each slot the answer of its last feeder, or "". */
  lemma {:induction false} RouteIsLastFeeder(records: seq<AgentRecord>, slot: Slot)
    ensures SlotValue(Route(records), slot) ==
              match LastFeeder(records, slot)
              case None => ""
              case Some(k) => records[k].response
  {
    if records != [] {
      var n := |records| - 1;
      RouteIsLastFeeder(records[..n], slot);
      RouteStep(records, slot);
    }
  }

  /**
   * Each slot holds the answer of the LAST successful record routed to it, or "" when there
   * is none: failures are skipped and a later answer overwrites an earlier one.
   */
  lemma RouteSlot(records: seq<AgentRecord>, slot: Slot)
    ensures (forall k :: 0 <= k < |records| ==> !Feeds(records[k], slot)) ==>
              SlotValue(Route(records), slot) == ""
    ensures (exists k :: 0 <= k < |records| && Feeds(records[k], slot)) ==>
              exists k :: 0 <= k < |records| && Feeds(records[k], slot) &&
                SlotValue(Route(records), slot) == records[k].response &&
                forall l :: k < l < |records| ==> !Feeds(records[l], slot)
  {
    RouteIsLastFeeder(records, slot);
  }

  /** The words tested against an agent name, in the order they are tried. */
  const SlotWords: seq<string> := ["RAG", "Web", "Gemini", "Context"]

  function Rank(slot: Slot): nat {
    match slot
    case RagSlot => 0
    case WebSlot => 1
    case GeminiSlot => 2
    case ContextSlot => 3
  }

  /** A name starting with a slot's word and missing the initials of the earlier words routes there. */
  lemma NamedSlot(name: string, slot: Slot)
    requires StartsWith(name, SlotWords[Rank(slot)])
    requires forall j, k :: 0 <= j < Rank(slot) && 0 <= k < |name| ==> name[k] != SlotWords[j][0]
    ensures SlotOf(name) == Some(slot)
  {
    assert OccursAt(name, SlotWords[Rank(slot)], 0);
    ContainsAt(name, SlotWords[Rank(slot)], 0);
    forall j | 0 <= j < Rank(slot) ensures !Contains(name, SlotWords[j]) {
      NotContainsName(name, SlotWords[j]);
    }
    assert SlotWords[0] == "RAG" && SlotWords[1] == "Web";
    assert SlotWords[2] == "Gemini" && SlotWords[3] == "Context";
  }

  /** The slot each agent's answers are meant for. */
  function HomeSlot(kind: AgentKind): Slot {
    match kind
    case RagScripture => RagSlot
    case ContextMemory => ContextSlot
    case WebSearch => WebSlot
    case GeminiAi => GeminiSlot
  }

  /** Every agent's own name routes its answer to its own slot. */
  lemma AgentRoutesHome(kind: AgentKind)
    ensures SlotOf(NameOf(kind)) == Some(HomeSlot(kind))
  {
    NamedSlot(NameOf(kind), HomeSlot(kind));
  }

  /** `sub` is not in `s` when its first letter is not. */
  lemma NotContainsName(s: string, sub: string)
    requires sub != [] && forall k :: 0 <= k < |s| ==> s[k] != sub[0]
    ensures !Contains(s, sub)
  {
    forall k: nat | k <= |s| ensures !OccursAt(s, sub, k) {
      if k + |sub| <= |s| {
        assert s[k..k + |sub|][0] == s[k];
      }
    }
    NoOccurrenceNotContains(s, sub);
  }

  /** The routing loop of `_verify_responses`, over four slot variables. */
  method RouteResponses(records: seq<AgentRecord>) returns (slots: Slots)
    ensures slots == Route(records)
  {
    var rag, web, gemini, context := "", "", "", "";
    for i := 0 to |records|
      invariant Slots(rag, web, gemini, context) == Route(records[..i])
    {
      assert records[..i + 1][..i] == records[..i];
      var response := records[i];
      if !response.success {
        continue;
      }
      var agentName := response.agent;
      var content := response.response;
      if Contains(agentName, "RAG") {
        rag := content;
      } else if Contains(agentName, "Web") {
        web := content;
      } else if Contains(agentName, "Gemini") {
        gemini := content;
      } else if Contains(agentName, "Context") {
        context := content;
      }
    }
    assert records[..|records|] == records;
    slots := Slots(rag, web, gemini, context);
  }

  // ---------------------------------------------------------------- verification

  const Apology := "I apologize, but I couldn't generate a verified answer at this time."

  /** The marker of the scripture agent's "nothing found" answer. */
  const NoScripture := "No relevant scripture"

  const VerifierSystem :=
    "SYSTEM: You are a verification agent that synthesizes and validates information from multiple sources.\n\n"

  /** The slots as the verification prompt shows them: each empty one replaced by a notice. */
  function Shown(s: Slots): Slots {
    Slots(if s.rag == "" then "No scripture database results" else s.rag,
          if s.web == "" then "No web search results" else s.web,
          if s.gemini == "" then "No Gemini response" else s.gemini,
          if s.context == "" then "No conversation history" else s.context)
  }

  /**
   * The answer when verification fails: the general-knowledge answer when there is one, else
   * the scripture answer unless it is the "nothing found" text, else the apology.
   */
  function Fallback(s: Slots): (r: string)
    ensures r != ""
    ensures r == s.gemini || r == s.rag || r == Apology
    ensures s.gemini != "" ==> r == s.gemini
    ensures s.gemini == "" && s.rag != "" && !Contains(s.rag, NoScripture) ==> r == s.rag
    ensures s.gemini == "" && (s.rag == "" || Contains(s.rag, NoScripture)) ==> r == Apology
  {
    if s.gemini != "" then s.gemini
    else if s.rag != "" && !Contains(s.rag, NoScripture) then s.rag
    else Apology
  }

  /** The scripture agent's own "nothing found" answer never becomes the fallback answer. */
  lemma FallbackSkipsEmptyScripture(s: Slots)
    requires s.gemini == ""
    requires s.rag == "No relevant scripture passages found for this query."
    ensures Fallback(s) == Apology
  {
    assert StartsWith(s.rag, NoScripture);
  }

  /**
   * `_verify_responses`: the model (an oracle from prompt to reply, or the error it raised)
   * is asked with the rendered prompt (`render` stands for the prompt template); a non-empty
   * reply is the answer, stripped; an error or an empty reply leads to the fallback.
   */
  function Verified(query: string, records: seq<AgentRecord>, render: (string, Slots) -> string,
                    generate: string -> Result<string, string>): (r: string)
    ensures var slots := Route(records);
            var reply := generate(VerifierSystem + render(query, Shown(slots)));
            && (reply.Success? && reply.value != "" ==> r == Strip(reply.value))
            && (reply.Failure? || reply.value == "" ==> r == Fallback(slots))
  {
    var slots := Route(records);
    match generate(VerifierSystem + render(query, Shown(slots)))
    case Success(text) => if text != "" then Strip(text) else Fallback(slots)
    case Failure(_) => Fallback(slots)
  }

  // ---------------------------------------------------------------- chat messages

  const ConverserSystem :=
    "SYSTEM: You are an expert at converting information into natural, conversational WhatsApp messages.\n\n"

  /** Every piece stripped. */
  function StripAll(pieces: seq<string>): (r: seq<string>)
    ensures |r| == |pieces| && forall k :: 0 <= k < |pieces| ==> r[k] == Strip(pieces[k])
  {
    seq(|pieces|, k requires 0 <= k < |pieces| => Strip(pieces[k]))
  }

  /** The non-empty strings, in order. */
  function NonEmpty(xs: seq<string>): (r: seq<string>)
    ensures |r| <= |xs|
    ensures forall k :: 0 <= k < |r| ==> r[k] != ""
  {
    if xs == [] then []
    else NonEmpty(xs[..|xs| - 1]) + (if xs[|xs| - 1] != "" then [xs[|xs| - 1]] else [])
  }

  lemma {:induction false} NonEmptyExactly(xs: seq<string>, m: string)
    ensures m in NonEmpty(xs) <==> m != "" && m in xs
  {
    if xs != [] {
      var n := |xs| - 1;
      NonEmptyExactly(xs[..n], m);
      assert xs == xs[..n] + [xs[n]];
    }
  }

  /** The stripped pieces that are not empty, in order. */
  function Kept(pieces: seq<string>): (r: seq<string>)
    ensures |r| <= |pieces|
    ensures forall k :: 0 <= k < |r| ==> r[k] != ""
  {
    NonEmpty(StripAll(pieces))
  }

  /** A message is kept exactly when it is the non-empty strip of some piece. */
  lemma KeptExactly(pieces: seq<string>, m: string)
    ensures m in Kept(pieces) <==> m != "" && exists k :: 0 <= k < |pieces| && Strip(pieces[k]) == m
  {
    NonEmptyExactly(StripAll(pieces), m);
  }

  /**
   * `_generate_conversational_response` given the model's reply: the stripped reply split on
   * "|||", each piece stripped, empty ones dropped, at most six kept; the verified answer
   * alone when nothing is left, the reply is empty or the call failed.
   */
  function Messages(verified: string, reply: Result<string, string>): (r: seq<string>)
    ensures 1 <= |r| <= MaxMessagesPerResponse
    ensures r == [verified] || forall k :: 0 <= k < |r| ==> r[k] != ""
    ensures reply.Failure? || reply.value == "" ==> r == [verified]
    ensures reply.Success? && reply.value != "" ==>
              var kept := Kept(Split(Strip(reply.value), "|||"));
              && (kept == [] ==> r == [verified])
              && (kept != [] ==>
                    |r| == (if |kept| > MaxMessagesPerResponse then MaxMessagesPerResponse else |kept|) &&
                    r == kept[..|r|])
  {
    match reply
    case Failure(_) => [verified]
    case Success(text) =>
      if text == "" then [verified]
      else
        var kept := Kept(Split(Strip(text), "|||"));
        var messages := if |kept| > MaxMessagesPerResponse then kept[..MaxMessagesPerResponse] else kept;
        if messages == [] then [verified] else messages
  }

  /** A reply with no "|||" that is not blank becomes a single message: the reply stripped. */
  lemma SingleMessage(verified: string, text: string)
    requires !Contains(text, "|||") && Strip(text) != ""
    ensures Messages(verified, Success(text)) == [Strip(text)]
  {
    var t := Strip(text);
    StripKeepsAbsence(text, "|||");
    SplitWithoutSeparator(t, "|||");
    StripOfTrimmed(t);
    KeptSingle(t);
    assert text != "";
    MessagesAreKept(verified, text);
  }

  /** Up to six kept pieces are the messages themselves. */
  lemma MessagesAreKept(verified: string, text: string)
    requires text != ""
    requires 1 <= |Kept(Split(Strip(text), "|||"))| <= MaxMessagesPerResponse
    ensures Messages(verified, Success(text)) == Kept(Split(Strip(text), "|||"))
  {
  }

  /** More than six kept pieces: only the first six are sent, in order. */
  lemma MessagesCapped(verified: string, text: string)
    requires text != ""
    requires |Kept(Split(Strip(text), "|||"))| > MaxMessagesPerResponse
    ensures Messages(verified, Success(text)) == Kept(Split(Strip(text), "|||"))[..MaxMessagesPerResponse]
  {
  }

  /** A reply that is blank once split and stripped falls back to the verified answer. */
  lemma MessagesFallBack(verified: string, text: string)
    requires Kept(Split(Strip(text), "|||")) == []
    ensures Messages(verified, Success(text)) == [verified]
  {
  }

  lemma KeptSingle(t: string)
    requires t != "" && Strip(t) == t
    ensures Kept([t]) == [t]
  {
    assert StripAll([t]) == [t];
    assert NonEmpty([t]) == NonEmpty([]) + [t];
  }

  /** The conversational step: the model is asked with the rendered prompt, then `Messages`. */
  function Conversational(verified: string, render: string -> string,
                          generate: string -> Result<string, string>): (r: seq<string>)
    ensures 1 <= |r| <= MaxMessagesPerResponse
  {
    Messages(verified, generate(ConverserSystem + render(verified)))
  }

  // ---------------------------------------------------------------- citations

  /**
   * A scripture citation found in an answer: the book as written (stripped), the chapter and
   * verse numbers, and the source line rebuilt from them.
   */
  datatype Citation = Citation(book: string, chapter: nat, verse: nat, source: string)

  function SourceText(book: string, chapter: nat, verse: nat): string {
    book + ", Chapter " + NatToString(chapter) + ", Verse " + NatToString(verse)
  }

  function CitationJson(c: Citation): (j: Json)
    ensures j.JObj? && Get(j.fields, "source") == Some(JStr(c.source))
  {
    var fields := [("book", JStr(c.book)), ("chapter", JInt(c.chapter)),
                   ("verse", JInt(c.verse)), ("source", JStr(c.source))];
    assert fields[3..][0].0 == "source";
    assert fields[1..][1..][1..] == fields[3..];
    JObj(fields)
  }

  function CitationsJson(cs: seq<Citation>): (r: seq<Json>)
    ensures |r| == |cs| && forall k :: 0 <= k < |cs| ==> r[k] == CitationJson(cs[k])
  {
    seq(|cs|, k requires 0 <= k < |cs| => CitationJson(cs[k]))
  }

  /** The fixed words of the pattern, in lower case; they match in any ASCII case. */
  const Lead := "as mentioned in "
  const ChapterWord := ", chapter "
  const VerseWord := ", verse "

  /** `lit` (lower case) occurs at `i`, ignoring ASCII case. */
  predicate WordAt(s: string, i: nat, lit: string) {
    i + |lit| <= |s| && forall k {:trigger lit[k]} :: 0 <= k < |lit| ==> LowerChar(s[i + k]) == lit[k]
  }

  /** The length of the run of non-commas starting at `i`. */
  function NonCommaRun(s: string, i: nat): (n: nat)
    requires i <= |s|
    ensures i + n <= |s|
    ensures i + n < |s| ==> s[i + n] == ','
    decreases |s| - i
  {
    if i == |s| || s[i] == ',' then 0 else 1 + NonCommaRun(s, i + 1)
  }

  /** No comma inside the run. */
  lemma {:induction false} NonCommaRunChars(s: string, i: nat)
    requires i <= |s|
    ensures forall k :: i <= k < i + NonCommaRun(s, i) ==> s[k] != ','
    decreases |s| - i
  {
    if i < |s| && s[i] != ',' {
      NonCommaRunChars(s, i + 1);
    }
  }

  /** The length of the run of decimal digits starting at `i`. */
  function DigitRun(s: string, i: nat): (n: nat)
    requires i <= |s|
    ensures i + n <= |s|
    ensures i + n < |s| ==> !IsDigit(s[i + n])
    decreases |s| - i
  {
    if i == |s| || !IsDigit(s[i]) then 0 else 1 + DigitRun(s, i + 1)
  }

  /** `s[i..j]` is all digits. */
  predicate DigitsIn(s: string, i: nat, j: nat) {
    i <= j <= |s| && forall k :: i <= k < j ==> IsDigit(s[k])
  }

  /** Only digits inside the run. */
  lemma {:induction false} DigitRunChars(s: string, i: nat)
    requires i <= |s|
    ensures DigitsIn(s, i, i + DigitRun(s, i))
    decreases |s| - i
  {
    if i < |s| && IsDigit(s[i]) {
      DigitRunChars(s, i + 1);
    }
  }

  /** The value of the digit run `s[i..j]`, as `int()` reads it. */
  function Number(s: string, i: nat, j: nat): nat
    requires DigitsIn(s, i, j)
    decreases j - i
  {
    if j == i then 0 else Number(s, i, j - 1) * 10 + (s[j - 1] as int - '0' as int)
  }

  /** `Number` is the decimal value of the slice it reads. */
  lemma {:induction false} NumberOfSlice(s: string, i: nat, j: nat)
    requires DigitsIn(s, i, j)
    ensures AllDigits(s[i..j]) && Number(s, i, j) == DigitsValue(s[i..j])
    decreases j - i
  {
    assert forall k :: 0 <= k < j - i ==> s[i..j][k] == s[i + k];
    if j > i {
      NumberOfSlice(s, i, j - 1);
      assert s[i..j][..j - i - 1] == s[i..j - 1];
    }
  }

  /** The characters of `s` from `b` up to `c`, as a group of the match captures them. */
  function Group(s: string, b: nat, c: nat): (g: string)
    requires b <= c <= |s|
    ensures |g| == c - b
    decreases c - b
  {
    if b == c then [] else [s[b]] + Group(s, b + 1, c)
  }

  lemma {:induction false} GroupIsSlice(s: string, b: nat, c: nat)
    requires b <= c <= |s|
    ensures Group(s, b, c) == s[b..c]
    decreases c - b
  {
    if b < c {
      GroupIsSlice(s, b + 1, c);
      assert s[b..c] == [s[b]] + s[b + 1..c];
    }
  }

  /** A group taken from a comma-free stretch holds no comma. */
  lemma {:induction false} GroupCommaFree(s: string, b: nat, c: nat)
    requires b <= c <= |s| && forall k :: b <= k < c ==> s[k] != ','
    ensures forall k :: 0 <= k < c - b ==> Group(s, b, c)[k] != ','
    decreases c - b
  {
    if b < c {
      GroupCommaFree(s, b + 1, c);
      assert forall k :: 1 <= k < c - b ==> Group(s, b, c)[k] == Group(s, b + 1, c)[k - 1];
    }
  }

  /** `strip()` keeps a comma-free text comma-free. */
  lemma StripCommaFree(t: string)
    requires forall k :: 0 <= k < |t| ==> t[k] != ','
    ensures forall k :: 0 <= k < |Strip(t)| ==> Strip(t)[k] != ','
  {
    var r, j := Strip(t), LeadingSpaces(t);
    StripSlice(t);
    forall k | 0 <= k < |r| ensures r[k] != ',' {
      assert r[k] == t[j + k];
    }
  }

  /**
   * One match of the pattern: where the book group starts and ends, both numbers, and the
   * index just after the match.
   */
  datatype Hit = Hit(bookStart: nat, bookEnd: nat, chapter: nat, verse: nat, end: nat)

  /**
   * The pattern matched at `i`. The book is the longest comma-free run after the lead words
   * and must be followed by ", Chapter "; both numbers are the longest digit runs (the greedy
   * groups cannot give back any character and still match).
   */
  function MatchAt(s: string, i: nat): (m: Option<Hit>)
    requires i <= |s|
    ensures m.Some? ==> i < m.value.bookStart < m.value.bookEnd < m.value.end <= |s|
  {
    if WordAt(s, i, Lead) then BookFrom(s, i + |Lead|) else None
  }

  /** The rest of a match once the lead words are read, the book starting at `b`. */
  function BookFrom(s: string, b: nat): (m: Option<Hit>)
    requires b <= |s|
    ensures m.Some? ==> b == m.value.bookStart < m.value.bookEnd < m.value.end <= |s|
  {
    var c := b + NonCommaRun(s, b);
    if c > b && WordAt(s, c, ChapterWord) then ChapterFrom(s, b, c, c + |ChapterWord|) else None
  }

  /** The rest of a match once ", Chapter " is read, the chapter number starting at `d`. */
  function ChapterFrom(s: string, b: nat, c: nat, d: nat): (m: Option<Hit>)
    requires d <= |s|
    ensures m.Some? ==> d < m.value.end <= |s| && m.value.bookStart == b && m.value.bookEnd == c
  {
    var v := d + DigitRun(s, d);
    DigitRunChars(s, d);
    if v > d && WordAt(s, v, VerseWord) then VerseFrom(s, b, c, Number(s, d, v), v + |VerseWord|)
    else None
  }

  /** The rest of a match once ", Verse " is read, the verse number starting at `w`. */
  function VerseFrom(s: string, b: nat, c: nat, chapter: nat, w: nat): (m: Option<Hit>)
    requires w <= |s|
    ensures m.Some? ==> (w < m.value.end <= |s| && m.value.bookStart == b &&
                         m.value.bookEnd == c && m.value.chapter == chapter)
  {
    var e := w + DigitRun(s, w);
    DigitRunChars(s, w);
    if e > w then Some(Hit(b, c, chapter, Number(s, w, e), e)) else None
  }

  /** A matched book group never holds a comma. */
  lemma MatchedBookCommaFree(s: string, i: nat)
    requires i <= |s| && MatchAt(s, i).Some?
    ensures var h := MatchAt(s, i).value;
            forall k :: h.bookStart <= k < h.bookEnd ==> s[k] != ','
  {
    NonCommaRunChars(s, i + |Lead|);
  }

  /** The record `_extract_citations` appends for one match: the book group, stripped. */
  function CitationOf(s: string, h: Hit): Citation
    requires h.bookStart <= h.bookEnd <= |s|
  {
    var book := Strip(Group(s, h.bookStart, h.bookEnd));
    Citation(book, h.chapter, h.verse, SourceText(book, h.chapter, h.verse))
  }

  /** `re.finditer` from `i`: a match is taken and scanning resumes after it; else one step on. */
  function HitsFrom(s: string, i: nat): (r: seq<Hit>)
    requires i <= |s|
    ensures forall n :: 0 <= n < |r| ==> i < r[n].bookStart < r[n].bookEnd < r[n].end <= |s|
    decreases |s| - i
  {
    if i == |s| then []
    else match MatchAt(s, i)
      case Some(h) => [h] + HitsFrom(s, h.end)
      case None => HitsFrom(s, i + 1)
  }

  /** Every book span of `hits` lies inside `s`. */
  predicate SpansIn(s: string, hits: seq<Hit>) {
    forall n :: 0 <= n < |hits| ==> hits[n].bookStart <= hits[n].bookEnd <= |s|
  }

  /** The records for a run of matches, one per match, in order. */
  function CitationsOf(s: string, hits: seq<Hit>): (r: seq<Citation>)
    requires SpansIn(s, hits)
    ensures |r| == |hits| && forall n :: 0 <= n < |hits| ==> r[n] == CitationOf(s, hits[n])
  {
    if hits == [] then []
    else
      var last := |hits| - 1;
      CitationsOf(s, hits[..last]) + [CitationOf(s, hits[last])]
  }

  /** `_extract_citations`: one record per match of the pattern, in order of appearance. */
  function Citations(text: string): seq<Citation> {
    CitationsOf(text, HitsFrom(text, 0))
  }

  /** The book group of `h` holds no comma. */
  predicate BookCommaFree(s: string, h: Hit) {
    h.bookEnd <= |s| && forall k :: h.bookStart <= k < h.bookEnd ==> s[k] != ','
  }

  /** No matched book group holds a comma. */
  lemma {:induction false} HitsCommaFree(s: string, i: nat)
    requires i <= |s|
    ensures forall h :: h in HitsFrom(s, i) ==> BookCommaFree(s, h)
    decreases |s| - i
  {
    if i < |s| {
      match MatchAt(s, i)
      case Some(h) =>
        assert HitsFrom(s, i) == [h] + HitsFrom(s, h.end);
        assert BookCommaFree(s, h) by {
          MatchedBookCommaFree(s, i);
        }
        HitsCommaFree(s, h.end);
      case None =>
        HitsCommaFree(s, i + 1);
    }
  }

  /**
   * Every reported citation is well formed: its source line is written from its own book,
   * chapter and verse, and its book holds no comma.
   */
  lemma CitationsWellFormed(s: string)
    ensures forall n :: 0 <= n < |Citations(s)| ==>
              var c := Citations(s)[n];
              c.source == SourceText(c.book, c.chapter, c.verse) &&
              forall k :: 0 <= k < |c.book| ==> c.book[k] != ','
  {
    var hits := HitsFrom(s, 0);
    HitsCommaFree(s, 0);
    forall n | 0 <= n < |hits|
      ensures forall k :: 0 <= k < |Citations(s)[n].book| ==> Citations(s)[n].book[k] != ','
    {
      var h := hits[n];
      assert BookCommaFree(s, h);
      GroupCommaFree(s, h.bookStart, h.bookEnd);
      StripCommaFree(Group(s, h.bookStart, h.bookEnd));
    }
  }

  /** One more match adds its record at the end. */
  lemma CitationsOfSnoc(s: string, hits: seq<Hit>, h: Hit)
    requires SpansIn(s, hits)
    requires h.bookStart <= h.bookEnd <= |s|
    ensures SpansIn(s, hits + [h])
    ensures CitationsOf(s, hits + [h]) == CitationsOf(s, hits) + [CitationOf(s, h)]
  {
    assert (hits + [h])[..|hits|] == hits;
  }

  /** One step of the scan from `i`: a match there, or none and the scan moves on. */
  lemma HitsStep(s: string, i: nat)
    requires i < |s|
    ensures MatchAt(s, i).Some? ==>
              HitsFrom(s, i) == [MatchAt(s, i).value] + HitsFrom(s, MatchAt(s, i).value.end)
    ensures MatchAt(s, i).None? ==> HitsFrom(s, i) == HitsFrom(s, i + 1)
  {
  }

  /** A match at `i` moves the scan past it. */
  lemma ScanMatch(s: string, done: seq<Hit>, i: nat, h: Hit)
    requires i < |s| && MatchAt(s, i) == Some(h)
    requires HitsFrom(s, 0) == done + HitsFrom(s, i)
    ensures i < h.end <= |s| && h.bookStart <= h.bookEnd <= |s|
    ensures HitsFrom(s, 0) == (done + [h]) + HitsFrom(s, h.end)
  {
    var rest := HitsFrom(s, h.end);
    assert HitsFrom(s, i) == [h] + rest;
    assert done + ([h] + rest) == (done + [h]) + rest;
  }

  /** No match at `i`: the scan moves on by one. */
  lemma ScanSkip(s: string, done: seq<Hit>, i: nat)
    requires i < |s| && MatchAt(s, i).None?
    requires HitsFrom(s, 0) == done + HitsFrom(s, i)
    ensures HitsFrom(s, 0) == done + HitsFrom(s, i + 1)
  {
    HitsStep(s, i);
  }

  /** `_extract_citations`: the scanning loop, one record per match, in order. */
  method ExtractCitations(text: string) returns (citations: seq<Citation>)
    ensures citations == Citations(text)
  {
    citations := [];
    var i := 0;
    ghost var done: seq<Hit> := [];
    while i < |text|
      invariant i <= |text|
      invariant SpansIn(text, done)
      invariant HitsFrom(text, 0) == done + HitsFrom(text, i)
      invariant citations == CitationsOf(text, done)
      decreases |text| - i
    {
      var m := MatchAt(text, i);
      if m.Some? {
        var h := m.value;
        ScanMatch(text, done, i, h);
        CitationsOfSnoc(text, done, h);
        citations := citations + [CitationOf(text, h)];
        done := done + [h];
        i := h.end;
      } else {
        ScanSkip(text, done, i);
        i := i + 1;
      }
    }
    assert done + [] == done;
  }

  /** The citation text as the answer writes it. */
  function CitationLine(book: string, chapter: nat, verse: nat): string {
    "As mentioned in " + SourceText(book, chapter, verse)
  }

  /** `w` is written as `lit` up to ASCII case. */
  predicate Spells(w: string, lit: string) {
    |w| == |lit| && forall k :: 0 <= k < |w| ==> LowerChar(w[k]) == lit[k]
  }

  /** The fixed words, as the answer writes them, spell the lower-case pattern words. */
  lemma WordsMatch()
    ensures Spells("As mentioned in ", Lead)
    ensures Spells(", Chapter ", ChapterWord)
    ensures Spells(", Verse ", VerseWord)
  {
  }

  /** A run of non-commas that ends at a comma or at the end is the whole run. */
  lemma {:induction false} NonCommaRunIs(s: string, i: nat, n: nat)
    requires i + n <= |s|
    requires forall k :: i <= k < i + n ==> s[k] != ','
    requires i + n < |s| ==> s[i + n] == ','
    ensures NonCommaRun(s, i) == n
    decreases n
  {
    if n > 0 {
      NonCommaRunIs(s, i + 1, n - 1);
    }
  }

  /** A run of digits that ends at a non-digit or at the end is the whole run. */
  lemma {:induction false} DigitRunIs(s: string, i: nat, n: nat)
    requires i + n <= |s|
    requires forall k :: i <= k < i + n ==> IsDigit(s[k])
    requires i + n < |s| ==> !IsDigit(s[i + n])
    ensures DigitRun(s, i) == n
    decreases n
  {
    if n > 0 {
      DigitRunIs(s, i + 1, n - 1);
    }
  }

  /** `p` is written in `s` starting at `o`. */
  predicate Occurs(s: string, o: nat, p: string) {
    o + |p| <= |s| && forall k {:trigger p[k]} :: 0 <= k < |p| ==> s[o + k] == p[k]
  }

  /** A word written at `i` that spells `lit` up to case is found there by the pattern. */
  lemma WordAtSpelled(s: string, i: nat, w: string, lit: string)
    requires Occurs(s, i, w) && Spells(w, lit)
    ensures WordAt(s, i, lit)
  {
    forall k | 0 <= k < |lit| ensures LowerChar(s[i + k]) == lit[k] {
      assert s[i + k] == w[k];
    }
  }

  /** A written number not followed by another digit is read back from where it sits. */
  lemma DigitsAt(s: string, d: nat, n: nat)
    requires Occurs(s, d, NatToString(n))
    requires d + |NatToString(n)| < |s| ==> !IsDigit(s[d + |NatToString(n)|])
    ensures var e := d + |NatToString(n)|;
            e > d && DigitRun(s, d) == e - d && DigitsIn(s, d, e) && Number(s, d, e) == n
  {
    var ns := NatToString(n);
    forall k | d <= k < d + |ns| ensures IsDigit(s[k]) {
      assert s[d + (k - d)] == ns[k - d];
    }
    assert s[d..d + |ns|] == ns;
    NumberOfSlice(s, d, d + |ns|);
    DigitsValueOfNatToString(n);
    DigitRunIs(s, d, |ns|);
  }

  /** Where each of six parts sits in `p1 + (p2 + p3 + p4 + p5 + p6)`. */
  lemma Layout(p1: string, p2: string, p3: string, p4: string, p5: string, p6: string)
    ensures var line := p1 + (p2 + p3 + p4 + p5 + p6);
            var o3 := |p1| + |p2|;
            var o4 := o3 + |p3|;
            var o5 := o4 + |p4|;
            var o6 := o5 + |p5|;
            && |line| == o6 + |p6|
            && Occurs(line, 0, p1) && Occurs(line, |p1|, p2) && Occurs(line, o3, p3)
            && Occurs(line, o4, p4) && Occurs(line, o5, p5) && Occurs(line, o6, p6)
  {
    var x4 := p2 + p3 + p4 + p5;
    var x3 := p2 + p3 + p4;
    var x2 := p2 + p3;
    var line := p1 + (x4 + p6);
    assert forall k :: 0 <= k < |x4| + |p6| ==> line[|p1| + k] == (x4 + p6)[k];
    assert forall k :: 0 <= k < |x4| ==> (x4 + p6)[k] == x4[k];
    assert forall k :: 0 <= k < |x3| ==> x4[k] == x3[k];
    assert forall k :: 0 <= k < |x2| ==> x3[k] == x2[k];
  }

  /** A part of a line written at `i` is written at its offset from `i`. */
  lemma OccursWithin(s: string, i: nat, line: string, o: nat, j: nat, p: string)
    requires Occurs(s, i, line) && Occurs(line, o, p) && j == i + o
    ensures Occurs(s, j, p)
  {
    forall k | 0 <= k < |p| ensures s[j + k] == p[k] {
      assert s[i + (o + k)] == line[o + k];
    }
  }

  /** The book group runs from `b` to `c` and is followed by ", Chapter ". */
  predicate BookPart(s: string, b: nat, c: nat) {
    b <= c <= |s| && c == b + NonCommaRun(s, b) && c > b && WordAt(s, c, ChapterWord)
  }

  /** The chapter digits run from `d` to `v`, read as `chapter`, and are followed by ", Verse ". */
  predicate ChapterPart(s: string, d: nat, v: nat, chapter: nat) {
    && d <= v <= |s| && v == d + DigitRun(s, d) && v > d
    && DigitsIn(s, d, v) && Number(s, d, v) == chapter && WordAt(s, v, VerseWord)
  }

  /** The verse digits run from `w` to `e` and are read as `verse`. */
  predicate VersePart(s: string, w: nat, e: nat, verse: nat) {
    w <= e <= |s| && e == w + DigitRun(s, w) && e > w && DigitsIn(s, w, e) && Number(s, w, e) == verse
  }

  /** The positions of one match of the pattern at `i`, part by part. */
  predicate Parts(s: string, i: nat, b: nat, c: nat, d: nat, v: nat, w: nat, e: nat,
                  chapter: nat, verse: nat)
  {
    && i <= |s| && WordAt(s, i, Lead) && b == i + |Lead|
    && BookPart(s, b, c) && d == c + |ChapterWord|
    && ChapterPart(s, d, v, chapter) && w == v + |VerseWord|
    && VersePart(s, w, e, verse)
  }

  /** A non-empty comma-free book written from `b` to `c` and followed by ", Chapter " is the group. */
  lemma BookAt(s: string, b: nat, c: nat, book: string, w2: string)
    requires c == b + |book| && book != [] && forall k :: 0 <= k < |book| ==> book[k] != ','
    requires Occurs(s, b, book) && Occurs(s, c, w2)
    requires Spells(w2, ChapterWord) && w2 != [] && w2[0] == ','
    ensures BookPart(s, b, c) && Group(s, b, c) == book
  {
    forall k | b <= k < c ensures s[k] != ',' {
      assert s[b + (k - b)] == book[k - b];
    }
    assert s[c + 0] == w2[0];
    NonCommaRunIs(s, b, |book|);
    WordAtSpelled(s, c, w2, ChapterWord);
    assert s[b..c] == book;
    GroupIsSlice(s, b, c);
  }

  /** A chapter number written from `d` to `v` and followed by ", Verse " is read back. */
  lemma ChapterAt(s: string, d: nat, v: nat, chapter: nat, w3: string)
    requires v == d + |NatToString(chapter)|
    requires Occurs(s, d, NatToString(chapter)) && Occurs(s, v, w3)
    requires Spells(w3, VerseWord) && w3 != [] && w3[0] == ','
    ensures ChapterPart(s, d, v, chapter)
  {
    assert s[v + 0] == w3[0];
    DigitsAt(s, d, chapter);
    WordAtSpelled(s, v, w3, VerseWord);
  }

  /** A verse number written from `w` to `e` and not followed by a digit is read back. */
  lemma VerseAt(s: string, w: nat, e: nat, verse: nat)
    requires e == w + |NatToString(verse)|
    requires Occurs(s, w, NatToString(verse)) && (e < |s| ==> !IsDigit(s[e]))
    ensures VersePart(s, w, e, verse)
  {
    DigitsAt(s, w, verse);
  }

  /**
   * Each part of the match read where the words `w1`, `w2`, `w3`, which spell the pattern's
   * fixed words, the book and both numbers are written one after the other from `i`.
   */
  lemma PartsAt(s: string, i: nat, b: nat, c: nat, d: nat, v: nat, w: nat, e: nat,
                w1: string, book: string, w2: string, chapter: nat, w3: string, verse: nat)
    requires Spells(w1, Lead) && Spells(w2, ChapterWord) && Spells(w3, VerseWord)
    requires book != [] && forall k :: 0 <= k < |book| ==> book[k] != ','
    requires w2 != [] && w2[0] == ',' && w3 != [] && w3[0] == ','
    requires b == i + |w1| && c == b + |book| && d == c + |w2|
    requires v == d + |NatToString(chapter)| && w == v + |w3| && e == w + |NatToString(verse)|
    requires Occurs(s, i, w1) && Occurs(s, b, book) && Occurs(s, c, w2)
    requires Occurs(s, d, NatToString(chapter)) && Occurs(s, v, w3)
    requires Occurs(s, w, NatToString(verse)) && (e < |s| ==> !IsDigit(s[e]))
    ensures Parts(s, i, b, c, d, v, w, e, chapter, verse) && Group(s, b, c) == book
  {
    WordAtSpelled(s, i, w1, Lead);
    BookAt(s, b, c, book, w2);
    ChapterAt(s, d, v, chapter, w3);
    VerseAt(s, w, e, verse);
  }

  /** The last step of a match: the verse number read from `w` up to `e`. */
  lemma VerseFromIs(s: string, b: nat, c: nat, chapter: nat, w: nat, e: nat, verse: nat)
    requires VersePart(s, w, e, verse)
    ensures VerseFrom(s, b, c, chapter, w) == Some(Hit(b, c, chapter, verse, e))
  {
  }

  /** The chapter step of a match: the chapter number from `d` up to `v`, then ", Verse ". */
  lemma ChapterFromIs(s: string, b: nat, c: nat, d: nat, v: nat, chapter: nat)
    requires ChapterPart(s, d, v, chapter)
    ensures ChapterFrom(s, b, c, d) == VerseFrom(s, b, c, chapter, v + |VerseWord|)
  {
  }

  /** The book step of a match: the comma-free run from `b` up to `c`, then ", Chapter ". */
  lemma BookFromIs(s: string, b: nat, c: nat)
    requires BookPart(s, b, c)
    ensures BookFrom(s, b) == ChapterFrom(s, b, c, c + |ChapterWord|)
  {
  }

  /** A match assembled from its parts, each read where the previous one ends. */
  lemma MatchFromParts(s: string, i: nat, b: nat, c: nat, d: nat, v: nat, w: nat, e: nat,
                       chapter: nat, verse: nat)
    requires Parts(s, i, b, c, d, v, w, e, chapter, verse)
    ensures MatchAt(s, i) == Some(Hit(b, c, chapter, verse, e))
  {
    VerseFromIs(s, b, c, chapter, w, e, verse);
    ChapterFromIs(s, b, c, d, v, chapter);
    BookFromIs(s, b, c);
    assert MatchAt(s, i) == BookFrom(s, b);
  }

  /**
   * A line `w1 + book + w2 + cs + w3 + vs` written at `i`, for words that spell the pattern's
   * fixed words, a non-empty comma-free book and no digit after it, is matched where it starts.
   */
  lemma MatchWords(s: string, i: nat, b: nat, c: nat, e: nat, w1: string, book: string,
                   w2: string, chapter: nat, w3: string, verse: nat)
    requires Spells(w1, Lead) && Spells(w2, ChapterWord) && Spells(w3, VerseWord)
    requires book != [] && forall k :: 0 <= k < |book| ==> book[k] != ','
    requires w2 != [] && w2[0] == ',' && w3 != [] && w3[0] == ','
    requires var line := w1 + (book + w2 + NatToString(chapter) + w3 + NatToString(verse));
             && b == i + |w1| && c == b + |book| && e == i + |line|
             && Occurs(s, i, line) && (e < |s| ==> !IsDigit(s[e]))
    ensures MatchAt(s, i) == Some(Hit(b, c, chapter, verse, e)) && Group(s, b, c) == book
  {
    var cs, vs := NatToString(chapter), NatToString(verse);
    var line := w1 + (book + w2 + cs + w3 + vs);
    Layout(w1, book, w2, cs, w3, vs);
    var d := c + |w2|;
    var v := d + |cs|;
    var w := v + |w3|;
    OccursWithin(s, i, line, 0, i, w1);
    OccursWithin(s, i, line, |w1|, b, book);
    OccursWithin(s, i, line, |w1| + |book|, c, w2);
    OccursWithin(s, i, line, |w1| + |book| + |w2|, d, cs);
    OccursWithin(s, i, line, |w1| + |book| + |w2| + |cs|, v, w3);
    OccursWithin(s, i, line, |w1| + |book| + |w2| + |cs| + |w3|, w, vs);
    PartsAt(s, i, b, c, d, v, w, e, w1, book, w2, chapter, w3, verse);
    MatchFromParts(s, i, b, c, d, v, w, e, chapter, verse);
  }

  /**
   * A citation written as "As mentioned in <book>, Chapter <c>, Verse <v>" at `i`, with a
   * non-empty, comma-free book and not followed by a digit, is matched where it starts: the
   * book group is exactly the book, both numbers are read back, and the scan resumes right
   * after it.
   */
  lemma MatchCitationLine(s: string, i: nat, e: nat, book: string, chapter: nat, verse: nat)
    requires book != []
    requires forall k :: 0 <= k < |book| ==> book[k] != ','
    requires Occurs(s, i, CitationLine(book, chapter, verse))
    requires e == i + |CitationLine(book, chapter, verse)| && (e < |s| ==> !IsDigit(s[e]))
    ensures MatchAt(s, i) == Some(Hit(i + |Lead|, i + |Lead| + |book|, chapter, verse, e))
    ensures Group(s, i + |Lead|, i + |Lead| + |book|) == book
  {
    WordsMatch();
    assert CitationLine(book, chapter, verse) ==
           "As mentioned in " + (book + ", Chapter " + NatToString(chapter) + ", Verse " +
                                 NatToString(verse));
    MatchWords(s, i, i + |Lead|, i + |Lead| + |book|, e,
               "As mentioned in ", book, ", Chapter ", chapter, ", Verse ", verse);
  }

  /** The record a match of a citation line yields when its book is already stripped. */
  lemma CitationOfLine(s: string, h: Hit, book: string, chapter: nat, verse: nat)
    requires h.bookStart <= h.bookEnd <= |s| && Strip(book) == book
    requires Group(s, h.bookStart, h.bookEnd) == book
    requires h.chapter == chapter && h.verse == verse
    ensures CitationOf(s, h) == Citation(book, chapter, verse, SourceText(book, chapter, verse))
  {
  }

  /**
   * A citation line written at `i` and ending at `e`, with a non-empty, comma-free book and no
   * digit after it, is one match whose book group `b..c` is the book; the scan resumes at `e`.
   */
  lemma HitsFromLine(s: string, i: nat, b: nat, c: nat, e: nat, book: string, chapter: nat, verse: nat)
    requires book != []
    requires forall k :: 0 <= k < |book| ==> book[k] != ','
    requires Occurs(s, i, CitationLine(book, chapter, verse))
    requires b == i + |Lead| && c == b + |book|
    requires e == i + |CitationLine(book, chapter, verse)| && (e < |s| ==> !IsDigit(s[e]))
    ensures e <= |s|
    ensures HitsFrom(s, i) == [Hit(b, c, chapter, verse, e)] + HitsFrom(s, e)
    ensures Group(s, b, c) == book
  {
    MatchCitationLine(s, i, e, book, chapter, verse);
  }

  /** The citation line alone is read back as exactly the one citation it writes. */
  lemma CitationRoundTrip(book: string, chapter: nat, verse: nat)
    requires book != [] && Strip(book) == book
    requires forall k :: 0 <= k < |book| ==> book[k] != ','
    ensures Citations(CitationLine(book, chapter, verse)) ==
              [Citation(book, chapter, verse, SourceText(book, chapter, verse))]
  {
    var line := CitationLine(book, chapter, verse);
    assert Occurs(line, 0, line);
    var h := Hit(|Lead|, |Lead| + |book|, chapter, verse, |line|);
    HitsFromLine(line, 0, h.bookStart, h.bookEnd, |line|, book, chapter, verse);
    assert HitsFrom(line, 0) == [h];
    CitationOfLine(line, h, book, chapter, verse);
  }

  /** A position holding a space starts no match. */
  lemma NoMatchAtSpace(s: string, i: nat)
    requires i < |s| && s[i] == ' '
    ensures MatchAt(s, i) == None
  {
    assert LowerChar(s[i + 0]) != Lead[0];
  }

  /** Where the two copies sit in `line + " " + line`. */
  lemma TwoCopies(line: string)
    ensures |line + " " + line| == |line| + 1 + |line|
    ensures Occurs(line + " " + line, 0, line)
    ensures Occurs(line + " " + line, |line| + 1, line)
    ensures (line + " " + line)[|line|] == ' '
  {
    var s := line + " " + line;
    forall k | 0 <= k < |line| ensures s[|line| + 1 + k] == line[k] { }
  }

  /** A space and then a citation line that ends the text: the scan from the space finds it alone. */
  lemma SpaceThenLine(s: string, n: nat, h: Hit, book: string, chapter: nat, verse: nat)
    requires book != []
    requires forall k :: 0 <= k < |book| ==> book[k] != ','
    requires n < |s| && s[n] == ' ' && |s| == n + 1 + |CitationLine(book, chapter, verse)|
    requires Occurs(s, n + 1, CitationLine(book, chapter, verse))
    requires h == Hit(n + 1 + |Lead|, n + 1 + |Lead| + |book|, chapter, verse, |s|)
    ensures HitsFrom(s, n) == [h]
    ensures Group(s, h.bookStart, h.bookEnd) == book
  {
    HitsFromLine(s, n + 1, h.bookStart, h.bookEnd, |s|, book, chapter, verse);
    assert HitsFrom(s, |s|) == [];
    NoMatchAtSpace(s, n);
    HitsStep(s, n);
  }

  /** Two citation lines separated by a space are two matches, in order. */
  lemma TwoLineHits(s: string, n: nat, h1: Hit, h2: Hit, book: string, chapter: nat, verse: nat)
    requires book != []
    requires forall k :: 0 <= k < |book| ==> book[k] != ','
    requires n == |CitationLine(book, chapter, verse)| && |s| == n + 1 + n && s[n] == ' '
    requires Occurs(s, 0, CitationLine(book, chapter, verse))
    requires Occurs(s, n + 1, CitationLine(book, chapter, verse))
    requires h1 == Hit(|Lead|, |Lead| + |book|, chapter, verse, n)
    requires h2 == Hit(n + 1 + |Lead|, n + 1 + |Lead| + |book|, chapter, verse, |s|)
    ensures HitsFrom(s, 0) == [h1, h2]
    ensures Group(s, h1.bookStart, h1.bookEnd) == book && Group(s, h2.bookStart, h2.bookEnd) == book
  {
    SpaceThenLine(s, n, h2, book, chapter, verse);
    HitsFromLine(s, 0, h1.bookStart, h1.bookEnd, n, book, chapter, verse);
  }

  /** Repeated citations are all reported: nothing is de-duplicated. */
  lemma CitationTwice(book: string, chapter: nat, verse: nat)
    requires book != [] && Strip(book) == book
    requires forall k :: 0 <= k < |book| ==> book[k] != ','
    ensures var line := CitationLine(book, chapter, verse);
            var c := Citation(book, chapter, verse, SourceText(book, chapter, verse));
            Citations(line + " " + line) == [c, c]
  {
    var line := CitationLine(book, chapter, verse);
    var s := line + " " + line;
    TwoCopies(line);
    var n := |line|;
    var h1 := Hit(|Lead|, |Lead| + |book|, chapter, verse, n);
    var h2 := Hit(n + 1 + |Lead|, n + 1 + |Lead| + |book|, chapter, verse, |s|);
    TwoLineHits(s, n, h1, h2, book, chapter, verse);
    CitationOfLine(s, h1, book, chapter, verse);
    CitationOfLine(s, h2, book, chapter, verse);
  }

  // ---------------------------------------------------------------- the whole query

  /** The names of the agents whose records succeeded, in fan-in order. */
  function AgentsUsed(records: seq<AgentRecord>): (r: seq<string>)
    ensures |r| <= |records|
  {
    if records == [] then []
    else
      var last := records[|records| - 1];
      AgentsUsed(records[..|records| - 1]) + (if last.success then [last.agent] else [])
  }

  lemma {:induction false} AgentsUsedExactly(records: seq<AgentRecord>, name: string)
    ensures name in AgentsUsed(records) <==>
              exists k :: 0 <= k < |records| && records[k].success && records[k].agent == name
  {
    if records != [] {
      var n := |records| - 1;
      AgentsUsedExactly(records[..n], name);
      assert forall k :: 0 <= k < n ==> records[..n][k] == records[k];
      if name !in AgentsUsed(records[..n]) && exists k :: 0 <= k < |records| && records[k].success && records[k].agent == name {
        var k :| 0 <= k < |records| && records[k].success && records[k].agent == name;
        assert k == n;
      }
    }
  }

  /**
   * With `AgentsUsedOne`, this pins the list down: the names of the successful records, in
   * fan-in order, repeats kept.
   */
  lemma {:induction false} AgentsUsedAppend(a: seq<AgentRecord>, b: seq<AgentRecord>)
    ensures AgentsUsed(a + b) == AgentsUsed(a) + AgentsUsed(b)
    decreases |b|
  {
    if b != [] {
      var n := |b| - 1;
      AgentsUsedAppend(a, b[..n]);
      assert (a + b)[..|a + b| - 1] == a + b[..n];
    } else {
      assert a + b == a;
    }
  }

  lemma AgentsUsedOne(r: AgentRecord)
    ensures AgentsUsed([r]) == if r.success then [r.agent] else []
  {
    assert [r][..0] == [];
  }

  /** What `process_query` returns. */
  datatype QueryReply = QueryReply(
    messages: seq<string>,
    agentsUsed: seq<string>,
    citations: seq<Citation>,
    agentResponses: seq<AgentRecord>,
    verifiedAnswer: string)

  /** The outside world of one query: the agents' outcomes, the two prompt templates, the model. */
  datatype Oracles = Oracles(
    run: AgentKind -> Outcome,
    renderVerification: (string, Slots) -> string,
    renderConversation: string -> string,
    generate: string -> Result<string, string>)

  function Outcomes(agents: seq<AgentKind>, run: AgentKind -> Outcome): (r: seq<Outcome>)
    ensures |r| == |agents| && forall k :: 0 <= k < |agents| ==> r[k] == run(agents[k])
  {
    seq(|agents|, k requires 0 <= k < |agents| => run(agents[k]))
  }

  /** The reply `process_query` computes, before its two saves. */
  function Answer(query: string, useAll: bool, o: Oracles): (r: QueryReply)
    ensures 1 <= |r.messages| <= MaxMessagesPerResponse
    ensures r.agentResponses == Survivors(Outcomes(Dispatched(useAll), o.run))
    ensures r.citations == Citations(r.verifiedAnswer)
  {
    var records := Survivors(Outcomes(Dispatched(useAll), o.run));
    var verified := Verified(query, records, o.renderVerification, o.generate);
    var messages := Conversational(verified, o.renderConversation, o.generate);
    QueryReply(messages, AgentsUsed(records), Citations(verified), records, verified)
  }

  /** Quick mode answers only from the scripture and memory agents. */
  lemma QuickUsesEssentialAgents(query: string, o: Oracles)
    ensures forall r :: r in Answer(query, false, o).agentResponses ==>
              (o.run(RagScripture).Returned? && r == o.run(RagScripture).record) ||
              (o.run(ContextMemory).Returned? && r == o.run(ContextMemory).record)
  {
    var outs := Outcomes(Dispatched(false), o.run);
    SurvivorsInOrder(outs);
    var ix := ReturnedAt(outs);
    forall r | r in Answer(query, false, o).agentResponses
      ensures (o.run(RagScripture).Returned? && r == o.run(RagScripture).record) ||
              (o.run(ContextMemory).Returned? && r == o.run(ContextMemory).record)
    {
      var k :| 0 <= k < |Survivors(outs)| && Survivors(outs)[k] == r;
      assert ix[k] == 0 || ix[k] == 1;
    }
  }

  /**
   * Steps 1 to 6 of `process_query`: dispatch, fan-in, routing, verification, the
   * conversational rewrite and the citation scan.
   */
  method Respond(query: string, useAll: bool, o: Oracles) returns (reply: QueryReply)
    ensures reply == Answer(query, useAll, o)
  {
    var agents := Dispatched(useAll);
    var records := FanIn(Outcomes(agents, o.run));
    var verified := Verified(query, records, o.renderVerification, o.generate);
    var messages := Conversational(verified, o.renderConversation, o.generate);
    var citations := ExtractCitations(verified);
    reply := QueryReply(messages, AgentsUsed(records), citations, records, verified);
  }

  /**
   * The two turns `process_query` saves, appended after `before`: the user's query, then the
   * assistant's messages joined by spaces with the agents used and the citations.
   */
  ghost predicate LoggedExchange(before: seq<ContextAgent.Message>, after: seq<ContextAgent.Message>,
                                 query: string, reply: QueryReply) {
    var n := |before|;
    && |after| == n + 2
    && after[..n] == before
    && after[n].role == "user" && after[n].content == query
    && after[n].agentsUsed == None && after[n].citations == None
    && after[n + 1].role == "assistant"
    && after[n + 1].content == Join(reply.messages, " ")
    && after[n + 1].agentsUsed == Some(reply.agentsUsed)
    && after[n + 1].citations == Some(CitationsJson(reply.citations))
  }

  /** Appending a user turn and an assistant turn of the right shape logs the exchange. */
  lemma LogExchange(before: seq<ContextAgent.Message>, user: ContextAgent.Message,
                    assistant: ContextAgent.Message, query: string, reply: QueryReply)
    requires user.role == "user" && user.content == query
    requires user.agentsUsed == None && user.citations == None
    requires assistant.role == "assistant" && assistant.content == Join(reply.messages, " ")
    requires assistant.agentsUsed == Some(reply.agentsUsed)
    requires assistant.citations == Some(CitationsJson(reply.citations))
    ensures LoggedExchange(before, before + [user] + [assistant], query, reply)
  {
    assert (before + [user] + [assistant])[..|before|] == before;
  }

  /** The store after the user's turn of `process_query`, unless that save fails. */
  function AfterQuery(s: ContextAgent.StoreState, subscriberId: string, query: string, now: int,
                      saveDown: bool): ContextAgent.StoreState
  {
    if saveDown then s
    else ContextAgent.AfterSave(s, subscriberId, "user", query, "text", None, None, now)
  }

  /** The store after the assistant's turn of `process_query`, unless that save fails. */
  function AfterReply(s: ContextAgent.StoreState, subscriberId: string, reply: QueryReply, now: int,
                      saveDown: bool): ContextAgent.StoreState
  {
    if saveDown then s
    else ContextAgent.AfterSave(s, subscriberId, "assistant", Join(reply.messages, " "), "text",
                                Some(reply.agentsUsed), Some(CitationsJson(reply.citations)), now)
  }

  /**
   * `process_query`: dispatch, fan-in, verification, chat messages and citations; then the
   * user's turn is saved, then the assistant's turn holding the messages joined by spaces,
   * the agents used and the citations. Each save may fail on its own; a failed save changes
   * nothing and is ignored, and the other save still happens.
   */
  method ProcessQuery(store: ContextAgent.ConversationStore, query: string, subscriberId: string,
                      useAll: bool, o: Oracles, now: int, querySaveDown: bool, replySaveDown: bool)
    returns (reply: QueryReply)
    requires store.Valid()
    modifies store
    ensures store.Valid()
    ensures reply == Answer(query, useAll, o)
    ensures store.State() ==
              AfterReply(AfterQuery(old(store.State()), subscriberId, query, now, querySaveDown),
                         subscriberId, reply, now, replySaveDown)
    ensures querySaveDown && replySaveDown ==> store.State() == old(store.State())
    ensures !querySaveDown && !replySaveDown ==>
              LoggedExchange(old(store.messages), store.messages, query, reply)
  {
    reply := Respond(query, useAll, o);
    ghost var before := store.messages;
    var _ := store.SaveMessage(subscriberId, "user", query, "text", None, None, now, querySaveDown);
    ghost var mid := store.messages;
    var fullResponse := Join(reply.messages, " ");
    var _ := store.SaveMessage(subscriberId, "assistant", fullResponse, "text", Some(reply.agentsUsed),
                               Some(CitationsJson(reply.citations)), now, replySaveDown);
    if !querySaveDown && !replySaveDown {
      LogExchange(before, mid[|before|], store.messages[|mid|], query, reply);
    }
  }

  /**
   * Whichever save fails, the turns that reach the database are appended in order: none, the
   * user's alone, the assistant's alone, or both.
   */
  lemma {:induction false} SavedTurns(s: ContextAgent.StoreState, subscriberId: string, query: string,
                                      reply: QueryReply, now: int, querySaveDown: bool, replySaveDown: bool)
    ensures var t := AfterReply(AfterQuery(s, subscriberId, query, now, querySaveDown),
                                subscriberId, reply, now, replySaveDown);
            var n := |s.messages|;
            && |t.messages| == n + (if querySaveDown then 0 else 1) + (if replySaveDown then 0 else 1)
            && t.messages[..n] == s.messages
            && (!querySaveDown ==> t.messages[n].role == "user" && t.messages[n].content == query)
            && (!replySaveDown ==>
                  t.messages[|t.messages| - 1].role == "assistant" &&
                  t.messages[|t.messages| - 1].content == Join(reply.messages, " "))
  {
    var s1 := AfterQuery(s, subscriberId, query, now, querySaveDown);
    var t := AfterReply(s1, subscriberId, reply, now, replySaveDown);
    var n := |s.messages|;
    assert s1.messages[..n] == s.messages;
    assert t.messages[..|s1.messages|] == s1.messages;
    assert t.messages[..n] == s1.messages[..n];
    if !querySaveDown {
      assert t.messages[n] == s1.messages[n];
    }
  }

  /** `quick_response`: `process_query` in quick mode. */
  method QuickResponse(store: ContextAgent.ConversationStore, query: string, subscriberId: string,
                       o: Oracles, now: int, querySaveDown: bool, replySaveDown: bool)
    returns (reply: QueryReply)
    requires store.Valid()
    modifies store
    ensures store.Valid()
    ensures reply == Answer(query, false, o)
    ensures store.State() ==
              AfterReply(AfterQuery(old(store.State()), subscriberId, query, now, querySaveDown),
                         subscriberId, reply, now, replySaveDown)
    ensures !querySaveDown && !replySaveDown ==>
              LoggedExchange(old(store.messages), store.messages, query, reply)
  {
    reply := ProcessQuery(store, query, subscriberId, false, o, now, querySaveDown, replySaveDown);
  }
}
