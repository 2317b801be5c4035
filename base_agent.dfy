/**
 * The uniform agent contract: every agent's own `process` step may fail, and the shared
 * `execute` wrapper turns whatever it produced into one normalised record, never letting
 * the failure escape, and remembers the outcome in the agent's status fields.
 */
module BaseAgent {
  import opened Wrappers
  import opened Json

  /** One turn of earlier conversation as a caller may pass it; either key may be missing. */
  datatype HistoryEntry = HistoryEntry(role: Option<string>, content: Option<string>)

  /**
   * The context dictionary handed to every agent. A key that is absent is `None`; the empty
   * dictionary is the context with every key absent.
   */
  datatype Context = Context(
    subscriberId: Option<string>,
    query: Option<string>,
    conversationHistory: Option<seq<HistoryEntry>>)

  const EmptyContext := Context(None, None, None)

  /** What `process` returns: a dictionary in which each of the four keys may be missing. */
  datatype ProcessOutput = ProcessOutput(
    response: Option<string>,
    confidence: Option<int>,
    sources: Option<seq<string>>,
    metadata: Option<seq<(string, Json)>>)

  /** The normalised record `execute` returns. */
  datatype AgentRecord = AgentRecord(
    agent: string,
    success: bool,
    response: string,
    confidence: int,
    sources: seq<string>,
    metadata: seq<(string, Json)>,
    responseTimeMs: int,
    error: Option<string>)

  /** The shape every failed record has: nothing from the agent, and the reason. */
  predicate IsFailureRecord(r: AgentRecord) {
    !r.success && r.response == "" && r.confidence == 0 && r.sources == [] &&
    r.metadata == [] && r.error.Some?
  }

  /**
   * The record `execute` builds from the outcome of `process`. A raised exception becomes a
   * failure record carrying its text; a returned dictionary becomes a success record whose
   * missing keys take the defaults "", 50, [] and {}, the confidence not being clamped.
   */
  function Normalise(name: string, outcome: Result<ProcessOutput, string>, elapsedMs: nat)
    : (r: AgentRecord)
    ensures r.agent == name && r.responseTimeMs == elapsedMs
    ensures r.success <==> outcome.Success?
    ensures outcome.Failure? ==> IsFailureRecord(r) && r.error == Some(outcome.error)
    ensures outcome.Success? ==> r.error == None
    ensures outcome.Success? ==>
              var o := outcome.value;
              && (o.response.Some? ==> r.response == o.response.value)
              && (o.response.None? ==> r.response == "")
              && (o.confidence.Some? ==> r.confidence == o.confidence.value)
              && (o.confidence.None? ==> r.confidence == 50)
              && (o.sources.Some? ==> r.sources == o.sources.value)
              && (o.sources.None? ==> r.sources == [])
              && (o.metadata.Some? ==> r.metadata == o.metadata.value)
              && (o.metadata.None? ==> r.metadata == [])
  {
    match outcome
    case Success(o) =>
      AgentRecord(name, true, o.response.GetOr(""), o.confidence.GetOr(50),
                  o.sources.GetOr([]), o.metadata.GetOr([]), elapsedMs, None)
    case Failure(e) =>
      AgentRecord(name, false, "", 0, [], [], elapsedMs, Some(e))
  }

  /**
   * The wrapper does not clamp: a `process` that reports confidence 150 yields a successful
   * record with confidence 150, so the range [0, 100] holds only when each agent keeps it.
   */
  lemma ConfidenceNotClamped()
    ensures Normalise("A", Success(ProcessOutput(None, Some(150), None, None)), 0).confidence == 150
  {
  }

  /** The metrics `get_metrics` reports. */
  datatype AgentMetrics = AgentMetrics(
    agent: string, responseTimeMs: Option<int>, success: bool, error: Option<string>)

  /** An agent's identity and the status fields its last `execute` left behind. */
  class Agent {
    const name: string
    var responseTimeMs: Option<int>
    var success: bool
    var error: Option<string>

    constructor (name: string)
      ensures this.name == name
      ensures responseTimeMs == None && !success && error == None
    {
      this.name := name;
      responseTimeMs := None;
      success := false;
      error := None;
    }

    /**
     * Runs `process` on the query and the context (a missing context becomes the empty one)
     * and returns the normalised record. The status fields follow the outcome, except that a
     * success leaves an earlier error in place.
     */
    method Execute(query: string, context: Option<Context>,
                   process: (string, Context) -> Result<ProcessOutput, string>, elapsedMs: nat)
      returns (r: AgentRecord)
      modifies this
      ensures r == Normalise(name, process(query, context.GetOr(EmptyContext)), elapsedMs)
      ensures success == r.success && responseTimeMs == Some(elapsedMs)
      ensures error == if r.success then old(error) else r.error
    {
      var outcome := process(query, context.GetOr(EmptyContext));
      match outcome {
        case Success(o) =>
          responseTimeMs := Some(elapsedMs);
          success := true;
        case Failure(e) =>
          responseTimeMs := Some(elapsedMs);
          success := false;
          error := Some(e);
      }
      r := Normalise(name, outcome, elapsedMs);
    }

    /** `get_metrics`: the name and the status fields as they stand. */
    function Metrics(): (m: AgentMetrics)
      reads this
      ensures m.agent == name && m.success == success && m.error == error
      ensures m.responseTimeMs == responseTimeMs
    {
      AgentMetrics(name, responseTimeMs, success, error)
    }
  }
}
