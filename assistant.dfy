/**
 * The research assistant object: its API key, its gateway client, its
 * default system prompt, the session history it grows with every successful
 * call and the session id it renews when the session is cleared.
 *
 * Each method is proved to perform exactly the pure step that specifies it
 * (`ResearchStep`, `Cleared`, `Focused`), and to keep the history made of
 * complete (user, assistant) pairs.
 */
module Assistant {
  import opened Wrappers
  import opened Text
  import opened Gateway
  import opened Research
  import opened FollowUps
  import opened Orchestrator

  const PerplexityBaseUrl: string := "https://api.perplexity.ai"

  /**
   * The key the assistant runs with: `api_key or PERPLEXITY_API_KEY`, where an
   * absent or empty key counts as missing; None when both are missing, which
   * is the case where construction raises ValueError.
   */
  function ResolveApiKey(given: Option<string>, env: Option<string>): (key: Option<string>)
    ensures key.Some? ==> key.value != ""
    ensures given.Some? && given.value != "" ==> key == given
    ensures given.None? || given.value == "" ==>
      (key.Some? <==> env.Some? && env.value != "") && (key.Some? ==> key == env)
  {
    var chosen := if given.Some? && given.value != "" then given else env;
    if chosen.Some? && chosen.value != "" then chosen else None
  }

  /** The streaming loop: keep the content of every chunk that has a non-empty one, then join them. */
  method CollectStream(chunks: seq<Option<string>>) returns (text: string)
    ensures text == StreamedText(chunks)
  {
    var collected: seq<string> := [];
    for i := 0 to |chunks|
      invariant Concat(collected) == StreamedText(chunks[..i])
    {
      assert chunks[..i + 1] == chunks[..i] + [chunks[i]];
      StreamedTextAppend(chunks[..i], [chunks[i]]);
      assert StreamedText([chunks[i]]) == Piece(chunks[i]);
      if chunks[i].Some? && chunks[i].value != "" {
        ConcatAppend(collected, chunks[i].value);
        collected := collected + [chunks[i].value];
      }
    }
    assert chunks[..|chunks|] == chunks;
    text := Concat(collected);
  }

  class ResearchAssistant {
    const apiKey: string
    const baseUrl: string
    const client: ScriptedGateway
    const defaultSystemPrompt: string
    var history: seq<Message>
    var sessionId: string

    /** The session invariant: the history holds complete (user, assistant) exchanges. */
    ghost predicate Valid()
      reads this
    {
      Paired(history)
    }

    /** Everything a research call reads and changes. */
    ghost function State(): Snapshot
      reads this, client
    {
      Snapshot(defaultSystemPrompt, history, client.script, client.trace)
    }

    /** Construction once a key has been resolved: an empty session, the default prompt, a client for the gateway. */
    constructor (apiKey: string, gateway: ScriptedGateway, sessionId: string)
      requires apiKey != ""
      ensures this.apiKey == apiKey && baseUrl == PerplexityBaseUrl && client == gateway
      ensures defaultSystemPrompt == DefaultSystemPrompt && history == [] && this.sessionId == sessionId
      ensures Valid()
    {
      this.apiKey := apiKey;
      baseUrl := PerplexityBaseUrl;
      client := gateway;
      defaultSystemPrompt := DefaultSystemPrompt;
      history := [];
      this.sessionId := sessionId;
    }

    /**
     * `ResearchAssistant(api_key)`: no assistant (ValueError) exactly when no
     * non-empty key is given or found in the environment; otherwise a fresh
     * assistant running with the resolved key and an empty session.
     */
    static method Open(given: Option<string>, env: Option<string>, gateway: ScriptedGateway, sessionId: string)
      returns (assistant: Option<ResearchAssistant>)
      ensures assistant.None? <==> ResolveApiKey(given, env).None?
      ensures assistant.Some? ==>
        fresh(assistant.value) && assistant.value.apiKey == ResolveApiKey(given, env).value &&
        assistant.value.client == gateway && assistant.value.history == [] &&
        assistant.value.defaultSystemPrompt == DefaultSystemPrompt && assistant.value.baseUrl == PerplexityBaseUrl &&
        assistant.value.sessionId == sessionId && assistant.value.Valid()
    {
      var key := ResolveApiKey(given, env);
      if key.None? {
        return None;
      }
      var a := new ResearchAssistant(key.value, gateway, sessionId);
      return Some(a);
    }

    /**
     * One research call: build the message list, call the gateway, read the
     * reply, and on success record the exchange and return the text; any
     * failure yields None and leaves the history as it was.
     */
    method Research(query: string, systemPrompt: Option<string>, model: string, stream: bool)
      returns (response: Option<string>)
      modifies this, client
      ensures (State(), response) == ResearchStep(old(State()), query, systemPrompt, model, stream)
      ensures sessionId == old(sessionId)
      ensures old(Valid()) ==> Valid()
    {
      var system := if systemPrompt.None? then defaultSystemPrompt else systemPrompt.value;
      var messages := [Message(System, system), Message(User, query)];
      if history != [] {
        messages := messages[..1] + history + messages[1..];
      }
      ghost var before := State();
      var reply := client.Create(Request(model, messages, stream));
      response := None;
      if stream {
        if reply.Streamed? {
          var text := CollectStream(reply.chunks);
          response := Some(text);
        }
      } else if reply.Answered? {
        response := Some(reply.text);
      }
      if response.Some? {
        history := history + [Message(User, query), Message(Assistant, response.value)];
      }
      if Paired(before.history) {
        ResearchKeepsPaired(before, query, systemPrompt, model, stream);
      }
    }

    /** `clear_session`: an empty history and the new session id; the gateway is untouched. */
    method ClearSession(newSessionId: string)
      modifies this
      ensures State() == Cleared(old(State()))
      ensures sessionId == newSessionId
      ensures Valid()
    {
      history := [];
      sessionId := newSessionId;
    }

    /**
     * `focused_research`: research the topic, then (depth above 1) elicit
     * follow-up questions, extract them, and research the first three, recursing
     * on each with one less depth while the depth exceeds 2. The result says
     * whether it returned or raised AttributeError on a failed elicitation.
     */
    method FocusedResearch(topic: string, depth: int, followUpStrategy: string) returns (ending: Ending)
      modifies this, client
      ensures (State(), ending) == Focused(old(State()), topic, depth, StrategyOf(followUpStrategy))
      ensures sessionId == old(sessionId)
      ensures old(Valid()) ==> Valid()
      decreases Budget(depth), 2
    {
      var strategy := StrategyOf(followUpStrategy);
      ghost var start := State();
      if Valid() {
        FocusedKeepsPaired(start, topic, depth, strategy);
      }
      var initial := Research(topic, None, DefaultModel, true);
      if depth <= 1 {
        return Completed;
      }
      FocusedUnfold(start, topic, depth, strategy);
      var prompt: string;
      if followUpStrategy == "breadth" {
        prompt := BreadthPrompt;
      } else if followUpStrategy == "depth" {
        prompt := DepthPrompt;
      } else {
        prompt := OtherPrompt;
      }
      var raw := Research(prompt, None, DefaultModel, false);
      if raw.None? {
        return AttributeError;
      }
      var questions := ExtractFollowUps(raw.value, strategy);
      var selected := questions[..if 3 < |questions| then 3 else |questions|];
      assert Focused(start, topic, depth, strategy) == PursueFollowUps(State(), selected, 0, depth, strategy);
      ending := FollowUpLoop(selected, depth, followUpStrategy);
    }

    /** The follow-up loop over the selected questions, ended early by a stop under the depth strategy or a raise. */
    method FollowUpLoop(selected: seq<string>, depth: int, followUpStrategy: string) returns (ending: Ending)
      modifies this, client
      ensures (State(), ending) == PursueFollowUps(old(State()), selected, 0, depth, StrategyOf(followUpStrategy))
      ensures sessionId == old(sessionId)
      decreases Budget(depth), 1
    {
      var strategy := StrategyOf(followUpStrategy);
      ghost var loopStart := State();
      for i := 0 to |selected|
        invariant PursueFollowUps(State(), selected, i, depth, strategy) == PursueFollowUps(loopStart, selected, 0, depth, strategy)
        invariant sessionId == old(sessionId)
      {
        var stop, turnEnding := FollowUpTurn(selected, i, depth, followUpStrategy);
        if stop {
          return turnEnding;
        }
      }
      ending := Completed;
    }

    /**
     * One turn of the follow-up loop on `selected[i]`: research it, stop under
     * the depth strategy, and otherwise, while the depth exceeds 2, run focused
     * research on it with one less depth, stopping if that raised.
     */
    method FollowUpTurn(selected: seq<string>, i: nat, depth: int, followUpStrategy: string)
      returns (stop: bool, ending: Ending)
      requires i < |selected|
      modifies this, client
      ensures stop ==> (State(), ending) == PursueFollowUps(old(State()), selected, i, depth, StrategyOf(followUpStrategy))
      ensures !stop ==>
        PursueFollowUps(State(), selected, i + 1, depth, StrategyOf(followUpStrategy)) ==
        PursueFollowUps(old(State()), selected, i, depth, StrategyOf(followUpStrategy))
      ensures sessionId == old(sessionId)
      decreases Budget(depth), 0
    {
      var strategy := StrategyOf(followUpStrategy);
      ghost var before := State();
      var _ := Research(selected[i], None, DefaultModel, true);
      if followUpStrategy == "depth" && i >= 0 {
        PursueDepthStopsAfterFirst(before, selected, i, depth);
        return true, Completed;
      }
      stop, ending := false, Completed;
      if depth > 2 {
        var inner := FocusedResearch(selected[i], depth - 1, followUpStrategy);
        if inner == AttributeError {
          PursueNestedRaises(before, selected, i, depth, strategy);
          stop, ending := true, AttributeError;
        } else {
          PursueNestedContinues(before, selected, i, depth, strategy);
        }
      } else {
        PursueFlatStep(before, selected, i, depth, strategy);
      }
    }
  }
}
