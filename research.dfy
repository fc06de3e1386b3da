/**
 * One research call as a pure step on a snapshot of everything it touches:
 * the session history, the gateway's remaining script and its request trace.
 * `ResearchAssistant.Research` is proved to perform exactly this step.
 */
module Research {
  import opened Wrappers
  import opened Gateway

  /**
   * The state a research call reads and changes: the assistant's default
   * system prompt and session history, and the gateway's script and trace.
   */
  datatype Snapshot = Snapshot(defaultPrompt: string, history: seq<Message>, script: seq<Reply>, trace: seq<Request>)

  const DefaultModel: string := "sonar-reasoning-pro"

  const DefaultSystemPrompt: string :=
    "You are an elite research assistant with exceptional analytical abilities. " +
    "Your task is to provide comprehensive, well-structured, and accurate information " +
    "on any topic. For each query:" +
    "\n1. Break down complex topics into digestible components" +
    "\n2. Cite specific sources where possible" +
    "\n3. Distinguish between facts and speculation" +
    "\n4. Identify knowledge gaps and limitations" +
    "\n5. Organize information in a logical progression" +
    "\nWhen appropriate, include relevant statistics, expert viewpoints, " +
    "historical context, and current developments."

  /** The system prompt a call uses: the given one, or the assistant's default when none is given. */
  function SystemPromptOr(given: Option<string>, default: string): (p: string)
    ensures given.None? ==> p == default
    ensures given.Some? ==> p == given.value
  {
    if given.None? then default else given.value
  }

  /**
   * The message list, built as the source builds it: the system message and
   * the user message, with the prior history spliced in between when there is any.
   */
  function Assemble(system: string, history: seq<Message>, query: string): (ms: seq<Message>)
    ensures ms == [Message(System, system)] + history + [Message(User, query)]
    ensures |ms| == |history| + 2
  {
    var messages := [Message(System, system), Message(User, query)];
    if history != [] then messages[..1] + history + messages[1..] else messages
  }

  /** The user query a request carries: the content of its last message. */
  function QueryOf(request: Request): string
  {
    if request.messages == [] then "" else request.messages[|request.messages| - 1].content
  }

  /** The request a research call sends, given the system prompt it resolved. */
  function RequestFor(prompt: string, history: seq<Message>, query: string, model: string, stream: bool): Request
  {
    Request(model, Assemble(prompt, history, query), stream)
  }

  /**
   * One research call: send the assembled request, and on success append the
   * (user, assistant) exchange to the history and return the response text;
   * on failure return None and leave the history as it was.
   */
  function ResearchStep(s: Snapshot, query: string, system: Option<string>, model: string, stream: bool): (Snapshot, Option<string>)
  {
    var request := RequestFor(SystemPromptOr(system, s.defaultPrompt), s.history, query, model, stream);
    var response := Received(NextReply(s.script), stream);
    var history := if response.Some? then s.history + [Message(User, query), Message(Assistant, response.value)] else s.history;
    (Snapshot(s.defaultPrompt, history, RestOf(s.script), s.trace + [request]), response)
  }

  /** A call appends exactly one request to the trace, and that request carries the call's query. */
  lemma StepTrace(s: Snapshot, query: string, system: Option<string>, model: string, stream: bool)
    ensures var s' := ResearchStep(s, query, system, model, stream).0;
      s.trace <= s'.trace && |s'.trace| == |s.trace| + 1 && QueryOf(s'.trace[|s.trace|]) == query &&
      s'.trace[|s.trace|].stream == stream && s'.defaultPrompt == s.defaultPrompt
  {
  }

  /** Every call sends one request: the system prompt, the whole prior history in order, then the query. */
  lemma ResearchRequest(s: Snapshot, query: string, system: Option<string>, model: string, stream: bool)
    ensures var (s', _) := ResearchStep(s, query, system, model, stream);
      var ms := s'.trace[|s.trace|].messages;
      |s'.trace| == |s.trace| + 1 && s'.trace[..|s.trace|] == s.trace &&
      |ms| == |s.history| + 2 &&
      ms[0] == Message(System, SystemPromptOr(system, s.defaultPrompt)) &&
      ms[1..|ms| - 1] == s.history &&
      ms[|ms| - 1] == Message(User, query) &&
      QueryOf(s'.trace[|s.trace|]) == query &&
      s'.trace[|s.trace|].model == model && s'.trace[|s.trace|].stream == stream
  {
    var (s', _) := ResearchStep(s, query, system, model, stream);
    var ms := s'.trace[|s.trace|].messages;
    assert ms == [Message(System, SystemPromptOr(system, s.defaultPrompt))] + s.history + [Message(User, query)];
    assert ms[1..|ms| - 1] == s.history;
  }

  /**
   * A successful call grows the history by exactly the exchange `{user, query}`,
   * `{assistant, response}` and returns the response; a failed call returns None
   * and leaves the history unchanged.
   */
  lemma ResearchHistory(s: Snapshot, query: string, system: Option<string>, model: string, stream: bool)
    ensures var (s', r) := ResearchStep(s, query, system, model, stream);
      r == Received(NextReply(s.script), stream) &&
      (r.Some? ==> s'.history == s.history + [Message(User, query), Message(Assistant, r.value)]) &&
      (r.None? ==> s'.history == s.history) &&
      s'.script == RestOf(s.script) && s'.defaultPrompt == s.defaultPrompt
  {
  }

  /** Session invariant: the history is a sequence of complete (user, assistant) exchanges. */
  predicate Paired(history: seq<Message>)
    decreases |history|
  {
    history == [] ||
    (|history| >= 2 && history[0].role == User && history[1].role == Assistant && Paired(history[2..]))
  }

  /** Paired, position by position: an even length, users at even positions and assistants at odd ones. */
  lemma {:induction false} PairedRoles(history: seq<Message>)
    ensures Paired(history) <==>
      |history| % 2 == 0 &&
      forall i :: 0 <= i < |history| ==> history[i].role == (if i % 2 == 0 then User else Assistant)
    decreases |history|
  {
    if |history| >= 2 {
      PairedRoles(history[2..]);
      var rest := history[2..];
      forall i | 2 <= i < |history| ensures history[i] == rest[i - 2] && (i % 2 == 0 <==> (i - 2) % 2 == 0) {
      }
    }
  }

  /** Appending one exchange keeps the history paired. */
  lemma {:induction false} PairedAppend(history: seq<Message>, query: string, response: string)
    requires Paired(history)
    ensures Paired(history + [Message(User, query), Message(Assistant, response)])
    decreases |history|
  {
    var exchange := [Message(User, query), Message(Assistant, response)];
    if history == [] {
      assert history + exchange == exchange;
      assert exchange[2..] == [];
    } else {
      PairedAppend(history[2..], query, response);
      assert (history + exchange)[2..] == history[2..] + exchange;
    }
  }

  /** A research call, successful or not, keeps the history paired. */
  lemma ResearchKeepsPaired(s: Snapshot, query: string, system: Option<string>, model: string, stream: bool)
    requires Paired(s.history)
    ensures Paired(ResearchStep(s, query, system, model, stream).0.history)
  {
    var response := Received(NextReply(s.script), stream);
    if response.Some? {
      PairedAppend(s.history, query, response.value);
    }
  }

  /** The state `clear_session` leaves: an empty history, whatever it held before; the gateway is untouched. */
  function Cleared(s: Snapshot): (c: Snapshot)
    ensures c.history == [] && Paired(c.history)
    ensures c.script == s.script && c.trace == s.trace
  {
    s.(history := [])
  }

  /** The arguments of one research call: the query, the system prompt (None for the default), the model and the stream flag. */
  datatype Call = Call(query: string, system: Option<string>, model: string, stream: bool)

  /** The research calls of `calls` in a row, each with its own arguments. */
  function RunAll(s: Snapshot, calls: seq<Call>): Snapshot
    decreases |calls|
  {
    if calls == [] then s
    else
      var c := calls[0];
      RunAll(ResearchStep(s, c.query, c.system, c.model, c.stream).0, calls[1..])
  }

  /**
   * From position `n` on, `h` holds one exchange per call: the `k`-th call's
   * query, then the text of the `k`-th scripted reply as that call's stream
   * flag reads it.
   */
  ghost predicate ExchangesFrom(h: seq<Message>, n: nat, calls: seq<Call>, script: seq<Reply>)
  {
    n + 2 * |calls| <= |h| &&
    forall k :: 0 <= k < |calls| ==>
      h[n + 2 * k] == Message(User, calls[k].query) &&
      Received(ReplyAt(script, k), calls[k].stream).Some? &&
      h[n + 2 * k + 1] == Message(Assistant, Received(ReplyAt(script, k), calls[k].stream).value)
  }

  /**
   * A history that extends `h1`, which is `h` plus one exchange, by the
   * exchanges of the rest of a run, extends `h` by the exchanges of the whole run.
   */
  lemma ExchangesFromCons(h: seq<Message>, h1: seq<Message>, h': seq<Message>, calls: seq<Call>, script: seq<Reply>)
    requires calls != [] && Received(NextReply(script), calls[0].stream).Some?
    requires h1 == h + [Message(User, calls[0].query), Message(Assistant, Received(NextReply(script), calls[0].stream).value)]
    requires |h'| == |h1| + 2 * (|calls| - 1) && h'[..|h1|] == h1
    requires ExchangesFrom(h', |h1|, calls[1..], RestOf(script))
    ensures |h'| == |h| + 2 * |calls| && h'[..|h|] == h
    ensures ExchangesFrom(h', |h|, calls, script)
  {
    var n := |h|;
    assert h'[..n] == h'[..|h1|][..n];
    assert h'[n] == h1[n] && h'[n + 1] == h1[n + 1];
    forall k | 0 <= k < |calls|
      ensures h'[n + 2 * k] == Message(User, calls[k].query)
      ensures Received(ReplyAt(script, k), calls[k].stream).Some?
      ensures h'[n + 2 * k + 1] == Message(Assistant, Received(ReplyAt(script, k), calls[k].stream).value)
    {
      if k == 0 {
        assert ReplyAt(script, 0) == NextReply(script);
      } else {
        assert ReplyAt(script, k) == ReplyAt(RestOf(script), k - 1);
        assert calls[k] == calls[1..][k - 1];
        assert n + 2 * k == (n + 2) + 2 * (k - 1);
      }
    }
  }

  /**
   * After a run of research calls that all succeed, whatever their prompts,
   * models and stream flags, the history has grown by exactly two messages per
   * call and its earlier entries are unchanged; the new entries are the calls'
   * exchanges in call order: the `k`-th query, then the text of the `k`-th reply.
   */
  lemma {:induction false} SuccessfulCallsLength(s: Snapshot, calls: seq<Call>)
    requires forall k :: 0 <= k < |calls| ==> Received(ReplyAt(s.script, k), calls[k].stream).Some?
    ensures var s' := RunAll(s, calls);
      |s'.history| == |s.history| + 2 * |calls| && s'.history[..|s.history|] == s.history &&
      ExchangesFrom(s'.history, |s.history|, calls, s.script)
    decreases |calls|
  {
    if calls != [] {
      var c := calls[0];
      var s1 := ResearchStep(s, c.query, c.system, c.model, c.stream).0;
      assert ReplyAt(s.script, 0) == NextReply(s.script);
      forall k | 0 <= k < |calls[1..]|
        ensures Received(ReplyAt(s1.script, k), calls[1..][k].stream).Some?
      {
        assert ReplyAt(s.script, k + 1) == ReplyAt(s1.script, k);
        assert calls[1..][k] == calls[k + 1];
      }
      SuccessfulCallsLength(s1, calls[1..]);
      var s' := RunAll(s1, calls[1..]);
      ExchangesFromCons(s.history, s1.history, s'.history, calls, s.script);
    }
  }
}
