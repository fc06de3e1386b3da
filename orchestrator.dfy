/**
 * Focused research as a pure function of the starting snapshot: one streamed
 * research call on the topic, then (when the depth allows) a non-streamed call
 * that elicits follow-up questions, then a streamed call per selected question,
 * recursing on each with one less depth when the depth exceeds 2.
 * `ResearchAssistant.FocusedResearch` is proved to behave exactly like it.
 */
module Orchestrator {
  import opened Wrappers
  import opened Gateway
  import opened Research
  import opened FollowUps

  /**
   * How a focused-research call ends: it returns, or it raises AttributeError
   * because the elicitation call returned None and `None.split` was attempted.
   */
  datatype Ending = Completed | AttributeError

  /** The depth as a termination measure. */
  function Budget(depth: int): nat
  {
    if depth < 0 then 0 else depth
  }

  function Focused(s: Snapshot, topic: string, depth: int, strategy: Strategy): (Snapshot, Ending)
    decreases Budget(depth), 1, 0
  {
    var s1 := ResearchStep(s, topic, None, DefaultModel, true).0;
    if depth <= 1 then (s1, Completed)
    else
      var elicited := ResearchStep(s1, StrategyPrompt(strategy), None, DefaultModel, false);
      if elicited.1.None? then (elicited.0, AttributeError)
      else PursueFollowUps(elicited.0, Selected(FollowUpQuestions(elicited.1.value, strategy)), 0, depth, strategy)
  }

  /**
   * The follow-up loop from position `i` on. The test `i >= 0` is always true,
   * so under the depth strategy the loop stops after its first question,
   * before the recursion test is reached.
   */
  function PursueFollowUps(s: Snapshot, questions: seq<string>, i: nat, depth: int, strategy: Strategy): (Snapshot, Ending)
    requires i <= |questions|
    decreases Budget(depth), 0, |questions| - i
  {
    if i == |questions| then (s, Completed)
    else
      var s1 := ResearchStep(s, questions[i], None, DefaultModel, true).0;
      if strategy == Depth && i >= 0 then (s1, Completed)
      else if depth > 2 then
        var inner := Focused(s1, questions[i], depth - 1, strategy);
        if inner.1 == AttributeError then inner
        else PursueFollowUps(inner.0, questions, i + 1, depth, strategy)
      else PursueFollowUps(s1, questions, i + 1, depth, strategy)
  }

  /** The user queries of a run of requests, in order. */
  function Queries(trace: seq<Request>): (qs: seq<string>)
    ensures |qs| == |trace|
    ensures forall k :: 0 <= k < |trace| ==> qs[k] == QueryOf(trace[k])
  {
    seq(|trace|, k requires 0 <= k < |trace| => QueryOf(trace[k]))
  }

  /** A later snapshot only adds to the trace and to the history. */
  predicate Extends(s: Snapshot, s': Snapshot)
  {
    s.trace <= s'.trace && s.history <= s'.history
  }

  lemma StepExtends(s: Snapshot, query: string, system: Option<string>, model: string, stream: bool)
    ensures Extends(s, ResearchStep(s, query, system, model, stream).0)
  {
  }

  /** The snapshot after the initial call and the elicitation call. */
  function Elicited(s: Snapshot, topic: string, strategy: Strategy): (Snapshot, Option<string>)
  {
    ResearchStep(ResearchStep(s, topic, None, DefaultModel, true).0, StrategyPrompt(strategy), None, DefaultModel, false)
  }

  /** Past the depth stop, focused research is the elicitation call followed by the loop or by the raise. */
  lemma FocusedUnfold(s: Snapshot, topic: string, depth: int, strategy: Strategy)
    requires depth > 1
    ensures var e := Elicited(s, topic, strategy);
      Focused(s, topic, depth, strategy) ==
        if e.1.None? then (e.0, AttributeError)
        else PursueFollowUps(e.0, Selected(FollowUpQuestions(e.1.value, strategy)), 0, depth, strategy)
  {
  }

  /** One turn of the loop without recursion (depth at most 2, not the depth strategy): research the question, go on. */
  lemma PursueFlatStep(s: Snapshot, questions: seq<string>, i: nat, depth: int, strategy: Strategy)
    requires i < |questions| && depth <= 2 && strategy != Depth
    ensures PursueFollowUps(s, questions, i, depth, strategy) ==
      PursueFollowUps(ResearchStep(s, questions[i], None, DefaultModel, true).0, questions, i + 1, depth, strategy)
  {
  }

  /** The recursive focused research a loop turn runs when the depth exceeds 2. */
  function Nested(s: Snapshot, questions: seq<string>, i: nat, depth: int, strategy: Strategy): (Snapshot, Ending)
    requires i < |questions|
  {
    Focused(ResearchStep(s, questions[i], None, DefaultModel, true).0, questions[i], depth - 1, strategy)
  }

  /** A loop turn whose recursive focused research raised ends there, with that raise. */
  lemma PursueNestedRaises(s: Snapshot, questions: seq<string>, i: nat, depth: int, strategy: Strategy)
    requires i < |questions| && depth > 2 && strategy != Depth
    requires Nested(s, questions, i, depth, strategy).1 == AttributeError
    ensures PursueFollowUps(s, questions, i, depth, strategy) == Nested(s, questions, i, depth, strategy)
  {
  }

  /** A loop turn whose recursive focused research returned goes on with the next question. */
  lemma PursueNestedContinues(s: Snapshot, questions: seq<string>, i: nat, depth: int, strategy: Strategy)
    requires i < |questions| && depth > 2 && strategy != Depth
    requires Nested(s, questions, i, depth, strategy).1 == Completed
    ensures PursueFollowUps(s, questions, i, depth, strategy) ==
      PursueFollowUps(Nested(s, questions, i, depth, strategy).0, questions, i + 1, depth, strategy)
  {
  }

  /** Extending is transitive. */
  lemma ExtendsTrans(a: Snapshot, b: Snapshot, c: Snapshot)
    requires Extends(a, b) && Extends(b, c)
    ensures Extends(a, c)
  {
    assert a.trace == b.trace[..|a.trace|] && b.trace == c.trace[..|b.trace|];
    assert a.history == b.history[..|a.history|] && b.history == c.history[..|b.history|];
  }

  /**
   * Focused research never rewrites what is already there: the requests
   * already sent and the exchanges already in the history stay as they are,
   * and complete (user, assistant) pairs stay complete, whichever way it ends.
   * Everything after the initial call on the topic comes after that call.
   */
  lemma {:induction false} FocusedExtends(s: Snapshot, topic: string, depth: int, strategy: Strategy)
    ensures Extends(s, Focused(s, topic, depth, strategy).0)
    ensures Extends(ResearchStep(s, topic, None, DefaultModel, true).0, Focused(s, topic, depth, strategy).0)
    decreases Budget(depth), 1, 0
  {
    var s1 := ResearchStep(s, topic, None, DefaultModel, true).0;
    var r := Focused(s, topic, depth, strategy).0;
    StepExtends(s, topic, None, DefaultModel, true);
    if depth > 1 {
      var e := Elicited(s, topic, strategy);
      FocusedUnfold(s, topic, depth, strategy);
      StepExtends(s1, StrategyPrompt(strategy), None, DefaultModel, false);
      if e.1.Some? {
        PursueExtends(e.0, Selected(FollowUpQuestions(e.1.value, strategy)), 0, depth, strategy);
      }
      ExtendsTrans(s1, e.0, r);
    } else {
      assert r == s1;
    }
    ExtendsTrans(s, s1, r);
  }

  lemma {:induction false} PursueExtends(s: Snapshot, questions: seq<string>, i: nat, depth: int, strategy: Strategy)
    requires i <= |questions|
    ensures Extends(s, PursueFollowUps(s, questions, i, depth, strategy).0)
    decreases Budget(depth), 0, |questions| - i, 1
  {
    if i < |questions| {
      var s1 := ResearchStep(s, questions[i], None, DefaultModel, true).0;
      var r := PursueFollowUps(s, questions, i, depth, strategy).0;
      StepExtends(s, questions[i], None, DefaultModel, true);
      if strategy == Depth {
        PursueDepthStopsAfterFirst(s, questions, i, depth);
      } else if depth > 2 {
        PursueNestedExtends(s, questions, i, depth, strategy);
      } else {
        PursueFlatStep(s, questions, i, depth, strategy);
        PursueExtends(s1, questions, i + 1, depth, strategy);
        ExtendsTrans(s, s1, r);
      }
    }
  }

  /** The recursive case of `PursueExtends`: the nested focused research, then the rest of the loop. */
  lemma {:induction false} PursueNestedExtends(s: Snapshot, questions: seq<string>, i: nat, depth: int, strategy: Strategy)
    requires i < |questions| && depth > 2 && strategy != Depth
    ensures Extends(s, PursueFollowUps(s, questions, i, depth, strategy).0)
    decreases Budget(depth), 0, |questions| - i, 0
  {
    var s1 := ResearchStep(s, questions[i], None, DefaultModel, true).0;
    var r := PursueFollowUps(s, questions, i, depth, strategy).0;
    var inner := Nested(s, questions, i, depth, strategy);
    StepExtends(s, questions[i], None, DefaultModel, true);
    FocusedExtends(s1, questions[i], depth - 1, strategy);
    if inner.1 == AttributeError {
      PursueNestedRaises(s, questions, i, depth, strategy);
    } else {
      PursueNestedContinues(s, questions, i, depth, strategy);
      PursueExtends(inner.0, questions, i + 1, depth, strategy);
      ExtendsTrans(s1, inner.0, r);
    }
    ExtendsTrans(s, s1, r);
  }

  /**
   * Whichever way it ends, focused research leaves a paired history paired:
   * every exchange it adds is a complete (user, assistant) pair.
   */
  lemma {:induction false} FocusedKeepsPaired(s: Snapshot, topic: string, depth: int, strategy: Strategy)
    requires Paired(s.history)
    ensures Paired(Focused(s, topic, depth, strategy).0.history)
    decreases Budget(depth), 1, 0
  {
    var s1 := ResearchStep(s, topic, None, DefaultModel, true).0;
    ResearchKeepsPaired(s, topic, None, DefaultModel, true);
    if depth > 1 {
      var e := Elicited(s, topic, strategy);
      FocusedUnfold(s, topic, depth, strategy);
      ResearchKeepsPaired(s1, StrategyPrompt(strategy), None, DefaultModel, false);
      if e.1.Some? {
        PursueKeepsPaired(e.0, Selected(FollowUpQuestions(e.1.value, strategy)), 0, depth, strategy);
      }
    }
  }

  lemma {:induction false} PursueKeepsPaired(s: Snapshot, questions: seq<string>, i: nat, depth: int, strategy: Strategy)
    requires i <= |questions| && Paired(s.history)
    ensures Paired(PursueFollowUps(s, questions, i, depth, strategy).0.history)
    decreases Budget(depth), 0, |questions| - i
  {
    if i < |questions| {
      var s1 := ResearchStep(s, questions[i], None, DefaultModel, true).0;
      ResearchKeepsPaired(s, questions[i], None, DefaultModel, true);
      if strategy == Depth {
        PursueDepthStopsAfterFirst(s, questions, i, depth);
      } else if depth > 2 {
        var inner := Nested(s, questions, i, depth, strategy);
        FocusedKeepsPaired(s1, questions[i], depth - 1, strategy);
        assert Paired(inner.0.history);
        if inner.1 == AttributeError {
          PursueNestedRaises(s, questions, i, depth, strategy);
          assert PursueFollowUps(s, questions, i, depth, strategy).0 == inner.0;
        } else {
          PursueNestedContinues(s, questions, i, depth, strategy);
          PursueKeepsPaired(inner.0, questions, i + 1, depth, strategy);
          assert PursueFollowUps(s, questions, i, depth, strategy).0 == PursueFollowUps(inner.0, questions, i + 1, depth, strategy).0;
        }
      } else {
        PursueFlatStep(s, questions, i, depth, strategy);
        PursueKeepsPaired(s1, questions, i + 1, depth, strategy);
      }
    }
  }

  /** With `depth <= 1` exactly one research call is made, streamed, on the topic itself. */
  lemma AtDepthOneSingleCall(s: Snapshot, topic: string, depth: int, strategy: Strategy)
    requires depth <= 1
    ensures var (s', ending) := Focused(s, topic, depth, strategy);
      ending == Completed && s.trace <= s'.trace &&
      Queries(s'.trace[|s.trace|..]) == [topic] && s'.trace[|s.trace|].stream
  {
    ResearchRequest(s, topic, None, DefaultModel, true);
  }

  /**
   * When `depth > 1` and the elicitation call fails, focused research raises
   * AttributeError right after that call: two requests were sent, the topic
   * (streamed) and the strategy's prompt (not streamed), and nothing more.
   */
  lemma FailedElicitationRaises(s: Snapshot, topic: string, depth: int, strategy: Strategy)
    requires depth > 1
    requires Received(ReplyAt(s.script, 1), false).None?
    ensures var (s', ending) := Focused(s, topic, depth, strategy);
      ending == AttributeError && s.trace <= s'.trace &&
      Queries(s'.trace[|s.trace|..]) == [topic, StrategyPrompt(strategy)] &&
      s'.trace[|s.trace|].stream && !s'.trace[|s.trace| + 1].stream
  {
    var s1 := ResearchStep(s, topic, None, DefaultModel, true).0;
    ResearchRequest(s, topic, None, DefaultModel, true);
    ResearchRequest(s1, StrategyPrompt(strategy), None, DefaultModel, false);
    assert ReplyAt(s.script, 1) == NextReply(s1.script);
    var s' := Focused(s, topic, depth, strategy).0;
    assert s'.trace == s.trace + [s1.trace[|s.trace|], s'.trace[|s.trace| + 1]];
  }

  /**
   * Once the elicitation call succeeds with `text`, focused research goes on
   * with the loop over the first (at most) three questions extracted from `text`.
   */
  lemma FocusedAfterElicitation(s: Snapshot, topic: string, depth: int, strategy: Strategy, text: string)
    requires depth > 1
    requires Received(ReplyAt(s.script, 1), false) == Some(text)
    ensures Elicited(s, topic, strategy).1 == Some(text)
    ensures Focused(s, topic, depth, strategy) ==
      PursueFollowUps(Elicited(s, topic, strategy).0, Selected(FollowUpQuestions(text, strategy)), 0, depth, strategy)
  {
    var s1 := ResearchStep(s, topic, None, DefaultModel, true).0;
    assert ReplyAt(s.script, 1) == NextReply(s1.script);
    FocusedUnfold(s, topic, depth, strategy);
  }

  /**
   * Under the depth strategy the loop ends right after researching its first
   * question: the `i >= 0` test is always true, so the break comes before the
   * recursion test is ever reached.
   */
  lemma PursueDepthStopsAfterFirst(s: Snapshot, questions: seq<string>, i: nat, depth: int)
    requires i < |questions|
    ensures PursueFollowUps(s, questions, i, depth, Depth) ==
      (ResearchStep(s, questions[i], None, DefaultModel, true).0, Completed)
  {
  }

  /** Three research calls in a row send three requests carrying their three queries, in order. */
  lemma ThreeCalls(s: Snapshot, a: string, b: string, c: string)
    ensures var s1 := ResearchStep(s, a, None, DefaultModel, true).0;
      var s2 := ResearchStep(s1, b, None, DefaultModel, false).0;
      var s3 := ResearchStep(s2, c, None, DefaultModel, true).0;
      s.trace <= s3.trace && Queries(s3.trace[|s.trace|..]) == [a, b, c]
  {
    var s1 := ResearchStep(s, a, None, DefaultModel, true).0;
    var s2 := ResearchStep(s1, b, None, DefaultModel, false).0;
    StepTrace(s, a, None, DefaultModel, true);
    StepTrace(s1, b, None, DefaultModel, false);
    StepTrace(s2, c, None, DefaultModel, true);
  }

  /**
   * Under the depth strategy focused research never recurses, whatever the
   * depth: after a successful elicitation it researches the first extracted
   * question (there always is one) and stops, three requests in all.
   */
  lemma DepthStrategyFollowsOne(s: Snapshot, topic: string, depth: int, text: string)
    requires depth > 1
    requires Received(ReplyAt(s.script, 1), false) == Some(text)
    ensures var (s', ending) := Focused(s, topic, depth, Depth);
      ending == Completed && s.trace <= s'.trace &&
      Queries(s'.trace[|s.trace|..]) == [topic, DepthPrompt, FollowUpQuestions(text, Depth)[0]]
  {
    FocusedAfterElicitation(s, topic, depth, Depth, text);
    var qs := Selected(FollowUpQuestions(text, Depth));
    DepthNeverEmpty(text);
    PursueDepthStopsAfterFirst(Elicited(s, topic, Depth).0, qs, 0, depth);
    ThreeCalls(s, topic, DepthPrompt, qs[0]);
  }

  /** The queries of consecutive runs of requests are consecutive. */
  lemma QueriesAppend(a: seq<Request>, b: seq<Request>)
    ensures Queries(a + b) == Queries(a) + Queries(b)
  {
    assert |Queries(a + b)| == |Queries(a) + Queries(b)|;
    forall k | 0 <= k < |a + b| ensures Queries(a + b)[k] == (Queries(a) + Queries(b))[k] {
      if k < |a| {
        assert (a + b)[k] == a[k];
      } else {
        assert (a + b)[k] == b[k - |a|];
      }
    }
  }

  /** A run of requests that starts with one whose query is `q` asks `q`, then what the rest of the run asks. */
  lemma QueriesCons(t: seq<Request>, u: seq<Request>, w: seq<Request>, q: string, rest: seq<string>)
    requires t <= u && |u| == |t| + 1 && u <= w
    requires QueryOf(u[|t|]) == q && Queries(w[|u|..]) == rest
    ensures t <= w && Queries(w[|t|..]) == [q] + rest
  {
    var head := [u[|t|]];
    assert w[|t|] == u[|t|];
    assert w[|t|..] == head + w[|u|..] by {
      forall k | 0 <= k < |w| - |t| ensures w[|t|..][k] == (head + w[|u|..])[k] {
        if k > 0 {
          assert w[|t|..][k] == w[|u|..][k - 1];
        }
      }
    }
    QueriesAppend(head, w[|u|..]);
    assert Queries(head) == [q];
    forall k | 0 <= k < |t| ensures t[k] == w[k] {
      assert t[k] == u[k];
    }
  }


  /**
   * Without recursion (depth at most 2, breadth or other strategy) the loop
   * researches each question once, in order, and every request it sends is streamed.
   */
  lemma {:induction false} PursueWithoutRecursion(s: Snapshot, questions: seq<string>, i: nat, depth: int, strategy: Strategy)
    requires i <= |questions| && depth <= 2 && strategy != Depth
    ensures PursueFollowUps(s, questions, i, depth, strategy).1 == Completed
    ensures s.trace <= PursueFollowUps(s, questions, i, depth, strategy).0.trace
    ensures Queries(PursueFollowUps(s, questions, i, depth, strategy).0.trace[|s.trace|..]) == questions[i..]
    ensures var t := PursueFollowUps(s, questions, i, depth, strategy).0.trace;
      forall k :: |s.trace| <= k < |t| ==> t[k].stream
    decreases |questions| - i
  {
    if i < |questions| {
      var s1 := ResearchStep(s, questions[i], None, DefaultModel, true).0;
      PursueFlatStep(s, questions, i, depth, strategy);
      PursueWithoutRecursion(s1, questions, i + 1, depth, strategy);
      StepTrace(s, questions[i], None, DefaultModel, true);
      var s' := PursueFollowUps(s1, questions, i + 1, depth, strategy).0;
      assert [questions[i]] + questions[i + 1..] == questions[i..];
      QueriesCons(s.trace, s1.trace, s'.trace, questions[i], questions[i + 1..]);
      forall k | |s.trace| <= k < |s'.trace| ensures s'.trace[k].stream {
        if k == |s.trace| {
          assert s'.trace[k] == s1.trace[k];
        }
      }
    } else {
      assert s.trace[|s.trace|..] == [] && questions[i..] == [];
    }
  }

  /**
   * At depth 2 under the breadth (or any non-depth) strategy, a successful
   * elicitation leads to one streamed research call for each of the first
   * three extracted questions and no recursion: the frame's depth 2 does not
   * exceed 2. Only the elicitation request is sent without streaming.
   */
  lemma DepthTwoNoRecursion(s: Snapshot, topic: string, strategy: Strategy, text: string)
    requires strategy != Depth
    requires Received(ReplyAt(s.script, 1), false) == Some(text)
    ensures Focused(s, topic, 2, strategy).1 == Completed
    ensures s.trace <= Focused(s, topic, 2, strategy).0.trace
    ensures Queries(Focused(s, topic, 2, strategy).0.trace[|s.trace|..]) ==
      [topic, StrategyPrompt(strategy)] + Selected(FollowUpQuestions(text, strategy))
    ensures var t := Focused(s, topic, 2, strategy).0.trace;
      t[|s.trace|].stream && !t[|s.trace| + 1].stream &&
      forall k :: |s.trace| + 2 <= k < |t| ==> t[k].stream
  {
    FocusedAfterElicitation(s, topic, 2, strategy, text);
    var s1 := ResearchStep(s, topic, None, DefaultModel, true).0;
    var s2 := Elicited(s, topic, strategy).0;
    var qs := Selected(FollowUpQuestions(text, strategy));
    StepTrace(s, topic, None, DefaultModel, true);
    StepTrace(s1, StrategyPrompt(strategy), None, DefaultModel, false);
    PursueWithoutRecursion(s2, qs, 0, 2, strategy);
    var s' := PursueFollowUps(s2, qs, 0, 2, strategy).0;
    assert qs[0..] == qs;
    QueriesCons(s1.trace, s2.trace, s'.trace, StrategyPrompt(strategy), qs);
    QueriesCons(s.trace, s1.trace, s'.trace, topic, [StrategyPrompt(strategy)] + qs);
    assert [topic] + ([StrategyPrompt(strategy)] + qs) == [topic, StrategyPrompt(strategy)] + qs;
  }

  /**
   * With depth above 2 and a non-depth strategy, each follow-up question is
   * researched twice in a row: once by the loop, and again as the topic of
   * the recursive focused research on it, with one less depth.
   */
  lemma RecursionRepeatsQuestion(s: Snapshot, questions: seq<string>, i: nat, depth: int, strategy: Strategy)
    requires i < |questions| && depth > 2 && strategy != Depth
    ensures var s' := PursueFollowUps(s, questions, i, depth, strategy).0;
      |s'.trace| >= |s.trace| + 2 && s.trace <= s'.trace &&
      QueryOf(s'.trace[|s.trace|]) == questions[i] && QueryOf(s'.trace[|s.trace| + 1]) == questions[i]
  {
    var s1 := ResearchStep(s, questions[i], None, DefaultModel, true).0;
    var s2 := ResearchStep(s1, questions[i], None, DefaultModel, true).0;
    var inner := Nested(s, questions, i, depth, strategy);
    var r := PursueFollowUps(s, questions, i, depth, strategy).0;
    StepTrace(s, questions[i], None, DefaultModel, true);
    StepTrace(s1, questions[i], None, DefaultModel, true);
    FocusedExtends(s1, questions[i], depth - 1, strategy);
    if inner.1 == AttributeError {
      PursueNestedRaises(s, questions, i, depth, strategy);
    } else {
      PursueNestedContinues(s, questions, i, depth, strategy);
      PursueExtends(inner.0, questions, i + 1, depth, strategy);
      ExtendsTrans(s2, inner.0, r);
    }
    assert s2.trace <= r.trace;
    assert r.trace[|s.trace|] == s2.trace[|s.trace|] == s1.trace[|s.trace|];
    assert r.trace[|s.trace| + 1] == s2.trace[|s.trace| + 1];
  }
}
