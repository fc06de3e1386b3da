/**
 * Follow-up questions: the prompt each strategy sends to elicit them, and the
 * numbered-line heuristic that pulls them out of the reply.
 */
module FollowUps {
  import opened Text

  datatype Strategy = Breadth | Depth | Other

  /** The strategy a name selects: "breadth", "depth", and every other name alike. */
  function StrategyOf(name: string): (s: Strategy)
    ensures s == Breadth <==> name == "breadth"
    ensures s == Depth <==> name == "depth"
  {
    if name == "breadth" then Breadth else if name == "depth" then Depth else Other
  }

  const BreadthPrompt: string :=
    "Based on the research so far, " +
    "identify 3 key aspects of this topic " +
    "that would benefit from further exploration. Format as numbered questions."

  const DepthPrompt: string :=
    "Identify the most important " +
    "or complex aspect of this topic that " +
    "requires deeper investigation. Frame this as a specific question."

  const OtherPrompt: string :=
    "What's the most interesting " +
    "follow-up question to continue this research?"

  /** The follow-up elicitation prompt of a strategy. */
  function StrategyPrompt(strategy: Strategy): string
  {
    match strategy
    case Breadth => BreadthPrompt
    case Depth => DepthPrompt
    case Other => OtherPrompt
  }

  /** The three strategies send three different prompts, so the prompt tells which strategy asked. */
  lemma StrategyPromptInjective(a: Strategy, b: Strategy)
    ensures StrategyPrompt(a) == StrategyPrompt(b) <==> a == b
  {
    assert BreadthPrompt[0] == 'B' && DepthPrompt[0] == 'I' && OtherPrompt[0] == 'W';
  }

  /** A line counts as a list item when its stripped form starts with a digit '1'..'9'. */
  predicate Qualifies(line: string)
  {
    IsListMarker(Strip(line))
  }

  /** A line qualifies exactly when its first non-whitespace character is one of '1'..'9'. */
  lemma QualifiesIff(line: string)
    ensures Qualifies(line) <==>
      exists i :: 0 <= i < |line| && '1' <= line[i] <= '9' && forall j :: 0 <= j < i ==> IsSpace(line[j])
  {
    StripSlice(line);
    ListMarkerIff(Strip(line));
    var r, lo := Strip(line), |line| - |TrimStart(line)|;
    if Qualifies(line) {
      assert line[lo] == r[0];
    } else {
      forall i | 0 <= i < |line| && '1' <= line[i] <= '9'
        ensures exists j :: 0 <= j < i && !IsSpace(line[j])
      {
        assert !IsSpace(line[i]);
        assert lo <= i < lo + |r|;
        assert line[lo] == r[0];
      }
    }
  }

  /** The stripped form of every qualifying line, in order. */
  function NumberedLines(lines: seq<string>): (qs: seq<string>)
    ensures |qs| <= |lines|
  {
    if lines == [] then []
    else if Qualifies(lines[0]) then [Strip(lines[0])] + NumberedLines(lines[1..])
    else NumberedLines(lines[1..])
  }

  /** Exactly the stripped qualifying lines make it into the result, and each starts with '1'..'9'. */
  lemma {:induction false} NumberedLinesMembers(lines: seq<string>)
    ensures forall q <- NumberedLines(lines) :: (exists l <- lines :: Qualifies(l) && Strip(l) == q)
    ensures forall l <- lines :: Qualifies(l) ==> Strip(l) in NumberedLines(lines)
    ensures forall q <- NumberedLines(lines) :: |q| > 0 && '1' <= q[0] <= '9'
    ensures NumberedLines(lines) == [] <==> forall l <- lines :: !Qualifies(l)
  {
    if lines != [] {
      var tail := lines[1..];
      NumberedLinesMembers(tail);
      var rest, qs := NumberedLines(tail), NumberedLines(lines);
      if Qualifies(lines[0]) {
        ListMarkerIff(Strip(lines[0]));
        assert qs == [Strip(lines[0])] + rest;
      } else {
        assert qs == rest;
      }
      forall q <- qs ensures exists l <- lines :: Qualifies(l) && Strip(l) == q {
        if q in rest {
          var l :| l in tail && Qualifies(l) && Strip(l) == q;
          assert l in lines;
        } else {
          assert Qualifies(lines[0]) && q == Strip(lines[0]);
        }
      }
      forall l <- lines | Qualifies(l) ensures Strip(l) in qs {
        if l != lines[0] {
          assert l in tail;
        }
      }
    }
  }

  /** Filtering line by line: the result for a longer list extends the result for its prefix. */
  lemma {:induction false} NumberedLinesAppend(a: seq<string>, l: string)
    ensures NumberedLines(a + [l]) ==
      NumberedLines(a) + (if Qualifies(l) then [Strip(l)] else [])
  {
    if a != [] {
      assert (a + [l])[1..] == a[1..] + [l];
      NumberedLinesAppend(a[1..], l);
    } else {
      assert [l][1..] == [];
    }
  }

  /** The positions of the qualifying lines at or after `from`, in increasing order. */
  function QualifyingIndices(lines: seq<string>, from: nat): (idx: seq<nat>)
    requires from <= |lines|
    ensures forall k :: 0 <= k < |idx| ==> from <= idx[k] < |lines| && Qualifies(lines[idx[k]])
    ensures forall k, m :: 0 <= k < m < |idx| ==> idx[k] < idx[m]
    ensures forall j :: from <= j < |lines| && Qualifies(lines[j]) ==> j in idx
    decreases |lines| - from
  {
    if from == |lines| then []
    else if Qualifies(lines[from]) then [from] + QualifyingIndices(lines, from + 1)
    else QualifyingIndices(lines, from + 1)
  }

  /** The kept lines are the stripped qualifying lines in their original order, one per qualifying line. */
  lemma {:induction false} NumberedLinesOrder(lines: seq<string>, from: nat)
    requires from <= |lines|
    ensures var qs, idx := NumberedLines(lines[from..]), QualifyingIndices(lines, from);
      |qs| == |idx| && forall k :: 0 <= k < |idx| ==> qs[k] == Strip(lines[idx[k]])
    decreases |lines| - from
  {
    if from < |lines| {
      var rest, tail := NumberedLines(lines[from + 1..]), QualifyingIndices(lines, from + 1);
      NumberedLinesOrder(lines, from + 1);
      assert lines[from..][0] == lines[from];
      assert lines[from..][1..] == lines[from + 1..];
      if Qualifies(lines[from]) {
        var qs, idx := [Strip(lines[from])] + rest, [from] + tail;
        assert NumberedLines(lines[from..]) == qs && QualifyingIndices(lines, from) == idx;
        forall k | 0 < k < |idx| ensures qs[k] == Strip(lines[idx[k]]) {
          assert qs[k] == rest[k - 1] && idx[k] == tail[k - 1];
        }
      } else {
        assert NumberedLines(lines[from..]) == rest && QualifyingIndices(lines, from) == tail;
      }
    }
  }

  /**
   * The follow-up questions extracted from a reply: its numbered lines, or,
   * under the depth strategy when there are none, the whole unstripped reply.
   */
  function FollowUpQuestions(raw: string, strategy: Strategy): seq<string>
  {
    var qs := NumberedLines(SplitLines(raw));
    if qs == [] && strategy == Depth then [raw] else qs
  }

  /**
   * What extraction yields: when some line qualifies, exactly the stripped
   * qualifying lines (a line qualifies iff its stripped form starts with
   * '1'..'9'); when none does, the raw reply alone under the depth strategy
   * and nothing under any other strategy.
   */
  lemma FollowUpQuestionsSpec(raw: string, strategy: Strategy)
    ensures var qs := FollowUpQuestions(raw, strategy);
      var lines := SplitLines(raw);
      if exists l <- lines :: Qualifies(l) then
        (forall q <- qs :: |q| > 0 && '1' <= q[0] <= '9' && exists l <- lines :: Qualifies(l) && Strip(l) == q) &&
        (forall l <- lines :: Qualifies(l) ==> Strip(l) in qs) &&
        var idx := QualifyingIndices(lines, 0);
        |qs| == |idx| && forall k :: 0 <= k < |idx| ==> qs[k] == Strip(lines[idx[k]])
      else if strategy == Depth then qs == [raw]
      else qs == []
  {
    var lines := SplitLines(raw);
    NumberedLinesMembers(lines);
    NumberedLinesOrder(lines, 0);
    assert lines[0..] == lines;
  }

  /** Under the depth strategy there is always at least one follow-up question. */
  lemma DepthNeverEmpty(raw: string)
    ensures FollowUpQuestions(raw, Depth) != []
  {
  }

  /** The follow-up questions the loop pursues: `questions[:min(3, len(questions))]`. */
  function Selected(questions: seq<string>): (sel: seq<string>)
    ensures |sel| <= 3 && sel <= questions
    ensures |questions| >= 3 ==> |sel| == 3
    ensures |questions| < 3 ==> sel == questions
  {
    questions[..if 3 < |questions| then 3 else |questions|]
  }

  /** The extraction loop: split the reply into lines and keep the stripped numbered ones. */
  method ExtractFollowUps(raw: string, strategy: Strategy) returns (questions: seq<string>)
    ensures questions == FollowUpQuestions(raw, strategy)
  {
    var lines := SplitLines(raw);
    questions := [];
    for i := 0 to |lines|
      invariant questions == NumberedLines(lines[..i])
    {
      NumberedLinesAppend(lines[..i], lines[i]);
      assert lines[..i + 1] == lines[..i] + [lines[i]];
      if IsListMarker(Strip(lines[i])) {
        questions := questions + [Strip(lines[i])];
      }
    }
    assert lines[..|lines|] == lines;
    if questions == [] && strategy == Depth {
      questions := [raw];
    }
  }

  /** An example reply to a breadth elicitation: three numbered questions and a note. */
  const ExampleReply: string := "1. A\n2. B\nN\n3. C\n"

  /** The example reply splits into its four lines and a final empty piece. */
  lemma ExampleLines()
    ensures SplitLines(ExampleReply) == ["1. A", "2. B", "N", "3. C", ""]
  {
    var lines := ["1. A", "2. B", "N", "3. C", ""];
    assert JoinLines(lines) == ExampleReply;
    SplitJoin(lines);
  }

  /** Of the example reply's lines, the three numbered ones qualify. */
  lemma ExampleNumbered()
    ensures NumberedLines(["1. A", "2. B", "N", "3. C", ""]) ==
      ["1. A", "2. B", "3. C"]
  {
    var lines := ["1. A", "2. B", "N", "3. C", ""];
    StripKeeps("1. A");
    StripKeeps("2. B");
    StripKeeps("N");
    StripKeeps("3. C");
    StripKeeps("");
    ListMarkerIff("1. A");
    ListMarkerIff("2. B");
    ListMarkerIff("N");
    ListMarkerIff("3. C");
    ListMarkerIff("");
    assert NumberedLines(lines[4..]) == [];
    assert NumberedLines(lines[3..]) == ["3. C"];
    assert NumberedLines(lines[2..]) == ["3. C"];
    assert NumberedLines(lines[1..]) == ["2. B", "3. C"];
  }

  /** On the example reply, extraction keeps the numbered lines in order and drops the note line. */
  lemma ExtractionExample()
    ensures FollowUpQuestions(ExampleReply, Breadth) ==
      ["1. A", "2. B", "3. C"]
  {
    ExampleLines();
    ExampleNumbered();
  }
}
