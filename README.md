# Research assistant: a verified model

This project models the `ResearchAssistant` of `app.py`. The assistant is a thin
client over a chat-completions gateway. It keeps a session history of
(user, assistant) exchanges. Each research call sends the system prompt, the
whole prior history and the new query, then records the exchange when the call
succeeds. Focused research elicits follow-up questions and researches them,
recursing with one less depth.

The gateway is a foreign library reached over the network. Here it is
`Gateway.ScriptedGateway`, an oracle that hands out scripted replies in order
and records every request it is sent. Everything else is deterministic and is
modelled twice:

- as pure steps on a `Research.Snapshot`, which holds the default prompt, the
  history, the gateway script and the request trace:
  - `Research.ResearchStep`;
  - the mutually recursive `Orchestrator.Focused` and
    `Orchestrator.PursueFollowUps`;
- as the class `Assistant.ResearchAssistant`, whose methods update the history
  in place. Each method is proved to perform exactly the pure step above.

The properties are proved about the pure steps. Two outcomes of focused research
are made explicit:

- it completes;
- it raises `AttributeError`, when the elicitation call returned `None` and the
  code then calls `.split` on it.

Modules:

- `Text`: `str.strip`, `str.split('\n')`, the digit list-marker test and `"".join`.
- `Gateway`: messages, requests, scripted replies and the stream fold.
- `Research`: one research call and the session invariant.
- `FollowUps`: the strategy prompts and follow-up extraction.
- `Orchestrator`: focused research as a pure recursion.
- `Assistant`: the class with its methods.

## Model

| member | source | states |
|---|---|---|
| Assistant.ResolveApiKey | app.py:11-13 | The key is the given one when it is non-empty, otherwise the environment's. It is absent (ValueError) exactly when neither is non-empty, and a resolved key is never empty. |
| Assistant.ResearchAssistant.Open | app.py:9-33 | Construction fails exactly when no key resolves. Otherwise it yields a fresh assistant holding the resolved key, the Perplexity base URL, the given client, the default system prompt, an empty history and a paired session. |
| Assistant.ResearchAssistant.constructor | app.py:16-38 | A new assistant has the Perplexity base URL, the default system prompt, an empty history, the given session id and a valid session. |
| Assistant.CollectStream | app.py:70-79 | The streaming loop returns exactly the reference text of the chunk stream (`StreamedText`). |
| Assistant.ResearchAssistant.Research | app.py:40-109 | The new state and result are exactly `ResearchStep` of the old state. The session id is unchanged and a paired history stays paired. |
| Assistant.ResearchAssistant.ClearSession | app.py:127-130 | The history becomes empty whatever it held, the gateway is untouched and the session id becomes the new one. |
| Assistant.ResearchAssistant.FocusedResearch | app.py:133-186 | The new state and ending are exactly `Focused` of the old state for the strategy the name selects. The session id is unchanged and a paired history stays paired. |
| Assistant.ResearchAssistant.FollowUpLoop | app.py:173-186 | The loop over the selected questions does exactly what `PursueFollowUps` does from the first question, including the early stop and the raise. |
| Assistant.ResearchAssistant.FollowUpTurn | app.py:176-186 | One turn either stops the loop with the loop's own outcome or leaves the state from which the rest of the loop gives the same outcome as from the turn's start. |
| Gateway.StreamedText | app.py:72-79 | The reference fold of a stream: the chunk contents in arrival order. `StreamedTextAppend` and `StreamedTextSkipsEmpty` state its properties, and `CollectStream` is proved to compute it. |
| Gateway.StreamedTextAppend | app.py:72-79 | Folding two streams back to back gives the two texts back to back. |
| Gateway.StreamedTextSkipsEmpty | app.py:73-76 | An absent or empty chunk contributes nothing to the response. |
| Gateway.Received | app.py:60-92 | A call yields text exactly when the reply matches the stream flag. A non-streamed answer yields its text, and a streamed reply yields the fold `StreamedText` of its chunks; anything else is a failure. |
| Gateway.ReplyAt | app.py:62-88 | The k-th call from now receives the k-th scripted reply, or a failure once the script is used up. |
| Gateway.ScriptedGateway.Create | app.py:62-67 | A gateway call appends its request to the trace and consumes exactly one scripted reply. |
| Research.ResearchStep | app.py:40-109 | One research call on a snapshot. `ResearchRequest` states the request it sends, `ResearchHistory` the history and result on success and failure, and `ResearchKeepsPaired` the session invariant. |
| Research.SystemPromptOr | app.py:44-45 | A call uses the system prompt it is given, and the assistant's default prompt when it is given none. |
| Research.Assemble | app.py:48-55 | The message list is the system message, the whole history in order, then the user query; its length is the history's plus 2. |
| Research.StepTrace | app.py:60-88 | A call appends exactly one request to the trace, carrying the call's query and stream flag; the default prompt is kept. |
| Research.ResearchRequest | app.py:44-88 | The request sent has the resolved system prompt first, the prior history unchanged in the middle, the query last, and the given model and stream flag. Earlier trace entries are unchanged. |
| Research.ResearchHistory | app.py:98-109 | On success the history grows by exactly `{user, query}` then `{assistant, response}` and the response is returned. On failure the result is None and the history is unchanged. One scripted reply is consumed either way. |
| Research.PairedRoles | app.py:99-100 | A paired history has even length, with users at even positions and assistants at odd ones, and conversely. |
| Research.PairedAppend | app.py:99-100 | Appending one (user, assistant) exchange keeps a history paired. |
| Research.ResearchKeepsPaired | app.py:98-109 | A research call, successful or not, keeps the history paired. |
| Research.Cleared | app.py:129 | Clearing leaves an empty (hence paired) history and the gateway as it was. |
| Research.SuccessfulCallsLength | app.py:40-109 | After a run of successful calls, each with its own query, system prompt, model and stream flag, the history has grown by exactly two entries per call and its earlier entries are unchanged. The new entries are the calls' exchanges in call order: entry 2k is `{user, query of call k}` and entry 2k+1 is `{assistant, text of the k-th reply as call k's stream flag reads it}` (`ExchangesFrom`). Mixed runs such as focused research's streamed, non-streamed, streamed calls are covered. |
| Research.ExchangesFromCons | app.py:99-100 | One exchange followed by the exchanges of the rest of a run gives the exchanges of the whole run, in order. |
| FollowUps.StrategyPrompt | app.py:144-157 | The elicitation prompt of each strategy. `StrategyPromptInjective` states that the three prompts differ, and `StrategyOf` that the names select them as the if/elif chain does. |
| FollowUps.StrategyOf | app.py:144-157 | "breadth" selects the breadth prompt and "depth" the depth prompt; every other name selects the third. |
| Text.Strip | app.py:165-166 | `str.strip()`. `StripSlice` states what it returns and `StripIdempotent` that it is idempotent. |
| Text.StripSlice | app.py:165-166 | `strip()` returns the slice between the leading and trailing whitespace runs and has no whitespace at either end. |
| Text.SplitLines | app.py:164 | `str.split('\n')`: at least one piece, none containing a newline. `JoinSplit` and `SplitJoin` state that it is the inverse of joining with newlines. |
| Text.JoinSplit | app.py:164 | Splitting on newlines loses nothing: joining the pieces with newlines restores the text. |
| Text.SplitJoin | app.py:164 | Splitting a newline-join of newline-free pieces restores the pieces. |
| Text.IsListMarker | app.py:165 | The list-marker test `any(t.startswith(str(i)) for i in range(1, 10))`. `ListMarkerIff` states what it accepts. |
| Text.ListMarkerIff | app.py:165 | `any(t.startswith(str(i)) for i in range(1, 10))` holds exactly when `t` starts with '1'..'9'. |
| Text.ConcatAppend | app.py:76-79 | Joining one more chunk appends it to the joined text. |
| Text.Concat | app.py:79 | `"".join(parts)`. `ConcatAppend` states that joining one more part appends that part's text, and `CollectStream` is proved to return it for the collected chunks. |
| FollowUps.Qualifies | app.py:165 | The per-line test: the stripped line starts with a digit `str(i)` for i in 1..9. `QualifiesIff` states what it accepts. |
| FollowUps.QualifiesIff | app.py:165 | A line qualifies exactly when its first non-whitespace character is one of '1'..'9'. |
| FollowUps.NumberedLines | app.py:163-166 | The stripped qualifying lines, never more than the lines. `NumberedLinesMembers`, `NumberedLinesAppend` and `NumberedLinesOrder` state which lines are kept and in what order. |
| FollowUps.NumberedLinesMembers | app.py:163-166 | Every kept line is the stripped form of a qualifying line, and every qualifying line is kept. Every kept line starts with '1'..'9', and none is kept exactly when no line qualifies. |
| FollowUps.NumberedLinesAppend | app.py:164-166 | Processing one more line appends its stripped form exactly when it qualifies. |
| FollowUps.FollowUpQuestions | app.py:162-170 | The reference extraction. `FollowUpQuestionsSpec` and `DepthNeverEmpty` state its result, and `ExtractFollowUps` is proved to compute it. |
| FollowUps.ExtractFollowUps | app.py:162-170 | The extraction loop returns exactly `FollowUpQuestions`, the reference extraction. |
| FollowUps.FollowUpQuestionsSpec | app.py:163-170 | When some line qualifies, the result is the stripped qualifying lines, one per qualifying line, in their original order: the k-th question is the stripped line at the k-th qualifying position (`QualifyingIndices`). When none qualifies, the result is the raw text alone under the depth strategy and nothing otherwise. |
| FollowUps.QualifyingIndices | app.py:164-165 | The positions of the qualifying lines: strictly increasing, each qualifying, and every qualifying position included. |
| FollowUps.NumberedLinesOrder | app.py:164-166 | The kept lines are the stripped lines at the qualifying positions, in order, one per position. |
| FollowUps.DepthNeverEmpty | app.py:168-170 | Under the depth strategy there is always at least one question. |
| FollowUps.Selected | app.py:173 | At most the first three questions are pursued. They are a prefix of the extracted list, three when there are at least three, and all of them otherwise. |
| FollowUps.ExampleLines | app.py:164 | An example reply splits into its four lines and a final empty piece. |
| FollowUps.ExampleNumbered | app.py:165-166 | Of the example reply's lines, exactly the numbered ones qualify, in order. |
| FollowUps.ExtractionExample | app.py:163-170 | On the example reply, extraction keeps the three numbered lines in order and drops the note line. |
| Orchestrator.Focused | app.py:133-186 | Focused research on a snapshot. It terminates because the depth decreases on every recursion. `FocusedExtends`, `FocusedKeepsPaired`, `AtDepthOneSingleCall`, `FailedElicitationRaises`, `DepthStrategyFollowsOne` and `DepthTwoNoRecursion` state its behaviour, and `FocusedResearch` is proved to perform it. |
| Orchestrator.PursueFollowUps | app.py:173-186 | The follow-up loop from a position on. `PursueExtends`, `PursueKeepsPaired`, `PursueDepthStopsAfterFirst`, `PursueWithoutRecursion` and `RecursionRepeatsQuestion` state its behaviour, and `FollowUpLoop` is proved to perform it. |
| Orchestrator.FocusedExtends | app.py:133-186 | Focused research only appends to the trace and history, and everything it sends comes after its initial call. |
| Orchestrator.PursueExtends | app.py:173-186 | The follow-up loop only appends to the trace and history. |
| Orchestrator.FocusedKeepsPaired | app.py:133-186 | Focused research keeps a paired history paired, whichever way it ends. |
| Orchestrator.PursueKeepsPaired | app.py:173-186 | The follow-up loop keeps a paired history paired. |
| Orchestrator.AtDepthOneSingleCall | app.py:138-141 | With depth at most 1 exactly one request is sent, streamed and carrying the topic, and focused research completes. |
| Orchestrator.FailedElicitationRaises | app.py:160-164 | A failed elicitation ends focused research with AttributeError. Exactly two requests were sent: the streamed topic and the non-streamed strategy prompt. |
| Orchestrator.PursueDepthStopsAfterFirst | app.py:176-180 | Under the depth strategy the loop stops right after researching its current question, since `i >= 0` always holds; it never reaches the recursion test. |
| Orchestrator.DepthStrategyFollowsOne | app.py:149-180 | Under the depth strategy, at any depth above 1 with a successful elicitation, exactly three requests are sent: topic, depth prompt, first extracted question. Focused research completes without recursing. |
| Orchestrator.PursueWithoutRecursion | app.py:173-186 | Without recursion the loop completes and researches each selected question once, in order, and nothing else. Every request it sends is streamed (app.py:176). |
| Orchestrator.DepthTwoNoRecursion | app.py:138-186 | At depth 2 under a non-depth strategy with a successful elicitation, the requests are the topic, the strategy prompt and the selected questions, in order. There is no recursion. The topic request is streamed, the elicitation request is not, and every follow-up request is streamed (app.py:138, 160, 176). |
| Orchestrator.RecursionRepeatsQuestion | app.py:176-186 | With depth above 2 under a non-depth strategy, a follow-up question is researched twice in a row: by the loop, then as the topic of the nested focused research. |

Focused research terminates because `Orchestrator.Focused` and
`Orchestrator.PursueFollowUps` decrease on the depth: recursion happens only
when the depth exceeds 2, with `depth - 1`.

## Left out

- The OpenAI client and the network (app.py:16-19, 62-67, 84-89) are replaced by the scripted gateway. The base URL is stored but has no effect.
- A gateway call that raises partway through a stream is modelled as a failed call (`Failed`). The chunks printed before the failure are not modelled.
- A scripted reply whose shape does not match the stream flag stands for a client that raised while its reply was read.
- Temperature is a float passed straight through to the gateway and is not modelled.
- Printing, `time.time()` and the timing report (app.py:58, 71-96, 135, 174-175) are console output only.
- `_save_session` (app.py:111-125) writes a JSON file and swallows its own exceptions. It cannot affect the history or the result, so the model leaves it out.
- The session id comes from the clock (app.py:37, 130). It is a parameter of the constructor and of `ClearSession`, so the model does not show that a new id differs from the old one (at one-second resolution the clock does not guarantee that either).
- The environment lookup of `PERPLEXITY_API_KEY` is a parameter of `ResolveApiKey`.
- `main` (app.py:189-233) is left out: argument parsing and the interactive loop.
- Default arguments (`depth=3`, `follow_up_strategy="breadth"`, `stream=False`, the default model) are explicit parameters here. The calls inside focused research pass `DefaultModel` as the source does.
- A non-streamed reply whose content is `None` is not modelled; `Answered` always carries text.
- Reply objects without `choices` are not modelled either.
- `Text.IsSpace` lists the ASCII and Unicode whitespace characters that Python's `str.isspace` accepts. Python decides by the Unicode database, so the model stands or falls with that list.
- A failed elicitation: the code at app.py:160-164 calls `.split` on `None`, which raises. The model ends focused research with `AttributeError`, which propagates out of every enclosing focused-research call.
