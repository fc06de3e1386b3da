/**
 * The chat-completions gateway, seen from the research assistant: a request
 * carries the model name, the role-tagged message list and the stream flag;
 * a reply is a whole text, a stream of chunk contents, or an exception.
 *
 * The real client is a foreign library reached over the network; here it is a
 * scripted oracle that hands out its replies in order and records every
 * request it was sent.
 */
module Gateway {
  import opened Wrappers
  import opened Text

  datatype Role = System | User | Assistant

  datatype Message = Message(role: Role, content: string)

  datatype Request = Request(model: string, messages: seq<Message>, stream: bool)

  /** One scripted outcome of a gateway call. */
  datatype Reply =
    | Failed                                  // the call raised
    | Answered(text: string)                  // a non-streamed completion
    | Streamed(chunks: seq<Option<string>>)   // the delta contents of a streamed completion

  /** The text a chunk contributes: its content, or nothing when the content is absent. */
  function Piece(chunk: Option<string>): string
  {
    match chunk
    case Some(c) => c
    case None => ""
  }

  /** Reference meaning of a stream: the contents of its chunks, in arrival order. */
  function StreamedText(chunks: seq<Option<string>>): string
  {
    if chunks == [] then "" else Piece(chunks[0]) + StreamedText(chunks[1..])
  }

  /** Streams compose: the text of two streams back to back is the two texts back to back. */
  lemma {:induction false} StreamedTextAppend(a: seq<Option<string>>, b: seq<Option<string>>)
    ensures StreamedText(a + b) == StreamedText(a) + StreamedText(b)
  {
    if a == [] {
      assert a + b == b;
    } else {
      assert (a + b)[1..] == a[1..] + b;
      StreamedTextAppend(a[1..], b);
    }
  }

  /** Absent and empty chunks contribute nothing: dropping them leaves the text unchanged. */
  lemma {:induction false} StreamedTextSkipsEmpty(a: seq<Option<string>>, chunk: Option<string>, b: seq<Option<string>>)
    requires chunk == None || chunk == Some("")
    ensures StreamedText(a + [chunk] + b) == StreamedText(a + b)
  {
    var tail := [chunk] + b;
    assert a + [chunk] + b == a + tail;
    assert tail[1..] == b;
    StreamedTextAppend(a, tail);
    StreamedTextAppend(a, b);
  }

  /**
   * The text a call yields, or None when the call raised. A scripted reply
   * whose shape does not match the stream flag of the request stands for a
   * client that raised while its result was read.
   */
  function Received(reply: Reply, stream: bool): (r: Option<string>)
    ensures r.Some? <==> (reply.Answered? && !stream) || (reply.Streamed? && stream)
    ensures reply.Answered? && !stream ==> r == Some(reply.text)
    ensures reply.Streamed? && stream ==> r == Some(StreamedText(reply.chunks))
  {
    match reply
    case Failed => None
    case Answered(text) => if stream then None else Some(text)
    case Streamed(chunks) => if stream then Some(StreamedText(chunks)) else None
  }

  /** The reply the next call gets: the head of the script, or a failure once it is used up. */
  function NextReply(script: seq<Reply>): Reply
  {
    if script == [] then Failed else script[0]
  }

  /** The script after one call. */
  function RestOf(script: seq<Reply>): seq<Reply>
  {
    if script == [] then [] else script[1..]
  }

  /** The reply the k-th call from now gets. */
  function ReplyAt(script: seq<Reply>, k: nat): (reply: Reply)
    ensures k < |script| ==> reply == script[k]
    ensures k >= |script| ==> reply == Failed
  {
    if k == 0 then NextReply(script) else ReplyAt(RestOf(script), k - 1)
  }

  /** The client object: `chat.completions.create` against a scripted oracle. */
  class ScriptedGateway {
    var script: seq<Reply>
    var trace: seq<Request>

    constructor (script: seq<Reply>)
      ensures this.script == script && trace == []
    {
      this.script := script;
      trace := [];
    }

    /** One gateway call: records the request and consumes one scripted reply. */
    method Create(request: Request) returns (reply: Reply)
      modifies this
      ensures trace == old(trace) + [request]
      ensures reply == NextReply(old(script)) && script == RestOf(old(script))
    {
      trace := trace + [request];
      if script == [] {
        reply := Failed;
      } else {
        reply := script[0];
        script := script[1..];
      }
    }
  }
}
