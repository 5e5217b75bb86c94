/**
  The inference client, `sendToDeepSeekChat`: it builds the chat request for
  the decompiled code and turns the endpoint's reply into the text the pipeline
  goes on with. The HTTP exchange and the JSON codec are not modelled: the
  endpoint answers each request by a fixed function and records what was
  posted to it, and a reply carries its body already decoded (or nothing,
  when the body is not JSON).
*/
module Inference {
  import opened Wrappers

  const ChatApiUrl := "https://api.deepseek.com/v1/chat/completions"
  const ApiKey := "your_deepseek_api"
  const ModelId := "deepseek-coder"

  /** The fixed instruction of the system message. */
  const SystemBase := "You are a helpful assistant that improves the readability of decompiled code. Rename variables based on their usage. Do not modify function names and do not add any Explanation section. Only Return the improved code."
  /** Appended to both messages when comments are wanted. */
  const CommentsInstruction := " Add comments to explain each code block."
  /** The instruction the user message opens with. */
  const UserInstruction := "Improve the readability of the following code by renaming variables based on their usage. Do not modify function names."
  /** What stands between the instruction and the code in the user message. */
  const CodeLead := " Only return the improved code:\n\n"

  /** A decoded JSON value (numbers are kept to integers). */
  datatype Json =
    | JNull
    | JBool(b: bool)
    | JNumber(n: int)
    | JString(s: string)
    | JArray(items: seq<Json>)
    | JObject(members: map<string, Json>)

  datatype Message = Message(role: string, content: string)

  /** The request body before it is serialised. */
  datatype Payload = Payload(model: string, messages: seq<Message>)

  datatype Request = Request(url: string, headers: seq<(string, string)>, payload: Payload)

  /**
    What the endpoint answers: a status with a body that decoded to JSON (or
    `None` when it did not), or a fault of the transport itself, which also
    stands for the exceptions raised for statuses outside 2xx.
  */
  datatype Reply = Response(status: int, body: Option<Json>) | TransportFault

  /** The system message: the fixed instruction, with the comment request appended when asked for. */
  function SystemMessage(addComments: bool): (m: string)
    ensures |m| >= |SystemBase| && m[..|SystemBase|] == SystemBase
    ensures addComments <==> m == SystemBase + CommentsInstruction
    ensures !addComments <==> m == SystemBase
  {
    if addComments then SystemBase + CommentsInstruction else SystemBase
  }

  /**
    The user message: the instruction, the comment request when asked for,
    then the lead-in and the code itself, which ends the message.
  */
  function UserMessage(code: string, addComments: bool): (m: string)
    ensures |m| == |UserInstruction| + (if addComments then |CommentsInstruction| else 0) + |CodeLead| + |code|
    ensures m[..|UserInstruction|] == UserInstruction
    ensures m[|m| - |code|..] == code
    ensures m[|m| - |code| - |CodeLead|..|m| - |code|] == CodeLead
    ensures addComments <==> m[|UserInstruction|..|m| - |code| - |CodeLead|] == CommentsInstruction
  {
    var comments := if addComments then CommentsInstruction else "";
    FourParts(UserInstruction, comments, CodeLead, code);
    UserInstruction + comments + CodeLead + code
  }

  /** Each of four concatenated texts can be cut back out of the whole. */
  lemma FourParts(a: string, b: string, c: string, d: string)
    ensures var m := a + b + c + d;
      && |m| == |a| + |b| + |c| + |d|
      && m[..|a|] == a
      && m[|a|..|m| - |d| - |c|] == b
      && m[|m| - |d| - |c|..|m| - |d|] == c
      && m[|m| - |d|..] == d
  {
    var m := a + b + c + d;
    assert m == a + (b + (c + d));
    assert m[|a|..] == b + (c + d);
    assert m[|a| + |b|..] == c + d;
  }

  /**
    The payload: the fixed model, and exactly two messages, the system one
    first and the user one, which ends with the code, second.
  */
  function BuildPayload(code: string, addComments: bool): (p: Payload)
    ensures p.model == ModelId
    ensures |p.messages| == 2
    ensures p.messages[0] == Message("system", SystemMessage(addComments))
    ensures p.messages[1] == Message("user", UserMessage(code, addComments))
    ensures |p.messages[1].content| >= |code|
    ensures p.messages[1].content[|p.messages[1].content| - |code|..] == code
  {
    Payload(ModelId, [Message("system", SystemMessage(addComments)), Message("user", UserMessage(code, addComments))])
  }

  /** The request posted to the chat endpoint, with bearer authorisation and a JSON body. */
  function BuildRequest(code: string, addComments: bool): (req: Request)
    ensures req.url == ChatApiUrl
    ensures req.headers == [("Authorization", "Bearer " + ApiKey), ("Content-Type", "application/json")]
    ensures req.payload == BuildPayload(code, addComments)
  {
    Request(ChatApiUrl, [("Authorization", "Bearer " + ApiKey), ("Content-Type", "application/json")], BuildPayload(code, addComments))
  }

  /** `j[key]` on a decoded object; `None` where Python raises (not an object, or no such key). */
  function Member(j: Json, key: string): Option<Json>
  {
    if j.JObject? && key in j.members then Some(j.members[key]) else None
  }

  /**
    `j[0]` where a key lookup follows it: only a non-empty array yields
    something usable (a string's first character would fail the next lookup).
  */
  function First(j: Json): Option<Json>
  {
    if j.JArray? && |j.items| > 0 then Some(j.items[0]) else None
  }

  /** `body["choices"][0]["message"]["content"]`, or `None` where that lookup raises. */
  function CompletionContent(body: Json): (r: Option<Json>)
    ensures r.Some? <==>
      && body.JObject? && "choices" in body.members
      && var choices := body.members["choices"];
      && choices.JArray? && |choices.items| > 0
      && choices.items[0].JObject? && "message" in choices.items[0].members
      && var message := choices.items[0].members["message"];
      && message.JObject? && "content" in message.members
    ensures r.Some? ==> r.value == body.members["choices"].items[0].members["message"].members["content"]
  {
    match Member(body, "choices")
    case None => None
    case Some(choices) =>
      match First(choices)
      case None => None
      case Some(choice) =>
        match Member(choice, "message")
        case None => None
        case Some(message) => Member(message, "content")
  }

  /** The reply is status 200 with a decoded body that holds a first completion's content. */
  predicate Completed(reply: Reply) {
    reply.Response? && reply.status == 200 && reply.body.Some? && CompletionContent(reply.body.value).Some?
  }

  /**
    What `sendToDeepSeekChat` makes of the reply to its request: a completed
    reply gives its first completion's content, as decoded (not necessarily a
    string); any other status, a transport fault or a body of another shape
    gives the input code back unchanged.
  */
  function ReplyContent(code: string, reply: Reply): (r: Json)
    ensures Completed(reply) ==> r == CompletionContent(reply.body.value).value
    ensures !Completed(reply) ==> r == JString(code)
  {
    if reply.Response? && reply.status == 200 then
      match reply.body
      case None => JString(code)
      case Some(body) => CompletionContent(body).GetOr(JString(code))
    else
      JString(code)
  }

  /**
    The chat endpoint: it answers every request by `answer`, and `sent`
    holds the requests posted to it, in order.
  */
  class ChatEndpoint {
    const answer: Request -> Reply
    var sent: seq<Request>

    constructor (answer: Request -> Reply)
      ensures this.answer == answer && sent == []
    {
      this.answer := answer;
      sent := [];
    }

    /** `urllib2.urlopen(req)`: post one request and get its reply. */
    method Post(req: Request) returns (reply: Reply)
      modifies this
      ensures sent == old(sent) + [req]
      ensures reply == answer(req)
    {
      sent := sent + [req];
      reply := answer(req);
    }
  }

  /**
    `sendToDeepSeekChat(code, addComments)`: post exactly one request, the one
    built for `code`, and make the improved code of its reply.
  */
  method SendToDeepSeekChat(code: string, addComments: bool, endpoint: ChatEndpoint) returns (improved: Json)
    modifies endpoint
    ensures endpoint.sent == old(endpoint.sent) + [BuildRequest(code, addComments)]
    ensures improved == ReplyContent(code, endpoint.answer(BuildRequest(code, addComments)))
  {
    var request := BuildRequest(code, addComments);
    var reply := endpoint.Post(request);
    improved := ReplyContent(code, reply);
  }

  /** A chat-completion body in the endpoint's format, whose first choice says `text`. */
  function ChatCompletion(text: string): Json
  {
    JObject(map[
      "choices" := JArray([JObject(map[
        "index" := JNumber(0),
        "message" := JObject(map["role" := JString("assistant"), "content" := JString(text)])])])])
  }

  /** A 200 reply with a well-formed completion gives that completion's text, whatever the code sent. */
  lemma CompletionReturned(code: string, text: string)
    ensures ReplyContent(code, Response(200, Some(ChatCompletion(text)))) == JString(text)
  {
    var body := ChatCompletion(text);
    assert Member(body, "choices").Some?;
    assert CompletionContent(body) == Some(JString(text));
  }
}
