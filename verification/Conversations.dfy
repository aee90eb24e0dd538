/** What agents send to the model and what tails and oracles read back: conversations, request bodies,
    response texts and marker texts. */
module Conversations {
  import opened Tapes
  import opened Text

  datatype Message = Message(role: string, content: string)

  /** The provider adapter: how a text becomes a response body, and the text read back from a body. */
  datatype Wire = Wire(build: string -> Bytes, text: Bytes -> string) {
    ghost predicate Contract() {
      forall t: string :: text(build(t)) == t
    }
  }

  const MODEL := "claude-sonnet-4-6"

  /** The JSON text of a message list, cut at its quotation marks. */
  function MessagePieces(messages: seq<Message>): seq<string> {
    if messages == [] then []
    else
      var last := |messages| - 1;
      MessagePieces(messages[..last])
      + [if last == 0 then ":[{" else "},{", "role", ":", messages[last].role,
         ",", "content", ":", messages[last].content]
  }

  function Opening(): seq<string> {
    ["{", "max_tokens", ":100,", "messages"]
  }

  function Closing(): seq<string> {
    ["}],", "model", ":", MODEL, "}"]
  }

  /** The request body. Contents need no JSON escaping in any conversation modelled here. */
  function Body(messages: seq<Message>): Bytes {
    Join(Opening() + MessagePieces(messages) + Closing(), '\"')
  }

  function RequestOf(messages: seq<Message>): Request {
    Request("POST", "/v1/messages", "content-type: application/json", Body(messages))
  }

  // ---- markers --------------------------------------------------------------------------------------------

  /** Every marker has a capital M, and no other text of these conversations has one. */
  const MARK := 'M'

  predicate Inert(text: string) { MARK !in text }

  predicate IsMarker(m: string) { MARK in m && '\"' !in m && ' ' !in m && '|' !in m }

  lemma NotInInert(text: string, m: string)
    requires Inert(text) && IsMarker(m)
    ensures !Contains(text, m)
  {
    NotWithout(text, m, MARK);
  }

  ghost predicate Shown(messages: seq<Message>, m: string) {
    exists i :: 0 <= i < |messages| && Contains(messages[i].content, m)
  }

  ghost predicate PlainRoles(messages: seq<Message>) {
    forall i :: 0 <= i < |messages| ==> Inert(messages[i].role)
  }

  lemma {:induction false} InertPieces(pieces: seq<string>, m: string)
    requires IsMarker(m) && forall p :: p in pieces ==> Inert(p)
    ensures !InSome(pieces, m)
  {
    forall p | p in pieces ensures !Contains(p, m) {
      NotInInert(p, m);
    }
  }

  lemma {:induction false} ShownInPieces(messages: seq<Message>, m: string)
    requires IsMarker(m) && PlainRoles(messages)
    ensures InSome(MessagePieces(messages), m) <==> Shown(messages, m)
  {
    if messages != [] {
      var last := |messages| - 1;
      ShownInPieces(messages[..last], m);
      var fixed := [if last == 0 then ":[{" else "},{", "role", ":", messages[last].role, ",", "content", ":"];
      InertPieces(fixed, m);
      var content := messages[last].content;
      InSomeAppend(MessagePieces(messages[..last]), fixed + [content], m);
      InSomeAppend(fixed, [content], m);
      assert MessagePieces(messages) == MessagePieces(messages[..last]) + (fixed + [content]);
      ShownLast(messages, m);
    }
  }

  lemma ShownLast(messages: seq<Message>, m: string)
    requires messages != []
    ensures Shown(messages, m) <==>
              Shown(messages[..|messages| - 1], m) || Contains(messages[|messages| - 1].content, m)
  {
    var front := messages[..|messages| - 1];
    assert forall i :: 0 <= i < |front| ==> front[i] == messages[i];
  }

  lemma ShownAppend(a: seq<Message>, b: seq<Message>, m: string)
    ensures Shown(a + b, m) <==> Shown(a, m) || Shown(b, m)
  {
    assert forall i :: 0 <= i < |a| ==> (a + b)[i] == a[i];
    assert forall i :: 0 <= i < |b| ==> (a + b)[|a| + i] == b[i];
  }

  lemma OneMessageShows(message: Message, m: string)
    ensures Shown([message], m) <==> Contains(message.content, m)
  {
    assert [message][0] == message;
  }

  lemma InertMessage(message: Message, m: string)
    requires Inert(message.content) && IsMarker(m)
    ensures !Shown([message], m)
  {
    NotInInert(message.content, m);
    OneMessageShows(message, m);
  }

  /** A reply echoed back, and the user's word to go on. */
  function Echo(text: string): seq<Message> {
    [Message("assistant", text), Message("user", "continue")]
  }

  lemma EchoShows(text: string, m: string)
    requires IsMarker(m)
    ensures Shown(Echo(text), m) <==> Contains(text, m)
    ensures PlainRoles(Echo(text))
  {
    var echo, go := Message("assistant", text), Message("user", "continue");
    OneMessageShows(echo, m);
    InertMessage(go, m);
    ShownAppend([echo], [go], m);
    assert [echo] + [go] == Echo(text);
  }

  /** A body contains a marker exactly when the content of one of its messages does. */
  lemma BodyShows(messages: seq<Message>, m: string)
    requires IsMarker(m) && PlainRoles(messages)
    ensures Contains(Body(messages), m) <==> Shown(messages, m)
  {
    var pieces := MessagePieces(messages);
    assert !InSome(Opening(), m) by {
      InertPieces(Opening(), m);
    }
    assert !InSome(Closing(), m) by {
      InertPieces(Closing(), m);
    }
    AllPieces(Opening(), pieces, Closing(), m);
    ShownInPieces(messages, m);
  }

  lemma AllPieces(a: seq<string>, b: seq<string>, c: seq<string>, m: string)
    requires IsMarker(m) && !InSome(a, m) && !InSome(c, m)
    ensures Contains(Join(a + b + c, '\"'), m) <==> InSome(b, m)
  {
    InJoin(a + b + c, '\"', m);
    InSomeAppend(a + b, c, m);
    InSomeAppend(a, b, m);
  }

  ghost predicate SomeText(texts: seq<string>, m: string) {
    exists t :: 0 <= t < |texts| && Contains(texts[t], m)
  }

  lemma SomeTextAppend(texts: seq<string>, text: string, m: string)
    ensures SomeText(texts + [text], m) <==> SomeText(texts, m) || Contains(text, m)
  {
    assert forall t :: 0 <= t < |texts| ==> (texts + [text])[t] == texts[t];
    assert (texts + [text])[|texts|] == text;
  }

  // ---- grading --------------------------------------------------------------------------------------------

  datatype Grade = Success | Failure | Ambiguous

  /** The string-match oracle with patterns SUCCESS and FAIL; success is looked for first. */
  function Graded(text: string): Grade {
    if Contains(text, "SUCCESS") then Success
    else if Contains(text, "FAIL") then Failure
    else Ambiguous
  }

  /** A text with both words is a success; it takes a text with neither to be ambiguous. */
  lemma SuccessFirst(text: string)
    ensures Graded(text) == Success <==> Contains(text, "SUCCESS")
    ensures Graded(text) == Failure <==> Contains(text, "FAIL") && Graded(text) != Success
  {
  }
}
