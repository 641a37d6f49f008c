/**
 * The chat page's messages: their shape, the fixed texts the page writes,
 * which message each remote outcome produces, and what one typed or spoken
 * turn appends to the conversation.
 */
module Messages {
  import opened Wrappers
  import opened JsString
  import opened TableFormat

  datatype Kind = Request | Response

  /** `{ type, content: { text, table?, isUrdu? } }`; a missing `isUrdu` is false. */
  datatype Message = Message(kind: Kind, text: string, table: Option<TableData>, isUrdu: bool)

  const GreetingText: string := "What would you like to know about the database?"
  const NotProcessedText: string := "Sorry, I couldn't process your request. Please try again."
  const ErrorProcessingText: string := "Sorry, there was an error processing your request. Please try again."
  const VoiceUnsupportedText: string := "Sorry, voice recognition is not supported in your browser. Please try using Chrome."
  const TranslateErrorText: string := "Sorry, there was an error translating your message. Please try again."

  /** What separates the answer from the SQL trace in a success response. */
  const SqlTraceOpen: string := "\n\nSQL Query: `"
  const SqlTraceClose: string := "`"

  /** How the `chatWithDb` call ends: a 2xx reply with `success` true and its
    * `data`; a 2xx reply with `success` false (and perhaps a `message`); or a
    * rejected call, with the `message` of the error response body if any. */
  datatype Reply =
    | Success(naturalResponse: string, sqlQuery: string, tableData: Option<TableData>)
    | ReplyFailure(message: Option<string>)
    | Thrown(serverMessage: Option<string>)

  /** How the Urdu-to-English translation call ends: `result[0]`, or a throw. */
  datatype Translation = TranslateOk(text: string) | TranslateFail

  function RequestMessage(text: string): Message {
    Message(Request, text, None, false)
  }

  function UrduRequestMessage(text: string): Message {
    Message(Request, text, None, true)
  }

  function ResponseMessage(text: string): Message {
    Message(Response, text, None, false)
  }

  function Greeting(): Message {
    ResponseMessage(GreetingText)
  }

  /** The `useState` initialiser: the saved list (parsed from the
    * 'chatMessages' entry, an empty list included) or the greeting alone. */
  function InitialMessages(saved: Option<seq<Message>>): (r: seq<Message>)
    ensures saved.None? ==> r == [Greeting()]
    ensures saved.Some? ==> r == saved.value
  {
    match saved
    case None => [Greeting()]
    case Some(ms) => ms
  }

  /** The persistence effect: the list is written when it is non-empty;
    * otherwise the stored entry is left as it was. */
  function Persisted(messages: seq<Message>, prior: Option<seq<Message>>): (r: Option<seq<Message>>)
    ensures messages != [] ==> r == Some(messages)
    ensures messages == [] ==> r == prior
  {
    if |messages| > 0 then Some(messages) else prior
  }

  /** The text of the response appended for a reply. */
  function ResponseText(reply: Reply): (r: string)
    ensures r != ""
    ensures reply.ReplyFailure? ==> r == NotProcessedText
    ensures reply.Thrown? ==> (r == ErrorProcessingText || reply.serverMessage == Some(r))
  {
    match reply
    case Success(answer, sql, _) => answer + SqlTraceOpen + sql + SqlTraceClose
    case ReplyFailure(_) => NotProcessedText
    case Thrown(m) => if m.Some? && m.value != "" then m.value else ErrorProcessingText
  }

  /** The one response message appended for a reply; only a success carries a table. */
  function ReplyMessage(reply: Reply): (m: Message)
    ensures m.kind == Response && !m.isUrdu && m.text == ResponseText(reply)
    ensures m.table == (if reply.Success? then reply.tableData else None)
  {
    Message(Response, ResponseText(reply), if reply.Success? then reply.tableData else None, false)
  }

  /** A success response shows the answer first, then the SQL query between
    * backticks after the trace label. */
  lemma {:induction false} SuccessTextCarriesAnswerAndQuery(answer: string, sql: string, table: Option<TableData>)
    ensures var text := ResponseText(Success(answer, sql, table));
      && |text| == |answer| + |SqlTraceOpen| + |sql| + 1
      && text[..|answer|] == answer
      && text[|answer|..|answer| + |SqlTraceOpen|] == SqlTraceOpen
      && text[|answer| + |SqlTraceOpen|..|text| - 1] == sql
      && text[|text| - 1] == '`'
  {
  }

  /** A 2xx reply with `success` false ignores the server's message; only a
    * rejected call shows it, and only when it is a non-empty string. */
  lemma ServerMessageOnlyWhenThrown(m: Option<string>)
    ensures ResponseText(ReplyFailure(m)) == NotProcessedText
    ensures ResponseText(Thrown(m)) == (if m.Some? && m.value != "" then m.value else ErrorProcessingText)
  {
  }

  /** What `handleSend` appends, given the `input` of the render it belongs
    * to: nothing for blank input; otherwise the request (the input as typed,
    * untrimmed) followed by exactly one response. */
  function SendEffect(rendered: string, reply: Reply): (r: seq<Message>)
    ensures IsBlank(rendered) <==> r == []
    ensures r != [] ==> r == [RequestMessage(rendered), ReplyMessage(reply)]
  {
    if IsBlank(rendered) then [] else [RequestMessage(rendered), ReplyMessage(reply)]
  }

  /** What `stopListening` appends when a recogniser exists, given the
    * transcript in `input` of its render: nothing for a blank transcript;
    * otherwise the Urdu request, then either what `handleSend` appends for
    * that same render's `input` (the transcript, not the translation) or the
    * translation apology. */
  function VoiceEffect(rendered: string, translation: Translation, reply: Reply): (r: seq<Message>)
    ensures IsBlank(rendered) <==> r == []
    ensures r != [] ==> r[0] == UrduRequestMessage(rendered)
  {
    var afterTranslation :=
      match translation
      case TranslateOk(_) => SendEffect(rendered, reply)
      case TranslateFail => [ResponseMessage(TranslateErrorText)];
    if IsBlank(rendered) then [] else [UrduRequestMessage(rendered)] + afterTranslation
  }

  /** The number of messages of kind `k`. */
  function CountKind(ms: seq<Message>, k: Kind): nat {
    if ms == [] then 0 else (if ms[0].kind == k then 1 else 0) + CountKind(ms[1..], k)
  }

  lemma {:induction false} CountKindAppend(a: seq<Message>, b: seq<Message>, k: Kind)
    ensures CountKind(a + b, k) == CountKind(a, k) + CountKind(b, k)
  {
    if a != [] {
      assert (a + b)[1..] == a[1..] + b;
      CountKindAppend(a[1..], b, k);
    } else {
      assert a + b == b;
    }
  }

  /** A submission adds one message of each kind, or none for blank input. */
  lemma SendEffectCounts(rendered: string, reply: Reply, k: Kind)
    ensures |SendEffect(rendered, reply)| == 2 * (if IsBlank(rendered) then 0 else 1)
    ensures CountKind(SendEffect(rendered, reply), k) == (if IsBlank(rendered) then 0 else 1)
  {
    var r := SendEffect(rendered, reply);
    if r != [] {
      assert r[1..][1..] == [];
      assert CountKind(r[1..], k) == (if r[1].kind == k then 1 else 0) + CountKind(r[1..][1..], k);
    }
  }

  /** One submission: the `input` of the render the send happened in, and how
    * the remote call ended. */
  datatype Turn = Turn(rendered: string, reply: Reply)

  /** The conversation after the turns are submitted one after another. */
  function Submit(ms: seq<Message>, turns: seq<Turn>): seq<Message>
    decreases |turns|
  {
    if turns == [] then ms
    else Submit(ms + SendEffect(turns[0].rendered, turns[0].reply), turns[1..])
  }

  /** The number of turns whose input is not blank. */
  function Sent(turns: seq<Turn>): nat {
    if turns == [] then 0 else (if IsBlank(turns[0].rendered) then 0 else 1) + Sent(turns[1..])
  }

  /** Over any sequence of submissions, earlier messages are kept as they
    * were, and every non-blank submission adds exactly one request and
    * exactly one response, whatever the remote outcome; blank ones add none. */
  lemma {:induction false} SubmissionsBalanced(ms: seq<Message>, turns: seq<Turn>)
    ensures |Submit(ms, turns)| == |ms| + 2 * Sent(turns)
    ensures Submit(ms, turns)[..|ms|] == ms
    ensures CountKind(Submit(ms, turns), Request) == CountKind(ms, Request) + Sent(turns)
    ensures CountKind(Submit(ms, turns), Response) == CountKind(ms, Response) + Sent(turns)
    decreases |turns|
  {
    if turns != [] {
      var added := SendEffect(turns[0].rendered, turns[0].reply);
      var next := ms + added;
      assert Submit(ms, turns) == Submit(next, turns[1..]);
      assert Sent(turns) == |added| / 2 + Sent(turns[1..]) by {
        SendEffectCounts(turns[0].rendered, turns[0].reply, Request);
      }
      SubmissionsBalanced(next, turns[1..]);
      SendEffectCounts(turns[0].rendered, turns[0].reply, Request);
      SendEffectCounts(turns[0].rendered, turns[0].reply, Response);
      CountKindAppend(ms, added, Request);
      CountKindAppend(ms, added, Response);
      assert next[..|ms|] == ms;
    }
  }

  /** A spoken turn with a non-blank transcript adds exactly one response. A
    * successful translation adds the Urdu request followed by exactly what a
    * typed send of the transcript adds (a plain request, then the reply's
    * response), so both requests show the transcript and the translated text
    * is never sent; a failed one adds only the Urdu request and the apology. */
  lemma {:induction false} VoiceTurnShape(rendered: string, translation: Translation, reply: Reply)
    requires !IsBlank(rendered)
    ensures CountKind(VoiceEffect(rendered, translation, reply), Response) == 1
    ensures CountKind(VoiceEffect(rendered, translation, reply), Request) == (if translation.TranslateOk? then 2 else 1)
    ensures forall m :: m in VoiceEffect(rendered, translation, reply) && m.kind == Request ==> m.text == rendered
    ensures translation.TranslateOk? ==>
      VoiceEffect(rendered, translation, reply) == [UrduRequestMessage(rendered)] + SendEffect(rendered, reply)
    ensures translation.TranslateOk? ==>
      VoiceEffect(rendered, translation, reply) == [UrduRequestMessage(rendered), RequestMessage(rendered), ReplyMessage(reply)]
    ensures translation.TranslateFail? ==>
      VoiceEffect(rendered, translation, reply) == [UrduRequestMessage(rendered), ResponseMessage(TranslateErrorText)]
  {
    var head := [UrduRequestMessage(rendered)];
    var tail := if translation.TranslateOk? then SendEffect(rendered, reply) else [ResponseMessage(TranslateErrorText)];
    assert VoiceEffect(rendered, translation, reply) == head + tail;
    CountKindAppend(head, tail, Request);
    CountKindAppend(head, tail, Response);
    assert head[1..] == [];
    if translation.TranslateOk? {
      SendEffectCounts(rendered, reply, Request);
      SendEffectCounts(rendered, reply, Response);
    } else {
      assert tail[1..] == [];
    }
  }

  /** The translated text has no effect on what a spoken turn appends. */
  lemma TranslationIgnored(rendered: string, t1: string, t2: string, reply: Reply)
    ensures VoiceEffect(rendered, TranslateOk(t1), reply) == VoiceEffect(rendered, TranslateOk(t2), reply)
  {
  }

  /** Reloading the page after the list was persisted gives the list back;
    * a page that never stored anything starts from the greeting alone. */
  lemma ReloadRoundTrip(messages: seq<Message>, prior: Option<seq<Message>>)
    ensures messages != [] ==> InitialMessages(Persisted(messages, prior)) == messages
    ensures InitialMessages(Persisted([], None)) == [Greeting()]
    ensures Greeting().kind == Response && Greeting().text == GreetingText && Greeting().table.None?
  {
  }
}
