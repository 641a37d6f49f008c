/**
 * The conversation controller of `ChatPage`: the component's state and the
 * handlers that update it. Each asynchronous handler runs to completion here
 * (a call that awaits the network is given its outcome as a parameter), so
 * the state between two handler calls is the state once every pending
 * promise has settled. `handleSend` is also split at its `await` into
 * `SubmitRequest` and `ReceiveReply`, to show the state in between.
 */
module ChatController {
  import opened Wrappers
  import opened JsString
  import opened Messages
  import opened Render

  /** Whether the browser offers `SpeechRecognition` (set once on mount). */
  datatype SpeechCapability = Unavailable | Available

  /** Whether `recognition.start()` returns or throws. */
  datatype StartOutcome = Started | StartThrows

  class ChatPage {
    var messages: seq<Message>
    var input: string
    var isLoading: bool
    var isListening: bool
    var isTranslating: bool
    var visibleTables: map<nat, bool>
    var recognition: SpeechCapability
    /** The 'chatMessages' entry of local storage, as the list it holds. */
    var stored: Option<seq<Message>>

    /** Between handlers: storage mirrors the list, listening needs a
      * recogniser, and no translation is in progress. */
    ghost predicate Valid()
      reads this
    {
      && stored == Some(messages)
      && (recognition.Unavailable? ==> !isListening)
      && !isTranslating
    }

    /** The first render and the mount effects: the list comes from storage
      * (`saved` is the parsed entry, `None` when there is none or no window)
      * or is the greeting alone, and is then persisted if non-empty. */
    constructor (saved: Option<seq<Message>>, speech: SpeechCapability)
      ensures Valid()
      ensures messages == InitialMessages(saved)
      ensures input == "" && !isLoading && !isListening && visibleTables == map[]
      ensures recognition == speech
    {
      messages := InitialMessages(saved);
      input := "";
      isLoading := false;
      isListening := false;
      isTranslating := false;
      visibleTables := map[];
      recognition := speech;
      stored := saved;
      new;
      Persist();
    }

    /** The effect that writes the list to storage when it is non-empty. */
    method Persist()
      modifies this`stored
      ensures stored == Persisted(messages, old(stored))
    {
      if |messages| > 0 {
        stored := Some(messages);
      }
    }

    /** `setMessages(prev => [...prev, m])`, followed by the persistence effect. */
    method Append(m: Message)
      requires Valid()
      modifies this`messages, this`stored
      ensures Valid()
      ensures messages == old(messages) + [m]
    {
      messages := messages + [m];
      Persist();
    }

    /** `handleSend` up to its `await`, where `rendered` is the `input` of the
      * render the handler belongs to: a blank input changes nothing;
      * otherwise the input as typed is appended as a request, the buffer is
      * cleared and loading starts. */
    method SubmitRequest(rendered: string) returns (sent: bool)
      requires Valid()
      modifies this`messages, this`stored, this`input, this`isLoading
      ensures Valid()
      ensures sent == !IsBlank(rendered)
      ensures messages == old(messages) + (if sent then [RequestMessage(rendered)] else [])
      ensures input == (if sent then "" else old(input))
      ensures isLoading == (sent || old(isLoading))
    {
      sent := !IsBlank(rendered);
      if sent {
        Append(RequestMessage(rendered));
        input := "";
        isLoading := true;
      }
    }

    /** `handleSend` after its `await`: exactly one response is appended for
      * the reply and loading ends, whatever the outcome. */
    method ReceiveReply(reply: Reply)
      requires Valid()
      modifies this`messages, this`stored, this`isLoading
      ensures Valid()
      ensures messages == old(messages) + [ReplyMessage(reply)]
      ensures !isLoading
    {
      if reply.Success? {
        // `finally` clears loading first; the response follows on a 100 ms
        // timer, taken as immediate here.
        isLoading := false;
        Append(ReplyMessage(reply));
      } else {
        Append(ReplyMessage(reply));
        isLoading := false;
      }
    }

    /** `handleSend`, for the `input` of the render it belongs to. */
    method HandleSend(rendered: string, reply: Reply)
      requires Valid()
      modifies this`messages, this`stored, this`input, this`isLoading
      ensures Valid()
      ensures messages == old(messages) + SendEffect(rendered, reply)
      ensures IsBlank(rendered) ==> input == old(input) && isLoading == old(isLoading)
      ensures !IsBlank(rendered) ==> input == "" && !isLoading
    {
      var sent := SubmitRequest(rendered);
      if sent {
        ReceiveReply(reply);
      }
    }

    /** The form's submit handler: send the current input, then clear the
      * buffer even when the input was blank and nothing was sent. */
    method SubmitForm(reply: Reply)
      requires Valid()
      modifies this`messages, this`stored, this`input, this`isLoading
      ensures Valid()
      ensures messages == old(messages) + SendEffect(old(input), reply)
      ensures input == ""
      ensures isLoading == (if IsBlank(old(input)) then old(isLoading) else false)
    {
      var typed := input;
      HandleSend(typed, reply);
      input := "";
    }

    /** `toggleTableVisibility(index)`. */
    method ToggleTableVisibility(index: nat)
      requires Valid()
      modifies this`visibleTables
      ensures Valid()
      ensures visibleTables == Toggle(old(visibleTables), index)
    {
      visibleTables := Toggle(visibleTables, index);
    }

    /** `handleVoiceError`: one apology response. */
    method HandleVoiceError()
      requires Valid()
      modifies this`messages, this`stored
      ensures Valid()
      ensures messages == old(messages) + [ResponseMessage(VoiceUnsupportedText)]
    {
      Append(ResponseMessage(VoiceUnsupportedText));
    }

    /** `startListening`: listening starts only when a recogniser exists and
      * `start()` returns; otherwise exactly one "not supported" response is
      * appended and the page is not listening. */
    method StartListening(start: StartOutcome)
      requires Valid()
      modifies this`messages, this`stored, this`isListening
      ensures Valid()
      ensures isListening == (recognition.Available? && start.Started?)
      ensures messages == old(messages) + (if isListening then [] else [ResponseMessage(VoiceUnsupportedText)])
    {
      if recognition.Available? {
        if start.Started? {
          isListening := true;
        } else {
          HandleVoiceError();
          isListening := false;
        }
      } else {
        HandleVoiceError();
      }
    }

    /** The recogniser's `onresult`: the buffer becomes the latest full transcript. */
    method OnResult(transcript: string)
      requires Valid()
      modifies this`input
      ensures Valid()
      ensures input == transcript
    {
      input := transcript;
    }

    /** The recogniser's `onend`. */
    method OnEnd()
      requires Valid()
      modifies this`isListening
      ensures Valid()
      ensures !isListening
    {
      isListening := false;
    }

    /** `translateToEnglish`: the translating flag is raised for the duration
      * of the call and lowered whether it succeeds or throws. */
    method TranslateToEnglish(urduText: string, outcome: Translation) returns (english: Option<string>)
      requires Valid()
      modifies this`isTranslating
      ensures Valid()
      ensures english == (if outcome.TranslateOk? then Some(outcome.text) else None)
    {
      isTranslating := true;
      // `urduText` is what the translation service is asked to translate;
      // its answer is `outcome`.
      english := if outcome.TranslateOk? then Some(outcome.text) else None;
      isTranslating := false;
    }

    /** `stopListening`, for the transcript in the `input` of its render.
      * Without a recogniser nothing happens. Otherwise listening stops; a
      * non-blank transcript is appended as an Urdu request and translated.
      * On success the buffer briefly holds the translation, but `handleSend`
      * of the same render sends the transcript; the buffer ends empty. On
      * failure one apology is appended and the buffer keeps the transcript. */
    method StopListening(translation: Translation, reply: Reply)
      requires Valid()
      modifies this`messages, this`stored, this`input, this`isLoading, this`isListening, this`isTranslating
      ensures Valid()
      ensures !isListening
      ensures messages == old(messages) + (if recognition.Available? then VoiceEffect(old(input), translation, reply) else [])
      ensures input == (if recognition.Available? && !IsBlank(old(input)) && translation.TranslateOk? then "" else old(input))
      ensures isLoading == (if recognition.Available? && !IsBlank(old(input)) && translation.TranslateOk? then false else old(isLoading))
    {
      if recognition.Available? {
        isListening := false;
        var rendered := input;
        if !IsBlank(rendered) {
          Append(UrduRequestMessage(rendered));
          var english := TranslateToEnglish(rendered, translation);
          if english.Some? {
            input := english.value;
            HandleSend(rendered, reply);
            input := "";
          } else {
            Append(ResponseMessage(TranslateErrorText));
          }
        }
      }
    }
  }
}
