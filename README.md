# Chat page conversation controller, in Dafny

This project models the conversation controller of the `ChatPage` component
of a browser chat front end for querying a database in natural language
(`src/pages/chat.jsx`). The page keeps a message list that only ever grows,
an input buffer, the flags `isLoading`, `isListening` and `isTranslating`,
and a map from message index to whether that message's table is expanded.
It sends typed input to a remote "chat with database" endpoint and appends
one response for every request. Voice input is recognised in Urdu and
translated, and the original transcript is sent (the translation is discarded). Query results are laid out as one record per row.

Modules, leaves first:

- `Wrappers` (`wrappers.dfy`): `Option`, for JavaScript's `undefined`/`null`.
- `JsString` (`js_string.dfy`): `String.prototype.trim` and the blank-input test `input.trim()`.
- `TableFormat` (`table_format.dfy`): the data shape of `formatTableData`.
- `Messages` (`messages.dfy`): messages, the page's fixed texts, which response each remote outcome produces, and what one typed or spoken turn appends.
- `Render` (`render.dfy`): `visibleTables`, its toggle, and the content `renderMessage` shows.
- `ChatController` (`chat_page.dfy`): the class `ChatPage` with the component's state and its handlers.

The remote calls are inputs. `Reply` is how the `chatWithDb` call ends:
`Success(naturalResponse, sqlQuery, tableData?)`, `ReplyFailure(message?)`
for a reply with `success` false, or `Thrown(serverMessage?)`.
`Translation` is how the translation call ends: `TranslateOk(text)` or
`TranslateFail`. `SpeechCapability` says whether the browser has a
recogniser, and `StartOutcome` says whether `recognition.start()` throws.

Each asynchronous handler runs to completion in one method call.
`handleSend` is also given as its two halves around the `await`
(`SubmitRequest`, `ReceiveReply`), so the state in between can be stated.
A handler closure reads the `input` of the render it was created in, so
`HandleSend` takes that value as its `rendered` parameter.

The model follows the code as written, including these behaviours:

- A 2xx reply with `success` false shows the fixed text "Sorry, I couldn't process your request. Please try again.". The server's `message` is ignored (`ServerMessageOnlyWhenThrown`).
- The server's `message` appears only for a rejected call, and only when it is a non-empty string, because of `||`.
- The saved list is not guarded against a parse failure. There is no fallback to the greeting. A saved empty list gives an empty conversation.
- `stopListening` calls the `handleSend` of its own render, so it sends the original transcript, not the translation. A spoken turn appends the Urdu request and then a second request with the same text (`VoiceTurnShape`, `TranslationIgnored`).
- The form's submit handler clears the input even when the input was blank and nothing was sent (`ChatPage.SubmitForm`).

## Model

| member | source | states |
|---|---|---|
| `JsString.TrimStart` | src/pages/chat.jsx:120 | The result is a suffix of the input. Everything dropped before it is whitespace, and it does not start with whitespace. |
| `JsString.TrimEnd` | src/pages/chat.jsx:120 | The result is a prefix of the input. Everything dropped after it is whitespace, and it does not end with whitespace. |
| `JsString.TrimShape` | src/pages/chat.jsx:120 | `trim()` returns the slice of the input left after cutting whitespace from both ends. Everything cut is whitespace, and the slice neither starts nor ends with whitespace. |
| `JsString.BlankIffTrimEmpty` | src/pages/chat.jsx:120 | `input.trim()` is the empty string (falsy) exactly when every character of the input is whitespace. |
| `TableFormat.Display` | src/pages/chat.jsx:101 | A cell shows its string form. It shows `'-'` when the value is absent, null/undefined, or shows as the empty string. The shown text is never empty. |
| `TableFormat.FormatRecord` | src/pages/chat.jsx:95-104 | A record has one entry per column, in column order. Entry k pairs column k with that column's displayed value. |
| `TableFormat.FormatRows` | src/pages/chat.jsx:90-108 | There is one record per row, in row order. Record i is numbered i+1 and holds row i's entries. |
| `TableFormat.FormatTableData` | src/pages/chat.jsx:84-117 | Gives nothing exactly when the table, its columns or its rows are missing, or there are no rows. Otherwise gives one record per row, numbered from 1. Each record has one entry per column, showing that row's value. |
| `TableFormat.ThreeUsersTable` | src/pages/chat.jsx:84-108 | A table with column `id` and three rows lays out as three records, showing ids 1, 2 and 3. |
| `TableFormat.PlaceholderOnlyForMissing` | src/pages/chat.jsx:101 | In a formatted table, an entry shows `'-'` exactly when its value is absent, null, empty, or itself `"-"`. |
| `Messages.InitialMessages` | src/pages/chat.jsx:23-31 | With nothing saved, the list is exactly the greeting response. With a saved list, it is that list, unchanged. |
| `Messages.Persisted` | src/pages/chat.jsx:42-46 | A non-empty list is written to storage. An empty list leaves the stored entry as it was. |
| `Messages.ReloadRoundTrip` | src/pages/chat.jsx:23-46 | Reloading after a non-empty list was persisted gives that list back. A page that never stored anything starts with the greeting response alone. |
| `Messages.ResponseText` | src/pages/chat.jsx:133-157 | The response text is never empty. A `success: false` reply gives the fixed "couldn't process" text. A rejected call gives either the server's message or the fixed "error processing" text. |
| `Messages.ReplyMessage` | src/pages/chat.jsx:133-157 | Each reply gives one `response` message, not marked Urdu. Only a success carries a table, and it is the reply's `tableData`. |
| `Messages.SuccessTextCarriesAnswerAndQuery` | src/pages/chat.jsx:134-137 | A success text is the answer, then the SQL-trace label (two newlines, "SQL Query: " and an opening backtick), then the SQL query, then a closing backtick. Each part is at a stated position. |
| `Messages.ServerMessageOnlyWhenThrown` | src/pages/chat.jsx:144-156 | A `success: false` reply shows the fixed text whatever the server's message. A rejected call shows the server's message when it is non-empty, otherwise the fallback. |
| `Messages.SendEffect` | src/pages/chat.jsx:119-162 | `handleSend` appends nothing exactly when the input is blank. Otherwise it appends the untrimmed input as a request, then that reply's response. |
| `Messages.SendEffectCounts` | src/pages/chat.jsx:119-162 | One submission adds one request and one response, or nothing for blank input. |
| `Messages.SubmissionsBalanced` | src/pages/chat.jsx:119-162 | Over any sequence of submissions, earlier messages stay as they were. Each non-blank submission adds exactly one request and one response, whatever the remote outcome. Blank submissions add nothing. |
| `Messages.VoiceEffect` | src/pages/chat.jsx:257-281 | A blank transcript appends nothing. Otherwise the first message appended is the transcript as an Urdu request; `VoiceTurnShape` gives the exact list for each translation outcome. |
| `Messages.VoiceTurnShape` | src/pages/chat.jsx:257-281 | A spoken turn with a non-blank transcript adds exactly one response. A successful translation appends the Urdu request, then exactly what a typed send of the transcript appends: a plain request and then the reply's own response. A failed translation appends the Urdu request, then the "error translating" text. Every request shows the transcript. |
| `Messages.TranslationIgnored` | src/pages/chat.jsx:270-274 | The translated text has no effect on what a spoken turn appends. |
| `Render.Toggle` | src/pages/chat.jsx:164-169 | Entry `i` becomes the negation of its old value, with an absent entry read as false. Every other entry is kept exactly, and the only key added is `i`. |
| `Render.ToggleIsolated` | src/pages/chat.jsx:164-169 | Toggling index `i` never changes whether another index is visible. |
| `Render.ToggleTwice` | src/pages/chat.jsx:164-169 | Toggling the same index twice restores every index's visibility. The map then holds an explicit entry for that index. |
| `Render.RenderMessage` | src/pages/chat.jsx:171-209 | A request shows its text and its Urdu note. A response shows its text, and a table control exactly when it has a table. The label is "Hide Table" when the index is visible and "Show Table" otherwise. Records are shown only when the index is visible, and they are the table's formatted records. |
| `Render.ToggleRendersOthersUnchanged` | src/pages/chat.jsx:164-209 | Toggling message `i` leaves the rendering of every other message unchanged. |
| `Render.ToggleTwiceRendersSame` | src/pages/chat.jsx:164-209 | Toggling a message twice renders it as before. |
| `Render.ExpandedShowsEveryRecord` | src/pages/chat.jsx:190-205 | For a response whose table formats to records, all records are shown when its index is visible, and none otherwise. |
| `Render.ThreeUsersScenario` | src/pages/chat.jsx:133-209 | The three-user success reply renders its answer and SQL trace. After one toggle it shows "Hide Table" and three records. |
| `ChatController.ChatPage.constructor` | src/pages/chat.jsx:23-46 | The list starts as the saved list or the greeting. The input is empty, the flags are false and no table is expanded. Storage mirrors the list. |
| `ChatController.ChatPage.Persist` | src/pages/chat.jsx:42-46 | Storage becomes the list when the list is non-empty. Otherwise storage is unchanged. |
| `ChatController.ChatPage.Append` | src/pages/chat.jsx:124 | One message is appended at the end, and storage keeps mirroring the list. |
| `ChatController.ChatPage.SubmitRequest` | src/pages/chat.jsx:119-126 | Blank input changes nothing. Otherwise the untrimmed input is appended as a request, the input is cleared and loading is set, before any response. |
| `ChatController.ChatPage.ReceiveReply` | src/pages/chat.jsx:128-160 | Exactly one response, chosen by the reply, is appended, and loading ends false. |
| `ChatController.ChatPage.HandleSend` | src/pages/chat.jsx:119-162 | The list grows by `SendEffect`, so earlier messages are unchanged. Blank input leaves the input and loading unchanged. Otherwise the input ends empty and loading ends false. |
| `ChatController.ChatPage.SubmitForm` | src/pages/chat.jsx:380-385 | Sends the current input as `HandleSend` does, then leaves the input empty in every case. |
| `ChatController.ChatPage.ToggleTableVisibility` | src/pages/chat.jsx:164-169 | The visibility map becomes `Toggle` of the old map at that index. Nothing else changes. |
| `ChatController.ChatPage.HandleVoiceError` | src/pages/chat.jsx:217-224 | Appends exactly one "voice recognition is not supported" response. |
| `ChatController.ChatPage.StartListening` | src/pages/chat.jsx:230-246 | Listening is on exactly when a recogniser exists and `start()` returns. Otherwise exactly one "not supported" response is appended. |
| `ChatController.ChatPage.OnResult` | src/pages/chat.jsx:65-72 | The input becomes the latest full transcript. |
| `ChatController.ChatPage.OnEnd` | src/pages/chat.jsx:74-77 | Listening stops. |
| `ChatController.ChatPage.TranslateToEnglish` | src/pages/chat.jsx:286-303 | Gives the translation or a failure. The translating flag is lowered again either way. |
| `ChatController.ChatPage.StopListening` | src/pages/chat.jsx:248-284 | Without a recogniser nothing changes. Otherwise listening stops and the list grows by `VoiceEffect` of the transcript. The input ends empty after a successful translation of a non-blank transcript, and keeps the transcript otherwise. |

## Left out

- Markup, styling, avatars, the loading indicator, auto-scroll and the headline are presentation only.
- Suggestion buttons are left out as presentation. Their click handler calls the `handleSend` of the render it belongs to, so it sends the previous input, or nothing when that input was blank, rather than the suggestion.
- The voice animation is left out: it uses `Math.random` bar heights on a 100 ms `setInterval`, is cosmetic, and uses floating point.
- The HTTP calls (axios to `chatWithDb`, `translate-google-api`) are left out as I/O. Their results are the `Reply` and `Translation` inputs.
- The browser `SpeechRecognition` object and the joining of its result list into one transcript are left out as a foreign capability. Its effects are `OnResult(transcript)` and `OnEnd`, and whether it exists is a constructor input.
- The 100 ms timer before a success response is appended is left out as timing only. The response is appended at once, after `finally` has cleared loading.
- Interleavings at an `await` are left out, because every handler runs to completion. Examples are `onend` firing during a translation, or a click while a call is in flight.
- `localStorage` and JSON are left out as I/O. `stored` holds the list itself. A malformed saved entry, which makes the first render throw, is not represented, because `saved` is already parsed.
- Server-side rendering (`typeof window`) is not modelled separately. It is folded into `saved = None`.
- TableFormat.Display: rows are modelled as maps, so a column a row lacks shows `'-'`. In JavaScript, `row[column]` follows the prototype chain, so a missing column named `constructor`, `toString` or `__proto__` shows the inherited value's `toString()` instead. A `null` row makes `row[column]` throw during rendering, and the model has no such row. Neither case arises with ordinary server data.
- `Cell` holds a value's `toString()` result. JavaScript number formatting is not modelled.
- `src/components/Dashbaord.jsx`, `src/pages/Signup.jsx`, `src/App.jsx` and `backend/api/translate.js` are not part of this model. They hold static markup, a timer-reset flag, a route table and a thin translation proxy.
