# Chat state of the chat-jos front end, in Dafny

The front end is one React component, `App`. Most of it is styling and layout.
At its centre is a small chat-state machine, and that is what this project models.
The machine has four pieces of state:

- `threads`: the sidebar's list of thread ids;
- `history`: the thread records, each `{threadId, conversations}`;
- `inputText`: the text in the compose box;
- `selectedThreadId`: the selected thread, possibly null.

The event handlers change this state:

- loading the history;
- starting a new chat;
- selecting a thread;
- editing the input;
- sending a message.

The sidebar preview, the empty-thread placeholder and the transcript are derived from the state.

Modules:

- `Threads` (`threads.dfy`): the thread and conversation records. It also holds the lookups the component runs over `history`:
  - `find` (`Find`, `FirstIndex`);
  - `some` (`Contains`);
  - the id projection (`ThreadIds`);
  - the keyed upsert a successful send performs (`ReplaceConversations`, `Merge`).
- `Naming` (`naming.dfy`): the `chat-<timestamp>` id of a new chat. The timestamp is written in decimal, and distinct timestamps give distinct ids.
- `Views` (`views.dfy`): the sidebar preview, the placeholder condition and the transcript, as a list of prompt and response bubbles.
- `ChatApp` (`app.dfy`): class `App`, which holds the four state fields, with one method per handler. Network results are inputs:
  - `HistoryReply`: the decoded history list, or a failure;
  - `ChatReply`: the reply to the request a send issues. It is a thread, an error body, or a transport failure.

  `SendMessage` returns the request it would issue, or `None`, together with any alert it raises.

JavaScript truthiness of a possibly-null string is `Truthy`. The send gate and the transcript use it for the selected id and the response. The preview tests the first prompt against `""`.

## Model

| member | source | states |
|---|---|---|
| Threads.ThreadIds | src/App.js:136 | the sidebar ids are the records' ids, one per record, in the same order |
| Threads.Contains | src/App.js:197 | true exactly when some record carries the id |
| Threads.FirstIndex | src/App.js:303 | `find` stops at a record with the id, and no earlier record has it; it is absent exactly when no record has the id |
| Threads.Find | src/App.js:282 | the record found carries the id and is the first record in the history that does; nothing is found exactly when no record has the id |
| Threads.ReplaceConversations | src/App.js:186-194 | same length; each matching record gets the new conversations and keeps every other property; every other record is unchanged |
| Threads.Merge | src/App.js:186-199 | a matched reply keeps the length; an unmatched one adds one; matching records get the server's conversations with their id and other properties kept; other records are unchanged at their index; an unmatched thread is appended at the end |
| Threads.ReplaceKeepsOthers | src/App.js:186-194 | the rewrite leaves the records with other ids unchanged and in their order |
| Threads.MergeKeepsOthersInOrder | src/App.js:186-199 | after a merge, the records with other ids are exactly the old ones, in the old order |
| Threads.MergeThreadIds | src/App.js:197-199 | the merged ids are the old ids, with the server's id appended exactly when no record had it |
| Threads.MergeAppendsOnce | src/App.js:197-199 | a new id occurs exactly once after the merge; an existing id leaves the multiset of ids unchanged |
| Threads.MergePreservesDistinct | src/App.js:186-199 | if the history's ids are unique, they are still unique after a merge |
| Threads.MergeIdempotent | src/App.js:186-202 | merging the same reply twice equals merging it once |
| Threads.MergeFind | src/App.js:186-202 | after a merge, looking up the server's id finds a record whose conversations are exactly the server's list (replacement, not append) |
| Threads.FindAppend | src/App.js:154 | appending a record changes no lookup of another id; when its id was absent, looking it up finds the new record |
| Naming.Decimal | src/App.js:143 | the timestamp text is decimal digits, at least one; it has no leading zero, and is "0" exactly for zero |
| Naming.ParseDecimalInverts | src/App.js:143 | reading the rendered timestamp back gives the timestamp |
| Naming.NewThreadId | src/App.js:143 | a new id is "chat-" followed only by digits, with no leading zero, that read back as the timestamp |
| Naming.NewThreadIdInjective | src/App.js:143 | different timestamps give different thread ids |
| Views.Preview | src/App.js:255 | the preview is never empty. When the record found for the id has a first conversation with a non-empty prompt, the preview is that prompt; any other text is the fallback |
| Views.Sidebar | src/App.js:238-259 | one preview per sidebar id, in order |
| Views.Render | src/App.js:304-355 | there are as many bubbles as conversations plus answered ones; the first bubble is the first prompt; every response bubble is non-empty and directly follows a prompt bubble |
| Views.RenderAppend | src/App.js:304-355 | rendering distributes over concatenation of conversation lists |
| Views.RenderAt | src/App.js:304-355 | conversation k's prompt bubble sits at k plus the number of earlier answered conversations. The next bubble is a response exactly when its response is truthy, and then holds that response |
| Views.Transcript | src/App.js:301-355 | the transcript is non-empty only for a truthy selected id that has a record; then it is the rendering of that record's conversations, one bubble per conversation plus one per truthy response |
| Views.ShowsPlaceholder | src/App.js:282 | the placeholder shows exactly when a truthy id is selected, its record exists, and its transcript is empty |
| Views.PreviewMatchesTranscript | src/App.js:255 | a thread's sidebar preview is the text of the first bubble of its transcript when that text is non-empty, and the fallback otherwise |
| Views.UnknownThreadRendersNothing | src/App.js:301-303 | selecting an id with no record renders an empty transcript and no placeholder, and its preview is the fallback |
| Views.NewThreadViews | src/App.js:142-158 | a new empty thread shows the placeholder and the fallback preview; other threads' previews and transcripts are unchanged |
| Views.MergeTranscript | src/App.js:186-208 | after a send, the transcript of the reply's thread is the rendering of the server's conversations; the placeholder for that thread shows exactly when that list is empty |
| ChatApp.ErrorAlert | src/App.js:211 | the error alert is never empty; it is the server's error message when that is truthy, and "Error sending message" otherwise |
| ChatApp.App.constructor | src/App.js:113-116 | every field starts empty or null; the ids are in sync with the history |
| ChatApp.App.FetchHistory | src/App.js:131-140 | on a decoded list, `history` is that list and `threads` its ids in order; when the fetch or the decoding fails nothing changes; the input and the selection are untouched |
| ChatApp.App.NewChat | src/App.js:142-158 | appends `chat-<timestamp>` to `threads` and an empty record with that id to `history`. It selects that id and leaves the input alone. It keeps the ids in sync, and keeps them unique when the new id is new |
| ChatApp.App.SelectThread | src/App.js:161-163 | selects the given id without checking it; nothing else changes |
| ChatApp.App.EditInput | src/App.js:362 | the input becomes the typed text; nothing else changes |
| ChatApp.App.SendMessage | src/App.js:167-216 | issues a request exactly for a truthy selected id and a non-empty input; otherwise only the validation alert; a thread reply merges and clears the input; error replies change no state; `threads` and the selection never change (details below) |

`ChatApp.App.SendMessage` states the following:

- It issues a request exactly when the selected id is truthy and the input is non-empty. Blank input is not rejected.
- The request carries the selected id and the input.
- With no request, it raises the validation alert and changes no state.
- A thread reply sets `history` to the merge of the old history with that thread and clears the input.
- An error reply raises `data.error`, or the default alert, and changes no state.
- A transport failure changes no state and raises no alert.
- `threads` and the selection never change.
- Starting from `threads` in sync with `history`, the two stay in sync exactly when the reply's thread was already in the history.

## Left out

- Network I/O is replaced by its decoded results, given as parameters. This covers `fetch`, the URLs, `response.json()`, `response.ok` and `encodeURIComponent`. The request's prompt is the raw input text; URL encoding is not modelled.
- A success body without a `thread` property is not modelled. With a non-empty history the source throws inside the `map` callback at src/App.js:187, which leaves the state as it was. With an empty history no callback runs, so `undefined` is appended to `history` and the input is cleared. A thread record cannot be `undefined` here, so that case is left out. A body that cannot be decoded is a `TransportFailure`.
- A history body that decodes but is not a list is not modelled. The source stores it in `history` at src/App.js:135 and then throws at src/App.js:136, leaving `threads` as it was. `HistoryFailed` stands only for a failed fetch or a body that cannot be decoded, which change nothing.
- `async`/`await` is not modelled: each send is one atomic transition. So the race between overlapping sends, whose replies may arrive out of order, is not captured.
- `alert`, `console.log` and `console.error` have no state effect. `SendMessage` returns the alert text instead; log calls are dropped.
- `Date.now()` is a `nat` parameter of `NewChat`. The locale-formatted date line under each sidebar preview is left out: it is clock and locale formatting.
- The static model catalogue and `selectedModel` are left out. The selection never reaches any other state or request.
- Styled components, JSX layout, inline styles and the highlighting of the selected sidebar entry are left out as presentation.
- A thread the server creates on a send is appended only to `history`, not to `threads`, so it never appears in the sidebar. This model follows the code: `SendMessage` shows that `threads` is unchanged and that the two lists go out of sync in that case.
