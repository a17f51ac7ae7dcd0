# Rosy Plans: a verified model of the task-list logic

Rosy Plans is a small client-side to-do app with an AI helper. Its logic
comes in two variants:

- the richer React app (`App.tsx` with `services/geminiService.ts`);
- a standalone single-file version (`index.js`).

Both keep a list of tasks, a text input, a loading flag, an assistant
message and a status filter. The handlers are the form submit, the AI
button, toggle, delete, calendar sync and the navigation buttons. The AI
helper turns the typed text into suggested sub-tasks and turns a task
into a Google Calendar quick-add link.

This project models that logic in Dafny and proves what it does. The AI
reply is an input to each handler (`ModelReply`):

- the call failed;
- it returned text that is not JSON;
- it returned a parsed value.

Identifiers and timestamps are inputs as well.

Modules:

- `Types` (`types.dfy`) holds the task record (`types.ts:2-9`), its
  category enumeration, the filter, a suggestion, and the shape of a model
  reply.
- `JsText` (`js_text.dfy`) holds `String.prototype.trim` with the
  ECMAScript white-space set, and the decimal rendering of a count.
- `UriComponent` (`uri_component.dfy`) holds `encodeURIComponent`: the
  URI handling functions of section 19.2.6 of ECMA-262, producing the
  percent-encoding of section 2.1 of RFC 3986 over UTF-8. Its partner is a
  decoder, with the round trip proved.
- `TaskList` (`task_list.dfy`) holds the list operations both variants use:
  the map-by-id toggle, the filter-by-id delete and the status view. It also
  holds the `find` by id that only the richer variant's `toggleTodo` uses.
  Putting a new task in front is written out in each session's add method.
- `GeminiService` (`gemini_service.dfy`) holds the timestamp compaction,
  the quick-add URL, and reading the fields of a parsed reply with
  JavaScript's conversions. It also holds the parse-or-fallback behaviour
  of `suggestTasks` and `getCalendarFriendlyFormat`.
- `AppSession` (`app_session.dfy`) holds the richer variant's session as a
  class `Session` with the five state fields, one method per handler.
- `StandaloneApp` (`standalone_app.dfy`) holds the standalone variant's
  copies of the two model calls and its session class `Planner`.
- `Variants` (`variants.dfy`) runs both sessions on the same input and
  reply, to show where their rules differ.

Three behaviours are modelled as the code has them:

- **Only the last suggestion survives in the richer variant.**
  `addTodo` builds the new list from the `todos` value its handler
  captured. So when `handleAiSuggest` merges n ≥ 1 suggestions, every
  call overwrites the previous one. The result is the last suggestion
  followed by the old list.
- **The standalone variant keeps every suggestion.** It uses a functional
  update, so every non-blank suggestion is kept, last first. Its ids are
  `Date.now()` readings, so a batch can share one id. Such a batch is then
  toggled and deleted together.
- **`addTask` stores the text untrimmed.** It tests `text.trim()` for
  emptiness but stores `text` itself. `handleAi` refuses only the literal
  empty input, so an input of spaces reaches the model.

## Model

| member | source | states |
|---|---|---|
| JsText.TrimEmptyIffBlank | App.tsx:42 | `s.trim()` is empty exactly when every character of `s` is ECMAScript white space, in both directions |
| JsText.TrimStartShape | App.tsx:42 | the result is a suffix of the input, what was cut is all white space, and it does not start with white space |
| JsText.TrimEndShape | App.tsx:42 | the result is a prefix of the input, what was cut is all white space, and it does not end with white space |
| JsText.Trim | App.tsx:42 | `trim()` as the composition of the front trim and the back trim; its meaning for the handlers is given by the rows around it. The same `trim()` is used at App.tsx:49 and index.js:120 |
| JsText.BlankExamples | index.js:126 | a string of spaces and the empty string are blank; a string with a letter is not |
| JsText.NatToString | App.tsx:108 | the rendered count is a non-empty string of decimal digits with no leading zero unless it is zero |
| JsText.DecimalRoundTrip | App.tsx:108 | reading the rendered digits back gives the count that was rendered |
| UriComponent.EncodeUriComponent | services/geminiService.ts:59 | the encoding is made only of unreserved characters, `%` and upper-case hexadecimal digits |
| UriComponent.EncodedIsQuerySafe | services/geminiService.ts:59 | the encoding never holds `&`, `=`, `/`, `?`, `#` or a space, so it cannot split the query string |
| UriComponent.EncodeAppend | services/geminiService.ts:59 | encoding works character by character: it distributes over concatenation |
| UriComponent.DecodeEncode | services/geminiService.ts:59 | percent-decoding the encoding gives back exactly the UTF-8 bytes of the text, so nothing is lost |
| UriComponent.Utf8OfAscii | services/geminiService.ts:59 | for ASCII text those bytes are the characters' own codes |
| UriComponent.Utf8Char | services/geminiService.ts:59 | one character takes 1 to 4 bytes; exactly ASCII takes one byte, equal to its code |
| UriComponent.HexRoundTrip | services/geminiService.ts:59 | a hexadecimal digit written by the encoder reads back as its value |
| UriComponent.EncodeExamples | services/geminiService.ts:59 | `Gym` passes through and `a b&c` becomes `a%20b%26c` |
| UriComponent.EncodeNonAsciiExample | services/geminiService.ts:59 | `ñ` becomes `%C3%B1`, the percent-encoding of its two UTF-8 bytes |
| TaskList.Flipped | App.tsx:72 | `{...t, completed: !t.completed}` negates `completed` and keeps every other field |
| TaskList.ToggleById | App.tsx:72 | the mapped list has the same length |
| TaskList.ToggleByIdAt | App.tsx:72 | at every position, a task with the id is flipped and any other task is kept as it was, in order |
| TaskList.ToggleUnknownId | App.tsx:72 | toggling an id no task carries leaves the list unchanged |
| TaskList.ToggleTwice | App.tsx:72 | toggling the same id twice restores the list |
| TaskList.RemoveById | App.tsx:80 | what is left is drawn from the list and carries another id |
| TaskList.RemoveByIdAppend | App.tsx:80 | removal works piece by piece, so the remaining tasks keep their order |
| TaskList.RemoveByIdCounts | App.tsx:80 | every copy of a task with the id is dropped and every copy of any other task is kept |
| TaskList.RemoveUnknownId | App.tsx:80 | deleting an id no task carries is a no-op |
| TaskList.RemoveAllIds | index.js:183 | deleting the id that every task carries empties the list |
| TaskList.FindById | App.tsx:73 | `find` gives nothing exactly when no task has the id, and otherwise the task at the first position that has it |
| TaskList.View | App.tsx:111-115 | the view shows only tasks of the list that the filter admits |
| TaskList.ViewAppend | App.tsx:111-115 | the view works piece by piece, so it never reorders tasks |
| TaskList.ViewAll | index.js:139 | the `all` view is the list itself |
| TaskList.ViewPartition | App.tsx:111-115 | the active and completed views split the list: their multisets add up to the list's, and the `all` count is the sum of the other two |
| GeminiService.CompactAppend | services/geminiService.ts:58 | `replace(/[-:]/g, '')` works piece by piece, so kept characters stay in order |
| GeminiService.Compact | services/geminiService.ts:58 | the definition of `replace(/[-:]/g, '')`: each `-` and `:` is deleted and every other character is kept in place; the lemmas below state its properties |
| GeminiService.CompactCounts | services/geminiService.ts:58 | every character other than `-` and `:` survives as often as it occurred; the length drops by exactly the number of separators |
| GeminiService.CompactHasNoSeparators | services/geminiService.ts:58 | the result holds neither `-` nor `:` |
| GeminiService.CompactClean | services/geminiService.ts:58 | text without separators is left unchanged |
| GeminiService.CompactIdempotent | services/geminiService.ts:58 | compacting twice is compacting once |
| GeminiService.CompactIsoDateTime | services/geminiService.ts:58 | `YYYY-MM-DDTHH:MM:SS` becomes `YYYYMMDDTHHMMSS`, the basic form of section 3.3.5 of RFC 5545; a trailing fraction or `Z` is kept as it is |
| GeminiService.CompactExample | services/geminiService.ts:58 | `2024-01-01T10:00:00` compacts to `20240101T100000` |
| GeminiService.CompactOffset | services/geminiService.ts:58 | a numeric offset `+01:00` becomes `+0100`, which is no longer the extended form |
| GeminiService.Dates | services/geminiService.ts:58 | the definition of the `dates` value: the compacted start time, `/`, the compacted end time; `DatesShape` states what that gives |
| GeminiService.CalendarUrl | services/geminiService.ts:57-59 | the definition of the link: the fixed base, then `&text=`, `&details=` and `&dates=` with the encoded summary, the encoded description and the unencoded `dates` value; `CalendarUrlFields` states what that gives |
| GeminiService.DatesShape | services/geminiService.ts:58 | `dates` has no `-` or `:`; split at `/` it gives back the two compacted timestamps when neither holds a `/` |
| GeminiService.BaseHasNoAmpersand | services/geminiService.ts:57 | the fixed base URL holds no `&` |
| GeminiService.CalendarUrlFields | services/geminiService.ts:57-59 | when neither timestamp holds `&`: split at `&`, the link is the base, then `text=`, `details=` and `dates=` with their values, in that order; the text and details values decode to the summary's and description's UTF-8 bytes. The condition is needed because the `dates` value is not percent-encoded, so a timestamp from the model that holds `&` adds extra query parameters |
| GeminiService.Field | services/geminiService.ts:58-59 | `data.key` throws exactly on `null` and yields a value exactly for an object member |
| GeminiService.ReplaceableText | services/geminiService.ts:58 | `.replace` succeeds exactly when the member is a string |
| GeminiService.FieldText | services/geminiService.ts:59 | a missing member converts to the text `undefined`; a string member converts to itself |
| GeminiService.ToJsString | services/geminiService.ts:59 | the definition of the ToString that `encodeURIComponent` applies: `null`, booleans, numbers and strings give their text; an array is joined with `,`; an object gives `[object Object]`, and conversion throws (None) when it owns a `toString` member |
| GeminiService.JoinFrom | services/geminiService.ts:59 | the definition of `Array.prototype.join` from a position on: elements separated by `,`, a `null` element giving the empty string, a throwing element making the whole conversion throw |
| GeminiService.CalendarLinkNonEmpty | services/geminiService.ts:59 | a built link is never empty: it is at least as long as the base |
| GeminiService.CalendarLinkFrom | services/geminiService.ts:55-59 | the definition of the `try` body: both times must be string members (otherwise the `catch` gives `null`), the summary and description are converted by ToString, and the link is `CalendarUrl` of the four texts; the lemmas below state its cases |
| GeminiService.CalendarLinkFromShape | services/geminiService.ts:54-62 | a link comes only from an object whose `startTime` and `endTime` are strings |
| GeminiService.CalendarLinkFromStrings | services/geminiService.ts:57-59 | from an object of four strings the link is exactly the URL built from them |
| GeminiService.CalendarLinkNeedsTimes | services/geminiService.ts:58 | a missing or non-string `startTime`/`endTime`, or a `null` reply, gives `null` |
| GeminiService.MissingTextIsUndefined | services/geminiService.ts:59 | for any reply object with both times as strings and neither a summary nor a description, a link is still built, with the text `undefined` in both places |
| GeminiService.SuggestTasks | services/geminiService.ts:6-34 | the function rejects exactly when the model call fails; unparsable text gives `[]`; a parsed value comes back unchecked |
| GeminiService.GetCalendarFriendlyFormat | services/geminiService.ts:36-63 | the function rejects exactly when the model call fails; unparsable text gives `null`; a parsed value resolves to exactly what `CalendarLinkFrom` makes of it |
| AppSession.AddedMessage | App.tsx:44 | the definition of the confirmation after a manual add: the fixed text with what was typed quoted between `"…"`, untrimmed |
| AppSession.BrokenDownMessage | App.tsx:61 | the definition of the message after suggestions were merged: the fixed text with the typed input quoted between `"…"` |
| AppSession.AchievementsMessage | App.tsx:108 | the definition of the achievements message: the fixed lead, the count in decimal, then the fixed tail; `AchievementsCountShown` states what can be read back from it |
| AppSession.AchievementsCountShown | App.tsx:107-108 | the achievements message is the fixed lead, then decimal digits, then the fixed tail, and those digits denote exactly the count |
| AppSession.LinkNeverEmpty | App.tsx:88 | a link the service resolves to is never empty, so `if (link)` tests only for `null` |
| AppSession.Session.constructor | App.tsx:9-13 | no tasks, empty input, not loading, the greeting, and the `active` filter |
| AppSession.NewTodo | App.tsx:28-35 | the definition of the record `addTodo` creates: the given id, text and estimate, not completed, the category defaulting to `personal`, and the timestamp as its due date; `AddTodo` states how it enters the list |
| AppSession.SuggestedTodo | App.tsx:59 | the definition of the record that `addTodo(s.task, s.category, s.estimatedTime)` creates for one suggestion: `NewTodo` of the suggestion's task, category and estimate, with the id and timestamp of that call |
| AppSession.Session.SetInput | App.tsx:156 | the input becomes the typed text and nothing else changes |
| AppSession.Session.AddTodo | App.tsx:27-38 | exactly one task goes in front: the given text, category (default `personal`) and estimate, not completed, with the given id and timestamp; the captured list follows unchanged; the input is cleared |
| AppSession.Session.HandleManualAdd | App.tsx:40-46 | white-space-only input changes nothing; otherwise the untrimmed input becomes a `personal` task in front and the message quotes it |
| AppSession.Session.HandleAiSuggest | App.tsx:48-69 | blank input only sets the prompt message; otherwise loading is false at the end on every path. A failed call sets the failure message. An empty result keeps the list, the input and the "Consultando…" message. n ≥ 1 suggestions leave only the last one in front of the old list |
| AppSession.Session.Consult | App.tsx:53-68 | the `try`/`catch`/`finally` of the AI button: loading is false at the end on every path; a rejection sets the failure message and keeps the list; an empty result keeps the list, the input and the "Consultando…" message; n ≥ 1 suggestions leave only the last in front of the captured list, clear the input and set the message that quotes the typed text |
| AppSession.Session.MergeSuggestions | App.tsx:58-59 | the `forEach` over n ≥ 1 suggestions, each `addTodo` rebuilding from the captured list, leaves exactly the last suggestion's task in front of that list and the input empty |
| AppSession.Session.ToggleTodo | App.tsx:71-77 | the list is toggled by id; the celebration message appears exactly when the first task with that id existed and was not completed |
| AppSession.Session.DeleteTodo | App.tsx:79-81 | the list becomes the one filtered by id; nothing else changes |
| AppSession.Session.SyncToCalendar | App.tsx:83-94 | when the service rejects, loading stays true with the "Preparando…" message; otherwise loading ends, and the link is opened with the success message exactly when one was built, and the failure message is set otherwise |
| AppSession.Session.FocusInput | App.tsx:96-103 | the filter becomes `active` and the inviting message is set |
| AppSession.Session.ShowAchievements | App.tsx:105-109 | the filter becomes `completed` and the message shows the length of the completed view |
| AppSession.Session.ToggleFilter | App.tsx:188 | `all` becomes `active` and anything else becomes `all` |
| AppSession.Session.FilteredTodos | App.tsx:111-115 | the definition of the shown list: the status view of the current list under the current filter; the `TaskList.View` rows state what that view holds |
| StandaloneApp.SuggestTasksWithAi | index.js:14-39 | a failed call or unparsable text gives `[]`, never a rejection; a parsed value comes back unchecked |
| StandaloneApp.GetCalendarUrl | index.js:41-66 | a failed call or unparsable text gives `null`; a parsed value gives the same link as the service would build |
| StandaloneApp.CopiesAgreeUnlessCallFails | index.js:14-66 | the standalone copies agree with the service whenever the model call returns; when it fails, the service rejects and the copies give `[]` or `null` |
| StandaloneApp.NewTask | index.js:121 | the definition of the record `addTask` creates: the given id and text, not completed, the category defaulting to `personal`, no due date and no estimate |
| StandaloneApp.Added | index.js:131 | the definition of what a batch adds through the functional updates of the `forEach`: each non-blank suggestion's task, in front of the tasks of the suggestions before it; the `Added…` lemmas state its properties |
| StandaloneApp.AddedStep | index.js:131 | one more suggestion adds at most its own task, in front |
| StandaloneApp.AddedKeepsEveryTask | index.js:131 | every suggestion with a non-blank task is in the batch |
| StandaloneApp.AddedOnlyFromSuggestions | index.js:131 | every task in the batch comes from a suggestion with a non-blank task |
| StandaloneApp.AddedReversed | index.js:131 | with no blank task, the batch has one task per suggestion in reverse order, so the last suggestion ends up first |
| StandaloneApp.AddedSharedId | index.js:121 | when every `Date.now()` reading is the same, all tasks of the batch carry that id |
| StandaloneApp.DeleteRemovesWholeBatch | index.js:183 | such a batch is deleted together, and the rest of the list loses only what the delete removes anyway |
| StandaloneApp.ToggleFlipsWholeBatch | index.js:182 | toggling that id flips every task of such a batch |
| StandaloneApp.Planner.constructor | index.js:103-107 | no tasks, empty input, not loading, the greeting, and the `active` filter |
| StandaloneApp.Planner.SetInput | index.js:163 | the input becomes the typed text and nothing else changes |
| StandaloneApp.Planner.AddTask | index.js:119-123 | blank text is a no-op; otherwise `{id, text, completed: false, category}` (default `personal`) goes in front of the current list and the input is cleared |
| StandaloneApp.Planner.AddFromInput | index.js:164 | Enter and the "+" button add the current input by the rules of `addTask` |
| StandaloneApp.Planner.HandleAi | index.js:125-137 | only the literal empty input is refused, with a prompt and nothing else changed; otherwise every non-blank suggestion goes in front, last first, or the failure message is set when there are none; loading is false at the end |
| StandaloneApp.Planner.AddEach | index.js:131 | the `forEach` puts the batch in front of the list; the input is cleared exactly when a task was added |
| StandaloneApp.Planner.Toggle | index.js:182 | the list is toggled by id; nothing else changes |
| StandaloneApp.Planner.Delete | index.js:183 | the list is filtered by id; nothing else changes |
| StandaloneApp.Planner.Sync | index.js:184-187 | the opened link is the one `getCalendarUrl` resolves to; a failed call opens nothing |
| StandaloneApp.Planner.ToggleFilter | index.js:177 | `all` becomes `active` and anything else becomes `all` |
| StandaloneApp.Planner.ShowProgress | index.js:193 | the filter becomes `completed` with the encouraging message |
| StandaloneApp.Planner.FocusInput | index.js:198 | the filter becomes `active` |
| StandaloneApp.Planner.Filtered | index.js:139 | the definition of the shown list: the status view of the current list under the current filter |
| Variants.MergeBatch | App.tsx:58-59 | on a non-empty batch whose tasks are all non-blank, merged into an empty list with a non-blank input, the richer variant keeps one task, the last suggestion, while the standalone variant keeps one per suggestion, last first |
| Variants.SpacesOnly | index.js:126 | an input of spaces gets only the prompt in the richer variant, but reaches the model in the standalone variant |

## Left out

- Rendering is left out: the JSX of `App.tsx`, the markup of `index.js`, and the `TodoItem` component. Only the handlers they call are modelled.
- Persistence in `localStorage` (load on start, save on every change) is left out; a session starts from an empty list.
- The Gemini client, its prompts and its response schemas are left out. Each reply is an input.
- `Math.random`, `Date.now()` and `new Date().toISOString()` are inputs: one id and one timestamp per created task.
- `window.open` is returned as the link that would be opened. `setTimeout`, focus and scrolling are left out. The navigation button that opens the calendar home page has no state and is left out.
- Overlapping handlers and React's scheduling are left out. Each handler runs to completion with its reply. It sees the state it started with, which is how the captured `todos` of `App.tsx` behaves.
- GeminiService.SuggestTasks: a parsed reply is typed as an array of suggestion records (the response schema). `null`, a non-array, or an element whose `task` is not a string is not modelled. The same holds for AppSession.Session.HandleAiSuggest and StandaloneApp.Planner.HandleAi. Because a suggestion's category is either absent or one of the four categories (`work`, `personal`, `health`, `social`), a category outside the enumeration, or `null`, cannot be represented. The source stores such a value as given, with no coercion (App.tsx:59, index.js:131). So the model cannot show that a bogus category is kept rather than coerced to `personal`.
- GeminiService.ToJsString: a JSON number is carried as the text its ToString gives, with no arithmetic. The model also assumes an object converts to `[object Object]` unless it owns a `toString` member, in which case conversion throws.
- UriComponent.EncodeUriComponent: a lone surrogate cannot occur in a Dafny string, so the `URIError` path is left out. Every other character, beyond ASCII too, is encoded through UTF-8.
- The unused declarations `AssistantMessage` and `CategoryColor` of `types.ts` are left out.
- The filter is one of three values, so a filter string outside them cannot occur.
