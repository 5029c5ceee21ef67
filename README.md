# DocuWhiZ session store, upload/chat pipelines and chat box, in Dafny

DocuWhiZ lets a user upload a PDF and ask questions about it. The Go backend
extracts the PDF's text with `pdftotext` and keeps it in a process-wide
`sessions` map keyed by the base name of the uploaded file. A chat request
looks that text up and builds a grounded prompt: a fixed instruction, the
document, then the question. The prompt goes to Gemini, and the first text
part of the first candidate is returned. The React chat box appends the
question and an empty placeholder to its message list. It then fills the
placeholder word by word with the answer, on a timer.

The project has five modules:

- `Wrappers` (`wrappers.dfy`): `Option` and `Result`.
- `Paths` (`paths.dfy`): Go's `filepath.Base` with the Unix separator, and
  `filepath.Join("uploads", name)` for names that `Base` returns.
- `Backend` (`backend.dfy`): the class `Server`, which holds the `sessions`
  map (id to `SessionData`) and the set of files in the uploads directory.
  Its methods are `Upload` (`uploadPDFHandler`) and `Chat`
  (`handleGeminiChat`). The module also has the prompt layout, Gemini's reply
  checks (`CallGemini`) and the scenarios that combine the two handlers.
  The file-system steps and the extractor are inputs (`UploadIO`). A Gemini
  reply is a decoded `ApiReply`. The Gemini service is a function parameter,
  from prompt to reply. `Chat` returns the prompt it gave that function,
  which shows when the service is called and with what.
- `JsText` (`jstext.dfy`): JavaScript `split(' ')`, `join(' ')`, `includes`
  and `trim`, with `trim`'s ECMAScript whitespace set.
- `ChatBox` (`chatbox.dfy`): the component's state as one `View` value.
  Each state update is a function on it. `simulateStreaming` is a loop method,
  one iteration per timer tick. Its callbacks are the events it emits, and
  `ApplyStream` applies those events to the view.

Where the design description and the code disagree, the model follows the code:

- The design says the temporary file is removed whatever the extraction
  outcome. In the code, a failed extraction returns (backend/main.go:114-117)
  before the `os.Remove` call (backend/main.go:119), so the saved file stays.
  `Server.Upload` and `ExtractionFailureLeavesFile` state this.
- The design says a record is never created with empty text. The code stores
  whatever `pdftotext` printed, including "". A chat then treats the empty
  text as missing (backend/main.go:149). `EmptyTextUploadThenChat` states this.
- The design lists an "empty generation" error of its own. In the code, no
  candidate and no part are the same error, `no valid response from Gemini`.
  Like every Gemini error it comes back as a 500 with `Gemini API call
  failed` and the error text as `details`.
- The design asks for a non-empty message. The backend does not check the
  message; only the client trims it and drops blank input.

## Model

| member | source | states |
|---|---|---|
| `Backend.Server.constructor` | backend/main.go:25-28 | the process starts with an empty `sessions` map |
| `Backend.Server.Upload` | backend/main.go:91-132 | a missing file part gives 400 `PDF file required`. Failed mkdir, save or extraction give their 500 errors and leave `sessions` unchanged. A failed extraction leaves the saved file on disk. On success the record for `Base(name)` is replaced by exactly the extracted text, even "". All other keys are unchanged. A failed removal only leaves the file behind. The reply is 200 with `fileId == Base(name)` |
| `Backend.Server.Chat` | backend/main.go:134-162 | invalid JSON gives 400 `Invalid JSON`. An unknown id, or one whose text is "", gives 400 `PDF text not found for session`. In both cases the client is not called. The client is called exactly when the id has non-empty text, with `Prompt(text, message)`. Its reply becomes `Answered(200, answer)` or a 500 `Gemini API call failed` with the error text. The method has no `modifies`, so the store never changes |
| `Backend.Lookup` | backend/main.go:145-152 | an id is found exactly when it is stored with non-empty text, and then yields that text |
| `Backend.StoreThenLookup` | backend/main.go:124-126 | after text is stored under an id, chat finds exactly that text (nothing if it is ""). Every other id finds what it found before |
| `Backend.Prompt` | backend/main.go:154 | the prompt is the instruction `Answer based on this PDF:\n\n`, the whole text, `\n\nQuestion: `, then the message. Lengths and slice positions are given, so the document comes before the question |
| `Backend.PromptInjective` | backend/main.go:154 | prompts that agree in either the text's or the message's length are equal only when both the texts and the messages are equal |
| `Backend.CallGemini` | backend/main.go:183-211 | the result succeeds exactly for a 200 reply that decodes and has a first candidate with a first part. The answer is that part's text. A transport failure, a non-200 status (carrying the body), a decode failure and a missing candidate or part each give their own error |
| `Backend.FirstCandidateDecides` | backend/main.go:207-211 | candidates after the first never change the outcome |
| `Backend.AnswerRoundTrip` | backend/main.go:207-211 | a 200 reply whose first candidate begins with a part `answer` yields exactly `answer` |
| `Backend.ErrorTextInjective` | backend/main.go:184-208 | distinct Gemini errors print distinct texts, so `details` tells them apart |
| `Backend.ErrorText` | backend/main.go:185-208 | each error text of `callGeminiAPI` ends with the underlying reason or response body, so `details` carries it verbatim; `ErrorTextInjective` shows the four kinds never share a text |
| `Backend.UploadThenChat` | backend/main.go:91-162 | after uploading a document with non-empty text, chatting about the returned id gives the client a prompt holding that text before the question. The client's answer is returned verbatim |
| `Backend.ReuploadThenChat` | backend/main.go:106-126 | two uploads with the same base name: chat grounds only on the second text |
| `Backend.EmptyTextUploadThenChat` | backend/main.go:113-152 | an upload whose extracted text is "" succeeds. A chat about it is still refused as not found, and the client is not called |
| `Backend.ChatBeforeUpload` | backend/main.go:145-152 | chat on a fresh server is refused as not found and never calls the client |
| `Backend.ExtractionFailureLeavesFile` | backend/main.go:113-121 | a failed extraction stores nothing, and the saved file stays in the uploads directory |
| `Paths.Base` | backend/main.go:106 | the base name is never empty. It has no separator unless it is "/", which happens exactly for paths made only of separators. It is "." for the empty path |
| `Paths.SavePath` | backend/main.go:107 | the save path of an ordinary name is `uploads/<name>`. `.` and `/` collapse onto `uploads`, and `..` gives `.` |
| `Paths.BaseOfPath` | backend/main.go:106 | for a directory prefix, a non-empty element without separators and trailing separators, `Base` returns exactly that element |
| `Paths.BaseIdempotent` | backend/main.go:106 | taking the base name twice gives the same key |
| `Paths.BaseOfSavePath` | backend/main.go:106-107 | the base name of an ordinary name's save path is that name |
| `JsText.Split` | frontend/src/components/ChatBox.jsx:39 | splitting gives at least one word, and no word contains the separator |
| `JsText.Join` | frontend/src/components/ChatBox.jsx:45 | a join of at least one word starts with the first word; `JoinSplit` and `SplitJoin` make it the inverse of `Split` |
| `JsText.JoinSplit` | frontend/src/components/ChatBox.jsx:39-45 | joining the words of a split with the separator restores the text |
| `JsText.SplitJoin` | frontend/src/components/ChatBox.jsx:39-45 | splitting a join of separator-free words restores the words |
| `JsText.JoinSnoc` | frontend/src/components/ChatBox.jsx:45 | each longer prefix joins to the previous partial, a space and the next word |
| `JsText.Includes` | frontend/src/components/ChatBox.jsx:20-25 | `includes` holds exactly when the substring occurs at some index |
| `JsText.Trim` | frontend/src/components/ChatBox.jsx:62-63 | the trimmed input is empty exactly when the input is whitespace only. Otherwise neither of its ends is whitespace |
| `JsText.TrimIsSlice` | frontend/src/components/ChatBox.jsx:62 | the trimmed input is a slice of the input with only whitespace cut off on either side |
| `JsText.TrimIdempotent` | frontend/src/components/ChatBox.jsx:62 | trimming twice gives the same result as trimming once |
| `ChatBox.InitialView` | frontend/src/components/ChatBox.jsx:7-11 | the component starts with no messages, an empty input, no typing indicator and no welcome shown |
| `ChatBox.OnInitialMessage` | frontend/src/components/ChatBox.jsx:17-32 | the effect leaves input and typing alone, and an empty initial message changes nothing |
| `ChatBox.WelcomeShownOnce` | frontend/src/components/ChatBox.jsx:20-22 | once the welcome has been shown, no initial message resets the list. Old messages stay as a prefix, and at most one is added |
| `ChatBox.UploadedNoticeOnce` | frontend/src/components/ChatBox.jsx:23-31 | once some message mentions `PDF uploaded`, the notice is not appended again, unless a first-time welcome resets the list |
| `ChatBox.InitialMessageIdempotent` | frontend/src/components/ChatBox.jsx:17-32 | running the effect a second time with the same message changes nothing more |
| `ChatBox.FirstWelcomeResets` | frontend/src/components/ChatBox.jsx:20-22 | the first message containing `Welcome` replaces the list by exactly that message from `docuwhiz` and sets `hasShownWelcome`; nothing else changes |
| `ChatBox.UploadedNoticeAppended` | frontend/src/components/ChatBox.jsx:23-31 | a message containing `PDF uploaded` that is not a first welcome is appended from `docuwhiz` when no message mentions `PDF uploaded` yet; nothing else changes |
| `ChatBox.OtherMessageIgnored` | frontend/src/components/ChatBox.jsx:20-31 | a non-empty message that is neither a first welcome nor contains `PDF uploaded` calls no `setMessages`: the view is unchanged |
| `ChatBox.SendMessage` | frontend/src/components/ChatBox.jsx:61-79 | whitespace-only input changes nothing and sends nothing. With no file id, exactly one warning is appended and nothing is sent. Otherwise the list grows by 2: the trimmed question from `user`, then an empty `docuwhiz` placeholder at `placeholderIndex`. The input is cleared, typing turns on, and the trimmed question is posted |
| `ChatBox.OnRequestFailed` | frontend/src/components/ChatBox.jsx:101-111 | a failed request turns typing off and appends the error message |
| `ChatBox.ReplaceText` | frontend/src/components/ChatBox.jsx:92-96 | a placeholder update keeps the length. The entry at the index gets the partial and keeps its sender. Every other entry is unchanged |
| `ChatBox.ReplaceTextTwice` | frontend/src/components/ChatBox.jsx:92-96 | a later update of the same entry overrides an earlier one |
| `ChatBox.SimulateStreaming` | frontend/src/components/ChatBox.jsx:38-59 | the tick loop fires exactly the callbacks of `Stream(text)`. Each word is one `onUpdate` with the next word-prefix, `onFirstChunk` fires when `hasStarted` first becomes true, and the final tick fires `onDone` |
| `ChatBox.TickStep` | frontend/src/components/ChatBox.jsx:43-52 | one tick sets `hasStarted` once the partial is non-empty, and adds `onUpdate` then, the first time only, `onFirstChunk` to the callbacks so far |
| `ChatBox.StreamUpdates` | frontend/src/components/ChatBox.jsx:39-46 | `onUpdate` is called once per word. The k-th call receives the first k words joined with single spaces |
| `ChatBox.StreamDoneLast` | frontend/src/components/ChatBox.jsx:43-57 | `onDone` fires exactly once, as the last callback |
| `ChatBox.StreamFinalPartial` | frontend/src/components/ChatBox.jsx:39-45 | the last `onUpdate` receives the whole text |
| `ChatBox.StreamFirstChunk` | frontend/src/components/ChatBox.jsx:48-51 | `onFirstChunk` fires exactly once for a non-empty text, and never for "" |
| `ChatBox.StreamFirstChunkPlacement` | frontend/src/components/ChatBox.jsx:48-51 | `onFirstChunk` comes right after the first `onUpdate` with a non-empty partial. Every earlier `onUpdate` received "" |
| `ChatBox.ApplyEvent` | frontend/src/components/ChatBox.jsx:89-99 | one callback keeps the input, the welcome flag and the list length; typing goes off exactly on `onFirstChunk`. `ApplyStreamMessages` and `ApplyStreamTyping` give its effect over a run |
| `ChatBox.ApplyStream` | frontend/src/components/ChatBox.jsx:89-99 | a run of callbacks keeps the input, the welcome flag and the list length. `ApplyStreamMessages` and `ApplyStreamTyping` give the final list and indicator |
| `ChatBox.ApplyStreamMessages` | frontend/src/components/ChatBox.jsx:92-96 | after a run of callbacks, only the last `onUpdate` partial shows at the placeholder, and the list is unchanged when no `onUpdate` came |
| `ChatBox.ApplyStreamTyping` | frontend/src/components/ChatBox.jsx:89-100 | after a run of callbacks, typing is off exactly when it already was off or `onFirstChunk` fired |
| `ChatBox.StreamIntoPlaceholder` | frontend/src/components/ChatBox.jsx:89-100 | streaming an answer into an empty placeholder at the end of the list leaves exactly the answer there. Typing stays on only when it was on and the answer is "" |
| `ChatBox.SendThenStream` | frontend/src/components/ChatBox.jsx:61-100 | after a send and a fully streamed answer, the list is the old messages, the question, then the answer. Typing stays on exactly when the answer is "" |
| `ChatBox.SendThenFail` | frontend/src/components/ChatBox.jsx:73-111 | after a send whose request fails, the list ends with the question, the empty placeholder and the error message, and typing is off |

## Left out

- Gin routing, CORS, static and SPA serving, `.env` and environment loading,
  and `router.Run` (backend/main.go:30-78): framework set-up with no logic of
  its own.
- The `pdftotext` subprocess (backend/main.go:80-89): its outcome is an input.
  A successful run's output is the extracted text; a failed run is `ExtractionFailed`.
- `os.MkdirAll`, `SaveUploadedFile` and `os.Remove`: each is a success flag in
  `UploadIO`. The uploads directory is a set of paths, and file contents are
  not modelled.
- Backend.Server.Upload: a failed save is modelled as writing nothing, so that
  branch keeps `uploads` unchanged. Gin's `SaveUploadedFile` creates the file
  before copying into it, so a copy that fails part-way can leave a partial
  file at the save path, which the handler does not remove
  (backend/main.go:108-111). Gin's code is not part of this model.
- The `log.Printf` warning when removal fails (backend/main.go:120): it is
  logging only, and the model keeps just its effect, the file left on disk.
- The HTTP POST, the API-key URL and JSON encoding and decoding in
  `callGeminiAPI`: the reply comes already decoded. Marshalling the fixed
  request body (backend/main.go:178-181) cannot fail, so that branch is left out.
- The text of Go error values printed with `%v`: these are the opaque
  `reason` strings.
- `gin`'s `BindJSON`: a body that does not bind is `None`. Missing fields
  bind to "", as they do in Go.
- The mutex (backend/main.go:27, 124-126, 145-147): each guarded read or
  write is one step of a method. Concurrent requests are not modelled.
- Timeouts on the Gemini call and the extractor: the code has none.
- Paths.Base: Unix semantics only; Windows volume names and `\` separators
  are not modelled. `Paths.SavePath` covers only the names `Base` can return.
- Characters: strings are sequences of Unicode characters. Go strings are
  bytes and JavaScript strings are UTF-16 code units. Lengths differ for
  non-ASCII text, but emptiness, `split(' ')`, `join(' ')` and the ASCII
  markers searched for behave the same.
- ChatBox.OnInitialMessage: its own contract covers only the empty message
  and the untouched fields. Each branch has its own lemma:
  `FirstWelcomeResets` and `UploadedNoticeAppended` cover the two that change
  the list, and `UploadedNoticeOnce` and `OtherMessageIgnored` cover the
  fall-through that changes nothing. `WelcomeShownOnce` and
  `InitialMessageIdempotent` relate several runs.
  The `initialMessage` prop is a string; App.jsx always passes one, so
  `null` and `undefined` are not separate cases.
- React's batching and stale closures: `sendMessage` and the effect read the
  current state. So `placeholderIndex` (ChatBox.jsx:78) is taken against the
  list the updates are applied to.
- JSX rendering (including hiding blank messages), ReactMarkdown, scrolling,
  the `setInterval` timing and the axios calls in ChatBox.jsx.
- `main.go` at the repository root (constant stub handlers), App.jsx and
  FileUpload.jsx (state wiring and a MIME-type check).
