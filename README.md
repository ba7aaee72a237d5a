# ConceptLens, modelled in Dafny

ConceptLens is a single-page React app that explains a topic at a chosen education level.
The user gives a topic as text, as an image, or as both. A Gemini model analyses it, and
the app then generates an illustration, optionally produces a short animation, and carries
on a follow-up chat. A chat reply may contain a directive such as `[GENERATE_IMAGE: ...]`,
in which case the app generates that media inside the chat.

This project models the logic of the app:

- **The root component's state machine (App.tsx).** Module `App` has a class, `ConceptLens`.
  It holds the `AppState` record plus the list of calls still in flight.
  - Each event handler is a method that runs up to its first `await`. It then leaves a
    `Pending` continuation, which records what the handler captured.
  - Each continuation is a method of its own. It takes the awaited call's outcome
    (success with a value, or failure) as a parameter.
  - So any interleaving of user events and settling calls can be expressed.
- **The `setState` updaters (module `AppUpdaters`).** Each updater is a pure function of
  the previous state. All of them keep a well-formedness invariant:
  - session ids are unique;
  - the selection names a listed session;
  - user messages carry no media fields;
  - a spinner appears only on a model message with a media type.
- **The chat directive parser (module `MediaDirective`).** It covers the JavaScript regexes
  `/\[GENERATE_IMAGE:\s*(.*?)\]/` and `/\[GENERATE_VIDEO:\s*(.*?)\]/`, with leftmost-match
  semantics. It also covers `String.prototype.replace` with a string pattern, and `trim`.
- **The service layer's pure parts (services/gemini.ts, module `Gemini`).** These are:
  - the data-URL prefix stripping and the MIME type sniffing;
  - the request parts;
  - the scan of the image response;
  - the chat history mapping and the reply fallback.
- **The components' state and render decisions:**
  - the chat box and transcript (`ChatSection`);
  - the input form with its drag state (`InputSection`);
  - the level switcher, the media tabs and panel, the prompt caption and the PDF file
    name (`ResultDisplay`).
- **The records of types.ts (module `Types`).** The JavaScript built-ins the code relies on
  are in module `JsString`:
  - the ECMAScript whitespace class;
  - `trim`, `indexOf`, `includes` and first-occurrence `replace`.

Nondeterminism is made explicit:

- `Date.now()` is a parameter wherever it is read (`id`, `timestamp`).
- The SDK calls are parameters of type `Result`. So are `JSON.parse`, the `window.aistudio`
  key helper (a `KeyHelper` value, present or absent) and the `FileReader` result.
- `null`/`undefined` are `Option`. JavaScript truthiness of a string is `Truthy`: present
  and non-empty.

Where the code and the wider design differ, the model follows the code:

- Chat updates are applied to the session selected when the updater runs
  (`prev.currentSessionId`). This is not necessarily the session the message was sent from.
- The chat request's history already ends with the new user message; the same text is then
  sent again as the new message.
- Starting a video or a chat does not clear a shown error.
- After a failed first attempt, `generateVideoWithAuth` retries only when the key helper
  exists.
- A re-analysis rebuilds the session captured when the handler started, with a fresh
  timestamp, and also sets the global level.

## Model

| member | source | states |
|---|---|---|
| Types.LevelIndex | types.ts:1-8 | every education level sits at one position of the declaration-order list of levels |
| Types.LevelsEnumerated | types.ts:1-8 | the six levels are listed once each, and their display strings are pairwise distinct |
| JsString.SkipWhitespace | App.tsx:244-245 | `\s*`, and the leading cut of `trim`, consume the maximal run of whitespace from a position |
| JsString.SkipWhitespaceBack | App.tsx:257 | the trailing cut of `trim` is the maximal run of whitespace ending at a position, not going below the leading cut |
| JsString.Trim | App.tsx:257 | `trim()` yields a trimmed slice of its input, and everything cut off on either side is whitespace |
| JsString.TrimEmptyIffAllWhitespace | components/ChatSection.tsx:26 | a string trims to empty exactly when all of its characters are whitespace |
| JsString.TrimOfTrimmed | App.tsx:257 | trimming a string that is already trimmed changes nothing |
| JsString.IndexOf | App.tsx:257 | `indexOf` finds the first occurrence, and finds none exactly when there is no occurrence |
| JsString.Includes | App.tsx:43 | `includes` holds exactly when the needle occurs somewhere |
| JsString.ReplaceFirst | App.tsx:257 | a string in which the pattern does not occur is returned unchanged |
| JsString.ReplaceFirstAt | App.tsx:257 | at the first occurrence `i`, the result is the prefix before `i`, the replacement and the rest after the needle |
| MediaDirective.CloseBracket | App.tsx:244-245 | the lazy `(.*?)\]` stops at the first `]`, with no line terminator before it, or fails when every later `]` has one |
| MediaDirective.MatchAt | App.tsx:244-245 | a match at a position spans the tag, the whitespace and the capture up to the closing bracket; the capture does not start with whitespace |
| MediaDirective.MatchAtIsRegexMatch | App.tsx:244-245 | the matcher succeeds at a position exactly when some split of the input satisfies the regex there, and it picks the split the backtracking regex picks |
| MediaDirective.FirstMatch | App.tsx:251-252 | `match` returns the leftmost matching position, and returns none when no position matches |
| MediaDirective.MatchedTextFirstOccurrence | App.tsx:257 | the matched text `match[0]` occurs first at the match's own start |
| MediaDirective.RemoveMatchedText | App.tsx:257 | `replace(match[0], '')` removes exactly the matched span |
| MediaDirective.Parse | App.tsx:247-262 | an image directive anywhere wins over a video directive; the first match is cut out and the rest trimmed; a reply without a directive is returned untrimmed with no intent |
| MediaDirective.CaptureShape | App.tsx:255 | a captured prompt is a single line without `]` and does not start with whitespace |
| MediaDirective.ParsedShape | App.tsx:254-262 | when a directive was found, the display text is trimmed and the prompt is a single line without leading whitespace |
| Gemini.StripBase64Prefix | services/gemini.ts:5-7 | exactly the png, jpeg, jpg and webp data-URL headers are removed, and any other input is returned unchanged |
| Gemini.HeaderNamesAgree | services/gemini.ts:6 | two headers that are both prefixes of the same string have the same format name |
| Gemini.LetterRunEnd | services/gemini.ts:10 | `[a-zA-Z]+` consumes the maximal run of ASCII letters |
| Gemini.GetMimeType | services/gemini.ts:9-12 | the result is `image/jpeg` or `image/` followed by the letters of a leading `data:image/<letters>;base64,` header |
| Gemini.MimeTypeOfHeader | services/gemini.ts:9-12 | any letters-only header gives the MIME type `image/<letters>` |
| Gemini.StripAndMimeAgree | services/gemini.ts:5-12 | for the four stripped formats, the prefix is removed and the MIME type names the format |
| Gemini.GifHeaderIsNotStripped | services/gemini.ts:5-12 | a gif data URL keeps its header in the data yet is labelled `image/gif` |
| Gemini.AnalyzeParts | services/gemini.ts:79-92 | the parts are the instruction, then the text when non-empty, then the stripped image with its MIME type when truthy: nothing else, in that order |
| Gemini.AnalyzeOutcome | services/gemini.ts:119-126 | success exactly when the call resolved with non-empty text that parses; every failure becomes the one generic error |
| Gemini.ImageOutcomeOf | services/gemini.ts:142-154 | definition: what `generateEducationalImage` settles with; success exactly when some part has non-empty inline data, with the PNG data URL of the first such part, and otherwise the one generic error |
| Gemini.ImageOutcomeUnique | services/gemini.ts:142-154 | the SDK outcome determines the image outcome: two outcomes allowed for the same call are equal |
| Gemini.SingleImagePartIsStored | services/gemini.ts:142-154 | a response whose one part carries non-empty data `d` yields `data:image/png;base64,` followed by `d` |
| Gemini.ImageOutcome | services/gemini.ts:142-154 | the loop returns exactly the outcome `Gemini.ImageOutcomeOf` allows: the PNG data URL of the first part with non-empty inline data, or the generic error |
| Gemini.HistoryTurns | services/gemini.ts:221-224 | the history maps message by message to role and text, dropping the media fields |
| Gemini.HistoryTurnsAppend | services/gemini.ts:221-224 | the mapping distributes over concatenation |
| Gemini.ChatReply | services/gemini.ts:227-228 | a rejected call propagates its error; a resolved call yields its text, or the fallback sentence when the text is empty or missing, so the reply is never empty |
| AppUpdaters.FindIndex | App.tsx:26 | the first index holding the id, or none when no session after the start has it |
| AppUpdaters.FindSession | App.tsx:26 | `find` yields a listed session carrying the id, and yields none exactly for a null id or an id not listed |
| AppUpdaters.CurrentSession | App.tsx:26 | definition: the session shown is the `find` of the selected id; what the lookup yields is stated by `AppUpdaters.FindSession` |
| AppUpdaters.FindUnique | App.tsx:26 | with unique ids, looking up a session's own id finds exactly that session |
| AppUpdaters.Finished | App.tsx:289-303 | settling chat media clears the spinner; success stores the URL, and failure appends the apology to the text |
| AppUpdaters.PatchLastAsWritten | App.tsx:286-306 | the patch as written fails exactly on an empty transcript, edits the last message only when it is a model message, and otherwise leaves the transcript as it is |
| AppUpdaters.PatchLast | App.tsx:286-306 | the corrected patch keeps the length and every earlier message, edits only a last model message, and leaves an empty transcript or a last user message alone |
| AppUpdaters.PatchLastAgrees | App.tsx:286-306 | the corrected patch equals the one as written wherever that one does not fail |
| AppUpdaters.PatchChatsAsWritten | App.tsx:286-294 | the `map` with the patch as written throws exactly when a session it patches has an empty transcript, and otherwise yields the corrected per-session patch |
| AppUpdaters.EditCurrentChatAsWritten | App.tsx:222-229 | `updateSessionChat` with the media patch as written throws exactly when a session carrying the selected id has an empty transcript, and otherwise equals the corrected edit |
| AppUpdaters.MediaPatchThrowsIffCurrentChatEmpty | App.tsx:286-289 | in a well-formed state the media patch as written throws exactly when a session is selected and its transcript is empty |
| AppUpdaters.PatchSessions | App.tsx:225-226 | mapping by id edits exactly the sessions carrying the id, is the identity when none does, and keeps ids |
| AppUpdaters.Without | App.tsx:71 | `filter` keeps exactly the sessions with another id, removes the id, keeps unique ids and changes nothing when the id is absent |
| AppUpdaters.WithoutAppend | App.tsx:71 | the filter distributes over concatenation, so order is kept |
| AppUpdaters.EditKeepsWellformed | App.tsx:222-229 | a well-formed chat edit keeps a transcript well-formed |
| AppUpdaters.PatchKeepsWellformed | App.tsx:222-229 | an id-keeping, well-formed patch keeps the state invariant |
| AppUpdaters.Select | App.tsx:53-64 | selects the id and resets the input, the error and the analysis/image/video flags; the sessions, the level and the chat flag are kept; the invariant holds when the id is listed |
| AppUpdaters.Delete | App.tsx:70-76 | exactly the sessions with the id are dropped; the selection is cleared exactly when it was that id; nothing else changes; the invariant is kept |
| AppUpdaters.SelectLevel | App.tsx:80-82 | only the level changes |
| AppUpdaters.BeginLevelChange | App.tsx:88 | only the analysis flag is set and the error cleared |
| AppUpdaters.Reanalyzed | App.tsx:95-104 | the rebuilt session keeps its id and input, takes the new level, result and timestamp, and has no media and an empty chat |
| AppUpdaters.LevelAnalyzed | App.tsx:106-112 | only the session with the id is replaced; the level becomes the new level; the image flag is set and the analysis flag cleared; every other field is kept |
| AppUpdaters.ImageArrived | App.tsx:174-178 | the URL is stored on the sessions with the id, and only the image flag changes besides |
| AppUpdaters.ImageFailed | App.tsx:179-182 | only the image flag is cleared, and no error is shown |
| AppUpdaters.AnalysisFailed | App.tsx:184-191 | the sessions, the selection and the level stay; both flags are cleared and the message is shown |
| AppUpdaters.BeginAnalyze | App.tsx:139-145 | the input is stored, the analysis flag set and the error cleared; nothing else changes |
| AppUpdaters.NewSessionRecord | App.tsx:151-161 | the new session has the given id, timestamp, level, input and result, with an empty chat and no media |
| AppUpdaters.SessionCreated | App.tsx:163-169 | the session is appended and selected, and the image flag is set; the invariant is kept for a fresh id |
| AppUpdaters.BeginVideo | App.tsx:198 | only the video flag is set, and the error is kept |
| AppUpdaters.VideoArrived | App.tsx:201-205 | the URL is stored on the sessions with the id, and the video flag is cleared |
| AppUpdaters.VideoFailed | App.tsx:208-212 | the video flag is cleared and the video error shown; the sessions stay |
| AppUpdaters.EditCurrentChat | App.tsx:222-229 | the edit goes to the transcript of the session selected when the updater runs, and every other session is unchanged |
| AppUpdaters.SetChatting | App.tsx:272 | only the chat flag changes, and the error is kept |
| AppUpdaters.ChatFailed | App.tsx:312-316 | the chat flag is cleared and the chat error shown; the transcripts stay |
| AppUpdaters.NewSession | App.tsx:320-330 | the selection, the error and the input are cleared, and every flag is kept |
| AppUpdaters.UserMessage | App.tsx:219 | a user message carries the text and no media fields |
| AppUpdaters.ModelMessage | App.tsx:264-269 | the spinner flag is set exactly for a directive with a non-empty prompt, and the media type is the directive's kind |
| AppUpdaters.MediaRequest | App.tsx:275 | chat media is requested exactly when the reply's spinner flag is set, with the directive's prompt |
| AppUpdaters.FindAfterPatch | App.tsx:109 | after a patch by id, the lookup of that id finds the patched session |
| AppUpdaters.AnalyzeThenImage | App.tsx:138-178 | a successful analysis followed by an image appends exactly one selected session with the image; earlier sessions are unchanged, and no flag or error is left |
| AppUpdaters.AnalyzeThenImageFails | App.tsx:138-182 | when the image fails, the session is still appended and selected, without an image and without an error |
| AppUpdaters.FailedAnalysisKeepsSessions | App.tsx:85-191 | a failed analysis, new or re-run, leaves the sessions and the selection as they were and shows its own error |
| AppUpdaters.LevelChangeResets | App.tsx:85-112 | a successful level change replaces only the current session, by one with no media and an empty chat, which the view then shows |
| AppUpdaters.UserMessageSurvivesFailedChat | App.tsx:216-317 | when the chat call fails, the user message stays in the current transcript and the error is shown |
| AppUpdaters.MediaPatchCanMissItsMessage | App.tsx:286-294 | with a later model reply last, the media patch lands on that reply and the earlier message keeps spinning |
| AppUpdaters.EmptyTranscriptReachesMediaPatch | App.tsx:271-294 | for any parsed reply whose directive queues chat media (as `App.ConceptLens.ChatReplied` does exactly when `MediaRequest` is some), selecting a session with an empty chat makes the patch as written throw when the media settles |
| App.VideoAuthOutcome | App.tsx:29-50 | definition: what `generateVideoWithAuth` settles with; a rejection of `hasSelectedApiKey()` or of the first `openSelectKey()` is rethrown; otherwise the first outcome unless it is retried, and on a retry the re-prompt's rejection or the second outcome |
| App.VideoAuthOutcomeUnique | App.tsx:29-50 | the helper's answers and the two attempts' outcomes determine the result |
| App.VideoWithoutHelperIsFirst | App.tsx:29-50 | without the key helper the result is the first attempt's outcome, a failure included |
| App.GenerateVideoWithAuth | App.tsx:29-50 | the result is the one `App.VideoAuthOutcome` allows; at most two attempts and two key prompts; no attempt exactly when the helper rejects or the picker rejects; a second attempt exactly for a not-found error with the helper present and the re-prompt resolving |
| App.KeyReady | App.tsx:33-37 | definition: the first video attempt may start when a key is already selected or the key picker resolved; used by `App.GenerateVideoWithAuth`'s contract |
| App.IsNotFound | App.tsx:43 | definition: the error message is non-empty and includes "Requested entity was not found"; used by `App.GenerateVideoWithAuth`'s contract |
| App.WantsRetry | App.tsx:43 | definition: the retry condition, a not-found failure with the helper present; used by `App.GenerateVideoWithAuth`'s contract |
| App.SendRequest | App.tsx:235-240 | definition: the arguments of `sendChatFollowUp`; what the request carries is stated by `App.SendRequestRepeatsMessage` |
| App.SendRequestRepeatsMessage | App.tsx:235-240 | the chat request's history is the captured transcript followed by the new user turn, and the same text is the new message |
| App.SendMessageTranscript | App.tsx:216-232 | after the first stage of `handleSendMessage` the chat panel shows exactly one entry more, the user's message, with a bubble exactly for non-empty text and no spinner or media; the hint is gone and the typing indicator is on |
| App.ConceptLens.constructor | App.tsx:11-22 | the initial state: no sessions, no selection, level High, nothing in flight |
| App.ConceptLens.SelectSession | App.tsx:53-66 | the state becomes `Select` of the old state, and the invariant is kept |
| App.ConceptLens.DeleteSession | App.tsx:68-78 | the state becomes `Delete` of the old state, and the invariant is kept |
| App.ConceptLens.NewSession | App.tsx:320-332 | the state becomes `NewSession` of the old state, and the invariant is kept |
| App.ConceptLens.SelectLevel | App.tsx:80-82 | the state becomes `SelectLevel` of the old state, and the invariant is kept |
| App.ConceptLens.Analyze | App.tsx:138-149 | the first stage runs, and an analysis at the level held when the handler ran is queued |
| App.ConceptLens.AnalysisDone | App.tsx:149-192 | success creates and selects the session and queues its image, whose prompt is the one the image tab's caption shows; failure shows the analysis error; the invariant is kept |
| App.ConceptLens.ChangeLevel | App.tsx:85-92 | without a current session, or while an analysis runs, nothing happens; otherwise the first stage runs and the current session is captured |
| App.ConceptLens.LevelAnalysisDone | App.tsx:92-135 | success replaces the captured session by its rebuild and queues the new image; failure shows the level error |
| App.ConceptLens.ImageDone | App.tsx:172-182 | the outcome is the one `Gemini.ImageOutcomeOf` allows for the SDK outcome; a success is stored on the captured id, and a failure only clears the flag |
| App.ConceptLens.GenerateVideo | App.tsx:195-200 | without a current session nothing happens; otherwise the video flag is set and the session's animation prompt queued |
| App.ConceptLens.VideoDone | App.tsx:200-213 | the outcome is the one `App.VideoAuthOutcome` allows for the helper and the two attempts; a success is stored on the captured id, and a failure shows the video error |
| App.ConceptLens.SendMessage | App.tsx:216-240 | without a current session nothing happens; otherwise the user message is appended, the chat flag set and the request queued |
| App.ConceptLens.ChatReplied | App.tsx:242-317 | a reply is parsed and appended to the current transcript, clearing the chat flag, and media is queued only for a non-empty prompt; a failed call shows the chat error |
| App.ConceptLens.ChatMediaDone | App.tsx:276-307 | the outcome is the one `Gemini.ImageOutcomeOf` or `App.VideoAuthOutcome` allows for the requested kind; it patches the last message of the current transcript, with the URL or the apology; the patch as written throws (`threw`) exactly when the current transcript is empty, and the state is then unchanged |
| App.ConceptLens.SubmitChat | components/ChatSection.tsx:24-29 | a disabled chat submit changes nothing; otherwise the box is cleared and, with a session shown, the untrimmed text is appended as a user message and its chat request queued |
| App.ConceptLens.SubmitAnalysis | App.tsx:400-417 | the form is on screen only without a current session; there, a disabled button changes nothing, and otherwise the analysis starts and is queued with the form's text and image and the current level |
| App.ConceptLens.ClickAnimationTab | components/ResultDisplay.tsx:213-216 | the tab always switches to video; without a video and with none in flight, the video is started and queued with the prompt the Animation caption shows; otherwise nothing changes |
| App.ConceptLens.ClickGenerateButton | components/ResultDisplay.tsx:243-257 | when the panel shows the "Generate Animation" button the video is started and queued with the prompt the caption shows; otherwise, in particular while a video is in flight, nothing changes |
| ChatSection.BlankInputCannotSend | components/ChatSection.tsx:132 | whitespace-only input cannot be sent |
| ChatSection.SendDisabled | components/ChatSection.tsx:132 | definition: the send button's `disabled` condition; its meaning is stated by `ChatSection.BlankInputCannotSend` and `ChatSection.VisibleInputCanSend` |
| ChatSection.VisibleInputCanSend | components/ChatSection.tsx:132 | input with a visible character can be sent whenever no reply is pending |
| ChatSection.ChatBox.constructor | components/ChatSection.tsx:13 | the box starts empty |
| ChatSection.ChatBox.Type | components/ChatSection.tsx:125 | the box holds what was typed |
| ChatSection.ChatBox.Submit | components/ChatSection.tsx:24-29 | nothing is sent exactly when the guard disables sending; otherwise the untrimmed input is sent and the box cleared |
| ChatSection.ViewOf | components/ChatSection.tsx:62-95 | a bubble exactly for non-empty text; a spinner exactly for a set flag; media exactly for a truthy URL; each is a video exactly when the media type says video |
| ChatSection.TranscriptOfAppend | components/ChatSection.tsx:42-115 | appending a message to the history shows exactly that message's view after the views already shown, removes the empty-chat hint, and keeps the typing indicator with the chat flag |
| ChatSection.UserMessagesShowText | components/ChatSection.tsx:76-95 | in a well-formed transcript, user messages show neither spinner nor media |
| InputSection.EitherInputEnablesSubmit | components/InputSection.tsx:123 | text or an image alone enables the button when idle, and a running analysis disables it |
| InputSection.SubmitDisabled | components/InputSection.tsx:123 | definition: the analyze button's `disabled` condition; its meaning is stated by `InputSection.EitherInputEnablesSubmit` |
| InputSection.InputPanel.constructor | components/InputSection.tsx:10-12 | the form starts empty, with the highlight off |
| InputSection.InputPanel.SetText | components/InputSection.tsx:68 | only the text changes |
| InputSection.InputPanel.Drag | components/InputSection.tsx:31-39 | enter and over raise the highlight, leave lowers it, and other events keep it |
| InputSection.InputPanel.Drop | components/InputSection.tsx:41-44 | the highlight is lowered |
| InputSection.InputPanel.FileLoaded | components/InputSection.tsx:23-27 | a truthy reader result becomes the image, and anything else is ignored |
| InputSection.InputPanel.RemoveImage | components/InputSection.tsx:90 | the image is removed, and nothing else changes |
| InputSection.InputPanel.Submit | components/InputSection.tsx:50-53 | nothing is submitted exactly for a blank form; otherwise exactly the text and the image held are submitted |
| ResultDisplay.LevelLabelsDistinct | components/ResultDisplay.tsx:26-33 | every level has a non-empty label, and no two share one |
| ResultDisplay.LevelLabel | components/ResultDisplay.tsx:26-33 | definition: the `LEVEL_LABELS` table; `ResultDisplay.LevelLabelsDistinct` states that the labels are non-empty and distinct |
| ResultDisplay.Switcher | components/ResultDisplay.tsx:125-137 | one button per level in declaration order, with its label, and exactly the current level highlighted |
| ResultDisplay.OneLevelSelected | components/ResultDisplay.tsx:131 | only the current level's button is highlighted |
| ResultDisplay.MediaTabs.constructor | components/ResultDisplay.tsx:50-56 | on mount the tab is video exactly when a video URL is present |
| ResultDisplay.MediaTabs.ClickImage | components/ResultDisplay.tsx:207 | the image tab is selected |
| ResultDisplay.MediaTabs.ClickAnimation | components/ResultDisplay.tsx:213-216 | the video tab is selected, and a video is requested exactly when there is none and none is in flight |
| ResultDisplay.MediaTabs.Render | components/ResultDisplay.tsx:54-56 | the effect runs only when the URL changes, and a new truthy URL switches to video |
| ResultDisplay.Panel | components/ResultDisplay.tsx:225-269 | loading, image, video, the generate button and the fallback each show exactly under the view's conditions |
| ResultDisplay.PanelShowsExactlyOne | components/ResultDisplay.tsx:225-269 | exactly one of the five shows, so the generate button never shows while a video is in flight |
| ResultDisplay.UnderscoredFrom | components/ResultDisplay.tsx:81 | the replacement leaves no whitespace and never lengthens the title |
| ResultDisplay.Underscored | components/ResultDisplay.tsx:81 | definition: the `\s+/g` replacement from the start of the title; `ResultDisplay.UnderscoredFrom` states that the result has no whitespace, and `ResultDisplay.UnderscoredRun` that each run becomes one `_` |
| ResultDisplay.UnderscoredAppend | components/ResultDisplay.tsx:81 | the replacement of a concatenation is the replacement of each part, the second continuing the first's run |
| ResultDisplay.UnderscoredOfRun | components/ResultDisplay.tsx:81 | a whole run of whitespace becomes a single `_` |
| ResultDisplay.UnderscoredNoWhitespace | components/ResultDisplay.tsx:81 | a title without whitespace is kept |
| ResultDisplay.UnderscoredRun | components/ResultDisplay.tsx:81 | a run between two non-whitespace parts becomes exactly one `_` |
| ResultDisplay.PdfFileName | components/ResultDisplay.tsx:81 | the file name ends in `_ConceptLens.pdf`, is at most the suffix longer than the title, and contains no whitespace |

## Left out

- The Gemini SDK calls, the request configuration and the model names are left out: they are foreign calls. Their outcomes are parameters of the continuation methods.
- The persona and instruction prose is left out: it is constant text sent to the model. `AnalyzeParts` takes the instruction as a parameter.
- `JSON.parse` is a parameter (`parse: string -> Option<AnalysisResult>`): the JSON grammar is not part of this model. The model assumes that a successful parse yields a well-shaped result with all seven fields of the right types. The code does not check this: `as AnalysisResult` is only a type cast, so any JSON value, `null` or `{}` for example, is accepted and the app goes on with undefined fields. Those runs are not modelled.
- `generateEducationalVideo` is left out: its poll loop with a timer, the `fetch` of the bytes and `URL.createObjectURL` are I/O. Its outcome is a parameter of type `Result`.
- `console.log` and `console.error` are left out: console output only.
- `window.aistudio` is an injected capability (`KeyHelper`), not a global. Its dialog is not modelled.
- The React scheduler is left out: batching, StrictMode double invocation of updaters, and the render closure. `ConceptLens` composes the updaters of one synchronous segment in order, which is what React computes for them. A handler reads `currentSession` and `state.level` from the state current when it runs and never from a stale render. `Date.now()`, which the code calls twice, is given as an `id` and a `timestamp`.
- App.ConceptLens.AnalysisDone: requires the new id to be unused. `Date.now()` in milliseconds coincides only for two analyses settling in the same millisecond, and the model does not cover that case.
- App.ConceptLens.SelectSession: requires the id to be listed. The sidebar only offers listed ids, and HistorySidebar is not part of this model.
- The chat media patch mutates the shared message object in place (`lastMsg.mediaUrl = ...`). The model builds a new message value instead, so aliasing between the previous and the next state is not modelled.
- ConceptLens.ChatMediaDone: where the patch as written throws a TypeError inside the `setState` updater, the model reports `threw` and keeps the old state. What React does after an updater throws is not modelled; without an error boundary it unmounts the whole app.
- The panel's `activeMedia` belongs to one mounted `ResultDisplay`. The component is not keyed by session, so in the app the tab survives a switch to another session. Component mounting is not part of this model, and `MediaTabs` models a single mount.
- HistorySidebar and LevelSelector are not part of this model. They only render lists and forward clicks to the handlers modelled here.
- The PDF export is left out: html2canvas, jsPDF and the page arithmetic are DOM and floating-point work. Only the file name is modelled.
- The file input, `FileReader`, scrolling and the sidebar toggle are DOM effects. The reader's result is a parameter of `FileLoaded`.
- Whitespace is the ECMAScript class taken over code points. JavaScript strings are UTF-16, so characters outside the Basic Multilingual Plane are not distinguished the same way.

## Findings

| source | as written | input that shows it | evidently intended | confidence | as-written member | corrected member |
|---|---|---|---|---|---|---|
| App.tsx:286-306 | the chat media updater reads `newHistory[newHistory.length - 1].role` without checking that the transcript is non-empty, and the updater runs against whichever session is selected when it runs | a chat reply with `[GENERATE_IMAGE: x]` arrives; before the image settles the user selects another session whose chat is empty; the updater then reads `.role` of `undefined` and throws a TypeError while React applies the update | when there is no last model message, leave the transcript alone; `ConceptLens.ChatMediaDone` runs the patch as written (`AppUpdaters.EditCurrentChatAsWritten`) and reports the throw, and every state it reaches otherwise is the corrected one | not executed | AppUpdaters.PatchLastAsWritten, with AppUpdaters.EmptyTranscriptReachesMediaPatch | AppUpdaters.PatchLast, with AppUpdaters.PatchLastAgrees |
