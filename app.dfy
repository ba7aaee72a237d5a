/** The root component (App.tsx) as a state machine. `ConceptLens` holds the `AppState`
    and the calls still in flight. Each handler is a method that runs its stages up to the
    first `await` and leaves a `Pending` continuation; each continuation is a method that
    takes the outcome of the awaited call as a parameter, so any interleaving of
    continuations and user events can be expressed. */
module App {
  import opened Wrappers
  import opened JsString
  import opened Types
  import opened MediaDirective
  import opened Gemini
  import opened AppUpdaters
  import opened ChatSection
  import opened InputSection
  import opened ResultDisplay

  // ---------------------------------------------------------------------------------
  // generateVideoWithAuth

  const NotFoundText: string := "Requested entity was not found"

  /** The `window.aistudio` key helper as an injected capability: the outcome of
      `hasSelectedApiKey()`, of the first `openSelectKey()` and of the one on retry
      (`None` when the call resolves, `Some(e)` when it rejects). */
  datatype KeyHelper = KeyHelper(
    hasSelectedApiKey: Result<bool, Error>,
    openSelectKey: Option<Error>,
    reopenSelectKey: Option<Error>)

  /** The helper lets the first attempt start: a key is selected, or the picker resolved. */
  predicate KeyReady(h: KeyHelper)
  {
    h.hasSelectedApiKey == Success(true) || (h.hasSelectedApiKey == Success(false) && h.openSelectKey.None?)
  }

  /** `error.message && error.message.includes("Requested entity was not found")`. */
  predicate IsNotFound(e: Error)
  {
    e.message != "" && Includes(e.message, NotFoundText)
  }

  /** A failed first attempt is retried only for a not-found error and only when the
      helper is there. */
  predicate WantsRetry(helper: Option<KeyHelper>, first: Result<string, Error>)
  {
    helper.Some? && first.Failure? && IsNotFound(first.error)
  }

  /** What `generateVideoWithAuth` settles with. A rejection of `hasSelectedApiKey()` or
      of the first `openSelectKey()` is rethrown before any attempt. Otherwise the first
      attempt's outcome is returned unless it is retried; on a retry the re-prompt's
      rejection, or else the second attempt's outcome, is returned. */
  predicate VideoAuthOutcome(helper: Option<KeyHelper>, first: Result<string, Error>, second: Result<string, Error>,
                             result: Result<string, Error>)
  {
    && (helper.Some? && helper.value.hasSelectedApiKey.Failure? ==>
          result == Failure(helper.value.hasSelectedApiKey.error))
    && (helper.Some? && helper.value.hasSelectedApiKey == Success(false) && helper.value.openSelectKey.Some? ==>
          result == Failure(helper.value.openSelectKey.value))
    && ((helper.None? || KeyReady(helper.value)) && !WantsRetry(helper, first) ==> result == first)
    && ((helper.None? || KeyReady(helper.value)) && WantsRetry(helper, first) ==>
          result == if helper.value.reopenSelectKey.Some? then Failure(helper.value.reopenSelectKey.value) else second)
  }

  /** The helper's answers and the two attempts' outcomes determine the result. */
  lemma VideoAuthOutcomeUnique(helper: Option<KeyHelper>, first: Result<string, Error>, second: Result<string, Error>,
                               r1: Result<string, Error>, r2: Result<string, Error>)
    requires VideoAuthOutcome(helper, first, second, r1) && VideoAuthOutcome(helper, first, second, r2)
    ensures r1 == r2
  {
    if helper.Some? && helper.value.hasSelectedApiKey.Success? {
      if !helper.value.hasSelectedApiKey.value && helper.value.openSelectKey.None? {
        assert KeyReady(helper.value);
      }
    }
  }

  /** Without the helper, the first attempt's outcome is the result, whatever it is. */
  lemma VideoWithoutHelperIsFirst(first: Result<string, Error>, second: Result<string, Error>, r: Result<string, Error>)
    requires VideoAuthOutcome(None, first, second, r)
    ensures r == first
  {
  }

  /** `generateVideoWithAuth`, with the helper (absent or present) and the outcomes of the
      first and second video attempts as parameters. It reports the result, how many video
      attempts were made and how many times the key picker was opened. */
  method GenerateVideoWithAuth(helper: Option<KeyHelper>, first: Result<string, Error>, second: Result<string, Error>)
    returns (result: Result<string, Error>, attempts: nat, keyPrompts: nat)
    ensures attempts <= 2 && keyPrompts <= 2
    ensures attempts >= 1 <==> helper.None? || KeyReady(helper.value)
    ensures VideoAuthOutcome(helper, first, second, result)
    ensures attempts == 0 ==> result.Failure?
    ensures attempts == 1 && !WantsRetry(helper, first) ==> result == first
    ensures attempts == 1 && WantsRetry(helper, first) ==>
      helper.value.reopenSelectKey.Some? && result == Failure(helper.value.reopenSelectKey.value)
    ensures attempts == 2 <==>
      (&& helper.Some? && KeyReady(helper.value) && WantsRetry(helper, first)
       && helper.value.reopenSelectKey.None?)
    ensures attempts == 2 ==> result == second
    ensures keyPrompts == (if helper.Some? && helper.value.hasSelectedApiKey == Success(false) then 1 else 0)
                          + (if attempts >= 1 && WantsRetry(helper, first) then 1 else 0)
    ensures helper.None? ==> attempts == 1 && keyPrompts == 0 && result == first
  {
    attempts, keyPrompts := 0, 0;
    if helper.Some? {
      var h := helper.value;
      if h.hasSelectedApiKey.Failure? {
        return Failure(h.hasSelectedApiKey.error), 0, 0;
      }
      if !h.hasSelectedApiKey.value {
        keyPrompts := 1;
        if h.openSelectKey.Some? {
          return Failure(h.openSelectKey.value), 0, 1;
        }
      }
    }
    attempts := 1;
    if first.Success? {
      return first, attempts, keyPrompts;
    }
    var e := first.error;
    if e.message != "" && Includes(e.message, NotFoundText) && helper.Some? {
      keyPrompts := keyPrompts + 1;
      if helper.value.reopenSelectKey.Some? {
        return Failure(helper.value.reopenSelectKey.value), attempts, keyPrompts;
      }
      attempts := 2;
      return second, attempts, keyPrompts;
    }
    return first, attempts, keyPrompts;
  }

  // ---------------------------------------------------------------------------------
  // The state machine

  /** A call in flight, with what its continuation captured when the handler ran. */
  datatype Pending =
    | AwaitAnalysis(text: string, image: Option<string>, level: EducationLevel)
    | AwaitLevelAnalysis(session: Session, newLevel: EducationLevel)
    | AwaitImage(sessionId: string, prompt: string)
    | AwaitVideo(sessionId: string, prompt: string)
    | AwaitChat(request: ChatRequest)
    | AwaitChatMedia(intent: Intent)

  function Settle(ps: seq<Pending>, i: nat): seq<Pending>
    requires i < |ps|
  {
    ps[..i] + ps[i + 1..]
  }

  const InitialState: AppState :=
    AppState([], None, High, "", None, false, false, false, None, false)

  /** The chat request `handleSendMessage` makes: the captured transcript with the new
      user message appended, the message itself, the global level and the session's
      analysis. */
  function SendRequest(cur: Session, message: string, level: EducationLevel): ChatRequest
  {
    ChatRequestFor(cur.chatHistory + [UserMessage(message)], message, level, cur.result)
  }

  /** The request's history already ends with the user's message, which is sent once more
      as the new message. */
  lemma SendRequestRepeatsMessage(cur: Session, message: string, level: EducationLevel)
    ensures var req := SendRequest(cur, message, level);
            && |req.history| == |cur.chatHistory| + 1
            && req.history[..|cur.chatHistory|] == HistoryTurns(cur.chatHistory)
            && req.history[|cur.chatHistory|] == Turn(User, message)
            && req.message == message && req.level == level
  {
    HistoryTurnsAppend(cur.chatHistory, [UserMessage(message)]);
  }

  /** After handleSendMessage's first stage the chat panel shows one entry more: the user's
      message, with a bubble exactly when the text is non-empty and no spinner or media;
      the hint is gone and the typing indicator is on. */
  lemma SendMessageTranscript(st: AppState, message: string)
    requires Wellformed(st) && CurrentSession(st).Some?
    ensures var st' := SetChatting(EditCurrentChat(st, Append(UserMessage(message))), true);
            && CurrentSession(st').Some?
            && var v := Transcript(CurrentSession(st').value.chatHistory, st'.isChatting);
               && v.messages == Transcript(CurrentSession(st).value.chatHistory, st.isChatting).messages
                                + [MessageView(true, message != "", None, None)]
               && !v.emptyHint && v.typing
  {
    var cur := CurrentSession(st).value;
    var k := FindIndex(st.sessions, cur.id, 0).value;
    FindAfterPatch(st.sessions, k, EditChat(Append(UserMessage(message))));
    TranscriptOfAppend(cur.chatHistory, UserMessage(message), true);
  }

  class ConceptLens {
    var state: AppState
    var pending: seq<Pending>

    predicate Valid()
      reads this
    {
      Wellformed(state)
    }

    /** The initial state: no sessions, nothing selected, level High, nothing in flight. */
    constructor()
      ensures Valid() && state == InitialState && pending == []
    {
      state := InitialState;
      pending := [];
    }

    /** The sidebar offers only the ids of listed sessions. */
    method SelectSession(id: string)
      requires Valid() && HasSession(state.sessions, id)
      modifies this
      ensures Valid() && state == Select(old(state), id) && pending == old(pending)
    {
      state := Select(state, id);
    }

    method DeleteSession(id: string)
      requires Valid()
      modifies this
      ensures Valid() && state == Delete(old(state), id) && pending == old(pending)
    {
      state := Delete(state, id);
    }

    method NewSession()
      requires Valid()
      modifies this
      ensures Valid() && state == AppUpdaters.NewSession(old(state)) && pending == old(pending)
    {
      state := AppUpdaters.NewSession(state);
    }

    method SelectLevel(level: EducationLevel)
      requires Valid()
      modifies this
      ensures Valid() && state == AppUpdaters.SelectLevel(old(state), level) && pending == old(pending)
    {
      state := AppUpdaters.SelectLevel(state, level);
    }

    /** handleAnalyze up to its first `await`: the analysis is requested at the level the
        state holds when the handler runs. */
    method Analyze(text: string, image: Option<string>)
      requires Valid()
      modifies this
      ensures Valid() && state == BeginAnalyze(old(state), text, image)
      ensures pending == old(pending) + [AwaitAnalysis(text, image, old(state).level)]
    {
      pending := pending + [AwaitAnalysis(text, image, state.level)];
      state := BeginAnalyze(state, text, image);
    }

    /** The analysis of handleAnalyze settles. `call` and `parse` are the SDK response and
        the JSON parse; `id` and `timestamp` stand for `Date.now()`, and the id is assumed
        fresh. */
    method AnalysisDone(i: nat, call: Result<Option<string>, Error>, parse: string -> Option<AnalysisResult>,
                        id: string, timestamp: int)
      requires Valid() && i < |pending| && pending[i].AwaitAnalysis?
      requires !HasSession(state.sessions, id)
      modifies this
      ensures Valid()
      ensures var p := old(pending)[i];
              var outcome := AnalyzeOutcome(call, parse);
              && (outcome.Success? ==>
                    var s := NewSessionRecord(id, timestamp, p.level, p.text, p.image, outcome.value);
                    && state == SessionCreated(old(state), s)
                    && pending == Settle(old(pending), i) + [AwaitImage(id, outcome.value.imageGenerationPrompt)]
                    && CurrentSession(state) == Some(s)
                    && PromptCaption(Image, s.result) == ("Image Prompt", pending[|pending| - 1].prompt))
              && (outcome.Failure? ==>
                    state == AnalysisFailed(old(state), AnalyzeError) && pending == Settle(old(pending), i))
    {
      var p := pending[i];
      var outcome := AnalyzeOutcome(call, parse);
      match outcome
      case Success(result) =>
        var s := NewSessionRecord(id, timestamp, p.level, p.text, p.image, result);
        state := SessionCreated(state, s);
        pending := Settle(pending, i) + [AwaitImage(id, result.imageGenerationPrompt)];
        FindUnique(state.sessions, |state.sessions| - 1);
      case Failure(_) =>
        state := AnalysisFailed(state, AnalyzeError);
        pending := Settle(pending, i);
    }

    /** handleLevelChange up to its first `await`: a no-op without a current session or
        while an analysis runs; otherwise the current session is captured. */
    method ChangeLevel(newLevel: EducationLevel)
      requires Valid()
      modifies this
      ensures Valid()
      ensures CurrentSession(old(state)).None? || old(state).isAnalyzing ==>
        state == old(state) && pending == old(pending)
      ensures CurrentSession(old(state)).Some? && !old(state).isAnalyzing ==>
        && state == BeginLevelChange(old(state))
        && pending == old(pending) + [AwaitLevelAnalysis(CurrentSession(old(state)).value, newLevel)]
    {
      var cur := CurrentSession(state);
      if cur.None? || state.isAnalyzing {
        return;
      }
      state := BeginLevelChange(state);
      pending := pending + [AwaitLevelAnalysis(cur.value, newLevel)];
    }

    /** The re-analysis settles: on success the captured session is rebuilt and replaces
        the session with its id, and the image for the new result is requested. */
    method LevelAnalysisDone(i: nat, call: Result<Option<string>, Error>, parse: string -> Option<AnalysisResult>,
                             timestamp: int)
      requires Valid() && i < |pending| && pending[i].AwaitLevelAnalysis?
      modifies this
      ensures Valid()
      ensures var p := old(pending)[i];
              var outcome := AnalyzeOutcome(call, parse);
              && (outcome.Success? ==>
                    && state == LevelAnalyzed(old(state), p.session.id,
                                              Reanalyzed(p.session, p.newLevel, outcome.value, timestamp), p.newLevel)
                    && pending == Settle(old(pending), i) + [AwaitImage(p.session.id, outcome.value.imageGenerationPrompt)])
              && (outcome.Failure? ==>
                    state == AnalysisFailed(old(state), LevelChangeError) && pending == Settle(old(pending), i))
    {
      var p := pending[i];
      var outcome := AnalyzeOutcome(call, parse);
      match outcome
      case Success(result) =>
        var updated := Reanalyzed(p.session, p.newLevel, result, timestamp);
        state := LevelAnalyzed(state, p.session.id, updated, p.newLevel);
        pending := Settle(pending, i) + [AwaitImage(p.session.id, result.imageGenerationPrompt)];
      case Failure(_) =>
        state := AnalysisFailed(state, LevelChangeError);
        pending := Settle(pending, i);
    }

    /** The image requested after an analysis settles. */
    method ImageDone(i: nat, call: Result<Option<seq<ResponsePart>>, Error>) returns (outcome: Result<string, Error>)
      requires Valid() && i < |pending| && pending[i].AwaitImage?
      modifies this
      ensures Valid() && pending == Settle(old(pending), i)
      ensures ImageOutcomeOf(call, outcome)
      ensures outcome.Success? ==> state == ImageArrived(old(state), old(pending)[i].sessionId, outcome.value)
      ensures outcome.Failure? ==> state == ImageFailed(old(state))
    {
      var p := pending[i];
      outcome := ImageOutcome(call);
      if outcome.Success? {
        state := ImageArrived(state, p.sessionId, outcome.value);
      } else {
        state := ImageFailed(state);
      }
      pending := Settle(pending, i);
    }

    /** handleGenerateVideo up to its `await`: a no-op without a current session; it does
        not look at the in-flight flags. */
    method GenerateVideo()
      requires Valid()
      modifies this
      ensures Valid()
      ensures CurrentSession(old(state)).None? ==> state == old(state) && pending == old(pending)
      ensures CurrentSession(old(state)).Some? ==>
        var cur := CurrentSession(old(state)).value;
        state == BeginVideo(old(state)) && pending == old(pending) + [AwaitVideo(cur.id, cur.result.animationPrompt)]
    {
      var cur := CurrentSession(state);
      if cur.None? {
        return;
      }
      state := BeginVideo(state);
      pending := pending + [AwaitVideo(cur.value.id, cur.value.result.animationPrompt)];
    }

    /** The video settles, through generateVideoWithAuth. */
    method VideoDone(i: nat, helper: Option<KeyHelper>, first: Result<string, Error>, second: Result<string, Error>)
      returns (outcome: Result<string, Error>)
      requires Valid() && i < |pending| && pending[i].AwaitVideo?
      modifies this
      ensures Valid() && pending == Settle(old(pending), i)
      ensures VideoAuthOutcome(helper, first, second, outcome)
      ensures outcome.Success? ==> state == VideoArrived(old(state), old(pending)[i].sessionId, outcome.value)
      ensures outcome.Failure? ==> state == VideoFailed(old(state))
    {
      var p := pending[i];
      var attempts, prompts;
      outcome, attempts, prompts := GenerateVideoWithAuth(helper, first, second);
      if outcome.Success? {
        state := VideoArrived(state, p.sessionId, outcome.value);
      } else {
        state := VideoFailed(state);
      }
      pending := Settle(pending, i);
    }

    /** handleSendMessage up to its `await`: a no-op without a current session; otherwise
        the user message is appended to the current transcript and the chat flag is set,
        the error being left as it is. */
    method SendMessage(message: string)
      requires Valid()
      modifies this
      ensures Valid()
      ensures CurrentSession(old(state)).None? ==> state == old(state) && pending == old(pending)
      ensures CurrentSession(old(state)).Some? ==>
        && state == SetChatting(EditCurrentChat(old(state), Append(UserMessage(message))), true)
        && pending == old(pending) + [AwaitChat(SendRequest(CurrentSession(old(state)).value, message, old(state).level))]
    {
      var cur := CurrentSession(state);
      if cur.None? {
        return;
      }
      pending := pending + [AwaitChat(SendRequest(cur.value, message, state.level))];
      state := SetChatting(EditCurrentChat(state, Append(UserMessage(message))), true);
    }

    /** The chat reply settles: a reply (or the fallback text) is parsed for a directive,
        the model message goes to the transcript selected now, and chat media is requested
        only for a non-empty prompt; a rejected call shows the chat error. */
    method ChatReplied(i: nat, call: Result<Option<string>, Error>)
      requires Valid() && i < |pending| && pending[i].AwaitChat?
      modifies this
      ensures Valid()
      ensures var reply := ChatReply(call);
              && (reply.Failure? ==> state == ChatFailed(old(state)) && pending == Settle(old(pending), i))
              && (reply.Success? ==>
                    var parsed := Parse(reply.value);
                    && state == SetChatting(EditCurrentChat(old(state), Append(ModelMessage(parsed))), false)
                    && pending == Settle(old(pending), i)
                                  + (if MediaRequest(parsed).Some? then [AwaitChatMedia(MediaRequest(parsed).value)] else []))
    {
      var reply := ChatReply(call);
      if reply.Failure? {
        state := ChatFailed(state);
        pending := Settle(pending, i);
        return;
      }
      var parsed := Parse(reply.value);
      state := SetChatting(EditCurrentChat(state, Append(ModelMessage(parsed))), false);
      var request := MediaRequest(parsed);
      pending := Settle(pending, i) + (if request.Some? then [AwaitChatMedia(request.value)] else []);
    }

    /** Chat media settles: an image through generateEducationalImage, a video through
        generateVideoWithAuth; the outcome patches the last message of the transcript
        selected now. The patch as written throws a TypeError when that transcript is
        empty: `threw` reports it, and the state is then left as it was. */
    method ChatMediaDone(i: nat, imageCall: Result<Option<seq<ResponsePart>>, Error>,
                         helper: Option<KeyHelper>, first: Result<string, Error>, second: Result<string, Error>)
      returns (outcome: Result<string, Error>, threw: bool)
      requires Valid() && i < |pending| && pending[i].AwaitChatMedia?
      modifies this
      ensures Valid() && pending == Settle(old(pending), i)
      ensures old(pending)[i].intent.kind == Image ==> ImageOutcomeOf(imageCall, outcome)
      ensures old(pending)[i].intent.kind == Video ==> VideoAuthOutcome(helper, first, second, outcome)
      ensures threw <==> CurrentSession(old(state)).Some? && CurrentSession(old(state)).value.chatHistory == []
      ensures threw ==> state == old(state)
      ensures !threw && outcome.Success? ==> state == EditCurrentChat(old(state), MediaArrived(outcome.value))
      ensures !threw && outcome.Failure? ==> state == EditCurrentChat(old(state), MediaFailed)
    {
      var p := pending[i];
      if p.intent.kind == Image {
        outcome := ImageOutcome(imageCall);
      } else {
        var attempts, prompts;
        outcome, attempts, prompts := GenerateVideoWithAuth(helper, first, second);
      }
      var edit := if outcome.Success? then MediaArrived(outcome.value) else MediaFailed;
      MediaPatchThrowsIffCurrentChatEmpty(state, edit);
      var next := EditCurrentChatAsWritten(state, edit);
      threw := next.None?;
      if next.Some? {
        state := next.value;
      }
      pending := Settle(pending, i);
    }

    // -------------------------------------------------------------------------------
    // User events that pass through a component's guard

    /** The chat form: the box's guard decides whether handleSendMessage runs at all. */
    method SubmitChat(box: ChatBox)
      requires Valid()
      modifies this, box
      ensures Valid()
      ensures SendDisabled(old(box.input), old(state).isChatting) ==>
        state == old(state) && pending == old(pending) && box.input == old(box.input)
      ensures !SendDisabled(old(box.input), old(state).isChatting) ==> box.input == ""
      ensures !SendDisabled(old(box.input), old(state).isChatting) && CurrentSession(old(state)).None? ==>
        state == old(state) && pending == old(pending)
      ensures !SendDisabled(old(box.input), old(state).isChatting) && CurrentSession(old(state)).Some? ==>
        && state == SetChatting(EditCurrentChat(old(state), Append(UserMessage(old(box.input)))), true)
        && pending == old(pending) + [AwaitChat(SendRequest(CurrentSession(old(state)).value, old(box.input), old(state).level))]
    {
      var sent := box.Submit(state.isChatting);
      if sent.Some? {
        SendMessage(sent.value);
      }
    }

    /** The analyze form: it is on screen only while no session is selected, and its
        button is disabled for a blank form and while an analysis runs; otherwise
        handleAnalyze receives the form's text and image. */
    method SubmitAnalysis(panel: InputPanel)
      requires Valid()
      modifies this
      ensures Valid()
      ensures CurrentSession(old(state)).Some? || SubmitDisabled(panel.text, panel.image, old(state).isAnalyzing) ==>
        state == old(state) && pending == old(pending)
      ensures CurrentSession(old(state)).None? && !SubmitDisabled(panel.text, panel.image, old(state).isAnalyzing) ==>
        && state == BeginAnalyze(old(state), panel.text, panel.image)
        && pending == old(pending) + [AwaitAnalysis(panel.text, panel.image, old(state).level)]
    {
      if CurrentSession(state).Some? || SubmitDisabled(panel.text, panel.image, state.isAnalyzing) {
        return;
      }
      var request := panel.Submit();
      Analyze(request.value.text, request.value.image);
    }

    /** The Animation tab: it requests a video only when the current session has none and
        no video is in flight; the video is requested with the prompt the caption of the
        tab now shows. */
    method ClickAnimationTab(tabs: MediaTabs)
      requires Valid()
      modifies this, tabs
      ensures Valid() && tabs.activeMedia == Video && tabs.seenVideoUrl == old(tabs.seenVideoUrl)
      ensures var cur := CurrentSession(old(state));
        old(state).isGeneratingVideo || cur.None? || Truthy(cur.value.generatedVideoUrl) ==>
        state == old(state) && pending == old(pending)
      ensures var cur := CurrentSession(old(state));
        !old(state).isGeneratingVideo && cur.Some? && !Truthy(cur.value.generatedVideoUrl) ==>
        && state == BeginVideo(old(state))
        && pending == old(pending) + [AwaitVideo(cur.value.id, cur.value.result.animationPrompt)]
        && PromptCaption(tabs.activeMedia, cur.value.result) == ("Animation Prompt", pending[|pending| - 1].prompt)
    {
      var cur := CurrentSession(state);
      var videoUrl := if cur.Some? then cur.value.generatedVideoUrl else None;
      var request := tabs.ClickAnimation(videoUrl, state.isGeneratingVideo);
      if request {
        GenerateVideo();
      }
    }

    /** The "Generate Animation" button: it calls handleGenerateVideo directly, but it is
        only on screen on the Animation tab when there is no video and none is in flight. */
    method ClickGenerateButton(tabs: MediaTabs)
      requires Valid()
      modifies this
      ensures Valid()
      ensures old(state).isGeneratingVideo ==> state == old(state) && pending == old(pending)
      ensures var cur := CurrentSession(old(state));
        cur.None? || !Panel(tabs.activeMedia, cur.value.generatedImageUrl, cur.value.generatedVideoUrl,
                            old(state).isGeneratingImage, old(state).isGeneratingVideo).generateButton ==>
        state == old(state) && pending == old(pending)
      ensures var cur := CurrentSession(old(state));
        cur.Some? && Panel(tabs.activeMedia, cur.value.generatedImageUrl, cur.value.generatedVideoUrl,
                           old(state).isGeneratingImage, old(state).isGeneratingVideo).generateButton ==>
        && state == BeginVideo(old(state))
        && pending == old(pending) + [AwaitVideo(cur.value.id, cur.value.result.animationPrompt)]
        && PromptCaption(tabs.activeMedia, cur.value.result) == ("Animation Prompt", pending[|pending| - 1].prompt)
    {
      var cur := CurrentSession(state);
      if cur.None? {
        return;
      }
      var panel := Panel(tabs.activeMedia, cur.value.generatedImageUrl, cur.value.generatedVideoUrl,
                         state.isGeneratingImage, state.isGeneratingVideo);
      if panel.generateButton {
        GenerateVideo();
      }
    }
  }
}
