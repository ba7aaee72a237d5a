/** The `setState` updaters of the root component (App.tsx), one pure function per updater,
    over the `AppState` record. The handlers that chain them across `await`s are in module
    App; here each updater is stated on its own, together with the well-formedness
    invariant every updater keeps, and the multi-step properties of the handlers when their
    stages run back to back. */
module AppUpdaters {
  import opened Wrappers
  import opened Types
  import opened MediaDirective

  // ---------------------------------------------------------------------------------
  // Sessions: lookup, replace-by-id, delete-by-id

  predicate HasSession(ss: seq<Session>, id: string)
  {
    exists i :: 0 <= i < |ss| && ss[i].id == id
  }

  /** Session ids come from `Date.now()`; the model takes them as parameters and keeps
      this uniqueness as an invariant whose only assumption is that a new id is fresh. */
  predicate UniqueIds(ss: seq<Session>)
  {
    forall i, j :: 0 <= i < j < |ss| ==> ss[i].id != ss[j].id
  }

  /** The first index at or after `k` holding a session with the id. */
  function FindIndex(ss: seq<Session>, id: string, k: nat): (r: Option<nat>)
    requires k <= |ss|
    ensures r.Some? ==> k <= r.value < |ss| && ss[r.value].id == id
    ensures r.Some? ==> forall j :: k <= j < r.value ==> ss[j].id != id
    ensures r.None? ==> forall j :: k <= j < |ss| ==> ss[j].id != id
    decreases |ss| - k
  {
    if k == |ss| then None
    else if ss[k].id == id then Some(k)
    else FindIndex(ss, id, k + 1)
  }

  /** `sessions.find(s => s.id === id)`: the first session carrying the id; a null id
      matches no session. */
  function FindSession(ss: seq<Session>, id: Option<string>): (r: Option<Session>)
    ensures r.None? <==> (id.None? || !HasSession(ss, id.value))
    ensures r.Some? ==> r.value in ss && id == Some(r.value.id)
  {
    match id
    case None => None
    case Some(x) =>
      match FindIndex(ss, x, 0)
      case None => None
      case Some(i) => Some(ss[i])
  }

  /** With unique ids, the lookup of a session's own id finds exactly that session. */
  lemma FindUnique(ss: seq<Session>, i: nat)
    requires UniqueIds(ss) && i < |ss|
    ensures FindSession(ss, Some(ss[i].id)) == Some(ss[i])
  {
    var r := FindIndex(ss, ss[i].id, 0);
    assert r.Some? && r.value <= i;
  }

  /** The session the result view shows: `sessions.find(s => s.id === currentSessionId)`. */
  function CurrentSession(st: AppState): Option<Session>
  {
    FindSession(st.sessions, st.currentSessionId)
  }

  /** An edit to the transcript of one session: an appended message, or the outcome of a
      chat media request applied to the last message. */
  datatype ChatEdit = Append(msg: ChatMessage) | MediaArrived(url: string) | MediaFailed

  /** What a `sessions.map(s => s.id === id ? ... : s)` does to the matching session. */
  datatype Patch =
    | Replace(session: Session)
    | SetImageUrl(imageUrl: string)
    | SetVideoUrl(videoUrl: string)
    | EditChat(edit: ChatEdit)

  const Apology: string :=
    "\n\n(Sorry, I couldn't generate the visualization at this time. Please check your API key settings.)"

  /** The in-place edit of the last message when chat media settles: success stores the
      URL, failure appends the apology; both clear the spinner flag. */
  function Finished(m: ChatMessage, e: ChatEdit): (r: ChatMessage)
    requires !e.Append?
    ensures r.role == m.role && r.mediaType == m.mediaType && r.isGeneratingMedia == Some(false)
    ensures e.MediaArrived? ==> r.mediaUrl == Some(e.url) && r.text == m.text
    ensures e.MediaFailed? ==> r.mediaUrl == m.mediaUrl && r.text == m.text + Apology
  {
    match e
    case MediaArrived(url) => m.(mediaUrl := Some(url), isGeneratingMedia := Some(false))
    case MediaFailed => m.(text := m.text + Apology, isGeneratingMedia := Some(false))
  }

  /** The chat media patch as written: it reads `newHistory[newHistory.length - 1].role`,
      which throws a TypeError (here `None`) when the transcript it is applied to is empty. */
  function PatchLastAsWritten(h: seq<ChatMessage>, e: ChatEdit): (r: Option<seq<ChatMessage>>)
    requires !e.Append?
    ensures r.None? <==> h == []
    ensures r.Some? && h[|h| - 1].role == Model ==> r.value == h[..|h| - 1] + [Finished(h[|h| - 1], e)]
    ensures r.Some? && h[|h| - 1].role == User ==> r.value == h
  {
    if h == [] then None
    else
      var last := h[|h| - 1];
      if last.role == Model then Some(h[..|h| - 1] + [Finished(last, e)]) else Some(h)
  }

  /** The chat media patch with the empty transcript treated as "no last model message":
      only the last message is touched, and only when its role is model. */
  function PatchLast(h: seq<ChatMessage>, e: ChatEdit): (r: seq<ChatMessage>)
    requires !e.Append?
    ensures |r| == |h|
    ensures forall i :: 0 <= i < |h| - 1 ==> r[i] == h[i]
    ensures h != [] && h[|h| - 1].role == Model ==> r[|h| - 1] == Finished(h[|h| - 1], e)
    ensures h == [] || h[|h| - 1].role == User ==> r == h
  {
    if h == [] then h
    else
      var last := h[|h| - 1];
      if last.role == Model then h[..|h| - 1] + [Finished(last, e)] else h
  }

  /** The corrected patch agrees with the one as written wherever that one does not throw. */
  lemma PatchLastAgrees(h: seq<ChatMessage>, e: ChatEdit)
    requires !e.Append?
    ensures PatchLastAsWritten(h, e).Some? ==> PatchLastAsWritten(h, e).value == PatchLast(h, e)
    ensures PatchLastAsWritten(h, e).None? ==> PatchLast(h, e) == []
  {
  }

  function EditHistory(h: seq<ChatMessage>, e: ChatEdit): seq<ChatMessage>
  {
    if e.Append? then h + [e.msg] else PatchLast(h, e)
  }

  function ApplyPatch(s: Session, p: Patch): Session
  {
    match p
    case Replace(u) => u
    case SetImageUrl(url) => s.(generatedImageUrl := Some(url))
    case SetVideoUrl(url) => s.(generatedVideoUrl := Some(url))
    case EditChat(e) => s.(chatHistory := EditHistory(s.chatHistory, e))
  }

  /** A patch keeps ids when it is not a replacement by a session with another id. */
  predicate KeepsId(p: Patch, id: Option<string>)
  {
    p.Replace? ==> id == Some(p.session.id)
  }

  /** `sessions.map(s => s.id === id ? patch(s) : s)`: the sessions carrying the id are
      patched, every other one is kept, and the order and number are unchanged. */
  function PatchSessions(ss: seq<Session>, id: Option<string>, p: Patch): (r: seq<Session>)
    ensures |r| == |ss|
    ensures forall i :: 0 <= i < |ss| ==> r[i] == if Some(ss[i].id) == id then ApplyPatch(ss[i], p) else ss[i]
    ensures (id.None? || !HasSession(ss, id.value)) ==> r == ss
    ensures KeepsId(p, id) ==> forall i :: 0 <= i < |ss| ==> r[i].id == ss[i].id
  {
    if ss == [] then []
    else [if Some(ss[0].id) == id then ApplyPatch(ss[0], p) else ss[0]] + PatchSessions(ss[1..], id, p)
  }

  /** `sessions.filter(s => s.id !== id)`. */
  function Without(ss: seq<Session>, id: string): (r: seq<Session>)
    ensures forall s :: s in r <==> s in ss && s.id != id
    ensures !HasSession(r, id)
    ensures !HasSession(ss, id) ==> r == ss
    ensures UniqueIds(ss) ==> UniqueIds(r)
  {
    if ss == [] then []
    else if ss[0].id == id then Without(ss[1..], id)
    else
      assert forall s :: s in Without(ss[1..], id) ==> s in ss[1..];
      [ss[0]] + Without(ss[1..], id)
  }

  /** Filtering distributes over concatenation, so the kept sessions stay in their order. */
  lemma {:induction false} WithoutAppend(a: seq<Session>, b: seq<Session>, id: string)
    ensures Without(a + b, id) == Without(a, id) + Without(b, id)
  {
    if a == [] {
      assert a + b == b;
    } else {
      assert (a + b)[0] == a[0];
      assert (a + b)[1..] == a[1..] + b;
      WithoutAppend(a[1..], b, id);
    }
  }

  // ---------------------------------------------------------------------------------
  // The invariant

  /** Message shapes the updaters produce: user messages carry no media fields, and a
      message showing a spinner is a model reply that says which medium it awaits. */
  predicate MessageWellformed(m: ChatMessage)
  {
    && (m.role == User ==> m.mediaUrl.None? && m.mediaType.None? && m.isGeneratingMedia.None?)
    && (m.isGeneratingMedia == Some(true) ==> m.role == Model && m.mediaType.Some?)
  }

  predicate SessionWellformed(s: Session)
  {
    forall k :: 0 <= k < |s.chatHistory| ==> MessageWellformed(s.chatHistory[k])
  }

  /** Unique ids, a selection that names an existing session, and well-formed transcripts. */
  predicate Wellformed(st: AppState)
  {
    && UniqueIds(st.sessions)
    && (st.currentSessionId.Some? ==> HasSession(st.sessions, st.currentSessionId.value))
    && (forall i :: 0 <= i < |st.sessions| ==> SessionWellformed(st.sessions[i]))
  }

  predicate EditWellformed(e: ChatEdit)
  {
    e.Append? ==> MessageWellformed(e.msg)
  }

  /** A well-formed edit keeps a transcript well-formed. */
  lemma EditKeepsWellformed(s: Session, e: ChatEdit)
    requires SessionWellformed(s) && EditWellformed(e)
    ensures SessionWellformed(s.(chatHistory := EditHistory(s.chatHistory, e)))
  {
    var h := s.chatHistory;
    var h' := EditHistory(h, e);
    forall k | 0 <= k < |h'| ensures MessageWellformed(h'[k]) {
      if k < |h| - 1 || k >= |h| || h[|h| - 1].role == User {
      } else {
        assert MessageWellformed(h[k]);
      }
    }
  }

  /** Patching by id with an id-keeping, well-formed patch keeps the sessions well-formed. */
  lemma PatchKeepsWellformed(st: AppState, id: Option<string>, p: Patch)
    requires Wellformed(st) && KeepsId(p, id)
    requires p.Replace? ==> SessionWellformed(p.session)
    requires p.EditChat? ==> EditWellformed(p.edit)
    ensures Wellformed(st.(sessions := PatchSessions(st.sessions, id, p)))
  {
    var ss := PatchSessions(st.sessions, id, p);
    forall i | 0 <= i < |ss| ensures SessionWellformed(ss[i]) {
      if Some(st.sessions[i].id) == id && p.EditChat? {
        EditKeepsWellformed(st.sessions[i], p.edit);
      }
    }
    if st.currentSessionId.Some? {
      var j :| 0 <= j < |st.sessions| && st.sessions[j].id == st.currentSessionId.value;
      assert ss[j].id == st.currentSessionId.value;
    }
  }

  // ---------------------------------------------------------------------------------
  // The updaters, in handler order

  /** handleSessionSelect: select the id and reset the input buffer, the error and three
      of the four in-flight flags (`isChatting` is left as it is). */
  function Select(st: AppState, id: string): (r: AppState)
    ensures r.currentSessionId == Some(id) && r.inputText == "" && r.inputImage.None? && r.error.None?
    ensures !r.isAnalyzing && !r.isGeneratingImage && !r.isGeneratingVideo
    ensures r.sessions == st.sessions && r.level == st.level && r.isChatting == st.isChatting
    ensures Wellformed(st) && HasSession(st.sessions, id) ==> Wellformed(r)
  {
    st.(currentSessionId := Some(id), inputText := "", inputImage := None, error := None,
        isAnalyzing := false, isGeneratingImage := false, isGeneratingVideo := false)
  }

  /** handleDeleteSession: drop exactly the sessions with the id, and clear the selection
      exactly when it was that id. */
  function Delete(st: AppState, id: string): (r: AppState)
    ensures forall s :: s in r.sessions <==> s in st.sessions && s.id != id
    ensures r.sessions == Without(st.sessions, id)
    ensures st.currentSessionId == Some(id) ==> r.currentSessionId.None?
    ensures st.currentSessionId != Some(id) ==> r.currentSessionId == st.currentSessionId
    ensures r == st.(sessions := r.sessions, currentSessionId := r.currentSessionId)
    ensures Wellformed(st) ==> Wellformed(r)
  {
    var kept := Without(st.sessions, id);
    var r := st.(sessions := kept, currentSessionId := if st.currentSessionId == Some(id) then None else st.currentSessionId);
    assert Wellformed(st) ==> Wellformed(r) by {
      if Wellformed(st) {
        if r.currentSessionId.Some? {
          var j :| 0 <= j < |st.sessions| && st.sessions[j].id == st.currentSessionId.value;
          assert st.sessions[j] in kept;
        }
        forall i | 0 <= i < |kept| ensures SessionWellformed(kept[i]) {
          assert kept[i] in st.sessions;
        }
      }
    }
    r
  }

  /** handleLevelSelect: only the level for new analyses changes. */
  function SelectLevel(st: AppState, level: EducationLevel): (r: AppState)
    ensures r.level == level && r.(level := st.level) == st
    ensures Wellformed(st) ==> Wellformed(r)
  {
    st.(level := level)
  }

  /** handleLevelChange, first stage: mark the analysis in flight and clear the error. */
  function BeginLevelChange(st: AppState): (r: AppState)
    ensures r.isAnalyzing && r.error.None?
    ensures r.(isAnalyzing := st.isAnalyzing, error := st.error) == st
    ensures Wellformed(st) ==> Wellformed(r)
  {
    st.(isAnalyzing := true, error := None)
  }

  /** The session rebuilt after a re-analysis: the captured session with the new level,
      the new result and a new timestamp; media and chat are reset, the id and the input
      are kept. */
  function Reanalyzed(cur: Session, newLevel: EducationLevel, result: AnalysisResult, timestamp: int)
    : (u: Session)
    ensures u.id == cur.id && u.inputText == cur.inputText && u.inputImage == cur.inputImage
    ensures u.level == newLevel && u.result == result && u.timestamp == timestamp
    ensures u.generatedImageUrl.None? && u.generatedVideoUrl.None? && u.chatHistory == []
    ensures SessionWellformed(u)
  {
    cur.(level := newLevel, result := result, timestamp := timestamp,
         generatedImageUrl := None, generatedVideoUrl := None, chatHistory := [])
  }

  /** handleLevelChange after the analysis: replace the session with the id by the rebuilt
      one, set the global level, and start the image. */
  function LevelAnalyzed(st: AppState, id: string, updated: Session, newLevel: EducationLevel): (r: AppState)
    ensures |r.sessions| == |st.sessions|
    ensures forall i :: 0 <= i < |st.sessions| ==>
      r.sessions[i] == if st.sessions[i].id == id then updated else st.sessions[i]
    ensures !r.isAnalyzing && r.isGeneratingImage && r.level == newLevel
    ensures r.currentSessionId == st.currentSessionId && r.error == st.error
    ensures r == st.(sessions := r.sessions, isAnalyzing := false, isGeneratingImage := true, level := newLevel)
    ensures Wellformed(st) && updated.id == id && SessionWellformed(updated) ==> Wellformed(r)
  {
    var r := st.(isAnalyzing := false, sessions := PatchSessions(st.sessions, Some(id), Replace(updated)),
                 level := newLevel, isGeneratingImage := true);
    assert Wellformed(st) && updated.id == id && SessionWellformed(updated) ==> Wellformed(r) by {
      if Wellformed(st) && updated.id == id && SessionWellformed(updated) {
        PatchKeepsWellformed(st, Some(id), Replace(updated));
      }
    }
    r
  }

  /** Image generation settled successfully: store the URL on the sessions with the id and
      clear the flag. */
  function ImageArrived(st: AppState, id: string, url: string): (r: AppState)
    ensures !r.isGeneratingImage && |r.sessions| == |st.sessions|
    ensures forall i :: 0 <= i < |st.sessions| ==>
      r.sessions[i] == if st.sessions[i].id == id then st.sessions[i].(generatedImageUrl := Some(url)) else st.sessions[i]
    ensures r == st.(sessions := r.sessions, isGeneratingImage := false)
    ensures Wellformed(st) ==> Wellformed(r)
  {
    var r := st.(isGeneratingImage := false, sessions := PatchSessions(st.sessions, Some(id), SetImageUrl(url)));
    assert Wellformed(st) ==> Wellformed(r) by {
      if Wellformed(st) { PatchKeepsWellformed(st, Some(id), SetImageUrl(url)); }
    }
    r
  }

  /** Image generation failed: only the flag is cleared; no error is shown. */
  function ImageFailed(st: AppState): (r: AppState)
    ensures !r.isGeneratingImage && r.error == st.error && r.sessions == st.sessions
    ensures r == st.(isGeneratingImage := false)
    ensures Wellformed(st) ==> Wellformed(r)
  {
    st.(isGeneratingImage := false)
  }

  const AnalyzeError: string := "Something went wrong. Please ensure your API key is set and try again."
  const LevelChangeError: string := "Failed to update level. Please try again."

  /** The catch of an analysis (new or level change): the sessions and the selection stay,
      both analysis flags are cleared and the error is shown. */
  function AnalysisFailed(st: AppState, message: string): (r: AppState)
    ensures r.sessions == st.sessions && r.currentSessionId == st.currentSessionId && r.level == st.level
    ensures !r.isAnalyzing && !r.isGeneratingImage && r.error == Some(message)
    ensures r == st.(isAnalyzing := false, isGeneratingImage := false, error := Some(message))
    ensures Wellformed(st) ==> Wellformed(r)
  {
    st.(isAnalyzing := false, isGeneratingImage := false, error := Some(message))
  }

  /** handleAnalyze, first stage: store the input, mark the analysis in flight, clear the
      error. */
  function BeginAnalyze(st: AppState, text: string, image: Option<string>): (r: AppState)
    ensures r.inputText == text && r.inputImage == image && r.isAnalyzing && r.error.None?
    ensures r.sessions == st.sessions && r.currentSessionId == st.currentSessionId && r.level == st.level
    ensures r == st.(inputText := text, inputImage := image, isAnalyzing := true, error := None)
    ensures Wellformed(st) ==> Wellformed(r)
  {
    st.(inputText := text, inputImage := image, isAnalyzing := true, error := None)
  }

  /** The session a successful analysis creates: empty chat, no media. */
  function NewSessionRecord(id: string, timestamp: int, level: EducationLevel, text: string,
                            image: Option<string>, result: AnalysisResult): (s: Session)
    ensures s.id == id && s.timestamp == timestamp && s.level == level
    ensures s.inputText == text && s.inputImage == image && s.result == result
    ensures s.chatHistory == [] && s.generatedImageUrl.None? && s.generatedVideoUrl.None?
    ensures SessionWellformed(s)
  {
    Session(id, timestamp, level, text, image, result, [], None, None)
  }

  /** handleAnalyze after the analysis: append the new session, select it, and start the
      image. */
  function SessionCreated(st: AppState, s: Session): (r: AppState)
    ensures r.sessions == st.sessions + [s] && r.currentSessionId == Some(s.id)
    ensures !r.isAnalyzing && r.isGeneratingImage
    ensures r == st.(isAnalyzing := false, sessions := st.sessions + [s], currentSessionId := Some(s.id),
                     isGeneratingImage := true)
    ensures Wellformed(st) && !HasSession(st.sessions, s.id) && SessionWellformed(s) ==> Wellformed(r)
  {
    var ss := st.sessions + [s];
    assert ss[|st.sessions|].id == s.id;
    assert forall i :: 0 <= i < |st.sessions| ==> ss[i] == st.sessions[i];
    st.(isAnalyzing := false, sessions := ss, currentSessionId := Some(s.id), isGeneratingImage := true)
  }

  /** handleGenerateVideo, first stage: only the video flag is set; the error is kept. */
  function BeginVideo(st: AppState): (r: AppState)
    ensures r.isGeneratingVideo && r.error == st.error
    ensures r == st.(isGeneratingVideo := true)
    ensures Wellformed(st) ==> Wellformed(r)
  {
    st.(isGeneratingVideo := true)
  }

  /** The video settled successfully: store its URL on the sessions with the id. */
  function VideoArrived(st: AppState, id: string, url: string): (r: AppState)
    ensures !r.isGeneratingVideo && |r.sessions| == |st.sessions|
    ensures forall i :: 0 <= i < |st.sessions| ==>
      r.sessions[i] == if st.sessions[i].id == id then st.sessions[i].(generatedVideoUrl := Some(url)) else st.sessions[i]
    ensures r == st.(sessions := r.sessions, isGeneratingVideo := false)
    ensures Wellformed(st) ==> Wellformed(r)
  {
    var r := st.(isGeneratingVideo := false, sessions := PatchSessions(st.sessions, Some(id), SetVideoUrl(url)));
    assert Wellformed(st) ==> Wellformed(r) by {
      if Wellformed(st) { PatchKeepsWellformed(st, Some(id), SetVideoUrl(url)); }
    }
    r
  }

  const VideoError: string := "Failed to generate video. Please make sure you selected a valid paid API key."

  /** The video failed: clear the flag and show the error; the sessions stay. */
  function VideoFailed(st: AppState): (r: AppState)
    ensures !r.isGeneratingVideo && r.error == Some(VideoError) && r.sessions == st.sessions
    ensures r == st.(isGeneratingVideo := false, error := Some(VideoError))
    ensures Wellformed(st) ==> Wellformed(r)
  {
    st.(isGeneratingVideo := false, error := Some(VideoError))
  }

  /** `updateSessionChat`: the edit goes to the session selected when the updater runs
      (`prev.currentSessionId`), whichever session the message came from. */
  function EditCurrentChat(st: AppState, e: ChatEdit): (r: AppState)
    ensures |r.sessions| == |st.sessions|
    ensures forall i :: 0 <= i < |st.sessions| ==>
      r.sessions[i] == if Some(st.sessions[i].id) == st.currentSessionId
                       then st.sessions[i].(chatHistory := EditHistory(st.sessions[i].chatHistory, e))
                       else st.sessions[i]
    ensures r == st.(sessions := r.sessions)
    ensures Wellformed(st) && EditWellformed(e) ==> Wellformed(r)
  {
    var r := st.(sessions := PatchSessions(st.sessions, st.currentSessionId, EditChat(e)));
    assert Wellformed(st) && EditWellformed(e) ==> Wellformed(r) by {
      if Wellformed(st) && EditWellformed(e) { PatchKeepsWellformed(st, st.currentSessionId, EditChat(e)); }
    }
    r
  }

  /** `sessions.map(s => s.id === id ? { ...s, chatHistory: patch(s.chatHistory) } : s)`
      with the chat media patch as written: the map throws (`None`) when a session it
      patches has an empty transcript, and otherwise agrees with the corrected patch. */
  function PatchChatsAsWritten(ss: seq<Session>, id: Option<string>, e: ChatEdit): (r: Option<seq<Session>>)
    requires !e.Append?
    ensures r.None? <==> exists i :: 0 <= i < |ss| && Some(ss[i].id) == id && ss[i].chatHistory == []
    ensures r.Some? ==> r.value == PatchSessions(ss, id, EditChat(e))
  {
    if ss == [] then Some([])
    else
      var rest := PatchChatsAsWritten(ss[1..], id, e);
      assert forall i :: 1 <= i < |ss| ==> ss[i] == ss[1..][i - 1];
      if Some(ss[0].id) != id then
        if rest.None? then None else Some([ss[0]] + rest.value)
      else
        var h := PatchLastAsWritten(ss[0].chatHistory, e);
        PatchLastAgrees(ss[0].chatHistory, e);
        if h.None? || rest.None? then None
        else Some([ss[0].(chatHistory := h.value)] + rest.value)
  }

  /** `updateSessionChat` with the chat media patch as written: `None` for the TypeError,
      thrown exactly when a session carrying the selected id has an empty transcript. */
  function EditCurrentChatAsWritten(st: AppState, e: ChatEdit): (r: Option<AppState>)
    requires !e.Append?
    ensures r.None? <==> exists i :: 0 <= i < |st.sessions| && Some(st.sessions[i].id) == st.currentSessionId
                                      && st.sessions[i].chatHistory == []
    ensures r.Some? ==> r.value == EditCurrentChat(st, e)
  {
    match PatchChatsAsWritten(st.sessions, st.currentSessionId, e)
    case None => None
    case Some(ss) => Some(st.(sessions := ss))
  }

  /** In a well-formed state the media patch as written throws exactly when a session is
      selected and its transcript is empty. */
  lemma MediaPatchThrowsIffCurrentChatEmpty(st: AppState, e: ChatEdit)
    requires Wellformed(st) && !e.Append?
    ensures EditCurrentChatAsWritten(st, e).None? <==>
            CurrentSession(st).Some? && CurrentSession(st).value.chatHistory == []
  {
    if st.currentSessionId.Some? {
      var k := FindIndex(st.sessions, st.currentSessionId.value, 0);
      assert k.Some?;
      forall i | 0 <= i < |st.sessions| && Some(st.sessions[i].id) == st.currentSessionId
        ensures st.sessions[i] == st.sessions[k.value]
      {
      }
    }
  }

  /** Setting the chat flag, before the call and after the reply; the error is kept. */
  function SetChatting(st: AppState, chatting: bool): (r: AppState)
    ensures r.isChatting == chatting && r.error == st.error
    ensures r == st.(isChatting := chatting)
    ensures Wellformed(st) ==> Wellformed(r)
  {
    st.(isChatting := chatting)
  }

  const ChatError: string := "Failed to get a response. Please try again."

  /** The chat call failed: clear the flag and show the error; the transcript, including
      the user message already appended, stays. */
  function ChatFailed(st: AppState): (r: AppState)
    ensures !r.isChatting && r.error == Some(ChatError) && r.sessions == st.sessions
    ensures r == st.(isChatting := false, error := Some(ChatError))
    ensures Wellformed(st) ==> Wellformed(r)
  {
    st.(isChatting := false, error := Some(ChatError))
  }

  /** handleNewSession: clear the selection, the error and the input buffer. The in-flight
      flags are not reset; the extra keys the updater spreads in are not part of `AppState`
      and are never read. */
  function NewSession(st: AppState): (r: AppState)
    ensures r.currentSessionId.None? && r.error.None? && r.inputText == "" && r.inputImage.None?
    ensures r.sessions == st.sessions && r.level == st.level
    ensures r.isAnalyzing == st.isAnalyzing && r.isGeneratingImage == st.isGeneratingImage
    ensures r.isGeneratingVideo == st.isGeneratingVideo && r.isChatting == st.isChatting
    ensures Wellformed(st) ==> Wellformed(r)
  {
    st.(currentSessionId := None, error := None, inputText := "", inputImage := None)
  }

  /** `{ role: 'user', text: message }`. */
  function UserMessage(text: string): (m: ChatMessage)
    ensures m.role == User && m.text == text && MessageWellformed(m)
  {
    ChatMessage(User, text, None, None, None)
  }

  /** The model reply built from a parsed response: the spinner flag is `!!mediaPrompt`, so
      it is set exactly when a directive matched with a non-empty prompt, and the media type
      is the directive's kind whenever one matched. */
  function ModelMessage(p: Parsed): (m: ChatMessage)
    ensures m.role == Model && m.text == p.cleanText && m.mediaUrl.None?
    ensures m.isGeneratingMedia == Some(p.intent.Some? && p.intent.value.prompt != "")
    ensures m.mediaType == if p.intent.Some? then Some(p.intent.value.kind) else None
    ensures MessageWellformed(m)
  {
    ChatMessage(Model, p.cleanText, None, if p.intent.Some? then Some(p.intent.value.kind) else None,
                Some(p.intent.Some? && p.intent.value.prompt != ""))
  }

  /** Chat media is requested exactly when the spinner flag of the reply is set. */
  function MediaRequest(p: Parsed): (r: Option<Intent>)
    ensures r.Some? <==> ModelMessage(p).isGeneratingMedia == Some(true)
    ensures r.Some? ==> r.value == p.intent.value && r.value.prompt != ""
  {
    if p.intent.Some? && p.intent.value.prompt != "" then p.intent else None
  }

  // ---------------------------------------------------------------------------------
  // Handlers whose stages run back to back

  /** After a patch that keeps ids, the lookup of an id finds the patched session. */
  lemma FindAfterPatch(ss: seq<Session>, i: nat, p: Patch)
    requires UniqueIds(ss) && i < |ss| && KeepsId(p, Some(ss[i].id))
    ensures FindSession(PatchSessions(ss, Some(ss[i].id), p), Some(ss[i].id)) == Some(ApplyPatch(ss[i], p))
  {
    var r := PatchSessions(ss, Some(ss[i].id), p);
    assert UniqueIds(r) by {
      forall a, b | 0 <= a < b < |r| ensures r[a].id != r[b].id {
        assert r[a].id == ss[a].id && r[b].id == ss[b].id;
      }
    }
    FindUnique(r, i);
  }

  /** A successful analysis followed by a successful image: exactly one session is
      appended at the end, selected, with empty chat, no video and the image URL; every
      earlier session is unchanged. */
  lemma AnalyzeThenImage(st: AppState, text: string, image: Option<string>, id: string, timestamp: int,
                         result: AnalysisResult, url: string)
    requires !HasSession(st.sessions, id)
    ensures var s1 := SessionCreated(BeginAnalyze(st, text, image),
                                     NewSessionRecord(id, timestamp, st.level, text, image, result));
            var s2 := ImageArrived(s1, id, url);
            && s2.sessions == st.sessions + [NewSessionRecord(id, timestamp, st.level, text, image, result).(generatedImageUrl := Some(url))]
            && s2.currentSessionId == Some(id)
            && !s2.isAnalyzing && !s2.isGeneratingImage && s2.error.None?
  {
    var rec := NewSessionRecord(id, timestamp, st.level, text, image, result);
    var s1 := SessionCreated(BeginAnalyze(st, text, image), rec);
    var s2 := ImageArrived(s1, id, url);
    var want := st.sessions + [rec.(generatedImageUrl := Some(url))];
    assert |s2.sessions| == |want|;
    forall i | 0 <= i < |want| ensures s2.sessions[i] == want[i] {
      if i < |st.sessions| {
        assert st.sessions[i].id != id;
      }
    }
  }

  /** A successful analysis whose image fails: the session is appended and selected without
      an image, the flag is cleared, and no error is shown. */
  lemma AnalyzeThenImageFails(st: AppState, text: string, image: Option<string>, id: string, timestamp: int,
                              result: AnalysisResult)
    ensures var rec := NewSessionRecord(id, timestamp, st.level, text, image, result);
            var s2 := ImageFailed(SessionCreated(BeginAnalyze(st, text, image), rec));
            && s2.sessions == st.sessions + [rec] && s2.currentSessionId == Some(id)
            && !s2.isAnalyzing && !s2.isGeneratingImage && s2.error.None?
  {
  }

  /** A failed analysis, new or level change, leaves the sessions and the selection as they
      were before the handler ran. */
  lemma FailedAnalysisKeepsSessions(st: AppState, text: string, image: Option<string>)
    ensures var s := AnalysisFailed(BeginAnalyze(st, text, image), AnalyzeError);
            s.sessions == st.sessions && s.currentSessionId == st.currentSessionId
            && !s.isAnalyzing && !s.isGeneratingImage && s.error == Some(AnalyzeError)
    ensures var s := AnalysisFailed(BeginLevelChange(st), LevelChangeError);
            s.sessions == st.sessions && s.currentSessionId == st.currentSessionId
            && !s.isAnalyzing && !s.isGeneratingImage && s.error == Some(LevelChangeError)
  {
  }

  /** A successful level change on the session at index i: only that session is replaced,
      by one with the new level and result, no media and an empty chat, and the current
      session afterwards is the rebuilt one. */
  lemma LevelChangeResets(st: AppState, i: nat, newLevel: EducationLevel, result: AnalysisResult, timestamp: int)
    requires Wellformed(st) && i < |st.sessions| && st.currentSessionId == Some(st.sessions[i].id)
    ensures var cur := st.sessions[i];
            var s := LevelAnalyzed(BeginLevelChange(st), cur.id, Reanalyzed(cur, newLevel, result, timestamp), newLevel);
            && |s.sessions| == |st.sessions|
            && (forall j :: 0 <= j < |st.sessions| && j != i ==> s.sessions[j] == st.sessions[j])
            && CurrentSession(s) == Some(Reanalyzed(cur, newLevel, result, timestamp))
            && s.level == newLevel && s.isGeneratingImage && !s.isAnalyzing && s.error.None?
            && Wellformed(s)
  {
    var cur := st.sessions[i];
    var u := Reanalyzed(cur, newLevel, result, timestamp);
    var s := LevelAnalyzed(BeginLevelChange(st), cur.id, u, newLevel);
    forall j | 0 <= j < |st.sessions| && j != i ensures s.sessions[j] == st.sessions[j] {
      assert st.sessions[j].id != cur.id;
    }
    FindAfterPatch(st.sessions, i, Replace(u));
  }

  /** Sending a message whose call fails: the user message is appended to the current
      transcript and survives, the chat flag ends cleared and the error is shown. */
  lemma UserMessageSurvivesFailedChat(st: AppState, i: nat, message: string)
    requires Wellformed(st) && i < |st.sessions| && st.currentSessionId == Some(st.sessions[i].id)
    ensures var s := ChatFailed(SetChatting(EditCurrentChat(st, Append(UserMessage(message))), true));
            && CurrentSession(s).Some?
            && CurrentSession(s).value.chatHistory == st.sessions[i].chatHistory + [UserMessage(message)]
            && !s.isChatting && s.error == Some(ChatError)
  {
    FindAfterPatch(st.sessions, i, EditChat(Append(UserMessage(message))));
  }

  /** The spinner of an earlier reply can outlive its request: when a later model reply is
      last, the media patch lands on that reply and the earlier one keeps spinning. */
  lemma MediaPatchCanMissItsMessage(first: ChatMessage, question: string, reply: ChatMessage, url: string)
    requires first.role == Model && first.isGeneratingMedia == Some(true) && reply.role == Model
    ensures var h := PatchLast([first, UserMessage(question), reply], MediaArrived(url));
            h[0].isGeneratingMedia == Some(true) && h[2].mediaUrl == Some(url)
  {
  }

  /** The transcript the media patch runs on can be empty: a parsed reply whose directive
      queues chat media arrives for one session, the user selects a session with no chat before
      the media settles, and the patch as written reads the last element of an empty list. */
  lemma EmptyTranscriptReachesMediaPatch(st: AppState, i: nat, j: nat, parsed: Parsed, url: string)
    requires Wellformed(st) && i < |st.sessions| && j < |st.sessions| && i != j && st.sessions[j].chatHistory == []
    requires st.currentSessionId == Some(st.sessions[i].id)
    requires MediaRequest(parsed).Some?
    ensures var s := Select(SetChatting(EditCurrentChat(st, Append(ModelMessage(parsed))), false), st.sessions[j].id);
            && CurrentSession(s) == Some(st.sessions[j])
            && PatchLastAsWritten(CurrentSession(s).value.chatHistory, MediaArrived(url)).None?
            && EditCurrentChatAsWritten(s, MediaArrived(url)).None?
  {
    var s0 := EditCurrentChat(st, Append(ModelMessage(parsed)));
    assert st.sessions[i].id != st.sessions[j].id;
    assert UniqueIds(s0.sessions);
    FindUnique(s0.sessions, j);
    var s := Select(SetChatting(s0, false), st.sessions[j].id);
    assert s.sessions[j].chatHistory == [];
  }
}
