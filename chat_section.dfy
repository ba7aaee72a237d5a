/** The chat panel (components/ChatSection.tsx): the input box with its submit guard, and
    the per-message render decisions. */
module ChatSection {
  import opened Wrappers
  import opened JsString
  import opened Types
  import opened AppUpdaters

  /** The send button is disabled when the trimmed input is empty or a reply is pending. */
  predicate SendDisabled(input: string, isChatting: bool)
  {
    Trim(input) == [] || isChatting
  }

  /** A whitespace-only box cannot send, whatever the chat flag is. */
  lemma BlankInputCannotSend(input: string, isChatting: bool)
    requires AllWhitespace(input)
    ensures SendDisabled(input, isChatting)
  {
    TrimEmptyIffAllWhitespace(input);
  }

  /** Text with a character that is not whitespace can be sent whenever no reply is pending. */
  lemma VisibleInputCanSend(input: string, k: nat)
    requires k < |input| && !IsWhitespace(input[k])
    ensures !SendDisabled(input, false)
  {
    TrimEmptyIffAllWhitespace(input);
  }

  /** The state of the chat panel: the text in the input box. */
  class ChatBox {
    var input: string

    constructor()
      ensures input == ""
    {
      input := "";
    }

    /** `onChange`: the box holds what was typed. */
    method Type(value: string)
      modifies this
      ensures input == value
    {
      input := value;
    }

    /** `handleSubmit`: a disabled submit does nothing; otherwise the untrimmed input is
        handed to `onSendMessage` and the box is cleared. */
    method Submit(isChatting: bool) returns (sent: Option<string>)
      modifies this
      ensures sent.None? <==> SendDisabled(old(input), isChatting)
      ensures sent.Some? ==> sent.value == old(input) && input == ""
      ensures sent.None? ==> input == old(input)
    {
      if Trim(input) == [] || isChatting {
        return None;
      }
      sent := Some(input);
      input := "";
    }
  }

  /** What one transcript entry renders. */
  datatype MessageView = MessageView(
    fromUser: bool,
    textBubble: bool,
    spinner: Option<MediaType>,
    media: Option<MediaType>)

  /** The text bubble needs non-empty text; the spinner shows while `isGeneratingMedia` is
      set and names a video only for `mediaType` video; media renders when there is a URL,
      as a video exactly when `mediaType` is video and as an image otherwise. */
  function ViewOf(m: ChatMessage): (v: MessageView)
    ensures v.fromUser <==> m.role == User
    ensures v.textBubble <==> m.text != ""
    ensures v.spinner.Some? <==> m.isGeneratingMedia == Some(true)
    ensures v.spinner.Some? ==> (v.spinner.value == Video <==> m.mediaType == Some(Video))
    ensures v.media.Some? <==> Truthy(m.mediaUrl)
    ensures v.media.Some? ==> (v.media.value == Video <==> m.mediaType == Some(Video))
  {
    var kind := if m.mediaType == Some(Video) then Video else Image;
    MessageView(m.role == User, m.text != "",
                if m.isGeneratingMedia == Some(true) then Some(kind) else None,
                if Truthy(m.mediaUrl) then Some(kind) else None)
  }

  /** The whole transcript: the hint appears only for an empty history, the typing
      indicator while a reply is pending, and one view per message in order. */
  datatype TranscriptView = TranscriptView(emptyHint: bool, messages: seq<MessageView>, typing: bool)

  function Transcript(history: seq<ChatMessage>, isChatting: bool): TranscriptView
  {
    TranscriptView(history == [], seq(|history|, k requires 0 <= k < |history| => ViewOf(history[k])), isChatting)
  }

  /** Appending a message adds exactly its view after the views already shown, and the
      empty-chat hint is gone. */
  lemma TranscriptOfAppend(history: seq<ChatMessage>, m: ChatMessage, isChatting: bool)
    ensures var v := Transcript(history + [m], isChatting);
            && v.messages == Transcript(history, isChatting).messages + [ViewOf(m)]
            && !v.emptyHint && v.typing == isChatting
  {
    var a := Transcript(history + [m], isChatting).messages;
    var b := Transcript(history, isChatting).messages + [ViewOf(m)];
    assert |a| == |b|;
    forall k | 0 <= k < |a| ensures a[k] == b[k] {
      if k < |history| {
        assert (history + [m])[k] == history[k];
      }
    }
  }

  /** In a well-formed transcript a user message never shows a spinner or media, and a
      spinner is shown only on a model reply. */
  lemma UserMessagesShowText(s: Session, k: nat)
    requires SessionWellformed(s) && k < |s.chatHistory|
    ensures var v := ViewOf(s.chatHistory[k]);
            (v.fromUser ==> v.spinner.None? && v.media.None?) && (v.spinner.Some? ==> !v.fromUser)
  {
    assert MessageWellformed(s.chatHistory[k]);
  }
}
