/** The AI gateway (services/gemini.ts): the pure request-building and response-reading
    logic around the SDK. Every SDK call is an oracle: the caller hands in what the call
    returned (or the error it rejected with). */
module Gemini {
  import opened Wrappers
  import opened Types

  // ---------------------------------------------------------------------------------
  // Data URL headers of uploaded images

  const DataImage: string := "data:image/"
  const Base64Marker: string := ";base64,"

  /** The formats `stripBase64Prefix` recognises, in the order of its alternation. */
  datatype StrippedFormat = Png | Jpeg | Jpg | Webp
  {
    function Name(): string
    {
      match this
      case Png => "png"
      case Jpeg => "jpeg"
      case Jpg => "jpg"
      case Webp => "webp"
    }
  }

  function Header(name: string): string
  {
    DataImage + name + Base64Marker
  }

  predicate StartsWith(s: string, prefix: string)
  {
    |prefix| <= |s| && s[..|prefix|] == prefix
  }

  /** At most one header with a name made of letters starts a given string: the `;`
      after a name cannot be a letter of a longer one. */
  lemma HeaderNamesAgree(s: string, a: string, b: string)
    requires AllAsciiLetters(a) && AllAsciiLetters(b)
    requires StartsWith(s, Header(a)) && StartsWith(s, Header(b))
    ensures a == b
  {
    var n := |DataImage|;
    assert forall k :: 0 <= k < |a| ==> s[n + k] == Header(a)[n + k] == a[k];
    assert forall k :: 0 <= k < |b| ==> s[n + k] == Header(b)[n + k] == b[k];
    assert s[n + |a|] == ';' && s[n + |b|] == ';';
  }

  lemma StrippedNamesAreLetters()
    ensures forall f: StrippedFormat :: AllAsciiLetters(f.Name())
  {
  }

  /** `stripBase64Prefix`: removes a leading `data:image/(png|jpeg|jpg|webp);base64,` and
      leaves every other string as it is. */
  function StripBase64Prefix(s: string): (r: string)
    ensures forall f: StrippedFormat :: StartsWith(s, Header(f.Name())) ==> r == s[|Header(f.Name())|..]
    ensures (forall f: StrippedFormat :: !StartsWith(s, Header(f.Name()))) ==> r == s
  {
    StrippedNamesAreLetters();
    assert forall f: StrippedFormat, g: StrippedFormat ::
      StartsWith(s, Header(f.Name())) && StartsWith(s, Header(g.Name())) ==> f.Name() == g.Name() by {
      forall f: StrippedFormat, g: StrippedFormat | StartsWith(s, Header(f.Name())) && StartsWith(s, Header(g.Name()))
        ensures f.Name() == g.Name()
      {
        HeaderNamesAgree(s, f.Name(), g.Name());
      }
    }
    if StartsWith(s, Header(Png.Name())) then s[|Header(Png.Name())|..]
    else if StartsWith(s, Header(Jpeg.Name())) then s[|Header(Jpeg.Name())|..]
    else if StartsWith(s, Header(Jpg.Name())) then s[|Header(Jpg.Name())|..]
    else if StartsWith(s, Header(Webp.Name())) then s[|Header(Webp.Name())|..]
    else s
  }

  predicate IsAsciiLetter(c: char)
  {
    'a' <= c <= 'z' || 'A' <= c <= 'Z'
  }

  predicate AllAsciiLetters(s: string)
  {
    forall k :: 0 <= k < |s| ==> IsAsciiLetter(s[k])
  }

  /** `[a-zA-Z]+` taken greedily from `i`: the end of the run of letters. */
  function LetterRunEnd(s: string, i: nat): (j: nat)
    requires i <= |s|
    ensures i <= j <= |s| && AllAsciiLetters(s[i..j])
    ensures j == |s| || !IsAsciiLetter(s[j])
    decreases |s| - i
  {
    if i < |s| && IsAsciiLetter(s[i]) then LetterRunEnd(s, i + 1) else i
  }

  /** `getMimeType`: the `image/<letters>` of a leading `data:image/<letters>;base64,`
      header, and `image/jpeg` for anything else. */
  function GetMimeType(s: string): (r: string)
    ensures r == "image/jpeg" || exists letters ::
      (letters != [] && AllAsciiLetters(letters) && r == "image/" + letters && StartsWith(s, Header(letters)))
  {
    if StartsWith(s, DataImage) then
      var e := LetterRunEnd(s, |DataImage|);
      if e > |DataImage| && StartsWith(s[e..], Base64Marker) then
        var letters := s[|DataImage|..e];
        assert s[..|Header(letters)|] == s[..e] + s[e..][..|Base64Marker|];
        "image/" + letters
      else "image/jpeg"
    else "image/jpeg"
  }

  /** Every non-empty run of letters in a header is reported as the MIME subtype. */
  lemma MimeTypeOfHeader(letters: string, data: string)
    requires letters != [] && AllAsciiLetters(letters)
    ensures GetMimeType(Header(letters) + data) == "image/" + letters
  {
    var s := Header(letters) + data;
    var n := |DataImage|;
    assert s[..n] == DataImage;
    assert s[n..n + |letters|] == letters;
    assert s[n + |letters|] == ';';
    LetterRunAt(s, n, n + |letters|);
    assert s[n + |letters|..][..|Base64Marker|] == Base64Marker;
  }

  lemma {:induction false} LetterRunAt(s: string, i: nat, j: nat)
    requires i <= j < |s| && AllAsciiLetters(s[i..j]) && !IsAsciiLetter(s[j])
    ensures LetterRunEnd(s, i) == j
    decreases j - i
  {
    if i < j {
      assert IsAsciiLetter(s[i..j][0]);
      assert s[i + 1..j] == s[i..j][1..];
      LetterRunAt(s, i + 1, j);
    }
  }

  /** Where `stripBase64Prefix` removes a header, `getMimeType` names that same format. */
  lemma StripAndMimeAgree(f: StrippedFormat, data: string)
    ensures StripBase64Prefix(Header(f.Name()) + data) == data
    ensures GetMimeType(Header(f.Name()) + data) == "image/" + f.Name()
  {
    var s := Header(f.Name()) + data;
    assert s[..|Header(f.Name())|] == Header(f.Name());
    MimeTypeOfHeader(f.Name(), data);
  }

  /** A GIF data URL gets the MIME type `image/gif` but keeps its header, since `gif` is
      not among the formats `stripBase64Prefix` removes. */
  lemma GifHeaderIsNotStripped(data: string)
    ensures GetMimeType(Header("gif") + data) == "image/gif"
    ensures StripBase64Prefix(Header("gif") + data) == Header("gif") + data
  {
    MimeTypeOfHeader("gif", data);
    var s := Header("gif") + data;
    assert s[..|Header("gif")|] == Header("gif");
    forall f: StrippedFormat ensures !StartsWith(s, Header(f.Name())) {
      if StartsWith(s, Header(f.Name())) {
        HeaderNamesAgree(s, f.Name(), "gif");
      }
    }
  }

  // ---------------------------------------------------------------------------------
  // analyzeContent

  /** A part of a request: text, or inline image data with its MIME type. */
  datatype Part = TextPart(text: string) | InlineImage(data: string, mimeType: string)

  const UserQueryLabel: string := "User Query/Context: "

  /** The `parts` array of `analyzeContent`, built by pushing: the instruction first, then
      the user's text if it is non-empty, then the image if it is present and non-empty.
      The instruction's wording (persona, level and schema) is a parameter. */
  method AnalyzeParts(instruction: string, text: string, image: Option<string>) returns (parts: seq<Part>)
    ensures |parts| == 1 + (if text != "" then 1 else 0) + (if Truthy(image) then 1 else 0)
    ensures parts[0] == TextPart(instruction)
    ensures text != "" ==> parts[1] == TextPart(UserQueryLabel + text)
    ensures Truthy(image) ==>
      parts[|parts| - 1] == InlineImage(StripBase64Prefix(image.value), GetMimeType(image.value))
  {
    parts := [TextPart(instruction)];
    if text != "" {
      parts := parts + [TextPart(UserQueryLabel + text)];
    }
    if image.Some? && image.value != "" {
      parts := parts + [InlineImage(StripBase64Prefix(image.value), GetMimeType(image.value))];
    }
  }

  const AnalyzeFailure: string := "Failed to analyze content. Please try again."

  /** `analyzeContent` after the request: the call either rejected or returned a response
      whose `text` may be missing; `parse` stands for `JSON.parse`, which fails on text
      that is not JSON. A missing or empty text, a parse failure and a rejected call all
      surface as the same generic error. */
  function AnalyzeOutcome(call: Result<Option<string>, Error>, parse: string -> Option<AnalysisResult>)
    : (r: Result<AnalysisResult, Error>)
    ensures r.Failure? ==> r.error == Error(AnalyzeFailure)
    ensures r.Success? <==> call.Success? && Truthy(call.value) && parse(call.value.value).Some?
    ensures r.Success? ==> r.value == parse(call.value.value).value
  {
    match call
    case Failure(_) => Failure(Error(AnalyzeFailure))
    case Success(text) =>
      if text.None? || text.value == "" then Failure(Error(AnalyzeFailure))
      else match parse(text.value)
        case None => Failure(Error(AnalyzeFailure))
        case Some(result) => Success(result)
  }

  // ---------------------------------------------------------------------------------
  // generateEducationalImage

  datatype InlineData = InlineData(data: Option<string>)
  datatype ResponsePart = ResponsePart(inlineData: Option<InlineData>)

  /** `part.inlineData && part.inlineData.data`. */
  predicate CarriesImage(p: ResponsePart)
  {
    p.inlineData.Some? && Truthy(p.inlineData.value.data)
  }

  const PngDataPrefix: string := "data:image/png;base64,"
  const ImageFailure: string := "Failed to generate visualization."

  /** What `generateEducationalImage` settles with, given the SDK outcome: `parts` is
      `response.candidates?.[0]?.content?.parts`. It succeeds exactly when some part
      carries non-empty inline data, with the PNG data URL of the first such part; no such
      part, no parts, or a rejected call all surface as the same generic error. */
  predicate ImageOutcomeOf(call: Result<Option<seq<ResponsePart>>, Error>, r: Result<string, Error>)
  {
    && (r.Failure? ==> r.error == Error(ImageFailure))
    && (r.Success? <==>
         (call.Success? && call.value.Some? && exists k :: 0 <= k < |call.value.value| && CarriesImage(call.value.value[k])))
    && (r.Success? ==> exists k ::
         (&& 0 <= k < |call.value.value| && CarriesImage(call.value.value[k])
          && (forall j :: 0 <= j < k ==> !CarriesImage(call.value.value[j]))
          && r.value == PngDataPrefix + call.value.value[k].inlineData.value.data.value))
  }

  /** The outcome is determined by the call: the first part carrying an image is unique. */
  lemma ImageOutcomeUnique(call: Result<Option<seq<ResponsePart>>, Error>, r1: Result<string, Error>, r2: Result<string, Error>)
    requires ImageOutcomeOf(call, r1) && ImageOutcomeOf(call, r2)
    ensures r1 == r2
  {
    if r1.Success? {
      var parts := call.value.value;
      var k1 :| && 0 <= k1 < |parts| && CarriesImage(parts[k1])
                && (forall j :: 0 <= j < k1 ==> !CarriesImage(parts[j]))
                && r1.value == PngDataPrefix + parts[k1].inlineData.value.data.value;
      var k2 :| && 0 <= k2 < |parts| && CarriesImage(parts[k2])
                && (forall j :: 0 <= j < k2 ==> !CarriesImage(parts[j]))
                && r2.value == PngDataPrefix + parts[k2].inlineData.value.data.value;
      assert !(k1 < k2) && !(k2 < k1);
    }
  }

  /** A response whose one part carries data `d` yields the PNG data URL of `d`. */
  lemma SingleImagePartIsStored(d: string, r: Result<string, Error>)
    requires d != "" && ImageOutcomeOf(Success(Some([ResponsePart(Some(InlineData(Some(d))))])), r)
    ensures r == Success(PngDataPrefix + d)
  {
    var parts := [ResponsePart(Some(InlineData(Some(d))))];
    assert CarriesImage(parts[0]);
  }

  /** `generateEducationalImage` after the SDK call: the loop returns the data URL of the
      first part carrying non-empty inline data. */
  method ImageOutcome(call: Result<Option<seq<ResponsePart>>, Error>) returns (r: Result<string, Error>)
    ensures ImageOutcomeOf(call, r)
  {
    if call.Failure? || call.value.None? {
      return Failure(Error(ImageFailure));
    }
    var parts := call.value.value;
    var i := 0;
    while i < |parts|
      invariant 0 <= i <= |parts|
      invariant forall j :: 0 <= j < i ==> !CarriesImage(parts[j])
    {
      var part := parts[i];
      if part.inlineData.Some? && part.inlineData.value.data.Some? && part.inlineData.value.data.value != "" {
        return Success(PngDataPrefix + part.inlineData.value.data.value);
      }
      i := i + 1;
    }
    return Failure(Error(ImageFailure));
  }

  // ---------------------------------------------------------------------------------
  // sendChatFollowUp

  /** One turn of the history handed to the chat SDK: a role and a single text part. */
  datatype Turn = Turn(role: Role, text: string)

  /** `history.map(msg => ({role: msg.role, parts: [{text: msg.text}]}))`: media fields
      are dropped, roles and texts are kept in order. */
  function HistoryTurns(history: seq<ChatMessage>): (turns: seq<Turn>)
    ensures |turns| == |history|
    ensures forall i :: 0 <= i < |history| ==> turns[i] == Turn(history[i].role, history[i].text)
  {
    if history == [] then [] else [Turn(history[0].role, history[0].text)] + HistoryTurns(history[1..])
  }

  /** Mapping the history distributes over concatenation: appending a message to the
      transcript appends its turn to the history sent. */
  lemma {:induction false} HistoryTurnsAppend(a: seq<ChatMessage>, b: seq<ChatMessage>)
    ensures HistoryTurns(a + b) == HistoryTurns(a) + HistoryTurns(b)
  {
    if a != [] {
      assert (a + b)[1..] == a[1..] + b;
      HistoryTurnsAppend(a[1..], b);
    }
  }

  /** What `sendChatFollowUp` sends: the mapped history, the new message, and the level
      and topic the system instruction is built from. */
  datatype ChatRequest = ChatRequest(
    history: seq<Turn>,
    message: string,
    level: EducationLevel,
    topic: string,
    analogy: string)

  function ChatRequestFor(history: seq<ChatMessage>, message: string, level: EducationLevel, context: AnalysisResult)
    : ChatRequest
  {
    ChatRequest(HistoryTurns(history), message, level, context.summaryTitle, context.realWorldAnalogy)
  }

  const ChatFallback: string := "I couldn't generate a response."

  /** `response.text || fallback`: a missing or empty reply becomes the fixed fallback text
      instead of an error; a rejected call is passed on unchanged. */
  function ChatReply(call: Result<Option<string>, Error>): (r: Result<string, Error>)
    ensures call.Failure? ==> r == Failure(call.error)
    ensures call.Success? ==> r.Success? && r.value != ""
    ensures call.Success? && Truthy(call.value) ==> r.value == call.value.value
    ensures call.Success? && !Truthy(call.value) ==> r.value == ChatFallback
  {
    match call
    case Failure(e) => Failure(e)
    case Success(text) => if text.Some? && text.value != "" then Success(text.value) else Success(ChatFallback)
  }
}
