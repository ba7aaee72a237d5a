/** The media directives a chat reply may carry (App.tsx:244-262), factored out of
    `handleSendMessage` as a pure parser.

    The source tests `/\[GENERATE_IMAGE:\s*(.*?)\]/` and then `/\[GENERATE_VIDEO:\s*(.*?)\]/`
    with `String.prototype.match`, i.e. the leftmost position where the pattern matches.
    At a fixed position `\s*` is greedy and `(.*?)` lazy: the match takes the whole run of
    whitespace after the tag and then everything up to the first `]`, provided no line
    terminator comes first. Giving back whitespace to `(.*?)` never helps, because a
    whitespace character is not `]`; `MatchAtIsRegexMatch` states that this is exactly
    the set of texts the pattern accepts. */
module MediaDirective {
  import opened Wrappers
  import opened JsString
  import opened Types

  const ImageTag: string := "[GENERATE_IMAGE:"
  const VideoTag: string := "[GENERATE_VIDEO:"

  /** A successful match: `s[start..end]` is the matched text, `capture` is group 1. */
  datatype Match = Match(start: nat, end: nat, capture: string)

  /** What the parser hands back: the display text and the media request, if any. */
  datatype Intent = Intent(kind: MediaType, prompt: string)
  datatype Parsed = Parsed(cleanText: string, intent: Option<Intent>)

  /** Text matched by `.*` that holds no `]`. */
  predicate Plain(x: string)
  {
    forall k :: 0 <= k < |x| ==> x[k] != ']' && !IsLineTerminator(x[k])
  }

  /** `s[p..]` begins with `tag`, a whitespace run `s[p + |tag|..q]`, the plain text
      `s[q..e]` and the `]` at `e`: one way the pattern can match at `p`. */
  ghost predicate DirectiveAt(s: string, tag: string, p: nat, q: int, e: int)
  {
    && p + |tag| <= q <= e < |s|
    && OccursAt(s, tag, p)
    && AllWhitespace(s[p + |tag|..q])
    && Plain(s[q..e])
    && s[e] == ']'
  }

  /** `(.*?)\]` from `i`: the first `]`, unless a line terminator or the end comes first. */
  function CloseBracket(s: string, i: nat): (r: Option<nat>)
    requires i <= |s|
    ensures r.Some? ==> i <= r.value < |s| && s[r.value] == ']' && Plain(s[i..r.value])
    ensures r.None? ==> forall e :: i <= e < |s| && s[e] == ']' ==> !Plain(s[i..e])
    decreases |s| - i
  {
    if i == |s| then None
    else if s[i] == ']' then Some(i)
    else if IsLineTerminator(s[i]) then None
    else CloseBracket(s, i + 1)
  }

  /** The pattern `tag\s*(.*?)\]` tried at position `p` alone. */
  function MatchAt(s: string, tag: string, p: nat): (r: Option<Match>)
    requires p <= |s|
    ensures r.Some? ==> r.value.start == p && r.value.end <= |s|
    ensures r.Some? ==> DirectiveAt(s, tag, p, r.value.end - 1 - |r.value.capture|, r.value.end - 1)
    ensures r.Some? ==> s[r.value.end - 1 - |r.value.capture|..r.value.end - 1] == r.value.capture
    ensures r.Some? ==> r.value.capture == [] || !IsWhitespace(r.value.capture[0])
  {
    if OccursAt(s, tag, p) then
      var q := SkipWhitespace(s, p + |tag|);
      match CloseBracket(s, q)
      case Some(e) => Some(Match(p, e + 1, s[q..e]))
      case None => None
    else None
  }

  /** The pattern matches at `p` exactly when the text there has the shape of a directive;
      the match found takes the longest whitespace run, and every shape ends at its `]`. */
  lemma MatchAtIsRegexMatch(s: string, tag: string, p: nat)
    requires p <= |s|
    ensures MatchAt(s, tag, p).Some? <==> exists q: int, e: int :: DirectiveAt(s, tag, p, q, e)
    ensures MatchAt(s, tag, p).Some? ==> forall q: int, e: int :: DirectiveAt(s, tag, p, q, e) ==>
      e == MatchAt(s, tag, p).value.end - 1 && q <= e - |MatchAt(s, tag, p).value.capture|
  {
    forall q: int, e: int | DirectiveAt(s, tag, p, q, e)
      ensures MatchAt(s, tag, p).Some?
      ensures e == MatchAt(s, tag, p).value.end - 1 && q <= e - |MatchAt(s, tag, p).value.capture|
    {
      var j := SkipWhitespace(s, p + |tag|);
      assert Plain(s[j..e]);
      CloseBracketAt(s, j, e);
    }
  }

  lemma {:induction false} CloseBracketAt(s: string, i: nat, e: nat)
    requires i <= e < |s| && Plain(s[i..e]) && s[e] == ']'
    ensures CloseBracket(s, i) == Some(e)
    decreases e - i
  {
    if i < e {
      assert s[i + 1..e] == s[i..e][1..];
      CloseBracketAt(s, i + 1, e);
    }
  }

  /** `s.match(/tag\s*(.*?)\]/)` searched from `from`: the leftmost position that matches. */
  function FirstMatch(s: string, tag: string, from: nat): (r: Option<Match>)
    requires from <= |s|
    ensures r.Some? ==> from <= r.value.start <= |s| && MatchAt(s, tag, r.value.start) == r
    ensures r.Some? ==> forall p :: from <= p < r.value.start ==> MatchAt(s, tag, p).None?
    ensures r.None? ==> forall p :: from <= p <= |s| ==> MatchAt(s, tag, p).None?
    decreases |s| - from
  {
    match MatchAt(s, tag, from)
    case Some(m) => Some(m)
    case None => if from == |s| then None else FirstMatch(s, tag, from + 1)
  }

  function RegexMatch(s: string, tag: string): Option<Match>
  {
    FirstMatch(s, tag, 0)
  }

  function MatchedText(s: string, m: Match): string
    requires m.start <= m.end <= |s|
  {
    s[m.start..m.end]
  }

  /** The text with the matched span cut out. */
  function Excise(s: string, m: Match): string
    requires m.start <= m.end <= |s|
  {
    s[..m.start] + s[m.end..]
  }

  /** Two stretches of s that agree character by character are equal slices. */
  lemma ShiftedSlice(s: string, a: int, b: int, d: int)
    requires 0 <= a <= b && 0 <= a + d && b <= |s| && b + d <= |s|
    requires forall k :: a <= k < b ==> s[k] == s[k + d]
    ensures s[a..b] == s[a + d..b + d]
  {
    forall i | 0 <= i < b - a ensures s[a..b][i] == s[a + d..b + d][i] {
      assert s[a..b][i] == s[a + i];
    }
  }

  /** A directive shape copied elsewhere in the string is a directive shape there too. */
  lemma DirectiveShift(s: string, tag: string, p: nat, q: int, e: int, p': nat)
    requires DirectiveAt(s, tag, p, q, e)
    requires OccursAt(s, s[p..e + 1], p')
    ensures DirectiveAt(s, tag, p', q - (p - p'), e - (p - p'))
  {
    var t := s[p..e + 1];
    var d := p - p';
    forall k | p' <= k < p' + |t| ensures s[k] == s[k + d] {
      assert s[k] == s[p'..p' + |t|][k - p'] == t[k - p'];
    }
    ShiftedSlice(s, p', p' + |tag|, d);
    ShiftedSlice(s, p' + |tag|, q - d, d);
    ShiftedSlice(s, q - d, e - d, d);
    assert s[e - d] == s[e];
  }

  /** A copy, anywhere in the string, of the text of a match is itself a match. */
  lemma MatchedTextCopyMatches(s: string, tag: string, m: Match, p': nat)
    requires m.start <= |s| && MatchAt(s, tag, m.start) == Some(m)
    requires OccursAt(s, MatchedText(s, m), p')
    ensures MatchAt(s, tag, p').Some?
  {
    var e := m.end - 1;
    var q := e - |m.capture|;
    assert DirectiveAt(s, tag, m.start, q, e);
    assert MatchedText(s, m) == s[m.start..e + 1];
    DirectiveShift(s, tag, m.start, q, e, p');
    MatchAtIsRegexMatch(s, tag, p');
  }

  /** The text of the leftmost match occurs nowhere earlier in the string, so `replace`
      with that text as a string pattern removes the match itself and not an earlier copy. */
  lemma MatchedTextFirstOccurrence(s: string, tag: string, m: Match)
    requires RegexMatch(s, tag) == Some(m)
    ensures IndexOf(s, MatchedText(s, m)) == Some(m.start)
  {
    assert OccursAt(s, MatchedText(s, m), m.start);
    forall p': nat | p' < m.start ensures !OccursAt(s, MatchedText(s, m), p') {
      if OccursAt(s, MatchedText(s, m), p') {
        MatchedTextCopyMatches(s, tag, m, p');
      }
    }
  }

  /** `reply.replace(match[0], '')`: cutting the leftmost match out. */
  lemma RemoveMatchedText(s: string, tag: string, m: Match)
    requires RegexMatch(s, tag) == Some(m)
    ensures ReplaceFirst(s, MatchedText(s, m), "") == Excise(s, m)
  {
    MatchedTextFirstOccurrence(s, tag, m);
    ReplaceFirstAt(s, MatchedText(s, m), "", m.start);
  }

  /** The directive parser of `handleSendMessage`: an image directive anywhere wins over a
      video directive anywhere; the first directive found is cut out and the rest trimmed;
      a reply without a directive comes back exactly as it was, untrimmed. */
  function Parse(reply: string): (r: Parsed)
    ensures RegexMatch(reply, ImageTag).Some? ==>
      var m := RegexMatch(reply, ImageTag).value;
      r == Parsed(Trim(Excise(reply, m)), Some(Intent(Image, m.capture)))
    ensures RegexMatch(reply, ImageTag).None? && RegexMatch(reply, VideoTag).Some? ==>
      var m := RegexMatch(reply, VideoTag).value;
      r == Parsed(Trim(Excise(reply, m)), Some(Intent(Video, m.capture)))
    ensures RegexMatch(reply, ImageTag).None? && RegexMatch(reply, VideoTag).None? ==>
      r == Parsed(reply, None)
  {
    var imgMatch := RegexMatch(reply, ImageTag);
    var vidMatch := RegexMatch(reply, VideoTag);
    if imgMatch.Some? then
      RemoveMatchedText(reply, ImageTag, imgMatch.value);
      var cleanText := ReplaceFirst(reply, MatchedText(reply, imgMatch.value), "");
      Parsed(Trim(cleanText), Some(Intent(Image, imgMatch.value.capture)))
    else if vidMatch.Some? then
      RemoveMatchedText(reply, VideoTag, vidMatch.value);
      var cleanText := ReplaceFirst(reply, MatchedText(reply, vidMatch.value), "");
      Parsed(Trim(cleanText), Some(Intent(Video, vidMatch.value.capture)))
    else
      Parsed(reply, None)
  }

  /** A captured prompt is plain text without leading whitespace. */
  lemma CaptureShape(s: string, tag: string, m: Match)
    requires RegexMatch(s, tag) == Some(m)
    ensures Plain(m.capture) && (m.capture == [] || !IsWhitespace(m.capture[0]))
  {
    var e := m.end - 1;
    assert s[e - |m.capture|..e] == m.capture;
  }

  /** A prompt that a directive captured is a single line without `]` and without leading
      whitespace, and the display text of a reply that held a directive is trimmed. */
  lemma ParsedShape(reply: string)
    ensures Parse(reply).intent.Some? ==> Trimmed(Parse(reply).cleanText)
    ensures Parse(reply).intent.Some? ==>
      var p := Parse(reply).intent.value.prompt;
      Plain(p) && (p == [] || !IsWhitespace(p[0]))
  {
    var img := RegexMatch(reply, ImageTag);
    var vid := RegexMatch(reply, VideoTag);
    if img.Some? {
      CaptureShape(reply, ImageTag, img.value);
    } else if vid.Some? {
      CaptureShape(reply, VideoTag, vid.value);
    }
  }
}
