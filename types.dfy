/** The application's data model (types.ts): closed enumerations become datatypes with
    one constructor per member, interfaces become records, optional and nullable fields
    become `Option`. */
module Types {
  import opened Wrappers

  /** The six education tiers, in declaration order. `Value` is the enum's string. */
  datatype EducationLevel = Preschool | Elementary | Middle | High | Undergrad | Masters
  {
    function Value(): string
    {
      match this
      case Preschool => "Preschool (Ages 3-5)"
      case Elementary => "Elementary School (Ages 6-11)"
      case Middle => "Middle School (Ages 12-14)"
      case High => "High School (Ages 15-18)"
      case Undergrad => "Undergraduate"
      case Masters => "Masters/Expert"
    }
  }

  /** `Object.values(EducationLevel)`: the members in declaration order. */
  const AllLevels: seq<EducationLevel> := [Preschool, Elementary, Middle, High, Undergrad, Masters]

  /** The position of a level in declaration order. */
  function LevelIndex(l: EducationLevel): (i: nat)
    ensures i < |AllLevels| && AllLevels[i] == l
  {
    match l
    case Preschool => 0
    case Elementary => 1
    case Middle => 2
    case High => 3
    case Undergrad => 4
    case Masters => 5
  }

  /** There are exactly six levels, listed once each, and no two share a string value. */
  lemma LevelsEnumerated()
    ensures |AllLevels| == 6
    ensures forall l: EducationLevel :: l in AllLevels
    ensures forall i, j :: 0 <= i < j < |AllLevels| ==> AllLevels[i] != AllLevels[j]
    ensures forall l: EducationLevel, m: EducationLevel :: l.Value() == m.Value() ==> l == m
  {
    forall l: EducationLevel ensures l in AllLevels {
      assert AllLevels[LevelIndex(l)] == l;
    }
    forall l: EducationLevel, m: EducationLevel | l.Value() == m.Value() ensures l == m {
      assert |l.Value()| == |m.Value()| && l.Value()[1] == m.Value()[1];
    }
  }

  /** The structured analysis of one topic; every field is mandatory. */
  datatype AnalysisResult = AnalysisResult(
    summaryTitle: string,
    explanation: string,
    realWorldAnalogy: string,
    imageGenerationPrompt: string,
    animationPrompt: string,
    keyVocabulary: seq<string>,
    interactiveQuestion: string)

  datatype Role = User | Model

  datatype MediaType = Image | Video

  /** A transcript entry. The three media fields are optional (`?:` in the source). */
  datatype ChatMessage = ChatMessage(
    role: Role,
    text: string,
    mediaUrl: Option<string>,
    mediaType: Option<MediaType>,
    isGeneratingMedia: Option<bool>)

  /** One exploration: its input, its analysis at one level, its media and its own chat. */
  datatype Session = Session(
    id: string,
    timestamp: int,
    level: EducationLevel,
    inputText: string,
    inputImage: Option<string>,
    result: AnalysisResult,
    chatHistory: seq<ChatMessage>,
    generatedImageUrl: Option<string>,
    generatedVideoUrl: Option<string>)

  /** The whole application state: sessions in creation order, the selection, the level for
      new analyses, the input buffer, four in-flight flags and one error slot. */
  datatype AppState = AppState(
    sessions: seq<Session>,
    currentSessionId: Option<string>,
    level: EducationLevel,
    inputText: string,
    inputImage: Option<string>,
    isAnalyzing: bool,
    isGeneratingImage: bool,
    isGeneratingVideo: bool,
    error: Option<string>,
    isChatting: bool)

  /** A JavaScript truthiness test on an optional string: present and non-empty. */
  predicate Truthy(o: Option<string>)
  {
    o.Some? && o.value != ""
  }
}
