/**
 * The content data model of src/core/types.js: the six activity variants, the
 * main and secondary kind sets, exercises and the Course / Level / Lesson
 * hierarchy with its difficulty levels.
 */
module Types {

  import opened Wrappers

  // ---------------------------------------------------------------------------
  // Activity kinds: the string literal unions of the source
  // ---------------------------------------------------------------------------

  /** Every kind an activity in the main area of an exercise may have. */
  const MainActivityKinds: set<string> :=
    {"video", "audio", "text", "skype", "written-answer", "multi-option"}

  /** The kinds allowed in the secondary area: video and skype are missing. */
  const SecondaryActivityKinds: set<string> :=
    {"audio", "text", "written-answer", "multi-option"}

  /** `ActivityKind = MainActivityKind | SecondaryActivityKind`. */
  const ActivityKinds: set<string> := MainActivityKinds + SecondaryActivityKinds

  predicate IsMainActivityKind(kind: string) { kind in MainActivityKinds }

  predicate IsSecondaryActivityKind(kind: string) { kind in SecondaryActivityKinds }

  /** The union type adds nothing to the main kinds: every secondary kind is a main kind. */
  lemma ActivityKindsAreMainKinds()
    ensures SecondaryActivityKinds <= MainActivityKinds
    ensures ActivityKinds == MainActivityKinds
  {
  }

  /** Exactly video and skype are main-only; the other four kinds are both. */
  lemma MainOnlyKinds(kind: string)
    ensures IsMainActivityKind(kind) && !IsSecondaryActivityKind(kind)
            <==> kind == "video" || kind == "skype"
    ensures IsSecondaryActivityKind(kind)
            <==> kind == "audio" || kind == "text" || kind == "written-answer" || kind == "multi-option"
  {
  }

  // ---------------------------------------------------------------------------
  // Activity variants
  // ---------------------------------------------------------------------------

  datatype TextHighlight = TextHighlight(length: int, offset: int)

  datatype WrittenAnswerItem = WrittenAnswerItem(question: string, answer: string)

  datatype MultiOptionItem = MultiOptionItem(question: string, correctIdx: string, options: seq<string>)

  /**
   * One activity: the six-variant union `MainActivity`, which is also what the
   * views import under the name `Activity` (types.js declares no type of that
   * name). Each variant is one of the source's object types, and its
   * literal `type` tag is given by TypeTag. `startTime` counts seconds from the
   * epoch and `duration` is a number of seconds.
   */
  datatype Activity =
    | Video(url: string)
    | Audio(url: string)
    | Text(content: string, highlights: seq<TextHighlight>)
    | Skype(startTime: int, duration: int, topic: string, group: bool)
    | WrittenAnswerEx(answerItems: seq<WrittenAnswerItem>)
    | MultiOptionEx(optionItems: seq<MultiOptionItem>)

  /** The literal `type` field each variant carries; it is always a main kind. */
  function TypeTag(a: Activity): (tag: string)
    ensures IsMainActivityKind(tag)
    ensures tag != ""
  {
    match a
    case Video(_) => "video"
    case Audio(_) => "audio"
    case Text(_, _) => "text"
    case Skype(_, _, _, _) => "skype"
    case WrittenAnswerEx(_) => "written-answer"
    case MultiOptionEx(_) => "multi-option"
  }

  /** Both activities are built by the same variant, i.e. have the same payload fields. */
  predicate SameVariant(a: Activity, b: Activity)
  {
    && (a.Video? <==> b.Video?)
    && (a.Audio? <==> b.Audio?)
    && (a.Text? <==> b.Text?)
    && (a.Skype? <==> b.Skype?)
    && (a.WrittenAnswerEx? <==> b.WrittenAnswerEx?)
    && (a.MultiOptionEx? <==> b.MultiOptionEx?)
  }

  /** The tag determines the variant and hence which payload fields exist. */
  lemma TagDeterminesVariant(a: Activity, b: Activity)
    ensures TypeTag(a) == TypeTag(b) <==> SameVariant(a, b)
  {
    if TypeTag(a) == TypeTag(b) {
      assert TypeTag(a)[0] == TypeTag(b)[0];
      assert |TypeTag(a)| == |TypeTag(b)|;
    }
  }

  /** Every main kind is the tag of some variant: the union of variants covers the kinds. */
  lemma EveryMainKindIsATag(kind: string)
    requires IsMainActivityKind(kind)
    ensures exists a: Activity :: TypeTag(a) == kind
  {
    if kind == "video" { assert TypeTag(Video("")) == kind; }
    else if kind == "audio" { assert TypeTag(Audio("")) == kind; }
    else if kind == "text" { assert TypeTag(Text("", [])) == kind; }
    else if kind == "skype" { assert TypeTag(Skype(0, 0, "", false)) == kind; }
    else if kind == "written-answer" { assert TypeTag(WrittenAnswerEx([])) == kind; }
    else { assert TypeTag(MultiOptionEx([])) == kind; }
  }

  /** `SecondaryActivity`: an activity whose tag is a secondary kind. */
  predicate IsSecondaryActivity(a: Activity)
  {
    IsSecondaryActivityKind(TypeTag(a))
  }

  /** The secondary activities are exactly Audio | Text | WrittenAnswerEx | MultiOptionEx. */
  lemma SecondaryActivityVariants(a: Activity)
    ensures IsSecondaryActivity(a)
            <==> a.Audio? || a.Text? || a.WrittenAnswerEx? || a.MultiOptionEx?
    ensures !IsSecondaryActivity(a) <==> a.Video? || a.Skype?
  {
  }

  type SecondaryActivity = a: Activity | IsSecondaryActivity(a) witness Audio("")

  // ---------------------------------------------------------------------------
  // Exercises and the course hierarchy
  // ---------------------------------------------------------------------------

  /** An exercise has a main slot and a secondary slot, each possibly empty (`null`). */
  datatype Exercise = Exercise(
    id: string,
    name: string,
    mainActivity: Option<Activity>,
    secondaryActivity: Option<SecondaryActivity>)

  /** The secondary slot of an exercise never holds a main-only activity. */
  lemma SecondarySlotNeverMainOnly(e: Exercise)
    ensures e.secondaryActivity.Some? ==>
              !e.secondaryActivity.value.Video? && !e.secondaryActivity.value.Skype?
  {
    if e.secondaryActivity.Some? {
      SecondaryActivityVariants(e.secondaryActivity.value);
    }
  }

  datatype Lesson = Lesson(id: string, name: string, exercises: seq<Exercise>)

  datatype Level = Level(id: string, name: string, description: string, lessons: seq<Lesson>)

  datatype CourseDifficulty = Beginner | Intermediate | UpperIntermediate | Advanced | Proficient

  datatype Course = Course(
    id: string,
    name: string,
    description: string,
    difficulty: CourseDifficulty,
    levels: seq<Level>,
    image: Option<string>)

  /** The string literal of each difficulty. */
  function DifficultyName(d: CourseDifficulty): (name: string)
    ensures name != ""
    ensures ParseDifficulty(name) == Some(d)
  {
    match d
    case Beginner => "Beginner"
    case Intermediate => "Intermediate"
    case UpperIntermediate => "Upper-intermediate"
    case Advanced => "Advanced"
    case Proficient => "Proficient"
  }

  /** Reads a difficulty literal back; anything else is not a difficulty. */
  function ParseDifficulty(name: string): (d: Option<CourseDifficulty>)
  {
    if name == "Beginner" then Some(Beginner)
    else if name == "Intermediate" then Some(Intermediate)
    else if name == "Upper-intermediate" then Some(UpperIntermediate)
    else if name == "Advanced" then Some(Advanced)
    else if name == "Proficient" then Some(Proficient)
    else None
  }

  /** The five difficulties, in the order the source lists them. */
  const AllDifficulties: seq<CourseDifficulty> :=
    [Beginner, Intermediate, UpperIntermediate, Advanced, Proficient]

  /** There are exactly five difficulties, listed once each. */
  lemma ExactlyFiveDifficulties(d: CourseDifficulty)
    ensures |AllDifficulties| == 5
    ensures d in AllDifficulties
    ensures forall i, j :: 0 <= i < j < |AllDifficulties| ==> AllDifficulties[i] != AllDifficulties[j]
  {
  }

  /** Names and parsing are inverse: both directions of the round trip. */
  lemma DifficultyNameRoundTrip(d: CourseDifficulty, name: string)
    ensures ParseDifficulty(DifficultyName(d)) == Some(d)
    ensures ParseDifficulty(name) == Some(d) ==> DifficultyName(d) == name
  {
  }

  /** Different difficulties have different names. */
  lemma DifficultyNamesDistinct(d: CourseDifficulty, e: CourseDifficulty)
    ensures DifficultyName(d) == DifficultyName(e) <==> d == e
  {
    DifficultyNameRoundTrip(d, DifficultyName(d));
    DifficultyNameRoundTrip(e, DifficultyName(e));
  }
}
