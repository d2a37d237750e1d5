/**
 * src/components/ActivityContent.jsx: what the activity view shows for each
 * `type`, and the readable label of a session duration. The markup is
 * abstracted to a View value.
 */
module ActivityContent {

  import opened Wrappers
  import opened Types
  import TextLines

  // ---------------------------------------------------------------------------
  // Duration labels
  // ---------------------------------------------------------------------------

  const NoLimitLabel: string := "No duration limit"

  /** The durations the session editor offers, in seconds, zero meaning no limit. */
  const ListedDurations: seq<int> := [0, 1800, 2700, 3600, 5400, 7200, 9000, 10800]

  /** The label of each listed duration, position by position. */
  const DurationLabels: seq<string> :=
    [NoLimitLabel, "30 minutes", "45 minutes", "1 hour", "1.5 hour", "2 hours", "2.5 hours", "3 hours"]

  /** `getReadableDuration`: the human label of a duration in seconds. */
  function ReadableDuration(duration: int): (readable: string)
    ensures readable in DurationLabels
  {
    if duration == 0 then NoLimitLabel
    else if duration == 30 * 60 then "30 minutes"
    else if duration == 45 * 60 then "45 minutes"
    else if duration == 1 * 60 * 60 then "1 hour"
    else if duration == 90 * 60 then "1.5 hour"
    else if duration == 2 * 60 * 60 then "2 hours"
    else if duration == 150 * 60 then "2.5 hours"
    else if duration == 3 * 60 * 60 then "3 hours"
    else NoLimitLabel
  }

  /**
   * The table of listed durations: the i-th duration gets the i-th label, and
   * every other value falls back to the no-limit label.
   */
  lemma ReadableDurationTable(duration: int)
    ensures forall i :: 0 <= i < |ListedDurations| ==>
              ReadableDuration(ListedDurations[i]) == DurationLabels[i]
    ensures duration !in ListedDurations ==> ReadableDuration(duration) == NoLimitLabel
  {
  }

  /** The no-limit label is given exactly to zero and to unlisted values. */
  lemma NoLimitExactlyOffTable(duration: int)
    ensures ReadableDuration(duration) == NoLimitLabel
            <==> duration == 0 || duration !in ListedDurations
  {
  }

  /** The inverse of the label table for the non-zero durations. */
  function DurationOfLabel(name: string): (duration: Option<int>)
  {
    if name == "30 minutes" then Some(1800)
    else if name == "45 minutes" then Some(2700)
    else if name == "1 hour" then Some(3600)
    else if name == "1.5 hour" then Some(5400)
    else if name == "2 hours" then Some(7200)
    else if name == "2.5 hours" then Some(9000)
    else if name == "3 hours" then Some(10800)
    else None
  }

  /**
   * The seven non-zero listed durations have pairwise distinct labels: the
   * label gives the duration back.
   */
  lemma ReadableDurationInjective(duration: int)
    ensures duration in ListedDurations && duration != 0 ==>
              DurationOfLabel(ReadableDuration(duration)) == Some(duration)
    ensures DurationOfLabel(ReadableDuration(duration)).None? <==>
              duration == 0 || duration !in ListedDurations
  {
  }

  // ---------------------------------------------------------------------------
  // What the switch sees and what it shows
  // ---------------------------------------------------------------------------

  /** The `type` values the switch has a case for. */
  const CaseTags: set<string> := {"video", "audio", "text", "skype", "header"}

  type OtherTag = tag: string | tag !in CaseTags witness "unknown"

  /**
   * The object handed to the view: a typed activity, an object whose `type` is
   * 'header' and which carries a `text`, or an object with any other type.
   */
  datatype Subject =
    | Typed(activity: Activity)
    | HeaderTyped(text: string)
    | Untyped(tag: OtherTag)

  function SubjectType(s: Subject): string
  {
    match s
    case Typed(a) => TypeTag(a)
    case HeaderTyped(_) => "header"
    case Untyped(tag) => tag
  }

  /** A session card: its topic, its duration label and its group/individual sentence. */
  datatype View =
    | Blank
    | Player(videoId: string)
    | Paragraphs(segments: seq<string>)
    | SessionCard(topic: string, durationLabel: string, sessionLine: string)
    | Heading(text: string)

  const GroupSentence: string := "It is a group session"
  const IndividualSentence: string := "It is an individual session"

  /** `ActivityContent`: the view of an activity, `None` standing for `null`. */
  function Render(subject: Option<Subject>): (v: View)
    ensures subject.None? ==> v == Blank
    ensures v.Player? ==> v.videoId != ""
  {
    if subject.None? then Blank
    else
      match subject.value
      case Typed(Video(url)) => if url != "" then Player(url) else Blank
      case Typed(Audio(_)) => Blank
      case Typed(Text(content, _)) => Paragraphs(TextLines.Split(content))
      case Typed(Skype(_, duration, topic, group)) =>
        SessionCard(topic, ReadableDuration(duration),
                    if group then GroupSentence else IndividualSentence)
      case HeaderTyped(text) => Heading(text)
      case _ => Blank
  }

  /**
   * Nothing is shown exactly for null, audio, an empty-url video, and every type
   * without a case (written-answer, multi-option and any unknown tag).
   */
  lemma BlankExactly(subject: Option<Subject>)
    ensures Render(subject) == Blank <==>
              || subject.None?
              || SubjectType(subject.value) == "audio"
              || (subject.value.Typed? && subject.value.activity.Video? && subject.value.activity.url == "")
              || SubjectType(subject.value) !in CaseTags
  {
  }

  /** A video shows its player, for its own url, exactly when the url is non-empty. */
  lemma VideoPlayer(url: string)
    ensures Render(Some(Typed(Video(url)))).Player? <==> url != ""
    ensures Render(Some(Typed(Video(url)))).Player? ==> Render(Some(Typed(Video(url)))).videoId == url
  {
  }

  /**
   * A text shows one paragraph per line: the paragraphs rejoin to the content
   * and there is one more of them than there are newlines.
   */
  lemma TextParagraphs(content: string, highlights: seq<TextHighlight>)
    ensures Render(Some(Typed(Text(content, highlights)))).Paragraphs?
    ensures TextLines.Join(Render(Some(Typed(Text(content, highlights)))).segments) == content
    ensures |Render(Some(Typed(Text(content, highlights)))).segments| == TextLines.NewlineCount(content) + 1
  {
    TextLines.JoinSplit(content);
    TextLines.SplitShape(content);
  }

  /** A skype session shows its topic, its duration label, and the group sentence iff it is a group. */
  lemma SkypeCard(a: Activity)
    requires a.Skype?
    ensures Render(Some(Typed(a))).SessionCard?
    ensures Render(Some(Typed(a))).topic == a.topic
    ensures Render(Some(Typed(a))).durationLabel == ReadableDuration(a.duration)
    ensures Render(Some(Typed(a))).sessionLine == GroupSentence <==> a.group
    ensures Render(Some(Typed(a))).sessionLine == IndividualSentence <==> !a.group
  {
  }

  /** An object typed 'header' shows its text as a heading, and nothing else does. */
  lemma HeaderHeading(subject: Option<Subject>)
    ensures Render(subject).Heading? <==> subject.Some? && subject.value.HeaderTyped?
    ensures Render(subject).Heading? ==> Render(subject).text == subject.value.text
  {
  }
}
