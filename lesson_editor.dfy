/**
 * src/scenes/course-composer/components/LessonEditor.js: the lesson editor
 * screen. It classifies each lesson entry as an activity or a header, wires
 * each entry's callbacks to that entry's index, shows its own copy of the
 * activity view, and keeps the text of a header being edited in the local
 * state of HeaderComponent.
 */
module LessonEditor {

  import opened Wrappers
  import opened Types
  import TextLines
  import ActivityContent

  // ---------------------------------------------------------------------------
  // The lesson as the editor reads it
  // ---------------------------------------------------------------------------

  /**
   * A header value, `{ text }`: what the header editor emits on save. The editor
   * imports `Header` from core/types.js, which declares no such type; its shape
   * is the one the editor reads and builds.
   */
  datatype Header = Header(text: string)

  /** An entry of `lesson.activities`: a header (no `type` field) or an activity. */
  datatype Entry = HeaderEntry(header: Header) | ActivityEntry(activity: Activity)

  /** The editor's lesson: a name and the list it iterates as `activities`. */
  datatype EditorLesson = EditorLesson(name: string, activities: seq<Entry>)

  /** The `type` field of an entry; a header has none, which reads as the falsy ''. */
  function TypeField(e: Entry): string
  {
    match e
    case HeaderEntry(_) => ""
    case ActivityEntry(a) => TypeTag(a)
  }

  /** JavaScript truthiness of a string. */
  predicate Truthy(s: string) { s != "" }

  /** An entry with a truthy `type` is rendered as an activity, and only an activity entry has one. */
  lemma ClassifiedByType(e: Entry)
    ensures Truthy(TypeField(e)) <==> e.ActivityEntry?
    ensures !Truthy(TypeField(e)) <==> e.HeaderEntry?
  {
  }

  // ---------------------------------------------------------------------------
  // Callbacks: the action creator each control calls, with its arguments
  // ---------------------------------------------------------------------------

  datatype Intent =
    | EditName(name: string)
    | StartEdit(idx: int)
    | Remove(idx: int)
    | EditHeader(idx: int, header: Header)

  /** The lesson-name field: the value it shows, and the intent each change sends. */
  datatype NameField = NameField(value: string)

  function LessonNameField(lesson: EditorLesson): (field: NameField)
    ensures field.value == lesson.name
  {
    NameField(lesson.name)
  }

  function OnNameChange(newValue: string): (intent: Intent)
    ensures intent.EditName? && intent.name == newValue
  {
    EditName(newValue)
  }

  // ---------------------------------------------------------------------------
  // The local duration label and activity view
  // ---------------------------------------------------------------------------

  /** The file's own copy of `getReadableDuration`. */
  function LocalReadableDuration(duration: int): (readable: string)
    ensures readable in ActivityContent.DurationLabels
  {
    match duration
    case 0 => "No duration limit"
    case 1800 => "30 minutes"
    case 2700 => "45 minutes"
    case 3600 => "1 hour"
    case 5400 => "1.5 hour"
    case 7200 => "2 hours"
    case 9000 => "2.5 hours"
    case 10800 => "3 hours"
    case _ => "No duration limit"
  }

  /** Both copies of the duration label agree on every input. */
  lemma ReadableDurationCopiesAgree(duration: int)
    ensures LocalReadableDuration(duration) == ActivityContent.ReadableDuration(duration)
  {
  }

  const GroupSession: string := "Group session"
  const IndividualSession: string := "Individual session"

  /** The file's own `ActivityContent`; unlike the shared one it has no 'header' case. */
  function LocalRender(subject: Option<ActivityContent.Subject>): (v: ActivityContent.View)
    ensures subject.None? ==> v == ActivityContent.Blank
    ensures !v.Heading?
  {
    if subject.None? then ActivityContent.Blank
    else
      match subject.value
      case Typed(Video(url)) => if url != "" then ActivityContent.Player(url) else ActivityContent.Blank
      case Typed(Audio(_)) => ActivityContent.Blank
      case Typed(Text(content, _)) => ActivityContent.Paragraphs(TextLines.Split(content))
      case Typed(Skype(_, duration, topic, group)) =>
        ActivityContent.SessionCard(topic, LocalReadableDuration(duration),
                                    if group then GroupSession else IndividualSession)
      case _ => ActivityContent.Blank
  }

  /**
   * The local view matches the shared one except on two points: an object typed
   * 'header' shows nothing here, and the session sentence is the short one.
   */
  lemma LocalRenderAgainstShared(subject: Option<ActivityContent.Subject>)
    ensures subject.Some? && subject.value.HeaderTyped? ==> LocalRender(subject) == ActivityContent.Blank
    ensures !(subject.Some? && subject.value.HeaderTyped?) && !LocalRender(subject).SessionCard? ==>
              LocalRender(subject) == ActivityContent.Render(subject)
    ensures LocalRender(subject).SessionCard? <==> ActivityContent.Render(subject).SessionCard?
    ensures LocalRender(subject).SessionCard? ==>
              && LocalRender(subject).topic == ActivityContent.Render(subject).topic
              && LocalRender(subject).durationLabel == ActivityContent.Render(subject).durationLabel
  {
    if subject.Some? && subject.value.Typed? && subject.value.activity.Skype? {
      ReadableDurationCopiesAgree(subject.value.activity.duration);
    }
  }

  /** A skype session reads 'Group session' exactly when it is a group session. */
  lemma LocalSessionLine(a: Activity)
    requires a.Skype?
    ensures LocalRender(Some(ActivityContent.Typed(a))).SessionCard?
    ensures LocalRender(Some(ActivityContent.Typed(a))).sessionLine == GroupSession <==> a.group
    ensures LocalRender(Some(ActivityContent.Typed(a))).sessionLine == IndividualSession <==> !a.group
  {
  }

  // ---------------------------------------------------------------------------
  // The entry list
  // ---------------------------------------------------------------------------

  /**
   * One rendered entry. An activity row shows the local activity view; a header
   * row knows whether it is in edit mode. Both carry the callbacks the row is
   * handed as props (as the intents they send), and a header row the index its
   * save is sent for. Which of them a button actually calls is RowButtons/Press.
   */
  datatype Row =
    | ActivityRow(activity: Activity, content: ActivityContent.View, onEditStart: Intent, onRemove: Intent)
    | HeaderRow(header: Header, isEdited: bool, onEditStart: Intent, onRemove: Intent, editIdx: int)

  /** The intent a header row's save sends for the text the header editor emits. */
  function OnHeaderEdit(row: Row, emitted: Header): (intent: Intent)
    requires row.HeaderRow?
    ensures intent.EditHeader? && intent.idx == row.editIdx && intent.header == emitted
  {
    EditHeader(row.editIdx, emitted)
  }

  /** The buttons a row shows. */
  datatype Button = RemoveButton | EditButton | SaveButton

  /**
   * An activity row (`ActivityWrapper`) shows a delete and an edit button. A
   * header row (`HeaderComponent`) shows Save in edit mode and Edit otherwise;
   * it never uses the `onRemove` prop it is handed.
   */
  function RowButtons(row: Row): (buttons: seq<Button>)
    ensures row.ActivityRow? ==> RemoveButton in buttons && EditButton in buttons && SaveButton !in buttons
    ensures row.HeaderRow? ==> RemoveButton !in buttons
    ensures row.HeaderRow? ==> (SaveButton in buttons <==> row.isEdited)
    ensures row.HeaderRow? ==> (EditButton in buttons <==> !row.isEdited)
  {
    match row
    case ActivityRow(_, _, _, _) => [RemoveButton, EditButton]
    case HeaderRow(_, isEdited, _, _, _) => if isEdited then [SaveButton] else [EditButton]
  }

  /** The intent a click on one of the row's buttons sends; `buffer` is the header editor's text. */
  function Press(row: Row, button: Button, buffer: string): (intent: Intent)
    requires button in RowButtons(row)
    ensures button == RemoveButton ==> intent == row.onRemove
    ensures button == EditButton ==> intent == row.onEditStart
    ensures button == SaveButton ==> row.HeaderRow? && intent == EditHeader(row.editIdx, Header(buffer))
  {
    match button
    case RemoveButton => row.onRemove
    case EditButton => row.onEditStart
    case SaveButton => OnHeaderEdit(row, Header(buffer))
  }

  /**
   * In the rendered list an activity entry can be removed and a header entry
   * cannot: no button of a header row sends `remove`, whatever its mode.
   */
  lemma OnlyActivitiesRemovable(lesson: EditorLesson, editedActivityIdx: Option<int>, i: int, button: Button, buffer: string)
    requires 0 <= i < |lesson.activities|
    requires button in RowButtons(RenderEntries(lesson, editedActivityIdx)[i])
    ensures Press(RenderEntries(lesson, editedActivityIdx)[i], button, buffer) == Remove(i)
            ==> lesson.activities[i].ActivityEntry?
    ensures lesson.activities[i].ActivityEntry? ==>
              Press(RenderEntries(lesson, editedActivityIdx)[i], RemoveButton, buffer) == Remove(i)
  {
    var row := RenderEntries(lesson, editedActivityIdx)[i];
    assert row == RenderEntry(lesson.activities[i], i, editedActivityIdx);
    if row.HeaderRow? && !row.isEdited {
      assert button == EditButton;
    }
  }

  /** The `map` callback: entry `e` at index `i`, classified by its `type` field. */
  function RenderEntry(e: Entry, i: int, editedActivityIdx: Option<int>): (row: Row)
    ensures row.ActivityRow? <==> e.ActivityEntry?
    ensures row.onEditStart == StartEdit(i) && row.onRemove == Remove(i)
    ensures row.HeaderRow? ==> row.editIdx == i && (row.isEdited <==> editedActivityIdx == Some(i))
  {
    if Truthy(TypeField(e)) then
      ActivityRow(e.activity, LocalRender(Some(ActivityContent.Typed(e.activity))), StartEdit(i), Remove(i))
    else
      HeaderRow(e.header, editedActivityIdx == Some(i), StartEdit(i), Remove(i), i)
  }

  /** The `lesson.activities.map(...)` of `render`: one row per entry, in order. */
  function RenderEntries(lesson: EditorLesson, editedActivityIdx: Option<int>): (rows: seq<Row>)
    ensures |rows| == |lesson.activities|
  {
    seq(|lesson.activities|, i requires 0 <= i < |lesson.activities| =>
      RenderEntry(lesson.activities[i], i, editedActivityIdx))
  }

  /**
   * Row i renders entry i: an activity row with that activity and its view
   * exactly for activity entries, otherwise a header row with that header.
   */
  lemma RowsFollowEntries(lesson: EditorLesson, editedActivityIdx: Option<int>, i: int)
    requires 0 <= i < |lesson.activities|
    ensures RenderEntries(lesson, editedActivityIdx)[i].ActivityRow? <==> lesson.activities[i].ActivityEntry?
    ensures lesson.activities[i].ActivityEntry? ==>
              && RenderEntries(lesson, editedActivityIdx)[i].activity == lesson.activities[i].activity
              && RenderEntries(lesson, editedActivityIdx)[i].content
                 == LocalRender(Some(ActivityContent.Typed(lesson.activities[i].activity)))
    ensures lesson.activities[i].HeaderEntry? ==>
              RenderEntries(lesson, editedActivityIdx)[i].header == lesson.activities[i].header
  {
    ClassifiedByType(lesson.activities[i]);
  }

  /** Every callback of row i, and the save of header row i, is sent for index i. */
  lemma CallbacksCarryOwnIndex(lesson: EditorLesson, editedActivityIdx: Option<int>, i: int, emitted: Header)
    requires 0 <= i < |lesson.activities|
    ensures RenderEntries(lesson, editedActivityIdx)[i].onEditStart == StartEdit(i)
    ensures RenderEntries(lesson, editedActivityIdx)[i].onRemove == Remove(i)
    ensures RenderEntries(lesson, editedActivityIdx)[i].HeaderRow? ==>
              OnHeaderEdit(RenderEntries(lesson, editedActivityIdx)[i], emitted) == EditHeader(i, emitted)
  {
  }

  /** A header is in edit mode exactly when its index is `editedActivityIdx`. */
  lemma EditModeIff(lesson: EditorLesson, editedActivityIdx: Option<int>, i: int)
    requires 0 <= i < |lesson.activities|
    ensures RenderEntries(lesson, editedActivityIdx)[i].HeaderRow? ==>
              (RenderEntries(lesson, editedActivityIdx)[i].isEdited <==> editedActivityIdx == Some(i))
  {
  }

  /** At most one row is in edit mode. */
  lemma {:induction false} AtMostOneInEditMode(lesson: EditorLesson, editedActivityIdx: Option<int>, i: int, j: int)
    requires 0 <= i < |lesson.activities| && 0 <= j < |lesson.activities|
    requires RenderEntries(lesson, editedActivityIdx)[i].HeaderRow?
    requires RenderEntries(lesson, editedActivityIdx)[j].HeaderRow?
    requires RenderEntries(lesson, editedActivityIdx)[i].isEdited
    requires RenderEntries(lesson, editedActivityIdx)[j].isEdited
    ensures i == j
  {
    EditModeIff(lesson, editedActivityIdx, i);
    EditModeIff(lesson, editedActivityIdx, j);
  }

  // ---------------------------------------------------------------------------
  // HeaderComponent
  // ---------------------------------------------------------------------------

  /** The props a header is rendered with; the callbacks are the row's intents. */
  datatype HeaderProps = HeaderProps(header: Header, isEdited: bool)

  /** What a header shows: the saved text, or an edit field holding the buffer. */
  datatype HeaderView = Display(text: string) | EditField(value: string)

  /** The header editor: props from the parent, and the `editedText` buffer. */
  class HeaderComponent {
    var props: HeaderProps
    var editedText: string

    constructor (initial: HeaderProps)
      ensures props == initial
      ensures editedText == ""
    {
      props := initial;
      editedText := "";
    }

    /** `componentWillReceiveProps`: new props reset the buffer to the incoming header's text. */
    method ReceiveProps(nextProps: HeaderProps)
      modifies this
      ensures props == nextProps
      ensures editedText == nextProps.header.text
      ensures View() == if nextProps.isEdited then EditField(nextProps.header.text)
                        else Display(nextProps.header.text)
    {
      props := nextProps;
      editedText := nextProps.header.text;
    }

    /** `handleEdit`: the buffer takes the typed text, and the props stay as they were. */
    method HandleEdit(text: string)
      modifies this
      ensures editedText == text
      ensures props == old(props)
      ensures old(props).isEdited ==> View() == EditField(text)
    {
      editedText := text;
    }

    /** The value the Save button, shown only in edit mode, hands to `onEdit`: the buffer, as a header. */
    method Save() returns (emitted: Header)
      requires props.isEdited
      ensures emitted == Header(editedText)
    {
      emitted := Header(editedText);
    }

    /** In edit mode the field shows the buffer, otherwise the header's own text is shown. */
    function View(): (v: HeaderView)
      reads this
      ensures v.EditField? <==> props.isEdited
      ensures v.EditField? ==> v.value == editedText
      ensures v.Display? ==> v.text == props.header.text
    {
      if props.isEdited then EditField(editedText) else Display(props.header.text)
    }
  }

  /** New props, then an edit, then save: the field and the emitted header hold the last typed text. */
  method EditAndSave(c: HeaderComponent, nextProps: HeaderProps, typed: string) returns (emitted: Header)
    requires nextProps.isEdited
    modifies c
    ensures emitted == Header(typed)
    ensures c.props == nextProps
    ensures c.View() == EditField(typed)
  {
    c.ReceiveProps(nextProps);
    c.HandleEdit(typed);
    emitted := c.Save();
  }
}
