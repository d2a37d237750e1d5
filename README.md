# Lexis course composer: content model, activity picker and lesson view

This project is a Dafny model of the classification and labelling rules of the
lexis-front course authoring tool:

- **Content data model** (`types.dfy`, module `Types`): the six activity variants
  (video, audio, text, skype session, written-answer and multi-option exercise),
  each with its literal `type` tag; the main and secondary kind sets; exercises
  with a nullable main slot and a nullable secondary slot that cannot hold a
  main-only activity; the Course / Level / Lesson hierarchy and the five course
  difficulties.
- **Activity picker** (`activity_picker.dfy`, module `ActivityPicker`): the fixed
  four-row table of kinds a teacher can add, the rule that disables a main-only
  kind outside the main area, the closed picker rendering nothing, and a click
  handing the item's kind to `onItemSelect`.
- **Activity view** (`activity_content.dfy`, module `ActivityContent`, with the
  `split('\n')` of `text_lines.dfy`, module `TextLines`): the readable label of a
  session duration and the per-type switch that decides what an activity shows,
  its result abstracted to a `View` value.
- **Lesson editor** (`lesson_editor.dfy`, module `LessonEditor`): the
  classification of each lesson entry as activity or header by its `type` field,
  the index each entry's callbacks are sent with, edit mode of at most one
  header, the lesson-name field, the editor's own copies of the duration label
  and of the activity view, and `HeaderComponent` as a class whose
  `editedText` buffer is reset, edited and emitted on save.

Modelling choices:

- Kinds are the source's string literals; the kind unions are `set<string>`
  constants. Immutable.js lists are `seq`s. A `null` activity and an absent
  `activityArea` prop are `None`.
- The objects the view's `switch` receives are a `Subject`: a typed activity,
  an object whose `type` is `'header'` carrying a `text`, or an object with any
  other tag (a subset type excludes the tags that have a case).
- Callbacks are modelled by the action they call and its arguments (an `Intent`
  value); the reducers that act on those intents are not part of this model.
- The lesson editor iterates `lesson.activities`
  (src/scenes/course-composer/components/LessonEditor.js:110), a list of headers
  and activities, while the `Lesson` type declares `exercises`
  (src/core/types.js:112). The model follows each file: `Types.Lesson` has
  `exercises: seq<Exercise>`, and the editor reads an `EditorLesson` whose
  `activities` is a `seq<Entry>` with `Entry = HeaderEntry | ActivityEntry`.
- The hierarchy is nested ordered lists by construction: `Types.Course` holds
  `levels: seq<Level>`, a `Level` holds `lessons: seq<Lesson>`, a `Lesson` holds
  `exercises: seq<Exercise>`, and each of the three carries an `id`
  (src/core/types.js:109-129); there is no operation on it to state a contract for.
- Each header row is handed an `onRemove` callback
  (src/scenes/course-composer/components/LessonEditor.js:126), but
  `HeaderComponent` never reads it (line 206) and renders no delete button, so a
  header cannot be removed from this editor; the model's `RowButtons` and
  `OnlyActivitiesRemovable` state this.
- `Skype.duration` is declared as any number of seconds (src/core/types.js:57);
  `getReadableDuration` labels every unlisted value "No duration limit"
  (src/components/ActivityContent.jsx:108-109), and the model follows the code.

## Model

| member | source | states |
|---|---|---|
| Types.ActivityKindsAreMainKinds | src/core/types.js:76-98 | every secondary kind is a main kind, so the ActivityKind union equals the main kinds |
| Types.MainOnlyKinds | src/core/types.js:78-98 | a kind is main but not secondary exactly when it is video or skype; the secondary kinds are exactly audio, text, written-answer and multi-option |
| Types.TypeTag | src/core/types.js:33-74 | each variant's literal tag is a non-empty main kind |
| Types.TagDeterminesVariant | src/core/types.js:33-74 | two activities have the same tag iff they are the same variant, so the tag fixes the payload fields |
| Types.EveryMainKindIsATag | src/core/types.js:78-92 | every main kind is the tag of some MainActivity variant |
| Types.SecondaryActivityVariants | src/core/types.js:94-100 | the activities whose tag is a secondary kind are exactly Audio, Text, WrittenAnswerEx and MultiOptionEx; the others are Video and Skype |
| Types.SecondarySlotNeverMainOnly | src/core/types.js:102-107 | a present secondary slot of an exercise is never a video or a skype session |
| Types.DifficultyName | src/core/types.js:131-136 | each difficulty has a non-empty literal that parses back to it |
| Types.ExactlyFiveDifficulties | src/core/types.js:131-136 | the difficulty list has five distinct entries and covers every difficulty |
| Types.DifficultyNameRoundTrip | src/core/types.js:131-136 | parsing a difficulty's literal gives it back, and a parsed literal is that difficulty's name |
| Types.DifficultyNamesDistinct | src/core/types.js:131-136 | two difficulties have the same literal iff they are equal |
| ActivityPicker.Render | src/scenes/teacher/course-composer/components/ActivityPicker.js:70-95 | a closed picker renders nothing; an open one renders the table's four rows in order, each with its name, kind and the disabled rule |
| ActivityPicker.Click | src/scenes/teacher/course-composer/components/ActivityPicker.js:73-86 | a click hands exactly the entry's kind to a provided handler; the default handler does nothing |
| ActivityPicker.TableShape | src/scenes/teacher/course-composer/components/ActivityPicker.js:41-62 | the table is video, audio, skype, text, and an item is main-only iff it is video or skype |
| ActivityPicker.TableAgreesWithKinds | src/scenes/teacher/course-composer/components/ActivityPicker.js:41-62 | every table kind is a main kind, and an item is main-only iff its kind is not a secondary kind |
| ActivityPicker.Disabled | src/scenes/teacher/course-composer/components/ActivityPicker.js:83 | only a main-only item can be disabled, and nothing is disabled in the main area |
| ActivityPicker.DisabledIff | src/scenes/teacher/course-composer/components/ActivityPicker.js:83 | an item is disabled iff the area is not 'main' and its kind is not a secondary kind |
| ActivityPicker.DisabledKinds | src/scenes/teacher/course-composer/components/ActivityPicker.js:83 | in the main area nothing is disabled; in any other or an absent area the disabled kinds are exactly video and skype |
| ActivityPicker.ClickSelectsOwnKind | src/scenes/teacher/course-composer/components/ActivityPicker.js:81-86 | clicking the i-th rendered entry selects the i-th table kind |
| ActivityContent.ReadableDuration | src/components/ActivityContent.jsx:82-111 | the label of every duration is one of the eight labels |
| ActivityContent.ReadableDurationTable | src/components/ActivityContent.jsx:82-111 | each of 0, 1800, 2700, 3600, 5400, 7200, 9000, 10800 gets its label, and every other value gets 'No duration limit' |
| ActivityContent.NoLimitExactlyOffTable | src/components/ActivityContent.jsx:84-109 | 'No duration limit' is given exactly to 0 and to unlisted values |
| ActivityContent.ReadableDurationInjective | src/components/ActivityContent.jsx:87-106 | the label of a non-zero listed duration gives that duration back, so the seven labels are pairwise distinct |
| ActivityContent.Render | src/components/ActivityContent.jsx:13-80 | null shows nothing, and a shown player always has a non-empty video id |
| ActivityContent.BlankExactly | src/components/ActivityContent.jsx:13-80 | nothing is shown exactly for null, audio, a video with an empty url and every type without a case |
| ActivityContent.VideoPlayer | src/components/ActivityContent.jsx:19-24 | a video shows a player for its url iff the url is non-empty |
| ActivityContent.TextParagraphs | src/components/ActivityContent.jsx:29-38 | a text shows paragraphs that rejoin with newlines to the content, one more than there are newlines |
| ActivityContent.SkypeCard | src/components/ActivityContent.jsx:41-73 | a session shows its topic and duration label, and the group sentence iff it is a group session |
| ActivityContent.HeaderHeading | src/components/ActivityContent.jsx:75-76 | a heading is shown exactly for an object typed 'header', with its text |
| TextLines.Split | src/components/ActivityContent.jsx:32 | splitting on newlines always gives at least one segment |
| TextLines.JoinSplit | src/components/ActivityContent.jsx:32 | rejoining the segments with newlines gives back the string |
| TextLines.SplitShape | src/components/ActivityContent.jsx:32 | the segment count is the newline count plus one, and no segment holds a newline |
| TextLines.SplitJoin | src/components/ActivityContent.jsx:32 | splitting a join of newline-free segments gives back the segments |
| LessonEditor.ClassifiedByType | src/scenes/course-composer/components/LessonEditor.js:110-128 | an entry's type is truthy iff it is an activity entry, which is what decides activity or header rendering |
| LessonEditor.LessonNameField | src/scenes/course-composer/components/LessonEditor.js:95 | the name field shows the lesson's name |
| LessonEditor.OnNameChange | src/scenes/course-composer/components/LessonEditor.js:96 | a change of the name field calls editName with the new value |
| LessonEditor.LocalReadableDuration | src/scenes/course-composer/components/LessonEditor.js:333-362 | the editor's own duration label is always one of the eight labels |
| LessonEditor.ReadableDurationCopiesAgree | src/scenes/course-composer/components/LessonEditor.js:333-362 | the editor's copy of the duration label agrees with the shared one on every input |
| LessonEditor.LocalRender | src/scenes/course-composer/components/LessonEditor.js:270-331 | the editor's own view shows nothing for null and never shows a heading |
| LessonEditor.LocalRenderAgainstShared | src/scenes/course-composer/components/LessonEditor.js:270-331 | the editor's view shows nothing for a 'header' object, equals the shared view everywhere else except the session sentence, and shows the same topic and duration for sessions |
| LessonEditor.LocalSessionLine | src/scenes/course-composer/components/LessonEditor.js:318 | the session line reads 'Group session' iff the session is a group, and 'Individual session' iff it is not |
| LessonEditor.OnHeaderEdit | src/scenes/course-composer/components/LessonEditor.js:124 | a header row's save sends header.edit with that row's index and the emitted header |
| LessonEditor.RenderEntry | src/scenes/course-composer/components/LessonEditor.js:111-128 | an entry becomes an activity row iff it is an activity; the startEdit and remove callbacks it is handed as props carry its own index, and a header row is edited iff its index is `editedActivityIdx` |
| LessonEditor.RowButtons | src/scenes/course-composer/components/LessonEditor.js:205-264 | an activity row shows delete and edit buttons; a header row shows Save iff it is in edit mode, Edit otherwise, and never a remove button |
| LessonEditor.Press | src/scenes/course-composer/components/LessonEditor.js:211-259 | delete sends the row's remove callback, edit its startEdit callback, and a header's Save sends header.edit for its index with the buffer's text |
| LessonEditor.OnlyActivitiesRemovable | src/scenes/course-composer/components/LessonEditor.js:116-126 | a button of row i sends remove(i) only if entry i is an activity, and an activity row's delete button always does |
| LessonEditor.RenderEntries | src/scenes/course-composer/components/LessonEditor.js:110-129 | the entry list renders one row per entry |
| LessonEditor.RowsFollowEntries | src/scenes/course-composer/components/LessonEditor.js:110-128 | row i is an activity row with entry i's activity and view iff entry i is an activity, otherwise a header row with its header |
| LessonEditor.CallbacksCarryOwnIndex | src/scenes/course-composer/components/LessonEditor.js:116-126 | the startEdit, remove and header-save callbacks handed to row i are all sent with index i |
| LessonEditor.EditModeIff | src/scenes/course-composer/components/LessonEditor.js:123 | a header row is in edit mode iff its index equals editedActivityIdx |
| LessonEditor.AtMostOneInEditMode | src/scenes/course-composer/components/LessonEditor.js:123 | two header rows in edit mode are the same row |
| LessonEditor.HeaderComponent.constructor | src/scenes/course-composer/components/LessonEditor.js:186-192 | a new header editor keeps its props and starts with an empty buffer |
| LessonEditor.HeaderComponent.ReceiveProps | src/scenes/course-composer/components/LessonEditor.js:194-196 | new props replace the old ones and set the buffer to the incoming header's text, so in edit mode the field shows that text |
| LessonEditor.HeaderComponent.HandleEdit | src/scenes/course-composer/components/LessonEditor.js:198-203 | an edit sets the buffer to the typed text and leaves the props unchanged, so in edit mode the field shows what was typed |
| LessonEditor.HeaderComponent.Save | src/scenes/course-composer/components/LessonEditor.js:208-213 | the Save button exists only in edit mode, and save emits a header whose text is the buffer |
| LessonEditor.HeaderComponent.View | src/scenes/course-composer/components/LessonEditor.js:205-231 | in edit mode the field shows the buffer, otherwise the header's own text is shown |
| LessonEditor.EditAndSave | src/scenes/course-composer/components/LessonEditor.js:194-211 | with props that put the header in edit mode, new props then an edit leave the field showing the typed text, and save emits exactly it |

## Left out

- The editor reducers and action creators (index shifting on remove, committing a draft on save, opening and closing the picker and the modals, field edits): src/core/reducers/index.js only re-exports them and their code is not part of this model; only the callback wiring of the lesson editor is modelled.
- The ActivityPicker, VideoModal, AudioModal, SkypeModal and TextModal components the lesson editor imports from its own folder are not part of this model; only the teacher course-composer ActivityPicker is.
- ActivityPicker.Click: models the wiring of each entry's onClick only; whether the UI library suppresses clicks on a disabled entry is library behaviour outside the model.
- ActivityContent.ReadableDuration: durations are whole seconds; a fractional JavaScript number matches no case and gets the default label, which the model does not represent.
- An undefined (rather than `null`) `activity` prop: both views test only `activity === null` (src/components/ActivityContent.jsx:14, src/scenes/course-composer/components/LessonEditor.js:271), so an undefined one reaches `activity.type` and throws; the model has no undefined value and does not represent that throw.
- Routing, themes and colours (src/App.js), styling, icons and the colour helper library: presentation only.
- Markup: views are abstract values; the order in which a session card lists its lines, the window-size arithmetic of the editor's session card, the YouTube player and the Skype image are not modelled.
- React lifecycles other than the `editedText` buffer of HeaderComponent, and the text highlights, which no modelled code reads.
