/**
 * src/scenes/teacher/course-composer/components/ActivityPicker.js: the side
 * list of activity kinds a teacher can add, with main-only kinds disabled
 * outside the main area.
 */
module ActivityPicker {

  import opened Wrappers
  import opened Types

  /** One row of the constant `activities` table. */
  datatype PickerItem = PickerItem(name: string, kind: string, mainOnly: bool)

  /** The selectable kinds, in display order. */
  const Activities: seq<PickerItem> := [
    PickerItem("Video", "video", true),
    PickerItem("Audio", "audio", false),
    PickerItem("Skype", "skype", true),
    PickerItem("Text", "text", false)
  ]

  /** The part of the picker state the component reads. */
  datatype PickerState = PickerState(open: bool)

  /** One rendered list entry: its caption, the kind it selects, and whether it is disabled. */
  datatype ListEntry = ListEntry(name: string, kind: string, disabled: bool)

  /** The `onItemSelect` prop: left out it defaults to a handler that does nothing. */
  datatype ItemSelectHandler = DefaultNoOp | Provided

  /** What a click on an entry does. */
  datatype Effect = NoEffect | ItemSelected(kind: string)

  /**
   * `activityArea` is `None` when the prop is left out; the rule compares it
   * with 'main' only.
   */
  predicate Disabled(activityArea: Option<string>, item: PickerItem): (disabled: bool)
    ensures disabled ==> item.mainOnly
    ensures activityArea == Some("main") ==> !disabled
  {
    activityArea != Some("main") && item.mainOnly
  }

  /** The rendered list, or `None` (the component renders null) while the picker is closed. */
  function Render(picker: PickerState, activityArea: Option<string>): (list: Option<seq<ListEntry>>)
    ensures list.None? <==> !picker.open
    ensures list.Some? ==> |list.value| == |Activities|
    ensures list.Some? ==> forall i :: 0 <= i < |list.value| ==>
              && list.value[i].name == Activities[i].name
              && list.value[i].kind == Activities[i].kind
              && list.value[i].disabled == Disabled(activityArea, Activities[i])
  {
    if !picker.open then None
    else Some(seq(|Activities|, i requires 0 <= i < |Activities| =>
                  ListEntry(Activities[i].name, Activities[i].kind, Disabled(activityArea, Activities[i]))))
  }

  /** The click handler of an entry hands that entry's kind to `onItemSelect`. */
  function Click(entry: ListEntry, onItemSelect: ItemSelectHandler): (effect: Effect)
    ensures onItemSelect.DefaultNoOp? <==> effect.NoEffect?
    ensures effect.ItemSelected? ==> effect.kind == entry.kind
  {
    match onItemSelect
    case DefaultNoOp => NoEffect
    case Provided => ItemSelected(entry.kind)
  }

  /** The table is video, audio, skype, text, and exactly video and skype are main-only. */
  lemma TableShape()
    ensures |Activities| == 4
    ensures Activities[0].kind == "video" && Activities[1].kind == "audio"
    ensures Activities[2].kind == "skype" && Activities[3].kind == "text"
    ensures forall i :: 0 <= i < |Activities| ==>
              (Activities[i].mainOnly <==> Activities[i].kind == "video" || Activities[i].kind == "skype")
  {
  }

  /**
   * The table agrees with the kind sets: every kind is a main kind, and an item
   * is main-only exactly when its kind is not a secondary kind.
   */
  lemma TableAgreesWithKinds()
    ensures forall i :: 0 <= i < |Activities| ==> IsMainActivityKind(Activities[i].kind)
    ensures forall i :: 0 <= i < |Activities| ==>
              (Activities[i].mainOnly <==> !IsSecondaryActivityKind(Activities[i].kind))
  {
    forall i | 0 <= i < |Activities|
      ensures Activities[i].mainOnly <==> !IsSecondaryActivityKind(Activities[i].kind)
    {
      MainOnlyKinds(Activities[i].kind);
    }
  }

  /** An open picker disables an item exactly outside the main area and for a kind the secondary area refuses. */
  lemma DisabledIff(picker: PickerState, activityArea: Option<string>, i: int)
    requires picker.open && 0 <= i < |Activities|
    ensures Render(picker, activityArea).value[i].disabled
            <==> activityArea != Some("main") && !IsSecondaryActivityKind(Activities[i].kind)
  {
    TableAgreesWithKinds();
  }

  /** In the main area nothing is disabled; in any other area, or none, exactly video and skype are. */
  lemma DisabledKinds(picker: PickerState, activityArea: Option<string>)
    requires picker.open
    ensures activityArea == Some("main") ==>
              forall i :: 0 <= i < |Activities| ==> !Render(picker, activityArea).value[i].disabled
    ensures activityArea != Some("main") ==>
              (set i | 0 <= i < |Activities| && Render(picker, activityArea).value[i].disabled
                 :: Activities[i].kind) == {"video", "skype"}
  {
    if activityArea != Some("main") {
      var list := Render(picker, activityArea).value;
      var disabledKinds := set i | 0 <= i < |Activities| && list[i].disabled :: Activities[i].kind;
      assert list[0].disabled && list[2].disabled;
      assert "video" in disabledKinds && "skype" in disabledKinds;
      forall k | k in disabledKinds ensures k == "video" || k == "skype"
      {
        var i :| 0 <= i < |Activities| && list[i].disabled && Activities[i].kind == k;
      }
    }
  }

  /** Clicking the i-th entry with a handler selects exactly the i-th table kind. */
  lemma ClickSelectsOwnKind(picker: PickerState, activityArea: Option<string>, i: int)
    requires picker.open && 0 <= i < |Activities|
    ensures Click(Render(picker, activityArea).value[i], Provided) == ItemSelected(Activities[i].kind)
  {
  }
}
