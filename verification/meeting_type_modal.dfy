/**
 * The "Start Your Meeting" dialog: six meeting-type cards, one selection, the
 * colour classes of each card, and the Continue button that reports the
 * selected type.
 */
module MeetingTypeModal {
  import opened Wrappers
  import opened Text

  datatype MeetingType = MeetingType(id: string, title: string, description: string, color: string)

  /** `meetingTypes`, in display order. */
  const MeetingTypes: seq<MeetingType> := [
    MeetingType("interview", "Job Interview",
      "Technical or behavioral interview with potential employers", "blue"),
    MeetingType("client", "Client Call",
      "Business meeting with clients or stakeholders", "green"),
    MeetingType("technical", "Technical Meeting",
      "Code review, architecture discussion, or technical planning", "purple"),
    MeetingType("team", "Team Meeting",
      "Internal team sync, standup, or collaborative session", "orange"),
    MeetingType("presentation", "Presentation",
      "Presenting to an audience or pitching ideas", "red"),
    MeetingType("consultation", "Consultation",
      "Advisory or consulting session with experts", "indigo")
  ]

  /** The six ids are pairwise distinct and none is empty. */
  lemma MeetingTypeIdsDistinct()
    ensures |MeetingTypes| == 6
    ensures forall i, j :: 0 <= i < j < |MeetingTypes| ==> MeetingTypes[i].id != MeetingTypes[j].id
    ensures forall i :: 0 <= i < |MeetingTypes| ==> MeetingTypes[i].id != ""
  {
  }

  /** A card's classes when selected and when not. */
  datatype CardClasses = CardClasses(selected: string, unselected: string)

  /** The `colors` table of `getColorClasses`. */
  const CardColors: map<string, CardClasses> := map[
    "blue" := CardClasses("border-blue-500 bg-blue-50 text-blue-700",
                          "border-gray-200 hover:border-blue-300 hover:bg-blue-50"),
    "green" := CardClasses("border-green-500 bg-green-50 text-green-700",
                           "border-gray-200 hover:border-green-300 hover:bg-green-50"),
    "purple" := CardClasses("border-purple-500 bg-purple-50 text-purple-700",
                            "border-gray-200 hover:border-purple-300 hover:bg-purple-50"),
    "orange" := CardClasses("border-orange-500 bg-orange-50 text-orange-700",
                            "border-gray-200 hover:border-orange-300 hover:bg-orange-50"),
    "red" := CardClasses("border-red-500 bg-red-50 text-red-700",
                         "border-gray-200 hover:border-red-300 hover:bg-red-50"),
    "indigo" := CardClasses("border-indigo-500 bg-indigo-50 text-indigo-700",
                            "border-gray-200 hover:border-indigo-300 hover:bg-indigo-50")
  ]

  /** The `colors` table of `getIconColorClasses`. */
  const IconColors: map<string, string> := map[
    "blue" := "text-blue-600 bg-blue-100",
    "green" := "text-green-600 bg-green-100",
    "purple" := "text-purple-600 bg-purple-100",
    "orange" := "text-orange-600 bg-orange-100",
    "red" := "text-red-600 bg-red-100",
    "indigo" := "text-indigo-600 bg-indigo-100"
  ]

  /** `getColorClasses`: the colour's variant for the selection state, blue's for an unknown colour. */
  function ColorClasses(color: string, isSelected: bool): (r: string)
    ensures color !in CardColors ==>
      r == if isSelected then CardColors["blue"].selected else CardColors["blue"].unselected
    ensures color in CardColors && isSelected ==> r == CardColors[color].selected
    ensures color in CardColors && !isSelected ==> r == CardColors[color].unselected
  {
    var c := if color in CardColors then CardColors[color] else CardColors["blue"];
    if isSelected then c.selected else c.unselected
  }

  /** `getIconColorClasses`: the colour's icon classes, blue's for an unknown colour. */
  function IconColorClasses(color: string): (r: string)
    ensures color !in IconColors ==> r == IconColors["blue"]
    ensures color in IconColors ==> r == IconColors[color]
  {
    if color in IconColors then IconColors[color] else IconColors["blue"]
  }

  /** Every card's colour is in both tables, so no card falls back to blue. */
  lemma ColorTablesCoverCards()
    ensures forall i :: 0 <= i < |MeetingTypes| ==>
      MeetingTypes[i].color in CardColors && MeetingTypes[i].color in IconColors
  {
  }

  /** A selected card looks different from an unselected one. */
  lemma SelectionChangesClasses()
    ensures forall c :: c in CardColors ==> CardColors[c].selected != CardColors[c].unselected
  {
  }

  /** Different colours never share classes. */
  lemma ColorsNeverShareClasses()
    ensures forall c, d :: c in CardColors && d in CardColors && c != d ==>
      CardColors[c].selected != CardColors[d].selected && IconColors[c] != IconColors[d]
  {
  }

  /** The dialog's one piece of state: the selected id, "" when none. */
  datatype ModalState = ModalState(selectedType: string)

  /** Nothing is selected when the dialog opens. */
  function Initial(): (r: ModalState)
    ensures !ConfirmationShown(r)
  {
    ModalState("")
  }

  /** The confirmation block (with Continue) is shown once something is selected. */
  predicate ConfirmationShown(s: ModalState) {
    s.selectedType != ""
  }

  /** Card `i` renders as selected. */
  predicate CardSelected(s: ModalState, i: nat)
    requires i < |MeetingTypes|
  {
    s.selectedType == MeetingTypes[i].id
  }

  /** Clicking card `i` selects its id, shows the confirmation, and makes it the only selected card. */
  function ClickCard(s: ModalState, i: nat): (r: ModalState)
    requires i < |MeetingTypes|
    ensures r.selectedType == MeetingTypes[i].id
    ensures ConfirmationShown(r)
    ensures forall j :: 0 <= j < |MeetingTypes| ==> (CardSelected(r, j) <==> j == i)
  {
    MeetingTypeIdsDistinct();
    ModalState(MeetingTypes[i].id)
  }

  /** `meetingTypes.find(t => t.id === id)`. */
  function FindType(id: string): (r: Option<MeetingType>)
    ensures r.Some? ==> r.value in MeetingTypes && r.value.id == id
    ensures r.None? ==> forall i :: 0 <= i < |MeetingTypes| ==> MeetingTypes[i].id != id
  {
    FindFrom(id, 0)
  }

  function FindFrom(id: string, k: nat): (r: Option<MeetingType>)
    requires k <= |MeetingTypes|
    ensures r.Some? ==> r.value in MeetingTypes[k..] && r.value.id == id
    ensures r.None? ==> forall i :: k <= i < |MeetingTypes| ==> MeetingTypes[i].id != id
    decreases |MeetingTypes| - k
  {
    if k == |MeetingTypes| then None
    else if MeetingTypes[k].id == id then Some(MeetingTypes[k])
    else FindFrom(id, k + 1)
  }

  /** The confirmation heading's type name: the lower-cased title of the selected type. */
  function ConfirmTitle(s: ModalState): (r: Option<string>)
    ensures r.Some? <==> exists i :: 0 <= i < |MeetingTypes| && CardSelected(s, i)
  {
    match FindType(s.selectedType)
    case None => None
    case Some(t) =>
      var j :| 0 <= j < |MeetingTypes| && MeetingTypes[j] == t;
      assert CardSelected(s, j);
      Some(LowerStr(t.title))
  }

  /** After clicking card `i`, the confirmation names that card's type. */
  lemma ConfirmTitleAfterClick(s: ModalState, i: nat)
    requires i < |MeetingTypes|
    ensures ConfirmTitle(ClickCard(s, i)) == Some(LowerStr(MeetingTypes[i].title))
  {
    MeetingTypeIdsDistinct();
    var t := FindType(MeetingTypes[i].id);
    var j :| 0 <= j < |MeetingTypes| && MeetingTypes[j] == t.value;
  }

  /** Continue: reports exactly the selected id, and exists only once something is selected. */
  function Continue(s: ModalState): (r: Option<string>)
    ensures r.Some? <==> ConfirmationShown(s)
    ensures r.Some? ==> r.value == s.selectedType
  {
    if ConfirmationShown(s) then Some(s.selectedType) else None
  }

  /** A click on card `i` followed by Continue reports card `i`'s id. */
  lemma ClickThenContinue(s: ModalState, i: nat)
    requires i < |MeetingTypes|
    ensures Continue(ClickCard(s, i)) == Some(MeetingTypes[i].id)
  {
  }
}
