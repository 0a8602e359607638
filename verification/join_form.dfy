/**
 * The join form of the meeting section: a room-code field, audio and video
 * switches, joining an existing room by code, and creating (joining) the fixed
 * room after a two-second animation. The video SDK's token request and join are
 * one outcome parameter: `sdkOk` is true when both resolve.
 */
module JoinForm {
  import opened Wrappers
  import opened Text
  import MeetingTypeModal
  import MeetingInterface

  /** `FIXED_ROOM_CODE`: every created room is this one. */
  const FixedRoomCode: string := "wml-aiox-vtq"

  /** The name of the room-code input, which is also its key in the input map. */
  const RoomCodeField: string := "roomCode"

  datatype FormState = FormState(
    inputValues: map<string, string>,
    isAudioEnabled: bool,
    isVideoEnabled: bool,
    isCreatingRoom: bool,
    roomCodeCopied: bool)

  /** On mount: an empty room code, audio and video on, not creating, nothing copied. */
  function Initial(): (r: FormState)
    ensures RoomCode(r) == "" && JoinDisabled(r)
    ensures r.isAudioEnabled && r.isVideoEnabled && !r.isCreatingRoom && !r.roomCodeCopied
  {
    FormState(map[RoomCodeField := ""], true, true, false, false)
  }

  /** `handleInputChange`: the input's value under the input's name; every other field is kept. */
  function InputChange(s: FormState, name: string, value: string): (r: FormState)
    ensures name in r.inputValues && r.inputValues[name] == value
    ensures r.inputValues.Keys == s.inputValues.Keys + {name}
    ensures forall k :: k in s.inputValues && k != name ==> r.inputValues[k] == s.inputValues[k]
    ensures r.isAudioEnabled == s.isAudioEnabled && r.isVideoEnabled == s.isVideoEnabled
    ensures r.isCreatingRoom == s.isCreatingRoom && r.roomCodeCopied == s.roomCodeCopied
  {
    s.(inputValues := s.inputValues[name := value])
  }

  /** `const { roomCode = "" } = inputValues`: the typed code, "" when the field is missing. */
  function RoomCode(s: FormState): (code: string)
    ensures RoomCodeField in s.inputValues ==> code == s.inputValues[RoomCodeField]
    ensures RoomCodeField !in s.inputValues ==> code == ""
  {
    if RoomCodeField in s.inputValues then s.inputValues[RoomCodeField] else ""
  }

  /** Typing into the room-code field sets the code; typing into another field leaves it. */
  lemma TypingSetsRoomCode(s: FormState, name: string, value: string)
    ensures name == RoomCodeField ==> RoomCode(InputChange(s, name, value)) == value
    ensures name != RoomCodeField ==> RoomCode(InputChange(s, name, value)) == RoomCode(s)
  {
  }

  /** The join button is disabled exactly when the trimmed code is empty. */
  predicate JoinDisabled(s: FormState) {
    Trim(RoomCode(s)) == ""
  }

  /** The join button is disabled exactly for a code made only of white space. */
  lemma JoinDisabledIffBlank(s: FormState)
    ensures JoinDisabled(s) <==> IsBlank(RoomCode(s))
  {
  }

  /** `userName || "Anonymous"`: the login name when it is given and non-empty. */
  function DisplayName(userName: Option<string>): (r: string)
    ensures userName.Some? && userName.value != "" ==> r == userName.value
    ensures userName.None? || userName.value == "" ==> r == "Anonymous"
    ensures r != ""
  {
    if userName.Some? && userName.value != "" then userName.value else "Anonymous"
  }

  /** The join settings handed to the SDK. */
  datatype Settings = Settings(isAudioMuted: bool, isVideoMuted: bool)

  /** The SDK join request: room code, display name and settings. */
  datatype JoinRequest = JoinRequest(roomCode: string, userName: string, settings: Settings)

  /** Audio and video are muted exactly when switched off. */
  function JoinSettings(s: FormState): (r: Settings)
    ensures r.isAudioMuted <==> !s.isAudioEnabled
    ensures r.isVideoMuted <==> !s.isVideoEnabled
  {
    Settings(!s.isAudioEnabled, !s.isVideoEnabled)
  }

  /** What the parent's `onJoin` receives. */
  datatype JoinReport = JoinReport(code: string, isRoomCreator: bool)

  /** A submit or create: the request sent to the SDK, the parent report, and the next state. */
  datatype Outcome = Outcome(request: JoinRequest, report: Option<JoinReport>, next: FormState)

  /**
   * `handleSubmit`: asks the SDK to join the typed room as the display name with the
   * current settings; on success the parent (when there is one) learns the code and
   * that the user did not create the room. The form state does not change.
   */
  function Submit(s: FormState, userName: Option<string>, sdkOk: bool, hasOnJoin: bool): (o: Outcome)
    ensures o.request == JoinRequest(RoomCode(s), DisplayName(userName), JoinSettings(s))
    ensures o.report.Some? <==> sdkOk && hasOnJoin
    ensures o.report.Some? ==> o.report.value == JoinReport(RoomCode(s), false)
    ensures o.next == s
  {
    var request := JoinRequest(RoomCode(s), DisplayName(userName), JoinSettings(s));
    Outcome(request, if sdkOk && hasOnJoin then Some(JoinReport(RoomCode(s), false)) else None, s)
  }

  /** `handleCreateRoom`'s immediate part: the creating animation starts. */
  function CreateRoomClick(s: FormState): (r: FormState)
    ensures r.isCreatingRoom
    ensures RoomCode(r) == RoomCode(s) && JoinSettings(r) == JoinSettings(s)
  {
    s.(isCreatingRoom := true)
  }

  /**
   * The 2000 ms timer of `handleCreateRoom`: joins the fixed room; on success the
   * parent learns the fixed code and that the user created the room, on failure the
   * animation stops.
   */
  function CreateRoomFires(s: FormState, userName: Option<string>, sdkOk: bool, hasOnJoin: bool): (o: Outcome)
    ensures o.request == JoinRequest(FixedRoomCode, DisplayName(userName), JoinSettings(s))
    ensures o.report.Some? <==> sdkOk && hasOnJoin
    ensures o.report.Some? ==> o.report.value == JoinReport(FixedRoomCode, true)
    ensures !sdkOk ==> o.next == s.(isCreatingRoom := false)
    ensures sdkOk ==> o.next == s
  {
    var request := JoinRequest(FixedRoomCode, DisplayName(userName), JoinSettings(s));
    var report := if sdkOk && hasOnJoin then Some(JoinReport(FixedRoomCode, true)) else None;
    Outcome(request, report, if sdkOk then s else s.(isCreatingRoom := false))
  }

  /** `copyRoomCode`: the copied mark is shown (the clipboard write is not modelled). */
  function CopyRoomCode(s: FormState): (r: FormState)
    ensures r.roomCodeCopied && r.isCreatingRoom == s.isCreatingRoom
  {
    s.(roomCodeCopied := true)
  }

  /** The 2000 ms timer after a copy hides the mark again. */
  function CopyTimerFires(s: FormState): (r: FormState)
    ensures !r.roomCodeCopied && r.isCreatingRoom == s.isCreatingRoom
  {
    s.(roomCodeCopied := false)
  }

  /** The audio switch. */
  function ToggleAudio(s: FormState): (r: FormState)
    ensures r.isAudioEnabled == !s.isAudioEnabled
    ensures JoinSettings(r).isVideoMuted == JoinSettings(s).isVideoMuted
  {
    s.(isAudioEnabled := !s.isAudioEnabled)
  }

  /** The video switch. */
  function ToggleVideo(s: FormState): (r: FormState)
    ensures r.isVideoEnabled == !s.isVideoEnabled
    ensures JoinSettings(r).isAudioMuted == JoinSettings(s).isAudioMuted
  {
    s.(isVideoEnabled := !s.isVideoEnabled)
  }

  /** Each switch flipped twice restores the form. */
  lemma TogglesAreInvolutions(s: FormState)
    ensures ToggleAudio(ToggleAudio(s)) == s
    ensures ToggleVideo(ToggleVideo(s)) == s
  {
  }

  /** The form's own meeting-type table: id, title and description. */
  datatype FormType = FormType(id: string, title: string, description: string)

  const FormTypes: seq<FormType> := [
    FormType("interview", "Job Interview",
      "Technical or behavioral interview with potential employers"),
    FormType("client", "Client Call",
      "Business meeting with clients or stakeholders"),
    FormType("technical", "Technical Meeting",
      "Code review, architecture discussion, or technical planning"),
    FormType("team", "Team Meeting",
      "Internal team sync, standup, or collaborative session"),
    FormType("presentation", "Presentation",
      "Presenting to an audience or pitching ideas"),
    FormType("consultation", "Consultation",
      "Advisory or consulting session with experts")
  ]

  /** The form's table lists the dialog's types, in the same order, with the same texts. */
  lemma FormTypesMatchDialog()
    ensures |FormTypes| == |MeetingTypeModal.MeetingTypes|
    ensures forall i :: 0 <= i < |FormTypes| ==>
      var d := MeetingTypeModal.MeetingTypes[i];
      FormTypes[i] == FormType(d.id, d.title, d.description)
  {
  }

  /** The first entry of the form's table at or after `k` with the given id. */
  function FindFormType(id: string, k: nat): (r: Option<nat>)
    requires k <= |FormTypes|
    ensures r.Some? ==> k <= r.value < |FormTypes| && FormTypes[r.value].id == id
    ensures r.Some? ==> forall j :: k <= j < r.value ==> FormTypes[j].id != id
    ensures r.None? ==> forall j :: k <= j < |FormTypes| ==> FormTypes[j].id != id
    decreases |FormTypes| - k
  {
    if k == |FormTypes| then None
    else if FormTypes[k].id == id then Some(k)
    else FindFormType(id, k + 1)
  }

  /**
   * `meetingTypes.find(type => type.id === meetingType) || meetingTypes[0]`: the entry
   * with the given id, and the job interview entry for a missing or unknown type.
   */
  function SelectedMeetingType(meetingType: Option<string>): (r: FormType)
    ensures r in FormTypes
    ensures meetingType.Some? && (exists i :: 0 <= i < |FormTypes| && FormTypes[i].id == meetingType.value)
            ==> r.id == meetingType.value
    ensures meetingType.None? || (forall i :: 0 <= i < |FormTypes| ==> FormTypes[i].id != meetingType.value)
            ==> r == FormTypes[0]
  {
    if meetingType.None? then FormTypes[0]
    else match FindFormType(meetingType.value, 0)
      case Some(i) => FormTypes[i]
      case None => FormTypes[0]
  }

  /** A type chosen in the dialog is always found, so the form shows that type's title and description. */
  lemma DialogTypeFound(i: nat)
    requires i < |MeetingTypeModal.MeetingTypes|
    ensures var d := MeetingTypeModal.MeetingTypes[i];
      SelectedMeetingType(Some(d.id)) == FormType(d.id, d.title, d.description)
  {
    FormTypesMatchDialog();
    MeetingTypeModal.MeetingTypeIdsDistinct();
    var d := MeetingTypeModal.MeetingTypes[i];
    assert FormTypes[i].id == d.id;
  }

  /**
   * A successful join by code makes the meeting section a non-creator in the typed
   * room; a successful create makes it the creator of the fixed room.
   */
  lemma ReportsReachMeetingSection(s: FormState, m: MeetingInterface.MIState, userName: Option<string>)
    ensures var o := Submit(s, userName, true, true);
      MeetingInterface.JoinMeeting(m, o.report.value.code, o.report.value.isRoomCreator).roomCode == RoomCode(s)
      && !MeetingInterface.JoinMeeting(m, o.report.value.code, o.report.value.isRoomCreator).isRoomCreator
    ensures var o := CreateRoomFires(s, userName, true, true);
      MeetingInterface.JoinMeeting(m, o.report.value.code, o.report.value.isRoomCreator).roomCode == FixedRoomCode
      && MeetingInterface.JoinMeeting(m, o.report.value.code, o.report.value.isRoomCreator).isRoomCreator
  {
  }
}
