/**
 * The meeting section: first the meeting-type dialog, then, once a type is
 * chosen, the join form until the video SDK reports a connection, and the
 * conference view from then on. Whether the SDK is connected is an input.
 */
module MeetingInterface {
  import opened Wrappers
  import MeetingTypeModal

  datatype MIState = MIState(
    meetingStarted: bool,
    showModal: bool,
    meetingType: string,
    roomCode: string,
    isRoomCreator: bool)

  /** The dialog is shown exactly until a meeting is started. */
  predicate Inv(s: MIState) {
    s.showModal == !s.meetingStarted
  }

  /** The state on mount: dialog shown, nothing started, no type or code, not the creator. */
  function Initial(): (r: MIState)
    ensures Inv(r) && r.showModal && !r.meetingStarted
    ensures r.meetingType == "" && r.roomCode == "" && !r.isRoomCreator
  {
    MIState(false, true, "", "", false)
  }

  /** `handleStartMeeting`: records the type, hides the dialog and starts the meeting; code and creator flag stay. */
  function StartMeeting(s: MIState, meetingType: string): (r: MIState)
    ensures Inv(r) && r.meetingStarted && !r.showModal && r.meetingType == meetingType
    ensures r.roomCode == s.roomCode && r.isRoomCreator == s.isRoomCreator
  {
    s.(meetingType := meetingType, showModal := false, meetingStarted := true)
  }

  /** `handleJoinMeeting`, the join form's callback: records the room code and creator flag and nothing else. */
  function JoinMeeting(s: MIState, code: string, isCreator: bool): (r: MIState)
    ensures r.roomCode == code && r.isRoomCreator == isCreator
    ensures r.meetingStarted == s.meetingStarted && r.showModal == s.showModal
    ensures r.meetingType == s.meetingType
    ensures Inv(s) ==> Inv(r)
  {
    s.(roomCode := code, isRoomCreator := isCreator)
  }

  /** What the section renders. */
  datatype MIView =
    | TypeDialog
    | ConferenceView(userId: string, meetingType: string, roomCode: string, isRoomCreator: bool)
    | JoinFormView(meetingType: string, userName: Option<string>)
    | Nothing

  /**
   * The dialog while it is shown; else, once started, the conference when connected
   * and the join form when not; else nothing.
   */
  function Render(s: MIState, connected: bool, userId: string, userName: Option<string>): (v: MIView)
    ensures v.TypeDialog? <==> s.showModal
    ensures v.ConferenceView? <==> !s.showModal && s.meetingStarted && connected
    ensures v.JoinFormView? <==> !s.showModal && s.meetingStarted && !connected
    ensures v.ConferenceView? ==> v == ConferenceView(userId, s.meetingType, s.roomCode, s.isRoomCreator)
    ensures v.JoinFormView? ==> v == JoinFormView(s.meetingType, userName)
  {
    if s.showModal then TypeDialog
    else if s.meetingStarted then
      if connected then ConferenceView(userId, s.meetingType, s.roomCode, s.isRoomCreator)
      else JoinFormView(s.meetingType, userName)
    else Nothing
  }

  /** Under the invariant the section is never blank. */
  lemma NeverBlank(s: MIState, connected: bool, userId: string, userName: Option<string>)
    requires Inv(s)
    ensures !Render(s, connected, userId, userName).Nothing?
  {
  }

  /** The before-unload handler: whether it leaves the room. It does so exactly when connected. */
  function UnloadLeaves(connected: bool): (leave: bool)
    ensures leave <==> connected
  {
    if connected then true else false
  }

  /**
   * The whole flow: a card click and Continue in the dialog start a meeting of that
   * card's type, the join form shows until the SDK connects, and after the join
   * callback the conference receives the code and the creator flag.
   */
  lemma DialogToConference(i: nat, code: string, isCreator: bool, userId: string, userName: Option<string>)
    requires i < |MeetingTypeModal.MeetingTypes|
    ensures var chosen := MeetingTypeModal.Continue(MeetingTypeModal.ClickCard(MeetingTypeModal.Initial(), i));
      && chosen.Some?
      && var started := StartMeeting(Initial(), chosen.value);
      && Render(started, false, userId, userName)
         == JoinFormView(MeetingTypeModal.MeetingTypes[i].id, userName)
      && Render(JoinMeeting(started, code, isCreator), true, userId, userName)
         == ConferenceView(userId, MeetingTypeModal.MeetingTypes[i].id, code, isCreator)
  {
    MeetingTypeModal.ClickThenContinue(MeetingTypeModal.Initial(), i);
  }
}
