/**
 * The join-by-link page: the visitor types a name, toggles camera and
 * microphone, and joins; the join is a simulated 800 ms wait, so it is split
 * into the click and the settling of that wait (`ok` is whether it settles
 * without an error).
 */
module JoinMeeting {
  import opened Text

  const NameRequiredError: string := "Please enter your name to join the meeting"
  const JoinFailedError: string := "Failed to join meeting. Please try again."

  datatype JMState = JMState(
    userName: string,
    isVideoEnabled: bool,
    isAudioEnabled: bool,
    hasJoined: bool,
    isLoading: bool,
    error: string)

  /** On mount: no name, camera and microphone on, not joined, not loading, no error. */
  function Initial(): (r: JMState)
    ensures r.userName == "" && JoinDisabled(r)
    ensures r.isVideoEnabled && r.isAudioEnabled && !r.hasJoined && !r.isLoading && r.error == ""
  {
    JMState("", true, true, false, false, "")
  }

  /** The name field; it is disabled, so ignores typing, while a join is in progress. */
  function TypeName(s: JMState, value: string): (r: JMState)
    ensures !s.isLoading ==> r == s.(userName := value)
    ensures s.isLoading ==> r == s
  {
    if s.isLoading then s else s.(userName := value)
  }

  /**
   * The click part of `handleJoinMeeting`: a blank name only sets the name-required
   * error; any other name starts loading and clears the error.
   */
  function JoinClick(s: JMState): (r: JMState)
    ensures IsBlank(s.userName) ==> r == s.(error := NameRequiredError)
    ensures !IsBlank(s.userName) ==> r == s.(isLoading := true, error := "")
    ensures r.hasJoined == s.hasJoined && r.userName == s.userName
  {
    if Trim(s.userName) == "" then s.(error := NameRequiredError)
    else s.(isLoading := true, error := "")
  }

  /** The settling of the wait: joined on success, the failure message otherwise; loading ends either way. */
  function JoinSettles(s: JMState, ok: bool): (r: JMState)
    ensures !r.isLoading
    ensures ok ==> r.hasJoined && r.error == s.error
    ensures !ok ==> r.hasJoined == s.hasJoined && r.error == JoinFailedError
    ensures r.userName == s.userName
  {
    if ok then s.(hasJoined := true, isLoading := false)
    else s.(error := JoinFailedError, isLoading := false)
  }

  /**
   * The whole join with a non-blank name that settles successfully: the error is
   * cleared and the page ends joined and not loading; with a blank name nothing but
   * the error changes and no join starts.
   */
  lemma JoinOutcome(s: JMState)
    ensures !IsBlank(s.userName) ==>
      var r := JoinSettles(JoinClick(s), true);
      r.hasJoined && !r.isLoading && r.error == ""
    ensures IsBlank(s.userName) ==>
      JoinClick(s).hasJoined == s.hasJoined && JoinClick(s).isLoading == s.isLoading
      && JoinClick(s).error == NameRequiredError
  {
  }

  /** `handleLeaveMeeting`: leaves the meeting; `onBack` is called exactly when the page has one. */
  function Leave(s: JMState, hasOnBack: bool): (r: (JMState, bool))
    ensures !r.0.hasJoined
    ensures r.1 <==> hasOnBack
    ensures r.0.userName == s.userName && r.0.error == s.error
  {
    (s.(hasJoined := false), hasOnBack)
  }

  /** The join button is disabled while loading or while the trimmed name is empty. */
  predicate JoinDisabled(s: JMState) {
    s.isLoading || Trim(s.userName) == ""
  }

  /** An enabled join button always starts loading when clicked. */
  lemma EnabledJoinStartsLoading(s: JMState)
    ensures !JoinDisabled(s) <==> !s.isLoading && !IsBlank(s.userName)
    ensures !JoinDisabled(s) ==> JoinClick(s).isLoading && JoinClick(s).error == ""
  {
  }

  /** The camera preview's caption: the name as typed, or "You" while it is empty. */
  function PreviewLabel(s: JMState): (r: string)
    ensures s.userName != "" ==> r == s.userName
    ensures s.userName == "" ==> r == "You"
    ensures r != ""
  {
    if s.userName != "" then s.userName else "You"
  }

  function ToggleAudio(s: JMState): (r: JMState)
    ensures r.isAudioEnabled == !s.isAudioEnabled && r.isVideoEnabled == s.isVideoEnabled
  {
    s.(isAudioEnabled := !s.isAudioEnabled)
  }

  function ToggleVideo(s: JMState): (r: JMState)
    ensures r.isVideoEnabled == !s.isVideoEnabled && r.isAudioEnabled == s.isAudioEnabled
  {
    s.(isVideoEnabled := !s.isVideoEnabled)
  }

  /** Each switch flipped twice restores the page. */
  lemma TogglesAreInvolutions(s: JMState)
    ensures ToggleAudio(ToggleAudio(s)) == s
    ensures ToggleVideo(ToggleVideo(s)) == s
  {
  }
}
