/**
 * The signed-in dashboard: which of the four sections is shown, whether the
 * sidebar is open, whether the profile dropdown is open, and the two global
 * listeners (outside mouse-down, Escape) that exist only while the sidebar is
 * open.
 *
 * Every event handler is followed by a run of the `[sidebarOpen]` effect
 * (`Sync`): its clean-up removes both listeners and, when the sidebar is open,
 * it adds them again. React re-runs that effect only when `sidebarOpen`
 * changes, but a run that finds `sidebarOpen` unchanged leaves the listener set
 * as it was, so running it after every event is the same thing.
 */
module Dashboard {
  import opened Wrappers
  import opened Text
  import App

  /** `ActiveSection`. */
  datatype Section = About | Uploads | Meeting | Previous

  /** The string the source uses for each section. */
  function SectionId(s: Section): (r: string)
    ensures r in {"about", "uploads", "meeting", "previous"}
  {
    match s
    case About => "about"
    case Uploads => "uploads"
    case Meeting => "meeting"
    case Previous => "previous"
  }

  /** Reading a section id back; any other string falls back to about, as the `default` branch does. */
  function SectionFromId(id: string): (r: Section)
    ensures r != About ==> SectionId(r) == id
    ensures id !in {"uploads", "meeting", "previous"} ==> r == About
  {
    if id == "uploads" then Uploads
    else if id == "meeting" then Meeting
    else if id == "previous" then Previous
    else About
  }

  /** Every section's id reads back as that section, so the ids are pairwise distinct. */
  lemma SectionIdRoundTrip(s: Section)
    ensures SectionFromId(SectionId(s)) == s
    ensures forall t: Section :: SectionId(t) == SectionId(s) ==> t == s
  {
  }

  /** The panel shown in the main area. */
  datatype Panel =
    | AboutPanel
    | UploadsPanel
    | MeetingPanel(sidebarOpen: bool, userId: string, userName: string)
    | PreviousPanel

  /**
   * `renderActiveSection` over the section's string: each known id has its own
   * panel, the meeting panel receives the sidebar state, the user id and the
   * user's name, and every other string renders the about panel.
   */
  function RenderActiveSection(id: string, sidebarOpen: bool, userId: string, userName: string): (p: Panel)
    ensures p.UploadsPanel? <==> id == "uploads"
    ensures p.MeetingPanel? <==> id == "meeting"
    ensures p.PreviousPanel? <==> id == "previous"
    ensures p.AboutPanel? <==> id !in {"uploads", "meeting", "previous"}
    ensures p.MeetingPanel? ==> p == MeetingPanel(sidebarOpen, userId, userName)
  {
    match SectionFromId(id)
    case About => AboutPanel
    case Uploads => UploadsPanel
    case Meeting => MeetingPanel(sidebarOpen, userId, userName)
    case Previous => PreviousPanel
  }

  /** The panel of a section, stated per section rather than per string. */
  lemma RenderSectionPanel(s: Section, sidebarOpen: bool, userId: string, userName: string)
    ensures RenderActiveSection(SectionId(s), sidebarOpen, userId, userName) ==
      match s
      case About => AboutPanel
      case Uploads => UploadsPanel
      case Meeting => MeetingPanel(sidebarOpen, userId, userName)
      case Previous => PreviousPanel
  {
  }

  /** The two document-level listeners. */
  datatype Listener = MouseDownListener | KeyDownListener

  const AllListeners: set<Listener> := {MouseDownListener, KeyDownListener}

  /** The two listeners are all there are, so removing both leaves nothing registered. */
  lemma RemoveAllListeners(ls: set<Listener>)
    ensures ls - AllListeners == {}
  {
    forall l | l in ls
      ensures l in AllListeners
    {
      if l.MouseDownListener? {
      }
    }
  }

  datatype DashState = DashState(
    section: Section,
    sidebarOpen: bool,
    showProfile: bool,
    listeners: set<Listener>)

  /** The listeners registered exactly match the sidebar state. */
  predicate ListenersMatch(s: DashState) {
    s.listeners == if s.sidebarOpen then AllListeners else {}
  }

  /** One run of the `[sidebarOpen]` effect: remove both listeners, then add both back if the sidebar is open. */
  function Sync(s: DashState): (r: DashState)
    ensures ListenersMatch(r)
    ensures r.section == s.section && r.sidebarOpen == s.sidebarOpen && r.showProfile == s.showProfile
  {
    var cleaned := s.listeners - AllListeners;
    RemoveAllListeners(s.listeners);
    s.(listeners := if s.sidebarOpen then cleaned + AllListeners else cleaned)
  }

  /** The state after mounting: about, sidebar open, no dropdown, listeners registered. */
  function Initial(): (r: DashState)
    ensures r.section == About && r.sidebarOpen && !r.showProfile
    ensures r.listeners == AllListeners
  {
    Sync(DashState(About, true, false, {}))
  }

  /** The unmount clean-up removes both listeners. */
  function Unmount(s: DashState): (r: DashState)
    ensures r.listeners == {}
    ensures r.section == s.section && r.sidebarOpen == s.sidebarOpen && r.showProfile == s.showProfile
  {
    RemoveAllListeners(s.listeners);
    s.(listeners := s.listeners - AllListeners)
  }

  /** What can happen on the dashboard. */
  datatype Event =
    | SelectSection(target: Section)        // the sidebar's `onSectionChange`
    | ToggleSidebar                         // the sidebar's `onToggle`
    | OverlayClick                          // the overlay, rendered while the sidebar is open
    | MenuClick                             // the menu button, rendered while the sidebar is closed
    | MouseDown(insideSidebar: bool)        // a mouse-down anywhere in the document
    | KeyDown(key: string)                  // a key press anywhere in the document
    | ProfileClick                          // the avatar button
    | ProfileClose                          // the dropdown's `onClose`

  /** The handlers themselves, before the effect re-runs. */
  function Apply(s: DashState, e: Event): DashState {
    match e
    case SelectSection(t) => s.(section := t)
    case ToggleSidebar => s.(sidebarOpen := !s.sidebarOpen)
    case OverlayClick => if s.sidebarOpen then s.(sidebarOpen := false) else s
    case MenuClick => if !s.sidebarOpen then s.(sidebarOpen := true) else s
    case MouseDown(inside) =>
      if MouseDownListener in s.listeners && s.sidebarOpen && !inside then s.(sidebarOpen := false) else s
    case KeyDown(key) =>
      if KeyDownListener in s.listeners && key == "Escape" && s.sidebarOpen then s.(sidebarOpen := false) else s
    case ProfileClick => s.(showProfile := !s.showProfile)
    case ProfileClose => s.(showProfile := false)
  }

  /** One event followed by the effect. */
  function Step(s: DashState, e: Event): (r: DashState)
    ensures ListenersMatch(r)
    ensures e.SelectSection? ==> r.section == e.target && r.sidebarOpen == s.sidebarOpen
                                 && r.showProfile == s.showProfile
    ensures !e.SelectSection? ==> r.section == s.section
    ensures e.ToggleSidebar? ==> r.sidebarOpen == !s.sidebarOpen
    ensures e.OverlayClick? ==> !r.sidebarOpen
    ensures e.MenuClick? ==> r.sidebarOpen
    ensures (e.ProfileClick? || e.ProfileClose?) ==> r.sidebarOpen == s.sidebarOpen
    ensures e.ProfileClick? ==> r.showProfile == !s.showProfile
    ensures e.ProfileClose? ==> !r.showProfile
    ensures !(e.ProfileClick? || e.ProfileClose?) ==> r.showProfile == s.showProfile
  {
    Sync(Apply(s, e))
  }

  /**
   * With listeners matching the sidebar, an outside mouse-down or Escape closes an
   * open sidebar, and a click inside, another key, or any of them on a closed
   * sidebar changes nothing at all.
   */
  lemma GlobalCloseRules(s: DashState, inside: bool, key: string)
    requires ListenersMatch(s)
    ensures !Step(s, MouseDown(inside)).sidebarOpen <==> (s.sidebarOpen ==> !inside)
    ensures !Step(s, KeyDown(key)).sidebarOpen <==> (s.sidebarOpen ==> key == "Escape")
    ensures !s.sidebarOpen ==> Step(s, MouseDown(inside)) == s && Step(s, KeyDown(key)) == s
    ensures inside ==> Step(s, MouseDown(inside)) == s
    ensures key != "Escape" ==> Step(s, KeyDown(key)) == s
  {
  }

  /** Toggling the sidebar twice returns to the same state. */
  lemma ToggleTwice(s: DashState)
    requires ListenersMatch(s)
    ensures Step(Step(s, ToggleSidebar), ToggleSidebar) == s
  {
  }

  /**
   * A sequence of events: the listeners exist exactly while the sidebar is open
   * after any non-empty run, and after every run that starts from a matching state
   * such as the mounted one.
   */
  function Run(s: DashState, es: seq<Event>): (r: DashState)
    ensures es != [] ==> ListenersMatch(r)
    ensures ListenersMatch(s) ==> ListenersMatch(r)
    decreases |es|
  {
    if es == [] then s else Run(Step(s, es[0]), es[1..])
  }

  /** `name.charAt(0).toUpperCase()`: the upper-cased first character, or "" for an empty name. */
  function Avatar(name: string): (r: string)
    ensures |r| <= 1
    ensures r == "" <==> name == ""
    ensures r != "" ==> r[0] == Upper(name[0])
  {
    if name == "" then "" else [Upper(name[0])]
  }

  /** The avatar never shows a lower-case letter, and it ignores the case of the name. */
  lemma AvatarCaseInsensitive(name: string)
    ensures forall i :: 0 <= i < |Avatar(name)| ==> !('a' <= Avatar(name)[i] <= 'z')
    ensures Avatar(LowerStr(name)) == Avatar(name)
  {
  }

  /**
   * The header's avatar for the user the dashboard receives: reading `user.name`
   * of a missing user throws, modelled as `None`.
   */
  function HeaderAvatar(user: Option<App.User>): (r: Option<string>)
    ensures r.None? <==> user.None?
    ensures r.Some? ==> r.value == Avatar(user.value.name)
  {
    match user
    case None => None
    case Some(u) => Some(Avatar(u.name))
  }

  /** As written, a fresh visit to "/dashboard" hands the header no user, so rendering it fails. */
  lemma DirectDashboardVisitCrashes(now: nat)
    ensures App.Render(App.Initial("/dashboard"), now).DashboardScreen?
    ensures HeaderAvatar(App.Render(App.Initial("/dashboard"), now).user).None?
  {
    App.DirectDashboardVisitHasNoUser(now);
  }

  /** With the guarded render, whenever the dashboard is shown its header renders. */
  lemma GuardedDashboardHeaderRenders(s: App.AppState, now: nat)
    ensures App.RenderGuarded(s, now).DashboardScreen? ==>
      HeaderAvatar(App.RenderGuarded(s, now).user).Some?
  {
  }
}
