/**
 * The dashboard's sidebar: its fixed menu, which entry is highlighted, and the
 * dashboard event each of its buttons reports.
 */
module Sidebar {
  import opened Dashboard

  datatype MenuItem = MenuItem(id: Section, caption: string)

  /** `menuItems`, in display order. */
  const MenuItems: seq<MenuItem> := [
    MenuItem(About, "About"),
    MenuItem(Uploads, "Uploads"),
    MenuItem(Meeting, "Meetings"),
    MenuItem(Previous, "Previous Meetings")
  ]

  /** `isActive`: an entry is highlighted when its id is the active section. */
  predicate IsHighlighted(item: MenuItem, active: Section) {
    item.id == active
  }

  /** The index of the menu entry for a section. */
  function EntryOf(s: Section): (i: nat)
    ensures i < |MenuItems| && MenuItems[i].id == s
  {
    match s
    case About => 0
    case Uploads => 1
    case Meeting => 2
    case Previous => 3
  }

  /**
   * The menu has four entries in the order about, uploads, meeting, previous, and
   * every section appears exactly once.
   */
  lemma MenuCoversSections()
    ensures |MenuItems| == 4
    ensures MenuItems[0].id == About && MenuItems[1].id == Uploads
    ensures MenuItems[2].id == Meeting && MenuItems[3].id == Previous
    ensures forall i, j :: 0 <= i < j < |MenuItems| ==> MenuItems[i].id != MenuItems[j].id
  {
  }

  /** Exactly one entry is highlighted: the one for the active section. */
  lemma ExactlyOneHighlighted(active: Section)
    ensures forall i :: 0 <= i < |MenuItems| ==> (IsHighlighted(MenuItems[i], active) <==> i == EntryOf(active))
  {
  }

  /** The sidebar's buttons. */
  datatype Button =
    | Entry(index: nat)    // one of the menu entries
    | NewMeeting           // the "New Meeting" button
    | Close                // the close (X) button

  /** The dashboard event a click reports: an entry its own id, New Meeting the meeting section, close a toggle. */
  function Click(b: Button): (e: Event)
    requires b.Entry? ==> b.index < |MenuItems|
    ensures b.Entry? ==> e == SelectSection(MenuItems[b.index].id)
    ensures b.NewMeeting? ==> e == SelectSection(Meeting)
    ensures b.Close? ==> e == ToggleSidebar
  {
    match b
    case Entry(i) => SelectSection(MenuItems[i].id)
    case NewMeeting => SelectSection(Meeting)
    case Close => ToggleSidebar
  }

  /**
   * After a click on an entry, that entry and no other is highlighted and the sidebar
   * stays as it was; the close button never changes the section.
   */
  lemma ClickHighlightsEntry(s: DashState, i: nat)
    requires i < |MenuItems|
    ensures forall j :: 0 <= j < |MenuItems| ==>
      (IsHighlighted(MenuItems[j], Step(s, Click(Entry(i))).section) <==> j == i)
    ensures Step(s, Click(Entry(i))).sidebarOpen == s.sidebarOpen
    ensures Step(s, Click(Close)).section == s.section
  {
    ExactlyOneHighlighted(MenuItems[i].id);
  }
}
