# LuminaSync front end, modelled in Dafny

LuminaSync is a React single-page application for AI-assisted meetings. A user
logs in with a name and a profession. The dashboard has four sections: about,
uploads, meeting and previous meetings. The meeting section has a dialog for
choosing the meeting type, a form for joining or creating a video room, a
conference view with participant tiles, a live transcript panel and a chat
assistant. The router also serves a join page for `/join/<channel>` links.

This project models the behaviour of those components as pure state
transitions over immutable datatypes. Each React state hook becomes a field of
a state datatype. Each handler becomes a function from state to state. Each
`setTimeout`/`setInterval` callback becomes a tick or timer event that the
caller applies. Values that come from outside become parameters:

- `Date.now()` and the wall-clock string;
- `Math.random()`, modelled as a choice index;
- success or failure of the video SDK, and whether the SDK is connected;
- the SDK's broadcast list and peer list.

The JavaScript built-ins the components rely on are modelled exactly, in
modules `Text` and `Seqs`:

- `trim` and `\s`, using the ECMAScript white-space set;
- ASCII `toLowerCase`/`toUpperCase`;
- `includes`, `endsWith`, `padStart`;
- `parseInt` (sign, `0x` prefix, longest digit run, `NaN` as `None`);
- `toString` of naturals;
- `filter`, the stable `sort`, and `reduce`.

One module per component:

| module | component |
|---|---|
| `App` | routing effect, splash timer, login and back handlers, user id, render (`App.tsx`) |
| `Dashboard` | sections, sidebar listeners, profile dropdown, avatar |
| `Sidebar` | menu entries, highlighting, clicks |
| `MeetingInterface` | dialog, join form or conference, before-unload handler |
| `MeetingTypeModal` | the six meeting types, selection, colour tables, Continue |
| `JoinForm` | room-code input, join and create handlers, copy mark, switches, type lookup |
| `JoinMeeting` | the `/join` page: name, join/leave, preview caption, switches |
| `LoginPage` | login submission |
| `PreviousMeetings` | search, type filter, sort, stars, topic chips, stat tiles |
| `UploadsSection` | extension icons, search/filter, delete, description editor, upload batch, size label, stat tiles |
| `ChatBot` | welcome message, streamed answers, keyword replies, send handler, resizing, render |
| `TranscriptPanel` | scripted dialogue, typing intervals, broadcast processing, history order, send guard |
| `Conference` | duplicate-free peer list, two tiles, creator layout |
| `LiveMeeting` | mm:ss counter, type heading, confidence badge, switches |
| `Typewriter` | the character-by-character typing shared by `ChatBot` and `TranscriptPanel` |

## Model

| member | source | states |
|---|---|---|
| App.FirstJoinMatch | project/src/App.tsx:41 | the leftmost position at or after `from` where `/\/join\/(.+)/` can match; no earlier position matches, and `None` means no position matches |
| App.DotRun | project/src/App.tsx:41 | the greedy `.+` run stops exactly at the first line terminator or at the end of the path |
| App.JoinChannel | project/src/App.tsx:41-47 | the regex capture: `None` iff no position matches; otherwise a non-empty run taken from the leftmost match that extends to a line terminator or to the end |
| App.JoinChannelOfPlainPath | project/src/App.tsx:41-47 | on a path without line terminators, the channel is everything after the first "/join/", slashes included |
| App.JoinChannelExample | project/src/App.tsx:41-47 | "/join/team/room-7" yields the channel "team/room-7" |
| App.FixedRoutesAreNotJoinLinks | project/src/App.tsx:41-69 | "/", "/login" and "/dashboard" never match the join pattern, so the branches do not overlap |
| App.RunEffect | project/src/App.tsx:38-70 | join links select the join view with their channel; "/login" and "/dashboard" select their views; "/" arms the splash timer; other paths change nothing; user and path are never touched |
| App.RunEffectStable | project/src/App.tsx:38-70 | running the effect again on its own result changes nothing, so one run reaches a fixed point |
| App.SplashTimerFires | project/src/App.tsx:60-69 | the 3-second timer moves to "/login" only when the captured view was splash; otherwise only the timer is spent |
| App.HandleLogin | project/src/App.tsx:72-76 | after login the user is stored, the path is "/dashboard", the dashboard view is selected and no timer is pending |
| App.HandleBackFromJoin | project/src/App.tsx:78-82 | leaving the join page selects login at "/login" and forgets the channel, keeping the user |
| App.SplashThenLogin | project/src/App.tsx:60-69 | mounting at "/" shows splash with the timer armed, and the timer's expiry lands on login |
| App.NavigationCancelsSplashTimer | project/src/App.tsx:60-69 | navigating anywhere but "/" cancels the timer, so its expiry is a no-op |
| App.InvPreserved | project/src/App.tsx:38-82 | the join view always has a channel, on mount and across every handler |
| App.CollapseSpaces | project/src/App.tsx:102 | the result has no white space, is never longer, and a name without white space is unchanged; `CollapseSpacesRun` pins down the rest |
| App.LeadingSpacesAppend | project/src/App.tsx:102 | the `\s+` run at the start of a string ending in a word character is not extended by what follows it |
| App.CollapseSpacesAppend | project/src/App.tsx:102 | cutting a name after a non-white-space character cuts its collapsed form at the same place |
| App.CollapseSpacesAppendStep | project/src/App.tsx:102 | the first run or character of a string comes off the same way when more text follows it |
| App.CollapseSpacesOfRun | project/src/App.tsx:102 | a maximal white-space run at the start becomes exactly one "_" |
| App.CollapseSpacesRun | project/src/App.tsx:102 | for every maximal white-space run w between a and b, collapsing a + w + b gives collapse(a), one "_" and collapse(b); with the identity on names without white space this fixes the result on every name |
| App.WordChars | project/src/App.tsx:102 | selects the characters that are neither white space nor "_", in order |
| App.WordCharsAppend | project/src/App.tsx:102 | word-character selection distributes over concatenation |
| App.WordCharsOfSpaces | project/src/App.tsx:102 | an all-white-space run contributes no word characters |
| App.CollapseSpacesKeepsText | project/src/App.tsx:102 | collapsing white-space runs into "_" keeps every other character, in the same order |
| App.UserId | project/src/App.tsx:102 | "anonymous" without a user; otherwise the collapsed name, "_" and the decimal timestamp, with no white space anywhere |
| App.UserIdNeverAnonymous | project/src/App.tsx:102 | a signed-in user's id is never "anonymous" |
| App.Render | project/src/App.tsx:84-106 | join screen iff the view is join and a channel is set; splash iff splash; login iff login; the dashboard gets the stored user and the user id |
| App.RenderMatchesView | project/src/App.tsx:84-106 | under the invariant, the screen is join iff the view is join and dashboard iff the view is dashboard |
| App.DirectDashboardVisitHasNoUser | project/src/App.tsx:49-57 | as written, a fresh visit to "/dashboard" renders the dashboard with no user and the id "anonymous" |
| App.RenderGuarded | project/src/App.tsx:100-106 | the dashboard is shown only with a user; with a user the screen is as before; the join screen is unaffected |
| App.DirectDashboardVisitGuarded | project/src/App.tsx:100-106 | with the guard, a fresh visit to "/dashboard" shows the login page |
| Dashboard.SectionId | project/src/components/Dashboard.tsx:49-62 | every section has one of the four ids |
| Dashboard.SectionFromId | project/src/components/Dashboard.tsx:49-62 | a non-about result reads back as the id; unknown ids fall back to about |
| Dashboard.SectionIdRoundTrip | project/src/components/Dashboard.tsx:49-62 | section → id → section is the identity, so the ids are pairwise distinct |
| Dashboard.RenderActiveSection | project/src/components/Dashboard.tsx:49-62 | each known id gets its panel; the meeting panel gets the sidebar state, the user id and the name; any other string gets about |
| Dashboard.RenderSectionPanel | project/src/components/Dashboard.tsx:49-62 | the panel of each section, stated per section |
| Dashboard.RemoveAllListeners | project/src/components/Dashboard.tsx:43-46 | removing both listeners leaves none registered, whatever was registered |
| Dashboard.Sync | project/src/components/Dashboard.tsx:38-46 | after the effect, the listeners are registered exactly while the sidebar is open; nothing else changes |
| Dashboard.Initial | project/src/components/Dashboard.tsx:19-21 | mount: about, sidebar open, no dropdown, both listeners registered |
| Dashboard.Unmount | project/src/components/Dashboard.tsx:43-46 | the clean-up removes every listener and keeps the rest |
| Dashboard.Step | project/src/components/Dashboard.tsx:25-120 | per event: section changes only on selection; toggle flips the sidebar; the overlay closes it; the menu opens it; the profile events flip or close only the dropdown; listeners end up matching the sidebar |
| Dashboard.GlobalCloseRules | project/src/components/Dashboard.tsx:26-36 | an outside mouse-down or Escape closes an open sidebar; anything else, or a closed sidebar, leaves the state equal |
| Dashboard.ToggleTwice | project/src/components/Dashboard.tsx:79 | toggling the sidebar twice restores the state |
| Dashboard.Run | project/src/components/Dashboard.tsx:25-47 | after any non-empty event run, or any run from a matching state, listeners exist exactly while the sidebar is open |
| Dashboard.Avatar | project/src/components/Dashboard.tsx:106 | at most one character; empty iff the name is empty; otherwise the upper-cased first character |
| Dashboard.AvatarCaseInsensitive | project/src/components/Dashboard.tsx:106 | the avatar is never a lower-case letter and ignores the case of the name |
| Dashboard.HeaderAvatar | project/src/components/Dashboard.tsx:106 | the header fails (None) exactly when the user is missing; otherwise it is the avatar of the name |
| Dashboard.DirectDashboardVisitCrashes | project/src/components/Dashboard.tsx:106 | as written, a fresh visit to "/dashboard" hands the header no user, so it fails |
| Dashboard.GuardedDashboardHeaderRenders | project/src/components/Dashboard.tsx:106 | with the guarded render, a shown dashboard always has a header avatar |
| Sidebar.EntryOf | project/src/components/Sidebar.tsx:24-29 | every section has a menu entry carrying its id |
| Sidebar.MenuCoversSections | project/src/components/Sidebar.tsx:24-29 | four entries in the order about, uploads, meeting, previous, with no id repeated |
| Sidebar.ExactlyOneHighlighted | project/src/components/Sidebar.tsx:50 | exactly one entry is highlighted, the active section's |
| Sidebar.Click | project/src/components/Sidebar.tsx:39-71 | an entry reports its own id, "New Meeting" reports the meeting section, the close button toggles |
| Sidebar.ClickHighlightsEntry | project/src/components/Sidebar.tsx:55 | after clicking entry i, entry i alone is highlighted and the sidebar is unchanged; close never changes the section |
| MeetingInterface.Initial | project/src/components/MeetingInterface.tsx:18-22 | mount: the dialog is shown, nothing is started, no type or code, not the creator |
| MeetingInterface.StartMeeting | project/src/components/MeetingInterface.tsx:26-30 | records the type, hides the dialog and starts; code and creator flag are kept |
| MeetingInterface.JoinMeeting | project/src/components/MeetingInterface.tsx:33-36 | records code and creator flag and nothing else |
| MeetingInterface.Render | project/src/components/MeetingInterface.tsx:53-80 | dialog iff shown; conference iff started and connected, with type, code and flag; join form iff started and not connected |
| MeetingInterface.NeverBlank | project/src/components/MeetingInterface.tsx:53-80 | under the invariant the section always renders something |
| MeetingInterface.UnloadLeaves | project/src/components/MeetingInterface.tsx:40-44 | unloading the page leaves the room exactly when connected |
| MeetingInterface.DialogToConference | project/src/components/MeetingInterface.tsx:26-75 | picking card i and Continue shows the join form for i's type until connected, then the conference with the reported code and flag |
| MeetingTypeModal.MeetingTypeIdsDistinct | project/src/components/MeetingTypeModal.tsx:19-62 | six types with distinct, non-empty ids |
| MeetingTypeModal.ColorClasses | project/src/components/MeetingTypeModal.tsx:64-86 | the colour's selected or unselected classes, blue's for an unknown colour |
| MeetingTypeModal.IconColorClasses | project/src/components/MeetingTypeModal.tsx:88-98 | the colour's icon classes, blue's for an unknown colour |
| MeetingTypeModal.ColorTablesCoverCards | project/src/components/MeetingTypeModal.tsx:19-98 | every card's colour is in both tables, so no card falls back to blue |
| MeetingTypeModal.SelectionChangesClasses | project/src/components/MeetingTypeModal.tsx:64-86 | a selected card always looks different from an unselected one |
| MeetingTypeModal.ColorsNeverShareClasses | project/src/components/MeetingTypeModal.tsx:64-98 | distinct colours never share selected classes or icon classes |
| MeetingTypeModal.Initial | project/src/components/MeetingTypeModal.tsx:17 | no confirmation is shown when the dialog opens |
| MeetingTypeModal.ClickCard | project/src/components/MeetingTypeModal.tsx:112-117 | after clicking card i, i is the only selected card and the confirmation shows |
| MeetingTypeModal.FindType | project/src/components/MeetingTypeModal.tsx:135 | a found type is in the table with that id; None means no type has it |
| MeetingTypeModal.FindFrom | project/src/components/MeetingTypeModal.tsx:135 | the search from index k: a hit is at or after k; None means none there has the id |
| MeetingTypeModal.ConfirmTitle | project/src/components/MeetingTypeModal.tsx:130-150 | the confirmation names a type exactly when some card is selected |
| MeetingTypeModal.ConfirmTitleAfterClick | project/src/components/MeetingTypeModal.tsx:130-150 | after clicking card i, the confirmation names i's lower-cased title |
| MeetingTypeModal.Continue | project/src/components/MeetingTypeModal.tsx:130-142 | Continue exists iff a selection exists and reports exactly the selected id |
| MeetingTypeModal.ClickThenContinue | project/src/components/MeetingTypeModal.tsx:117-142 | click i then Continue reports i's id |
| JoinForm.Initial | project/src/components/JoinForm.tsx:12-19 | mount: empty code, join disabled, audio and video on, not creating, not copied |
| JoinForm.InputChange | project/src/components/JoinForm.tsx:23-28 | the named field gets the value; the other fields and the switches are kept |
| JoinForm.RoomCode | project/src/components/JoinForm.tsx:33 | the typed code, "" when the field is missing |
| JoinForm.TypingSetsRoomCode | project/src/components/JoinForm.tsx:23-33 | typing into the room-code field sets the code; other fields leave it |
| JoinForm.JoinDisabledIffBlank | project/src/components/JoinForm.tsx:204 | join is disabled exactly when the code is all white space |
| JoinForm.DisplayName | project/src/components/JoinForm.tsx:34 | the login name when present and non-empty, else "Anonymous" |
| JoinForm.JoinSettings | project/src/components/JoinForm.tsx:41-44 | audio and video are muted exactly when switched off |
| JoinForm.Submit | project/src/components/JoinForm.tsx:30-54 | joins the typed room; on success a parent learns the code and "not creator"; the form is unchanged |
| JoinForm.CreateRoomClick | project/src/components/JoinForm.tsx:57 | the creating animation starts and nothing else changes |
| JoinForm.CreateRoomFires | project/src/components/JoinForm.tsx:60-81 | joins the fixed room; success reports it with "creator"; failure stops the animation |
| JoinForm.CopyRoomCode | project/src/components/JoinForm.tsx:84-86 | the copied mark shows |
| JoinForm.CopyTimerFires | project/src/components/JoinForm.tsx:87 | the copied mark hides |
| JoinForm.ToggleAudio | project/src/components/JoinForm.tsx:241 | flips audio only |
| JoinForm.ToggleVideo | project/src/components/JoinForm.tsx:254 | flips video only |
| JoinForm.TogglesAreInvolutions | project/src/components/JoinForm.tsx:241-254 | each switch twice restores the form |
| JoinForm.FormTypesMatchDialog | project/src/components/JoinForm.tsx:90-121 | the form's table repeats the dialog's types, in order, with the same texts |
| JoinForm.FindFormType | project/src/components/JoinForm.tsx:123 | the first entry from k with the id; None means none has it |
| JoinForm.SelectedMeetingType | project/src/components/JoinForm.tsx:123 | the entry with the id, or the first entry when the id is missing or unknown |
| JoinForm.DialogTypeFound | project/src/components/JoinForm.tsx:123 | every type chosen in the dialog is found, so its title and description show |
| JoinForm.ReportsReachMeetingSection | project/src/components/JoinForm.tsx:48-76 | a code join makes the meeting section a non-creator in the typed room; a create makes it the creator of the fixed room |
| JoinMeeting.Initial | project/src/components/JoinMeeting.tsx:23-28 | mount: no name, join disabled, camera and microphone on, not joined, no error |
| JoinMeeting.TypeName | project/src/components/JoinMeeting.tsx:199 | typing sets the name, except while loading, when the field ignores it |
| JoinMeeting.JoinClick | project/src/components/JoinMeeting.tsx:30-37 | a blank name only sets the name-required error; otherwise loading starts and the error clears |
| JoinMeeting.JoinSettles | project/src/components/JoinMeeting.tsx:39-48 | loading ends; success joins; failure sets the failure message |
| JoinMeeting.JoinOutcome | project/src/components/JoinMeeting.tsx:30-49 | a non-blank name that settles ends joined with no error; a blank one starts nothing |
| JoinMeeting.Leave | project/src/components/JoinMeeting.tsx:51-56 | leaving unjoins; `onBack` runs exactly when given |
| JoinMeeting.EnabledJoinStartsLoading | project/src/components/JoinMeeting.tsx:225 | the button is enabled iff not loading and the name is not blank, and an enabled click starts loading |
| JoinMeeting.PreviewLabel | project/src/components/JoinMeeting.tsx:177 | the name as typed, "You" while it is empty, never empty |
| JoinMeeting.ToggleAudio | project/src/components/JoinMeeting.tsx:92 | flips the microphone only |
| JoinMeeting.ToggleVideo | project/src/components/JoinMeeting.tsx:102 | flips the camera only |
| JoinMeeting.TogglesAreInvolutions | project/src/components/JoinMeeting.tsx:92-143 | each switch twice restores the page |
| LoginPage.Initial | project/src/components/LoginPage.tsx:10-11 | both fields start empty |
| LoginPage.Submit | project/src/components/LoginPage.tsx:23-28 | a user is produced iff both trimmed fields are non-empty, holding the trimmed fields |
| LoginPage.InitialSubmitRejected | project/src/components/LoginPage.tsx:23-28 | the untouched form never logs in |
| LoginPage.SubmittedUserIsClean | project/src/components/LoginPage.tsx:25-26 | a produced user has non-empty fields with no white space at either end |
| LoginPage.TrimmedInputsPassThrough | project/src/components/LoginPage.tsx:25-26 | clean, non-empty inputs pass through unchanged |
| LoginPage.LoginReachesDashboard | project/src/App.tsx:72-106 | a successful login renders the dashboard with exactly the submitted user |
| PreviousMeetings.DurationKey | project/src/components/PreviousMeetings.tsx:119 | `parseInt` of the duration, 0 where it is NaN |
| PreviousMeetings.SortKey | project/src/components/PreviousMeetings.tsx:114-125 | date, duration or rating keys; any other choice gives equal keys |
| PreviousMeetings.Filtered | project/src/components/PreviousMeetings.tsx:106-125 | largest key first, equal keys in list order (for every key, the meetings with that key appear as in the filtered list), each matching meeting kept as often as listed, no non-matching meeting |
| PreviousMeetings.FilteredListsExactlyMatches | project/src/components/PreviousMeetings.tsx:106-113 | a meeting is listed iff it matches search and filter |
| PreviousMeetings.FilteredIsPermutedSubsequence | project/src/components/PreviousMeetings.tsx:106-125 | the list is a reordering of an order-preserving selection of the input |
| PreviousMeetings.EmptyTermMatches | project/src/components/PreviousMeetings.tsx:108 | the empty search matches every meeting |
| PreviousMeetings.EmptySearchKeepsAll | project/src/components/PreviousMeetings.tsx:106-125 | empty search and "all" list every meeting as often as it occurs |
| PreviousMeetings.UnknownSortKeepsOrder | project/src/components/PreviousMeetings.tsx:122-123 | an unknown sort keeps the filtered list order |
| PreviousMeetings.RenderStars | project/src/components/PreviousMeetings.tsx:139-146 | five stars, star i filled iff i < rating, for any real rating |
| PreviousMeetings.Ceiling | project/src/components/PreviousMeetings.tsx:143 | the least integer not below the rating |
| PreviousMeetings.FilledStars | project/src/components/PreviousMeetings.tsx:139-146 | the number of filled stars is the rating rounded up, then clamped to 0..5 |
| PreviousMeetings.HalfRatingExample | project/src/components/PreviousMeetings.tsx:139-146 | a rating of 4.5 fills all five stars |
| PreviousMeetings.TopicChips | project/src/components/PreviousMeetings.tsx:469-478 | at most the first three topics, plus a "+k more" count when there are more |
| PreviousMeetings.ChipsAccountForAllTopics | project/src/components/PreviousMeetings.tsx:469-478 | shown chips and the counted rest add up to all topics |
| PreviousMeetings.TotalDuration | project/src/components/PreviousMeetings.tsx:324 | the parsed durations' sum, or NaN as soon as one duration has no leading integer |
| PreviousMeetings.InsightsTileCoversListed | project/src/components/PreviousMeetings.tsx:334 | with non-negative counts, the listed meetings' insights never exceed the tile, which counts every meeting |
| PreviousMeetings.ParseMinutes | project/src/components/PreviousMeetings.tsx:119 | `parseInt` reads "<n> min" as n |
| PreviousMeetings.DurationExample | project/src/components/PreviousMeetings.tsx:46 | "45 min" reads as 45 |
| UploadsSection.AfterLastDot | project/src/components/UploadsSection.tsx:122 | a dot-free suffix of the name, preceded by a dot unless it is the whole name |
| UploadsSection.AfterLastDotOfJoined | project/src/components/UploadsSection.tsx:122 | "<base>.<ext>" yields ext whatever base holds |
| UploadsSection.AfterLastDotOfLower | project/src/components/UploadsSection.tsx:122 | lower-casing before or after taking the extension gives the same text |
| UploadsSection.LowerSnoc | project/src/components/UploadsSection.tsx:122 | lower-casing distributes over appending one character and never creates or removes a dot |
| UploadsSection.IconFor | project/src/components/UploadsSection.tsx:121-134 | image iff the extension is an image's; code iff not image and code; archive iff neither and archive; text for everything else |
| UploadsSection.IconIgnoresCase | project/src/components/UploadsSection.tsx:121-134 | the icon ignores the case of the name |
| UploadsSection.IconOfLastExtension | project/src/components/UploadsSection.tsx:121-134 | only the last extension decides the icon |
| UploadsSection.FilteredFiles | project/src/components/UploadsSection.tsx:146-151 | exactly the matching files, in list order, each copy of a repeated file kept: the length is the number of matching entries |
| UploadsSection.EmptySearchListsAll | project/src/components/UploadsSection.tsx:146-151 | empty search and "all" list every file |
| UploadsSection.Delete | project/src/components/UploadsSection.tsx:153-155 | every file with the id goes, all others stay in order with every copy kept (the length is the number of entries with another id), nothing else changes |
| UploadsSection.StartEdit | project/src/components/UploadsSection.tsx:157-163 | the editor opens on the first file with the id and its description, "" when it has none; an unknown id changes nothing |
| UploadsSection.TypeDescription | project/src/components/UploadsSection.tsx:424 | typing sets the editor text and keeps the files |
| UploadsSection.CancelEdit | project/src/components/UploadsSection.tsx:435 | cancel closes the editor and keeps files and typed text |
| UploadsSection.SaveEdit | project/src/components/UploadsSection.tsx:165-173 | files with the id get the typed description and nothing else; all others untouched; the editor closes and clears |
| UploadsSection.EditRoundTrip | project/src/components/UploadsSection.tsx:157-173 | opening the editor and saving untouched leaves the list as it was, when ids are distinct |
| UploadsSection.IsPdfIgnoresCase | project/src/components/UploadsSection.tsx:180 | the PDF check ignores case |
| UploadsSection.KbRounded | project/src/components/UploadsSection.tsx:190 | kilobytes rounded to nearest, halves up |
| UploadsSection.MbTenths | project/src/components/UploadsSection.tsx:189 | megabytes rounded to the nearest tenth, halves up |
| UploadsSection.SizeLabel | project/src/components/UploadsSection.tsx:188-190 | "d.d MB" exactly above one megabyte, "k KB" otherwise |
| UploadsSection.SizeLabelParses | project/src/components/UploadsSection.tsx:188-190 | `parseInt` of the label gives back the whole megabytes or the rounded kilobytes |
| UploadsSection.UploadOne | project/src/components/UploadsSection.tsx:178-195 | an accepted file is prepended as a document with its name, size label, date and description; otherwise nothing changes |
| UploadsSection.UploadDescriptions | project/src/components/UploadsSection.tsx:63-192 | non-PDFs are "Uploaded <name>"; indexed PDFs mention their chunk count |
| UploadsSection.UploadAll | project/src/components/UploadsSection.tsx:175-198 | the list grows by the accepted files and the old list stays at the end, untouched |
| UploadsSection.LastUploadFirst | project/src/components/UploadsSection.tsx:175-198 | the batch's last accepted file ends up first |
| UploadsSection.StatTiles | project/src/components/UploadsSection.tsx:250-274 | the total is the file count and no type tile exceeds it |
| UploadsSection.StatTilesDisjoint | project/src/components/UploadsSection.tsx:250-274 | no file counts in two type tiles |
| UploadsSection.UploadKeepsTypeTiles | project/src/components/UploadsSection.tsx:175-198 | uploads add only documents: type tiles stay and the total grows by the accepted count |
| ChatBot.Initial | project/src/components/ChatBot.tsx:13-27 | one welcome bot message, panel open at 288 px, nothing typing or streaming |
| ChatBot.StartStream | project/src/components/ChatBot.tsx:29-31 | an empty streaming bubble appears and the typing flag is set; the history is kept |
| ChatBot.StreamTick | project/src/components/ChatBot.tsx:34-54 | while characters remain, one more is shown; after that the full text joins the history once, with its image, and streaming ends |
| ChatBot.StreamTicks | project/src/components/ChatBot.tsx:34-54 | any number of ticks keeps the state invariant |
| ChatBot.StreamShowsPrefix | project/src/components/ChatBot.tsx:34-54 | after k ticks exactly the first k characters show and the history is unchanged |
| ChatBot.StreamTicksLast | project/src/components/ChatBot.tsx:34-54 | n ticks are n−1 ticks and one more |
| ChatBot.StreamDelivers | project/src/components/ChatBot.tsx:29-56 | |t|+1 ticks deliver exactly one new bot message with the whole text and the image |
| ChatBot.ImageOnlyWhenComplete | project/src/components/ChatBot.tsx:365 | the image shows exactly when every character is typed |
| ChatBot.MountEffect | project/src/components/ChatBot.tsx:59-69 | the canned answer is scheduled iff it had not been started |
| ChatBot.MountTwiceSchedulesOnce | project/src/components/ChatBot.tsx:59-69 | a second run of the effect schedules nothing |
| ChatBot.CannedTimerFires | project/src/components/ChatBot.tsx:62-66 | the canned answer and its image start streaming |
| ChatBot.Clamp | project/src/components/ChatBot.tsx:150 | the value inside the range, else the nearest bound |
| ChatBot.ClampMonotone | project/src/components/ChatBot.tsx:150 | clamping preserves order |
| ChatBot.ResizeBegin | project/src/components/ChatBot.tsx:174-181 | a drag starts at the mouse with the current width |
| ChatBot.MouseMove | project/src/components/ChatBot.tsx:146-152 | during a drag the width is the start width plus the leftward move, clamped to 250..500; otherwise nothing changes |
| ChatBot.MouseUp | project/src/components/ChatBot.tsx:154-157 | the drag ends and the width is kept |
| ChatBot.DragBackRestoresWidth | project/src/components/ChatBot.tsx:146-181 | moving the mouse back to the start restores the starting width |
| ChatBot.TogglePanel | project/src/components/ChatBot.tsx:278-280 | flips the panel only |
| ChatBot.TogglePanelTwice | project/src/components/ChatBot.tsx:278-280 | toggling twice restores the state |
| ChatBot.FirstHit | project/src/components/ChatBot.tsx:183-216 | the first keyword group from k that the message hits; None means no group hits |
| ChatBot.GenerateBotResponse | project/src/components/ChatBot.tsx:183-216 | the reply of the first group hit by the lower-cased message, else the drawn default reply |
| ChatBot.ReplyIgnoresCase | project/src/components/ChatBot.tsx:184 | the reply ignores the message's case |
| ChatBot.ResumeComesFirst | project/src/components/ChatBot.tsx:187-189 | mentioning a resume or CV always gets the resume reply |
| ChatBot.DrawOnlyForNoHit | project/src/components/ChatBot.tsx:183-216 | with a keyword hit the random draw is irrelevant and the reply is a keyword reply |
| ChatBot.HandleSendMessage | project/src/components/ChatBot.tsx:218-269 | blank input does nothing; otherwise the untrimmed text and the fixed reply are appended with the first clock reading as the user's id and time and the second reading plus one as the reply's id, and the input clears |
| ChatBot.SendButtonMatchesHandler | project/src/components/ChatBot.tsx:436 | the button is disabled exactly when sending would change nothing |
| ChatBot.SentIdsDiffer | project/src/components/ChatBot.tsx:218-269 | the two new messages never share an id when the second clock reading is not earlier than the first |
| ChatBot.HandleKeyPress | project/src/components/ChatBot.tsx:271-276 | Enter without Shift sends; every other key does nothing |
| ChatBot.MessageBubbles | project/src/components/ChatBot.tsx:323-351 | one bubble per message, in order |
| ChatBot.StreamBubblesAppend | project/src/components/ChatBot.tsx:323-419 | streaming-bubble counts add over concatenation |
| ChatBot.NoStreamBubblesInHistory | project/src/components/ChatBot.tsx:323-351 | the history contributes no streaming bubbles |
| ChatBot.RenderAsWritten | project/src/components/ChatBot.tsx:323-419 | the history's bubbles come first, in order |
| ChatBot.StreamShownTwice | project/src/components/ChatBot.tsx:354-403 | as written, a streaming answer is on screen twice |
| ChatBot.Render | project/src/components/ChatBot.tsx:323-419 | with one streaming block the history's bubbles still come first |
| ChatBot.StreamShownOnce | project/src/components/ChatBot.tsx:354-377 | with one block, a streaming answer is on screen once, and never when nothing streams |
| Typewriter.Start | project/src/components/ChatBot.tsx:30-33 | a fresh run shows nothing |
| Typewriter.Tick | project/src/components/ChatBot.tsx:34-54 | one more character while any remain, then the full text is delivered |
| Typewriter.TickNFromStart | project/src/components/TranscriptPanel.tsx:36-60 | after k ≤ |t| ticks exactly the first k characters show, and tick |t|+1 delivers t |
| Typewriter.TickNFrom | project/src/components/TranscriptPanel.tsx:36-60 | the same from any reachable point of the run |
| Typewriter.PrefixGrowth | project/src/components/TranscriptPanel.tsx:41-46 | each shown text extends the previous one by one character and stays a prefix of the full text |
| TranscriptPanel.StartTimes | project/src/components/TranscriptPanel.tsx:63-75 | each line starts its own delay after the previous line's start |
| TranscriptPanel.StartTimesIncrease | project/src/components/TranscriptPanel.tsx:63-75 | with positive delays, the start times strictly increase |
| TranscriptPanel.StartTimesIncreaseFrom | project/src/components/TranscriptPanel.tsx:63-75 | the pairwise step of that ordering |
| TranscriptPanel.DialogueStartTimes | project/src/components/TranscriptPanel.tsx:28-33 | the script's lines start at 1000, 3000, 6000 and 8500 ms |
| TranscriptPanel.SimulationEffect | project/src/components/TranscriptPanel.tsx:63-75 | the first run schedules every line at its start time; later runs schedule nothing |
| TranscriptPanel.SimulationScheduledOnce | project/src/components/TranscriptPanel.tsx:63-75 | however often the effect runs, the script is scheduled once |
| TranscriptPanel.TypeMessage | project/src/components/TranscriptPanel.tsx:36-40 | an empty bubble for the line, and a new interval typing it |
| TranscriptPanel.Without | project/src/components/TranscriptPanel.tsx:47-48 | removing one interval shortens the list by one |
| TranscriptPanel.IntervalTick | project/src/components/TranscriptPanel.tsx:40-59 | while characters remain the bubble shows this interval's next prefix; then its line joins the conversation, the interval stops and the bubble clears |
| TranscriptPanel.SoloTyping | project/src/components/TranscriptPanel.tsx:36-59 | with one line typing, the bubble always shows a prefix of its own line |
| TranscriptPanel.SoloFinish | project/src/components/TranscriptPanel.tsx:47-57 | a line finishing alone joins the conversation once, whole, and the bubble goes |
| TranscriptPanel.OverlapGarblesBubble | project/src/components/TranscriptPanel.tsx:42-45 | two lines typing at once: the bubble shows text that is not a prefix of the line it names |
| TranscriptPanel.OverlapHidesLaterLine | project/src/components/TranscriptPanel.tsx:47-57 | when the earlier line then finishes, the later line keeps typing with no bubble |
| TranscriptPanel.ScriptOverlaps | project/src/components/TranscriptPanel.tsx:28-75 | the script's third line types from 6000 to 8950 ms, past the fourth line's 8500 ms start |
| TranscriptPanel.SequentialStarts | project/src/components/TranscriptPanel.tsx:63-75 | each line starts no earlier than its scheduled time or the previous line's completion |
| TranscriptPanel.SequentialNoOverlap | project/src/components/TranscriptPanel.tsx:63-75 | in the sequential schedule no two lines type at once |
| TranscriptPanel.SequentialKeepsTiming | project/src/components/TranscriptPanel.tsx:63-75 | where the original timing has no overlap, the sequential schedule equals it |
| TranscriptPanel.SequentialScript | project/src/components/TranscriptPanel.tsx:28-33 | for the script only the last line moves, to 8950 ms, and nothing overlaps |
| TranscriptPanel.Items | project/src/components/TranscriptPanel.tsx:83-86 | each broadcast maps to its item, in order |
| TranscriptPanel.ProcessBroadcasts | project/src/components/TranscriptPanel.tsx:77-90 | for the creator, the items of new transcript broadcasts are appended in order and their ids taken; for anyone else nothing changes |
| TranscriptPanel.ProcessedCoversList | project/src/components/TranscriptPanel.tsx:77-90 | afterwards every transcript broadcast of the list has its id taken |
| TranscriptPanel.ProcessIdempotent | project/src/components/TranscriptPanel.tsx:77-90 | processing the same list again adds nothing |
| TranscriptPanel.ProcessIncremental | project/src/components/TranscriptPanel.tsx:77-90 | when the list grows, only the new transcript broadcasts are appended; nothing is taken twice |
| TranscriptPanel.DisplayedHistory | project/src/components/TranscriptPanel.tsx:211-213 | the history in ascending id order, a permutation of the stored history, items with equal ids in arrival order |
| TranscriptPanel.OrderedHistoryShownAsIs | project/src/components/TranscriptPanel.tsx:211-213 | a history already in id order is shown as stored |
| TranscriptPanel.TranscriptQuery | project/src/components/TranscriptPanel.tsx:96-99 | a transcript is sent exactly when it is not blank, unchanged |
| Conference.DedupDistinct | project/src/components/Conference.tsx:26-28 | the seen-set dedup keeps distinct ids, none already seen |
| Conference.DedupIds | project/src/components/Conference.tsx:26-28 | the seen-set dedup keeps every unseen id |
| Conference.DedupSubsequence | project/src/components/Conference.tsx:26-28 | the seen-set dedup only drops peers, never reorders |
| Conference.SubsequenceSkip | project/src/components/Conference.tsx:26-28 | a subsequence of the tail is a subsequence of the list |
| Conference.DedupOfDistinct | project/src/components/Conference.tsx:26-28 | a list already distinct and unseen passes unchanged |
| Conference.FirstOccurrenceIff | project/src/components/Conference.tsx:27 | an index is its id's first iff the id does not occur before it |
| Conference.KeepFirstsStep | project/src/components/Conference.tsx:26-28 | the filter keeps peer k exactly when its id is not among the ids before k |
| Conference.DedupStep | project/src/components/Conference.tsx:26-28 | the reference keeps the head exactly when its id is unseen, and then remembers it |
| Conference.KeepFirstsIsDedup | project/src/components/Conference.tsx:26-28 | the index test from k equals the seen-set dedup of the rest |
| Conference.UniquePeersIsDedup | project/src/components/Conference.tsx:26-28 | `uniquePeers` equals the seen-set dedup, on every list |
| Conference.UniquePeersFacts | project/src/components/Conference.tsx:26-28 | distinct ids, every id of the list kept, list order kept |
| Conference.UniquePeersIdempotent | project/src/components/Conference.tsx:26-28 | deduplicating twice is deduplicating once |
| Conference.Tiles | project/src/components/Conference.tsx:51 | the first min(2, n) unique peers |
| Conference.TilesDistinct | project/src/components/Conference.tsx:51 | the tiles never show a participant twice |
| Conference.Render | project/src/components/Conference.tsx:43-73 | the creator gets the transcript panel and the assistant, a joiner neither; both see the same tiles |
| Conference.DuplicateDoesNotHideSecondPeer | project/src/components/Conference.tsx:26-51 | a duplicated SDK entry never costs the other participant a tile |
| LiveMeeting.Initial | project/src/components/LiveMeeting.tsx:35-38 | mount: zero seconds, microphone on, camera on, tracking shown |
| LiveMeeting.Tick | project/src/components/LiveMeeting.tsx:61-69 | one tick adds a second and changes nothing else |
| LiveMeeting.TickNCounts | project/src/components/LiveMeeting.tsx:61-69 | n ticks add exactly n seconds and leave the switches |
| LiveMeeting.Pad2 | project/src/components/LiveMeeting.tsx:71-75 | at least two digits that read back as the number; exactly two below 100 |
| LiveMeeting.Pad2IsPadStart | project/src/components/LiveMeeting.tsx:71-75 | equals `toString().padStart(2, '0')` |
| LiveMeeting.Clock | project/src/components/LiveMeeting.tsx:74 | two padded fields around a colon, the second exactly two digits |
| LiveMeeting.MinutesAndSeconds | project/src/components/LiveMeeting.tsx:72-73 | minutes × 60 + seconds is the input, with seconds below 60 |
| LiveMeeting.MinutesAndSecondsIsDivMod | project/src/components/LiveMeeting.tsx:72-73 | equals floor division and remainder by 60 |
| LiveMeeting.FormatDuration | project/src/components/LiveMeeting.tsx:71-75 | digits, a colon, then two digits |
| LiveMeeting.FormatDurationWidth | project/src/components/LiveMeeting.tsx:71-75 | exactly five characters iff under 100 minutes |
| LiveMeeting.ParseDuration | project/src/components/LiveMeeting.tsx:71-75 | accepts exactly "digits:dd" texts |
| LiveMeeting.FormatDurationRoundTrip | project/src/components/LiveMeeting.tsx:71-75 | the text reads back as the count it shows, with seconds below 60 |
| LiveMeeting.FormatDurationExample | project/src/components/LiveMeeting.tsx:71-75 | 61 seconds show as "01:01" |
| LiveMeeting.FirstIndexOf | project/src/components/LiveMeeting.tsx:98 | the first index of the character, the length when absent |
| LiveMeeting.ReplaceFirstUnderscore | project/src/components/LiveMeeting.tsx:98 | only the first "_" becomes a space; the text is otherwise unchanged |
| LiveMeeting.ReplaceRemovesOneUnderscore | project/src/components/LiveMeeting.tsx:98 | exactly one underscore goes when there is any; later ones stay |
| LiveMeeting.TypeLabel | project/src/components/LiveMeeting.tsx:98 | the type with its first "_" as a space, then " Session" |
| LiveMeeting.ConfidenceBucket | project/src/components/LiveMeeting.tsx:229-235 | high iff above 90; medium iff in 71..90; low iff at most 70 |
| LiveMeeting.ConfidenceMonotone | project/src/components/LiveMeeting.tsx:229-235 | a higher confidence never gets a lower badge |
| LiveMeeting.ConfidenceBoundaries | project/src/components/LiveMeeting.tsx:229-235 | the thresholds are strict: 91 high, 90 medium, 71 medium, 70 low |
| LiveMeeting.ToggleMute | project/src/components/LiveMeeting.tsx:179 | flips the microphone only |
| LiveMeeting.ToggleVideo | project/src/components/LiveMeeting.tsx:190 | flips the camera only |
| LiveMeeting.ToggleTracking | project/src/components/LiveMeeting.tsx:104 | flips the tracking panel only |
| LiveMeeting.SwitchesAreInvolutions | project/src/components/LiveMeeting.tsx:104-190 | each switch twice restores the screen, and switches commute with the counter |
| Text.Trim | project/src/components/LoginPage.tsx:25-26 | trimmed, empty iff blank, and the slice between the leading and the trailing white space |
| Text.TrimIdempotent | project/src/components/LoginPage.tsx:25-26 | trimming twice is trimming once |
| Text.TrimOfTrimmed | project/src/components/LoginPage.tsx:25-26 | a string with clean ends is its own trim |
| Text.LowerStr | project/src/components/PreviousMeetings.tsx:108 | same length, each character lower-cased |
| Text.LowerStrIdempotent | project/src/components/PreviousMeetings.tsx:108 | lower-casing twice is lower-casing once |
| Text.ContainsIff | project/src/components/PreviousMeetings.tsx:108 | `includes` holds iff some index carries the needle |
| Text.ContainsEmpty | project/src/components/PreviousMeetings.tsx:108 | every string includes "" |
| Text.ParseNatToString | project/src/components/LiveMeeting.tsx:74 | the decimal rendering of n reads back as n |
| Text.NatToStringAtMostTwo | project/src/components/LiveMeeting.tsx:74 | the rendering has at most two digits iff n < 100 |
| Text.PadStart | project/src/components/LiveMeeting.tsx:74 | the input, preceded by fill characters up to the width |
| Text.ParseInt | project/src/components/PreviousMeetings.tsx:119 | NaN for blank input |
| Text.ParseIntSkipsSpaces | project/src/components/PreviousMeetings.tsx:119 | leading white space does not change the result |
| Text.ParseIntOfDecimal | project/src/components/PreviousMeetings.tsx:119 | a decimal rendering followed by a non-digit reads back as its number |
| Text.ParseIntNegative | project/src/components/PreviousMeetings.tsx:119 | a leading minus negates the rest, and NaN stays NaN |
| Text.ParseIntNotNumeric | project/src/components/PreviousMeetings.tsx:119 | text whose first non-blank character is neither a sign nor a digit is NaN |
| Text.ParseIntHex | project/src/components/PreviousMeetings.tsx:119 | after "0x" or "0X", the run of hexadecimal digits is read in base 16 |
| Text.HexDigitsRun | project/src/components/PreviousMeetings.tsx:119 | the hexadecimal digit run ends exactly where the non-digit text begins |
| Seqs.FindKey | project/src/components/Conference.tsx:27 | the first index whose id is the one sought; `None` (-1) exactly when no element has it; the same search serves `files.find` in the uploads section |
| Seqs.KeySet | project/src/components/TranscriptPanel.tsx:84 | exactly the ids occurring in the list |
| Seqs.KeySetSnoc | project/src/components/TranscriptPanel.tsx:84 | appending an element adds exactly its id |
| Seqs.Filter | project/src/components/PreviousMeetings.tsx:106-113 | exactly the elements satisfying the test, each no more often than in the input |
| Seqs.FilterIsSubsequence | project/src/components/PreviousMeetings.tsx:106-113 | filtering keeps input order |
| Seqs.FilterAppend | project/src/components/TranscriptPanel.tsx:79-81 | filtering distributes over concatenation |
| Seqs.Count | project/src/components/UploadsSection.tsx:258 | never more than the length |
| Seqs.CountIsFilterLength | project/src/components/UploadsSection.tsx:258 | the count is the filtered list's length |
| Seqs.SortDesc | project/src/components/PreviousMeetings.tsx:114-125 | keys non-increasing and the result a permutation of the input; stability is stated by `SortDescStable` |
| Seqs.TiesCons | project/src/components/PreviousMeetings.tsx:114-125 | a head element joins the ties of its own key only |
| Seqs.InsertKeepsTies | project/src/components/PreviousMeetings.tsx:114-125 | inserting an element puts it in front of all elements with its key and changes the order of no other key |
| Seqs.InsertBehindKeepsTies | project/src/components/PreviousMeetings.tsx:114-125 | the same when the element goes behind a larger head |
| Seqs.SortDescStable | project/src/components/PreviousMeetings.tsx:114-125 | the sort is stable: for every key, the elements with that key (`Ties`) keep their input order |
| Seqs.SortDescStableAll | project/src/components/TranscriptPanel.tsx:211-213 | stability for all keys at once |
| Seqs.SortDescAllTies | project/src/components/PreviousMeetings.tsx:122-123 | when every key ties, the stable sort keeps input order |
| Seqs.SortDescOfSorted | project/src/components/TranscriptPanel.tsx:211-213 | a sorted list is unchanged |
| Seqs.SumByAppend | project/src/components/PreviousMeetings.tsx:324-334 | sums add over concatenation |
| Seqs.SumByFilterBounded | project/src/components/PreviousMeetings.tsx:334 | with non-negative terms, a filtered sum never exceeds the full one |
| Seqs.SumByPermutation | project/src/components/PreviousMeetings.tsx:324-334 | sums do not depend on order |

## Left out

- Network, video SDK, backend: the 100ms SDK calls (join, leave, auth token, broadcasts, peers, connection state) are parameters or inputs. The PDF upload `fetch` and the status strings it produces (`UploadsSection.tsx:30-85`) are left out. So are the transcript `fetch` (`TranscriptPanel.tsx:101-129`) and the whole Python backend.
- Browser effects are not modelled: `navigator.clipboard`, the `gsap` animations, `window.onbeforeunload` registration (only the decision to leave is), the drag-and-drop upload state (`UploadsSection.tsx:200-220`) and the speech-recognition hook.
- The router table and the HTML `required` attribute are not modelled. Paths arrive as strings.
- Presentational class tables are left out, except `MeetingTypeModal`'s colour tables. This includes upload type colours (`UploadsSection.tsx:136-144`).
- Strings are sequences of Unicode scalar values, not UTF-16 code units. Case mapping is ASCII only.
- PreviousMeetings.SortKey: the stored meeting rating is an integer, as in every listed meeting, because sort keys are integers; fractional ratings are modelled only where stars are drawn (`RenderStars`, `FilledStars`).
- PreviousMeetings date sort: `new Date(...).getTime()` is an integer field of the meeting, not parsed from the date text.
- PreviousMeetings.DurationKey: a NaN `parseInt` key counts as 0. In the source, NaN comparisons make the comparator inconsistent, and the order is then engine-defined.
- The average-rating tile (`PreviousMeetings.tsx:344`) is left out; it is a floating-point mean.
- The built-in mock data lists are left out. This covers the meetings, files, suggestions and the chatbot's replies beyond the keyword table.
- Transcript ids are `Date.now() + Math.random()` floats in the source. They are modelled as integers supplied by the caller. Mouse coordinates and confidence values are integers as well.
- UploadsSection.SizeLabel: `toFixed` on sizes beyond 10^21 bytes switches to exponent form. That is not modelled.
- The in-place mutation by `Array.prototype.sort` is not modelled. The model returns a new list.
- ChatBot.GenerateBotResponse: the send handler never calls it. The handler appends a fixed "disabled" reply, and the model follows the handler. The function is modelled on its own.
- Conference leave, microphone and camera controls and `isLocalAudioEnabled` are SDK calls and are left out.
- LiveMeeting: `isRecording` is never read. The suggestion data and the copy/feedback handlers (`LiveMeeting.tsx:77-85`) only call the clipboard and the console. All are left out.
- LiveMeeting.MinutesAndSeconds: it counts minutes off by repeated subtraction. `MinutesAndSecondsIsDivMod` proves this equal to `Math.floor(s / 60)` and `s % 60`.
- LiveMeeting.TypeLabel: the heading's CSS `capitalize` is presentation; the label is the text before styling.
- Peer, SplashScreen, AboutSection and ProfileDropdown are static views and are not part of this model.

## Findings

| source | as written | input that shows it | evidently intended | confidence | as-written member | corrected member |
|---|---|---|---|---|---|---|
| project/src/App.tsx:84-106 | the dashboard route renders the dashboard whether or not a user is stored; its header reads `user.name` (`Dashboard.tsx:106`) | a fresh page load at "/dashboard" | the `user!` assertion says the dashboard is only shown with a user, so without one it should not render | not executed | App.DirectDashboardVisitHasNoUser, Dashboard.DirectDashboardVisitCrashes | App.RenderGuarded, App.DirectDashboardVisitGuarded, Dashboard.GuardedDashboardHeaderRenders |
| project/src/components/ChatBot.tsx:354-403 | the streaming block (text, cursor and image) is rendered twice in a row | any state with an answer streaming, e.g. two seconds after mount | one streaming bubble | not executed | ChatBot.RenderAsWritten, ChatBot.StreamShownTwice | ChatBot.Render, ChatBot.StreamShownOnce |
| project/src/components/TranscriptPanel.tsx:28-75 | each line is scheduled by cumulative delay alone, whatever the length of the previous line; the third line (58 characters, one every 50 ms) types until 8950 ms, but the fourth starts at 8500 ms | the built-in dialogue | lines typed one after another, the bubble always showing a prefix of its own line | not executed | TranscriptPanel.ScriptOverlaps, TranscriptPanel.OverlapGarblesBubble, TranscriptPanel.OverlapHidesLaterLine | TranscriptPanel.SequentialStarts, TranscriptPanel.SequentialNoOverlap, TranscriptPanel.SequentialKeepsTiming, TranscriptPanel.SequentialScript |
