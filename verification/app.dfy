/**
 * The top-level view router of `AppContent`: which of the four screens
 * (splash, login, dashboard, join-by-link) is active, how the current path
 * selects it, the one-shot splash timer, the login and back-from-join
 * handlers, which screen is rendered, and the user id handed to the dashboard.
 *
 * The routing effect depends on the path and on the current view, so React
 * re-runs it after every change of either; `RunEffect` is one run (clean-up of
 * the previous run included), and `RunEffectStable` shows that a re-run after
 * its own changes changes nothing more.
 */
module App {
  import opened Wrappers
  import opened Text

  /** The session user created by the login form. */
  datatype User = User(name: string, profession: string)

  /** The top-level views. */
  datatype View = Splash | Login | Dashboard | Join

  /**
   * The router's state. `splashTimer` is the pending 3000 ms timer, holding the
   * view its callback captured when it was armed; `None` once cleared or fired.
   */
  datatype AppState = AppState(
    view: View,
    user: Option<User>,
    joinChannelName: string,
    path: string,
    splashTimer: Option<View>)

  const SplashDelayMs: nat := 3000

  /** The characters the regular-expression `.` does not match. */
  predicate IsLineTerminator(c: char) {
    c == '\n' || c == '\r' || c == '\U{2028}' || c == '\U{2029}'
  }

  /** `/\/join\/(.+)/` can match starting at index `i`: "/join/" followed by a character `.` accepts. */
  predicate JoinMatchAt(path: string, i: int) {
    0 <= i && i + 7 <= |path| && path[i..i + 6] == "/join/" && !IsLineTerminator(path[i + 6])
  }

  /** The leftmost index at or after `from` where the join regex matches. */
  function FirstJoinMatch(path: string, from: nat): (r: Option<nat>)
    requires from <= |path|
    ensures r.Some? ==> from <= r.value && JoinMatchAt(path, r.value)
    ensures r.Some? ==> forall j :: from <= j < r.value ==> !JoinMatchAt(path, j)
    ensures r.None? ==> forall j :: from <= j ==> !JoinMatchAt(path, j)
    decreases |path| - from
  {
    if from + 7 > |path| then None
    else if JoinMatchAt(path, from) then Some(from)
    else FirstJoinMatch(path, from + 1)
  }

  /** Length of the run of characters `.` accepts, starting at `from` (what greedy `.+` consumes). */
  function DotRun(path: string, from: nat): (n: nat)
    requires from <= |path|
    ensures from + n <= |path|
    ensures forall k :: from <= k < from + n ==> !IsLineTerminator(path[k])
    ensures from + n < |path| ==> IsLineTerminator(path[from + n])
    decreases |path| - from
  {
    if from < |path| && !IsLineTerminator(path[from]) then 1 + DotRun(path, from + 1) else 0
  }

  /**
   * Capture group 1 of `path.match(/\/join\/(.+)/)`: `None` when the regex does not
   * match; otherwise the longest non-empty run of `.`-characters after the leftmost
   * "/join/" that is followed by one.
   */
  function JoinChannel(path: string): (r: Option<string>)
    ensures r.None? <==> forall i :: !JoinMatchAt(path, i)
    ensures r.Some? ==> r.value != [] && exists i ::
      && JoinMatchAt(path, i)
      && (forall j :: 0 <= j < i ==> !JoinMatchAt(path, j))
      && i + 6 + |r.value| <= |path|
      && r.value == path[i + 6..i + 6 + |r.value|]
      && (i + 6 + |r.value| == |path| || IsLineTerminator(path[i + 6 + |r.value|]))
    ensures r.Some? ==> forall k :: 0 <= k < |r.value| ==> !IsLineTerminator(r.value[k])
  {
    match FirstJoinMatch(path, 0)
    case None => None
    case Some(i) =>
      var n := DotRun(path, i + 6);
      var t := path[i + 6..i + 6 + n];
      assert JoinMatchAt(path, i);
      Some(t)
  }

  /**
   * On a path without line terminators (every real URL path), the channel is
   * everything after the first "/join/" that has at least one character after it,
   * slashes included.
   */
  lemma JoinChannelOfPlainPath(path: string, i: nat)
    requires forall k :: 0 <= k < |path| ==> !IsLineTerminator(path[k])
    requires JoinMatchAt(path, i)
    requires forall j :: 0 <= j < i ==> !JoinMatchAt(path, j)
    ensures JoinChannel(path) == Some(path[i + 6..])
  {
    assert FirstJoinMatch(path, 0) == Some(i);
    var n := DotRun(path, i + 6);
    assert i + 6 + n == |path|;
    assert path[i + 6..i + 6 + n] == path[i + 6..];
    assert JoinChannel(path) == Some(path[i + 6..i + 6 + n]);
  }

  /** A concrete path: the channel keeps its inner slash. */
  lemma JoinChannelExample()
    ensures JoinChannel("/join/team/room-7") == Some("team/room-7")
  {
    JoinChannelOfPlainPath("/join/team/room-7", 0);
  }

  /** The four paths the route table sends to this component, besides join links. */
  predicate IsFixedRoute(path: string) {
    path == "/login" || path == "/dashboard" || path == "/"
  }

  /** The fixed routes never look like join links. */
  lemma FixedRoutesAreNotJoinLinks(path: string)
    ensures IsFixedRoute(path) ==> JoinChannel(path) == None
  {
    if path == "/dashboard" {
      forall i
        ensures !JoinMatchAt(path, i)
      {
        if 0 <= i && i + 7 <= |path| {
          assert path[i..i + 6][1] == path[i + 1] != 'j';
        }
      }
    }
  }

  /**
   * One run of the routing effect, after the clean-up that cancels the previous
   * run's timer: a join link selects the join view and records its channel; "/login"
   * and "/dashboard" select their views; "/" arms the splash timer (capturing the
   * current view); any other path changes nothing.
   */
  function RunEffect(s: AppState): (r: AppState)
    ensures r.user == s.user && r.path == s.path
    ensures JoinChannel(s.path).Some? ==>
      r.view == Join && r.joinChannelName == JoinChannel(s.path).value && r.splashTimer == None
    ensures s.path == "/login" ==> r == s.(view := Login, splashTimer := None)
    ensures s.path == "/dashboard" ==> r == s.(view := Dashboard, splashTimer := None)
    ensures s.path == "/" ==> r == s.(splashTimer := Some(s.view))
    ensures JoinChannel(s.path).None? && !IsFixedRoute(s.path) ==> r == s.(splashTimer := None)
  {
    FixedRoutesAreNotJoinLinks(s.path);
    var cleared := s.(splashTimer := None);
    match JoinChannel(s.path)
    case Some(channel) =>
      cleared.(joinChannelName := channel, view := Join)
    case None =>
      if s.path == "/login" then cleared.(view := Login)
      else if s.path == "/dashboard" then cleared.(view := Dashboard)
      else if s.path == "/" then s.(splashTimer := Some(s.view))
      else cleared
  }

  /** Re-running the effect after its own state changes changes nothing: one run reaches the fixed point. */
  lemma RunEffectStable(s: AppState)
    ensures RunEffect(RunEffect(s)) == RunEffect(s)
  {
  }

  /** React Router's `navigate(path)`: the location changes and the effect re-runs. */
  function Navigate(s: AppState, path: string): AppState {
    RunEffect(s.(path := path))
  }

  /** The state on mount at `path`: the splash view, no user, no channel, then the effect runs. */
  function Initial(path: string): AppState {
    RunEffect(AppState(Splash, None, "", path, None))
  }

  /**
   * The splash timer fires (3000 ms after it was armed and not cleared since): if the
   * view it captured was splash, it navigates to "/login" and selects login;
   * otherwise it does nothing. Either way the timer is spent.
   */
  function SplashTimerFires(s: AppState): (r: AppState)
    ensures r.user == s.user && r.splashTimer == None
    ensures s.splashTimer == Some(Splash) ==> r.view == Login && r.path == "/login"
    ensures s.splashTimer != Some(Splash) ==> r == s.(splashTimer := None)
  {
    match s.splashTimer
    case Some(Splash) => RunEffect(s.(path := "/login", view := Login, splashTimer := None))
    case _ => s.(splashTimer := None)
  }

  /** `handleLogin`: store the user, navigate to "/dashboard" and select the dashboard. */
  function HandleLogin(s: AppState, u: User): (r: AppState)
    ensures r.user == Some(u) && r.view == Dashboard && r.path == "/dashboard"
    ensures r.joinChannelName == s.joinChannelName && r.splashTimer == None
  {
    RunEffect(s.(user := Some(u), path := "/dashboard", view := Dashboard))
  }

  /** `handleBackFromJoin`: navigate to "/login", select login and forget the channel. */
  function HandleBackFromJoin(s: AppState): (r: AppState)
    ensures r.view == Login && r.path == "/login" && r.joinChannelName == ""
    ensures r.user == s.user && r.splashTimer == None
  {
    RunEffect(s.(path := "/login", view := Login, joinChannelName := ""))
  }

  /** The splash lifecycle: mounting at "/" shows splash with the timer armed, and the timer moves to login. */
  lemma SplashThenLogin()
    ensures Initial("/").view == Splash && Initial("/").splashTimer == Some(Splash)
    ensures SplashTimerFires(Initial("/")).view == Login
    ensures SplashTimerFires(Initial("/")).path == "/login"
  {
  }

  /** Navigating away from "/" before the timer fires cancels it: the expiry then changes nothing. */
  lemma NavigationCancelsSplashTimer(s: AppState, path: string)
    requires path != "/"
    ensures Navigate(s, path).splashTimer == None
    ensures SplashTimerFires(Navigate(s, path)) == Navigate(s, path)
  {
  }

  /**
   * The router's invariant: the join view always carries a channel, and a
   * splash timer is only pending on "/".
   */
  predicate Inv(s: AppState) {
    && (s.view == Join ==> s.joinChannelName != "")
    && (s.splashTimer.Some? ==> s.path == "/")
  }

  /** Every mounted state and every transition keeps the invariant. */
  lemma InvPreserved(s: AppState, path: string, u: User)
    requires Inv(s)
    ensures Inv(Initial(path))
    ensures Inv(RunEffect(s))
    ensures Inv(Navigate(s, path))
    ensures Inv(SplashTimerFires(s))
    ensures Inv(HandleLogin(s, u))
    ensures Inv(HandleBackFromJoin(s))
  {
  }

  /** The screens `AppContent` can render. */
  datatype Screen =
    | JoinScreen(channelName: string)
    | SplashScreen
    | LoginScreen
    | DashboardScreen(user: Option<User>, userId: string)

  /** `name.replace(/\s+/g, '_')`: every maximal run of white space becomes one underscore. */
  function CollapseSpaces(s: string): (r: string)
    ensures forall i :: 0 <= i < |r| ==> !IsSpace(r[i])
    ensures |r| <= |s|
    ensures (forall i :: 0 <= i < |s| ==> !IsSpace(s[i])) ==> r == s
    decreases |s|
  {
    if s == [] then []
    else if IsSpace(s[0]) then "_" + CollapseSpaces(s[LeadingSpaces(s)..])
    else [s[0]] + CollapseSpaces(s[1..])
  }

  /** A leading white-space run that stops inside `a` is not changed by what follows `a`. */
  lemma {:induction false} LeadingSpacesAppend(a: string, t: string)
    requires a != [] && !IsSpace(a[|a| - 1])
    ensures LeadingSpaces(a + t) == LeadingSpaces(a) < |a|
  {
    var k := LeadingSpaces(a);
    var n := LeadingSpaces(a + t);
    assert k < |a|;
    assert (a + t)[k] == a[k];
  }

  /** Splitting after a character that is not white space splits the collapsed result at the same place. */
  lemma {:induction false} CollapseSpacesAppend(a: string, t: string)
    requires a == [] || !IsSpace(a[|a| - 1])
    ensures CollapseSpaces(a + t) == CollapseSpaces(a) + CollapseSpaces(t)
    decreases |a|
  {
    if a == [] {
      assert a + t == t;
    } else {
      var k := if IsSpace(a[0]) then LeadingSpaces(a) else 1;
      if IsSpace(a[0]) {
        LeadingSpacesAppend(a, t);
      }
      CollapseSpacesAppendStep(a, t, k);
    }
  }

  /** One step of `CollapseSpacesAppend`: the first run or character of `a` comes off the same way with `t` attached. */
  lemma {:induction false} CollapseSpacesAppendStep(a: string, t: string, k: nat)
    requires 0 < k < |a| || k == |a| == 1
    requires !IsSpace(a[|a| - 1])
    requires (IsSpace(a[0]) && k == LeadingSpaces(a) == LeadingSpaces(a + t)) || (!IsSpace(a[0]) && k == 1)
    ensures CollapseSpaces(a + t) == CollapseSpaces(a) + CollapseSpaces(t)
    decreases |a|, 0
  {
    var s := a + t;
    assert s[0] == a[0];
    assert s[k..] == a[k..] + t;
    CollapseSpacesAppend(a[k..], t);
  }

  /** A white-space run followed by a word character collapses to one "_". */
  lemma {:induction false} CollapseSpacesOfRun(w: string, b: string)
    requires |w| > 0 && forall i :: 0 <= i < |w| ==> IsSpace(w[i])
    requires b == [] || !IsSpace(b[0])
    ensures CollapseSpaces(w + b) == "_" + CollapseSpaces(b)
  {
    var s := w + b;
    assert s[0] == w[0];
    assert forall i :: 0 <= i < |w| ==> s[i] == w[i];
    assert |w| < |s| ==> s[|w|] == b[0];
    assert LeadingSpaces(s) == |w|;
    assert s[|w|..] == b;
  }

  /**
   * The defining property of `replace(/\s+/g, '_')`: a maximal white-space run
   * between `a` and `b` becomes exactly one "_", and the two sides collapse on
   * their own. With `CollapseSpaces(a) == a` for names without white space,
   * this fixes the result on every string.
   */
  lemma {:induction false} CollapseSpacesRun(a: string, w: string, b: string)
    requires a == [] || !IsSpace(a[|a| - 1])
    requires |w| > 0 && forall i :: 0 <= i < |w| ==> IsSpace(w[i])
    requires b == [] || !IsSpace(b[0])
    ensures CollapseSpaces(a + (w + b)) == CollapseSpaces(a) + ("_" + CollapseSpaces(b))
  {
    CollapseSpacesAppend(a, w + b);
    CollapseSpacesOfRun(w, b);
  }

  /** A character other than white space and the underscore that replaces it. */
  predicate IsWordChar(c: char) {
    !IsSpace(c) && c != '_'
  }

  /** The word characters of `s`, in order. */
  function WordChars(s: string): (r: string)
    ensures forall i :: 0 <= i < |r| ==> IsWordChar(r[i])
    decreases |s|
  {
    if s == [] then [] else (if IsWordChar(s[0]) then [s[0]] else []) + WordChars(s[1..])
  }

  lemma {:induction false} WordCharsAppend(a: string, b: string)
    ensures WordChars(a + b) == WordChars(a) + WordChars(b)
    decreases |a|
  {
    if a == [] {
      assert a + b == b;
    } else {
      assert (a + b)[1..] == a[1..] + b;
      WordCharsAppend(a[1..], b);
    }
  }

  lemma {:induction false} WordCharsOfSpaces(s: string)
    requires forall i :: 0 <= i < |s| ==> IsSpace(s[i])
    ensures WordChars(s) == []
    decreases |s|
  {
    if s != [] {
      WordCharsOfSpaces(s[1..]);
    }
  }

  /** Collapsing keeps every character that is neither white space nor "_", in the same order. */
  lemma {:induction false} CollapseSpacesKeepsText(s: string)
    ensures WordChars(CollapseSpaces(s)) == WordChars(s)
    decreases |s|
  {
    if s != [] {
      var k := if IsSpace(s[0]) then LeadingSpaces(s) else 1;
      var rest := s[k..];
      assert s == s[..k] + rest;
      WordCharsAppend(s[..k], rest);
      CollapseSpacesKeepsText(rest);
      if IsSpace(s[0]) {
        WordCharsOfSpaces(s[..k]);
        WordCharsAppend("_", CollapseSpaces(rest));
      } else {
        assert CollapseSpaces(s) == s[..k] + CollapseSpaces(rest);
        WordCharsAppend(s[..k], CollapseSpaces(rest));
      }
    }
  }

  /**
   * The user id passed to the dashboard: "anonymous" without a user, else the
   * name with white-space runs collapsed to "_", then "_" and the timestamp
   * `now` (the value of `Date.now()`).
   */
  function UserId(user: Option<User>, now: nat): (r: string)
    ensures user.None? ==> r == "anonymous"
    ensures user.Some? ==> EndsWith(r, "_" + NatToString(now))
    ensures user.Some? ==> r[..|r| - |NatToString(now)| - 1] == CollapseSpaces(user.value.name)
    ensures forall i :: 0 <= i < |r| ==> !IsSpace(r[i])
  {
    match user
    case None => "anonymous"
    case Some(u) =>
      var c := CollapseSpaces(u.name);
      var d := NatToString(now);
      var r := c + "_" + d;
      assert r[|r| - |d| - 1..] == "_" + d;
      assert r[..|r| - |d| - 1] == c;
      assert forall i :: 0 <= i < |r| ==> !IsSpace(r[i]) by {
        forall i | 0 <= i < |r|
          ensures !IsSpace(r[i])
        {
          if i < |c| {
            assert r[i] == c[i];
          } else if i > |c| {
            assert r[i] == d[i - |c| - 1];
            assert IsDigit(d[i - |c| - 1]);
          }
        }
      }
      r
  }

  /** A signed-in user's id ends in a digit, so it can never be mistaken for "anonymous". */
  lemma UserIdNeverAnonymous(u: User, now: nat)
    ensures UserId(Some(u), now) != "anonymous"
  {
    var r := UserId(Some(u), now);
    var d := NatToString(now);
    assert r[|r| - 1] == d[|d| - 1];
    assert IsDigit(r[|r| - 1]);
  }

  /**
   * What `AppContent` renders, in priority order: the join screen when the view is
   * join and a channel is set; else splash; else login; otherwise the dashboard
   * (also reached by a join view without a channel).
   */
  function Render(s: AppState, now: nat): (r: Screen)
    ensures r.JoinScreen? <==> s.view == Join && s.joinChannelName != ""
    ensures r.JoinScreen? ==> r.channelName == s.joinChannelName
    ensures r.SplashScreen? <==> s.view == Splash
    ensures r.LoginScreen? <==> s.view == Login
    ensures r.DashboardScreen? ==> r.user == s.user && r.userId == UserId(s.user, now)
  {
    if s.view == Join && s.joinChannelName != "" then JoinScreen(s.joinChannelName)
    else if s.view == Splash then SplashScreen
    else if s.view == Login then LoginScreen
    else DashboardScreen(s.user, UserId(s.user, now))
  }

  /** Under the invariant each view renders its own screen: the dashboard fallback never catches a join view. */
  lemma RenderMatchesView(s: AppState, now: nat)
    requires Inv(s)
    ensures Render(s, now).JoinScreen? <==> s.view == Join
    ensures Render(s, now).DashboardScreen? <==> s.view == Dashboard
  {
  }

  /**
   * As written, a fresh visit to "/dashboard" renders the dashboard with no session
   * user: the dashboard header then reads `user.name` of `null`.
   */
  lemma DirectDashboardVisitHasNoUser(now: nat)
    ensures Render(Initial("/dashboard"), now) == DashboardScreen(None, "anonymous")
  {
  }

  /**
   * The dashboard as evidently intended (the `user!` assertion on the dashboard's
   * props): it renders only with a session user, and without one the login page is
   * shown instead.
   */
  function RenderGuarded(s: AppState, now: nat): (r: Screen)
    ensures r.DashboardScreen? ==> r.user.Some? && r.user == s.user
    ensures s.user.Some? ==> r == Render(s, now)
    ensures r.JoinScreen? <==> Render(s, now).JoinScreen?
  {
    match Render(s, now)
    case DashboardScreen(None, _) => LoginScreen
    case other => other
  }

  /** With the guard, the direct visit to "/dashboard" lands on the login page. */
  lemma DirectDashboardVisitGuarded(now: nat)
    ensures RenderGuarded(Initial("/dashboard"), now) == LoginScreen
  {
  }
}
