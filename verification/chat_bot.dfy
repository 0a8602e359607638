/**
 * The assistant panel of the conference: a message list, a typed input sent with
 * Enter, a bot answer streamed one character per tick, a keyword-based reply
 * chooser, and a panel whose width is dragged within fixed bounds. Clock readings
 * (`Date.now()` and the displayed time) and the random draw are inputs.
 */
module ChatBot {
  import opened Wrappers
  import opened Text
  import Typewriter

  datatype Sender = UserSender | BotSender

  datatype Message = Message(id: string, text: string, sender: Sender, timestamp: string, image: Option<string>)

  /** The bubble being streamed: the typing in progress and the image that goes with it. */
  datatype Streaming = Streaming(progress: Typewriter.Progress, image: Option<string>)

  /** Where a resize drag started: the mouse's x and the panel's width then. */
  datatype ResizeStart = ResizeStart(x: int, width: int)

  datatype ChatState = ChatState(
    messages: seq<Message>,
    inputMessage: string,
    isTyping: bool,
    streaming: Option<Streaming>,
    isPanelOpen: bool,
    panelWidth: int,
    isResizing: bool,
    resizeStart: Option<ResizeStart>,
    streamingStarted: bool)

  const MinWidth: int := 250
  const MaxWidth: int := 500
  const InitialWidth: int := 288

  /** A stream in progress always shows a prefix of its text, and the panel width is within bounds. */
  predicate Inv(s: ChatState) {
    && (s.streaming.Some? ==> Typewriter.Valid(s.streaming.value.progress))
    && MinWidth <= s.panelWidth <= MaxWidth
  }

  const WelcomeText: string :=
    "Hello! I'm your AI meeting assistant. I can help you with questions about your resume, projects, or provide suggestions during your meeting. How can I assist you today?"

  /** The panel on mount: the welcome message from the bot, open, 288 pixels wide, nothing streaming. */
  function Initial(clock: string): (r: ChatState)
    ensures Inv(r)
    ensures |r.messages| == 1 && r.messages[0].sender == BotSender && r.messages[0].id == "1"
    ensures r.inputMessage == "" && !r.isTyping && r.streaming.None? && r.isPanelOpen
    ensures r.panelWidth == InitialWidth && !r.isResizing && !r.streamingStarted
  {
    ChatState([Message("1", WelcomeText, BotSender, clock, None)], "", false, None, true,
              InitialWidth, false, None, false)
  }

  /** ---------------------------------------------------------------- streaming */

  /** `streamBotResponse`'s first part: an empty bubble for the text, and the typing flag. */
  function StartStream(s: ChatState, fullText: string, image: Option<string>): (r: ChatState)
    requires Inv(s)
    ensures Inv(r) && r.isTyping
    ensures r.streaming == Some(Streaming(Typewriter.Start(fullText), image))
    ensures r.messages == s.messages && r.inputMessage == s.inputMessage
  {
    s.(streaming := Some(Streaming(Typewriter.Start(fullText), image)), isTyping := true)
  }

  /**
   * One 30 ms tick of the stream's interval: one more character is shown while any
   * remain; after that, the full text joins the history as one bot message with
   * the image, and the bubble and the typing flag are cleared.
   */
  function StreamTick(s: ChatState, now: nat, clock: string): (r: ChatState)
    requires Inv(s)
    ensures Inv(r)
    ensures s.streaming.None? ==> r == s
    ensures s.streaming.Some? && s.streaming.value.progress.index < |s.streaming.value.progress.full| ==>
      && r.messages == s.messages
      && r.streaming.Some?
      && r.streaming.value.image == s.streaming.value.image
      && r.streaming.value.progress.full == s.streaming.value.progress.full
      && r.streaming.value.progress.index == s.streaming.value.progress.index + 1
    ensures s.streaming.Some? && s.streaming.value.progress.index == |s.streaming.value.progress.full| ==>
      && r.messages == s.messages + [Message(NatToString(now), s.streaming.value.progress.full, BotSender,
                                             clock, s.streaming.value.image)]
      && r.streaming.None? && !r.isTyping
    ensures r.inputMessage == s.inputMessage && r.panelWidth == s.panelWidth
  {
    match s.streaming
    case None => s
    case Some(st) =>
      match Typewriter.Tick(st.progress)
      case Typing(next) => s.(streaming := Some(st.(progress := next)))
      case Finished(text) =>
        var m := Message(NatToString(now), text, BotSender, clock, st.image);
        s.(messages := s.messages + [m], streaming := None, isTyping := false)
  }

  /** `n` stream ticks, all at the same clock reading. */
  function StreamTicks(s: ChatState, n: nat, now: nat, clock: string): (r: ChatState)
    requires Inv(s)
    ensures Inv(r)
    decreases n
  {
    if n == 0 then s else StreamTicks(StreamTick(s, now, clock), n - 1, now, clock)
  }

  /**
   * A stream of `t` started on a quiet panel shows exactly the first `k` characters
   * after `k` ticks, leaving the history alone.
   */
  lemma {:induction false} StreamShowsPrefix(s: ChatState, t: string, image: Option<string>, k: nat, now: nat, clock: string)
    requires Inv(s) && k <= |t|
    ensures var r := StreamTicks(StartStream(s, t, image), k, now, clock);
      r.messages == s.messages && r.streaming == Some(Streaming(Typewriter.Progress(t, t[..k], k), image))
    decreases k
  {
    if k > 0 {
      StreamShowsPrefix(s, t, image, k - 1, now, clock);
      StreamTicksLast(StartStream(s, t, image), k, now, clock);
      assert t[..k - 1] + [t[k - 1]] == t[..k];
    }
  }

  /** Splitting off the last tick. */
  lemma {:induction false} StreamTicksLast(s: ChatState, n: nat, now: nat, clock: string)
    requires Inv(s) && n > 0
    ensures StreamTicks(s, n, now, clock) == StreamTick(StreamTicks(s, n - 1, now, clock), now, clock)
    decreases n
  {
    if n > 1 {
      StreamTicksLast(StreamTick(s, now, clock), n - 1, now, clock);
    }
  }

  /**
   * The tick after the last character delivers the whole text as exactly one new
   * bot message carrying the image, and ends the stream.
   */
  lemma StreamDelivers(s: ChatState, t: string, image: Option<string>, now: nat, clock: string)
    requires Inv(s)
    ensures var r := StreamTicks(StartStream(s, t, image), |t| + 1, now, clock);
      && r.messages == s.messages + [Message(NatToString(now), t, BotSender, clock, image)]
      && r.streaming.None? && !r.isTyping
  {
    StreamShowsPrefix(s, t, image, |t|, now, clock);
    StreamTicksLast(StartStream(s, t, image), |t| + 1, now, clock);
    assert t[..|t|] == t;
  }

  /** The image appears under the bubble once the shown text equals the full text. */
  predicate ShowsImage(st: Streaming) {
    st.image.Some? && st.progress.shown == st.progress.full
  }

  /** For a stream in progress, the image shows exactly when every character has been typed. */
  lemma ImageOnlyWhenComplete(st: Streaming)
    requires Typewriter.Valid(st.progress)
    ensures ShowsImage(st) <==> st.image.Some? && st.progress.index == |st.progress.full|
  {
    if st.progress.shown == st.progress.full {
      assert |st.progress.full[..st.progress.index]| == st.progress.index;
    }
  }

  const CannedAnswer: string :=
    "According to the host asked the networth for the jet airways has the highest that is 995 million dollars and the information related to this found in this image. These are the citations:"

  const CannedImage: string := "/data.png"

  /**
   * The mount effect: the first run marks the canned answer as started and
   * schedules it two seconds later; a repeated run schedules nothing.
   */
  function MountEffect(s: ChatState): (out: (ChatState, bool))
    ensures out.0.streamingStarted
    ensures out.1 <==> !s.streamingStarted
    ensures out.0.messages == s.messages && out.0.streaming == s.streaming
  {
    (s.(streamingStarted := true), !s.streamingStarted)
  }

  /** However often the effect runs, the canned answer is scheduled once. */
  lemma MountTwiceSchedulesOnce(s: ChatState)
    requires !s.streamingStarted
    ensures MountEffect(s).1 && !MountEffect(MountEffect(s).0).1
  {
  }

  /** The two-second timer: the canned answer with its image starts streaming. */
  function CannedTimerFires(s: ChatState): (r: ChatState)
    requires Inv(s)
    ensures Inv(r)
    ensures r.streaming == Some(Streaming(Typewriter.Start(CannedAnswer), Some(CannedImage)))
  {
    StartStream(s, CannedAnswer, Some(CannedImage))
  }

  /** ---------------------------------------------------------------- resizing */

  /** `Math.max(lo, Math.min(hi, v))`. */
  function Clamp(lo: int, hi: int, v: int): (r: int)
    requires lo <= hi
    ensures lo <= r <= hi
    ensures lo <= v <= hi ==> r == v
    ensures v < lo ==> r == lo
    ensures v > hi ==> r == hi
  {
    if v < lo then lo else if v > hi then hi else v
  }

  /** Clamping is monotone: a mouse further left never gives a narrower panel. */
  lemma ClampMonotone(lo: int, hi: int, v: int, w: int)
    requires lo <= hi && v <= w
    ensures Clamp(lo, hi, v) <= Clamp(lo, hi, w)
  {
  }

  /** `handleResizeStart`: a drag starts at the mouse with the current width. */
  function ResizeBegin(s: ChatState, clientX: int): (r: ChatState)
    requires Inv(s)
    ensures Inv(r) && r.isResizing
    ensures r.resizeStart == Some(ResizeStart(clientX, s.panelWidth))
    ensures r.panelWidth == s.panelWidth
  {
    s.(isResizing := true, resizeStart := Some(ResizeStart(clientX, s.panelWidth)))
  }

  /**
   * `handleMouseMove`: during a drag the width becomes the start width plus how
   * far the mouse moved left, clamped to 250..500; otherwise nothing happens.
   */
  function MouseMove(s: ChatState, clientX: int): (r: ChatState)
    requires Inv(s)
    ensures Inv(r)
    ensures !s.isResizing || s.resizeStart.None? ==> r == s
    ensures s.isResizing && s.resizeStart.Some? ==>
      var st := s.resizeStart.value;
      && (MinWidth <= st.width + (st.x - clientX) <= MaxWidth ==> r.panelWidth == st.width + (st.x - clientX))
      && (st.width + (st.x - clientX) < MinWidth ==> r.panelWidth == MinWidth)
      && (st.width + (st.x - clientX) > MaxWidth ==> r.panelWidth == MaxWidth)
    ensures r.messages == s.messages && r.resizeStart == s.resizeStart && r.isResizing == s.isResizing
  {
    if !s.isResizing || s.resizeStart.None? then s
    else
      var st := s.resizeStart.value;
      s.(panelWidth := Clamp(MinWidth, MaxWidth, st.width + (st.x - clientX)))
  }

  /** `handleMouseUp`: the drag ends and its start is forgotten. */
  function MouseUp(s: ChatState): (r: ChatState)
    requires Inv(s)
    ensures Inv(r) && !r.isResizing && r.resizeStart.None?
    ensures r.panelWidth == s.panelWidth
  {
    s.(isResizing := false, resizeStart := None)
  }

  /** Moving the mouse back to where the drag began restores the width the drag began with. */
  lemma DragBackRestoresWidth(s: ChatState, x: int, y: int)
    requires Inv(s)
    ensures MouseMove(MouseMove(ResizeBegin(s, x), y), x).panelWidth == s.panelWidth
  {
  }

  /** The minimise/expand button. */
  function TogglePanel(s: ChatState): (r: ChatState)
    ensures r.isPanelOpen == !s.isPanelOpen
    ensures r.messages == s.messages && r.panelWidth == s.panelWidth
  {
    s.(isPanelOpen := !s.isPanelOpen)
  }

  lemma TogglePanelTwice(s: ChatState)
    ensures TogglePanel(TogglePanel(s)) == s
  {
  }

  /** ---------------------------------------------------------------- replies */

  /** The keyword groups of `generateBotResponse`, in the order they are tried. */
  const KeywordGroups: seq<seq<string>> := [
    ["resume", "cv"],
    ["project", "work"],
    ["interview", "question"],
    ["technical", "coding"],
    ["hello", "hi"],
    ["help"]
  ]

  /** The reply for each keyword group. */
  const KeywordReplies: seq<string> := [
    "I can help you recall key points from your resume. What specific aspect would you like me to highlight - your experience, skills, or recent projects?",
    "Tell me about the project you'd like to discuss. I can help you structure your explanation or remind you of technical details.",
    "For interview questions, remember to use the STAR method (Situation, Task, Action, Result). Would you like me to help you structure an answer?",
    "For technical discussions, focus on your problem-solving approach, the technologies you used, and the impact of your solution. What technical topic are you preparing for?",
    "Hello! I'm here to assist you during your meeting. Feel free to ask me anything about your background, projects, or need suggestions for responses.",
    "I can help you with:\n• Recalling resume details\n• Structuring project explanations\n• Interview question strategies\n• Technical discussion points\n• General meeting support\n\nWhat would you like assistance with?"
  ]

  /** `defaultResponses`. */
  const DefaultReplies: seq<string> := [
    "That's an interesting point. Would you like me to help you elaborate on that topic?",
    "I understand. Can you provide more context so I can better assist you?",
    "Great question! Let me help you think through this systematically.",
    "Based on what you've shared, here are some key points you might want to emphasize...",
    "That sounds important. Would you like me to help you structure your thoughts on this?"
  ]

  /** Some keyword of group `k` occurs in the lower-cased message. */
  predicate HitsGroup(lower: string, k: nat)
    requires k < |KeywordGroups|
  {
    exists j :: 0 <= j < |KeywordGroups[k]| && Contains(lower, KeywordGroups[k][j])
  }

  /** The first group from `k` on that the message hits. */
  function FirstHit(lower: string, k: nat): (r: Option<nat>)
    requires k <= |KeywordGroups|
    ensures r.Some? ==> k <= r.value < |KeywordGroups| && HitsGroup(lower, r.value)
    ensures r.Some? ==> forall j :: k <= j < r.value ==> !HitsGroup(lower, j)
    ensures r.None? ==> forall j :: k <= j < |KeywordGroups| ==> !HitsGroup(lower, j)
    decreases |KeywordGroups| - k
  {
    if k == |KeywordGroups| then None
    else if HitsGroup(lower, k) then Some(k)
    else FirstHit(lower, k + 1)
  }

  /**
   * `generateBotResponse`: the reply of the first keyword group the lower-cased
   * message hits; with no hit, the default reply picked by the random draw.
   */
  function GenerateBotResponse(userMessage: string, choice: nat): (reply: string)
    requires choice < |DefaultReplies|
    ensures forall k :: (0 <= k < |KeywordGroups| && HitsGroup(LowerStr(userMessage), k)
                         && (forall j :: 0 <= j < k ==> !HitsGroup(LowerStr(userMessage), j)))
                        ==> reply == KeywordReplies[k]
    ensures (forall k :: 0 <= k < |KeywordGroups| ==> !HitsGroup(LowerStr(userMessage), k))
      ==> reply == DefaultReplies[choice]
  {
    match FirstHit(LowerStr(userMessage), 0)
    case Some(k) => KeywordReplies[k]
    case None => DefaultReplies[choice]
  }

  /** The reply ignores the case of the message. */
  lemma ReplyIgnoresCase(userMessage: string, choice: nat)
    requires choice < |DefaultReplies|
    ensures GenerateBotResponse(LowerStr(userMessage), choice) == GenerateBotResponse(userMessage, choice)
  {
    LowerStrIdempotent(userMessage);
  }

  /** A message naming a resume or CV always gets the resume reply, whatever else it mentions. */
  lemma ResumeComesFirst(userMessage: string, choice: nat)
    requires choice < |DefaultReplies|
    requires Contains(LowerStr(userMessage), "resume") || Contains(LowerStr(userMessage), "cv")
    ensures GenerateBotResponse(userMessage, choice) == KeywordReplies[0]
  {
    var lower := LowerStr(userMessage);
    if Contains(lower, "resume") {
      assert Contains(lower, KeywordGroups[0][0]);
    } else {
      assert Contains(lower, KeywordGroups[0][1]);
    }
    assert HitsGroup(lower, 0);
  }

  /** The random draw only matters when no keyword matches. */
  lemma DrawOnlyForNoHit(userMessage: string, c1: nat, c2: nat)
    requires c1 < |DefaultReplies| && c2 < |DefaultReplies|
    requires exists k :: 0 <= k < |KeywordGroups| && HitsGroup(LowerStr(userMessage), k)
    ensures GenerateBotResponse(userMessage, c1) == GenerateBotResponse(userMessage, c2)
    ensures GenerateBotResponse(userMessage, c1) in KeywordReplies
  {
  }

  /** ---------------------------------------------------------------- sending */

  const DisabledReply: string := "AI features are currently disabled."

  /** The send button is disabled while the trimmed input is empty. */
  predicate SendDisabled(s: ChatState) {
    Trim(s.inputMessage) == ""
  }

  /**
   * `handleSendMessage`: a blank input does nothing; otherwise the untrimmed text as
   * the user's message and the fixed reply as the bot's are appended, the input is
   * cleared and the typing flag is off. The handler reads the clock once for each
   * message: the user's message carries `sentAt` and `sentClock`, the reply
   * `repliedAt + 1` and `repliedClock`.
   */
  function HandleSendMessage(s: ChatState, sentAt: nat, sentClock: string, repliedAt: nat, repliedClock: string): (r: ChatState)
    requires Inv(s)
    ensures Inv(r)
    ensures IsBlank(s.inputMessage) ==> r == s
    ensures !IsBlank(s.inputMessage) ==>
      && r.messages == s.messages + [
           Message(NatToString(sentAt), s.inputMessage, UserSender, sentClock, None),
           Message(NatToString(repliedAt + 1), DisabledReply, BotSender, repliedClock, None)]
      && r.inputMessage == "" && !r.isTyping
      && r.streaming == s.streaming && r.panelWidth == s.panelWidth
  {
    if IsBlank(s.inputMessage) then s
    else
      var mine := Message(NatToString(sentAt), s.inputMessage, UserSender, sentClock, None);
      var reply := Message(NatToString(repliedAt + 1), DisabledReply, BotSender, repliedClock, None);
      s.(messages := s.messages + [mine, reply], inputMessage := "", isTyping := false)
  }

  /** The disabled button and the handler agree: sending does something exactly when the button is enabled. */
  lemma SendButtonMatchesHandler(s: ChatState, sentAt: nat, sentClock: string, repliedAt: nat, repliedClock: string)
    requires Inv(s)
    ensures SendDisabled(s) <==> HandleSendMessage(s, sentAt, sentClock, repliedAt, repliedClock) == s
  {
    if !IsBlank(s.inputMessage) {
      assert |HandleSendMessage(s, sentAt, sentClock, repliedAt, repliedClock).messages| == |s.messages| + 2;
    }
  }

  /**
   * The two new messages never share an id, as long as the clock does not run
   * backwards between the two readings; a reading in between only widens the gap.
   */
  lemma SentIdsDiffer(sentAt: nat, repliedAt: nat)
    requires sentAt <= repliedAt
    ensures NatToString(sentAt) != NatToString(repliedAt + 1)
  {
    ParseNatToString(sentAt);
    ParseNatToString(repliedAt + 1);
  }

  /** `handleKeyPress`: Enter without Shift sends; any other key, or Shift+Enter, does nothing here. */
  function HandleKeyPress(s: ChatState, key: string, shiftKey: bool, sentAt: nat, sentClock: string, repliedAt: nat, repliedClock: string): (r: ChatState)
    requires Inv(s)
    ensures Inv(r)
    ensures key == "Enter" && !shiftKey ==> r == HandleSendMessage(s, sentAt, sentClock, repliedAt, repliedClock)
    ensures key != "Enter" || shiftKey ==> r == s
  {
    if key == "Enter" && !shiftKey then HandleSendMessage(s, sentAt, sentClock, repliedAt, repliedClock) else s
  }

  /** ---------------------------------------------------------------- message list on screen */

  datatype Bubble =
    | MessageBubble(message: Message)
    | StreamBubble(text: string, showsImage: bool)
    | TypingDots

  function MessageBubbles(ms: seq<Message>): (bs: seq<Bubble>)
    ensures |bs| == |ms|
    ensures forall i :: 0 <= i < |ms| ==> bs[i] == MessageBubble(ms[i])
  {
    seq(|ms|, i requires 0 <= i < |ms| => MessageBubble(ms[i]))
  }

  function StreamBubbleOf(st: Streaming): Bubble {
    StreamBubble(st.progress.shown, ShowsImage(st))
  }

  /** Number of streaming bubbles in a list. */
  function StreamBubbles(bs: seq<Bubble>): nat {
    if bs == [] then 0 else (if bs[0].StreamBubble? then 1 else 0) + StreamBubbles(bs[1..])
  }

  lemma {:induction false} StreamBubblesAppend(a: seq<Bubble>, b: seq<Bubble>)
    ensures StreamBubbles(a + b) == StreamBubbles(a) + StreamBubbles(b)
  {
    if a != [] {
      assert (a + b)[1..] == a[1..] + b;
      StreamBubblesAppend(a[1..], b);
    } else {
      assert a + b == b;
    }
  }

  lemma {:induction false} NoStreamBubblesInHistory(ms: seq<Message>)
    ensures StreamBubbles(MessageBubbles(ms)) == 0
  {
    if ms != [] {
      assert MessageBubbles(ms)[1..] == MessageBubbles(ms[1..]);
      NoStreamBubblesInHistory(ms[1..]);
    }
  }

  /**
   * The message area as the component renders it: the history, then the streaming
   * block, which appears twice in a row, then the typing dots when typing with
   * nothing streaming.
   */
  function RenderAsWritten(s: ChatState): (bs: seq<Bubble>)
    ensures |bs| >= |s.messages| && bs[..|s.messages|] == MessageBubbles(s.messages)
  {
    var stream := if s.streaming.Some? then [StreamBubbleOf(s.streaming.value)] else [];
    var dots := if s.isTyping && s.streaming.None? then [TypingDots] else [];
    MessageBubbles(s.messages) + stream + stream + dots
  }

  /** While an answer streams, its bubble is on screen twice. */
  lemma StreamShownTwice(s: ChatState)
    requires s.streaming.Some?
    ensures StreamBubbles(RenderAsWritten(s)) == 2
  {
    var st := [StreamBubbleOf(s.streaming.value)];
    NoStreamBubblesInHistory(s.messages);
    StreamBubblesAppend(MessageBubbles(s.messages), st);
    StreamBubblesAppend(MessageBubbles(s.messages) + st, st);
    StreamBubblesAppend(MessageBubbles(s.messages) + st + st, []);
  }

  /** The message area with a single streaming block. */
  function Render(s: ChatState): (bs: seq<Bubble>)
    ensures |bs| >= |s.messages| && bs[..|s.messages|] == MessageBubbles(s.messages)
  {
    var stream := if s.streaming.Some? then [StreamBubbleOf(s.streaming.value)] else [];
    var dots := if s.isTyping && s.streaming.None? then [TypingDots] else [];
    MessageBubbles(s.messages) + stream + dots
  }

  /** With one block, the streaming bubble is on screen exactly once while an answer streams, and never otherwise. */
  lemma StreamShownOnce(s: ChatState)
    ensures StreamBubbles(Render(s)) == if s.streaming.Some? then 1 else 0
  {
    var stream := if s.streaming.Some? then [StreamBubbleOf(s.streaming.value)] else [];
    var dots := if s.isTyping && s.streaming.None? then [TypingDots] else [];
    NoStreamBubblesInHistory(s.messages);
    StreamBubblesAppend(MessageBubbles(s.messages), stream);
    StreamBubblesAppend(MessageBubbles(s.messages) + stream, dots);
  }
}
