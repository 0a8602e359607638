/**
 * The live-conversation panel of the conference: a scripted dialogue typed out
 * line by line on timers, the transcript lines other participants broadcast
 * (taken once each, and only by the room's creator), shown in id order, and the
 * blank check in front of sending a recognised transcript. Timers are modelled
 * as explicit events; clock readings and item ids are inputs.
 */
module TranscriptPanel {
  import opened Wrappers
  import opened Text
  import Seqs

  datatype Speaker = Host | User

  /** `TranscriptItem`; the id is `Date.now() + Math.random()` at the sender, an integer here. */
  datatype TranscriptItem = TranscriptItem(id: int, text: string, timestamp: string, speaker: Speaker)

  /** ---------------------------------------------------------------- the scripted dialogue */

  datatype DialogueLine = DialogueLine(speaker: Speaker, text: string, delay: nat)

  /** `predefinedDialogue`. */
  const Dialogue: seq<DialogueLine> := [
    DialogueLine(Host, "hello leela prasad", 1000),
    DialogueLine(User, "hello sir", 2000),
    DialogueLine(Host, "which company has the highest networth in the last year..?", 3000),
    DialogueLine(User, "sir jet airways over 995 million dollars..", 2500)
  ]

  /**
   * The timeout of each line, in ms after mount: `totalDelay` grows by the line's
   * own delay before the line is scheduled, so each line waits its delay after the
   * previous line's timeout. `t0` is the total before the first line.
   */
  function StartTimes(lines: seq<DialogueLine>, t0: nat): (r: seq<nat>)
    ensures |r| == |lines|
    ensures |lines| > 0 ==> r[0] == t0 + lines[0].delay
    ensures forall k :: 0 <= k < |r| - 1 ==> r[k + 1] == r[k] + lines[k + 1].delay
  {
    if lines == [] then []
    else [t0 + lines[0].delay] + StartTimes(lines[1..], t0 + lines[0].delay)
  }

  /** With positive delays the start times strictly increase. */
  lemma StartTimesIncrease(lines: seq<DialogueLine>, t0: nat)
    requires forall k :: 0 <= k < |lines| ==> lines[k].delay > 0
    ensures forall i, j :: 0 <= i < j < |lines| ==> StartTimes(lines, t0)[i] < StartTimes(lines, t0)[j]
  {
    var r := StartTimes(lines, t0);
    forall i, j | 0 <= i < j < |lines|
      ensures r[i] < r[j]
    {
      StartTimesIncreaseFrom(lines, t0, i, j);
    }
  }

  lemma {:induction false} StartTimesIncreaseFrom(lines: seq<DialogueLine>, t0: nat, i: nat, j: nat)
    requires forall k :: 0 <= k < |lines| ==> lines[k].delay > 0
    requires i < j < |lines|
    ensures StartTimes(lines, t0)[i] < StartTimes(lines, t0)[j]
    decreases j - i
  {
    if j > i + 1 {
      StartTimesIncreaseFrom(lines, t0, i, j - 1);
    }
  }

  /** The script's lines start 1, 3, 6 and 8.5 seconds after mount. */
  lemma DialogueStartTimes()
    ensures StartTimes(Dialogue, 0) == [1000, 3000, 6000, 8500]
  {
  }

  /**
   * The mount effect: the first run marks the simulation as started and schedules
   * every line at its start time; a repeated run schedules nothing.
   */
  function SimulationEffect(started: bool): (out: (bool, seq<nat>))
    ensures out.0
    ensures started ==> out.1 == []
    ensures !started ==> |out.1| == |Dialogue| && out.1 == StartTimes(Dialogue, 0)
  {
    (true, if started then [] else StartTimes(Dialogue, 0))
  }

  /** However often the effect runs, the script is scheduled once. */
  lemma SimulationScheduledOnce()
    ensures SimulationEffect(false).1 == [1000, 3000, 6000, 8500]
    ensures SimulationEffect(SimulationEffect(false).0).1 == []
  {
    DialogueStartTimes();
  }

  /** ---------------------------------------------------------------- typing */

  /** `currentTypingMessage`: the bubble on screen while a line is typed. */
  datatype Bubble = Bubble(text: string, speaker: Speaker, fullText: string)

  /** The closure of one running typing interval: its line, its speaker and its `currentIndex`. */
  datatype Interval = Interval(full: string, speaker: Speaker, index: nat)

  datatype TState = TState(
    simulated: seq<TranscriptItem>,
    bubble: Option<Bubble>,
    intervals: seq<Interval>)

  /** The interval milliseconds of `typeMessage`. */
  const TypingTickMs: nat := 50

  /** `typeMessage`: an empty bubble for the line, and a new interval typing it. */
  function TypeMessage(s: TState, full: string, speaker: Speaker): (r: TState)
    ensures r.bubble == Some(Bubble("", speaker, full))
    ensures r.intervals == s.intervals + [Interval(full, speaker, 0)]
    ensures r.simulated == s.simulated
  {
    s.(bubble := Some(Bubble("", speaker, full)), intervals := s.intervals + [Interval(full, speaker, 0)])
  }

  /** The running intervals without interval `k`. */
  function Without(ivs: seq<Interval>, k: nat): (r: seq<Interval>)
    requires k < |ivs|
    ensures |r| == |ivs| - 1
  {
    ivs[..k] + ivs[k + 1..]
  }

  /**
   * One tick of interval `k`: while characters remain, the bubble (whichever line
   * it now belongs to) shows this interval's next prefix; after that the interval
   * stops, its line joins the conversation and the bubble is cleared.
   */
  function IntervalTick(s: TState, k: nat, id: int, clock: string): (r: TState)
    requires k < |s.intervals|
    ensures var iv := s.intervals[k];
      iv.index < |iv.full| ==>
        && r.simulated == s.simulated
        && r.intervals == s.intervals[k := iv.(index := iv.index + 1)]
        && (s.bubble.None? ==> r.bubble.None?)
        && (s.bubble.Some? ==> r.bubble == Some(s.bubble.value.(text := iv.full[..iv.index + 1])))
    ensures var iv := s.intervals[k];
      iv.index >= |iv.full| ==>
        && r.simulated == s.simulated + [TranscriptItem(id, iv.full, clock, iv.speaker)]
        && r.intervals == Without(s.intervals, k)
        && r.bubble.None?
  {
    var iv := s.intervals[k];
    if iv.index < |iv.full| then
      var bubble := if s.bubble.Some? then Some(s.bubble.value.(text := iv.full[..iv.index + 1])) else None;
      s.(bubble := bubble, intervals := s.intervals[k := iv.(index := iv.index + 1)])
    else
      s.(simulated := s.simulated + [TranscriptItem(id, iv.full, clock, iv.speaker)],
         bubble := None, intervals := Without(s.intervals, k))
  }

  /**
   * One line typing alone: the bubble shows exactly the typed prefix of that line,
   * by its speaker; with nothing typing there is no bubble.
   */
  predicate Solo(s: TState) {
    && |s.intervals| <= 1
    && (s.intervals == [] ==> s.bubble.None?)
    && (|s.intervals| == 1 ==>
          var iv := s.intervals[0];
          iv.index <= |iv.full| && s.bubble == Some(Bubble(iv.full[..iv.index], iv.speaker, iv.full)))
  }

  /** When no line is typing, starting one and ticking it keeps the bubble faithful to that line. */
  lemma SoloTyping(s: TState, full: string, speaker: Speaker, id: int, clock: string)
    requires Solo(s)
    ensures s.intervals == [] ==> Solo(TypeMessage(s, full, speaker))
    ensures |s.intervals| == 1 ==> Solo(IntervalTick(s, 0, id, clock))
  {
    if |s.intervals| == 1 {
      var iv := s.intervals[0];
      var r := IntervalTick(s, 0, id, clock);
      if iv.index >= |iv.full| {
        assert r.intervals == [];
      }
    }
  }

  /**
   * A line that finishes alone joins the conversation exactly once, with its full
   * text and speaker, and the bubble goes away.
   */
  lemma SoloFinish(s: TState, id: int, clock: string)
    requires Solo(s) && |s.intervals| == 1 && s.intervals[0].index == |s.intervals[0].full|
    ensures var r := IntervalTick(s, 0, id, clock);
      && r.simulated == s.simulated + [TranscriptItem(id, s.intervals[0].full, clock, s.intervals[0].speaker)]
      && r.bubble.None? && r.intervals == []
  {
  }

  /**
   * Two lines typing at once: a tick of the earlier line writes its own prefix
   * into the bubble of the later one, so the bubble shows text that is not part of
   * the line it names.
   */
  lemma OverlapGarblesBubble(s: TState, full: string, speaker: Speaker, id: int, clock: string)
    requires |s.intervals| == 1
    requires s.intervals[0].index < |s.intervals[0].full|
    requires var first := s.intervals[0]; !(first.full[..first.index + 1] <= full)
    ensures var r := IntervalTick(TypeMessage(s, full, speaker), 0, id, clock);
      && r.bubble.Some?
      && r.bubble.value.speaker == speaker && r.bubble.value.fullText == full
      && !(r.bubble.value.text <= r.bubble.value.fullText)
  {
  }

  /** When the earlier line then finishes, the later line keeps typing with no bubble at all. */
  lemma OverlapHidesLaterLine(s: TState, full: string, speaker: Speaker, id: int, clock: string)
    requires |s.intervals| == 2 && s.intervals[0].index >= |s.intervals[0].full|
    requires s.intervals[1].index < |s.intervals[1].full|
    ensures var r := IntervalTick(s, 0, id, clock);
      r.bubble.None? && r.intervals == [s.intervals[1]]
      && r.bubble == IntervalTick(r, 0, id, clock).bubble
  {
  }

  /** Milliseconds from a line's timeout to the tick that completes it: one tick per character and one more. */
  function TypingSpan(text: string): nat {
    (|text| + 1) * TypingTickMs
  }

  /** When line `k`'s interval, started at `starts[k]`, completes. */
  function FinishTime(lines: seq<DialogueLine>, starts: seq<nat>, k: nat): nat
    requires |starts| == |lines| && k < |lines|
  {
    starts[k] + TypingSpan(lines[k].text)
  }

  /** No line starts before the previous one has completed. */
  predicate NoOverlap(lines: seq<DialogueLine>, starts: seq<nat>)
    requires |starts| == |lines|
  {
    forall k :: 0 <= k < |lines| - 1 ==> FinishTime(lines, starts, k) <= starts[k + 1]
  }

  /**
   * As scheduled, the third line (58 characters, typed from 6000 ms to 8950 ms) is
   * still typing when the fourth starts at 8500 ms; the first two lines complete in
   * time.
   */
  lemma ScriptOverlaps()
    ensures var starts := StartTimes(Dialogue, 0);
      && FinishTime(Dialogue, starts, 0) == 1950 && FinishTime(Dialogue, starts, 1) == 3500
      && FinishTime(Dialogue, starts, 2) == 8950 && starts[3] == 8500
      && !NoOverlap(Dialogue, starts)
  {
    DialogueStartTimes();
    assert |Dialogue[0].text| == 18 && |Dialogue[1].text| == 9 && |Dialogue[2].text| == 58;
  }

  /**
   * The schedule with each line waiting for the previous one: a line starts at its
   * scheduled time or, if the previous line is still typing then, when it completes.
   * `busy` is when the previous line completes.
   */
  function SequentialStarts(lines: seq<DialogueLine>, t0: nat, busy: nat): (r: seq<nat>)
    ensures |r| == |lines|
    ensures |lines| > 0 ==> r[0] >= busy && r[0] >= t0 + lines[0].delay
    decreases |lines|
  {
    if lines == [] then []
    else
      var nominal := t0 + lines[0].delay;
      var start := if nominal < busy then busy else nominal;
      [start] + SequentialStarts(lines[1..], nominal, start + TypingSpan(lines[0].text))
  }

  /** In the sequential schedule no two lines ever type at once. */
  lemma {:induction false} SequentialNoOverlap(lines: seq<DialogueLine>, t0: nat, busy: nat)
    ensures NoOverlap(lines, SequentialStarts(lines, t0, busy))
    decreases |lines|
  {
    if |lines| > 1 {
      var nominal := t0 + lines[0].delay;
      var start := if nominal < busy then busy else nominal;
      var r := SequentialStarts(lines, t0, busy);
      var rest := SequentialStarts(lines[1..], nominal, start + TypingSpan(lines[0].text));
      assert r == [start] + rest;
      SequentialNoOverlap(lines[1..], nominal, start + TypingSpan(lines[0].text));
      forall k | 0 <= k < |lines| - 1
        ensures FinishTime(lines, r, k) <= r[k + 1]
      {
        if k > 0 {
          assert FinishTime(lines, r, k) == FinishTime(lines[1..], rest, k - 1);
        }
      }
    }
  }

  /** Where the script's own timing already leaves room, the sequential schedule keeps it. */
  lemma {:induction false} SequentialKeepsTiming(lines: seq<DialogueLine>, t0: nat, busy: nat)
    requires NoOverlap(lines, StartTimes(lines, t0))
    requires |lines| > 0 ==> busy <= t0 + lines[0].delay
    ensures SequentialStarts(lines, t0, busy) == StartTimes(lines, t0)
    decreases |lines|
  {
    if lines != [] {
      var nominal := t0 + lines[0].delay;
      var starts := StartTimes(lines, t0);
      var rest := StartTimes(lines[1..], nominal);
      assert starts == [nominal] + rest;
      if |lines| > 1 {
        assert FinishTime(lines, starts, 0) <= starts[1];
        forall k | 0 <= k < |lines[1..]| - 1
          ensures FinishTime(lines[1..], rest, k) <= rest[k + 1]
        {
          assert FinishTime(lines, starts, k + 1) <= starts[k + 2];
        }
      }
      SequentialKeepsTiming(lines[1..], nominal, nominal + TypingSpan(lines[0].text));
    }
  }

  /** The script under the sequential schedule: only the last line moves, to 8950 ms. */
  lemma SequentialScript()
    ensures SequentialStarts(Dialogue, 0, 0) == [1000, 3000, 6000, 8950]
    ensures NoOverlap(Dialogue, SequentialStarts(Dialogue, 0, 0))
  {
    assert |Dialogue[0].text| == 18 && |Dialogue[1].text| == 9 && |Dialogue[2].text| == 58;
    SequentialNoOverlap(Dialogue, 0, 0);
  }

  /** ---------------------------------------------------------------- broadcasts */

  /** A broadcast from the SDK: its id, its type, and the transcript item its JSON body parses to. */
  datatype Broadcast = Broadcast(id: string, msgType: string, item: TranscriptItem)

  /** A transcript broadcast whose id has not been taken yet. */
  function IsNew(processed: set<string>): Broadcast -> bool {
    (b: Broadcast) => b.msgType == "transcript" && b.id !in processed
  }

  function Items(bs: seq<Broadcast>): (r: seq<TranscriptItem>)
    ensures |r| == |bs|
    ensures forall i :: 0 <= i < |bs| ==> r[i] == bs[i].item
  {
    seq(|bs|, i requires 0 <= i < |bs| => bs[i].item)
  }

  function BroadcastId(b: Broadcast): string {
    b.id
  }

  function Ids(bs: seq<Broadcast>): set<string> {
    Seqs.KeySet(bs, BroadcastId)
  }

  /** The history of taken broadcasts and the ids taken so far. */
  datatype Received = Received(history: seq<TranscriptItem>, processed: set<string>)

  /**
   * The broadcast effect: the creator appends the items of the transcript
   * broadcasts with ids not taken yet, in list order, and marks those ids taken;
   * for anyone else nothing changes.
   */
  function ProcessBroadcasts(s: Received, msgs: seq<Broadcast>, isRoomCreator: bool): (r: Received)
    ensures !isRoomCreator ==> r == s
    ensures isRoomCreator ==>
      var taken := Seqs.Filter(msgs, IsNew(s.processed));
      && r.history == s.history + Items(taken)
      && r.processed == s.processed + Ids(taken)
  {
    if !isRoomCreator then s
    else
      var taken := Seqs.Filter(msgs, IsNew(s.processed));
      if |taken| > 0 then Received(s.history + Items(taken), s.processed + Ids(taken))
      else
        assert Ids(taken) == {};
        s
  }

  /** After processing, every transcript broadcast of the list has its id taken. */
  lemma ProcessedCoversList(s: Received, msgs: seq<Broadcast>)
    ensures var r := ProcessBroadcasts(s, msgs, true);
      forall i :: 0 <= i < |msgs| && msgs[i].msgType == "transcript" ==> msgs[i].id in r.processed
  {
    var taken := Seqs.Filter(msgs, IsNew(s.processed));
    forall i | 0 <= i < |msgs| && msgs[i].msgType == "transcript" && msgs[i].id !in s.processed
      ensures msgs[i].id in Ids(taken)
    {
      assert msgs[i] in taken;
    }
  }

  /** Running the effect again on the same list adds nothing. */
  lemma ProcessIdempotent(s: Received, msgs: seq<Broadcast>)
    ensures ProcessBroadcasts(ProcessBroadcasts(s, msgs, true), msgs, true) == ProcessBroadcasts(s, msgs, true)
  {
    var r := ProcessBroadcasts(s, msgs, true);
    ProcessedCoversList(s, msgs);
    Seqs.FilterNone(msgs, IsNew(r.processed));
  }

  /**
   * As the SDK's list grows from `a` to `a + b`, the second run appends exactly the
   * new transcript broadcasts of `b`: nothing from `a` is taken twice.
   */
  lemma ProcessIncremental(s: Received, a: seq<Broadcast>, b: seq<Broadcast>)
    ensures var r := ProcessBroadcasts(s, a, true);
      ProcessBroadcasts(r, a + b, true).history == r.history + Items(Seqs.Filter(b, IsNew(r.processed)))
  {
    var r := ProcessBroadcasts(s, a, true);
    var p := IsNew(r.processed);
    ProcessedCoversList(s, a);
    assert forall i :: 0 <= i < |a| ==> !p(a[i]);
    Seqs.FilterNone(a, p);
    Seqs.FilterAppend(a, b, p);
    assert Seqs.Filter(a + b, p) == Seqs.Filter(b, p);
  }

  /** ---------------------------------------------------------------- display order */

  function NegatedId(t: TranscriptItem): int {
    -t.id
  }

  /** `transcriptHistory.sort((a, b) => a.id - b.id)`: ascending ids, equal ids in arrival order. */
  function DisplayedHistory(history: seq<TranscriptItem>): (r: seq<TranscriptItem>)
    ensures forall i, j :: 0 <= i < j < |r| ==> r[i].id <= r[j].id
    ensures multiset(r) == multiset(history)
    ensures forall k :: Seqs.Ties(r, NegatedId, k) == Seqs.Ties(history, NegatedId, k)
  {
    Seqs.SortDescStableAll(history, NegatedId);
    var r := Seqs.SortDesc(history, NegatedId);
    assert forall i, j :: 0 <= i < j < |r| ==> NegatedId(r[i]) >= NegatedId(r[j]);
    r
  }

  /** A history that arrived in id order is shown as it arrived. */
  lemma OrderedHistoryShownAsIs(history: seq<TranscriptItem>)
    requires forall i, j :: 0 <= i < j < |history| ==> history[i].id <= history[j].id
    ensures DisplayedHistory(history) == history
  {
    Seqs.SortDescOfSorted(history, NegatedId);
  }

  /** ---------------------------------------------------------------- sending */

  /**
   * The transcript effect with `sendTranscript`'s guard: a recognised transcript is
   * sent as the query exactly when it is not blank.
   */
  function TranscriptQuery(transcript: string): (query: Option<string>)
    ensures query.Some? <==> !IsBlank(transcript)
    ensures query.Some? ==> query.value == transcript
  {
    if transcript == "" || Trim(transcript) == "" then None else Some(transcript)
  }
}
