/**
 * The live-meeting screen: a seconds counter shown as mm:ss, the meeting-type
 * label, the confidence badge of each suggestion, and the mute, camera and
 * tracking switches. The one-second interval is a tick event.
 */
module LiveMeeting {
  import opened Wrappers
  import opened Text

  datatype LMState = LMState(
    meetingDuration: nat,
    isMuted: bool,
    isVideoOn: bool,
    showTracking: bool)

  /** On mount: zero seconds, microphone on, camera on, tracking panel shown. */
  function Initial(): (r: LMState)
    ensures r.meetingDuration == 0 && !r.isMuted && r.isVideoOn && r.showTracking
  {
    LMState(0, false, true, true)
  }

  /** One tick of the one-second interval: the counter goes up by one and nothing else changes. */
  function Tick(s: LMState): (r: LMState)
    ensures r.meetingDuration == s.meetingDuration + 1
    ensures r.(meetingDuration := s.meetingDuration) == s
  {
    s.(meetingDuration := s.meetingDuration + 1)
  }

  function TickN(s: LMState, n: nat): LMState
    decreases n
  {
    if n == 0 then s else TickN(Tick(s), n - 1)
  }

  /** After `n` ticks the counter has grown by exactly `n`, and the switches are as they were. */
  lemma {:induction false} TickNCounts(s: LMState, n: nat)
    ensures TickN(s, n).meetingDuration == s.meetingDuration + n
    ensures TickN(s, n).(meetingDuration := s.meetingDuration) == s
    decreases n
  {
    if n > 0 {
      TickNCounts(Tick(s), n - 1);
    }
  }

  /** ---------------------------------------------------------------- mm:ss */

  /** A number as at least two decimal digits, reading back as the number. */
  function Pad2(n: nat): (r: string)
    ensures AllDigits(r) && |r| >= 2
    ensures ParseDigits(r) == n
    ensures |r| == 2 <==> n < 100
  {
    ParseNatToString(n);
    NatToStringAtMostTwo(n);
    if n < 10 then
      assert ParseDigits(['0']) == 0;
      ['0', DigitChar(n)]
    else NatToString(n)
  }

  /** `Pad2` is `n.toString().padStart(2, '0')`. */
  lemma Pad2IsPadStart(n: nat)
    ensures Pad2(n) == PadStart(NatToString(n), 2, '0')
  {
    NatToStringAtMostTwo(n);
    if n < 10 {
      assert NatToString(n) == [DigitChar(n)];
    }
  }

  /** Two padded fields around a colon. */
  function Clock(minutes: nat, secs: nat): (r: string)
    requires secs < 100
    ensures |r| >= 5 && r[|r| - 3] == ':'
    ensures r[..|r| - 3] == Pad2(minutes) && r[|r| - 2..] == Pad2(secs)
  {
    var mm := Pad2(minutes);
    var ss := Pad2(secs);
    assert |ss| == 2;
    var r := mm + ":" + ss;
    assert r[..|r| - 3] == mm && r[|r| - 2..] == ss;
    r
  }

  /**
   * `Math.floor(seconds / 60)` and `seconds % 60`, by counting whole minutes off;
   * the two numbers are the only ones with `m * 60 + s == seconds` and `s < 60`.
   */
  function MinutesAndSeconds(seconds: nat): (p: (nat, nat))
    ensures p.0 * 60 + p.1 == seconds && p.1 < 60
    decreases seconds
  {
    if seconds < 60 then (0, seconds)
    else
      var q := MinutesAndSeconds(seconds - 60);
      (q.0 + 1, q.1)
  }

  /** Counting minutes off gives exactly JavaScript's floor division and remainder. */
  lemma {:induction false} MinutesAndSecondsIsDivMod(seconds: nat)
    ensures MinutesAndSeconds(seconds) == (seconds / 60, seconds % 60)
    decreases seconds
  {
    if seconds >= 60 {
      MinutesAndSecondsIsDivMod(seconds - 60);
    }
  }

  /** `formatDuration`: whole minutes, a colon, then the seconds within the minute, each at least two digits. */
  function FormatDuration(seconds: nat): (r: string)
    ensures |r| >= 5 && r[|r| - 3] == ':'
    ensures AllDigits(r[..|r| - 3]) && AllDigits(r[|r| - 2..])
  {
    var p := MinutesAndSeconds(seconds);
    Clock(p.0, p.1)
  }

  /** The text is exactly "mm:ss", five characters, below 100 minutes; longer minute counts widen it. */
  lemma FormatDurationWidth(seconds: nat)
    ensures |FormatDuration(seconds)| == 5 <==> seconds < 6000
  {
    var p := MinutesAndSeconds(seconds);
    var r := Clock(p.0, p.1);
    assert |r| == |Pad2(p.0)| + 3;
    assert |Pad2(p.0)| == 2 <==> p.0 < 100;
  }

  /** Reads "m…m:ss" back as a number of seconds; None for anything else. */
  function ParseDuration(text: string): (r: Option<nat>)
    ensures r.Some? <==> |text| >= 4 && text[|text| - 3] == ':' && AllDigits(text[..|text| - 3]) && AllDigits(text[|text| - 2..])
  {
    if |text| >= 4 && text[|text| - 3] == ':' && AllDigits(text[..|text| - 3]) && AllDigits(text[|text| - 2..])
    then Some(ParseDigits(text[..|text| - 3]) * 60 + ParseDigits(text[|text| - 2..]))
    else None
  }

  /** The counter text reads back as the count it shows, and its seconds field is below 60. */
  lemma FormatDurationRoundTrip(seconds: nat)
    ensures ParseDuration(FormatDuration(seconds)) == Some(seconds)
    ensures var r := FormatDuration(seconds); ParseDigits(r[|r| - 2..]) < 60
  {
    var p := MinutesAndSeconds(seconds);
    var r := FormatDuration(seconds);
    assert r == Clock(p.0, p.1);
    assert ParseDigits(r[..|r| - 3]) == p.0;
    assert ParseDigits(r[|r| - 2..]) == p.1;
  }

  /** A minute and a second in: "01:01". */
  lemma FormatDurationExample()
    ensures FormatDuration(61) == "01:01"
  {
    assert MinutesAndSeconds(61) == (1, 1);
  }

  /** ---------------------------------------------------------------- type label */

  /** Index of the first `c` in `s`, `|s|` when there is none. */
  function FirstIndexOf(s: string, c: char): (i: nat)
    ensures i <= |s|
    ensures i < |s| ==> s[i] == c
    ensures forall j :: 0 <= j < i ==> s[j] != c
  {
    if s == [] then 0
    else if s[0] == c then 0
    else 1 + FirstIndexOf(s[1..], c)
  }

  /** `s.replace('_', ' ')`: the first '_' becomes a space; the rest of the text is unchanged. */
  function ReplaceFirstUnderscore(s: string): (r: string)
    ensures |r| == |s|
    ensures '_' !in s ==> r == s
    ensures '_' in s ==> var i := FirstIndexOf(s, '_');
      r[i] == ' ' && forall j :: 0 <= j < |s| && j != i ==> r[j] == s[j]
  {
    var i := FirstIndexOf(s, '_');
    if i == |s| then s else s[..i] + " " + s[i + 1..]
  }

  function Underscores(s: string): nat {
    if s == [] then 0 else (if s[0] == '_' then 1 else 0) + Underscores(s[1..])
  }

  /** Exactly one underscore goes when there is any: later ones stay. */
  lemma {:induction false} ReplaceRemovesOneUnderscore(s: string)
    ensures Underscores(ReplaceFirstUnderscore(s)) == Underscores(s) - (if '_' in s then 1 else 0)
    decreases |s|
  {
    if s != [] && s[0] != '_' {
      ReplaceRemovesOneUnderscore(s[1..]);
      var r := ReplaceFirstUnderscore(s);
      if '_' in s[1..] {
        assert r == [s[0]] + ReplaceFirstUnderscore(s[1..]);
      } else {
        assert '_' !in s;
      }
      assert r[1..] == ReplaceFirstUnderscore(s[1..]);
    } else if s != [] {
      var r := ReplaceFirstUnderscore(s);
      assert r == " " + s[1..];
      assert r[1..] == s[1..];
    }
  }

  /** The heading: the type with its first '_' as a space, then " Session". */
  function TypeLabel(meetingType: string): (heading: string)
    ensures |heading| == |meetingType| + 8 && EndsWith(heading, " Session")
    ensures heading[..|meetingType|] == ReplaceFirstUnderscore(meetingType)
  {
    ReplaceFirstUnderscore(meetingType) + " Session"
  }

  /** ---------------------------------------------------------------- confidence badge */

  datatype Confidence = High | Medium | Low

  function Rank(c: Confidence): nat {
    match c
    case Low => 0
    case Medium => 1
    case High => 2
  }

  /** The badge colour: above 90 high, above 70 medium, otherwise low. */
  function ConfidenceBucket(confidence: int): (c: Confidence)
    ensures c == High <==> confidence > 90
    ensures c == Medium <==> 70 < confidence <= 90
    ensures c == Low <==> confidence <= 70
  {
    if confidence > 90 then High else if confidence > 70 then Medium else Low
  }

  /** A higher confidence never gets a lower badge. */
  lemma ConfidenceMonotone(a: int, b: int)
    requires a <= b
    ensures Rank(ConfidenceBucket(a)) <= Rank(ConfidenceBucket(b))
  {
  }

  /** The thresholds are strict: 90 is medium and 70 is low. */
  lemma ConfidenceBoundaries()
    ensures ConfidenceBucket(91) == High && ConfidenceBucket(90) == Medium
    ensures ConfidenceBucket(71) == Medium && ConfidenceBucket(70) == Low
  {
  }

  /** ---------------------------------------------------------------- switches */

  function ToggleMute(s: LMState): (r: LMState)
    ensures r.isMuted == !s.isMuted && r.(isMuted := s.isMuted) == s
  {
    s.(isMuted := !s.isMuted)
  }

  function ToggleVideo(s: LMState): (r: LMState)
    ensures r.isVideoOn == !s.isVideoOn && r.(isVideoOn := s.isVideoOn) == s
  {
    s.(isVideoOn := !s.isVideoOn)
  }

  function ToggleTracking(s: LMState): (r: LMState)
    ensures r.showTracking == !s.showTracking && r.(showTracking := s.showTracking) == s
  {
    s.(showTracking := !s.showTracking)
  }

  /** Each switch flipped twice restores the screen, and switches never touch the counter. */
  lemma SwitchesAreInvolutions(s: LMState)
    ensures ToggleMute(ToggleMute(s)) == s
    ensures ToggleVideo(ToggleVideo(s)) == s
    ensures ToggleTracking(ToggleTracking(s)) == s
    ensures Tick(ToggleMute(s)) == ToggleMute(Tick(s))
  {
  }
}
