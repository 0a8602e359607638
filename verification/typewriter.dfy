/**
 * The "typing" animation shared by the chat panel and the transcript panel: a
 * repeating interval that, on each tick, shows one more character of a fixed
 * text and, on the tick after the whole text is shown, stops and hands the
 * text over to the message history.
 */
module Typewriter {

  /** The interval's closure: the full text and its `currentIndex` counter, with the text on screen. */
  datatype Progress = Progress(full: string, shown: string, index: nat)

  /** The counter never passes the end and the screen shows exactly the first `index` characters. */
  predicate Valid(r: Progress) {
    r.index <= |r.full| && r.shown == r.full[..r.index]
  }

  /** What one tick of the interval does. */
  datatype Step = Typing(next: Progress) | Finished(text: string)

  /** A typing run as it is created: nothing shown yet. */
  function Start(full: string): (r: Progress)
    ensures Valid(r) && r.full == full && r.shown == ""
  {
    Progress(full, "", 0)
  }

  /**
   * One tick: while characters remain, show the prefix one longer; otherwise stop
   * the interval and deliver the full text.
   */
  function Tick(r: Progress): (s: Step)
    requires Valid(r)
    ensures r.index < |r.full| ==> s.Typing? && Valid(s.next) && s.next.full == r.full
                                   && s.next.index == r.index + 1
    ensures r.index == |r.full| ==> s == Finished(r.full)
  {
    if r.index < |r.full| then
      Typing(r.(shown := r.full[..r.index + 1], index := r.index + 1))
    else
      Finished(r.full)
  }

  /** `n` ticks in a row, stopping early if the typing finishes. */
  function TickN(r: Progress, n: nat): Step
    requires Valid(r)
    decreases n
  {
    if n == 0 then Typing(r)
    else match Tick(r)
      case Typing(next) => TickN(next, n - 1)
      case Finished(t) => Finished(t)
  }

  /**
   * From the start, after `k` ticks with `k` at most the text's length, the screen
   * shows exactly the first `k` characters; the very next tick past the end
   * delivers the full text.
   */
  lemma {:induction false} TickNFromStart(full: string, k: nat)
    requires k <= |full| + 1
    ensures k <= |full| ==> TickN(Start(full), k) == Typing(Progress(full, full[..k], k))
    ensures k == |full| + 1 ==> TickN(Start(full), k) == Finished(full)
  {
    TickNFrom(Start(full), k);
  }

  lemma {:induction false} TickNFrom(r: Progress, k: nat)
    requires Valid(r) && r.index + k <= |r.full| + 1
    ensures r.index + k <= |r.full| ==>
      TickN(r, k) == Typing(Progress(r.full, r.full[..r.index + k], r.index + k))
    ensures r.index + k == |r.full| + 1 ==> TickN(r, k) == Finished(r.full)
    decreases k
  {
    if k > 0 {
      match Tick(r)
      case Typing(next) =>
        TickNFrom(next, k - 1);
      case Finished(t) =>
    }
  }

  /** Successive screens only grow: each shown text is a prefix of the next one and of the full text. */
  lemma PrefixGrowth(r: Progress)
    requires Valid(r) && r.index < |r.full|
    ensures r.shown <= Tick(r).next.shown <= r.full
    ensures |Tick(r).next.shown| == |r.shown| + 1
  {
  }
}
