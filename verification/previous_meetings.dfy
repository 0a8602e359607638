/**
 * The meeting history: a list of past meetings, searched by a
 * case-insensitive term and filtered by type, sorted by date, duration or
 * rating (largest first), with star ratings, topic chips and summary tiles.
 */
module PreviousMeetings {
  import opened Wrappers
  import opened Text
  import Seqs

  /**
   * A past meeting. `date` is the text shown; `dateMillis` is what
   * `new Date(date).getTime()` gives for it, an input of the model.
   */
  datatype Meeting = Meeting(
    id: string,
    title: string,
    meetingType: string,
    date: string,
    dateMillis: int,
    duration: string,
    participants: seq<string>,
    summary: string,
    keyTopics: seq<string>,
    documentsUsed: seq<string>,
    rating: int,
    aiInsights: int)

  /** Some key topic of `m` contains the lower-cased term once lower-cased itself. */
  predicate TopicMatches(m: Meeting, term: string) {
    exists k :: 0 <= k < |m.keyTopics| && Contains(LowerStr(m.keyTopics[k]), LowerStr(term))
  }

  /** `matchesSearch`: the lower-cased term occurs in the title, the summary or some key topic. */
  predicate MatchesSearch(m: Meeting, term: string) {
    || Contains(LowerStr(m.title), LowerStr(term))
    || Contains(LowerStr(m.summary), LowerStr(term))
    || TopicMatches(m, term)
  }

  /** `matchesFilter`: the filter is "all" or the meeting's type. */
  predicate MatchesFilter(m: Meeting, filterType: string) {
    filterType == "all" || m.meetingType == filterType
  }

  predicate Matches(m: Meeting, term: string, filterType: string) {
    MatchesSearch(m, term) && MatchesFilter(m, filterType)
  }

  /** The filter callback. */
  function Keep(term: string, filterType: string): Meeting -> bool {
    (m: Meeting) => Matches(m, term, filterType)
  }

  /**
   * `parseInt(duration)` as a sort key; a duration with no leading integer
   * (`NaN`) counts as 0.
   */
  function DurationKey(m: Meeting): (k: int)
    ensures ParseInt(m.duration).Some? ==> k == ParseInt(m.duration).value
    ensures ParseInt(m.duration).None? ==> k == 0
  {
    match ParseInt(m.duration)
    case Some(v) => v
    case None => 0
  }

  /** The comparator's key: date, duration or rating; any other choice compares everything as equal. */
  function SortKey(sortBy: string): (key: Meeting -> int)
    ensures forall m :: sortBy == "date" ==> key(m) == m.dateMillis
    ensures forall m :: sortBy == "duration" ==> key(m) == DurationKey(m)
    ensures forall m :: sortBy == "rating" ==> key(m) == m.rating
    ensures forall m :: sortBy !in {"date", "duration", "rating"} ==> key(m) == 0
  {
    (m: Meeting) => if sortBy == "date" then m.dateMillis
         else if sortBy == "duration" then DurationKey(m)
         else if sortBy == "rating" then m.rating
         else 0
  }

  /**
   * `filteredMeetings`: the matching meetings, largest key first, equal keys in
   * list order; the result holds each matching meeting as often as the list does.
   */
  function Filtered(ms: seq<Meeting>, term: string, filterType: string, sortBy: string): (r: seq<Meeting>)
    ensures Seqs.SortedDesc(r, SortKey(sortBy))
    ensures multiset(r) == multiset(Seqs.Filter(ms, Keep(term, filterType)))
    ensures forall k :: Seqs.Ties(r, SortKey(sortBy), k) == Seqs.Ties(Seqs.Filter(ms, Keep(term, filterType)), SortKey(sortBy), k)
  {
    Seqs.SortDescStableAll(Seqs.Filter(ms, Keep(term, filterType)), SortKey(sortBy));
    Seqs.SortDesc(Seqs.Filter(ms, Keep(term, filterType)), SortKey(sortBy))
  }

  /** A meeting is listed exactly when it matches both the search and the type filter. */
  lemma FilteredListsExactlyMatches(ms: seq<Meeting>, term: string, filterType: string, sortBy: string)
    ensures forall i :: 0 <= i < |ms| ==>
      (ms[i] in Filtered(ms, term, filterType, sortBy) <==> Matches(ms[i], term, filterType))
    ensures forall m :: m in Filtered(ms, term, filterType, sortBy) ==> m in ms && Matches(m, term, filterType)
  {
    var keep := Keep(term, filterType);
    var kept := Seqs.Filter(ms, keep);
    var r := Filtered(ms, term, filterType, sortBy);
    Seqs.SameMembers(r, kept);
    forall i | 0 <= i < |ms|
      ensures ms[i] in r <==> Matches(ms[i], term, filterType)
    {
      assert ms[i] in kept <==> keep(ms[i]);
    }
    forall m | m in r
      ensures m in ms && Matches(m, term, filterType)
    {
      var j :| 0 <= j < |kept| && kept[j] == m;
      assert kept[j] in ms && keep(kept[j]);
    }
  }

  /** The result is a reordering of an order-preserving selection of the list: nothing is duplicated or invented. */
  lemma FilteredIsPermutedSubsequence(ms: seq<Meeting>, term: string, filterType: string, sortBy: string)
    ensures var kept := Seqs.Filter(ms, Keep(term, filterType));
      Seqs.IsSubsequence(kept, ms) && multiset(Filtered(ms, term, filterType, sortBy)) == multiset(kept)
  {
    Seqs.FilterIsSubsequence(ms, Keep(term, filterType));
  }

  /** Every meeting matches the empty term, since "" occurs in every string. */
  lemma EmptyTermMatches(m: Meeting)
    ensures MatchesSearch(m, "")
  {
    assert LowerStr("") == "";
    ContainsEmpty(LowerStr(m.title));
  }

  /** With an empty term and the "all" filter, every meeting is listed, each as often as in the list. */
  lemma EmptySearchKeepsAll(ms: seq<Meeting>, sortBy: string)
    ensures multiset(Filtered(ms, "", "all", sortBy)) == multiset(ms)
    ensures |Filtered(ms, "", "all", sortBy)| == |ms|
  {
    forall i | 0 <= i < |ms|
      ensures Keep("", "all")(ms[i])
    {
      EmptyTermMatches(ms[i]);
    }
    assert Seqs.Filter(ms, Keep("", "all")) == ms;
    assert |Filtered(ms, "", "all", sortBy)| == |multiset(ms)|;
  }

  /** An unknown sort choice keeps the filtered meetings in list order. */
  lemma UnknownSortKeepsOrder(ms: seq<Meeting>, term: string, filterType: string, sortBy: string)
    requires sortBy !in {"date", "duration", "rating"}
    ensures Filtered(ms, term, filterType, sortBy) == Seqs.Filter(ms, Keep(term, filterType))
  {
    Seqs.SortDescAllTies(Seqs.Filter(ms, Keep(term, filterType)), SortKey(sortBy));
  }

  /**
   * `renderStars`: five stars, star `i` filled exactly when `i < rating`. The
   * rating is a JavaScript number, so it may have a fractional part.
   */
  function RenderStars(rating: real): (stars: seq<bool>)
    ensures |stars| == 5
    ensures forall i :: 0 <= i < 5 ==> (stars[i] <==> i as real < rating)
  {
    seq(5, i => i as real < rating)
  }

  /** A star that is drawn filled. */
  predicate IsFilled(star: bool) {
    star
  }

  /** The least integer not below `x`. */
  function Ceiling(x: real): (c: int)
    ensures x <= c as real < x + 1.0
  {
    -((-x).Floor)
  }

  /** The number of filled stars is the rating rounded up, then clamped to 0..5: 4.5 fills five stars. */
  lemma FilledStars(rating: real)
    ensures Seqs.Count(RenderStars(rating), IsFilled) ==
      var c := Ceiling(rating); if c < 0 then 0 else if c > 5 then 5 else c
  {
    var c := Ceiling(rating);
    var filled := if c < 0 then 0 else if c > 5 then 5 else c;
    Seqs.CountSplit(RenderStars(rating), filled, IsFilled);
  }

  /** A half-star rating fills the star it starts. */
  lemma HalfRatingExample()
    ensures Seqs.Count(RenderStars(4.5), IsFilled) == 5
  {
    FilledStars(4.5);
    assert Ceiling(4.5) == 5;
  }

  /** The chips under a meeting: the topics shown, and the hidden count of the "+k more" label when there is one. */
  datatype Chips = Chips(shown: seq<string>, more: Option<nat>)

  /** At most the first three topics, and a "+k more" label with the rest's count when there are more than three. */
  function TopicChips(topics: seq<string>): (c: Chips)
    ensures |c.shown| == if |topics| < 3 then |topics| else 3
    ensures c.shown == topics[..|c.shown|]
    ensures c.more.Some? <==> |topics| > 3
    ensures c.more.Some? ==> c.more.value == |topics| - 3
  {
    var shown := if |topics| < 3 then topics else topics[..3];
    Chips(shown, if |topics| > 3 then Some(|topics| - 3) else None)
  }

  /** Every topic is accounted for: shown as a chip or counted in the label. */
  lemma ChipsAccountForAllTopics(topics: seq<string>)
    ensures |TopicChips(topics).shown| + TopicChips(topics).more.GetOr(0) == |topics|
  {
  }

  /**
   * The "Total Duration" tile: the sum of `parseInt(duration)` over all meetings;
   * one duration without a leading integer makes the sum `NaN` (`None`).
   */
  function TotalDuration(ms: seq<Meeting>): (r: Option<int>)
    ensures r.Some? <==> forall i :: 0 <= i < |ms| ==> ParseInt(ms[i].duration).Some?
    ensures r.Some? ==> r.value == Seqs.SumBy(ms, DurationKey)
  {
    if ms == [] then Some(0)
    else
      var rest := TotalDuration(ms[1..]);
      match ParseInt(ms[0].duration)
      case None => None
      case Some(d) => if rest.Some? then Some(d + rest.value) else None
  }

  function Insights(m: Meeting): int {
    m.aiInsights
  }

  /** The "AI Insights" tile: the sum of `aiInsights` over all meetings. */
  function TotalInsights(ms: seq<Meeting>): int {
    Seqs.SumBy(ms, Insights)
  }

  /**
   * The tiles count every meeting, not just the listed ones: with non-negative
   * insight counts, the listed meetings' insights never exceed the tile.
   */
  lemma InsightsTileCoversListed(ms: seq<Meeting>, term: string, filterType: string, sortBy: string)
    requires forall i :: 0 <= i < |ms| ==> ms[i].aiInsights >= 0
    ensures 0 <= Seqs.SumBy(Filtered(ms, term, filterType, sortBy), Insights) <= TotalInsights(ms)
  {
    var f := Insights;
    var kept := Seqs.Filter(ms, Keep(term, filterType));
    Seqs.SumByFilterBounded(ms, Keep(term, filterType), f);
    Seqs.SumByPermutation(Filtered(ms, term, filterType, sortBy), kept, f);
  }

  /** `parseInt` reads a built-in duration "<n> min" as `n`. */
  lemma ParseMinutes(n: nat, text: string)
    requires text == NatToString(n) + " min"
    ensures ParseInt(text) == Some(n)
  {
    ParseIntOfDecimal(n, " min");
  }

  /** The durations of the built-in list read as their minutes: "45 min" gives 45. */
  lemma DurationExample()
    ensures ParseInt("45 min") == Some(45)
  {
    assert NatToString(4) == ['4'] && DigitChar(5) == '5';
    ParseMinutes(45, "45 min");
  }
}
