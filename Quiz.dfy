/**
 * The quiz screen: which cards a session asks, the state machine that a
 * quality rating advances (index, completion, answer visibility, running
 * statistics, recorded results), and the summaries of a finished session.
 *
 * `calculateSM2`, `getDueVocabulary`, `sortByPriority`, the random shuffle
 * and the `QUALITY_COLORS` table are not part of this model: they are
 * parameters. `calculateSM2(card, quality)` is `calculate(card, quality)`,
 * where None stands for a call that throws.
 */
module Quiz {
  import opened Wrappers
  import opened Seqs
  import opened Vocabulary
  import opened VocabularyManager
  import opened QuizSelection

  // ---------------------------------------------------------------------
  // Choosing the session's cards
  // ---------------------------------------------------------------------

  /** `'due' | 'new' | 'review' | 'random'`. */
  datatype QuizMode = DueMode | NewMode | ReviewMode | RandomMode

  /** The cards a mode draws from, before ordering and truncation. */
  function ModePool(mode: QuizMode, vocabulary: seq<Card>, dueOf: seq<Card> -> seq<Card>): seq<Card> {
    match mode
    case DueMode => dueOf(vocabulary)
    case NewMode => NewVocab(vocabulary)
    case ReviewMode => ReviewVocab(vocabulary)
    case RandomMode => vocabulary
  }

  /**
   * `quizVocabulary`: a non-empty repeat list as it is; otherwise the mode's
   * pool, sorted by priority (shuffled in random mode), cut to `wordsPerQuiz`.
   * An absent repeat list is the empty one here: both take the second branch.
   */
  function QuizVocabulary(mode: QuizMode, vocabulary: seq<Card>, repeat: seq<Card>, wordsPerQuiz: int,
                          dueOf: seq<Card> -> seq<Card>, sortOf: seq<Card> -> seq<Card>,
                          shuffle: seq<Card> -> seq<Card>): (deck: seq<Card>)
    ensures |repeat| > 0 ==> deck == repeat
    ensures |repeat| == 0 && wordsPerQuiz >= 0 ==> |deck| <= wordsPerQuiz
  {
    if |repeat| > 0 then repeat
    else
      var pool := ModePool(mode, vocabulary, dueOf);
      Prefix(if mode == RandomMode then shuffle(pool) else sortOf(pool), wordsPerQuiz)
  }

  /** A prefix holds no more of any card than the whole sequence. */
  lemma PrefixSubMultiset(s: seq<Card>, k: nat)
    requires k <= |s|
    ensures multiset(s[..k]) <= multiset(s)
  {
    assert s == s[..k] + s[k..];
  }

  /**
   * A non-repeat session asks at most `wordsPerQuiz` cards, each from the
   * mode's pool; `new` sessions ask only unlearned cards and `review`
   * sessions only learned ones. Ordering is assumed to keep the cards.
   */
  lemma SelectionDrawsFromPool(mode: QuizMode, vocabulary: seq<Card>, repeat: seq<Card>, wordsPerQuiz: int,
                               dueOf: seq<Card> -> seq<Card>, sortOf: seq<Card> -> seq<Card>,
                               shuffle: seq<Card> -> seq<Card>)
    requires Permutes(sortOf) && Permutes(shuffle)
    ensures var deck := QuizVocabulary(mode, vocabulary, repeat, wordsPerQuiz, dueOf, sortOf, shuffle);
            && (|repeat| > 0 ==> deck == repeat)
            && (|repeat| == 0 ==>
                  && multiset(deck) <= multiset(ModePool(mode, vocabulary, dueOf))
                  && |deck| == SliceEnd(|ModePool(mode, vocabulary, dueOf)|, wordsPerQuiz)
                  && (wordsPerQuiz >= 0 ==> |deck| <= wordsPerQuiz)
                  && (mode == NewMode ==> forall i :: 0 <= i < |deck| ==> deck[i].sm2.repetitions == 0)
                  && (mode == ReviewMode ==> forall i :: 0 <= i < |deck| ==> deck[i].sm2.repetitions > 0))
  {
    if |repeat| == 0 {
      var pool := ModePool(mode, vocabulary, dueOf);
      var ordered := if mode == RandomMode then shuffle(pool) else sortOf(pool);
      var deck := QuizVocabulary(mode, vocabulary, repeat, wordsPerQuiz, dueOf, sortOf, shuffle);
      assert multiset(ordered) == multiset(pool);
      PrefixSubMultiset(ordered, SliceEnd(|ordered|, wordsPerQuiz));
      forall i | 0 <= i < |deck| ensures deck[i] in pool {
        assert deck[i] in multiset(deck);
      }
    }
  }

  // ---------------------------------------------------------------------
  // Running statistics and their meaning
  // ---------------------------------------------------------------------

  /** `sessionStats`. */
  datatype SessionStats = SessionStats(correct: nat, total: nat, streak: nat, maxStreak: nat)

  const ZeroStats := SessionStats(0, 0, 0, 0)

  /** One entry of `results`: the card asked and the quality it was rated. */
  datatype QuizResult = QuizResult(vocab: Card, quality: int)

  /** A rating of 3 or more counts as a correct answer. */
  predicate IsCorrect(r: QuizResult) {
    r.quality >= 3
  }

  /** A rating below 3 counts as a wrong answer. */
  predicate IsWrong(r: QuizResult) {
    r.quality < 3
  }

  function Max(a: nat, b: nat): nat {
    if a < b then b else a
  }

  /**
   * The `setSessionStats` update for one rating: one more answer, a streak
   * that is positive exactly after a correct one, a best streak that never
   * falls, and the bounds `correct <= total`, `streak <= maxStreak` kept.
   */
  function RecordRating(st: SessionStats, quality: int): (r: SessionStats)
    ensures r.total == st.total + 1
    ensures r.streak > 0 <==> quality >= 3
    ensures r.correct - st.correct == (if quality >= 3 then 1 else 0)
    ensures st.maxStreak <= r.maxStreak && r.streak <= r.maxStreak
    ensures st.correct <= st.total ==> r.correct <= r.total
  {
    var isCorrect := quality >= 3;
    var newStreak := if isCorrect then st.streak + 1 else 0;
    SessionStats(
      st.correct + (if isCorrect then 1 else 0),
      st.total + 1,
      newStreak,
      Max(st.maxStreak, newStreak))
  }

  /** The `k` results starting at `i` are all correct. */
  ghost predicate CorrectRun(rs: seq<QuizResult>, i: nat, k: nat) {
    i + k <= |rs| && forall j :: i <= j < i + k ==> IsCorrect(rs[j])
  }

  /**
   * What the statistics mean for a list of results: the counts of all and
   * of correct results, the length of the run of correct results at the
   * end (it cannot be extended backwards), and the longest such run anywhere.
   */
  ghost predicate StatsDescribe(st: SessionStats, rs: seq<QuizResult>) {
    && st.total == |rs|
    && st.correct == |Filter(rs, IsCorrect)|
    && st.streak <= |rs| && CorrectRun(rs, |rs| - st.streak, st.streak)
    && (st.streak < |rs| ==> !IsCorrect(rs[|rs| - st.streak - 1]))
    && (exists i: nat :: CorrectRun(rs, i, st.maxStreak))
    && (forall i: nat, k: nat :: CorrectRun(rs, i, k) ==> k <= st.maxStreak)
  }

  /** The zero statistics describe the empty result list. */
  lemma ZeroStatsDescribeEmpty()
    ensures StatsDescribe(ZeroStats, [])
  {
    assert CorrectRun([], 0, 0);
  }

  /** The statistics stay bounded: `correct ≤ total` and `streak ≤ maxStreak ≤ total`. */
  lemma StatsBounds(st: SessionStats, rs: seq<QuizResult>)
    requires StatsDescribe(st, rs)
    ensures st.correct <= st.total && st.streak <= st.maxStreak <= st.total
  {
    assert CorrectRun(rs, |rs| - st.streak, st.streak);
  }

  /** Recording one rating keeps the statistics a description of the results with that rating appended. */
  lemma RecordRatingDescribes(st: SessionStats, rs: seq<QuizResult>, r: QuizResult)
    requires StatsDescribe(st, rs)
    ensures StatsDescribe(RecordRating(st, r.quality), rs + [r])
  {
    FilterConcat(rs, [r], IsCorrect);
    RecordRatingTrailingRun(st, rs, r);
    RecordRatingLongestRun(st, rs, r);
    RecordRatingBoundsRuns(st, rs, r);
  }

  /** After a rating, the streak is the length of the trailing run of correct answers. */
  lemma RecordRatingTrailingRun(st: SessionStats, rs: seq<QuizResult>, r: QuizResult)
    requires StatsDescribe(st, rs)
    ensures var rs', st' := rs + [r], RecordRating(st, r.quality);
            && st'.streak <= |rs'| && CorrectRun(rs', |rs'| - st'.streak, st'.streak)
            && (st'.streak < |rs'| ==> !IsCorrect(rs'[|rs'| - st'.streak - 1]))
  {
    var rs' := rs + [r];
    var st' := RecordRating(st, r.quality);
    if IsCorrect(r) {
      assert CorrectRun(rs', |rs'| - st'.streak, st'.streak) by {
        assert CorrectRun(rs, |rs| - st.streak, st.streak);
        forall j | |rs'| - st'.streak <= j < |rs'| ensures IsCorrect(rs'[j]) {
          if j < |rs| {
            assert rs'[j] == rs[j];
          }
        }
      }
      if st'.streak < |rs'| {
        assert rs'[|rs'| - st'.streak - 1] == rs[|rs| - st.streak - 1];
      }
    } else {
      assert CorrectRun(rs', |rs'|, 0);
    }
  }

  /** After a rating, some run of correct answers has the recorded maximum length. */
  lemma RecordRatingLongestRun(st: SessionStats, rs: seq<QuizResult>, r: QuizResult)
    requires StatsDescribe(st, rs)
    ensures exists i: nat :: CorrectRun(rs + [r], i, RecordRating(st, r.quality).maxStreak)
  {
    var rs' := rs + [r];
    var st' := RecordRating(st, r.quality);
    if st'.maxStreak == st.maxStreak {
      var i: nat :| CorrectRun(rs, i, st.maxStreak);
      assert CorrectRun(rs', i, st.maxStreak) by {
        forall j | i <= j < i + st.maxStreak ensures IsCorrect(rs'[j]) {
          assert rs'[j] == rs[j];
        }
      }
    } else {
      RecordRatingTrailingRun(st, rs, r);
      assert CorrectRun(rs', |rs'| - st'.streak, st'.streak);
    }
  }

  /** After a rating, no run of correct answers is longer than the recorded maximum. */
  lemma RecordRatingBoundsRuns(st: SessionStats, rs: seq<QuizResult>, r: QuizResult)
    requires StatsDescribe(st, rs)
    ensures forall i: nat, k: nat :: CorrectRun(rs + [r], i, k) ==> k <= RecordRating(st, r.quality).maxStreak
  {
    var rs' := rs + [r];
    var st' := RecordRating(st, r.quality);
    forall i: nat, k: nat | CorrectRun(rs', i, k) ensures k <= st'.maxStreak {
      if i + k <= |rs| {
        assert CorrectRun(rs, i, k) by {
          forall j | i <= j < i + k ensures IsCorrect(rs[j]) {
            assert rs'[j] == rs[j];
          }
        }
      } else if k > 0 {
        // The run ends with `r`; before it, it is a trailing run of `rs`,
        // which cannot reach past the answer before the streak.
        assert rs'[|rs|] == r && IsCorrect(r);
        if st.streak < |rs| {
          var j := |rs| - st.streak - 1;
          assert !IsCorrect(rs'[j]) by {
            assert rs'[j] == rs[j];
          }
        }
      }
    }
  }

  // ---------------------------------------------------------------------
  // The session state machine
  // ---------------------------------------------------------------------

  /** The state `handleQualityRating` and the reset effect work on. */
  datatype SessionState = SessionState(
    currentIndex: nat,
    isQuizComplete: bool,
    showAnswer: bool,
    stats: SessionStats,
    results: seq<QuizResult>)

  /** The state a session starts in, and the reset effect restores. */
  const InitialState := SessionState(0, false, false, ZeroStats, [])

  /** The SM-2 update a rating sends: the calculated result, with the rating itself as its `quality`. */
  function RatingPatch(sm2Result: Sm2Patch, quality: int): (p: Sm2Patch)
    ensures p.quality == Some(Some(quality))
    ensures p.(quality := sm2Result.quality) == sm2Result
  {
    sm2Result.(quality := Some(Some(quality)))
  }

  /** A rating gets past the index guard and the SM-2 calculation. */
  predicate RatingApplies(s: SessionState, deck: seq<Card>, quality: int,
                          calculate: (Card, int) -> Option<Sm2Patch>) {
    s.currentIndex < |deck| && calculate(deck[s.currentIndex], quality).Some?
  }

  /**
   * `handleQualityRating(quality)` on the session state: no card at the
   * index or a throwing calculation changes nothing; otherwise the rating is
   * recorded and the session completes on the last card or moves on with the
   * answer hidden.
   */
  function RatingStep(s: SessionState, deck: seq<Card>, quality: int,
                      calculate: (Card, int) -> Option<Sm2Patch>): (t: SessionState)
    ensures s.results <= t.results && |t.results| <= |s.results| + 1
    ensures s.isQuizComplete ==> t.isQuizComplete
    ensures s.currentIndex <= t.currentIndex <= s.currentIndex + 1
    ensures t != s <==> RatingApplies(s, deck, quality, calculate)
  {
    if !RatingApplies(s, deck, quality, calculate) then s
    else
      var stats := RecordRating(s.stats, quality);
      var results := s.results + [QuizResult(deck[s.currentIndex], quality)];
      if s.currentIndex + 1 >= |deck| then s.(isQuizComplete := true, stats := stats, results := results)
      else s.(currentIndex := s.currentIndex + 1, showAnswer := false, stats := stats, results := results)
  }

  /**
   * The shape of a session over a fixed deck: one result per card passed,
   * result `i` about card `i`, and the index on a card (on the last one once
   * the session is complete).
   */
  predicate SessionShape(s: SessionState, deck: seq<Card>) {
    && |s.results| == s.currentIndex + (if s.isQuizComplete then 1 else 0)
    && (|deck| > 0 ==> s.currentIndex < |deck|)
    && (|deck| == 0 ==> s.currentIndex == 0 && !s.isQuizComplete)
    && (s.isQuizComplete ==> s.currentIndex + 1 == |deck|)
    && |s.results| <= |deck|
    && forall i :: 0 <= i < |s.results| ==> s.results[i].vocab == deck[i]
  }

  /** The invariant of a session: its shape, and statistics that describe its results. */
  ghost predicate SessionInvariant(s: SessionState, deck: seq<Card>) {
    SessionShape(s, deck) && StatsDescribe(s.stats, s.results)
  }

  /** A fresh session satisfies the invariant for any deck. */
  lemma InitialStateValid(deck: seq<Card>)
    ensures SessionInvariant(InitialState, deck)
  {
    ZeroStatsDescribeEmpty();
  }

  /**
   * Rating an unfinished session keeps its shape. A rating that gets through
   * appends exactly one result for the card at the index, and either
   * completes the session on the last card or advances with the answer
   * hidden; one that does not changes nothing.
   */
  lemma RatingKeepsShape(s: SessionState, deck: seq<Card>, quality: int,
                         calculate: (Card, int) -> Option<Sm2Patch>)
    requires SessionShape(s, deck) && !s.isQuizComplete
    ensures var t := RatingStep(s, deck, quality, calculate);
            && SessionShape(t, deck)
            && (!RatingApplies(s, deck, quality, calculate) ==> t == s)
            && (RatingApplies(s, deck, quality, calculate) ==>
                  && t.results == s.results + [QuizResult(deck[s.currentIndex], quality)]
                  && (t.isQuizComplete <==> s.currentIndex + 1 == |deck|)
                  && (!t.isQuizComplete ==> t.currentIndex == s.currentIndex + 1 && !t.showAnswer))
  {
  }

  /** Rating an unfinished session keeps the invariant, the statistics included. */
  lemma RatingKeepsInvariant(s: SessionState, deck: seq<Card>, quality: int,
                             calculate: (Card, int) -> Option<Sm2Patch>)
    requires SessionInvariant(s, deck) && !s.isQuizComplete
    ensures SessionInvariant(RatingStep(s, deck, quality, calculate), deck)
  {
    RatingKeepsShape(s, deck, quality, calculate);
    if RatingApplies(s, deck, quality, calculate) {
      RecordRatingDescribes(s.stats, s.results, QuizResult(deck[s.currentIndex], quality));
    }
  }

  /** A finished session has one result per card, in deck order, and counted statistics. */
  lemma CompletedSessionCoversDeck(s: SessionState, deck: seq<Card>)
    requires SessionInvariant(s, deck) && s.isQuizComplete
    ensures |s.results| == |deck| > 0
    ensures forall i :: 0 <= i < |deck| ==> s.results[i].vocab == deck[i]
    ensures s.stats.total == |deck| && s.stats.correct == CorrectCount(s.results)
    ensures |WrongVocabs(s.results)| + s.stats.correct == |deck|
  {
  }

  /** `quality` rated in turn, one rating per element. */
  function RunRatings(s: SessionState, deck: seq<Card>, qualities: seq<int>,
                      calculate: (Card, int) -> Option<Sm2Patch>): SessionState
    decreases |qualities|
  {
    if qualities == [] then s
    else RunRatings(RatingStep(s, deck, qualities[0], calculate), deck, qualities[1..], calculate)
  }

  /**
   * When the SM-2 calculation never throws, rating each remaining card once
   * finishes the session, with the given qualities recorded in order.
   */
  lemma {:induction false} RatingsCompleteSession(s: SessionState, deck: seq<Card>, qualities: seq<int>,
                                                  calculate: (Card, int) -> Option<Sm2Patch>)
    requires SessionShape(s, deck) && !s.isQuizComplete && |deck| > 0
    requires |qualities| == |deck| - |s.results|
    requires forall c, q :: calculate(c, q).Some?
    ensures var t := RunRatings(s, deck, qualities, calculate);
            && SessionShape(t, deck) && t.isQuizComplete
            && t.results == s.results + Rated(deck[|s.results|..], qualities)
    decreases |qualities|
  {
    var k := |s.results|;
    var t := RatingStep(s, deck, qualities[0], calculate);
    RatingKeepsShape(s, deck, qualities[0], calculate);
    assert RunRatings(s, deck, qualities, calculate) == RunRatings(t, deck, qualities[1..], calculate);
    RatedCons(deck, k, qualities);
    var head := [QuizResult(deck[k], qualities[0])];
    assert t.results == s.results + head;
    if |qualities| == 1 {
      assert RunRatings(t, deck, qualities[1..], calculate) == t;
      assert |Rated(deck[k + 1..], qualities[1..])| == 0;
      assert head + Rated(deck[k + 1..], qualities[1..]) == head;
    } else {
      RatingsCompleteSession(t, deck, qualities[1..], calculate);
      ConcatAssoc(s.results, head, Rated(deck[k + 1..], qualities[1..]));
    }
  }

  /** The results of rating `cards` in turn, the `i`-th with `qualities[i]`. */
  function Rated(cards: seq<Card>, qualities: seq<int>): (r: seq<QuizResult>)
    requires |cards| == |qualities|
    ensures |r| == |qualities|
    ensures forall i :: 0 <= i < |r| ==> r[i].vocab == cards[i] && r[i].quality == qualities[i]
  {
    seq(|qualities|, i requires 0 <= i < |qualities| => QuizResult(cards[i], qualities[i]))
  }

  /** Rating the cards from index `k` on is rating card `k`, then the rest. */
  lemma RatedCons(deck: seq<Card>, k: nat, qualities: seq<int>)
    requires k < |deck| && |qualities| == |deck| - k
    ensures Rated(deck[k..], qualities) == [QuizResult(deck[k], qualities[0])] + Rated(deck[k + 1..], qualities[1..])
  {
    var r := Rated(deck[k..], qualities);
    var r2 := [QuizResult(deck[k], qualities[0])] + Rated(deck[k + 1..], qualities[1..]);
    assert |r| == |r2|;
    forall i | 0 <= i < |r| ensures r[i] == r2[i] {
      if i > 0 {
        assert r2[i] == Rated(deck[k + 1..], qualities[1..])[i - 1];
        assert deck[k..][i] == deck[k + 1..][i - 1];
      }
    }
  }

  // ---------------------------------------------------------------------
  // The finished-session summaries
  // ---------------------------------------------------------------------

  /** The count of correct answers shown on the result screen. */
  function CorrectCount(results: seq<QuizResult>): nat {
    |Filter(results, IsCorrect)|
  }

  /** `wrongVocabsResult`: the cards rated below 3, in rating order. */
  function WrongVocabs(results: seq<QuizResult>): (wrong: seq<Card>)
    ensures |wrong| + CorrectCount(results) == |results|
    ensures forall i :: 0 <= i < |wrong| ==> exists j :: 0 <= j < |results| && IsWrong(results[j]) && results[j].vocab == wrong[i]
  {
    FilterPartition(results, IsWrong, IsCorrect);
    var wrong := Map(Filter(results, IsWrong), (r: QuizResult) => r.vocab);
    assert forall i :: 0 <= i < |wrong| ==> Filter(results, IsWrong)[i] in results;
    wrong
  }

  /** Rating order is kept: a later wrong answer comes after the earlier ones. */
  lemma WrongVocabsAppend(results: seq<QuizResult>, r: QuizResult)
    ensures WrongVocabs(results + [r]) == WrongVocabs(results) + (if IsWrong(r) then [r.vocab] else [])
  {
    FilterConcat(results, [r], IsWrong);
    MapConcat(Filter(results, IsWrong), Filter([r], IsWrong), (x: QuizResult) => x.vocab);
  }

  /** One row of `QUALITY_COLORS` (its `label` is `legend` here). */
  datatype QualityColor = QualityColor(value: int, legend: string, hex: string)

  /** One slice of the result chart: `{...q, count}`. */
  datatype QualityCount = QualityCount(color: QualityColor, count: nat)

  /** The results rated with quality `v`. */
  function HasQuality(v: int): QuizResult -> bool {
    (r: QuizResult) => r.quality == v
  }

  function CountQuality(results: seq<QuizResult>, v: int): nat {
    |Filter(results, HasQuality(v))|
  }

  /** `qualityCounts`: per colour-table row the number of results with that quality, rows with none dropped. */
  function QualityCounts(colors: seq<QualityColor>, results: seq<QuizResult>): (counts: seq<QualityCount>)
    ensures forall i :: 0 <= i < |counts| ==>
              counts[i].count > 0 && counts[i].color in colors && counts[i].count == CountQuality(results, counts[i].color.value)
    ensures forall i :: 0 <= i < |colors| && CountQuality(results, colors[i].value) > 0 ==>
              QualityCount(colors[i], CountQuality(results, colors[i].value)) in counts
  {
    var all := Map(colors, (q: QualityColor) => QualityCount(q, CountQuality(results, q.value)));
    var counts := Filter(all, (d: QualityCount) => d.count > 0);
    assert forall i :: 0 <= i < |counts| ==> counts[i] in all;
    counts
  }

  function SumCounts(counts: seq<QualityCount>): nat {
    if counts == [] then 0 else counts[0].count + SumCounts(counts[1..])
  }

  /** Some row of the table has quality `q`. */
  predicate HasColor(colors: seq<QualityColor>, q: int) {
    exists i :: 0 <= i < |colors| && colors[i].value == q
  }

  function Colored(colors: seq<QualityColor>): QuizResult -> bool {
    (r: QuizResult) => HasColor(colors, r.quality)
  }

  /** Rows with a zero count add nothing to the total. */
  lemma {:induction false} SumCountsDropZeros(all: seq<QualityCount>)
    ensures SumCounts(Filter(all, (d: QualityCount) => d.count > 0)) == SumCounts(all)
  {
    if all != [] {
      var p := (d: QualityCount) => d.count > 0;
      SumCountsDropZeros(all[1..]);
      var head := if all[0].count > 0 then [all[0]] else [];
      var tail := Filter(all[1..], p);
      assert Filter(all, p) == head + tail;
      if head == [] {
        assert head + tail == tail;
      } else {
        assert (head + tail)[1..] == tail;
      }
    }
  }

  /** Over a table with distinct qualities, the counts add up to the number of results the table covers. */
  lemma {:induction false} SumPerColor(colors: seq<QualityColor>, results: seq<QuizResult>)
    requires forall i, j :: 0 <= i < j < |colors| ==> colors[i].value != colors[j].value
    ensures SumCounts(Map(colors, (q: QualityColor) => QualityCount(q, CountQuality(results, q.value))))
              == |Filter(results, Colored(colors))|
  {
    var f := (q: QualityColor) => QualityCount(q, CountQuality(results, q.value));
    if colors == [] {
      FilterNone(results, Colored(colors));
    } else {
      var rest := colors[1..];
      SumPerColor(rest, results);
      assert Map(colors, f) == [f(colors[0])] + Map(rest, f) by {
        MapConcat([colors[0]], rest, f);
        assert colors == [colors[0]] + rest;
      }
      assert Map(colors, f)[1..] == Map(rest, f);
      ColoredSplits(colors, results);
      FilterDisjointUnion(results, Colored(colors), HasQuality(colors[0].value), Colored(rest));
    }
  }

  /** Over distinct qualities, a result is colored by the first row or else by one of the others, never by both. */
  lemma ColoredSplits(colors: seq<QualityColor>, results: seq<QuizResult>)
    requires forall i, j :: 0 <= i < j < |colors| ==> colors[i].value != colors[j].value
    requires colors != []
    ensures forall i :: 0 <= i < |results| ==>
              Colored(colors)(results[i]) == (HasQuality(colors[0].value)(results[i]) || Colored(colors[1..])(results[i]))
    ensures forall i :: 0 <= i < |results| ==>
              !(HasQuality(colors[0].value)(results[i]) && Colored(colors[1..])(results[i]))
  {
    var rest := colors[1..];
    forall i | 0 <= i < |results|
      ensures Colored(colors)(results[i]) == (HasQuality(colors[0].value)(results[i]) || Colored(rest)(results[i]))
      ensures !(HasQuality(colors[0].value)(results[i]) && Colored(rest)(results[i]))
    {
      if Colored(colors)(results[i]) {
        var k :| 0 <= k < |colors| && colors[k].value == results[i].quality;
        if k > 0 {
          assert rest[k - 1].value == results[i].quality;
        }
      }
      if Colored(rest)(results[i]) {
        var k :| 0 <= k < |rest| && rest[k].value == results[i].quality;
        assert colors[k + 1] == rest[k];
      }
    }
  }

  /**
   * When every rating has a row in a table of distinct qualities, the chart's
   * slices add up to the number of results: no answer is lost or counted twice.
   */
  lemma QualityCountsTotal(colors: seq<QualityColor>, results: seq<QuizResult>)
    requires forall i, j :: 0 <= i < j < |colors| ==> colors[i].value != colors[j].value
    requires forall i :: 0 <= i < |results| ==> HasColor(colors, results[i].quality)
    ensures SumCounts(QualityCounts(colors, results)) == |results|
  {
    var all := Map(colors, (q: QualityColor) => QualityCount(q, CountQuality(results, q.value)));
    SumCountsDropZeros(all);
    SumPerColor(colors, results);
    FilterKeepsAll(results, Colored(colors));
  }

  // ---------------------------------------------------------------------
  // The session as an object over a deck fixed when it starts
  // ---------------------------------------------------------------------

  /**
   * A quiz session. The deck is fixed when the session starts (the reset
   * effect), so every later rating works on the cards the session began with.
   */
  class QuizSession {
    var deck: seq<Card>
    var currentIndex: nat
    var isQuizComplete: bool
    var showAnswer: bool
    var stats: SessionStats
    var results: seq<QuizResult>

    function State(): SessionState
      reads this
    {
      SessionState(currentIndex, isQuizComplete, showAnswer, stats, results)
    }

    ghost predicate Valid()
      reads this
    {
      SessionInvariant(State(), deck)
    }

    /** A session with no cards yet. */
    constructor ()
      ensures State() == InitialState && deck == [] && Valid()
    {
      deck := [];
      currentIndex := 0;
      isQuizComplete := false;
      showAnswer := false;
      stats := ZeroStats;
      results := [];
      new;
      InitialStateValid([]);
    }

    /** The reset effect: the selection is taken from the store and every counter starts over. */
    method Start(mode: QuizMode, store: VocabularyStore, repeat: seq<Card>, wordsPerQuiz: int,
                 dueOf: seq<Card> -> seq<Card>, sortOf: seq<Card> -> seq<Card>,
                 shuffle: seq<Card> -> seq<Card>)
      modifies this
      ensures deck == QuizVocabulary(mode, store.vocabulary, repeat, wordsPerQuiz, dueOf, sortOf, shuffle)
      ensures State() == InitialState && Valid()
    {
      deck := QuizVocabulary(mode, store.vocabulary, repeat, wordsPerQuiz, dueOf, sortOf, shuffle);
      currentIndex := 0;
      results := [];
      isQuizComplete := false;
      stats := ZeroStats;
      showAnswer := false;
      InitialStateValid(deck);
    }

    /** `toggleAnswer`: only the answer visibility flips. */
    method ToggleAnswer()
      modifies this
      ensures State() == old(State()).(showAnswer := !old(showAnswer)) && deck == old(deck)
      ensures old(Valid()) ==> Valid()
    {
      showAnswer := !showAnswer;
    }

    /**
     * `handleQualityRating(quality)`: when the rating gets through, the
     * card's SM-2 record in the store receives the calculated result with the
     * rating, and the session state takes the step `RatingStep` describes
     * (which keeps `Valid()` on an unfinished session: `RatingKeepsInvariant`).
     */
    method HandleQualityRating(quality: int, calculate: (Card, int) -> Option<Sm2Patch>, store: VocabularyStore)
      modifies this, store
      ensures deck == old(deck)
      ensures State() == RatingStep(old(State()), deck, quality, calculate)
      ensures store.vocabulary ==
                if RatingApplies(old(State()), deck, quality, calculate)
                then UpdateSm2ById(old(store.vocabulary), deck[old(currentIndex)].id,
                                   RatingPatch(calculate(deck[old(currentIndex)], quality).value, quality))
                else old(store.vocabulary)
    {
      ghost var before := State();
      if currentIndex >= |deck| {
        return;
      }
      var card := deck[currentIndex];
      var sm2Result := calculate(card, quality);
      if sm2Result.None? {
        return;
      }
      PersistRating(store, card.id, RatingPatch(sm2Result.value, quality));
      stats := RecordRating(stats, quality);
      results := results + [QuizResult(card, quality)];
      if currentIndex + 1 >= |deck| {
        isQuizComplete := true;
        assert State() == before.(isQuizComplete := true, stats := stats, results := results);
      } else {
        currentIndex := currentIndex + 1;
        showAnswer := false;
        assert State() == before.(currentIndex := currentIndex, showAnswer := false, stats := stats, results := results);
      }
    }

    /** The `updateSM2Data` call of a rating; its returned card is not used. */
    static method PersistRating(store: VocabularyStore, id: string, patch: Sm2Patch)
      modifies store
      ensures store.vocabulary == UpdateSm2ById(old(store.vocabulary), id, patch)
    {
      var updated := store.UpdateSm2Data(id, patch);
    }
  }

  // ---------------------------------------------------------------------
  // The screen as written: the deck recomputed on every render
  // ---------------------------------------------------------------------

  /**
   * One rating as the screen performs it: the deck is `quizVocabulary`
   * recomputed from the current collection, the rating steps the session
   * state on that deck, and the store receives the SM-2 update.
   */
  function RatingAsWritten(vocabulary: seq<Card>, s: SessionState, mode: QuizMode, repeat: seq<Card>,
                           wordsPerQuiz: int, dueOf: seq<Card> -> seq<Card>, sortOf: seq<Card> -> seq<Card>,
                           shuffle: seq<Card> -> seq<Card>, quality: int,
                           calculate: (Card, int) -> Option<Sm2Patch>): (r: (seq<Card>, SessionState))
    ensures |r.0| == |vocabulary| && Ids(r.0) == Ids(vocabulary)
    ensures r.1 == RatingStep(s, QuizVocabulary(mode, vocabulary, repeat, wordsPerQuiz, dueOf, sortOf, shuffle),
                              quality, calculate)
    ensures r.1 == s ==> r.0 == vocabulary
  {
    var deck := QuizVocabulary(mode, vocabulary, repeat, wordsPerQuiz, dueOf, sortOf, shuffle);
    if RatingApplies(s, deck, quality, calculate) then
      UpdateSm2ByIdChanges(vocabulary, deck[s.currentIndex].id,
                           RatingPatch(calculate(deck[s.currentIndex], quality).value, quality));
      (UpdateSm2ById(vocabulary, deck[s.currentIndex].id,
                     RatingPatch(calculate(deck[s.currentIndex], quality).value, quality)),
       RatingStep(s, deck, quality, calculate))
    else (vocabulary, s)
  }

  /** A reordering of two distinct cards is one of the two orders. */
  lemma PermutedPair(sortOf: seq<Card> -> seq<Card>, a: Card, b: Card)
    requires Permutes(sortOf) && a != b
    ensures sortOf([a, b]) == [a, b] || sortOf([a, b]) == [b, a]
  {
    var d := sortOf([a, b]);
    assert multiset(d) == multiset{a, b};
    assert |d| == 2;
    assert d == [d[0], d[1]];
    assert d[0] in multiset(d) && d[1] in multiset(d);
  }

  /** A reordering of one card is that card. */
  lemma PermutedSingle(sortOf: seq<Card> -> seq<Card>, x: Card)
    requires Permutes(sortOf)
    ensures sortOf([x]) == [x]
  {
    var d := sortOf([x]);
    assert multiset(d) == multiset{x};
    assert |d| == 1;
    assert d[0] in multiset(d);
  }

  /** Of two new cards, the one whose repetition count became non-zero is no longer new. */
  lemma NewAfterRating(cards: seq<Card>, k: nat, rated: Card, other: Card)
    requires |cards| == 2 && k < 2 && cards[1 - k] == other
    requires other.sm2.repetitions == 0 && rated.sm2.repetitions != 0
    ensures NewVocab(cards[k := rated]) == [other]
  {
    var v1 := cards[k := rated];
    assert [rated][1..] == [] && [other][1..] == [];
    assert NewVocab([rated]) == [] && NewVocab([other]) == [other];
    if k == 0 {
      assert v1 == [rated, other];
      assert v1[1..] == [other];
    } else {
      assert v1 == [other, rated];
      assert v1[1..] == [rated];
    }
  }

  /** Two cards with different ids. */
  lemma PairUniqueIds(a: Card, b: Card)
    requires a.id != b.id
    ensures UniqueIds([a, b])
  {
    assert [a, b][0] == a && [a, b][1] == b;
  }

  /** The first rating on a two-card deck gets through and moves to the second card. */
  lemma FirstRatingAdvances(deck: seq<Card>, quality: int, calculate: (Card, int) -> Option<Sm2Patch>)
    requires |deck| == 2 && calculate(deck[0], quality).Some?
    ensures RatingApplies(InitialState, deck, quality, calculate)
    ensures var s1 := RatingStep(InitialState, deck, quality, calculate);
            s1.currentIndex == 1 && !s1.isQuizComplete && |s1.results| == 1
  {
  }

  /** A `new`-mode deck no longer than `wordsPerQuiz` is the ordered pool itself. */
  lemma NewDeckIs(vocabulary: seq<Card>, deck: seq<Card>, wordsPerQuiz: int, dueOf: seq<Card> -> seq<Card>,
                  sortOf: seq<Card> -> seq<Card>, shuffle: seq<Card> -> seq<Card>)
    requires sortOf(NewVocab(vocabulary)) == deck && |deck| <= wordsPerQuiz
    ensures QuizVocabulary(NewMode, vocabulary, [], wordsPerQuiz, dueOf, sortOf, shuffle) == deck
  {
  }

  /** The stall for one order of the two cards: `first` is asked first and sits at index `k` of `cards`. */
  lemma StallInOrder(cards: seq<Card>, k: nat, first: Card, other: Card, wordsPerQuiz: int,
                     dueOf: seq<Card> -> seq<Card>, sortOf: seq<Card> -> seq<Card>, shuffle: seq<Card> -> seq<Card>,
                     quality: int, calculate: (Card, int) -> Option<Sm2Patch>,
                     quality2: int, calculate2: (Card, int) -> Option<Sm2Patch>)
    requires |cards| == 2 && k < 2 && cards[k] == first && cards[1 - k] == other && UniqueIds(cards)
    requires first.sm2.repetitions == 0 && other.sm2.repetitions == 0 && wordsPerQuiz >= 2
    requires sortOf(cards) == [first, other] && sortOf([other]) == [other]
    requires calculate(first, quality).Some? && calculate(first, quality).value.repetitions.Some?
    requires calculate(first, quality).value.repetitions.value != 0
    ensures var after := RatingAsWritten(cards, InitialState, NewMode, [], wordsPerQuiz, dueOf, sortOf, shuffle,
                                         quality, calculate);
            && |after.1.results| == 1 && !after.1.isQuizComplete
            && after.1.currentIndex >= |QuizVocabulary(NewMode, after.0, [], wordsPerQuiz, dueOf, sortOf, shuffle)|
            && RatingAsWritten(after.0, after.1, NewMode, [], wordsPerQuiz, dueOf, sortOf, shuffle,
                               quality2, calculate2) == after
  {
    var deck := [first, other];
    assert QuizVocabulary(NewMode, cards, [], wordsPerQuiz, dueOf, sortOf, shuffle) == deck by {
      FilterKeepsAll(cards, (c: Card) => c.sm2.repetitions == 0);
      NewDeckIs(cards, deck, wordsPerQuiz, dueOf, sortOf, shuffle);
    }
    var patch := RatingPatch(calculate(first, quality).value, quality);
    var v1 := UpdateSm2ById(cards, first.id, patch);
    var deck1 := QuizVocabulary(NewMode, v1, [], wordsPerQuiz, dueOf, sortOf, shuffle);
    assert deck1 == [other] by {
      UpdateSm2WithUniqueIds(cards, k, patch);
      NewAfterRating(cards, k, first.(sm2 := MergeSm2(first.sm2, patch)), other);
      NewDeckIs(v1, [other], wordsPerQuiz, dueOf, sortOf, shuffle);
    }
    var s1 := RatingStep(InitialState, deck, quality, calculate);
    assert RatingApplies(InitialState, deck, quality, calculate) && s1.currentIndex == 1 && !s1.isQuizComplete && |s1.results| == 1 by {
      FirstRatingAdvances(deck, quality, calculate);
    }
    assert RatingAsWritten(cards, InitialState, NewMode, [], wordsPerQuiz, dueOf, sortOf, shuffle,
                           quality, calculate) == (v1, s1);
    assert !RatingApplies(s1, deck1, quality2, calculate2);
  }

  /**
   * In `new` mode with two unlearned cards, rating the first one so that its
   * repetition count becomes non-zero drops it from the recomputed deck: the
   * deck shrinks to one card while the index moves to 1. The session is not
   * complete, no card is at the index (so no card is shown), and every
   * further rating is a no-op: the session can never finish.
   */
  lemma RecomputedDeckStalls(a: Card, b: Card, wordsPerQuiz: int, dueOf: seq<Card> -> seq<Card>,
                             sortOf: seq<Card> -> seq<Card>, shuffle: seq<Card> -> seq<Card>,
                             quality: int, calculate: (Card, int) -> Option<Sm2Patch>,
                             quality2: int, calculate2: (Card, int) -> Option<Sm2Patch>)
    requires a.id != b.id && a.sm2.repetitions == 0 && b.sm2.repetitions == 0
    requires wordsPerQuiz >= 2 && Permutes(sortOf)
    requires calculate(a, quality).Some? && calculate(a, quality).value.repetitions.Some?
    requires calculate(a, quality).value.repetitions.value != 0
    requires calculate(b, quality).Some? && calculate(b, quality).value.repetitions.Some?
    requires calculate(b, quality).value.repetitions.value != 0
    ensures var after := RatingAsWritten([a, b], InitialState, NewMode, [], wordsPerQuiz, dueOf, sortOf, shuffle,
                                         quality, calculate);
            && |after.1.results| == 1 && !after.1.isQuizComplete
            && after.1.currentIndex >= |QuizVocabulary(NewMode, after.0, [], wordsPerQuiz, dueOf, sortOf, shuffle)|
            && RatingAsWritten(after.0, after.1, NewMode, [], wordsPerQuiz, dueOf, sortOf, shuffle,
                               quality2, calculate2) == after
  {
    PermutedPair(sortOf, a, b);
    PairUniqueIds(a, b);
    if sortOf([a, b]) == [a, b] {
      PermutedSingle(sortOf, b);
      StallInOrder([a, b], 0, a, b, wordsPerQuiz, dueOf, sortOf, shuffle, quality, calculate, quality2, calculate2);
    } else {
      PermutedSingle(sortOf, a);
      StallInOrder([a, b], 1, b, a, wordsPerQuiz, dueOf, sortOf, shuffle, quality, calculate, quality2, calculate2);
    }
  }
}
