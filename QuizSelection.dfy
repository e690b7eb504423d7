/**
 * The quiz selection screen: the new/review split of the collection by
 * `repetitions`, the truncation of the chosen list to `wordsPerQuiz`, and
 * the mode buttons, each disabled when its list is empty.
 *
 * `getDueVocabulary` and `sortByPriority` come from an SM-2 utility module
 * that is not part of this model; they are parameters here, and where a
 * property needs it they are assumed to return a permutation of their input.
 */
module QuizSelection {
  import opened Wrappers
  import opened Seqs
  import opened Vocabulary

  /** `f` returns a reordering of its argument, as a sort does. */
  ghost predicate Permutes(f: seq<Card> -> seq<Card>) {
    forall s :: multiset(f(s)) == multiset(s)
  }

  /** The cards never learned: those whose SM-2 repetition count is zero, in stored order. */
  function NewVocab(vocabulary: seq<Card>): (r: seq<Card>)
    ensures forall i :: 0 <= i < |r| ==> r[i].sm2.repetitions == 0 && r[i] in vocabulary
    ensures forall i :: 0 <= i < |vocabulary| && vocabulary[i].sm2.repetitions == 0 ==> vocabulary[i] in r
  {
    Filter(vocabulary, (c: Card) => c.sm2.repetitions == 0)
  }

  /** The cards learned at least once: those with a positive SM-2 repetition count, in stored order. */
  function ReviewVocab(vocabulary: seq<Card>): (r: seq<Card>)
    ensures forall i :: 0 <= i < |r| ==> r[i].sm2.repetitions > 0 && r[i] in vocabulary
    ensures forall i :: 0 <= i < |vocabulary| && vocabulary[i].sm2.repetitions > 0 ==> vocabulary[i] in r
  {
    Filter(vocabulary, (c: Card) => c.sm2.repetitions > 0)
  }

  /** With non-negative repetition counts the two lists split the collection: disjoint, and together all of it. */
  lemma NewReviewPartition(vocabulary: seq<Card>)
    requires forall i :: 0 <= i < |vocabulary| ==> vocabulary[i].sm2.repetitions >= 0
    ensures multiset(NewVocab(vocabulary)) + multiset(ReviewVocab(vocabulary)) == multiset(vocabulary)
    ensures |NewVocab(vocabulary)| + |ReviewVocab(vocabulary)| == |vocabulary|
    ensures multiset(NewVocab(vocabulary)) !! multiset(ReviewVocab(vocabulary))
  {
    FilterPartition(vocabulary, (c: Card) => c.sm2.repetitions == 0, (c: Card) => c.sm2.repetitions > 0);
    var n, r := NewVocab(vocabulary), ReviewVocab(vocabulary);
    forall c | c in multiset(n) ensures c !in multiset(r) {
      var i :| 0 <= i < |n| && n[i] == c;
      assert forall j :: 0 <= j < |r| ==> r[j].sm2.repetitions != c.sm2.repetitions;
    }
  }

  /** Both lists keep the stored order: they commute with concatenation. */
  lemma NewReviewKeepOrder(front: seq<Card>, back: seq<Card>)
    ensures NewVocab(front + back) == NewVocab(front) + NewVocab(back)
    ensures ReviewVocab(front + back) == ReviewVocab(front) + ReviewVocab(back)
  {
    FilterConcat(front, back, (c: Card) => c.sm2.repetitions == 0);
    FilterConcat(front, back, (c: Card) => c.sm2.repetitions > 0);
  }

  /** The list `handleStartQuiz` hands on: at most the first `wordsPerQuiz` cards, counted back from the end when negative. */
  function SelectForQuiz(vocab: seq<Card>, wordsPerQuiz: int): (selected: seq<Card>)
    ensures selected <= vocab
    ensures wordsPerQuiz >= 0 ==> |selected| == if wordsPerQuiz < |vocab| then wordsPerQuiz else |vocab|
    ensures wordsPerQuiz < 0 ==> |selected| == if |vocab| + wordsPerQuiz < 0 then 0 else |vocab| + wordsPerQuiz
  {
    Prefix(vocab, wordsPerQuiz)
  }

  /** The review direction handed on with the list: `'it-de' | 'de-it' | 'random'`. */
  datatype Direction = ItDe | DeIt | RandomDirection

  /** The four mode buttons of the screen. */
  datatype ModeButton = DueButton | NewButton | ReviewButton | RandomButton

  /**
   * The list a button passes to `handleStartQuiz`; the random button passes
   * the stored list as it is. Every button but the due one draws its list
   * from the stored cards.
   */
  function ButtonList(button: ModeButton, vocabulary: seq<Card>,
                      dueOf: seq<Card> -> seq<Card>, sortOf: seq<Card> -> seq<Card>): (list: seq<Card>)
    ensures button != DueButton ==> forall i :: 0 <= i < |list| ==> list[i] in vocabulary
    ensures button == NewButton ==> forall i :: 0 <= i < |list| ==> list[i].sm2.repetitions == 0
    ensures button == ReviewButton ==> forall i :: 0 <= i < |list| ==> list[i].sm2.repetitions > 0
  {
    match button
    case DueButton => sortOf(dueOf(vocabulary))
    case NewButton => NewVocab(vocabulary)
    case ReviewButton => ReviewVocab(vocabulary)
    case RandomButton => vocabulary
  }

  /**
   * A button is disabled when the list it counts is empty (for the due
   * button, before sorting): for every other button, exactly when the list
   * it would pass is empty.
   */
  predicate ButtonDisabled(button: ModeButton, vocabulary: seq<Card>, dueOf: seq<Card> -> seq<Card>): (disabled: bool)
    ensures button != DueButton ==> forall sortOf: seq<Card> -> seq<Card> {:trigger ButtonList(button, vocabulary, dueOf, sortOf)} ::
              disabled <==> ButtonList(button, vocabulary, dueOf, sortOf) == []
  {
    match button
    case DueButton => |dueOf(vocabulary)| == 0
    case NewButton => |NewVocab(vocabulary)| == 0
    case ReviewButton => |ReviewVocab(vocabulary)| == 0
    case RandomButton => |vocabulary| == 0
  }

  /** What pressing a button hands to `onStartQuiz`: nothing when it is disabled, else the truncated list and the direction. */
  function PressButton(button: ModeButton, vocabulary: seq<Card>,
                       dueOf: seq<Card> -> seq<Card>, sortOf: seq<Card> -> seq<Card>,
                       wordsPerQuiz: int, direction: Direction): (started: Option<(seq<Card>, Direction)>)
    ensures started.Some? <==> !ButtonDisabled(button, vocabulary, dueOf)
    ensures started.Some? ==> started.value.1 == direction && started.value.0 <= ButtonList(button, vocabulary, dueOf, sortOf)
  {
    if ButtonDisabled(button, vocabulary, dueOf) then None
    else Some((SelectForQuiz(ButtonList(button, vocabulary, dueOf, sortOf), wordsPerQuiz), direction))
  }

  /**
   * With at least one word per quiz, no button starts a quiz on an empty
   * list, and every started list draws only from the button's own pool.
   */
  lemma StartedQuizNonEmpty(button: ModeButton, vocabulary: seq<Card>,
                            dueOf: seq<Card> -> seq<Card>, sortOf: seq<Card> -> seq<Card>,
                            wordsPerQuiz: int, direction: Direction)
    requires Permutes(sortOf) && wordsPerQuiz >= 1
    ensures var started := PressButton(button, vocabulary, dueOf, sortOf, wordsPerQuiz, direction);
            started.Some? ==> 1 <= |started.value.0| <= wordsPerQuiz
  {
    if button == DueButton {
      var due := dueOf(vocabulary);
      assert |multiset(sortOf(due))| == |multiset(due)|;
    }
  }

  /** The random button hands on the first `wordsPerQuiz` stored cards, in stored order, unshuffled. */
  lemma RandomButtonUnshuffled(vocabulary: seq<Card>, dueOf: seq<Card> -> seq<Card>, sortOf: seq<Card> -> seq<Card>,
                               wordsPerQuiz: nat, direction: Direction)
    requires |vocabulary| > 0
    ensures PressButton(RandomButton, vocabulary, dueOf, sortOf, wordsPerQuiz, direction) ==
              Some((vocabulary[..if wordsPerQuiz < |vocabulary| then wordsPerQuiz else |vocabulary|], direction))
  {
  }

  /** A zero `wordsPerQuiz` starts an empty quiz from any enabled button: the guard checks the list, not the truncation. */
  lemma ZeroWordsStartsEmptyQuiz(button: ModeButton, vocabulary: seq<Card>, dueOf: seq<Card> -> seq<Card>,
                                 sortOf: seq<Card> -> seq<Card>, direction: Direction)
    requires !ButtonDisabled(button, vocabulary, dueOf)
    ensures PressButton(button, vocabulary, dueOf, sortOf, 0, direction) == Some(([], direction))
  {
  }
}
