/**
 * The vocabulary collection store of `useVocabularyManager`: the list of
 * cards, the operations that replace it with a new list (add one, add a
 * batch, update, delete, merge SM-2 data) and the queries over it (find by
 * id, duplicate check, statistics).
 *
 * Each mutator is a method of `VocabularyStore` whose new list is given by a
 * function of the old one; the laws of those functions are the lemmas below.
 */
module VocabularyManager {
  import opened Wrappers
  import opened Seqs
  import opened Vocabulary

  /** The ids of `cards`, in order. */
  function Ids(cards: seq<Card>): (ids: seq<string>)
    ensures |ids| == |cards| && forall i :: 0 <= i < |cards| ==> ids[i] == cards[i].id
  {
    Map(cards, (c: Card) => c.id)
  }

  /** `getVocabularyById`: the first card, in stored order, whose id is `id`. */
  function FindById(cards: seq<Card>, id: string): (r: Option<Card>)
    ensures r.None? <==> forall i :: 0 <= i < |cards| ==> cards[i].id != id
    ensures r.Some? ==> exists i :: 0 <= i < |cards| && cards[i] == r.value && r.value.id == id && forall j :: 0 <= j < i ==> cards[j].id != id
  {
    Find(cards, (c: Card) => c.id == id)
  }

  /**
   * `checkDuplicate`: some card whose id is not `excludeId` has the same
   * Italian word or the same German word. An absent `excludeId`
   * (`undefined`) equals no card's id.
   */
  function CheckDuplicate(cards: seq<Card>, it: string, de: string, excludeId: Option<string>): (r: bool)
    ensures r <==> exists i :: 0 <= i < |cards| && Some(cards[i].id) != excludeId && (cards[i].it == it || cards[i].de == de)
  {
    Any(cards, (c: Card) => Some(c.id) != excludeId && (c.it == it || c.de == de))
  }

  /** The cards of a batch: entry `i` gets the id stamped `now + i` and the default SM-2 record. */
  function Batch(entries: seq<Entry>, now: nat, suffixes: seq<string>): (batch: seq<Card>)
    requires |suffixes| == |entries|
    ensures |batch| == |entries|
    ensures forall i :: 0 <= i < |batch| ==> batch[i].sm2 == DefaultSm2 && EntryOf(batch[i]) == entries[i]
    ensures forall i :: 0 <= i < |batch| ==> batch[i].id == CardId(now + i, suffixes[i])
  {
    seq(|entries|, i requires 0 <= i < |entries| => NewCard(entries[i], CardId(now + i, suffixes[i])))
  }

  /** The list `updateVocabulary` writes: every card with the id has the updates merged in, the rest stay. */
  function UpdateById(cards: seq<Card>, id: string, updates: CardPatch): (r: seq<Card>)
    ensures |r| == |cards| && Ids(r) == Ids(cards)
    ensures forall i :: 0 <= i < |cards| && cards[i].id != id ==> r[i] == cards[i]
    ensures forall i :: 0 <= i < |cards| && cards[i].id == id ==> r[i] == MergeCard(cards[i], updates)
  {
    var r := Map(cards, (c: Card) => if c.id == id then MergeCard(c, updates) else c);
    assert Ids(r) == Ids(cards);
    r
  }

  /** The list `deleteVocabulary` writes: every card whose id is not `id`, in stored order. */
  function RemoveById(cards: seq<Card>, id: string): (r: seq<Card>)
    ensures forall i :: 0 <= i < |r| ==> r[i].id != id && r[i] in cards
    ensures forall i :: 0 <= i < |cards| && cards[i].id != id ==> cards[i] in r
  {
    Filter(cards, (c: Card) => c.id != id)
  }

  /** The updates `updateSM2Data` hands to `updateVocabulary`: a new SM-2 record only. */
  function Sm2Only(sm2: Sm2Data): CardPatch {
    CardPatch(None, None, None, None, Some(sm2))
  }

  /**
   * The list after `updateSM2Data(id, patch)`: unchanged when no card has
   * that id; otherwise every card with that id gets the SM-2 record of the
   * first such card overridden by the keys of `patch`.
   */
  function UpdateSm2ById(cards: seq<Card>, id: string, patch: Sm2Patch): seq<Card> {
    match FindById(cards, id)
    case None => cards
    case Some(v) => UpdateById(cards, id, Sm2Only(MergeSm2(v.sm2, patch)))
  }

  /**
   * `updateSM2Data` changes nothing for an unknown id; otherwise every card
   * with the id gets the first such card's SM-2 record merged with the
   * patch, and every other card and every id stays as it was.
   */
  lemma UpdateSm2ByIdChanges(cards: seq<Card>, id: string, patch: Sm2Patch)
    ensures var r := UpdateSm2ById(cards, id, patch);
            && (FindById(cards, id).None? ==> r == cards)
            && |r| == |cards| && Ids(r) == Ids(cards)
            && (forall i :: 0 <= i < |cards| && cards[i].id != id ==> r[i] == cards[i])
            && (FindById(cards, id).Some? ==> forall i :: 0 <= i < |cards| && cards[i].id == id ==>
                  r[i] == cards[i].(sm2 := MergeSm2(FindById(cards, id).value.sm2, patch)))
  {
  }

  /**
   * A card is due for review when it has a `nextReview` timestamp not after
   * `now`; a timestamp of 0 is falsy and counts as none, as in `!nextReview`.
   */
  predicate IsDue(c: Card, now: int) {
    c.sm2.nextReview.Some? && c.sm2.nextReview.value != 0 && c.sm2.nextReview.value <= now
  }

  /**
   * Due is for good: a card due at `now` is due at every later reading of
   * the clock. A card with no `nextReview`, or with the falsy timestamp 0,
   * is never due.
   */
  lemma IsDueLaws(c: Card, now: int, later: int)
    ensures IsDue(c, now) && now <= later ==> IsDue(c, later)
    ensures c.sm2.nextReview == None || c.sm2.nextReview == Some(0) ==> !IsDue(c, later)
    ensures c.sm2.nextReview.Some? && c.sm2.nextReview.value != 0 ==> (IsDue(c, now) <==> c.sm2.nextReview.value <= now)
  {
  }

  /** The summary figures `getStats` reports. */
  datatype Stats = Stats(total: nat, learned: nat, toReview: nat, available: int)

  /** `getStats()`, with the clock reading passed as `now`. */
  function GetStats(cards: seq<Card>, now: int): (s: Stats)
    ensures s.total == |cards|
    ensures s.learned <= s.total && s.toReview <= s.total
    ensures s.learned + s.available == s.total
    ensures s.available == |Filter(cards, (c: Card) => c.sm2.repetitions <= 0)|
  {
    var learned := |Filter(cards, (c: Card) => c.sm2.repetitions > 0)|;
    var toReview := |Filter(cards, (c: Card) => IsDue(c, now))|;
    FilterPartition(cards, (c: Card) => c.sm2.repetitions > 0, (c: Card) => c.sm2.repetitions <= 0);
    Stats(|cards|, learned, toReview, |cards| - learned)
  }

  /** A new card is neither learned nor due: adding it grows `total` and `available` by one and nothing else. */
  lemma StatsAfterAdd(cards: seq<Card>, c: Card, now: int)
    requires c.sm2 == DefaultSm2
    ensures var before, after := GetStats(cards, now), GetStats(cards + [c], now);
            after == Stats(before.total + 1, before.learned, before.toReview, before.available + 1)
  {
    FilterConcat(cards, [c], (c: Card) => c.sm2.repetitions > 0);
    FilterConcat(cards, [c], (c: Card) => IsDue(c, now));
    assert [c][1..] == [];
  }

  /** A list in which no two cards share an id. */
  predicate UniqueIds(cards: seq<Card>) {
    forall i, j :: 0 <= i < j < |cards| ==> cards[i].id != cards[j].id
  }

  /** Batch ids are pairwise distinct because each embeds its own stamp `now + i`. */
  lemma BatchIdsDistinct(entries: seq<Entry>, now: nat, suffixes: seq<string>)
    requires |suffixes| == |entries|
    ensures UniqueIds(Batch(entries, now, suffixes))
  {
    var batch := Batch(entries, now, suffixes);
    forall i, j | 0 <= i < j < |batch| ensures batch[i].id != batch[j].id {
      if batch[i].id == batch[j].id {
        CardIdInjective(now + i, suffixes[i], now + j, suffixes[j]);
      }
    }
  }

  /** `find` returns the card at the first index with the id. */
  lemma FindByIdAt(cards: seq<Card>, id: string, i: nat)
    requires i < |cards| && cards[i].id == id
    requires forall j :: 0 <= j < i ==> cards[j].id != id
    ensures FindById(cards, id) == Some(cards[i])
  {
    var found := FindById(cards, id).value;
    var k :| 0 <= k < |cards| && cards[k] == found && found.id == id && forall j :: 0 <= j < k ==> cards[j].id != id;
    assert !(k < i) && !(i < k);
  }

  /** `updateVocabulary` returns the updated first card with the id, or none when there is no such card. */
  lemma FindAfterUpdate(cards: seq<Card>, id: string, updates: CardPatch)
    ensures FindById(UpdateById(cards, id, updates), id) ==
              match FindById(cards, id)
              case None => None
              case Some(c) => Some(MergeCard(c, updates))
  {
    var r := UpdateById(cards, id, updates);
    match FindById(cards, id)
    case None =>
      forall j | 0 <= j < |r| ensures r[j].id != id {
        assert r[j] == cards[j];
      }
    case Some(c) =>
      var i :| 0 <= i < |cards| && cards[i] == c && c.id == id && forall j :: 0 <= j < i ==> cards[j].id != id;
      forall j | 0 <= j < i ensures r[j].id != id {
        assert r[j] == cards[j];
      }
      assert r[i] == MergeCard(c, updates);
      FindByIdAt(r, id, i);
  }

  /** Deleting removes exactly the cards with the id: how many, in what order, and twice is once. */
  lemma RemoveByIdLaws(cards: seq<Card>, id: string)
    ensures |RemoveById(cards, id)| + |Filter(cards, (c: Card) => c.id == id)| == |cards|
    ensures RemoveById(RemoveById(cards, id), id) == RemoveById(cards, id)
    ensures (forall i :: 0 <= i < |cards| ==> cards[i].id != id) ==> RemoveById(cards, id) == cards
  {
    FilterPartition(cards, (c: Card) => c.id != id, (c: Card) => c.id == id);
    FilterIdempotent(cards, (c: Card) => c.id != id);
    if forall i :: 0 <= i < |cards| ==> cards[i].id != id {
      FilterKeepsAll(cards, (c: Card) => c.id != id);
    }
  }

  /** Deleting keeps the relative order of the remaining cards. */
  lemma RemoveByIdKeepsOrder(front: seq<Card>, back: seq<Card>, id: string)
    ensures RemoveById(front + back, id) == RemoveById(front, id) + RemoveById(back, id)
  {
    FilterConcat(front, back, (c: Card) => c.id != id);
  }

  /** Deleting keeps the ids unique. */
  lemma {:induction false} RemoveByIdKeepsUniqueIds(cards: seq<Card>, id: string)
    requires UniqueIds(cards)
    ensures UniqueIds(RemoveById(cards, id))
  {
    if cards != [] {
      var rest := cards[1..];
      assert UniqueIds(rest) by {
        forall i, j | 0 <= i < j < |rest| ensures rest[i].id != rest[j].id {
          assert rest[i] == cards[i + 1] && rest[j] == cards[j + 1];
        }
      }
      RemoveByIdKeepsUniqueIds(rest, id);
      var tail := RemoveById(rest, id);
      if cards[0].id != id {
        assert RemoveById(cards, id) == [cards[0]] + tail;
        HeadNotInRest(cards, id);
        ConsKeepsUniqueIds(cards[0], tail);
      } else {
        assert RemoveById(cards, id) == [] + tail == tail;
      }
    }
  }

  /** With unique ids, what survives a delete from the rest of a list never has the first card's id. */
  lemma HeadNotInRest(cards: seq<Card>, id: string)
    requires UniqueIds(cards) && cards != []
    ensures var tail := RemoveById(cards[1..], id);
            forall j :: 0 <= j < |tail| ==> tail[j].id != cards[0].id
  {
    var rest := cards[1..];
    var tail := RemoveById(rest, id);
    forall j | 0 <= j < |tail| ensures tail[j].id != cards[0].id {
      var k :| 0 <= k < |rest| && rest[k] == tail[j];
      assert cards[k + 1] == tail[j];
    }
  }

  /** A card whose id no card of a list with unique ids has can go in front of it. */
  lemma ConsKeepsUniqueIds(c: Card, cards: seq<Card>)
    requires UniqueIds(cards)
    requires forall j :: 0 <= j < |cards| ==> cards[j].id != c.id
    ensures UniqueIds([c] + cards)
  {
    var r := [c] + cards;
    forall i, j | 0 <= i < j < |r| ensures r[i].id != r[j].id {
      assert r[j] == cards[j - 1];
      if i > 0 {
        assert r[i] == cards[i - 1];
      }
    }
  }

  /** Updating and merging SM-2 data keep the ids, hence keep them unique. */
  lemma {:induction false} UpdatesKeepUniqueIds(cards: seq<Card>, id: string, updates: CardPatch, patch: Sm2Patch)
    requires UniqueIds(cards)
    ensures UniqueIds(UpdateById(cards, id, updates)) && UniqueIds(UpdateSm2ById(cards, id, patch))
  {
  }

  /** With unique ids, `updateSM2Data` changes the SM-2 record of exactly the card with the id and nothing else. */
  lemma {:induction false} UpdateSm2WithUniqueIds(cards: seq<Card>, k: nat, patch: Sm2Patch)
    requires UniqueIds(cards) && k < |cards|
    ensures UpdateSm2ById(cards, cards[k].id, patch) == cards[k := cards[k].(sm2 := MergeSm2(cards[k].sm2, patch))]
  {
    var id := cards[k].id;
    FindByIdAt(cards, id, k);
    var r := UpdateSm2ById(cards, id, patch);
    var expected := cards[k := cards[k].(sm2 := MergeSm2(cards[k].sm2, patch))];
    forall i | 0 <= i < |cards| ensures r[i] == expected[i] {
      if i != k {
        assert cards[i].id != id;
      }
    }
  }

  /**
   * The `vocabulary` state of `useVocabularyManager`. Each screen calls the
   * hook and holds its own copy; one store here stands for all of them.
   */
  class VocabularyStore {
    var vocabulary: seq<Card>

    /** The store once loading has produced `loaded` (loading itself is not modelled). */
    constructor (loaded: seq<Card>)
      ensures vocabulary == loaded
    {
      vocabulary := loaded;
    }

    /** `addVocabulary`: appends one new card with the default SM-2 record and returns it. */
    method AddVocabulary(entry: Entry, now: nat, suffix: string) returns (card: Card)
      modifies this
      ensures card == NewCard(entry, CardId(now, suffix))
      ensures vocabulary == old(vocabulary) + [card]
    {
      card := NewCard(entry, CardId(now, suffix));
      vocabulary := vocabulary + [card];
    }

    /** `addVocabularies`: appends a batch in input order and returns it. */
    method AddVocabularies(entries: seq<Entry>, now: nat, suffixes: seq<string>) returns (batch: seq<Card>)
      requires |suffixes| == |entries|
      modifies this
      ensures batch == Batch(entries, now, suffixes)
      ensures vocabulary == old(vocabulary) + batch
    {
      batch := Batch(entries, now, suffixes);
      vocabulary := vocabulary + batch;
    }

    /** `updateVocabulary`: merges `updates` into every card with the id and returns the first of them. */
    method UpdateVocabulary(id: string, updates: CardPatch) returns (r: Option<Card>)
      modifies this
      ensures vocabulary == UpdateById(old(vocabulary), id, updates)
      ensures r == FindById(vocabulary, id)
      ensures r == match FindById(old(vocabulary), id)
                   case None => None
                   case Some(c) => Some(MergeCard(c, updates))
    {
      FindAfterUpdate(vocabulary, id, updates);
      vocabulary := UpdateById(vocabulary, id, updates);
      r := FindById(vocabulary, id);
    }

    /** `deleteVocabulary`: removes every card with the id; always reports success. */
    method DeleteVocabulary(id: string) returns (ok: bool)
      modifies this
      ensures ok
      ensures vocabulary == RemoveById(old(vocabulary), id)
    {
      vocabulary := RemoveById(vocabulary, id);
      ok := true;
    }

    /** `updateSM2Data`: None and no change for an unknown id, else the SM-2 merge through `updateVocabulary`. */
    method UpdateSm2Data(id: string, patch: Sm2Patch) returns (r: Option<Card>)
      modifies this
      ensures vocabulary == UpdateSm2ById(old(vocabulary), id, patch)
      ensures r == FindById(vocabulary, id)
      ensures r.None? <==> FindById(old(vocabulary), id).None?
    {
      var found := FindById(vocabulary, id);
      if found.None? {
        r := None;
      } else {
        r := UpdateVocabulary(id, Sm2Only(MergeSm2(found.value.sm2, patch)));
      }
    }
  }
}
