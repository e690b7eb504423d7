/**
 * The vocabulary card and its SM-2 record, the partial records that the
 * store merges into them (TypeScript `Partial<...>` and object spread),
 * the defaults a new card gets, and the shape of a generated card id.
 */
module Vocabulary {
  import opened Wrappers
  import opened Text

  /**
   * The SM-2 scheduling state of one card. Timestamps are integers; a
   * missing `nextReview`, `lastReview` or `quality` is `null` in the source.
   */
  datatype Sm2Data = Sm2Data(
    easeFactor: real,
    interval: int,
    repetitions: int,
    nextReview: Option<int>,
    lastReview: Option<int>,
    quality: Option<int>)

  /** `Partial<Sm2Data>`: each key may be absent (None) or present with a value. */
  datatype Sm2Patch = Sm2Patch(
    easeFactor: Option<real>,
    interval: Option<int>,
    repetitions: Option<int>,
    nextReview: Option<Option<int>>,
    lastReview: Option<Option<int>>,
    quality: Option<Option<int>>)

  /** One vocabulary card: an Italian word `it`, its German translation `de`, optional notes and tags. */
  datatype Card = Card(
    id: string,
    it: string,
    de: string,
    notes: Option<string>,
    tags: Option<seq<string>>,
    sm2: Sm2Data)

  /** `Omit<VocabularyCard, 'id' | 'sm2'>`: what a caller supplies for a new card. */
  datatype Entry = Entry(it: string, de: string, notes: Option<string>, tags: Option<seq<string>>)

  /** `Partial<Omit<VocabularyCard, 'id'>>`: the updates `updateVocabulary` merges into a card. */
  datatype CardPatch = CardPatch(
    it: Option<string>,
    de: Option<string>,
    notes: Option<string>,
    tags: Option<seq<string>>,
    sm2: Option<Sm2Data>)

  /** The SM-2 record every new card starts with. */
  const DefaultSm2 := Sm2Data(2.5, 1, 0, None, None, None)

  const EmptySm2Patch := Sm2Patch(None, None, None, None, None, None)

  /**
   * `{...base, ...patch}` on SM-2 records: the patch's keys win. With a
   * `repetitions` key the merged record's learned state is the patch's;
   * without one it stays that of `base`, whatever the other keys say.
   */
  function MergeSm2(base: Sm2Data, patch: Sm2Patch): (r: Sm2Data)
    ensures patch.repetitions.None? ==> r.repetitions == base.repetitions
    ensures patch.repetitions.Some? ==> r.repetitions == patch.repetitions.value
    ensures patch.nextReview.None? ==> r.nextReview == base.nextReview
    ensures patch == EmptySm2Patch ==> r == base
  {
    Sm2Data(
      Override(base.easeFactor, patch.easeFactor),
      Override(base.interval, patch.interval),
      Override(base.repetitions, patch.repetitions),
      Override(base.nextReview, patch.nextReview),
      Override(base.lastReview, patch.lastReview),
      Override(base.quality, patch.quality))
  }

  /** The keys of `later` win over those of `earlier`: `{...earlier, ...later}` on patches. */
  function CombineSm2(earlier: Sm2Patch, later: Sm2Patch): Sm2Patch {
    Sm2Patch(
      if later.easeFactor.Some? then later.easeFactor else earlier.easeFactor,
      if later.interval.Some? then later.interval else earlier.interval,
      if later.repetitions.Some? then later.repetitions else earlier.repetitions,
      if later.nextReview.Some? then later.nextReview else earlier.nextReview,
      if later.lastReview.Some? then later.lastReview else earlier.lastReview,
      if later.quality.Some? then later.quality else earlier.quality)
  }

  /** Merging an empty patch changes nothing; merging one patch twice is merging it once. */
  lemma MergeSm2Laws(s: Sm2Data, p: Sm2Patch)
    ensures MergeSm2(s, EmptySm2Patch) == s
    ensures MergeSm2(MergeSm2(s, p), p) == MergeSm2(s, p)
  {
  }

  /** Two successive merges are one merge of the combined patch. */
  lemma MergeSm2Compose(s: Sm2Data, p: Sm2Patch, q: Sm2Patch)
    ensures MergeSm2(MergeSm2(s, p), q) == MergeSm2(s, CombineSm2(p, q))
  {
  }

  /** `{...card, ...updates}`: the id is never part of the updates. */
  function MergeCard(c: Card, u: CardPatch): (r: Card)
    ensures r.id == c.id
  {
    Card(
      c.id,
      Override(c.it, u.it),
      Override(c.de, u.de),
      if u.notes.Some? then u.notes else c.notes,
      if u.tags.Some? then u.tags else c.tags,
      Override(c.sm2, u.sm2))
  }

  /** The entry a card was created from. */
  function EntryOf(c: Card): Entry {
    Entry(c.it, c.de, c.notes, c.tags)
  }

  /** `{...entry, id, sm2: default}`. */
  function NewCard(e: Entry, id: string): (c: Card)
    ensures c.id == id && c.sm2 == DefaultSm2 && EntryOf(c) == e
  {
    Card(id, e.it, e.de, e.notes, e.tags, DefaultSm2)
  }

  const IdPrefix := "custom-"

  /**
   * `custom-${stamp}-${suffix}`: the id of a new card, where `stamp` is the
   * millisecond clock reading and `suffix` the random base-36 part.
   */
  function CardId(stamp: nat, suffix: string): (id: string)
    ensures |id| == |IdPrefix| + |Decimal(stamp)| + 1 + |suffix|
    ensures id[..|IdPrefix|] == IdPrefix
    ensures var mid := id[|IdPrefix|..|IdPrefix| + |Decimal(stamp)|];
            AllDigits(mid) && ParseDecimal(mid) == stamp
    ensures id[|IdPrefix| + |Decimal(stamp)|] == '-' && id[|IdPrefix| + |Decimal(stamp)| + 1..] == suffix
  {
    DecimalRoundTrip(stamp);
    var id := IdPrefix + Decimal(stamp) + "-" + suffix;
    assert id[|IdPrefix|..|IdPrefix| + |Decimal(stamp)|] == Decimal(stamp);
    id
  }

  /** The clock reading and the suffix can be read back from an id: equal ids come from equal parts. */
  lemma CardIdInjective(a: nat, sa: string, b: nat, sb: string)
    requires CardId(a, sa) == CardId(b, sb)
    ensures a == b && sa == sb
  {
    var x, da, db := CardId(a, sa), Decimal(a), Decimal(b);
    var n := |IdPrefix|;
    // The first '-' after the prefix ends the digits, so both renderings have one length.
    assert x == IdPrefix + da + "-" + sa && x == IdPrefix + db + "-" + sb;
    assert x[n + |da|] == '-' && forall k :: n <= k < n + |da| ==> x[k] == da[k - n];
    assert x[n + |db|] == '-' && forall k :: n <= k < n + |db| ==> x[k] == db[k - n];
    assert |da| == |db|;
    assert da == x[n..n + |da|] == db;
    DecimalInjective(a, b);
    assert sa == x[n + |da| + 1..] == sb;
  }
}
