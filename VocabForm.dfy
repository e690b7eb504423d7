/**
 * The logic the add and edit screens share: the form record, the
 * validation that fills the error dictionary, the input handler that sets
 * one field and clears that field's error, and the tag-list edits.
 *
 * The error dictionary is a `Record<string, string>` in the source: here a
 * map from the key (`it`, `de`, `notes`, `tags`, `duplicate`, `submit`,
 * `load`, `delete`) to the message shown.
 */
module VocabForm {
  import opened Wrappers
  import opened Seqs
  import opened Text
  import opened Vocabulary
  import opened VocabularyManager

  /** `formData`: the four inputs of the form. */
  datatype FormData = FormData(it: string, de: string, notes: string, tags: seq<string>)

  /** The form as it starts and as a successful add leaves it. */
  const EmptyForm := FormData("", "", "", [])

  /** The keys the dictionary is ever given: the four field names and the four other error kinds. */
  datatype ErrorKey = ItKey | DeKey | NotesKey | TagsKey | DuplicateKey | SubmitKey | LoadKey | DeleteKey

  type Errors = map<ErrorKey, string>

  const ItRequired := "Italienisches Wort ist erforderlich"
  const DeRequired := "Deutsche Übersetzung ist erforderlich"

  /** The dictionary `validateForm` builds by successive assignments, from the three checks' outcomes. */
  function ErrorsFor(itMissing: bool, deMissing: bool, duplicate: bool, duplicateMessage: string): (errors: Errors)
    ensures ItKey in errors <==> itMissing
    ensures DeKey in errors <==> deMissing
    ensures DuplicateKey in errors <==> duplicate
    ensures ItKey in errors ==> errors[ItKey] != ""
    ensures DeKey in errors ==> errors[DeKey] != ""
    ensures DuplicateKey in errors ==> errors[DuplicateKey] == duplicateMessage
    ensures errors.Keys <= {ItKey, DeKey, DuplicateKey}
  {
    var withIt := if itMissing then map[ItKey := ItRequired] else map[];
    var withDe := if deMissing then withIt[DeKey := DeRequired] else withIt;
    if duplicate then withDe[DuplicateKey := duplicateMessage] else withDe
  }

  /**
   * `validateForm`: an error for each of `it` and `de` that trims to
   * nothing, and, when both are present, a duplicate error if some other
   * card (not `excludeId`) has the trimmed `it` or the trimmed `de`.
   */
  function Validate(form: FormData, cards: seq<Card>, excludeId: Option<string>, duplicateMessage: string): (errors: Errors)
    ensures ItKey in errors <==> AllWhitespace(form.it)
    ensures DeKey in errors <==> AllWhitespace(form.de)
    ensures DuplicateKey in errors <==>
              !AllWhitespace(form.it) && !AllWhitespace(form.de)
              && CheckDuplicate(cards, Trim(form.it), Trim(form.de), excludeId)
    ensures errors.Keys <= {ItKey, DeKey, DuplicateKey}
    ensures ItKey in errors ==> errors[ItKey] != ""
    ensures DeKey in errors ==> errors[DeKey] != ""
    ensures DuplicateKey in errors && duplicateMessage != "" ==> errors[DuplicateKey] != ""
  {
    TrimEmptyIff(form.it);
    TrimEmptyIff(form.de);
    var it, de := Trim(form.it), Trim(form.de);
    ErrorsFor(it == [], de == [], it != [] && de != [] && CheckDuplicate(cards, it, de, excludeId), duplicateMessage)
  }

  /** The form passes validation: both words present, and no other card has either of them. */
  predicate Acceptable(form: FormData, cards: seq<Card>, excludeId: Option<string>) {
    && !AllWhitespace(form.it) && !AllWhitespace(form.de)
    && forall i :: 0 <= i < |cards| && Some(cards[i].id) != excludeId ==>
         cards[i].it != Trim(form.it) && cards[i].de != Trim(form.de)
  }

  /** `validateForm` returns true (no key recorded) exactly for an acceptable form. */
  lemma ValidIffNoErrors(form: FormData, cards: seq<Card>, excludeId: Option<string>, duplicateMessage: string)
    ensures Validate(form, cards, excludeId, duplicateMessage) == map[] <==> Acceptable(form, cards, excludeId)
  {
    var errors := Validate(form, cards, excludeId, duplicateMessage);
    var it, de := Trim(form.it), Trim(form.de);
    var unique := forall i :: 0 <= i < |cards| && Some(cards[i].id) != excludeId ==> cards[i].it != it && cards[i].de != de;
    assert unique <==> !CheckDuplicate(cards, it, de, excludeId);
    if ItKey !in errors && DeKey !in errors && DuplicateKey !in errors {
      assert errors.Keys == {};
    }
  }

  /** What was trimmed is stored: the payload of a successful submit. */
  function TrimmedEntry(form: FormData): (e: Entry)
    ensures e.it == Trim(form.it) && e.de == Trim(form.de) && e.notes == Some(Trim(form.notes)) && e.tags == Some(form.tags)
  {
    Entry(Trim(form.it), Trim(form.de), Some(Trim(form.notes)), Some(form.tags))
  }

  /** An accepted form's payload has both words, each without surrounding whitespace. */
  lemma AcceptedEntryIsTrimmed(form: FormData, cards: seq<Card>, excludeId: Option<string>)
    requires Acceptable(form, cards, excludeId)
    ensures var e := TrimmedEntry(form);
            && e.it != [] && e.de != []
            && !IsWhitespace(e.it[0]) && !IsWhitespace(e.it[|e.it| - 1])
            && !IsWhitespace(e.de[0]) && !IsWhitespace(e.de[|e.de| - 1])
            && Trim(e.it) == e.it && Trim(e.de) == e.de
  {
    var it, de := Trim(form.it), Trim(form.de);
    TrimEmptyIff(form.it);
    TrimEmptyIff(form.de);
    assert it != [] && de != [];
    TrimIsMiddle(form.it);
    TrimIsMiddle(form.de);
    TrimIdempotent(form.it);
    TrimIdempotent(form.de);
  }

  /** One call of `handleInputChange`: the field it names and the value it sets. */
  datatype Change = ItChange(it: string) | DeChange(de: string) | NotesChange(notes: string) | TagsChange(tags: seq<string>)

  /** The error key of the changed field. */
  function KeyOf(c: Change): ErrorKey {
    match c
    case ItChange(_) => ItKey
    case DeChange(_) => DeKey
    case NotesChange(_) => NotesKey
    case TagsChange(_) => TagsKey
  }

  /** `{...prev, [field]: value}`: only the named field takes the new value. */
  function ApplyChange(form: FormData, c: Change): (r: FormData)
    ensures c.ItChange? ==> r == FormData(c.it, form.de, form.notes, form.tags)
    ensures c.DeChange? ==> r == FormData(form.it, c.de, form.notes, form.tags)
    ensures c.NotesChange? ==> r == FormData(form.it, form.de, c.notes, form.tags)
    ensures c.TagsChange? ==> r == FormData(form.it, form.de, form.notes, c.tags)
  {
    match c
    case ItChange(v) => form.(it := v)
    case DeChange(v) => form.(de := v)
    case NotesChange(v) => form.(notes := v)
    case TagsChange(v) => form.(tags := v)
  }

  /**
   * Two changes of one field: the later value wins. Changes of two
   * different fields do not interfere, so their order does not matter.
   */
  lemma ApplyChangeLaws(form: FormData, c: Change, d: Change)
    ensures KeyOf(c) == KeyOf(d) ==> ApplyChange(ApplyChange(form, c), d) == ApplyChange(form, d)
    ensures KeyOf(c) != KeyOf(d) ==> ApplyChange(ApplyChange(form, c), d) == ApplyChange(ApplyChange(form, d), c)
  {
  }

  /** The error update of `handleInputChange`: the key's entry goes if it holds a (non-empty) message. */
  function ClearError(errors: Errors, key: ErrorKey): (r: Errors)
    ensures forall k :: k != key ==> (k in r <==> k in errors) && (k in r ==> r[k] == errors[k])
    ensures key in r <==> key in errors && errors[key] == ""
    ensures key in r ==> r[key] == ""
  {
    if key in errors && errors[key] != "" then errors - {key} else errors
  }

  /** Clearing a key twice is clearing it once. */
  lemma ClearErrorIdempotent(errors: Errors, key: ErrorKey)
    ensures ClearError(ClearError(errors, key), key) == ClearError(errors, key)
  {
  }

  /** The tag `handleAddTag` would append, if any: the trimmed input when non-empty and not yet listed. */
  function TagToAdd(newTag: string, tags: seq<string>): (t: Option<string>)
    ensures t.Some? <==> !AllWhitespace(newTag) && Trim(newTag) !in tags
    ensures t.Some? ==> t.value == Trim(newTag) && t.value != [] && t.value !in tags
  {
    TrimEmptyIff(newTag);
    var trimmed := Trim(newTag);
    if trimmed != [] && trimmed !in tags then Some(trimmed) else None
  }

  /** Appending the tag `TagToAdd` offers keeps a duplicate-free list duplicate-free. */
  lemma AddedTagKeepsNoDuplicates(newTag: string, tags: seq<string>)
    requires NoDuplicates(tags) && TagToAdd(newTag, tags).Some?
    ensures NoDuplicates(tags + [TagToAdd(newTag, tags).value])
  {
    var t := TagToAdd(newTag, tags).value;
    var r := tags + [t];
    forall i, j | 0 <= i < j < |r| ensures r[i] != r[j] {
      if j == |tags| {
        assert r[i] == tags[i];
      } else {
        assert r[i] == tags[i] && r[j] == tags[j];
      }
    }
  }

  /** The tag list `handleRemoveTag` sets: every tag other than the removed one, in order. */
  function RemoveTag(tags: seq<string>, tag: string): (r: seq<string>)
    ensures tag !in r
    ensures forall i :: 0 <= i < |tags| && tags[i] != tag ==> tags[i] in r
    ensures forall t :: t in r ==> t in tags
  {
    var r := Filter(tags, (t: string) => t != tag);
    assert forall i :: 0 <= i < |r| ==> r[i] != tag && r[i] in tags;
    r
  }

  /** Removal keeps the other tags in order, and never introduces a duplicate. */
  lemma RemoveTagLaws(front: seq<string>, back: seq<string>, tag: string)
    ensures RemoveTag(front + back, tag) == RemoveTag(front, tag) + RemoveTag(back, tag)
    ensures NoDuplicates(front + back) ==> NoDuplicates(RemoveTag(front + back, tag))
  {
    FilterConcat(front, back, (t: string) => t != tag);
    if NoDuplicates(front + back) {
      FilterNoDuplicates(front + back, (t: string) => t != tag);
    }
  }

  /** Removing a tag that is not listed changes nothing; removing twice is removing once. */
  lemma RemoveTagIdentities(tags: seq<string>, tag: string)
    ensures tag !in tags ==> RemoveTag(tags, tag) == tags
    ensures RemoveTag(RemoveTag(tags, tag), tag) == RemoveTag(tags, tag)
  {
    if tag !in tags {
      FilterKeepsAll(tags, (t: string) => t != tag);
    }
    FilterIdempotent(tags, (t: string) => t != tag);
  }
}
