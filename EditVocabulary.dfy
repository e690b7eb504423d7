/**
 * The edit screen of one card, named by `vocabId`: loading fills the form
 * from the stored card, submit validates against every other card and
 * merges the trimmed fields into the store, delete removes the card and
 * hands control back. The save button is enabled only while the form
 * differs from the card as loaded.
 */
module EditVocabulary {
  import opened Wrappers
  import opened Seqs
  import opened Text
  import opened Vocabulary
  import opened VocabularyManager
  import opened VocabForm

  const EditDuplicate := "Eine andere Vokabel mit diesen Werten existiert bereits"
  const NotFound := "Vokabel nicht gefunden"

  /** The form filled from a card: missing notes become `''`, missing tags `[]`. */
  function FormOf(c: Card): (form: FormData)
    ensures form.it == c.it && form.de == c.de
    ensures form.notes == (if c.notes.Some? then c.notes.value else "")
    ensures form.tags == (if c.tags.Some? then c.tags.value else [])
  {
    FormData(c.it, c.de, c.notes.GetOr(""), c.tags.GetOr([]))
  }

  /**
   * `hasChanges`: a card was loaded and some field of the form differs
   * from it (tags compared as whole lists, as their JSON renderings are).
   */
  predicate HasChanges(form: FormData, original: Option<Card>): (changed: bool)
    ensures original.None? ==> !changed
    ensures original.Some? && form == FormOf(original.value) ==> !changed
  {
    && original.Some?
    && (|| form.it != original.value.it
        || form.de != original.value.de
        || form.notes != original.value.notes.GetOr("")
        || form.tags != original.value.tags.GetOr([]))
  }

  /** Once a card is loaded, the form has changes exactly when it is not the loaded form. */
  lemma HasChangesIff(form: FormData, c: Card)
    ensures HasChanges(form, Some(c)) <==> form != FormOf(c)
  {
  }

  /** The save button's `disabled`: while submitting, or with nothing changed. */
  predicate SubmitDisabled(isSubmitting: bool, form: FormData, original: Option<Card>): (disabled: bool)
    ensures isSubmitting ==> disabled
    ensures original.None? ==> disabled
    ensures !isSubmitting && original.Some? ==> (disabled <==> form == FormOf(original.value))
  {
    isSubmitting || !HasChanges(form, original)
  }

  /** Before any card is loaded, and right after one is, saving is disabled. */
  lemma SaveDisabledUntilEdited(c: Card, form: FormData, isSubmitting: bool)
    ensures SubmitDisabled(isSubmitting, form, None)
    ensures SubmitDisabled(isSubmitting, FormOf(c), Some(c))
    ensures !isSubmitting && form != FormOf(c) ==> !SubmitDisabled(isSubmitting, form, Some(c))
  {
    HasChangesIff(form, c);
    HasChangesIff(FormOf(c), c);
  }

  /** The patch a submit sends: trimmed words and notes, the tags as listed, no SM-2 change. */
  function SubmitPatch(form: FormData): (p: CardPatch)
    ensures p.it.Some? && p.de.Some? && p.notes.Some? && p.tags.Some?
    ensures p.sm2.None?
  {
    CardPatch(Some(Trim(form.it)), Some(Trim(form.de)), Some(Trim(form.notes)), Some(form.tags), None)
  }

  /**
   * A successful submit rewrites the card's words, notes and tags and keeps
   * its id and SM-2 record; a card loaded back from the result differs from
   * the form at most by the whitespace trimmed away.
   */
  lemma SubmitKeepsSchedule(form: FormData, c: Card)
    ensures var r := MergeCard(c, SubmitPatch(form));
            && r.id == c.id && r.sm2 == c.sm2
            && r.it == Trim(form.it) && r.de == Trim(form.de)
            && r.notes == Some(Trim(form.notes)) && r.tags == Some(form.tags)
    ensures FormOf(MergeCard(c, SubmitPatch(form))) == FormData(Trim(form.it), Trim(form.de), Trim(form.notes), form.tags)
  {
  }

  /**
   * Saving the form exactly as it was loaded writes the card back unchanged,
   * provided the card already has notes and tags and its words and notes
   * carry no surrounding whitespace. A card without notes or tags gets `''`
   * and `[]` written into them.
   */
  lemma SubmitUnchangedFormKeepsCard(c: Card)
    ensures var r := MergeCard(c, SubmitPatch(FormOf(c)));
            && r.id == c.id && r.sm2 == c.sm2
            && (r == c <==>
                  c.notes.Some? && c.tags.Some? && Trim(c.it) == c.it && Trim(c.de) == c.de && Trim(c.notes.value) == c.notes.value)
            && r.notes == Some(Trim(c.notes.GetOr(""))) && r.tags == Some(c.tags.GetOr([]))
  {
  }

  /** Where control goes after a delete. */
  datatype Callback = OnDelete | OnBack

  class EditScreen {
    const vocabId: string
    var originalVocab: Option<Card>
    var formData: FormData
    var errors: Errors
    var newTag: string
    var showSuccess: bool

    /** The screen before loading: an empty form and no card. */
    constructor (id: string)
      ensures vocabId == id && originalVocab.None?
      ensures formData == EmptyForm && errors == map[] && newTag == "" && !showSuccess
    {
      vocabId := id;
      originalVocab := None;
      formData := EmptyForm;
      errors := map[];
      newTag := "";
      showSuccess := false;
    }

    /**
     * The load effect: nothing while the store is loading; then, for a
     * stored card, the card becomes the original and fills the form and
     * only the load error is dropped; for an unknown id the errors become
     * the single load error.
     */
    method Load(store: VocabularyStore, isLoading: bool)
      modifies this
      ensures isLoading ==> originalVocab == old(originalVocab) && formData == old(formData) && errors == old(errors)
      ensures !isLoading ==> match FindById(store.vocabulary, vocabId)
              case Some(c) => originalVocab == Some(c) && formData == FormOf(c) && errors == old(errors) - {LoadKey}
              case None => originalVocab == old(originalVocab) && formData == old(formData) && errors == map[LoadKey := NotFound]
      ensures newTag == old(newTag) && showSuccess == old(showSuccess)
    {
      if isLoading {
        return;
      }
      var vocab := FindById(store.vocabulary, vocabId);
      if vocab.Some? {
        originalVocab := vocab;
        formData := FormOf(vocab.value);
        errors := errors - {LoadKey};
      } else {
        errors := map[LoadKey := NotFound];
      }
    }

    /** `handleInputChange`: sets one field and drops that field's error. */
    method HandleInputChange(c: Change)
      modifies this
      ensures formData == ApplyChange(old(formData), c)
      ensures errors == ClearError(old(errors), KeyOf(c))
      ensures originalVocab == old(originalVocab) && newTag == old(newTag) && showSuccess == old(showSuccess)
    {
      formData := ApplyChange(formData, c);
      errors := ClearError(errors, KeyOf(c));
    }

    /** The tag input's `onChange`. */
    method HandleNewTagChange(value: string)
      modifies this
      ensures newTag == value
      ensures originalVocab == old(originalVocab) && formData == old(formData) && errors == old(errors) && showSuccess == old(showSuccess)
    {
      newTag := value;
    }

    /** `handleAddTag`: as on the add screen, the trimmed new tag is appended unless blank or listed. */
    method HandleAddTag()
      modifies this
      ensures match TagToAdd(old(newTag), old(formData.tags))
              case None => formData == old(formData) && errors == old(errors) && newTag == old(newTag)
              case Some(t) =>
                && formData == ApplyChange(old(formData), TagsChange(old(formData.tags) + [t]))
                && errors == ClearError(old(errors), TagsKey) && newTag == ""
      ensures originalVocab == old(originalVocab) && showSuccess == old(showSuccess)
      ensures NoDuplicates(old(formData.tags)) ==> NoDuplicates(formData.tags)
    {
      var t := TagToAdd(newTag, formData.tags);
      if t.Some? {
        if NoDuplicates(formData.tags) {
          AddedTagKeepsNoDuplicates(newTag, formData.tags);
        }
        HandleInputChange(TagsChange(formData.tags + [t.value]));
        newTag := "";
      }
    }

    /** `handleRemoveTag`: drops every occurrence of the tag, keeping the order of the rest. */
    method HandleRemoveTag(tag: string)
      modifies this
      ensures formData == ApplyChange(old(formData), TagsChange(RemoveTag(old(formData.tags), tag)))
      ensures errors == ClearError(old(errors), TagsKey)
      ensures originalVocab == old(originalVocab) && newTag == old(newTag) && showSuccess == old(showSuccess)
      ensures NoDuplicates(old(formData.tags)) ==> NoDuplicates(formData.tags)
    {
      RemoveTagLaws(formData.tags, [], tag);
      assert formData.tags + [] == formData.tags;
      HandleInputChange(TagsChange(RemoveTag(formData.tags, tag)));
    }

    /** `validateForm`: records the validation errors, the card's own id excluded, and reports whether there are none. */
    method ValidateForm(cards: seq<Card>) returns (valid: bool)
      modifies this
      ensures errors == Validate(formData, cards, Some(vocabId), EditDuplicate)
      ensures valid <==> errors == map[]
      ensures formData == old(formData) && originalVocab == old(originalVocab)
      ensures newTag == old(newTag) && showSuccess == old(showSuccess)
    {
      errors := Validate(formData, cards, Some(vocabId), EditDuplicate);
      valid := errors == map[];
    }

    /**
     * `handleSubmit`: records the validation errors, checking duplicates
     * against every card but this one; when there are none, merges the
     * trimmed fields into the stored card and shows the notice. The write
     * gives the store a new list, so `getVocabularyById` changes and the
     * load effect runs again (`Load`): the merged card becomes the original
     * and refills the form, which then shows no changes. `ValidIffNoErrors`
     * says which forms record no error.
     */
    method HandleSubmit(store: VocabularyStore, isLoading: bool) returns (updated: Option<Card>)
      modifies this, store
      ensures var e := Validate(old(formData), old(store.vocabulary), Some(vocabId), EditDuplicate);
              e != map[] ==>
                && errors == e && updated.None?
                && store.vocabulary == old(store.vocabulary) && showSuccess == old(showSuccess)
                && formData == old(formData) && originalVocab == old(originalVocab)
      ensures var e := Validate(old(formData), old(store.vocabulary), Some(vocabId), EditDuplicate);
              e == map[] ==>
                && store.vocabulary == UpdateById(old(store.vocabulary), vocabId, SubmitPatch(old(formData)))
                && showSuccess
                && updated == (match FindById(old(store.vocabulary), vocabId)
                               case None => None
                               case Some(c) => Some(MergeCard(c, SubmitPatch(old(formData)))))
                && (isLoading || updated.None? ==> formData == old(formData) && originalVocab == old(originalVocab))
                && (isLoading ==> errors == map[])
                && (!isLoading && updated.None? ==> errors == map[LoadKey := NotFound])
                && (!isLoading && updated.Some? ==>
                      && originalVocab == updated && formData == FormOf(updated.value) && errors == map[]
                      && !HasChanges(formData, originalVocab))
      ensures newTag == old(newTag)
    {
      var valid := ValidateForm(store.vocabulary);
      if !valid {
        return None;
      }
      updated := SaveChanges(store, vocabId, SubmitPatch(formData));
      showSuccess := true;
      Load(store, isLoading);
      if updated.Some? {
        HasChangesIff(formData, updated.value);
      }
    }

    /** The `updateVocabulary` call of a submit, with the card it reads back. */
    static method SaveChanges(store: VocabularyStore, id: string, patch: CardPatch) returns (updated: Option<Card>)
      modifies store
      ensures store.vocabulary == UpdateById(old(store.vocabulary), id, patch)
      ensures updated == match FindById(old(store.vocabulary), id)
                         case None => None
                         case Some(c) => Some(MergeCard(c, patch))
      ensures updated == FindById(store.vocabulary, id)
    {
      updated := store.UpdateVocabulary(id, patch);
    }

    /** The timer two seconds after a successful submit: hides the notice and says whether `onSuccess` runs. */
    method SuccessTimerFires(hasOnSuccess: bool) returns (callsOnSuccess: bool)
      modifies this
      ensures !showSuccess && callsOnSuccess == hasOnSuccess
      ensures originalVocab == old(originalVocab) && formData == old(formData) && errors == old(errors) && newTag == old(newTag)
    {
      showSuccess := false;
      callsOnSuccess := hasOnSuccess;
    }

    /**
     * `handleDelete`: removes the card from the store, then calls
     * `onDelete` when one is given and `onBack` in every case.
     */
    method HandleDelete(store: VocabularyStore, hasOnDelete: bool) returns (calls: seq<Callback>)
      modifies store
      ensures store.vocabulary == RemoveById(old(store.vocabulary), vocabId)
      ensures calls == (if hasOnDelete then [OnDelete, OnBack] else [OnBack])
    {
      var ok := store.DeleteVocabulary(vocabId);
      calls := if hasOnDelete then [OnDelete] else [];
      calls := calls + [OnBack];
    }
  }
}
