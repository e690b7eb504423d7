/**
 * The add screen: a form whose submit validates against the collection,
 * appends the trimmed entry to the store, shows the success notice and
 * clears the form. The clock reading and the random id suffix of the new
 * card are parameters of the submit.
 */
module AddVocabulary {
  import opened Wrappers
  import opened Seqs
  import opened Text
  import opened Vocabulary
  import opened VocabularyManager
  import opened VocabForm

  const AddDuplicate := "Eine Vokabel mit diesen Werten existiert bereits"

  class AddScreen {
    var formData: FormData
    var errors: Errors
    var newTag: string
    var showSuccess: bool

    /** The screen as first shown: an empty form, no errors, no notice. */
    constructor ()
      ensures formData == EmptyForm && errors == map[] && newTag == "" && !showSuccess
    {
      formData := EmptyForm;
      errors := map[];
      newTag := "";
      showSuccess := false;
    }

    /** `handleInputChange`: sets one field and drops that field's error. */
    method HandleInputChange(c: Change)
      modifies this
      ensures formData == ApplyChange(old(formData), c)
      ensures errors == ClearError(old(errors), KeyOf(c))
      ensures newTag == old(newTag) && showSuccess == old(showSuccess)
    {
      formData := ApplyChange(formData, c);
      errors := ClearError(errors, KeyOf(c));
    }

    /** The tag input's `onChange`. */
    method HandleNewTagChange(value: string)
      modifies this
      ensures newTag == value
      ensures formData == old(formData) && errors == old(errors) && showSuccess == old(showSuccess)
    {
      newTag := value;
    }

    /**
     * `handleAddTag`: appends the trimmed tag and empties the tag input,
     * unless the tag is blank or already listed, when nothing changes.
     * A duplicate-free tag list stays duplicate-free.
     */
    method HandleAddTag()
      modifies this
      ensures match TagToAdd(old(newTag), old(formData.tags))
              case None => formData == old(formData) && errors == old(errors) && newTag == old(newTag)
              case Some(t) =>
                && formData == ApplyChange(old(formData), TagsChange(old(formData.tags) + [t]))
                && errors == ClearError(old(errors), TagsKey) && newTag == ""
      ensures showSuccess == old(showSuccess)
      ensures NoDuplicates(old(formData.tags)) ==> NoDuplicates(formData.tags)
    {
      var t := TagToAdd(newTag, formData.tags);
      if t.Some? {
        if NoDuplicates(formData.tags) {
          AddedTagKeepsNoDuplicates(newTag, formData.tags);
        }
        HandleInputChange(TagsChange(formData.tags + [t.value]));
        newTag := "";
      }
    }

    /** `handleRemoveTag`: drops every occurrence of the tag, keeping the order of the rest. */
    method HandleRemoveTag(tag: string)
      modifies this
      ensures formData == ApplyChange(old(formData), TagsChange(RemoveTag(old(formData.tags), tag)))
      ensures errors == ClearError(old(errors), TagsKey)
      ensures newTag == old(newTag) && showSuccess == old(showSuccess)
      ensures NoDuplicates(old(formData.tags)) ==> NoDuplicates(formData.tags)
    {
      RemoveTagLaws(formData.tags, [], tag);
      assert formData.tags + [] == formData.tags;
      HandleInputChange(TagsChange(RemoveTag(formData.tags, tag)));
    }

    /** `validateForm`: records the validation errors and reports whether there are none. */
    method ValidateForm(cards: seq<Card>) returns (valid: bool)
      modifies this
      ensures errors == Validate(formData, cards, None, AddDuplicate)
      ensures valid <==> errors == map[]
      ensures formData == old(formData) && newTag == old(newTag) && showSuccess == old(showSuccess)
    {
      errors := Validate(formData, cards, None, AddDuplicate);
      valid := errors == map[];
    }

    /**
     * `handleSubmit`: records the validation errors; when there are none,
     * adds the trimmed entry (notes trimmed, tags as listed) to the store,
     * shows the notice and empties the form. An invalid form leaves the
     * store and the form as they were. `ValidIffNoErrors` says which forms
     * record no error.
     */
    method HandleSubmit(store: VocabularyStore, now: nat, suffix: string) returns (added: Option<Card>)
      modifies this, store
      ensures errors == Validate(old(formData), old(store.vocabulary), None, AddDuplicate)
      ensures added.Some? <==> errors == map[]
      ensures added.None? ==> store.vocabulary == old(store.vocabulary) && formData == old(formData) && showSuccess == old(showSuccess)
      ensures added.Some? ==>
                && added.value == NewCard(TrimmedEntry(old(formData)), CardId(now, suffix))
                && store.vocabulary == old(store.vocabulary) + [added.value]
                && formData == EmptyForm && showSuccess
      ensures newTag == old(newTag)
    {
      var valid := ValidateForm(store.vocabulary);
      if !valid {
        return None;
      }
      var card := store.AddVocabulary(TrimmedEntry(formData), now, suffix);
      showSuccess := true;
      formData := EmptyForm;
      added := Some(card);
    }

    /** The timer two seconds after a successful submit: hides the notice and says whether `onSuccess` runs. */
    method SuccessTimerFires(hasOnSuccess: bool) returns (callsOnSuccess: bool)
      modifies this
      ensures !showSuccess && callsOnSuccess == hasOnSuccess
      ensures formData == old(formData) && errors == old(errors) && newTag == old(newTag)
    {
      showSuccess := false;
      callsOnSuccess := hasOnSuccess;
    }
  }

  /** A successful submit leaves a card another add of the same words would be refused for. */
  lemma AddedCardBlocksDuplicate(cards: seq<Card>, form: FormData, now: nat, suffix: string, again: FormData)
    requires !AllWhitespace(again.it) && !AllWhitespace(again.de)
    requires Trim(again.it) == Trim(form.it) || Trim(again.de) == Trim(form.de)
    ensures !Acceptable(again, cards + [NewCard(TrimmedEntry(form), CardId(now, suffix))], None)
  {
    var after := cards + [NewCard(TrimmedEntry(form), CardId(now, suffix))];
    assert after[|cards|].it == Trim(form.it) && after[|cards|].de == Trim(form.de);
  }
}
