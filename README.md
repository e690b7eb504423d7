# Italian–German vocabulary trainer: store, quiz and forms

This project models the core of a vocabulary trainer for Italian and German. It has five parts.

- **Card store.** The store holds every card: an Italian word `it`, its German translation `de`, optional notes and tags, and an SM-2 scheduling record. The store appends new cards with a default record, merges edits into cards by id, deletes by id, merges partial SM-2 records, looks cards up, detects duplicates and reports summary statistics.
- **Quiz screen.** It picks the cards of a session by mode (due, new, review, random), or takes a list of cards to repeat. Each quality rating is a step of a small state machine: current index, completion, answer visibility, running statistics and recorded results. A finished session yields a list of wrong answers and a count per quality.
- **Quiz selection screen.** It splits the collection into new and review cards by repetition count. It cuts the chosen list to the configured number of words, and disables every mode button whose list is empty.
- **Add screen.** This is a form. It validates the input against the collection, appends the trimmed entry, and edits the form's list of tags.
- **Edit screen.** The same form, filled from one stored card. It validates against every card except this one, merges the changes into the card, deletes the card, and enables saving only when the form differs from the card as loaded.

The modules follow the source files:

| module | models |
|---|---|
| `Wrappers` | optional values; the `{...base, ...patch}` override of one key |
| `Seqs` | `filter`, `map`, `find`, `some` and `slice` on sequences, and their laws |
| `Text` | ECMAScript `String.prototype.trim`; the decimal rendering `${n}` |
| `Vocabulary` | the card and SM-2 record types, their merges, the default record and the card id format |
| `VocabularyManager` | `useVocabularyManager`: pure list functions plus the class `VocabularyStore`, whose methods replace its `vocabulary` field |
| `QuizSelection` | `QuizSelection.tsx`: the filters, the truncation and the button guards, as functions |
| `Quiz` | `Quiz.tsx`: the session selection; the rating step as a function `RatingStep` with its invariant; the class `QuizSession`, whose methods update the session's fields; the summaries; how the screen behaves as written |
| `VocabForm` | validation, input handling and tag editing shared by both forms |
| `AddVocabulary`, `EditVocabulary` | the two forms as classes whose methods update `formData`, `errors`, `newTag` and `showSuccess`, and call the store |

Some functions are not part of this model. They come from the SM-2 utility modules:

- `calculateSM2` is a parameter `calculate: (Card, int) -> Option<Sm2Patch>`, where None stands for a call that throws.
- `getDueVocabulary` and `sortByPriority` are parameters `dueOf` and `sortOf` of type `seq<Card> -> seq<Card>`.
- `QUALITY_COLORS` is a sequence parameter `colors`.

Where a property needs it, `sortOf` and the random shuffle are assumed to reorder their input (`QuizSelection.Permutes`). The clock reading `now` and the random id suffix are parameters of the store methods. The random shuffle of a session is a parameter `shuffle`.

Where the code's behaviour differs from its description, the model follows the code:

- The random button of the selection screen hands on the stored list unshuffled, cut to `wordsPerQuiz`.
- The second argument of `onStartQuiz` is the review direction (`'it-de' | 'de-it' | 'random'`), not the quiz mode.
- `updateSM2Data` merges the patch into the SM-2 record of the *first* card with the id. Every card with that id then receives that merged record.
- `getStats` counts a card as due only if its `nextReview` is truthy, so a timestamp of 0 counts as none.

## Model

| member | source | states |
|---|---|---|
| Text.TrimIsMiddle | src/components/AddVocabulary.tsx:32-45 | `trim()` returns the middle slice of its input with only whitespace on either side. A non-empty result starts and ends with a non-whitespace character |
| Text.TrimStartIsSuffix | src/components/AddVocabulary.tsx:32 | removing the leading whitespace leaves a suffix with only whitespace before it, and it starts with a non-whitespace character unless empty |
| Text.TrimEndIsPrefix | src/components/AddVocabulary.tsx:32 | removing the trailing whitespace leaves a prefix with only whitespace after it, and it ends with a non-whitespace character unless empty |
| Text.Trim | src/components/AddVocabulary.tsx:32 | the trimmed value is never longer than the input, and an input that neither starts nor ends with whitespace comes back unchanged |
| Text.TrimEmptyIff | src/components/AddVocabulary.tsx:32-38 | an input trims to the empty string exactly when all its characters are whitespace |
| Text.TrimIdempotent | src/components/AddVocabulary.tsx:62-66 | trimming an already trimmed value changes nothing |
| Text.DecimalRoundTrip | src/hooks/useVocabularyManager.ts:141 | the decimal digits of the clock reading in an id read back as that number |
| Text.DecimalInjective | src/hooks/useVocabularyManager.ts:141 | different clock readings give different digit strings |
| Vocabulary.MergeSm2 | src/hooks/useVocabularyManager.ts:197-200 | in `{...base, ...patch}` a `repetitions` key of the patch wins and an absent one keeps the base value, and `nextReview` is kept when absent. An empty patch changes nothing |
| Vocabulary.MergeCard | src/hooks/useVocabularyManager.ts:167 | `{...card, ...updates}` keeps the card's id |
| Vocabulary.CardId | src/hooks/useVocabularyManager.ts:141 | an id is `custom-`, then a run of decimal digits that reads back as the stamp, then one `-`, then the suffix, and nothing else |
| Vocabulary.MergeSm2Laws | src/hooks/useVocabularyManager.ts:197-200 | merging an empty partial SM-2 record changes nothing; merging the same partial record twice is merging it once |
| Vocabulary.MergeSm2Compose | src/hooks/useVocabularyManager.ts:197-200 | two merges in a row equal one merge of the combined partial record, in which the later keys win |
| Vocabulary.CardIdInjective | src/hooks/useVocabularyManager.ts:141 | equal ids `custom-<stamp>-<suffix>` come from equal stamps and equal suffixes |
| VocabularyManager.FindById | src/hooks/useVocabularyManager.ts:205-207 | `getVocabularyById` returns None exactly when no card has the id; otherwise it returns the card at the first index with the id |
| VocabularyManager.FindByIdAt | src/hooks/useVocabularyManager.ts:206 | the card at the first index holding the id is the one found |
| VocabularyManager.CheckDuplicate | src/hooks/useVocabularyManager.ts:210-217 | true exactly when some card with an id other than `excludeId` has an equal `it` OR an equal `de` |
| VocabularyManager.BatchIdsDistinct | src/hooks/useVocabularyManager.ts:120-122 | the ids of one batch are pairwise distinct |
| VocabularyManager.UpdateById | src/hooks/useVocabularyManager.ts:165-169 | length and ids are kept; cards with another id are unchanged; each card with the id becomes `{...card, ...updates}` |
| VocabularyManager.FindAfterUpdate | src/hooks/useVocabularyManager.ts:164-176 | `updateVocabulary` returns None for an unknown id; otherwise it returns the first card with the id, merged with the updates |
| VocabularyManager.RemoveById | src/hooks/useVocabularyManager.ts:180 | no card with the id remains; every card with another id remains |
| VocabularyManager.RemoveByIdLaws | src/hooks/useVocabularyManager.ts:179-186 | removed plus kept is the old length. Deleting twice is deleting once. Deleting an absent id changes nothing |
| VocabularyManager.RemoveByIdKeepsOrder | src/hooks/useVocabularyManager.ts:180 | deletion commutes with concatenation, so the rest stays in order |
| VocabularyManager.RemoveByIdKeepsUniqueIds | src/hooks/useVocabularyManager.ts:180 | a list without repeated ids keeps that property under deletion |
| VocabularyManager.UpdateSm2ByIdChanges | src/hooks/useVocabularyManager.ts:189-202 | an unknown id leaves the list unchanged. Otherwise only cards with the id change, and only their SM-2 record: it becomes the first match's record overridden by the supplied keys |
| VocabularyManager.UpdatesKeepUniqueIds | src/hooks/useVocabularyManager.ts:164-202 | both updates keep a list free of repeated ids |
| VocabularyManager.UpdateSm2WithUniqueIds | src/hooks/useVocabularyManager.ts:189-202 | with distinct ids, only the card at the given index changes, and only its SM-2 record, merged with the patch |
| VocabularyManager.GetStats | src/hooks/useVocabularyManager.ts:220-233 | `total` is the length, `learned <= total`, `toReview <= total`, `learned + available == total`, and `available` counts the cards with a repetition count of at most 0 |
| VocabularyManager.IsDueLaws | src/hooks/useVocabularyManager.ts:221-224 | a card due at one clock reading stays due at every later one. With no `nextReview`, or with the falsy timestamp 0, a card is never due; otherwise it is due exactly from that timestamp on |
| VocabularyManager.StatsAfterAdd | src/hooks/useVocabularyManager.ts:220-233 | adding a new card raises `total` and `available` by one and leaves `learned` and `toReview` as they were |
| VocabularyManager.VocabularyStore.constructor | src/hooks/useVocabularyManager.ts:8 | the store holds the loaded list |
| VocabularyManager.VocabularyStore.AddVocabulary | src/hooks/useVocabularyManager.ts:140-161 | appends exactly one new card at the end, keeps every earlier card, and returns the new card |
| VocabularyManager.VocabularyStore.AddVocabularies | src/hooks/useVocabularyManager.ts:118-137 | appends the batch after the old list, in input order, and returns it |
| VocabularyManager.VocabularyStore.UpdateVocabulary | src/hooks/useVocabularyManager.ts:164-176 | the new list is `UpdateById` of the old one. It returns None for an unknown id, and otherwise the first card with the id merged with the updates |
| VocabularyManager.VocabularyStore.DeleteVocabulary | src/hooks/useVocabularyManager.ts:179-186 | the new list is the old one without the id, and the result is always true |
| VocabularyManager.VocabularyStore.UpdateSm2Data | src/hooks/useVocabularyManager.ts:189-202 | the new list is `UpdateSm2ById` of the old one. The result is None exactly when the id was unknown, and otherwise the updated card |
| QuizSelection.NewVocab | src/components/QuizSelection.tsx:23 | exactly the cards with zero repetitions |
| QuizSelection.ReviewVocab | src/components/QuizSelection.tsx:24 | exactly the cards with a positive repetition count |
| QuizSelection.NewReviewPartition | src/components/QuizSelection.tsx:23-24 | when no count is negative, the two lists are disjoint and together make up the whole collection, as multisets and by length |
| QuizSelection.NewReviewKeepOrder | src/components/QuizSelection.tsx:23-24 | both filters commute with concatenation, so both keep the stored order |
| QuizSelection.SelectForQuiz | src/components/QuizSelection.tsx:27-30 | a prefix of the list with length `min(|list|, wordsPerQuiz)`; a negative `wordsPerQuiz` counts back from the end, as `slice` does |
| QuizSelection.ButtonList | src/components/QuizSelection.tsx:62-116 | every button but the due one passes stored cards: the new button only unlearned ones, the review button only learned ones |
| QuizSelection.ButtonDisabled | src/components/QuizSelection.tsx:63-117 | the new, review and random buttons are disabled exactly when the list they would pass is empty |
| QuizSelection.PressButton | src/components/QuizSelection.tsx:62-117 | a button starts a quiz exactly when it is enabled. It passes a prefix of its own list together with the configured direction |
| QuizSelection.StartedQuizNonEmpty | src/components/QuizSelection.tsx:62-117 | with `wordsPerQuiz >= 1`, every quiz started has between 1 and `wordsPerQuiz` cards |
| QuizSelection.RandomButtonUnshuffled | src/components/QuizSelection.tsx:116 | the random button hands on the first stored cards in stored order |
| QuizSelection.ZeroWordsStartsEmptyQuiz | src/components/QuizSelection.tsx:27-30 | with `wordsPerQuiz == 0` every enabled button, the due button included, starts an empty quiz, because the guard checks the list and not its truncation |
| Quiz.QuizVocabulary | src/components/Quiz.tsx:50-78 | a non-empty repeat list is the deck as it is; otherwise the deck has at most `wordsPerQuiz` cards |
| Quiz.SelectionDrawsFromPool | src/components/Quiz.tsx:50-78 | a non-empty repeat list is used as it is. Otherwise the deck has at most `wordsPerQuiz` cards, all from the mode's pool; `new` decks hold only unlearned cards and `review` decks only learned ones |
| Quiz.ZeroStatsDescribeEmpty | src/components/Quiz.tsx:104 | zeroed statistics describe an empty result list |
| Quiz.StatsBounds | src/components/Quiz.tsx:127-136 | statistics that describe a result list satisfy `correct <= total` and `streak <= maxStreak <= total` |
| Quiz.RecordRating | src/components/Quiz.tsx:127-136 | one more answer is counted. The streak is positive exactly after a correct rating, `correct` grows exactly then, the best streak never falls, and `correct <= total` and `streak <= maxStreak` are kept |
| Quiz.RecordRatingDescribes | src/components/Quiz.tsx:127-142 | after one rating the statistics still count the results: `total` is their number, `correct` the number rated 3 or more, `streak` the trailing correct run, `maxStreak` the longest run |
| Quiz.RatingPatch | src/components/Quiz.tsx:121-124 | the SM-2 update is the calculated result with the rating written into `quality`, and no other key changed |
| Quiz.InitialStateValid | src/components/Quiz.tsx:100-106 | the reset state satisfies the session invariant for any deck |
| Quiz.RatingStep | src/components/Quiz.tsx:109-158 | the results grow by at most one and only at the end, completion is never undone, and the index moves on by at most one. The state changes exactly when the rating gets past the index guard and the calculation |
| Quiz.RatingKeepsShape | src/components/Quiz.tsx:109-158 | with no card at the index, or a throwing calculation, nothing changes. Otherwise exactly one result for the current card is appended; the session completes exactly on the last card, else it advances by one with the answer hidden |
| Quiz.RatingKeepsInvariant | src/components/Quiz.tsx:109-158 | rating an unfinished session keeps its shape and keeps statistics that describe its results |
| Quiz.CompletedSessionCoversDeck | src/components/Quiz.tsx:145-153 | a finished session has one result per card in deck order, `total` equal to the deck size, and the correct and wrong counts summing to it |
| Quiz.RatingsCompleteSession | src/components/Quiz.tsx:145-153 | on a fixed deck, rating each remaining card once finishes the session, provided the calculation never throws. The results become the old ones followed by each remaining card paired with its quality, in deck order |
| Quiz.WrongVocabs | src/components/Quiz.tsx:172 | the cards rated below 3; their number plus the correct count is the number of results |
| Quiz.WrongVocabsAppend | src/components/Quiz.tsx:172 | the wrong list grows by the new card exactly when it was rated below 3, so it keeps rating order |
| Quiz.QualityCounts | src/components/Quiz.tsx:167-170 | one entry per table colour with a non-zero count, carrying the number of results with that quality |
| Quiz.SumCountsDropZeros | src/components/Quiz.tsx:170 | dropping the zero counts keeps their sum |
| Quiz.SumPerColor | src/components/Quiz.tsx:167-169 | with distinct table values, the per-colour counts sum to the number of results whose quality is in the table |
| Quiz.QualityCountsTotal | src/components/Quiz.tsx:167-170 | when every rated quality is in the table, the counts sum to the number of results |
| Quiz.QuizSession.constructor | src/components/Quiz.tsx:33-47 | a session starts in the reset state with the invariant |
| Quiz.QuizSession.Start | src/components/Quiz.tsx:100-106 | the deck is the selection from the store, every counter is reset, and the invariant holds |
| Quiz.QuizSession.ToggleAnswer | src/components/Quiz.tsx:161-163 | only `showAnswer` flips; the invariant is kept |
| Quiz.QuizSession.HandleQualityRating | src/components/Quiz.tsx:109-158 | the session takes `RatingStep` on its deck. The store receives the SM-2 update exactly when the rating gets through; otherwise it is untouched |
| Quiz.QuizSession.PersistRating | src/components/Quiz.tsx:121-124 | the `updateSM2Data` call: the store becomes `UpdateSm2ById` of the old list |
| Quiz.RatingAsWritten | src/components/Quiz.tsx:50-158 | as written, a rating steps the session on the deck recomputed from the current collection. The collection keeps its length and ids, and a rating that changes nothing in the session changes nothing in the store |
| Quiz.RecomputedDeckStalls | src/components/Quiz.tsx:50-78 | as written, in `new` mode, after the first of two new cards is rated with an SM-2 result that sets a non-zero repetition count (the calculation must do so for both cards, since sorting may put either first), the index lies past the recomputed deck and the session is not complete. Every further rating changes nothing |
| VocabForm.Validate | src/components/AddVocabulary.tsx:29-49 | an `it` error exactly when `it` is all whitespace, likewise for `de`. A duplicate error exactly when both are present and another card has the trimmed `it` or the trimmed `de`. No other key. Every recorded message is non-empty (the duplicate one whenever the given text is), so a later edit of the field clears it |
| VocabForm.ErrorsFor | src/components/AddVocabulary.tsx:29-45 | the dictionary built by the successive assignments holds the `it`, `de` and `duplicate` keys exactly when their checks fail, and no other key. The `it` and `de` messages are non-empty, and the duplicate key holds the given message |
| VocabForm.ValidIffNoErrors | src/components/AddVocabulary.tsx:47-48 | the form is valid (no key recorded) exactly when both words are present and no other card shares either trimmed word |
| VocabForm.AcceptedEntryIsTrimmed | src/components/AddVocabulary.tsx:62-67 | the payload of a valid form has non-empty words that neither start nor end with whitespace |
| VocabForm.ApplyChangeLaws | src/components/AddVocabulary.tsx:100 | of two changes to one field the later wins; changes to two different fields commute |
| VocabForm.ClearError | src/components/AddVocabulary.tsx:103-109 | only the named field's error may go, and it goes when it holds a message. Every other error stays as it was |
| VocabForm.ClearErrorIdempotent | src/components/AddVocabulary.tsx:103-109 | clearing a field's error twice is clearing it once |
| VocabForm.TagToAdd | src/components/AddVocabulary.tsx:113-118 | a tag is added exactly when the input is not all whitespace and its trimmed form is not yet listed; that trimmed form is what is added |
| VocabForm.AddedTagKeepsNoDuplicates | src/components/AddVocabulary.tsx:113-118 | adding a tag keeps a duplicate-free list duplicate-free |
| VocabForm.RemoveTag | src/components/AddVocabulary.tsx:120-122 | the tag no longer occurs, every other tag remains, and nothing new appears |
| VocabForm.RemoveTagLaws | src/components/AddVocabulary.tsx:120-122 | removal commutes with concatenation, so the other tags keep their order; it never introduces a duplicate |
| VocabForm.RemoveTagIdentities | src/components/AddVocabulary.tsx:120-122 | removing an unlisted tag changes nothing; removing twice is removing once |
| AddVocabulary.AddScreen.constructor | src/components/AddVocabulary.tsx:16-26 | empty form, no errors, empty tag input, no notice |
| AddVocabulary.AddScreen.HandleInputChange | src/components/AddVocabulary.tsx:99-110 | the field is set through `ApplyChange` and its error cleared through `ClearError`; nothing else changes |
| AddVocabulary.AddScreen.HandleNewTagChange | src/components/AddVocabulary.tsx:223 | only the tag input changes |
| AddVocabulary.AddScreen.HandleAddTag | src/components/AddVocabulary.tsx:113-118 | with a tag to add, it is appended and the tag input is emptied; otherwise nothing changes. A duplicate-free list stays so |
| AddVocabulary.AddScreen.HandleRemoveTag | src/components/AddVocabulary.tsx:120-122 | the tags become `RemoveTag` of the old ones; a duplicate-free list stays so |
| AddVocabulary.AddScreen.ValidateForm | src/components/AddVocabulary.tsx:29-49 | the errors become `Validate` of the form against every card, and the result is true exactly when no error is recorded; the form itself is untouched |
| AddVocabulary.AddScreen.HandleSubmit | src/components/AddVocabulary.tsx:52-96 | errors become the validation result, and a card is added exactly when no error is recorded. A valid form appends the trimmed entry's card to the store, shows the notice and empties the form. An invalid form leaves store and form unchanged |
| AddVocabulary.AddScreen.SuccessTimerFires | src/components/AddVocabulary.tsx:83-88 | the notice is hidden, and `onSuccess` runs when it is given |
| AddVocabulary.AddedCardBlocksDuplicate | src/components/AddVocabulary.tsx:41-45 | once a card is added, a later form sharing its trimmed `it` or `de` is refused |
| EditVocabulary.HasChangesIff | src/components/EditVocabulary.tsx:166-171 | with a card loaded, `hasChanges` holds exactly when the form differs from the loaded form, the tag order included |
| EditVocabulary.HasChanges | src/components/EditVocabulary.tsx:166-171 | there are no changes before a card is loaded, nor while the form is the loaded form |
| EditVocabulary.SaveDisabledUntilEdited | src/components/EditVocabulary.tsx:394 | saving is disabled before a card is loaded and right after loading. It is enabled once the form differs from the card and no submit is running |
| EditVocabulary.SubmitDisabled | src/components/EditVocabulary.tsx:394 | saving is disabled while a submit runs and before a card is loaded; otherwise exactly while the form equals the loaded card's form |
| EditVocabulary.SubmitPatch | src/components/EditVocabulary.tsx:94-99 | a submit writes all four form fields and never the SM-2 record |
| EditVocabulary.SubmitKeepsSchedule | src/components/EditVocabulary.tsx:94-99 | a submit writes the trimmed words and notes and the unchanged tags, and keeps the card's id and SM-2 record |
| EditVocabulary.SubmitUnchangedFormKeepsCard | src/components/EditVocabulary.tsx:43-99 | saving the form as loaded keeps id and schedule, and writes the card back unchanged exactly when it has notes and tags and its words and notes carry no surrounding whitespace |
| EditVocabulary.EditScreen.constructor | src/components/EditVocabulary.tsx:21-33 | empty form, no card, no errors |
| EditVocabulary.EditScreen.Load | src/components/EditVocabulary.tsx:36-58 | nothing happens while loading. A stored card becomes the original and fills the form, and only the `load` error is removed. An unknown id makes the errors exactly `{load}` |
| EditVocabulary.EditScreen.HandleInputChange | src/components/EditVocabulary.tsx:140-151 | as on the add screen: one field set, only its error cleared |
| EditVocabulary.EditScreen.HandleNewTagChange | src/components/EditVocabulary.tsx:337 | only the tag input changes |
| EditVocabulary.EditScreen.HandleAddTag | src/components/EditVocabulary.tsx:154-159 | as on the add screen; a duplicate-free list stays so |
| EditVocabulary.EditScreen.HandleRemoveTag | src/components/EditVocabulary.tsx:161-163 | as on the add screen; a duplicate-free list stays so |
| EditVocabulary.EditScreen.ValidateForm | src/components/EditVocabulary.tsx:61-81 | the errors become `Validate` of the form with the card's own id excluded, and the result is true exactly when no error is recorded |
| EditVocabulary.EditScreen.HandleSubmit | src/components/EditVocabulary.tsx:36-120 | with a validation error, errors become the validation result and nothing else changes; the card's own id is excluded from the duplicate check. With none, the trimmed patch is merged into the store, the merged card is returned and the notice shows. The new list re-runs the load effect: once loading is over, the merged card becomes the original and refills the form, which then shows no changes, or, for an unknown id, the load error is set |
| EditVocabulary.EditScreen.SaveChanges | src/components/EditVocabulary.tsx:94-99 | the store becomes `UpdateById` of the old list; the result is None for an unknown id, else the first card with the id merged with the patch |
| EditVocabulary.EditScreen.SuccessTimerFires | src/components/EditVocabulary.tsx:107-112 | the notice is hidden, and `onSuccess` runs when it is given |
| EditVocabulary.EditScreen.HandleDelete | src/components/EditVocabulary.tsx:123-137 | the card is removed from the store; then `onDelete` runs if given, and `onBack` always |

## Left out

I/O and storage:

- The storage layer is not part of this model: `loadVocabularyData`, `saveVocabularyData`, `reloadVocabulary` and `saveToStorage`, with IndexedDB, localStorage and the JSON fetch. They are I/O. The store constructor starts from the loaded list.

Functions outside the model:

- `calculateSM2`, `getDueVocabulary`, `sortByPriority` and `QUALITY_COLORS` live in SM-2 modules that are not part of this model. They are parameters, and the model only assumes that ordering reorders its input.

Randomness, the clock and timers:

- The random shuffle of a random-mode session is a parameter. The random per-card direction is not modelled; it only affects display.
- `Date.now()` and the `Math.random()` base-36 id suffix are parameters.
- Timer scheduling is not modelled: the one-second auto-complete of an empty quiz, and the two-second delay before a success notice hides. The body of the notice timer is modelled (`SuccessTimerFires`).

User interface:

- JSX rendering, the pie chart, progress figures and the exit confirmation are not modelled. So are the delete confirmation toggle and the `VocabularySearch` screen, which builds on a search hook that is not part of this model.
- `isSubmitting` is not modelled. It is set and reset within one submit, so it never differs between calls. The saving guard takes it as a parameter.

Error branches:

- The `catch` branches of the form submits and of delete are not modelled. The modelled store operations do not throw, so those branches are unreachable in this model. A throwing `calculateSM2` is modelled as None.

React semantics:

- React's re-rendering is modelled in two places. One is a rating under the recomputed deck (`RatingAsWritten`). The other is the edit screen's load effect: it runs again after a save, because the new list gives a new `getVocabularyById` (`EditScreen.HandleSubmit`). Otherwise the quiz effects' dependency lists stand for "the session restarts when the mode or the repeat list changes".
- Every screen calls `useVocabularyManager()` itself (Quiz.tsx:29, QuizSelection.tsx:17, AddVocabulary.tsx:14, EditVocabulary.tsx:19) and holds its own copy of the `vocabulary` state. The screens share cards only through storage. One `VocabularyStore` stands for all these copies, and the storage round trip between them is not modelled.
- The fixed-deck `Quiz.QuizSession` does not capture what the recomputed deck does besides stalling a `new` or `review` session (`RecomputedDeckStalls`). A rated card gets a future `nextReview`, so it also leaves a `due` deck. A `random` deck is shuffled anew after every rating (Quiz.tsx:73-74), so with the index moving on, a card can come up twice or not at all. When a one-card `new` or `due` session loses its only card this way, the empty-deck effect (Quiz.tsx:81-86) ends the quiz a second later through `onComplete()` without the list of wrong answers; timers are not modelled, so neither is this.

Representation choices:

- The JSON comparison in `hasChanges` is modelled as sequence equality of the tag lists. These agree for lists of strings.
- Strings are sequences of characters; `trim` uses the ECMAScript whitespace set.
- The success notice and error messages are modelled as data; their rendering is not.

Weaker contracts:

- Quiz.QuizSession.HandleQualityRating: the method's own contract does not state that `Valid()` is kept. What it states is the step `RatingStep`, and `Quiz.RatingKeepsInvariant` proves that this step keeps the invariant of an unfinished session.
- VocabularyManager.GetStats: `toReview` is bounded by `total`, but the contract does not say which cards it counts. The set of due cards depends on the clock and on a timestamp's truthiness, and `StatsAfterAdd` carries the property that matters for new cards.

## Findings

| source | as written | input that shows it | evidently intended | confidence | as-written member | corrected member |
|---|---|---|---|---|---|---|
| src/components/Quiz.tsx:50-78 | The session's card list is a `useMemo` over the live collection. Each rating writes the card's SM-2 record back (121-124), and the memo depends on the collection (78). So in `new` or `review` mode the rated card can leave the filtered list, and in `due` mode its future `nextReview` takes it out of the due list. In `random` mode the list is shuffled anew (73-74), so later indices can point at cards already asked, and others are never asked. The list then shrinks while `currentIndex` moves on. The card is rendered only while `currentIndex < quizVocabulary.length` (257); else the screen renders nothing (390), the session never completes, and further ratings are rejected by the guard (111-114) | `new` mode, two unlearned cards with distinct ids, `wordsPerQuiz >= 2`, and a first rating whose SM-2 result sets a non-zero repetition count | the session keeps the cards it started with, so rating every card once completes it | not executed | Quiz.RecomputedDeckStalls | Quiz.RatingsCompleteSession |
