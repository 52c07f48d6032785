# Kana Syllabary Memory — the practice-session engine in Dafny

This project models the logic behind the practice pages of Kana Syllabary Memory, a web
app for learning the Japanese kana. Four pages share one engine, and the model covers it:

- the single-page kana trainer (`app/page.tsx`) and the kana page (`src/pages/Kana.tsx`);
- the word page (`src/pages/Words.tsx`) and the phrase page (`src/pages/Phrases.tsx`).

The pages keep two lists, `display` (entries not yet shown this round) and `used`. Each
"next" press moves entries between them.

- The kana pages reject a draw whose text repeats the current prompt. With more than one
  entry left they redraw; with one entry left they append `used` back onto `display`.
- The word and phrase pages draw without rejection. When `display` is empty, a press
  refills it from `used`.

Around that engine the model also covers:

- prompt and hint resolution, and the labels over the two halves of a kana hint;
- the eligibility filters: selected kana, words containing a selected kana, phrases of the
  selected categories;
- selection editing, saving and restoring;
- the catalogue loader with its three memo caches;
- the keyboard shortcut dispatch.

Randomness is a parameter. A kana press takes a sequence of `Draw(index, coin)`, one per
redraw; running out of draws is reported as `Stalled`. A word or phrase press takes an index
and a bit. Browser storage is a field holding the last saved value. A fetch and its parse
are one `Result` input. React state updates are sequential field assignments.

Modules, one concern each:

| module | file | models |
|---|---|---|
| `Seqs` | seqs.dfy | `filter`, `splice(i, 1)`, removal of a value, flattening |
| `Text` | text.dfy | ASCII case folding, `includes`, pitch-marker removal, `split` |
| `Entries` | entries.dfy | kana, word and phrase records; object lookup by category |
| `KanaDisplay` | kana_display.dfy | shown text, remind string, `getKanaType`, the inline label rule |
| `ItemDisplay` | item_display.dfy | word/phrase `getDisplayText` and `getHintText` |
| `KanaSelection` | kana_selection.dfy | toggles, per-type selection, saved-selection merge and restore, row chunking |
| `Filters` | filters.dfy | the word filter, the phrase pool, the category set |
| `Decks` | decks.dfy | the `display`/`used` pair and its conserved contents |
| `KanaSession` | kana_session.dfy | `getRandomKana` and the kana pages' state (class `KanaPractice`) |
| `ItemSession` | item_session.dfy | `getNextWord`/`getNextPhrase` and the shared state (class `ItemPractice`) |
| `WordsPage` | words_page.dfy | the word page (class `WordsState`) |
| `PhrasesPage` | phrases_page.dfy | the phrase page (class `PhrasesState`) |
| `Loader` | data_loader.dfy | `DataLoader` (class) and catalogue conversion |
| `Keyboard` | keyboard.dfy | `handleKeyPress` |

A remind string joins its two halves with two spaces (`app/page.tsx:160-170`), and the
single page's labels split it at that gap again.

## Model

| member | source | states |
|---|---|---|
| Seqs.Filter | src/pages/Kana.tsx:104 | the kept elements are exactly the elements of the input that satisfy the predicate, each as often as in the input, and they keep their original order (the result is a subsequence of the input) |
| Seqs.RemoveAt | src/pages/Words.tsx:203 | the spliced copy is one shorter, loses exactly the element at the index (as a multiset) and keeps the others in order |
| Seqs.Without | src/pages/Phrases.tsx:132-133 | removing a value leaves exactly the other elements, each as often as before and in their original order |
| Seqs.WithoutDistinct | src/pages/Phrases.tsx:131-136 | removing a value from a duplicate-free list keeps it duplicate-free |
| Text.StripPitchMarkers | src/pages/Words.tsx:136 | the cleaned reading holds exactly the characters of the reading that are not one of ①–⑨, ⓪, each as often as before and in their original order |
| Text.ToLower | src/hooks/use-keyboard-shortcuts.ts:38 | same length; letters A–Z become a–z and every other character is kept |
| Text.SplitJoin | app/page.tsx:610-632 | splitting `a + sep + rest` at `sep`, with `a` free of the separator, gives `a` and then the split of `rest` |
| Entries.Lookup | src/pages/Phrases.tsx:121-122 | no result iff no group has the key; a result is a group filed under that key |
| Entries.Categories | src/lib/data-loader.ts:130-133 | `Object.keys`: one key per group, the i-th key being the i-th group's category |
| KanaDisplay.ShownText | app/page.tsx:137-157 | "hiragana" shows the hiragana facet, "katakana" the katakana facet, "romaji" the romaji; "mixed" and "swap" show one of the two kana facets; an unknown mode shows "" |
| KanaDisplay.MixedAndSwapAgree | src/pages/Kana.tsx:148-178 | "mixed" and "swap" resolve to the same facet for the same coin: hiragana on 1, katakana on 0 |
| KanaDisplay.RemindNamesTheOtherFacets | app/page.tsx:160-170 | for distinct, space-free facets, splitting the remind string at the two-space gap gives exactly the two facets not shown, in catalogue order |
| KanaDisplay.RemindText | app/page.tsx:160-170 | the remind is non-empty iff the shown text is one of the kana's three facets |
| KanaDisplay.HiraganaModeExample | src/pages/Kana.tsx:148-170 | illustration only: あ/ア/a in "hiragana" mode shows あ with remind "ア  a" |
| KanaDisplay.GetKanaType | src/pages/Kana.tsx:224-233 | "羅馬音" iff the text is non-empty ASCII letters; otherwise "平假名" or "片假名" iff the first UTF-16 unit lies in that block; "" for empty text or any other first unit |
| KanaDisplay.FirstCodeUnit | src/pages/Kana.tsx:228 | `charCodeAt(0)`: the character itself below U+10000, a high surrogate above |
| KanaDisplay.WellFormedFacetsDiffer | src/pages/Kana.tsx:445-453 | a well-formed kana has three distinct facets, and neither kana facet reads as romaji |
| KanaDisplay.RemindLabelsNameTheirScripts | src/pages/Kana.tsx:445-453 | the remind of a well-formed kana splits into two parts, each labelled by `getKanaType` with the name of the facet it is |
| KanaDisplay.InlineLabelAsWritten | app/page.tsx:610-632 | the label is one of the three names: "片假名" exactly when the part equals the shown text, "羅馬音" exactly when it does not and is ASCII letters, otherwise "平假名" |
| KanaDisplay.InlineLabelMisnamesKatakana | app/page.tsx:610-632 | whenever the katakana facet is a remind part, the inline rule labels it "平假名" although it is katakana |
| KanaDisplay.InlineLabelExample | app/page.tsx:610-632 | あ/ア/a in "hiragana" mode: the first part ア is labelled "平假名" |
| ItemDisplay.HintCompletesPrompt | src/pages/Words.tsx:212-253 | in "kana", "japanese" and "mixed" modes the prompt is the reading (or the writing) and the hint's three lines are the other one, the romaji and the translation (the phrase page's `getDisplayText`/`getHintText`, src/pages/Phrases.tsx:196-234, are the same table) |
| ItemDisplay.DisplayText | src/pages/Words.tsx:212-233 | the reading when the kana is shown ("kana" mode, or "mixed" with the kana choice), the writing in the other listed modes, the translation in any other mode |
| ItemDisplay.HintText | src/pages/Words.tsx:235-253 | in a listed mode the facet not shown, the romaji and the translation, one per line; empty exactly in any other mode |
| KanaSelection.Selected | src/pages/Kana.tsx:103-107 | the pool holds exactly the selected entries, each as often as in the list, in list order |
| KanaSelection.Toggle | src/components/kana-selector.tsx:20-25 | only `selected` changes, and it flips exactly on the entries whose key matches: the romaji in the selector, the id on the single page (app/page.tsx:96-105) |
| KanaSelection.ToggleTwiceRestores | src/components/kana-selector.tsx:20-25 | toggling the same key twice gives back the list |
| KanaSelection.ToggleKeepsTwinsAgree | src/components/kana-selector.tsx:20-25 | the romaji toggle flips entries sharing a romaji (じ/ぢ, ず/づ) together, so twins stay selected alike |
| KanaSelection.SelectByType | src/components/kana-selector.tsx:27-32 | only `selected` changes; entries of the type take the value, the others keep theirs |
| KanaSelection.SelectByTypeIdempotent | src/components/kana-selector.tsx:27-32 | selecting a type twice is selecting it once |
| KanaSelection.OfType | src/components/kana-selector.tsx:36 | a tab holds exactly the entries of its type, each as often as in the list, in list order |
| KanaSelection.SelectedCount | src/components/kana-selector.tsx:55 | the per-type selected count never exceeds the number of entries of that type |
| KanaSelection.SelectByTypeCount | src/components/kana-selector.tsx:49-55 | after "select all" the count is the type's size, after "clear" it is 0 |
| KanaSelection.SelectedRomaji | src/pages/Words.tsx:156-159 | the saved list holds exactly the romaji of the selected kana |
| KanaSelection.SelectedRomajiInOrder | src/pages/Words.tsx:156-159 | the saved list is the romaji of the selected entries, one per entry and in list order (`filter` then `map`) |
| KanaSelection.RestoreByRomaji | src/pages/Words.tsx:83-88 | with a saved list, a kana is selected iff its romaji is in it (an empty list clears all); without one the loaded list is kept |
| KanaSelection.SaveThenRestore | src/pages/Words.tsx:83-88 | saving then restoring onto the same catalogue gives the saved selection back whenever entries sharing a romaji are selected alike (as the selector's toggle keeps them) |
| KanaSelection.SavedSelection | src/pages/Kana.tsx:76-78 | the saved flag for a romaji is the one of the LAST saved entry with it; none if no entry has it |
| KanaSelection.MergeSaved | src/pages/Kana.tsx:75-88 | with non-empty saved data each entry takes the saved flag for its romaji or keeps its own; everything else comes from the fresh data; with none or empty saved data the list is unchanged |
| KanaSelection.SaveThenMerge | src/pages/Kana.tsx:75-88 | saving the whole list and merging it onto the same catalogue restores the saved selection whenever entries sharing a romaji are selected alike |
| KanaSelection.ChunkRows | src/components/kana-selector.tsx:35-41 | the rows concatenate to the list; every row has 1 to 5 entries; all rows but the last have 5 |
| Filters.Tokens | src/pages/Words.tsx:129-130 | the tokens are exactly the readings of the selected kana |
| Filters.SortLongestFirst | src/pages/Words.tsx:131 | the sorted tokens are a permutation of the tokens, longest first |
| Filters.InsertKeepsLongestFirst | src/pages/Words.tsx:131 | inserting into a longest-first list keeps it longest-first |
| Filters.MatchingWords | src/pages/Words.tsx:134-145 | a word is kept iff its reading without pitch markers contains some token; kept words appear as often as in the catalogue and in catalogue order |
| Filters.SortingTokensChangesNothing | src/pages/Words.tsx:129-145 | sorting the tokens longest-first does not change which words are kept |
| Filters.ContainsAnyToken | src/pages/Words.tsx:139-144 | the early-return loop answers true iff some token occurs in the cleaned reading |
| Filters.FilterWords | src/pages/Words.tsx:134-145 | the filter loop produces exactly the matching words, in order |
| Filters.PhrasePoolMembership | src/pages/Phrases.tsx:117-128 | a phrase is in the pool iff a selected category that the catalogue has files it |
| Filters.PhrasePoolAppend | src/pages/Phrases.tsx:117-128 | selecting one more category appends exactly its phrases to the end of the pool |
| Filters.BuildPhrasePool | src/pages/Phrases.tsx:118-124 | the `forEach` push loop builds the concatenation of the selected categories' phrases in set order, absent ones contributing nothing |
| Filters.ToggleCategory | src/pages/Phrases.tsx:131-136 | exactly the toggled category changes membership; a duplicate-free set stays duplicate-free |
| Filters.ToggleEmptiesOnlyTheLast | src/pages/Phrases.tsx:138-141 | a toggle leaves no category iff it removes the only one selected |
| Filters.Dedupe | src/pages/Phrases.tsx:89 | `new Set(list)` is duplicate-free, has exactly the list's members, keeps list order, and orders them by first occurrence |
| Decks.Take | src/pages/Words.tsx:203-204 | a draw keeps the pool contents; `display` loses the drawn entry and `used` gains it at the end |
| Decks.Recycle | src/pages/Kana.tsx:196-197 | appending `used` to `display` keeps the contents, keeps `display` as a prefix and empties `used` |
| Decks.TakeAll | src/pages/Words.tsx:191-204 | a run of draws keeps the contents, shrinks `display` by one per draw and only appends to `used` |
| Decks.RoundShowsEachOnce | src/pages/Words.tsx:191-204 | a full round of draws empties `display` and shows every pool entry exactly once |
| KanaSession.PromptOf | src/pages/Kana.tsx:148-178 | the prompt shows the mode's facet, and its remind is built from that shown text |
| KanaSession.FirstNew | src/pages/Kana.tsx:180-194 | the position of the first draw whose text differs from the current one: every earlier draw repeats it, and the draw there (if any) does not |
| KanaSession.Press | src/pages/Kana.tsx:136-199 | EmptyPool iff the pool is empty. A shown prompt differs from the current one and is built from the first supplied draw that does not repeat the current text, at that draw's index and coin. Recycled iff the pool has one entry and the first draw repeats. Stalled iff every supplied draw repeats and the pool has more than one entry or no draw is supplied |
| KanaSession.Settle | app/page.tsx:172-190 | after any press the pool contents and total size are unchanged, and a non-empty `display` stays non-empty |
| KanaSession.PressKeepsPool | app/page.tsx:172-190 | a press conserves the pool, never empties `display`, and with more than one entry moves exactly the drawn kana to the end of `used` |
| KanaSession.NewTextEndsRedraw | src/pages/Kana.tsx:180-194 | if any supplied draw shows something new, the press does not stall |
| KanaSession.RomajiTwinsNeverAdvance | src/pages/Kana.tsx:193-194 | in "romaji" mode, a pool of じ and ぢ (both "ji") while "ji" is shown rejects every draw |
| KanaSession.KanaPractice.GetRandomKana | app/page.tsx:125-191 | `showRemind` becomes the learning flag; the outcome is `Press` on the old pool and prompt; the pools are `Settle` of the old pools; the prompt changes only when one is shown (the kana page's copy, src/pages/Kana.tsx:136-199, is the same press keyed by romaji) |
| KanaSession.KanaPractice.Accept | app/page.tsx:172-184 | the prompt is replaced; the drawn kana moves to `used` unless it is the last one |
| KanaSession.KanaPractice.RecycleUsed | app/page.tsx:187-189 | `used` is appended to `display` and emptied; the prompt is kept |
| KanaSession.KanaPractice.RefreshDisplayData | app/page.tsx:83-87 | the pool becomes the selected kana in list order and `used` empties |
| KanaSession.KanaPractice.SetKanaList | src/pages/Kana.tsx:109-114 | a new non-empty list resets the pool to its selected kana; an empty list leaves the pool alone |
| KanaSession.KanaPractice.HandleStart | src/pages/Kana.tsx:219-222 | the session is started and one press is made: the pools settle as the press says, the prompt becomes the shown one (else stays), `showRemind` follows the learning flag, list, saved value, mode and flag are unchanged |
| KanaSession.KanaPractice.HandleLearningModeChange | src/pages/Kana.tsx:249-254 | the learning flag is set; `showRemind` follows it only when started |
| KanaSession.KanaPractice.ToggleRemind | src/pages/Kana.tsx:204 | the shortcut flips `showRemind` and changes nothing else |
| KanaSession.KanaPractice.RevealRemind | src/pages/Kana.tsx:482 | the button sets `showRemind` and changes nothing else |
| KanaSession.KanaPractice.LoadKanaData | src/pages/Kana.tsx:65-101 | a loaded catalogue is merged with the saved selection; a non-empty one refreshes the pool, an empty one leaves the pool as it was; saved mode and learning flag apply; a failed load changes nothing; prompt, started, `showRemind` and the saved value stay |
| KanaSession.KanaPractice.HandleKanaSelectionChange | src/pages/Kana.tsx:214-217 | the selector's list is adopted and saved; a non-empty list refreshes the pool, an empty one leaves it; prompt, started, `showRemind`, mode and learning flag stay |
| KanaSession.KanaPractice.LoadStored | app/page.tsx:62-81 | the saved list (even an empty one) or else the built-in table becomes the list; a non-empty list refreshes the pool, an empty one leaves it; saved mode and learning flag apply; prompt, started and `showRemind` stay |
| KanaSession.KanaPractice.ToggleKanaSelection | app/page.tsx:96-105 | the id toggle is applied and saved; a non-empty list refreshes the pool, an empty one leaves it; prompt, started, `showRemind`, mode and learning flag stay |
| KanaSession.KanaPractice.SelectKanasByType | app/page.tsx:107-118 | the per-type selection is applied and saved; a non-empty list refreshes the pool, an empty one leaves it; prompt, started, `showRemind`, mode and learning flag stay |
| ItemSession.PromptFor | src/pages/Words.tsx:193-201 | the prompt carries the drawn item and, in a listed mode, shows its reading or its writing as the mixed choice says |
| ItemSession.Advance | src/pages/Words.tsx:181-204 | a press keeps the contents; with a non-empty `display` it moves exactly the drawn item to the end of `used`; with an empty `display` it swaps in `used` (a no-op when both are empty) |
| ItemSession.OutcomeOf | src/pages/Phrases.tsx:167-175 | "drawn" iff `display` is non-empty, "refilled" iff only `used` is, "no more" iff both are empty |
| ItemSession.RefillThenRound | src/pages/Phrases.tsx:167-190 | after a refill, a full round shows every previously used phrase exactly once |
| ItemSession.ItemPractice.GetNext | src/pages/Words.tsx:173-205 | `showHint` becomes (mode is learning); the pools are `Advance` of the old pools; a drawn prompt uses the mixed choice stored before the press; the new bit is stored in "mixed" mode (`getNextPhrase`, src/pages/Phrases.tsx:159-191, is the same press) |
| ItemSession.ItemPractice.Start | src/pages/Words.tsx:162-171 | refused, changing nothing, iff the pool is empty; otherwise started, the first item spliced out and alone in `used`, the prompt built from it with the mixed choice stored before, `showHint` set in learning mode and the new bit stored in "mixed" mode |
| ItemSession.ItemPractice.ShowHint | src/pages/Words.tsx:255-257 | the hint is shown and nothing else changes |
| WordsPage.WordsState.UpdateDisplayWords | src/pages/Words.tsx:119-149 | no kana selected: `display` empties and `used` is kept; otherwise `display` is the matching words and `used` empties |
| WordsPage.WordsState.HandleKanaSelectionChange | src/pages/Words.tsx:151-160 | the list is adopted, the pool refiltered (emptied, `used` kept, when no kana is selected) and the selected romaji saved; the prompt, started, hint flag, mixed choice, practice mode and display mode stay |
| WordsPage.WordsState.LoadData | src/pages/Words.tsx:70-96 | words load, then kana load with the saved romaji restored, then the filter: with no kana selected `display` empties and `used` is kept, otherwise `display` is the matching words; a failure stops there; the prompt, started, hint flag, mixed choice, practice mode and display mode stay |
| WordsPage.WordsState.HandleStart | src/pages/Words.tsx:162-171 | refused, changing nothing, iff the pool is empty; otherwise started with the drawn word spliced out of `display` into `used`, its prompt shown and the hint set as the practice mode says |
| WordsPage.WordsState.GetNextWord | src/pages/Words.tsx:173-205 | one press of the shared session: outcome, pools, prompt, hint flag and stored mixed choice as `GetNext` states; started, mode and practice mode unchanged |
| PhrasesPage.PhrasesState.UpdateDisplayPhrases | src/pages/Phrases.tsx:117-128 | `display` is the selected categories' phrases in set order and `used` empties |
| PhrasesPage.PhrasesState.LoadPhrasesData | src/pages/Phrases.tsx:82-98 | a non-empty saved list becomes the set and the pool; otherwise the pool comes from "greeting" and the set is kept; the prompt, started, hint flag, mixed choice, practice mode and display mode stay |
| PhrasesPage.PhrasesState.HandleCategoryToggle | src/pages/Phrases.tsx:130-146 | rejected, changing nothing, iff it would remove the only category; otherwise exactly one membership flips, the set is saved and the pool rebuilt (an added category's phrases go at the end); the set stays duplicate-free; the prompt, started, hint flag, mixed choice, practice mode and display mode stay |
| PhrasesPage.PhrasesState.HandleStart | src/pages/Phrases.tsx:148-157 | refused, changing nothing, iff the pool is empty; otherwise started with the drawn phrase spliced out of `display` into `used`, its prompt shown and the hint set as the practice mode says |
| PhrasesPage.PhrasesState.GetNextPhrase | src/pages/Phrases.tsx:159-191 | one press of the shared session: outcome, pools, prompt, hint flag and stored mixed choice as `GetNext` states; started, mode and practice mode unchanged |
| Loader.ConvertKanaItem | src/lib/data-loader.ts:20-31 | catalogue fields copied; the prompt aliases equal hiragana, katakana and romaji; selected iff seion; no labels |
| Loader.KanaCatalog | src/lib/data-loader.ts:48-52 | all seion, then dakuon, then yoon, each in file order; each entry's class follows its position; only seion start selected |
| Loader.MarkSelected | src/lib/data-loader.ts:76-79 | same items, in order, each with `selected` set |
| Loader.Assign | src/lib/data-loader.ts:105 | the key now maps to the new phrases and no other key changes |
| Loader.AssignKeys | src/lib/data-loader.ts:103-109 | after an assignment an existing key keeps its place in the key order and a new key goes last |
| Loader.CopySelected | src/lib/data-loader.ts:103-109 | the cache has a key iff the catalogue has it |
| Loader.CopySelectedFaithful | src/lib/data-loader.ts:103-109 | with distinct keys the cache has the catalogue's keys in order, each mapping to its phrases marked selected |
| Loader.ListPrefix | src/lib/data-loader.ts:103-109 | how far the copy gets: every earlier key holds a list and the key there (if any) does not |
| Loader.DataLoader.LoadKanaData | src/lib/data-loader.ts:34-59 | a cache hit returns the cache; a good response is converted, cached and returned; a failure is returned and the cache stays empty |
| Loader.DataLoader.LoadWordsData | src/lib/data-loader.ts:62-86 | as for kana, with every word selected |
| Loader.DataLoader.LoadPhrasesData | src/lib/data-loader.ts:89-116 | a cache hit returns the cache; a failed fetch returns the empty object and leaves the cache empty; otherwise the cache holds the keys copied up to the first one whose value is not a list, and the call returns it when every value is a list and the empty object otherwise |
| Loader.DataLoader.CopyPhrases | src/lib/data-loader.ts:103-109 | the copy loop leaves the cache holding the keys before the first non-list value, and reports whether it reached the end |
| Loader.DataLoader.GetPhrasesByCategory | src/lib/data-loader.ts:124-127 | the category's phrases after a load, [] for an unknown category or a load that threw; the phrases cache is left as the load leaves it (possibly partly filled) |
| Loader.DataLoader.GetPhraseCategories | src/lib/data-loader.ts:130-133 | the loaded catalogue's keys in order, [] after a load that threw; the phrases cache is left as the load leaves it (possibly partly filled) |
| Loader.DataLoader.ClearCache | src/lib/data-loader.ts:136-140 | all three caches become empty |
| Keyboard.Dispatch | src/hooks/use-keyboard-shortcuts.ts:27-85 | disabled, or typing in an input or text area: nothing. `preventDefault` iff a callback fires. Each callback fires iff its key (lower-cased) and its conditions hold. "s" needs help closed; "?" needs settings closed; the practice keys need started with both dialogs closed |
| Keyboard.CaseInsensitive | src/hooks/use-keyboard-shortcuts.ts:38 | an event acts as its lower-cased key does |
| Keyboard.GlobalKeysNeverFallThrough | src/hooks/use-keyboard-shortcuts.ts:41-55 | "s" and "?" never fire a practice callback |
| Keyboard.NextBlockedBySettings | src/hooks/use-keyboard-shortcuts.ts:58 | illustration only: "N" does nothing while settings is open |

## Left out

- Rendering, toasts, theme switching, navigation and the decorative patterns: UI only.
- Text-to-speech, `<audio>` playback and the auto-play timers: media and timing, outside the engine.
- Display-mode, practice-mode and auto-play settings changes are not modelled. They store a
  value and show a toast. Only the learning flag's effect on `showRemind` is kept.
- Fetch, JSON parsing and browser storage are inputs or a field. Error message texts are the
  failure's own message.
- The unbounded redraw of `getRandomKana` is cut off by the finite draw sequence
  (`Stalled`). The page itself would recurse until the stack overflows.
- Text.ToLower: folds ASCII letters only. JavaScript's `toLowerCase` folds all of Unicode;
  every key the shortcuts compare against is ASCII.
- KanaDisplay.GetKanaType: the regular expression `/^[a-z]+$/i` is modelled as ASCII letters.
  Unicode case-folding of other scripts does not apply without the `u` flag.
- Filters.Dedupe, PhrasesPage.PhrasesState.categories: a `Set` is kept as a duplicate-free
  list in insertion order.
- Loader.Assign: a JavaScript object's integer-like keys enumerate before other keys. The model
  keeps plain insertion order; the catalogue's category keys are words.
- Loader.RawGroup: a phrase-file value is either a list of phrases or "not a list" (on which
  `.map` throws). The shape of the phrases inside a list is not checked, as in the source.
- Entries.Lookup: keys inherited from `Object.prototype` (such as "constructor") are not modelled;
  an object is its own keys only.
- The kana table `lib/kana-data.ts` is a fixture, not part of this model. Its `hyu` entry
  carries the katakana of `hyo` (ヒョ); the model takes the table as a parameter.
- `lib/types.ts` is not part of this model. The display modes follow the pages' usage. Any
  other stored mode value is the `Unlisted` case.
- Reading the second part of an empty remind (`split("  ")[1]` is `undefined`) happens only
  in rendering and is not modelled.
- The selector's per-type totals 46/25/33 are constants in `KanaSelection.TypeTotal`. They are not
  derived from the list.
- Under React's deferred updates, `getNextWord`/`getNextPhrase` store a new mixed choice but
  build the prompt with the previous one (`src/pages/Words.tsx:177-179` and `:219`). The model keeps
  this as written in `ItemSession.ItemPractice.GetNext`.

## Findings

| source | as written | input that shows it | evidently intended | confidence | as-written member | corrected member |
|---|---|---|---|---|---|---|
| app/page.tsx:610-632 | each remind part is labelled "片假名" if it equals the shown text, "羅馬音" if it is ASCII letters, else "平假名"; no remind part ever equals the shown text, so a katakana part is labelled "平假名" | あ/ア/a in "hiragana" mode: remind "ア  a"; the part ア is labelled "平假名" | label each part by its own script, as `getKanaType` does on the kana page (src/pages/Kana.tsx:445-453) | high; not executed | KanaDisplay.InlineLabelMisnamesKatakana | KanaDisplay.RemindLabelsNameTheirScripts |
