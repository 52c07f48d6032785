/** The word page (`src/pages/Words.tsx`): the catalogue, the kana selection that filters
    it, the saved selection, and the practice session over the matching words. */
module WordsPage {
  import opened Entries
  import opened Text
  import opened Seqs
  import opened KanaSelection
  import opened Filters
  import opened ItemDisplay
  import opened ItemSession

  class WordsState {
    var allWords: seq<StudyItem>
    var kanaList: seq<Kana>
    /** The romaji list saved under the page's selection key. */
    var storedRomaji: Option<seq<string>>
    const session: ItemPractice

    constructor ()
      ensures allWords == [] && kanaList == [] && storedRomaji == None
      ensures fresh(session) && session.display == [] && session.used == []
    {
      allWords, kanaList, storedRomaji := [], [], None;
      session := new ItemPractice();
    }

    /** `updateDisplayWords`: with no kana selected the pool empties and `used` is kept;
        otherwise the pool is the words whose reading, pitch markers removed, contains a
        selected kana, in catalogue order, and `used` is emptied. */
    method UpdateDisplayWords(words: seq<StudyItem>, kanas: seq<Kana>)
      modifies session
      ensures Selected(kanas) == [] ==> session.display == [] && session.used == old(session.used)
      ensures Selected(kanas) != [] ==> session.display == MatchingWords(words, Tokens(kanas)) && session.used == []
      ensures session.current == old(session.current) && session.started == old(session.started)
      ensures session.showHint == old(session.showHint) && session.mixedKana == old(session.mixedKana)
      ensures session.practice == old(session.practice) && session.mode == old(session.mode)
    {
      if |Selected(kanas)| == 0 {
        session.ClearPool();
        return;
      }
      var tokens := SortLongestFirst(Tokens(kanas));
      var matched := FilterWords(words, tokens);
      SortingTokensChangesNothing(words, Tokens(kanas));
      session.SetPool(matched);
    }

    /** `handleKanaSelectionChange`: adopt the list, refilter, save the selected romaji. */
    method HandleKanaSelectionChange(updated: seq<Kana>)
      modifies this, session
      ensures kanaList == updated && allWords == old(allWords)
      ensures storedRomaji == Some(SelectedRomaji(updated))
      ensures Selected(updated) == [] ==> session.display == [] && session.used == old(session.used)
      ensures Selected(updated) != [] ==> session.display == MatchingWords(allWords, Tokens(updated)) && session.used == []
      ensures session.current == old(session.current) && session.started == old(session.started)
      ensures session.showHint == old(session.showHint) && session.mixedKana == old(session.mixedKana)
      ensures session.practice == old(session.practice) && session.mode == old(session.mode)
    {
      kanaList := updated;
      UpdateDisplayWords(allWords, updated);
      storedRomaji := Some(SelectedRomaji(updated));
    }

    /** `loadData`: the words load, then the kana load with the saved romaji restored onto it,
        then the filter. A failed load stops the sequence where it fails. */
    method LoadData(words: Result<seq<StudyItem>>, kanas: Result<seq<Kana>>, saved: Option<seq<string>>)
      modifies this, session
      ensures words.Err? ==> allWords == old(allWords) && kanaList == old(kanaList) && session.Pools() == old(session.Pools())
      ensures words.Ok? ==> allWords == words.value
      ensures words.Ok? && kanas.Err? ==> kanaList == old(kanaList) && session.Pools() == old(session.Pools())
      ensures words.Ok? && kanas.Ok? ==> kanaList == RestoreByRomaji(kanas.value, saved)
      ensures words.Ok? && kanas.Ok? && Selected(kanaList) != [] ==>
        session.display == MatchingWords(allWords, Tokens(kanaList)) && session.used == []
      ensures words.Ok? && kanas.Ok? && Selected(kanaList) == [] ==>
        session.display == [] && session.used == old(session.used)
      ensures storedRomaji == old(storedRomaji) && session.current == old(session.current)
      ensures session.started == old(session.started)
      ensures session.showHint == old(session.showHint) && session.mixedKana == old(session.mixedKana)
      ensures session.practice == old(session.practice) && session.mode == old(session.mode)
    {
      if words.Err? {
        return;
      }
      allWords := words.value;
      if kanas.Err? {
        return;
      }
      kanaList := RestoreByRomaji(kanas.value, saved);
      UpdateDisplayWords(words.value, kanaList);
    }

    /** `handleStart`. */
    method HandleStart(index: nat, kanaBit: bool) returns (accepted: bool)
      requires IndexFits(index, |session.display|)
      modifies session
      ensures accepted <==> old(session.display) != []
      ensures !accepted ==> session.Pools() == old(session.Pools()) && session.current == old(session.current) &&
                            session.started == old(session.started) && session.showHint == old(session.showHint) &&
                            session.mixedKana == old(session.mixedKana)
      ensures accepted ==> session.started && session.display == RemoveAt(old(session.display), index) &&
                           session.used == [old(session.display)[index]] &&
                           session.current == PromptFor(old(session.display)[index], session.mode, old(session.mixedKana)) &&
                           session.showHint == (session.practice == Learning) &&
                           session.mixedKana == (if session.mode == Mixed then kanaBit else old(session.mixedKana))
      ensures session.practice == old(session.practice) && session.mode == old(session.mode)
    {
      accepted := session.Start(index, kanaBit);
    }

    /** `getNextWord`. */
    method GetNextWord(index: nat, kanaBit: bool) returns (o: NextOutcome)
      requires IndexFits(index, |session.display|)
      modifies session
      ensures o == OutcomeOf(old(session.Pools()), index)
      ensures session.Pools() == Advance(old(session.Pools()), index)
      ensures o.Drawn? ==> session.current == PromptFor(old(session.display)[index], session.mode, old(session.mixedKana))
      ensures !o.Drawn? ==> session.current == old(session.current)
      ensures session.showHint == (session.practice == Learning)
      ensures session.mixedKana == (if session.mode == Mixed then kanaBit else old(session.mixedKana))
      ensures session.started == old(session.started) && session.practice == old(session.practice) &&
              session.mode == old(session.mode)
    {
      o := session.GetNext(index, kanaBit);
    }
  }
}
