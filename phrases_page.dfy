/** The phrase page (`src/pages/Phrases.tsx`): the catalogue by category, the set of
    selected categories (a `Set`, kept here as a duplicate-free list in insertion order), the
    saved categories, and the practice session over the selected categories' phrases. */
module PhrasesPage {
  import opened Entries
  import opened Seqs
  import opened Filters
  import opened ItemDisplay
  import opened ItemSession

  /** The category selected before anything is saved. */
  const DefaultCategory: string := "greeting"

  class PhrasesState {
    var allPhrases: seq<Group>
    var categories: seq<string>
    /** The list saved under the page's category key. */
    var storedCategories: Option<seq<string>>
    const session: ItemPractice

    /** The selected categories form a set. */
    predicate Valid()
      reads this
    {
      Distinct(categories)
    }

    constructor ()
      ensures Valid()
      ensures allPhrases == [] && categories == [DefaultCategory] && storedCategories == None
      ensures fresh(session) && session.display == [] && session.used == []
    {
      allPhrases, categories, storedCategories := [], [DefaultCategory], None;
      session := new ItemPractice();
    }

    /** `updateDisplayPhrases`: the pool is rebuilt from the given categories and `used` is
        emptied. */
    method UpdateDisplayPhrases(cats: seq<string>, phrases: seq<Group>)
      modifies session
      ensures session.display == PhrasePool(cats, phrases) && session.used == []
      ensures session.current == old(session.current) && session.started == old(session.started)
      ensures session.showHint == old(session.showHint) && session.mixedKana == old(session.mixedKana)
      ensures session.practice == old(session.practice) && session.mode == old(session.mode)
    {
      var pool := BuildPhrasePool(cats, phrases);
      session.SetPool(pool);
    }

    /** `loadPhrasesData`: a non-empty saved list becomes the selected set (duplicates
        dropped) and the pool; otherwise the pool is built from the default category and the
        selected set is left as it was. */
    method LoadPhrasesData(data: seq<Group>, saved: Option<seq<string>>)
      requires Valid()
      modifies this, session
      ensures Valid()
      ensures allPhrases == data && storedCategories == old(storedCategories)
      ensures saved.Some? && saved.value != [] ==>
        categories == Dedupe(saved.value) && session.display == PhrasePool(categories, data)
      ensures saved.None? || saved.value == [] ==>
        categories == old(categories) && session.display == PhrasePool([DefaultCategory], data)
      ensures session.used == [] && session.current == old(session.current) && session.started == old(session.started)
      ensures session.showHint == old(session.showHint) && session.mixedKana == old(session.mixedKana)
      ensures session.practice == old(session.practice) && session.mode == old(session.mode)
    {
      allPhrases := data;
      if saved.Some? && |saved.value| > 0 {
        categories := Dedupe(saved.value);
        UpdateDisplayPhrases(Dedupe(saved.value), data);
      } else {
        UpdateDisplayPhrases([DefaultCategory], data);
      }
    }

    /** `handleCategoryToggle`: flips one category's membership, unless that would leave no
        category, in which case nothing changes; an accepted toggle is saved and rebuilds the
        pool. */
    method HandleCategoryToggle(c: string) returns (accepted: bool)
      requires Valid()
      modifies this, session
      ensures Valid()
      ensures accepted <==> !(c in old(categories) && forall x :: x in old(categories) ==> x == c)
      ensures !accepted ==> categories == old(categories) && storedCategories == old(storedCategories) &&
                            session.Pools() == old(session.Pools())
      ensures accepted ==> categories == ToggleCategory(old(categories), c) && storedCategories == Some(categories) &&
                           session.display == PhrasePool(categories, allPhrases) && session.used == []
      ensures c !in old(categories) ==>
        session.display == PhrasePool(old(categories), allPhrases) + Lookup(allPhrases, c).GetOr([])
      ensures forall x :: x != c ==> (x in categories <==> x in old(categories))
      ensures allPhrases == old(allPhrases) && session.current == old(session.current)
      ensures session.started == old(session.started)
      ensures session.showHint == old(session.showHint) && session.mixedKana == old(session.mixedKana)
      ensures session.practice == old(session.practice) && session.mode == old(session.mode)
    {
      PhrasePoolAppend(categories, c, allPhrases);
      var updated := ToggleCategory(categories, c);
      ToggleEmptiesOnlyTheLast(categories, c);
      if |updated| == 0 {
        return false;
      }
      categories := updated;
      storedCategories := Some(updated);
      UpdateDisplayPhrases(updated, allPhrases);
      return true;
    }

    /** `handleStart`. */
    method HandleStart(index: nat, kanaBit: bool) returns (accepted: bool)
      requires IndexFits(index, |session.display|)
      modifies session
      ensures accepted <==> old(session.display) != []
      ensures !accepted ==> session.Pools() == old(session.Pools()) && session.current == old(session.current) &&
                            session.started == old(session.started) && session.showHint == old(session.showHint) &&
                            session.mixedKana == old(session.mixedKana)
      ensures accepted ==> session.started && session.display == RemoveAt(old(session.display), index) &&
                           session.used == [old(session.display)[index]] &&
                           session.current == PromptFor(old(session.display)[index], session.mode, old(session.mixedKana)) &&
                           session.showHint == (session.practice == Learning) &&
                           session.mixedKana == (if session.mode == Mixed then kanaBit else old(session.mixedKana))
      ensures session.practice == old(session.practice) && session.mode == old(session.mode)
    {
      accepted := session.Start(index, kanaBit);
    }

    /** `getNextPhrase`. */
    method GetNextPhrase(index: nat, kanaBit: bool) returns (o: NextOutcome)
      requires IndexFits(index, |session.display|)
      modifies session
      ensures o == OutcomeOf(old(session.Pools()), index)
      ensures session.Pools() == Advance(old(session.Pools()), index)
      ensures o.Drawn? ==> session.current == PromptFor(old(session.display)[index], session.mode, old(session.mixedKana))
      ensures !o.Drawn? ==> session.current == old(session.current)
      ensures session.showHint == (session.practice == Learning)
      ensures session.mixedKana == (if session.mode == Mixed then kanaBit else old(session.mixedKana))
      ensures session.started == old(session.started) && session.practice == old(session.practice) &&
              session.mode == old(session.mode)
    {
      o := session.GetNext(index, kanaBit);
    }
  }
}
