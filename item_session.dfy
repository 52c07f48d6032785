/** The practice session of the word and phrase pages: the draw pool, the current prompt,
    the hint flag and the stored "mixed" mode choice, and the "next" press that draws without
    rejection and refills from `used` once the pool runs dry. */
module ItemSession {
  import opened Entries
  import opened Seqs
  import opened Decks
  import opened ItemDisplay

  /** The current prompt; `item` is `null` before the first draw. */
  datatype ItemPrompt = ItemPrompt(item: Option<StudyItem>, displayText: string, hint: string)

  /** What one press did: drew the entry at `index`, refilled the pool from `used`, or found
      both lists empty ("no more"). */
  datatype NextOutcome = Drawn(index: nat) | Refilled | NoMore

  /** The prompt for `item` when the stored mixed choice is `mixedKana`. */
  function PromptFor(item: StudyItem, mode: ItemMode, mixedKana: bool): (p: ItemPrompt)
    ensures p.item == Some(item)
    ensures mode != Unlisted ==> p.displayText == (if ShowsKana(mode, mixedKana) then item.hiragana else item.japanese)
  {
    ItemPrompt(Some(item), DisplayText(item, mode, mixedKana), HintText(item, mode, mixedKana))
  }

  /** The index fits the pool (an empty pool reads none). */
  predicate IndexFits(index: nat, n: nat)
  {
    n == 0 || index < n
  }

  /** The pools after one press. */
  function Advance(d: Deck<StudyItem>, index: nat): (r: Deck<StudyItem>)
    requires IndexFits(index, |d.display|)
    ensures Contents(r) == Contents(d)
    ensures |r.display| + |r.used| == |d.display| + |d.used|
    ensures d.display != [] ==> |r.display| == |d.display| - 1 && r.used == d.used + [d.display[index]]
    ensures d.display == [] ==> r.display == d.used && r.used == []
  {
    if d.display != [] then Take(d, index) else Deck(d.used, [])
  }

  /** The outcome a press reports. */
  function OutcomeOf(d: Deck<StudyItem>, index: nat): (o: NextOutcome)
    ensures o.Drawn? <==> d.display != []
    ensures o.Refilled? <==> d.display == [] && d.used != []
    ensures o.NoMore? <==> d.display == [] && d.used == []
  {
    if d.display != [] then Drawn(index) else if d.used != [] then Refilled else NoMore
  }

  /** Once the pool runs dry, the next press brings every shown entry back and a full round
      after it shows each of them exactly once more. */
  lemma RefillThenRound(used: seq<StudyItem>, idxs: seq<nat>)
    requires used != [] && FitsPool(|used|, idxs) && |idxs| == |used|
    ensures var refilled := Advance(Deck([], used), 0);
      refilled == Deck(used, []) &&
      TakeAll(refilled, idxs).display == [] && multiset(TakeAll(refilled, idxs).used) == multiset(used)
  {
    RoundShowsEachOnce(Deck(used, []), idxs);
  }

  /** The session state of a word or phrase page. */
  class ItemPractice {
    var display: seq<StudyItem>
    var used: seq<StudyItem>
    var current: ItemPrompt
    var started: bool
    var showHint: bool
    var practice: PracticeMode
    var mode: ItemMode
    /** `mixedModeDisplay === "kana"`. */
    var mixedKana: bool

    /** The initial `useState` values. */
    constructor ()
      ensures display == [] && used == [] && current == ItemPrompt(None, "", "")
      ensures !started && !showHint && practice == Memory && mode == Mixed && mixedKana
    {
      display, used := [], [];
      current := ItemPrompt(None, "", "");
      started, showHint, practice, mode, mixedKana := false, false, Memory, Mixed, true;
    }

    function Pools(): Deck<StudyItem>
      reads this
    {
      Deck(display, used)
    }

    /** `getNextWord` / `getNextPhrase`, with `index` for `Math.floor(Math.random() * n)` and
        `kanaBit` for `Math.random() > 0.5`. The prompt is built with the mixed choice stored
        BEFORE this press; the new bit only takes effect on the next one. */
    method GetNext(index: nat, kanaBit: bool) returns (o: NextOutcome)
      requires IndexFits(index, |display|)
      modifies this
      ensures o == OutcomeOf(old(Pools()), index)
      ensures Pools() == Advance(old(Pools()), index)
      ensures o.Drawn? ==> current == PromptFor(old(display)[index], mode, old(mixedKana))
      ensures !o.Drawn? ==> current == old(current)
      ensures showHint == (practice == Learning)
      ensures mixedKana == (if mode == Mixed then kanaBit else old(mixedKana))
      ensures started == old(started) && practice == old(practice) && mode == old(mode)
    {
      showHint := practice == Learning;
      var shownKana := mixedKana;
      if mode == Mixed {
        mixedKana := kanaBit;
      }
      if |display| == 0 {
        if |used| > 0 {
          display := used;
          used := [];
          return Refilled;
        }
        return NoMore;
      }
      var item := display[index];
      current := PromptFor(item, mode, shownKana);
      var rest := RemoveAt(display, index);
      display := rest;
      used := used + [item];
      return Drawn(index);
    }

    /** `handleStart`: refused on an empty pool; otherwise `used` is cleared, the session
        starts and the first entry is drawn. */
    method Start(index: nat, kanaBit: bool) returns (accepted: bool)
      requires IndexFits(index, |display|)
      modifies this
      ensures accepted <==> old(display) != []
      ensures !accepted ==> Pools() == old(Pools()) && current == old(current) && started == old(started) &&
                            showHint == old(showHint) && mixedKana == old(mixedKana)
      ensures accepted ==> started && display == RemoveAt(old(display), index) && used == [old(display)[index]] &&
                           current == PromptFor(old(display)[index], mode, old(mixedKana)) &&
                           showHint == (practice == Learning) &&
                           mixedKana == (if mode == Mixed then kanaBit else old(mixedKana))
      ensures practice == old(practice) && mode == old(mode)
    {
      if |display| == 0 {
        return false;
      }
      used := [];
      started := true;
      var o := GetNext(index, kanaBit);
      return true;
    }

    /** `handleShowHint` (button and shortcut alike). */
    method ShowHint()
      modifies this
      ensures showHint
      ensures Pools() == old(Pools()) && current == old(current) && started == old(started)
      ensures practice == old(practice) && mode == old(mode) && mixedKana == old(mixedKana)
    {
      showHint := true;
    }

    /** The end of a pool rebuild: a new pool and an empty `used`. */
    method SetPool(pool: seq<StudyItem>)
      modifies this
      ensures display == pool && used == []
      ensures current == old(current) && started == old(started) && showHint == old(showHint)
      ensures practice == old(practice) && mode == old(mode) && mixedKana == old(mixedKana)
    {
      display := pool;
      used := [];
    }

    /** An empty pool with `used` left as it was (the word page with nothing selected). */
    method ClearPool()
      modifies this
      ensures display == [] && used == old(used)
      ensures current == old(current) && started == old(started) && showHint == old(showHint)
      ensures practice == old(practice) && mode == old(mode) && mixedKana == old(mixedKana)
    {
      display := [];
    }
  }
}
