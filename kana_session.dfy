/** The kana practice session shared by the two kana pages (`src/pages/Kana.tsx` and the
    single-page `app/page.tsx`): the kana list, the draw pool, the current prompt and the
    remind flag, and the "next" press with its reject-and-redraw policy. */
module KanaSession {
  import opened Entries
  import opened Seqs
  import opened KanaDisplay
  import opened KanaSelection
  import opened Decks

  /** One use of the random source: the pool index `Math.floor(Math.random() * n)` and the
      coin `Math.round(Math.random())` that the "mixed" and "swap" modes read. */
  datatype Draw = Draw(index: nat, coin: bool)

  /** The current prompt. `key` is the romaji on the kana page and the id on the single page. */
  datatype KanaPrompt = KanaPrompt(key: string, displayText: string, remind: string)

  /** What one press did: nothing (empty pool), showed a prompt drawn at `index`, put the used
      entries back (the only entry would repeat), or kept redrawing until the supplied draws ran
      out (the page itself would recurse again). */
  datatype Outcome = EmptyPool | Shown(index: nat, prompt: KanaPrompt) | Recycled | Stalled

  /** The draws fit a pool of `n` entries (an empty pool reads none). */
  predicate DrawsFit(draws: seq<Draw>, n: nat)
  {
    n == 0 || forall j :: 0 <= j < |draws| ==> draws[j].index < n
  }

  /** The prompt built from kana `k` and the coin. */
  function PromptOf(k: Kana, mode: KanaMode, coin: bool, byId: bool): (p: KanaPrompt)
    ensures p.displayText == ShownText(k, mode, coin)
    ensures p.remind == RemindText(k, p.displayText)
  {
    var shown := ShownText(k, mode, coin);
    KanaPrompt(KeyOf(k, byId), shown, RemindText(k, shown))
  }

  /** Draw `j` would show the text already on screen. */
  predicate Repeats(display: seq<Kana>, current: string, mode: KanaMode, draws: seq<Draw>, j: nat)
    requires display != [] && DrawsFit(draws, |display|) && j < |draws|
  {
    ShownText(display[draws[j].index], mode, draws[j].coin) == current
  }

  /** The position of the first draw that would not repeat `current` (`|draws|` if all do). */
  function FirstNew(display: seq<Kana>, current: string, mode: KanaMode, draws: seq<Draw>): (j: nat)
    requires display != [] && DrawsFit(draws, |display|)
    ensures j <= |draws|
    ensures forall j' :: 0 <= j' < j ==> Repeats(display, current, mode, draws, j')
    ensures j < |draws| ==> !Repeats(display, current, mode, draws, j)
    decreases |draws|
  {
    if draws == [] || !Repeats(display, current, mode, draws, 0) then 0
    else
      var rest := draws[1..];
      var after := FirstNew(display, current, mode, rest);
      assert forall j :: 0 <= j < |rest| ==> rest[j] == draws[j + 1];
      forall j' | 0 < j' < 1 + after
        ensures Repeats(display, current, mode, draws, j')
      {
        assert Repeats(display, current, mode, rest, j' - 1);
      }
      1 + after
  }

  /** The outcome of one "next" press on pool `display`, when the current prompt shows
      `current`: a draw whose text repeats `current` is rejected; with more than one entry the
      page redraws (consuming the next draw), with exactly one it recycles `used`. The prompt
      shown is built from the first draw that does not repeat. */
  function Press(display: seq<Kana>, current: string, mode: KanaMode, byId: bool, draws: seq<Draw>): (o: Outcome)
    requires DrawsFit(draws, |display|)
    ensures o.EmptyPool? <==> display == []
    ensures o.Shown? ==> (display != [] && o.index < |display| && o.prompt.displayText != current &&
      var j := FirstNew(display, current, mode, draws);
      j < |draws| && o.index == draws[j].index && o.prompt == PromptOf(display[o.index], mode, draws[j].coin, byId))
    ensures o.Recycled? <==> (|display| == 1 && draws != [] && Repeats(display, current, mode, draws, 0))
    ensures o.Stalled? <==> (display != [] && (|display| > 1 || draws == []) &&
                             forall j :: 0 <= j < |draws| ==> Repeats(display, current, mode, draws, j))
    decreases |draws|
  {
    if display == [] then EmptyPool
    else if draws == [] then Stalled
    else
      var k := display[draws[0].index];
      var p := PromptOf(k, mode, draws[0].coin, byId);
      if p.displayText != current then
        assert !Repeats(display, current, mode, draws, 0);
        Shown(draws[0].index, p)
      else if |display| > 1 then
        var rest := draws[1..];
        assert forall j :: 0 <= j < |rest| ==> rest[j] == draws[j + 1];
        assert FirstNew(display, current, mode, draws) == 1 + FirstNew(display, current, mode, rest);
        Press(display, current, mode, byId, rest)
      else Recycled
  }

  /** The pools after a press: a shown entry leaves the pool only when others remain;
      a recycle appends `used` to `display`. */
  function Settle(d: Deck<Kana>, o: Outcome): (r: Deck<Kana>)
    ensures Contents(r) == Contents(d)
    ensures |r.display| + |r.used| == |d.display| + |d.used|
    ensures d.display != [] ==> r.display != []
  {
    match o
    case Shown(i, _) => if 1 < |d.display| && i < |d.display| then Take(d, i) else d
    case Recycled => Recycle(d)
    case _ => d
  }

  /** The pools after an accepted draw, spelled out. */
  lemma SettleShown(d: Deck<Kana>, i: nat, p: KanaPrompt)
    requires i < |d.display|
    ensures 1 < |d.display| ==> Settle(d, Shown(i, p)) == Deck(RemoveAt(d.display, i), d.used + [d.display[i]])
    ensures |d.display| <= 1 ==> Settle(d, Shown(i, p)) == d
  {
  }

  /** One press never empties a non-empty pool and never loses or duplicates an entry. */
  lemma PressKeepsPool(d: Deck<Kana>, current: string, mode: KanaMode, byId: bool, draws: seq<Draw>)
    requires DrawsFit(draws, |d.display|)
    ensures var o := Press(d.display, current, mode, byId, draws);
      var r := Settle(d, o);
      Contents(r) == Contents(d) && (d.display != [] ==> r.display != []) &&
      (o.Shown? && |d.display| > 1 ==> r.used == d.used + [d.display[o.index]])
  {
  }

  /** A draw that differs from the current prompt ends the redrawing: if any supplied draw
      would show something new, the press does not stall. */
  lemma {:induction false} NewTextEndsRedraw(display: seq<Kana>, current: string, mode: KanaMode, byId: bool, draws: seq<Draw>, j: nat)
    requires DrawsFit(draws, |display|) && display != []
    requires j < |draws| && !Repeats(display, current, mode, draws, j)
    ensures !Press(display, current, mode, byId, draws).Stalled?
  {
  }

  /** The unbounded redraw: in "romaji" mode a pool of じ and ぢ (both "ji") while the prompt
      shows "ji" rejects every draw, however many are supplied. */
  lemma RomajiTwinsNeverAdvance(draws: seq<Draw>)
    requires DrawsFit(draws, 2)
    ensures var ji1 := Kana("zi", "ji", "じ", "ジ", "じ", "ジ", "ji", Dakuon, true, []);
      var ji2 := Kana("di", "ji", "ぢ", "ヂ", "ぢ", "ヂ", "ji", Dakuon, true, []);
      Press([ji1, ji2], "ji", Romaji, false, draws) == Stalled
  {
    var ji1 := Kana("zi", "ji", "じ", "ジ", "じ", "ジ", "ji", Dakuon, true, []);
    var ji2 := Kana("di", "ji", "ぢ", "ヂ", "ぢ", "ヂ", "ji", Dakuon, true, []);
    var pool := [ji1, ji2];
    assert forall j :: 0 <= j < |draws| ==> Repeats(pool, "ji", Romaji, draws, j);
  }

  /** The state of one kana page. */
  class KanaPractice {
    var kanaList: seq<Kana>
    var display: seq<Kana>
    var used: seq<Kana>
    var current: KanaPrompt
    var started: bool
    var showRemind: bool
    var mode: KanaMode
    var learning: bool
    /** The value saved under the page's selection key. */
    var stored: Option<seq<Kana>>
    /** The single page keys prompts by id, the kana page by romaji. */
    const byId: bool

    /** The initial `useState` values. */
    constructor (byId: bool)
      ensures this.byId == byId
      ensures kanaList == [] && display == [] && used == [] && stored == None
      ensures current == KanaPrompt("", "", "") && !started && !showRemind && mode == Mixed && !learning
    {
      this.byId := byId;
      kanaList, display, used, stored := [], [], [], None;
      current := KanaPrompt("", "", "");
      started, showRemind, mode, learning := false, false, Mixed, false;
    }

    function Pools(): Deck<Kana>
      reads this
    {
      Deck(display, used)
    }

    /** `refreshDisplayData`: the pool becomes the selected kana in list order. */
    method RefreshDisplayData()
      modifies this
      ensures display == Selected(kanaList) && used == []
      ensures kanaList == old(kanaList) && current == old(current) && stored == old(stored)
      ensures started == old(started) && showRemind == old(showRemind) && mode == old(mode) && learning == old(learning)
    {
      display := Selected(kanaList);
      used := [];
    }

    /** `setKanaList` followed by the effect on `[kanaList]`, which refreshes the pool only
        when the new list is non-empty. */
    method SetKanaList(list: seq<Kana>)
      modifies this
      ensures kanaList == list
      ensures |list| > 0 ==> display == Selected(list) && used == []
      ensures |list| == 0 ==> display == old(display) && used == old(used)
      ensures current == old(current) && stored == old(stored)
      ensures started == old(started) && showRemind == old(showRemind) && mode == old(mode) && learning == old(learning)
    {
      kanaList := list;
      if |list| > 0 {
        RefreshDisplayData();
      }
    }

    /** The accepted-draw step: the prompt is replaced, and the drawn entry moves to `used`
        unless it is the last one in the pool. */
    method Accept(i: nat, prompt: KanaPrompt)
      requires i < |display|
      modifies this
      ensures current == prompt
      ensures Pools() == Settle(old(Pools()), Shown(i, prompt))
      ensures showRemind == old(showRemind) && kanaList == old(kanaList) && stored == old(stored)
      ensures started == old(started) && mode == old(mode) && learning == old(learning)
    {
      SettleShown(Pools(), i, prompt);
      current := prompt;
      if |display| > 1 {
        var k := display[i];
        var rest := RemoveAt(display, i);
        display := rest;
        used := used + [k];
      }
    }

    /** The one-entry repeat step: `used` is appended back onto `display`. */
    method RecycleUsed()
      modifies this
      ensures Pools() == Recycle(old(Pools()))
      ensures current == old(current) && showRemind == old(showRemind) && kanaList == old(kanaList) && stored == old(stored)
      ensures started == old(started) && mode == old(mode) && learning == old(learning)
    {
      display := display + used;
      used := [];
    }

    /** `getRandomKana`, with the random source supplied as `draws` (one per redraw). */
    method GetRandomKana(draws: seq<Draw>) returns (o: Outcome)
      requires DrawsFit(draws, |display|)
      modifies this
      ensures o == Press(old(display), old(current.displayText), mode, byId, draws)
      ensures Pools() == Settle(old(Pools()), o)
      ensures o.Shown? ==> current == o.prompt
      ensures !o.Shown? ==> current == old(current)
      ensures showRemind == learning
      ensures kanaList == old(kanaList) && stored == old(stored)
      ensures started == old(started) && mode == old(mode) && learning == old(learning)
      decreases |draws|
    {
      showRemind := learning;
      if |display| == 0 {
        return EmptyPool;
      }
      if draws == [] {
        return Stalled;
      }
      var i := draws[0].index;
      var prompt := PromptOf(display[i], mode, draws[0].coin, byId);
      if current.displayText != prompt.displayText {
        o := Shown(i, prompt);
        Accept(i, prompt);
      } else if |display| > 1 {
        assert DrawsFit(draws[1..], |display|);
        o := GetRandomKana(draws[1..]);
      } else {
        o := Recycled;
        RecycleUsed();
      }
    }

    /** `handleStart`. */
    method HandleStart(draws: seq<Draw>) returns (o: Outcome)
      requires DrawsFit(draws, |display|)
      modifies this
      ensures started
      ensures o == Press(old(display), old(current.displayText), mode, byId, draws)
      ensures Pools() == Settle(old(Pools()), o)
      ensures o.Shown? ==> current == o.prompt
      ensures !o.Shown? ==> current == old(current)
      ensures showRemind == learning
      ensures kanaList == old(kanaList) && stored == old(stored) && mode == old(mode) && learning == old(learning)
    {
      started := true;
      o := GetRandomKana(draws);
    }

    /** `handleLearningModeChange`: the remind follows the new mode only once started. */
    method HandleLearningModeChange(isLearning: bool)
      modifies this
      ensures learning == isLearning
      ensures showRemind == (if old(started) then isLearning else old(showRemind))
      ensures Pools() == old(Pools()) && current == old(current) && kanaList == old(kanaList)
      ensures started == old(started) && mode == old(mode) && stored == old(stored)
    {
      learning := isLearning;
      if started {
        showRemind := isLearning;
      }
    }

    /** The "h" shortcut flips the remind. */
    method ToggleRemind()
      modifies this
      ensures showRemind == !old(showRemind)
      ensures Pools() == old(Pools()) && current == old(current) && kanaList == old(kanaList)
      ensures started == old(started) && mode == old(mode) && learning == old(learning) && stored == old(stored)
    {
      showRemind := !showRemind;
    }

    /** The hint button only ever shows the remind. */
    method RevealRemind()
      modifies this
      ensures showRemind
      ensures Pools() == old(Pools()) && current == old(current) && kanaList == old(kanaList)
      ensures started == old(started) && mode == old(mode) && learning == old(learning) && stored == old(stored)
    {
      showRemind := true;
    }

    /** The kana page's load: fresh catalogue data, merged with the saved selections when the
        saved list is non-empty; a failed load leaves the page as it was. The saved display
        mode and learning flag are applied when present. */
    method LoadKanaData(data: Result<seq<Kana>>, saved: Option<seq<Kana>>, savedMode: Option<KanaMode>, savedLearning: Option<bool>)
      modifies this
      ensures data.Err? ==> kanaList == old(kanaList) && Pools() == old(Pools()) && mode == old(mode) && learning == old(learning)
      ensures data.Ok? ==> kanaList == MergeSaved(data.value, saved)
      ensures data.Ok? && |data.value| > 0 ==> display == Selected(kanaList) && used == []
      ensures data.Ok? && |data.value| == 0 ==> Pools() == old(Pools())
      ensures data.Ok? ==> mode == savedMode.GetOr(old(mode)) && learning == savedLearning.GetOr(old(learning))
      ensures current == old(current) && started == old(started) && showRemind == old(showRemind) && stored == old(stored)
    {
      if data.Ok? {
        SetKanaList(MergeSaved(data.value, saved));
        mode := savedMode.GetOr(mode);
        learning := savedLearning.GetOr(learning);
      }
    }

    /** The kana page's `handleKanaSelectionChange`: adopt the selector's list and save it. */
    method HandleKanaSelectionChange(updated: seq<Kana>)
      modifies this
      ensures kanaList == updated && stored == Some(updated)
      ensures |updated| > 0 ==> display == Selected(updated) && used == []
      ensures |updated| == 0 ==> Pools() == old(Pools())
      ensures current == old(current) && started == old(started) && mode == old(mode) && learning == old(learning)
      ensures showRemind == old(showRemind)
    {
      SetKanaList(updated);
      stored := Some(updated);
    }

    /** The single page's load: the saved list if there is one (an empty list counts),
        otherwise the built-in table. */
    method LoadStored(table: seq<Kana>, saved: Option<seq<Kana>>, savedMode: Option<KanaMode>, savedLearning: Option<bool>)
      modifies this
      ensures kanaList == saved.GetOr(table)
      ensures |kanaList| > 0 ==> display == Selected(kanaList) && used == []
      ensures |kanaList| == 0 ==> Pools() == old(Pools())
      ensures mode == savedMode.GetOr(old(mode)) && learning == savedLearning.GetOr(old(learning))
      ensures current == old(current) && started == old(started) && showRemind == old(showRemind) && stored == old(stored)
    {
      SetKanaList(saved.GetOr(table));
      mode := savedMode.GetOr(mode);
      learning := savedLearning.GetOr(learning);
    }

    /** The single page's `toggleKanaSelection(id)`, saved and followed by the refresh. */
    method ToggleKanaSelection(id: string)
      modifies this
      ensures kanaList == Toggle(old(kanaList), id, true) && stored == Some(kanaList)
      ensures |kanaList| > 0 ==> display == Selected(kanaList) && used == []
      ensures |kanaList| == 0 ==> Pools() == old(Pools())
      ensures current == old(current) && started == old(started) && mode == old(mode) && learning == old(learning)
      ensures showRemind == old(showRemind)
    {
      SetKanaList(Toggle(kanaList, id, true));
      stored := Some(kanaList);
    }

    /** The single page's `selectKanasByType(type, selected)`, saved and followed by the refresh. */
    method SelectKanasByType(t: FyType, s: bool)
      modifies this
      ensures kanaList == SelectByType(old(kanaList), t, s) && stored == Some(kanaList)
      ensures |kanaList| > 0 ==> display == Selected(kanaList) && used == []
      ensures |kanaList| == 0 ==> Pools() == old(Pools())
      ensures current == old(current) && started == old(started) && mode == old(mode) && learning == old(learning)
      ensures showRemind == old(showRemind)
    {
      SetKanaList(SelectByType(kanaList, t, s));
      stored := Some(kanaList);
    }
  }
}
