/** Prompt and hint resolution on the word and phrase pages (the two pages carry the same
    pair of `switch` functions). */
module ItemDisplay {
  import opened Entries
  import opened Text

  /** The unified display modes. `Unlisted` is any other stored value, which the
      `default` branches handle. */
  datatype ItemMode = Mixed | KanaText | JapaneseText | Unlisted

  const LineBreak: string := "\n"

  /** Whether the prompt is the kana reading: always in "kana" mode, and in "mixed" mode
      when the stored mixed-mode choice is "kana". */
  predicate ShowsKana(mode: ItemMode, mixedKana: bool)
  {
    mode == KanaText || (mode == Mixed && mixedKana)
  }

  /** `getDisplayText`: `mixedKana` is the page's `mixedModeDisplay === "kana"`. */
  function DisplayText(item: StudyItem, mode: ItemMode, mixedKana: bool): (r: string)
    ensures ShowsKana(mode, mixedKana) ==> r == item.hiragana
    ensures mode != Unlisted && !ShowsKana(mode, mixedKana) ==> r == item.japanese
    ensures mode == Unlisted ==> r == item.chinese
  {
    match mode
    case Mixed => if mixedKana then item.hiragana else item.japanese
    case KanaText => item.hiragana
    case JapaneseText => item.japanese
    case Unlisted => item.chinese
  }

  /** `getHintText`: the facets not shown, one per line. */
  function HintText(item: StudyItem, mode: ItemMode, mixedKana: bool): (r: string)
    ensures mode != Unlisted ==>
      r == (if ShowsKana(mode, mixedKana) then item.japanese else item.hiragana) + LineBreak +
           item.romaji + LineBreak + item.chinese
    ensures r == "" <==> mode == Unlisted
  {
    match mode
    case Mixed =>
      if mixedKana then item.japanese + LineBreak + item.romaji + LineBreak + item.chinese
      else item.hiragana + LineBreak + item.romaji + LineBreak + item.chinese
    case KanaText => item.japanese + LineBreak + item.romaji + LineBreak + item.chinese
    case JapaneseText => item.hiragana + LineBreak + item.romaji + LineBreak + item.chinese
    case Unlisted => ""
  }

  predicate LineFree(item: StudyItem)
  {
    FreeOf(item.hiragana, LineBreak) && FreeOf(item.japanese, LineBreak) &&
    FreeOf(item.romaji, LineBreak) && FreeOf(item.chinese, LineBreak)
  }

  /** In the three listed modes the prompt is the kana reading or the Japanese writing, and
      the hint's lines are the other of the two, then the romaji, then the translation: the
      prompt and the hint together carry all four facets. */
  lemma {:induction false} HintCompletesPrompt(item: StudyItem, mode: ItemMode, mixedKana: bool)
    requires mode != Unlisted && LineFree(item)
    ensures ShowsKana(mode, mixedKana) ==>
      DisplayText(item, mode, mixedKana) == item.hiragana &&
      SplitOn(HintText(item, mode, mixedKana), LineBreak) == [item.japanese, item.romaji, item.chinese]
    ensures !ShowsKana(mode, mixedKana) ==>
      DisplayText(item, mode, mixedKana) == item.japanese &&
      SplitOn(HintText(item, mode, mixedKana), LineBreak) == [item.hiragana, item.romaji, item.chinese]
  {
    var other := if ShowsKana(mode, mixedKana) then item.japanese else item.hiragana;
    var tail := item.romaji + LineBreak + item.chinese;
    assert HintText(item, mode, mixedKana) == other + LineBreak + tail;
    SplitJoin(other, LineBreak, tail);
    SplitJoin(item.romaji, LineBreak, item.chinese);
    SplitWhole(item.chinese, LineBreak);
  }
}
