/** Prompt and hint resolution on the kana pages: which facet of a drawn kana is
    shown for a display mode, the "remind" string built from the other two facets,
    and the labels put over the two halves of that string. */
module KanaDisplay {
  import opened Entries
  import opened Text
  import opened Seqs

  /** The kana display modes. `Unlisted` stands for any other stored value: the page's
      `switch` has no default branch, so such a mode shows the empty string. */
  datatype KanaMode = Mixed | Hiragana | Katakana | Romaji | Swap | Unlisted

  /** The separator between the two halves of a remind string (two spaces). */
  const Gap: string := "  "

  const HiraganaLabel: string := "平假名"
  const KatakanaLabel: string := "片假名"
  const RomajiLabel: string := "羅馬音"

  /** The text shown for `k`. `coin` is `Math.round(Math.random()) === 1`; it is read in the
      "mixed" and "swap" modes only. */
  function ShownText(k: Kana, mode: KanaMode, coin: bool): (r: string)
    ensures mode == Hiragana ==> r == k.displayText
    ensures mode == Katakana ==> r == k.displayText2
    ensures mode == Romaji ==> r == k.remind
    ensures mode == Mixed || mode == Swap ==> r == k.displayText || r == k.displayText2
    ensures mode == Unlisted ==> r == ""
  {
    match mode
    case Mixed => if coin then k.displayText else k.displayText2
    case Hiragana => k.displayText
    case Katakana => k.displayText2
    case Romaji => k.remind
    case Swap => if coin then k.displayText else k.displayText2
    case Unlisted => ""
  }

  /** The remind string: the first facet equal to `shown` (tested in the order hiragana,
      katakana, romaji) decides which two facets are joined; none equal gives "". */
  function RemindText(k: Kana, shown: string): (r: string)
    ensures r != "" <==> shown in Facets(k)
  {
    if shown == k.displayText then k.displayText2 + Gap + k.remind
    else if shown == k.displayText2 then k.displayText + Gap + k.remind
    else if shown == k.remind then k.displayText + Gap + k.displayText2
    else ""
  }

  /** The three facets in the order the remind rule tests them. */
  function Facets(k: Kana): seq<string>
  {
    [k.displayText, k.displayText2, k.remind]
  }

  predicate DistinctFacets(k: Kana)
  {
    k.displayText != k.displayText2 && k.displayText != k.remind && k.displayText2 != k.remind
  }

  /** No facet contains a space, so the two-space join can be split back. */
  predicate SpaceFree(k: Kana)
  {
    FreeOf(k.displayText, Gap) && FreeOf(k.displayText2, Gap) && FreeOf(k.remind, Gap)
  }

  /** The "mixed" and "swap" modes resolve the prompt by the same coin flip. */
  lemma MixedAndSwapAgree(k: Kana, coin: bool)
    ensures ShownText(k, Mixed, coin) == ShownText(k, Swap, coin)
    ensures ShownText(k, Mixed, coin) == (if coin then k.displayText else k.displayText2)
  {
  }

  /** Splitting the remind string at the gap gives back exactly the two facets that are not
      shown, in catalogue order. */
  lemma {:induction false} RemindNamesTheOtherFacets(k: Kana, mode: KanaMode, coin: bool)
    requires mode != Unlisted && DistinctFacets(k) && SpaceFree(k)
    ensures var shown := ShownText(k, mode, coin);
      SplitOn(RemindText(k, shown), Gap) == Without(Facets(k), shown)
  {
    var shown := ShownText(k, mode, coin);
    WithoutShownFacet(k, shown);
    var a, b := if shown == k.displayText then k.displayText2 else k.displayText,
                if shown == k.remind then k.displayText2 else k.remind;
    assert RemindText(k, shown) == a + Gap + b;
    SplitJoin(a, Gap, b);
    SplitWhole(b, Gap);
  }

  /** Removing the shown facet from the three leaves the other two, in order. */
  lemma WithoutShownFacet(k: Kana, shown: string)
    requires DistinctFacets(k) && shown in Facets(k)
    ensures Without(Facets(k), shown) ==
      [if shown == k.displayText then k.displayText2 else k.displayText,
       if shown == k.remind then k.displayText2 else k.remind]
  {
    Filter3(k.displayText, k.displayText2, k.remind, NotEqual(shown));
  }

  /** An illustration, not a general property: あ/ア/a in "hiragana" mode shows あ with
      remind "ア  a". */
  lemma HiraganaModeExample()
    ensures var k := Kana("a", "a", "あ", "ア", "あ", "ア", "a", Seion, true, []);
      ShownText(k, Hiragana, false) == "あ" && RemindText(k, ShownText(k, Hiragana, false)) == "ア  a"
  {
  }

  /** The UTF-16 code unit `charCodeAt(0)` reads for `c`: the character itself in the basic
      plane, its high surrogate above it. */
  function FirstCodeUnit(c: char): (u: int)
    ensures c as int < 0x1_0000 ==> u == c as int
    ensures c as int >= 0x1_0000 ==> 0xD800 <= u <= 0xDBFF
  {
    if c as int < 0x1_0000 then c as int else 0xD800 + (c as int - 0x1_0000) / 0x400
  }

  predicate InHiraganaBlock(c: char)
  {
    0x3040 <= FirstCodeUnit(c) <= 0x309F
  }

  predicate InKatakanaBlock(c: char)
  {
    0x30A0 <= FirstCodeUnit(c) <= 0x30FF
  }

  /** The script name of a hint part: romaji if the whole part is ASCII letters, otherwise
      by the Unicode block of its first code unit, "" when empty or in neither block. */
  function GetKanaType(text: string): (r: string)
    ensures r == RomajiLabel <==> IsRomaji(text)
    ensures r == HiraganaLabel <==> |text| > 0 && !IsRomaji(text) && InHiraganaBlock(text[0])
    ensures r == KatakanaLabel <==> |text| > 0 && !IsRomaji(text) && InKatakanaBlock(text[0])
    ensures r == "" <==> text == [] || (!IsRomaji(text) && !InHiraganaBlock(text[0]) && !InKatakanaBlock(text[0]))
  {
    if text == [] then ""
    else if IsRomaji(text) then RomajiLabel
    else if InHiraganaBlock(text[0]) then HiraganaLabel
    else if InKatakanaBlock(text[0]) then KatakanaLabel
    else ""
  }

  /** A catalogue kana: hiragana facet in the hiragana block, katakana facet in the katakana
      block, romaji facet made of ASCII letters. */
  predicate WellFormed(k: Kana)
  {
    |k.displayText| > 0 && InHiraganaBlock(k.displayText[0]) &&
    |k.displayText2| > 0 && InKatakanaBlock(k.displayText2[0]) &&
    IsRomaji(k.remind)
  }

  /** The name of the facet `part` is, for a kana with distinct facets. */
  function FacetName(k: Kana, part: string): string
  {
    if part == k.displayText then HiraganaLabel
    else if part == k.displayText2 then KatakanaLabel
    else RomajiLabel
  }

  lemma WellFormedFacetsDiffer(k: Kana)
    requires WellFormed(k)
    ensures DistinctFacets(k)
    ensures !IsRomaji(k.displayText) && !IsRomaji(k.displayText2)
  {
    assert !IsAsciiLetter(k.displayText[0]);
    assert !IsAsciiLetter(k.displayText2[0]);
    assert k.displayText[0] != k.displayText2[0];
  }

  /** Labelling each remind part with `GetKanaType` names the facet it really is. */
  lemma RemindLabelsNameTheirScripts(k: Kana, mode: KanaMode, coin: bool)
    requires WellFormed(k) && SpaceFree(k) && mode != Unlisted
    ensures var parts := SplitOn(RemindText(k, ShownText(k, mode, coin)), Gap);
      |parts| == 2 && forall j :: 0 <= j < 2 ==> GetKanaType(parts[j]) == FacetName(k, parts[j])
  {
    WellFormedFacetsDiffer(k);
    RemindNamesTheOtherFacets(k, mode, coin);
    var shown := ShownText(k, mode, coin);
    WithoutShownFacet(k, shown);
  }

  /** The label rule of the single-page version, as written: a part equal to the SHOWN
      text is "片假名", a romaji part "羅馬音", anything else "平假名". */
  function InlineLabelAsWritten(part: string, shown: string): (r: string)
    ensures r == KatakanaLabel || r == RomajiLabel || r == HiraganaLabel
    ensures r == KatakanaLabel <==> part == shown
    ensures r == RomajiLabel <==> part != shown && IsRomaji(part)
  {
    if part == shown then KatakanaLabel
    else if IsRomaji(part) then RomajiLabel
    else HiraganaLabel
  }

  /** Whenever the katakana facet is one of the remind parts, the written rule calls it
      "平假名": a remind part never equals the shown text, so the "片假名" branch is dead. */
  lemma InlineLabelMisnamesKatakana(k: Kana, mode: KanaMode, coin: bool)
    requires WellFormed(k) && SpaceFree(k) && mode != Unlisted
    requires ShownText(k, mode, coin) != k.displayText2
    ensures var shown := ShownText(k, mode, coin);
      k.displayText2 in SplitOn(RemindText(k, shown), Gap) &&
      InlineLabelAsWritten(k.displayText2, shown) == HiraganaLabel &&
      GetKanaType(k.displayText2) == KatakanaLabel
  {
    WellFormedFacetsDiffer(k);
    RemindNamesTheOtherFacets(k, mode, coin);
    WithoutShownFacet(k, ShownText(k, mode, coin));
  }

  /** The concrete input: あ/ア/a in "hiragana" mode; the first part ア is labelled "平假名". */
  lemma InlineLabelExample()
    ensures var k := Kana("a", "a", "あ", "ア", "あ", "ア", "a", Seion, true, []);
      var parts := SplitOn(RemindText(k, ShownText(k, Hiragana, false)), Gap);
      parts == ["ア", "a"] &&
      InlineLabelAsWritten(parts[0], "あ") == HiraganaLabel &&
      GetKanaType(parts[0]) == KatakanaLabel
  {
    var k := Kana("a", "a", "あ", "ア", "あ", "ア", "a", Seion, true, []);
    assert SpaceFree(k);
    SplitJoin("ア", Gap, "a");
    SplitWhole("a", Gap);
    assert !IsRomaji("ア");
  }
}
