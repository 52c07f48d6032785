/** The records the practice pages work on. Field names follow the pages' usage;
    `src/lib/types.ts` is not part of this model, so only the fields the core reads appear. */
module Entries {

  datatype Option<T> = None | Some(value: T)
  {
    function GetOr(default: T): T
    {
      match this
      case Some(v) => v
      case None => default
    }
  }

  /** A load or parse failure carries its message; a success carries the value. */
  datatype Result<T> = Ok(value: T) | Err(message: string)

  /** The phonetic class of a kana: 0 seion (清音), 1 dakuon (濁音), 2 yoon (拗音). */
  datatype FyType = Seion | Dakuon | Yoon

  /** One kana as it appears in the kana catalogue file. */
  datatype KanaItem = KanaItem(id: string, hiragana: string, katakana: string, romaji: string)

  /** A kana entry with its session-scoped selection flag. `displayText`, `displayText2` and
      `remind` are the hiragana, katakana and romaji facets under the names the prompt code uses. */
  datatype Kana = Kana(
    id: string,
    romaji: string,
    hiragana: string,
    katakana: string,
    displayText: string,
    displayText2: string,
    remind: string,
    fyType: FyType,
    selected: bool,
    labels: seq<string>)

  /** A word or a phrase: its kana reading, its Japanese writing, its romanisation and its
      Chinese translation. */
  datatype StudyItem = StudyItem(
    hiragana: string,
    japanese: string,
    romaji: string,
    chinese: string,
    selected: bool)

  /** One key of the phrase catalogue object and the phrases filed under it. */
  datatype Group = Group(category: string, items: seq<StudyItem>)

  /** "learning" shows the hint on every draw; "memory" waits until it is asked for. */
  datatype PracticeMode = Learning | Memory

  /** `obj[c]` on a category-keyed object kept as a key-ordered list: the phrases filed under
      the first group named `c`, if there is one. */
  function Lookup(data: seq<Group>, c: string): (r: Option<seq<StudyItem>>)
    ensures r.None? <==> forall g :: g in data ==> g.category != c
    ensures r.Some? ==> Group(c, r.value) in data
  {
    if data == [] then None
    else if data[0].category == c then Some(data[0].items)
    else Lookup(data[1..], c)
  }

  /** The keys of a category-keyed object, in order (`Object.keys`). */
  function Categories(groups: seq<Group>): (r: seq<string>)
    ensures |r| == |groups|
    ensures forall i :: 0 <= i < |groups| ==> r[i] == groups[i].category
  {
    if groups == [] then [] else [groups[0].category] + Categories(groups[1..])
  }
}
