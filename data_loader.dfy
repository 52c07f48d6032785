/** The catalogue loader (`src/lib/data-loader.ts`): three memo caches filled by the first
    successful load and cleared together. A fetch and its JSON parse are one input value here:
    the parsed body, or the failure's message. */
module Loader {
  import opened Entries
  import opened Seqs

  /** The kana catalogue file: three lists, one per phonetic class. */
  datatype KanaJson = KanaJson(seion: seq<KanaItem>, dakuon: seq<KanaItem>, yoon: seq<KanaItem>)

  /** `convertKanaItem`: the catalogue fields, the class, the default selection (seion only),
      no labels, and the three prompt aliases. */
  function ConvertKanaItem(item: KanaItem, t: FyType): (k: Kana)
    ensures k.id == item.id && k.romaji == item.romaji && k.hiragana == item.hiragana && k.katakana == item.katakana
    ensures k.displayText == k.hiragana && k.displayText2 == k.katakana && k.remind == k.romaji
    ensures k.fyType == t && (k.selected <==> t == Seion) && k.labels == []
  {
    Kana(item.id, item.romaji, item.hiragana, item.katakana, item.hiragana, item.katakana, item.romaji, t, t == Seion, [])
  }

  function ConvertAll(items: seq<KanaItem>, t: FyType): (r: seq<Kana>)
    ensures |r| == |items|
    ensures forall i :: 0 <= i < |items| ==> r[i] == ConvertKanaItem(items[i], t)
  {
    if items == [] then [] else [ConvertKanaItem(items[0], t)] + ConvertAll(items[1..], t)
  }

  /** The class a catalogue position belongs to, for lists of `ns` seion and `nd` dakuon. */
  function ClassAt(i: int, ns: nat, nd: nat): FyType
  {
    if i < ns then Seion else if i < ns + nd then Dakuon else Yoon
  }

  /** The converted catalogue: every seion, then every dakuon, then every yoon, each list in
      file order; only the seion start selected. */
  function KanaCatalog(json: KanaJson): (r: seq<Kana>)
    ensures |r| == |json.seion| + |json.dakuon| + |json.yoon|
    ensures r[..|json.seion|] == ConvertAll(json.seion, Seion)
    ensures r[|json.seion|..|json.seion| + |json.dakuon|] == ConvertAll(json.dakuon, Dakuon)
    ensures r[|json.seion| + |json.dakuon|..] == ConvertAll(json.yoon, Yoon)
    ensures forall i :: 0 <= i < |r| ==> r[i].fyType == ClassAt(i, |json.seion|, |json.dakuon|)
    ensures forall k :: k in r ==> (k.selected <==> k.fyType == Seion)
  {
    var s, d, y := ConvertAll(json.seion, Seion), ConvertAll(json.dakuon, Dakuon), ConvertAll(json.yoon, Yoon);
    var r := s + d + y;
    assert r[..|s|] == s;
    assert r[|s|..|s| + |d|] == d;
    assert r[|s| + |d|..] == y;
    r
  }

  /** `{ ...item, selected: true }` over a list. */
  function MarkSelected(items: seq<StudyItem>): (r: seq<StudyItem>)
    ensures |r| == |items|
    ensures forall i :: 0 <= i < |items| ==> r[i] == items[i].(selected := true)
  {
    if items == [] then [] else [items[0].(selected := true)] + MarkSelected(items[1..])
  }

  /** `obj[category] = items` on an object kept as a key-ordered list: the key takes the new
      value and no other key changes. */
  function Assign(groups: seq<Group>, category: string, items: seq<StudyItem>): (r: seq<Group>)
    ensures Lookup(r, category) == Some(items)
    ensures forall c :: c != category ==> Lookup(r, c) == Lookup(groups, c)
  {
    if groups == [] then [Group(category, items)]
    else if groups[0].category == category then [Group(category, items)] + groups[1..]
    else
      var rest := Assign(groups[1..], category, items);
      assert Lookup(groups, category) == Lookup(groups[1..], category);
      [groups[0]] + rest
  }

  /** The key order after an assignment: an existing key keeps its place, a new key goes last. */
  lemma {:induction false} AssignKeys(groups: seq<Group>, category: string, items: seq<StudyItem>)
    ensures Lookup(groups, category).Some? ==> Categories(Assign(groups, category, items)) == Categories(groups)
    ensures Lookup(groups, category).None? ==> Categories(Assign(groups, category, items)) == Categories(groups) + [category]
  {
    if groups != [] {
      var r := Assign(groups, category, items);
      var tail := Categories(groups[1..]);
      assert Categories(groups) == [groups[0].category] + tail;
      if groups[0].category == category {
        assert r == [Group(category, items)] + groups[1..];
        assert r[1..] == groups[1..];
        assert Categories(r) == [category] + tail;
      } else {
        var rest := Assign(groups[1..], category, items);
        assert r == [groups[0]] + rest;
        assert r[1..] == rest;
        assert Lookup(groups, category) == Lookup(groups[1..], category);
        AssignKeys(groups[1..], category, items);
        assert Categories(r) == [groups[0].category] + Categories(rest);
      }
    }
  }

  /** `Lookup` with every found phrase marked selected. */
  function LookupSelected(groups: seq<Group>, c: string): Option<seq<StudyItem>>
  {
    match Lookup(groups, c)
    case None => None
    case Some(items) => Some(MarkSelected(items))
  }

  /** The phrases cache built from a parsed catalogue: `for (category in data)
      cache[category] = data[category].map(...)`. A key is in the cache iff it is in the
      catalogue. */
  function CopySelected(data: seq<Group>): (r: seq<Group>)
    ensures forall c :: Lookup(r, c).None? <==> Lookup(data, c).None?
    decreases |data|
  {
    if data == [] then []
    else
      var last := data[|data| - 1];
      var r := Assign(CopySelected(data[..|data| - 1]), last.category, MarkSelected(last.items));
      CopySelectedStep(data);
      r
  }

  /** For a catalogue with distinct keys (any parsed JSON object), the cache has the same keys
      in the same order, and each key's phrases are the catalogue's, marked selected. */
  lemma {:induction false} CopySelectedFaithful(data: seq<Group>)
    requires Distinct(Categories(data))
    ensures Categories(CopySelected(data)) == Categories(data)
    ensures forall c :: Lookup(CopySelected(data), c) == LookupSelected(data, c)
    decreases |data|
  {
    if data != [] {
      var last := data[|data| - 1];
      var prefix := data[..|data| - 1];
      var rest := CopySelected(prefix);
      LastKeyIsNew(data);
      CopySelectedFaithful(prefix);
      CopySelectedStep(data);
      assert CopySelected(data) == Assign(rest, last.category, MarkSelected(last.items));
      AssignKeys(rest, last.category, MarkSelected(last.items));
      forall c ensures Lookup(CopySelected(data), c) == LookupSelected(data, c) {
        if c != last.category {
          assert LookupSelected(data, c) == LookupSelected(prefix, c);
        }
      }
    }
  }

  /** With distinct keys, the last group's key is not among the earlier ones, and the
      earlier keys are distinct too. */
  lemma LastKeyIsNew(data: seq<Group>)
    requires data != [] && Distinct(Categories(data))
    ensures Distinct(Categories(data[..|data| - 1]))
    ensures Lookup(data[..|data| - 1], data[|data| - 1].category).None?
  {
    PrefixKeysDistinct(data);
    EarlierKeysDiffer(data);
    var n := |data| - 1;
    var prefix := data[..n];
    forall g | g in prefix ensures g.category != data[n].category {
      var i :| 0 <= i < n && prefix[i] == g;
    }
  }

  /** With distinct keys, no earlier group has the last group's key. */
  lemma EarlierKeysDiffer(data: seq<Group>)
    requires data != [] && Distinct(Categories(data))
    ensures forall i :: 0 <= i < |data| - 1 ==> data[i].category != data[|data| - 1].category
  {
    var keys := Categories(data);
    forall i | 0 <= i < |data| - 1 ensures data[i].category != data[|data| - 1].category {
      assert keys[i] != keys[|data| - 1];
    }
  }

  lemma PrefixKeysDistinct(data: seq<Group>)
    requires data != [] && Distinct(Categories(data))
    ensures Distinct(Categories(data[..|data| - 1]))
  {
    var keys := Categories(data);
    var pkeys := Categories(data[..|data| - 1]);
    forall i, j | 0 <= i < j < |pkeys| ensures pkeys[i] != pkeys[j] {
      assert pkeys[i] == keys[i] && pkeys[j] == keys[j];
    }
  }

  lemma CopySelectedStep(data: seq<Group>)
    requires data != []
    ensures var last := data[|data| - 1];
      var prefix := data[..|data| - 1];
      (forall c :: c != last.category ==> Lookup(data, c) == Lookup(prefix, c)) &&
      Lookup(data, last.category).Some? &&
      (Lookup(prefix, last.category).Some? ==> Lookup(data, last.category) == Lookup(prefix, last.category)) &&
      (Lookup(prefix, last.category).None? ==> Lookup(data, last.category) == Some(last.items)) &&
      Categories(data) == Categories(prefix) + [last.category]
  {
    var last := data[|data| - 1];
    var prefix := data[..|data| - 1];
    assert data == prefix + [last];
    LookupAppend(prefix, last);
    assert Categories(data) == Categories(prefix) + [last.category];
  }

  lemma {:induction false} LookupAppend(groups: seq<Group>, g: Group)
    ensures forall c :: (Lookup(groups + [g], c) ==
                         if Lookup(groups, c).Some? then Lookup(groups, c) else if c == g.category then Some(g.items) else None)
  {
    if groups != [] {
      assert (groups + [g])[1..] == groups[1..] + [g];
      LookupAppend(groups[1..], g);
    }
  }

  /** One key of the parsed phrase file: its category and its value, which is `None` when the
      value is not a list (`.map` then throws). */
  datatype RawGroup = RawGroup(category: string, items: Option<seq<StudyItem>>)

  /** How many leading keys of the parsed file hold lists: the copy loop gets that far. */
  function ListPrefix(data: seq<RawGroup>): (n: nat)
    ensures n <= |data|
    ensures forall i :: 0 <= i < n ==> data[i].items.Some?
    ensures n < |data| ==> data[n].items.None?
  {
    if data == [] || data[0].items.None? then 0 else 1 + ListPrefix(data[1..])
  }

  /** Keys whose values are all lists, as groups. */
  function Cook(data: seq<RawGroup>): (r: seq<Group>)
    requires forall i :: 0 <= i < |data| ==> data[i].items.Some?
    ensures |r| == |data|
    ensures forall i :: 0 <= i < |data| ==> r[i] == Group(data[i].category, data[i].items.value)
  {
    if data == [] then [] else [Group(data[0].category, data[0].items.value)] + Cook(data[1..])
  }

  /** A prefix of the keys is cooked as the prefix of the cooked keys. */
  lemma CookPrefix(data: seq<RawGroup>, i: nat)
    requires i < |data| && forall j :: 0 <= j <= i ==> data[j].items.Some?
    ensures Cook(data[..i + 1]) == Cook(data[..i]) + [Group(data[i].category, data[i].items.value)]
  {
    assert data[..i + 1][..i] == data[..i];
  }

  /** One more key copied into the cache. */
  lemma CopyOneMore(data: seq<RawGroup>, i: nat)
    requires i < |data| && forall j :: 0 <= j <= i ==> data[j].items.Some?
    ensures CopySelected(Cook(data[..i + 1])) ==
      Assign(CopySelected(Cook(data[..i])), data[i].category, MarkSelected(data[i].items.value))
  {
    CookPrefix(data, i);
    var cooked := Cook(data[..i + 1]);
    assert cooked[..i] == Cook(data[..i]);
  }

  /** The copy loop stops exactly at the first key whose value is not a list. */
  lemma ListPrefixIsWhereCopyStops(data: seq<RawGroup>, i: nat)
    requires i <= |data| && forall j :: 0 <= j < i ==> data[j].items.Some?
    requires i < |data| ==> data[i].items.None?
    ensures ListPrefix(data) == i
  {
  }

  /** The phrases cache a load leaves behind: the keys copied before the first one whose value
      is not a list (all of them for a well-formed file). */
  function PartialCache(data: seq<RawGroup>): seq<Group>
  {
    var n := ListPrefix(data);
    CopySelected(Cook(data[..n]))
  }

  class DataLoader {
    var kanaCache: Option<seq<Kana>>
    var wordsCache: Option<seq<StudyItem>>
    var phrasesCache: Option<seq<Group>>

    constructor ()
      ensures kanaCache == None && wordsCache == None && phrasesCache == None
    {
      kanaCache, wordsCache, phrasesCache := None, None, None;
    }

    /** `loadKanaData`: a cached catalogue is returned without fetching; otherwise a good
        response is converted, cached and returned, and a failure is passed on with the cache
        left empty, so the next call fetches again. */
    method LoadKanaData(response: Result<KanaJson>) returns (r: Result<seq<Kana>>)
      modifies this
      ensures old(kanaCache).Some? ==> r == Ok(old(kanaCache).value) && kanaCache == old(kanaCache)
      ensures old(kanaCache).None? && response.Ok? ==> r == Ok(KanaCatalog(response.value)) && kanaCache == Some(r.value)
      ensures old(kanaCache).None? && response.Err? ==> r == Err(response.message) && kanaCache == None
      ensures wordsCache == old(wordsCache) && phrasesCache == old(phrasesCache)
    {
      if kanaCache.Some? {
        return Ok(kanaCache.value);
      }
      if response.Err? {
        return Err(response.message);
      }
      kanaCache := Some(KanaCatalog(response.value));
      return Ok(kanaCache.value);
    }

    /** `loadWordsData`: as for kana; every loaded word starts selected. */
    method LoadWordsData(response: Result<seq<StudyItem>>) returns (r: Result<seq<StudyItem>>)
      modifies this
      ensures old(wordsCache).Some? ==> r == Ok(old(wordsCache).value) && wordsCache == old(wordsCache)
      ensures old(wordsCache).None? && response.Ok? ==> r == Ok(MarkSelected(response.value)) && wordsCache == Some(r.value)
      ensures old(wordsCache).None? && response.Err? ==> r == Err(response.message) && wordsCache == None
      ensures kanaCache == old(kanaCache) && phrasesCache == old(phrasesCache)
    {
      if wordsCache.Some? {
        return Ok(wordsCache.value);
      }
      if response.Err? {
        return Err(response.message);
      }
      wordsCache := Some(MarkSelected(response.value));
      return Ok(wordsCache.value);
    }

    /** `loadPhrasesData`: a cached catalogue is returned without fetching; a failed fetch
        yields the empty object and leaves the cache empty. Otherwise the cache becomes an empty
        object and the keys are copied into it in order, every phrase selected; a key whose
        value is not a list throws, which stops the copy and yields the empty object, but the
        partial cache stays and later calls return it. It never fails. */
    method LoadPhrasesData(response: Result<seq<RawGroup>>) returns (r: seq<Group>)
      modifies this
      ensures old(phrasesCache).Some? ==> r == old(phrasesCache).value && phrasesCache == old(phrasesCache)
      ensures old(phrasesCache).None? && response.Err? ==> r == [] && phrasesCache == None
      ensures old(phrasesCache).None? && response.Ok? ==>
        phrasesCache == Some(PartialCache(response.value)) &&
        r == (if ListPrefix(response.value) == |response.value| then PartialCache(response.value) else [])
      ensures kanaCache == old(kanaCache) && wordsCache == old(wordsCache)
    {
      if phrasesCache.Some? {
        return phrasesCache.value;
      }
      if response.Err? {
        return [];
      }
      var complete := CopyPhrases(response.value);
      if !complete {
        return [];
      }
      return phrasesCache.value;
    }

    /** The copy loop of `loadPhrasesData`: the cache starts as an empty object and takes the
        keys in order until one whose value is not a list throws. */
    method CopyPhrases(data: seq<RawGroup>) returns (complete: bool)
      modifies this
      ensures phrasesCache == Some(PartialCache(data))
      ensures complete <==> ListPrefix(data) == |data|
      ensures kanaCache == old(kanaCache) && wordsCache == old(wordsCache)
    {
      var cache: seq<Group> := [];
      phrasesCache := Some(cache);
      var i := 0;
      while i < |data| && data[i].items.Some?
        invariant i <= |data|
        invariant forall j :: 0 <= j < i ==> data[j].items.Some?
        invariant cache == CopySelected(Cook(data[..i])) && phrasesCache == Some(cache)
        invariant kanaCache == old(kanaCache) && wordsCache == old(wordsCache)
      {
        CopyOneMore(data, i);
        cache := Assign(cache, data[i].category, MarkSelected(data[i].items.value));
        phrasesCache := Some(cache);
        i := i + 1;
      }
      ListPrefixIsWhereCopyStops(data, i);
      complete := i == |data|;
    }

    /** `getPhrasesByCategory`: the category's phrases after a load, `[]` for an unknown one. */
    method GetPhrasesByCategory(response: Result<seq<RawGroup>>, category: string) returns (r: seq<StudyItem>)
      modifies this
      ensures old(phrasesCache).Some? ==> r == Lookup(old(phrasesCache).value, category).GetOr([])
      ensures old(phrasesCache).None? && response.Ok? && ListPrefix(response.value) == |response.value| ==>
        r == Lookup(CopySelected(Cook(response.value)), category).GetOr([])
      ensures old(phrasesCache).None? && (response.Err? || ListPrefix(response.value) < |response.value|) ==> r == []
      ensures kanaCache == old(kanaCache) && wordsCache == old(wordsCache)
      ensures phrasesCache == (if old(phrasesCache).Some? then old(phrasesCache)
                               else if response.Err? then None else Some(PartialCache(response.value)))
    {
      var data := LoadPhrasesData(response);
      if response.Ok? {
        assert response.value[..|response.value|] == response.value;
      }
      r := Lookup(data, category).GetOr([]);
    }

    /** `getPhraseCategories`: the loaded catalogue's keys in order. */
    method GetPhraseCategories(response: Result<seq<RawGroup>>) returns (r: seq<string>)
      modifies this
      ensures old(phrasesCache).Some? ==> r == Categories(old(phrasesCache).value)
      ensures old(phrasesCache).None? && response.Ok? && ListPrefix(response.value) == |response.value| ==>
        r == Categories(CopySelected(Cook(response.value)))
      ensures old(phrasesCache).None? && (response.Err? || ListPrefix(response.value) < |response.value|) ==> r == []
      ensures kanaCache == old(kanaCache) && wordsCache == old(wordsCache)
      ensures phrasesCache == (if old(phrasesCache).Some? then old(phrasesCache)
                               else if response.Err? then None else Some(PartialCache(response.value)))
    {
      var data := LoadPhrasesData(response);
      if response.Ok? {
        assert response.value[..|response.value|] == response.value;
      }
      r := Categories(data);
    }

    /** `clearCache`. */
    method ClearCache()
      modifies this
      ensures kanaCache == None && wordsCache == None && phrasesCache == None
    {
      kanaCache, wordsCache, phrasesCache := None, None, None;
    }
  }
}
