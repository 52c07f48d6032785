/** Editing and restoring which kana are selected: the toggles and per-type bulk
    selection of the selector and the single-page version, the merge of a saved
    selection onto freshly loaded data, and the selector's grid layout. */
module KanaSelection {
  import opened Entries
  import opened Seqs

  /** The kana pool of a kana page: the selected entries in catalogue order, each as often as
      it occurs in the list. */
  function Selected(list: seq<Kana>): (r: seq<Kana>)
    ensures forall k :: k in r <==> k in list && k.selected
    ensures forall k {:trigger multiset(r)[k]} :: multiset(r)[k] == if k.selected then multiset(list)[k] else 0
    ensures IsSubsequence(r, list)
  {
    Filter(list, IsSelected)
  }

  const IsSelected: Kana -> bool := (k: Kana) => k.selected

  /** `b` is `a` with, at most, the `selected` flags changed. */
  predicate SameButSelection(a: seq<Kana>, b: seq<Kana>)
  {
    |a| == |b| && forall i :: 0 <= i < |a| ==> b[i].(selected := a[i].selected) == a[i]
  }

  /** The key a toggle matches on: the id on the single page, the romaji in the selector. */
  function KeyOf(k: Kana, byId: bool): string
  {
    if byId then k.id else k.romaji
  }

  /** `toggleKanaSelection(key)`: flips `selected` on every entry whose key matches (the single
      page passes an id, the selector a romaji). */
  function Toggle(list: seq<Kana>, key: string, byId: bool): (r: seq<Kana>)
    ensures SameButSelection(list, r)
    ensures forall i :: 0 <= i < |list| ==> r[i].selected == (list[i].selected != (KeyOf(list[i], byId) == key))
  {
    if list == [] then []
    else [if KeyOf(list[0], byId) == key then list[0].(selected := !list[0].selected) else list[0]] + Toggle(list[1..], key, byId)
  }

  /** Toggling the same kana twice gives back the list. */
  lemma ToggleTwiceRestores(list: seq<Kana>, key: string, byId: bool)
    ensures Toggle(Toggle(list, key, byId), key, byId) == list
  {
    var a := Toggle(Toggle(list, key, byId), key, byId);
    assert forall i :: 0 <= i < |list| ==> a[i] == list[i];
  }

  /** Entries sharing a romaji (じ and ぢ are both "ji", ず and づ both "zu") are selected alike. */
  predicate TwinsAgree(list: seq<Kana>)
  {
    forall i, j :: 0 <= i < |list| && 0 <= j < |list| && list[i].romaji == list[j].romaji ==>
      list[i].selected == list[j].selected
  }

  /** The selector's romaji toggle flips twins together, so they stay alike. */
  lemma ToggleKeepsTwinsAgree(list: seq<Kana>, romaji: string)
    requires TwinsAgree(list)
    ensures TwinsAgree(Toggle(list, romaji, false))
  {
  }

  /** `selectKanasByType(type, selected)`: sets `selected` on every entry of that type. */
  function SelectByType(list: seq<Kana>, t: FyType, s: bool): (r: seq<Kana>)
    ensures SameButSelection(list, r)
    ensures forall i :: 0 <= i < |list| ==> r[i].selected == (if list[i].fyType == t then s else list[i].selected)
  {
    if list == [] then []
    else [if list[0].fyType == t then list[0].(selected := s) else list[0]] + SelectByType(list[1..], t, s)
  }

  /** Selecting a type twice is selecting it once. */
  lemma SelectByTypeIdempotent(list: seq<Kana>, t: FyType, s: bool)
    ensures SelectByType(SelectByType(list, t, s), t, s) == SelectByType(list, t, s)
  {
    var once := SelectByType(list, t, s);
    var twice := SelectByType(once, t, s);
    assert forall i :: 0 <= i < |list| ==> twice[i] == once[i];
  }

  /** The entries of one type, in order (the selector's tab contents). */
  function OfType(list: seq<Kana>, t: FyType): (r: seq<Kana>)
    ensures forall k :: k in r <==> k in list && k.fyType == t
    ensures forall k {:trigger multiset(r)[k]} :: multiset(r)[k] == if k.fyType == t then multiset(list)[k] else 0
    ensures IsSubsequence(r, list)
  {
    Filter(list, HasType(t))
  }

  function HasType(t: FyType): Kana -> bool
  {
    (k: Kana) => k.fyType == t
  }

  /** The selector's per-type "selected" count: the selected entries among that type's. */
  function SelectedCount(list: seq<Kana>, t: FyType): (n: nat)
    ensures n <= |OfType(list, t)|
  {
    |Selected(OfType(list, t))|
  }

  /** The totals the selector prints beside the counts: constants, not computed from the list. */
  function TypeTotal(t: FyType): nat
  {
    match t
    case Seion => 46
    case Dakuon => 25
    case Yoon => 33
  }

  /** After "select all" of a type every entry of it counts as selected; after "clear"
      none does. */
  lemma {:induction false} SelectByTypeCount(list: seq<Kana>, t: FyType, s: bool)
    ensures SelectedCount(SelectByType(list, t, s), t) == (if s then |OfType(list, t)| else 0)
  {
    if list != [] {
      var r := SelectByType(list, t, s);
      assert r[1..] == SelectByType(list[1..], t, s);
      SelectByTypeCount(list[1..], t, s);
      CountStep(r, t);
      CountStep(list, t);
    }
  }

  /** The per-type counts of a list, one entry at a time. */
  lemma CountStep(list: seq<Kana>, t: FyType)
    requires list != []
    ensures |OfType(list, t)| == (if list[0].fyType == t then 1 else 0) + |OfType(list[1..], t)|
    ensures SelectedCount(list, t) ==
      (if list[0].fyType == t && list[0].selected then 1 else 0) + SelectedCount(list[1..], t)
  {
    var head := if list[0].fyType == t then [list[0]] else [];
    assert OfType(list, t) == head + OfType(list[1..], t);
    FilterAppend(head, OfType(list[1..], t), IsSelected);
    if head != [] {
      assert head[1..] == [];
    }
  }

  /** The selected entries' romaji in list order: what the word page saves. */
  function SelectedRomaji(list: seq<Kana>): (r: seq<string>)
    ensures forall x :: x in r <==> exists k :: k in list && k.selected && k.romaji == x
  {
    if list == [] then []
    else (if list[0].selected then [list[0].romaji] else []) + SelectedRomaji(list[1..])
  }

  /** The saved list is the pool's romaji, one per selected entry and in list order
      (`filter(k => k.selected).map(k => k.romaji)`). */
  lemma {:induction false} SelectedRomajiInOrder(list: seq<Kana>)
    ensures var r := SelectedRomaji(list);
      |r| == |Selected(list)| && forall i :: 0 <= i < |r| ==> r[i] == Selected(list)[i].romaji
  {
    if list != [] {
      SelectedRomajiInOrder(list[1..]);
      assert list == [list[0]] + list[1..];
      FilterCons(list[0], list[1..], IsSelected);
    }
  }

  /** The word page's restore: with a saved list, a kana is selected iff its romaji is in it
      (an empty list clears everything); without one the loaded defaults stand. */
  function RestoreByRomaji(data: seq<Kana>, saved: Option<seq<string>>): (r: seq<Kana>)
    ensures SameButSelection(data, r)
    ensures saved.Some? ==> forall i :: 0 <= i < |data| ==> (r[i].selected <==> data[i].romaji in saved.value)
    ensures saved.None? ==> r == data
  {
    match saved
    case None => data
    case Some(names) => seq(|data|, i requires 0 <= i < |data| => data[i].(selected := data[i].romaji in names))
  }

  /** Saving the word page's selection and restoring it onto the same catalogue (in any
      selection state) gives the saved selection back. */
  lemma SaveThenRestore(data: seq<Kana>, list: seq<Kana>)
    requires SameButSelection(list, data) && TwinsAgree(list)
    ensures RestoreByRomaji(data, Some(SelectedRomaji(list))) == list
  {
    var r := RestoreByRomaji(data, Some(SelectedRomaji(list)));
    forall i | 0 <= i < |list|
      ensures r[i] == list[i]
    {
      if list[i].romaji in SelectedRomaji(list) {
        var k :| k in list && k.selected && k.romaji == list[i].romaji;
        var j :| 0 <= j < |list| && list[j] == k;
      }
    }
  }

  /** The value the kana page's `Map` of saved selections holds for `romaji`: the LAST saved
      entry with that romaji wins, as when a `Map` is built from a list of pairs. */
  function SavedSelection(saved: seq<Kana>, romaji: string): (r: Option<bool>)
    ensures r.None? <==> forall j :: 0 <= j < |saved| ==> saved[j].romaji != romaji
    ensures r.Some? ==> exists j :: 0 <= j < |saved| && saved[j].romaji == romaji && saved[j].selected == r.value &&
                                    (forall j' :: j < j' < |saved| ==> saved[j'].romaji != romaji)
  {
    if saved == [] then None
    else if saved[|saved| - 1].romaji == romaji then Some(saved[|saved| - 1].selected)
    else SavedSelection(saved[..|saved| - 1], romaji)
  }

  /** The kana page's load: with a non-empty saved list, each fresh entry takes the saved
      flag for its romaji if there is one and keeps its default otherwise; everything else
      (length, order, other fields) comes from the fresh data. */
  function MergeSaved(data: seq<Kana>, saved: Option<seq<Kana>>): (r: seq<Kana>)
    ensures SameButSelection(data, r)
    ensures saved.Some? && |saved.value| > 0 ==> forall i :: 0 <= i < |data| ==>
      r[i].selected == SavedSelection(saved.value, data[i].romaji).GetOr(data[i].selected)
    ensures saved.None? || saved.value == [] ==> r == data
  {
    if saved.Some? && |saved.value| > 0 then
      seq(|data|, i requires 0 <= i < |data| =>
        data[i].(selected := SavedSelection(saved.value, data[i].romaji).GetOr(data[i].selected)))
    else data
  }

  /** Saving the kana page's whole list and merging it onto the same catalogue restores the
      saved selection. */
  lemma SaveThenMerge(data: seq<Kana>, list: seq<Kana>)
    requires SameButSelection(list, data) && TwinsAgree(list) && |list| > 0
    ensures MergeSaved(data, Some(list)) == list
  {
    var r := MergeSaved(data, Some(list));
    forall i | 0 <= i < |list|
      ensures r[i] == list[i]
    {
      var found := SavedSelection(list, data[i].romaji);
      assert list[i].romaji == data[i].romaji;
      var j :| 0 <= j < |list| && list[j].romaji == data[i].romaji && list[j].selected == found.value &&
        forall j' :: j < j' < |list| ==> list[j'].romaji != data[i].romaji;
    }
  }

  /** The selector lays a type's entries out five to a row. */
  const RowWidth: nat := 5

  /** `renderKanaGrid`'s row chunking: `for (i = 0; i < n; i += 5) rows.push(kanas.slice(i, i + 5))`. */
  method ChunkRows(kanas: seq<Kana>) returns (rows: seq<seq<Kana>>)
    ensures Flatten(rows) == kanas
    ensures forall j :: 0 <= j < |rows| ==> 0 < |rows[j]| <= RowWidth
    ensures forall j :: 0 <= j < |rows| - 1 ==> |rows[j]| == RowWidth
  {
    rows := [];
    var i := 0;
    while i < |kanas|
      invariant 0 <= i <= |kanas|
      invariant Flatten(rows) == kanas[..i]
      invariant forall j :: 0 <= j < |rows| ==> 0 < |rows[j]| <= RowWidth
      invariant forall j :: 0 <= j < |rows| - 1 ==> |rows[j]| == RowWidth
      invariant i < |kanas| ==> forall j :: 0 <= j < |rows| ==> |rows[j]| == RowWidth
    {
      var end := if i + RowWidth <= |kanas| then i + RowWidth else |kanas|;
      FlattenAppend(rows, kanas[i..end]);
      assert kanas[..i] + kanas[i..end] == kanas[..end];
      rows := rows + [kanas[i..end]];
      i := end;
    }
    assert kanas[..i] == kanas;
  }
}
