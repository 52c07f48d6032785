/** The eligibility filters of the word and phrase pages: which words contain a selected
    kana, and which phrases belong to a selected category. */
module Filters {
  import opened Entries
  import opened Text
  import opened Seqs

  // ---------------------------------------------------------------- words

  /** The search tokens: the hiragana of the selected kana, in list order. */
  function Tokens(kanas: seq<Kana>): (r: seq<string>)
    ensures forall t :: t in r <==> exists k :: k in kanas && k.selected && k.hiragana == t
  {
    if kanas == [] then []
    else (if kanas[0].selected then [kanas[0].hiragana] else []) + Tokens(kanas[1..])
  }

  /** Every token is at least as long as the ones after it. */
  predicate LongestFirst(ts: seq<string>)
  {
    forall i, j :: 0 <= i < j < |ts| ==> |ts[i]| >= |ts[j]|
  }

  /** Places `t` before the first element that is no longer than it. */
  function InsertByLength(t: string, sorted: seq<string>): (r: seq<string>)
    ensures multiset(r) == multiset(sorted) + multiset{t}
  {
    if sorted == [] || |t| >= |sorted[0]| then [t] + sorted
    else
      assert sorted == [sorted[0]] + sorted[1..];
      [sorted[0]] + InsertByLength(t, sorted[1..])
  }

  /** Inserting into a longest-first sequence keeps it longest-first. */
  lemma {:induction false} InsertKeepsLongestFirst(t: string, sorted: seq<string>)
    requires LongestFirst(sorted)
    ensures LongestFirst(InsertByLength(t, sorted))
  {
    if sorted != [] && |t| < |sorted[0]| {
      InsertKeepsLongestFirst(t, sorted[1..]);
      var rest := InsertByLength(t, sorted[1..]);
      var r := InsertByLength(t, sorted);
      assert r == [sorted[0]] + rest;
      forall j | 0 < j < |r| ensures |r[0]| >= |r[j]| {
        assert r[j] in multiset(rest);
        assert r[j] == t || r[j] in sorted[1..];
      }
    }
  }

  /** `sort((a, b) => b.length - a.length)`: a stable sort, longest tokens first. */
  function SortLongestFirst(ts: seq<string>): (r: seq<string>)
    ensures multiset(r) == multiset(ts)
    ensures LongestFirst(r)
  {
    if ts == [] then []
    else
      assert ts == [ts[0]] + ts[1..];
      InsertKeepsLongestFirst(ts[0], SortLongestFirst(ts[1..]));
      InsertByLength(ts[0], SortLongestFirst(ts[1..]))
  }

  /** A word is eligible when its reading, pitch markers removed, contains some token. */
  predicate Eligible(word: StudyItem, tokens: seq<string>)
  {
    exists t :: t in tokens && Contains(StripPitchMarkers(word.hiragana), t)
  }

  /** The test "is eligible for these tokens". */
  function EligibleFor(tokens: seq<string>): StudyItem -> bool
  {
    (w: StudyItem) => Eligible(w, tokens)
  }

  /** The words that pass the filter, in catalogue order and multiplicity. */
  function MatchingWords(words: seq<StudyItem>, tokens: seq<string>): (r: seq<StudyItem>)
    ensures forall w :: w in r <==> w in words && Eligible(w, tokens)
    ensures forall w {:trigger multiset(r)[w]} :: multiset(r)[w] == if Eligible(w, tokens) then multiset(words)[w] else 0
    ensures IsSubsequence(r, words)
  {
    Filter(words, EligibleFor(tokens))
  }

  /** Sorting the tokens longest-first changes nothing: eligibility depends only on which
      tokens there are. */
  lemma SortingTokensChangesNothing(words: seq<StudyItem>, tokens: seq<string>)
    ensures MatchingWords(words, SortLongestFirst(tokens)) == MatchingWords(words, tokens)
  {
    var sorted := SortLongestFirst(tokens);
    assert forall t :: t in sorted <==> t in tokens by {
      forall t ensures t in sorted <==> t in tokens {
        assert t in sorted <==> t in multiset(sorted);
        assert t in tokens <==> t in multiset(tokens);
      }
    }
    FilterCongruent(words, EligibleFor(sorted), EligibleFor(tokens));
  }

  /** The filter's inner loop: `for (const kana of tokens) if (clean.includes(kana)) return true;
      return false`. */
  method ContainsAnyToken(clean: string, tokens: seq<string>) returns (found: bool)
    ensures found <==> exists t :: t in tokens && Contains(clean, t)
  {
    for i := 0 to |tokens|
      invariant forall j :: 0 <= j < i ==> !Contains(clean, tokens[j])
    {
      if Contains(clean, tokens[i]) {
        return true;
      }
    }
    return false;
  }

  /** `words.filter(...)` with the token loop inside: the matching words, in order. */
  method FilterWords(words: seq<StudyItem>, tokens: seq<string>) returns (matched: seq<StudyItem>)
    ensures matched == MatchingWords(words, tokens)
  {
    matched := [];
    for i := 0 to |words|
      invariant matched == MatchingWords(words[..i], tokens)
    {
      var found := ContainsAnyToken(StripPitchMarkers(words[i].hiragana), tokens);
      MatchingWordsStep(words, tokens, i);
      if found {
        matched := matched + [words[i]];
      }
    }
    assert words[..|words|] == words;
  }

  /** One step of the filter: the prefix filter grows by the next word iff it matches. */
  lemma MatchingWordsStep(words: seq<StudyItem>, tokens: seq<string>, i: nat)
    requires i < |words|
    ensures MatchingWords(words[..i + 1], tokens) ==
      MatchingWords(words[..i], tokens) + (if Eligible(words[i], tokens) then [words[i]] else [])
  {
    assert words[..i + 1] == words[..i] + [words[i]];
    FilterAppend(words[..i], [words[i]], EligibleFor(tokens));
    assert [words[i]][1..] == [];
  }

  // ---------------------------------------------------------------- phrases

  /** The phrase pool: the phrases of each selected category, concatenated in the order the
      categories are listed; a category the catalogue lacks contributes nothing. */
  function PhrasePool(categories: seq<string>, data: seq<Group>): seq<StudyItem>
  {
    if categories == [] then []
    else Lookup(data, categories[0]).GetOr([]) + PhrasePool(categories[1..], data)
  }

  /** A phrase is in the pool iff some selected category that the catalogue has files it. */
  lemma {:induction false} PhrasePoolMembership(categories: seq<string>, data: seq<Group>, p: StudyItem)
    ensures p in PhrasePool(categories, data) <==>
      exists c :: c in categories && Lookup(data, c).Some? && p in Lookup(data, c).value
  {
    if categories != [] {
      PhrasePoolMembership(categories[1..], data, p);
      var c0 := categories[0];
      if p in Lookup(data, c0).GetOr([]) {
        assert c0 in categories && Lookup(data, c0).Some? && p in Lookup(data, c0).value;
      }
      if exists c :: c in categories && Lookup(data, c).Some? && p in Lookup(data, c).value {
        var c :| c in categories && Lookup(data, c).Some? && p in Lookup(data, c).value;
        if c != c0 {
          assert c in categories[1..];
        }
      }
    }
  }

  /** Selecting one more category appends its phrases to the pool. */
  lemma {:induction false} PhrasePoolAppend(categories: seq<string>, c: string, data: seq<Group>)
    ensures PhrasePool(categories + [c], data) == PhrasePool(categories, data) + Lookup(data, c).GetOr([])
  {
    if categories == [] {
      assert [c][1..] == [];
    } else {
      var head := Lookup(data, categories[0]).GetOr([]);
      var tail := categories[1..];
      assert (categories + [c])[1..] == tail + [c];
      assert PhrasePool(categories + [c], data) == head + PhrasePool(tail + [c], data);
      PhrasePoolAppend(tail, c, data);
      assert head + (PhrasePool(tail, data) + Lookup(data, c).GetOr([])) ==
        (head + PhrasePool(tail, data)) + Lookup(data, c).GetOr([]);
    }
  }

  /** `updateDisplayPhrases`' `forEach` that pushes each present category's phrases. */
  method BuildPhrasePool(categories: seq<string>, data: seq<Group>) returns (pool: seq<StudyItem>)
    ensures pool == PhrasePool(categories, data)
  {
    pool := [];
    for i := 0 to |categories|
      invariant pool + PhrasePool(categories[i..], data) == PhrasePool(categories, data)
    {
      assert categories[i..][1..] == categories[i + 1..];
      var found := Lookup(data, categories[i]);
      if found.Some? {
        pool := pool + found.value;
      }
    }
    assert categories[|categories|..] == [];
  }

  /** `handleCategoryToggle`'s set edit: delete the category if present, add it (at the end of
      the set's order) if absent. Exactly that one category's membership flips. */
  function ToggleCategory(categories: seq<string>, c: string): (r: seq<string>)
    ensures forall x :: x in r <==> ((x in categories) != (x == c))
    ensures Distinct(categories) ==> Distinct(r)
  {
    if c in categories then
      WithoutDistinctIfDistinct(categories, c);
      Without(categories, c)
    else categories + [c]
  }

  lemma WithoutDistinctIfDistinct(categories: seq<string>, c: string)
    ensures Distinct(categories) ==> Distinct(Without(categories, c))
  {
    if Distinct(categories) {
      WithoutDistinct(categories, c);
    }
  }

  /** A toggle leaves no category exactly when it removes the only one selected. */
  lemma ToggleEmptiesOnlyTheLast(categories: seq<string>, c: string)
    ensures ToggleCategory(categories, c) == [] <==> (c in categories && forall x :: x in categories ==> x == c)
  {
    var r := ToggleCategory(categories, c);
    if r != [] {
      assert r[0] in r;
    }
    if c in categories && exists x :: x in categories && x != c {
      var x :| x in categories && x != c;
      assert x in r;
    }
  }

  /** `new Set(list)` in iteration order: the first occurrence of each element, in order. */
  function Dedupe(s: seq<string>): (r: seq<string>)
    ensures Distinct(r)
    ensures forall x :: x in r <==> x in s
    ensures IsSubsequence(r, s)
    ensures forall i, j :: 0 <= i < j < |r| ==> FirstIndex(s, r[i]) < FirstIndex(s, r[j])
    decreases |s|
  {
    if s == [] then []
    else
      var init := s[..|s| - 1];
      var last := s[|s| - 1];
      var rest := Dedupe(init);
      assert s == init + [last];
      assert forall x :: x in s <==> x in init || x == last;
      SubsequenceSnoc(rest, init, last);
      forall x | x in init ensures FirstIndex(s, x) == FirstIndex(init, x) {
        FirstIndexInPrefix(s, x);
      }
      if last in rest then rest
      else
        FirstIndexUnique(s, last, |s| - 1);
        rest + [last]
  }

  /** The first position of an element of the prefix `s[..|s| - 1]` is the same in `s`. */
  lemma FirstIndexInPrefix(s: seq<string>, x: string)
    requires s != [] && x in s[..|s| - 1]
    ensures FirstIndex(s, x) == FirstIndex(s[..|s| - 1], x)
  {
    var i := FirstIndex(s[..|s| - 1], x);
    assert s[..i] == s[..|s| - 1][..i];
    FirstIndexUnique(s, x, i);
  }
}
