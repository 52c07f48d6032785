/** The two lists every practice page keeps: `display`, the entries not yet shown in this
    round, and `used`, the entries already shown. A press moves entries between them but
    never creates or loses one. */
module Decks {
  import opened Seqs

  datatype Deck<T> = Deck(display: seq<T>, used: seq<T>)

  /** Everything in the deck, counted with multiplicity. */
  function Contents<T>(d: Deck<T>): multiset<T>
  {
    multiset(d.display) + multiset(d.used)
  }

  /** A draw: the entry at `i` leaves `display` (a spliced copy) and goes to the end of `used`. */
  function Take<T>(d: Deck<T>, i: nat): (r: Deck<T>)
    requires i < |d.display|
    ensures Contents(r) == Contents(d)
    ensures multiset(r.display) == multiset(d.display) - multiset{d.display[i]}
    ensures |r.display| == |d.display| - 1 && |r.used| == |d.used| + 1
    ensures r.used[..|d.used|] == d.used && r.used[|d.used|] == d.display[i]
  {
    var rest := RemoveAt(d.display, i);
    assert multiset(rest) == multiset(d.display) - multiset{d.display[i]};
    Deck(rest, d.used + [d.display[i]])
  }

  /** Putting every shown entry back: `used` is appended to `display` and emptied. */
  function Recycle<T>(d: Deck<T>): (r: Deck<T>)
    ensures Contents(r) == Contents(d)
    ensures r.used == [] && |r.display| == |d.display| + |d.used|
    ensures r.display[..|d.display|] == d.display
  {
    assert (d.display + d.used)[..|d.display|] == d.display;
    Deck(d.display + d.used, [])
  }

  /** `idxs` is a sequence of draws that fits a pool of `n`: the `j`-th draw picks from the
      `n - j` entries still in `display`. */
  predicate FitsPool(n: nat, idxs: seq<nat>)
  {
    forall j :: 0 <= j < |idxs| ==> idxs[j] < n - j
  }

  /** A run of draws with no refill in between. */
  function TakeAll<T>(d: Deck<T>, idxs: seq<nat>): (r: Deck<T>)
    requires FitsPool(|d.display|, idxs)
    ensures Contents(r) == Contents(d)
    ensures |r.display| == |d.display| - |idxs| && |r.used| == |d.used| + |idxs|
    ensures d.used <= r.used
    decreases |idxs|
  {
    if idxs == [] then d
    else
      var next := Take(d, idxs[0]);
      assert FitsPool(|next.display|, idxs[1..]) by {
        forall j | 0 <= j < |idxs| - 1 ensures idxs[1..][j] < |next.display| - j {
          assert idxs[j + 1] < |d.display| - (j + 1);
        }
      }
      assert d.used <= next.used;
      TakeAll(next, idxs[1..])
  }

  /** A full round of draws shows every entry of the pool exactly once: afterwards `display`
      is empty and `used` holds what it held plus the whole pool, counted with multiplicity. */
  lemma RoundShowsEachOnce<T>(d: Deck<T>, idxs: seq<nat>)
    requires FitsPool(|d.display|, idxs) && |idxs| == |d.display|
    ensures TakeAll(d, idxs).display == []
    ensures multiset(TakeAll(d, idxs).used) == multiset(d.used) + multiset(d.display)
  {
    var r := TakeAll(d, idxs);
    assert r.display == [];
    assert multiset(r.display) == multiset{};
    assert Contents(r) == multiset(r.used);
  }
}
