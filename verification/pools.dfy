/** The rotating pools `Sounds` and `Prompts`: each hands out the items of a
    fixed source without replacement, refilling its working copy with a fresh
    shuffle of the source whenever the copy has run dry. The shuffle that
    `random.shuffle` would produce is passed in by the caller. */
module Pools {
  import opened Wrappers

  /** The working copy a draw pops from: a fresh shuffle when the copy is empty. */
  function Refill<T>(copy: seq<T>, shuffled: seq<T>): seq<T> {
    if copy == [] then shuffled else copy
  }

  /** The prompts with a newline appended to each, in their original order
      (the list comprehension in `Prompts.__init__`). */
  function WithNewlines(prompts: seq<string>): (r: seq<string>)
    ensures |r| == |prompts|
    ensures forall k :: 0 <= k < |r| ==> r[k] == prompts[k] + "\n"
  {
    if prompts == [] then [] else [prompts[0] + "\n"] + WithNewlines(prompts[1..])
  }

  /** One `get` on values: what it hands out and the working copy it leaves,
      given the working copy and the shuffle a refill would use. Nothing is
      handed out exactly when even the refilled copy is empty. */
  function Pop<T>(copy: seq<T>, shuffled: seq<T>): (r: (Option<T>, seq<T>))
    ensures r.0.None? <==> Refill(copy, shuffled) == []
    ensures r.0.Some? ==> Refill(copy, shuffled) == r.1 + [r.0.value]
  {
    var c := Refill(copy, shuffled);
    if c == [] then (None, c) else (Some(c[|c| - 1]), c[..|c| - 1])
  }

  /** A working copy never holds more of an item than the source does. */
  predicate Within<T(==)>(copy: seq<T>, source: seq<T>) {
    multiset(copy) <= multiset(source)
  }

  /** Popping from a working copy within the source, refilled from a shuffle
      of the source: it fails exactly when the source is empty, what it hands
      out is a source item, and the copy it leaves is still within the
      source. */
  lemma PopWithin<T>(copy: seq<T>, shuffled: seq<T>, source: seq<T>)
    requires Within(copy, source)
    requires multiset(shuffled) == multiset(source)
    ensures Pop(copy, shuffled).0.None? <==> source == []
    ensures Pop(copy, shuffled).0.Some? ==> Pop(copy, shuffled).0.value in source
    ensures Within(Pop(copy, shuffled).1, source)
  {
    var c := Refill(copy, shuffled);
    if c == [] {
      assert |multiset(source)| == 0;
    } else {
      assert c == c[..|c| - 1] + [c[|c| - 1]];
      assert multiset(c) == multiset(c[..|c| - 1]) + multiset{c[|c| - 1]};
      assert c[|c| - 1] in multiset(source);
    }
  }

  class Pool<T(==)> {
    /** The items the pool was built from (`_sound_paths`, `_prompts`). */
    const source: seq<T>
    /** The working copy draws pop from (`_sound_paths_copy`, `_prompts_copy`). */
    var copy: seq<T>
    /** The items handed out since the working copy was last refilled. */
    ghost var used: multiset<T>

    /** Every source item is either still in the working copy or has been
        handed out in the current cycle, never both. */
    ghost predicate Valid()
      reads this
    {
      multiset(copy) + used == multiset(source)
    }

    /** A new pool starts with an empty working copy, as if a cycle had just
        been completed. */
    constructor (source: seq<T>)
      ensures Valid()
      ensures this.source == source && copy == [] && used == multiset(source)
    {
      this.source := source;
      copy := [];
      used := multiset(source);
    }

    /** `get`: refill from `shuffled` (a permutation of the source) only when
        the working copy is empty, then pop its last item. Popping from an
        empty list raises, which happens exactly when the source is empty. */
    method Get(shuffled: seq<T>) returns (x: Option<T>)
      requires Valid()
      requires multiset(shuffled) == multiset(source)
      modifies this
      ensures Valid()
      ensures (x, copy) == Pop(old(copy), shuffled)
      ensures x.None? ==> used == old(used)
      ensures x.Some? ==> used == (if old(copy) == [] then multiset{} else old(used)) + multiset{x.value}
    {
      if copy == [] {
        copy := shuffled;
        used := multiset{};
      }
      if copy == [] {
        assert |multiset(source)| == 0;
        return None;
      }
      var last := copy[|copy| - 1];
      assert copy == copy[..|copy| - 1] + [last];
      assert multiset(copy) == multiset(copy[..|copy| - 1]) + multiset{last};
      x := Some(last);
      copy := copy[..|copy| - 1];
      used := used + multiset{last};
    }

    /** When the working copy runs dry the cycle is complete: every source
        item has been handed out exactly as often as it occurs in the source. */
    lemma CycleComplete()
      requires Valid() && copy == []
      ensures used == multiset(source)
    {
    }
  }
}
