/** The write-index compaction used by the enemy store and both projectile
    pools: survivors are shifted down in order and the count shrinks. */
module Compaction {

  /** The entries of s that satisfy keep, in their original order. */
  function Kept<T>(s: seq<T>, keep: T -> bool): (r: seq<T>)
    ensures |r| <= |s|
    decreases |s|
  {
    if s == [] then []
    else Kept(s[..|s| - 1], keep) + (if keep(s[|s| - 1]) then [s[|s| - 1]] else [])
  }

  /** Every survivor satisfies keep and comes from s. */
  lemma {:induction false} KeptSatisfies<T>(s: seq<T>, keep: T -> bool)
    ensures forall k :: 0 <= k < |Kept(s, keep)| ==> keep(Kept(s, keep)[k]) && Kept(s, keep)[k] in s
    decreases |s|
  {
    if s != [] {
      var s' := s[..|s| - 1];
      KeptSatisfies(s', keep);
      assert forall x :: x in s' ==> x in s;
    }
  }

  lemma KeptSnoc<T>(s: seq<T>, x: T, keep: T -> bool)
    ensures Kept(s + [x], keep) == Kept(s, keep) + (if keep(x) then [x] else [])
  {
    assert (s + [x])[..|s|] == s;
  }

  /** Filtering distributes over concatenation: survivors keep their
      relative order and nothing from one part moves into the other. */
  lemma {:induction false} KeptConcat<T>(s: seq<T>, t: seq<T>, keep: T -> bool)
    ensures Kept(s + t, keep) == Kept(s, keep) + Kept(t, keep)
    decreases |t|
  {
    if t == [] {
      assert s + t == s;
    } else {
      var t' := t[..|t| - 1];
      var x := t[|t| - 1];
      assert t == t' + [x];
      assert s + t == (s + t') + [x];
      KeptSnoc(s + t', x, keep);
      KeptSnoc(t', x, keep);
      KeptConcat(s, t', keep);
    }
  }

  /** Every entry that satisfies keep survives, as often as it occurred;
      every other entry is dropped. */
  lemma {:induction false} KeptMultiset<T>(s: seq<T>, keep: T -> bool, x: T)
    ensures multiset(Kept(s, keep))[x] == if keep(x) then multiset(s)[x] else 0
    decreases |s|
  {
    if s != [] {
      var s' := s[..|s| - 1];
      assert s == s' + [s[|s| - 1]];
      KeptMultiset(s', keep, x);
    }
  }

  /** A sequence whose entries all survive is left as it is. */
  lemma {:induction false} KeptAll<T>(s: seq<T>, keep: T -> bool)
    requires forall k :: 0 <= k < |s| ==> keep(s[k])
    ensures Kept(s, keep) == s
    decreases |s|
  {
    if s != [] {
      KeptAll(s[..|s| - 1], keep);
    }
  }

  /** A sequence none of whose entries survive compacts to nothing. */
  lemma {:induction false} KeptNone<T>(s: seq<T>, keep: T -> bool)
    requires forall k :: 0 <= k < |s| ==> !keep(s[k])
    ensures Kept(s, keep) == []
    decreases |s|
  {
    if s != [] {
      KeptNone(s[..|s| - 1], keep);
    }
  }

  /** Compacting twice is the same as compacting once. */
  lemma KeptIdempotent<T>(s: seq<T>, keep: T -> bool)
    ensures Kept(Kept(s, keep), keep) == Kept(s, keep)
  {
    KeptSatisfies(s, keep);
    KeptAll(Kept(s, keep), keep);
  }

  /** In-place compaction with a write index over the first n slots of a.
      Survivors end up in a[..m] in order; slots from m on are not written. */
  method CompactInPlace<T>(a: array<T>, n: nat, keep: T -> bool) returns (m: nat)
    requires n <= a.Length
    modifies a
    ensures m <= n
    ensures a[..m] == Kept(old(a[..n]), keep)
    ensures a[m..] == old(a[m..])
  {
    var w := 0;
    var i := 0;
    while i < n
      invariant w <= i <= n
      invariant a[..w] == Kept(old(a[..i]), keep)
      invariant forall k :: w <= k < a.Length ==> a[k] == old(a[k])
    {
      assert old(a[..i + 1]) == old(a[..i]) + [old(a[i])];
      KeptSnoc(old(a[..i]), old(a[i]), keep);
      assert a[i] == old(a[i]);
      if keep(a[i]) {
        if w != i {
          a[w] := a[i];
        }
        w := w + 1;
      }
      i := i + 1;
    }
    assert old(a[..n]) == old(a[..i]);
    m := w;
    assert a[m..] == old(a[m..]);
  }
}
