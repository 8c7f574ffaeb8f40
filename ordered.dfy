/**
 * Sequences of identifiers read as JavaScript `Set`s: distinct elements kept in insertion
 * order. `Array.from(set)` is the sequence itself.
 */
module Ordered {

  /** No element occurs twice. */
  ghost predicate Distinct(s: seq<string>) {
    forall i, j :: 0 <= i < j < |s| ==> s[i] != s[j]
  }

  /** `set.add(x)`: appends `x` unless it is already present. */
  function Add(s: seq<string>, x: string): (r: seq<string>)
    ensures Distinct(s) ==> Distinct(r)
    ensures forall y :: y in r <==> y in s || y == x
    ensures |s| <= |r| && r[..|s|] == s
  {
    if x in s then s else s + [x]
  }

  /** `Array.from(new Set(s))`: the first occurrence of every element, in order. */
  function Dedup(s: seq<string>): seq<string>
  {
    if s == [] then [] else Add(Dedup(s[..|s| - 1]), s[|s| - 1])
  }

  /** The position of the first occurrence of `x` in `s`. */
  ghost function FirstIndex(s: seq<string>, x: string): (r: nat)
    requires x in s
    ensures r < |s| && s[r] == x
  {
    if s[0] == x then 0 else 1 + FirstIndex(s[1..], x)
  }

  lemma {:induction false} DedupDistinct(s: seq<string>)
    ensures Distinct(Dedup(s))
  {
    if s != [] {
      DedupDistinct(s[..|s| - 1]);
    }
  }

  lemma {:induction false} DedupElements(s: seq<string>)
    ensures forall x :: x in Dedup(s) <==> x in s
  {
    if s != [] {
      var init := s[..|s| - 1];
      DedupElements(init);
      assert s == init + [s[|s| - 1]];
    }
  }

  /** Nothing before the first occurrence equals `x`. */
  lemma {:induction false} FirstIndexIsFirst(s: seq<string>, x: string, k: nat)
    requires x in s && k < FirstIndex(s, x)
    ensures s[k] != x
  {
    if k > 0 {
      FirstIndexIsFirst(s[1..], x, k - 1);
    }
  }

  /** A prefix's first occurrences are the whole sequence's. */
  lemma {:induction false} FirstIndexAppend(s: seq<string>, z: string, y: string)
    requires y in s
    ensures FirstIndex(s + [z], y) == FirstIndex(s, y)
  {
    if s[0] != y {
      assert (s + [z])[1..] == s[1..] + [z];
      FirstIndexAppend(s[1..], z, y);
    }
  }

  /** An element seen only at the end is first seen there. */
  lemma {:induction false} FirstIndexLast(s: seq<string>, z: string)
    requires z !in s
    ensures FirstIndex(s + [z], z) == |s|
  {
    if s != [] {
      assert (s + [z])[1..] == s[1..] + [z];
      FirstIndexLast(s[1..], z);
    }
  }

  /** The elements of `d` occur in `s`, and `s` first shows them in the order of `d`. */
  ghost predicate FirstSeenOrder(s: seq<string>, d: seq<string>) {
    forall i, j :: 0 <= i < j < |d| ==> d[i] in s && d[j] in s && FirstIndex(s, d[i]) < FirstIndex(s, d[j])
  }

  /** The elements of `Dedup(s)` appear in the order in which `s` first shows them. */
  lemma {:induction false} DedupFirstSeen(s: seq<string>)
    ensures FirstSeenOrder(s, Dedup(s))
  {
    if s != [] {
      var init, z := s[..|s| - 1], s[|s| - 1];
      DedupFirstSeen(init);
      FirstSeenStep(init, z);
      assert s == init + [z];
    }
  }

  /** One step of `DedupFirstSeen`: appending an element keeps the first-seen order. */
  lemma FirstSeenStep(init: seq<string>, z: string)
    requires FirstSeenOrder(init, Dedup(init))
    ensures FirstSeenOrder(init + [z], Dedup(init + [z]))
  {
    var s := init + [z];
    var d := Dedup(init);
    var r := Dedup(s);
    assert r == Add(d, z) by {
      DedupSnoc(init, z);
    }
    DedupElements(init);
    forall i, j | 0 <= i < j < |r|
      ensures r[i] in s && r[j] in s && FirstIndex(s, r[i]) < FirstIndex(s, r[j])
    {
      FirstSeenPair(init, z, d, r, i, j);
    }
  }

  lemma FirstSeenPair(init: seq<string>, z: string, d: seq<string>, r: seq<string>, i: nat, j: nat)
    requires FirstSeenOrder(init, d) && (forall x :: x in d <==> x in init)
    requires r == Add(d, z) && i < j < |r|
    ensures r[i] in init + [z] && r[j] in init + [z]
    ensures FirstIndex(init + [z], r[i]) < FirstIndex(init + [z], r[j])
  {
    assert r[i] == d[i] && d[i] in init;
    FirstIndexAppend(init, z, d[i]);
    if j < |d| {
      assert r[j] == d[j] && d[j] in init;
      FirstIndexAppend(init, z, d[j]);
    } else {
      assert r[j] == z && z !in init;
      FirstIndexLast(init, z);
    }
  }

  /** Deduplicating a sequence without repetitions gives it back. */
  lemma {:induction false} DedupOfDistinct(s: seq<string>)
    requires Distinct(s)
    ensures Dedup(s) == s
  {
    if s != [] {
      var init := s[..|s| - 1];
      DedupOfDistinct(init);
      assert s[|s| - 1] !in init;
      assert s == init + [s[|s| - 1]];
    }
  }

  /** Deduplicating one more element adds it unless it was seen. */
  lemma DedupSnoc(s: seq<string>, x: string)
    ensures Dedup(s + [x]) == Add(Dedup(s), x)
  {
    assert (s + [x])[..|s|] == s;
  }
}
