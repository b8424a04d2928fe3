/**
 * Tallies as the game builds them with `reduce`: each element adds one to
 * its own entry of a counting object. Iterating such an object visits its
 * keys in the order they were first inserted, so a tally is modelled as a
 * sequence of (key, count) entries in first-occurrence order.
 */
module Tally {

  import opened Wrappers

  /** How many times `x` occurs in `s`. */
  function Count<T(==)>(s: seq<T>, x: T): (n: nat)
    ensures n <= |s|
    ensures n > 0 <==> x in s
    decreases |s|
  {
    if s == [] then 0 else Count(s[..|s| - 1], x) + (if s[|s| - 1] == x then 1 else 0)
  }

  predicate Distinct<T(==)>(s: seq<T>) {
    forall i, j :: 0 <= i < j < |s| ==> s[i] != s[j]
  }

  /** The distinct elements of `s`, in the order of their first occurrence. */
  function Dedup<T(==)>(s: seq<T>): (d: seq<T>)
    ensures Distinct(d)
    ensures forall i :: 0 <= i < |s| ==> s[i] in d
    ensures forall i :: 0 <= i < |d| ==> d[i] in s
    ensures |d| <= |s|
    decreases |s|
  {
    if s == [] then []
    else
      var p := Dedup(s[..|s| - 1]);
      if s[|s| - 1] in p then p else p + [s[|s| - 1]]
  }

  /** The index of the first occurrence of `x` in `s`, or `|s|` when there is none. */
  function IndexOf<T(==)>(s: seq<T>, x: T): (i: nat)
    ensures i <= |s|
    ensures forall j :: 0 <= j < i ==> s[j] != x
    ensures i < |s| ==> s[i] == x
    decreases |s|
  {
    if s == [] then 0 else if s[0] == x then 0 else 1 + IndexOf(s[1..], x)
  }

  /** The index of the first occurrence of an element `x` of `s`. */
  function FirstIndex<T(==)>(s: seq<T>, x: T): (i: nat)
    requires x in s
    ensures i < |s| && s[i] == x
    ensures forall j :: 0 <= j < i ==> s[j] != x
  {
    IndexOf(s, x)
  }

  /** One step of the reduce: add one to the entry for `x`, or append a new entry. */
  function Bump<T(==)>(e: seq<(T, nat)>, x: T): (r: seq<(T, nat)>)
    decreases |e|
  {
    if e == [] then [(x, 1)]
    else if e[0].0 == x then [(x, e[0].1 + 1)] + e[1..]
    else [e[0]] + Bump(e[1..], x)
  }

  /** The whole reduce over `s`. */
  function TallyOf<T(==)>(s: seq<T>): seq<(T, nat)>
    decreases |s|
  {
    if s == [] then [] else Bump(TallyOf(s[..|s| - 1]), s[|s| - 1])
  }

  /** `counts[x]`: the count of the entry for `x`, or undefined (None). */
  function Lookup<T(==)>(e: seq<(T, nat)>, x: T): Option<nat>
    decreases |e|
  {
    if e == [] then None else if e[0].0 == x then Some(e[0].1) else Lookup(e[1..], x)
  }

  /** The tally `e` lists the distinct elements of `s` in first-occurrence order with their counts. */
  ghost predicate Tallies<T>(e: seq<(T, nat)>, s: seq<T>) {
    var d := Dedup(s);
    |e| == |d| && forall i :: 0 <= i < |e| ==> e[i] == (d[i], Count(s, d[i]))
  }

  lemma {:induction false} BumpEffect<T>(e: seq<(T, nat)>, x: T, keys: seq<T>)
    requires |keys| == |e| && Distinct(keys)
    requires forall i :: 0 <= i < |e| ==> e[i].0 == keys[i]
    ensures var r := Bump(e, x);
      && |r| == |e| + (if x in keys then 0 else 1)
      && (forall i :: 0 <= i < |e| ==> r[i] == (e[i].0, e[i].1 + (if keys[i] == x then 1 else 0)))
      && (x !in keys ==> r[|e|] == (x, 1))
    decreases |e|
  {
    if e != [] && e[0].0 != x {
      BumpEffect(e[1..], x, keys[1..]);
    }
  }

  /** The reduce computes exactly the first-occurrence-ordered counts. */
  lemma {:induction false} TallyOfTallies<T>(s: seq<T>)
    ensures Tallies(TallyOf(s), s)
    decreases |s|
  {
    if s != [] {
      var p, x := s[..|s| - 1], s[|s| - 1];
      TallyOfTallies(p);
      var e, dp := TallyOf(p), Dedup(p);
      BumpEffect(e, x, dp);
      var d := Dedup(s);
      assert d == if x in dp then dp else dp + [x];
      forall i | 0 <= i < |d|
        ensures TallyOf(s)[i] == (d[i], Count(s, d[i]))
      {
        assert Count(s, d[i]) == Count(p, d[i]) + (if x == d[i] then 1 else 0);
      }
    }
  }

  /** Looking a key up in the tally gives its count when it occurs, undefined otherwise. */
  lemma LookupTally<T>(s: seq<T>, x: T)
    ensures Lookup(TallyOf(s), x) == if x in s then Some(Count(s, x)) else None
  {
    TallyOfTallies(s);
    LookupDistinctKeys(TallyOf(s), x, Dedup(s));
  }

  lemma {:induction false} LookupDistinctKeys<T>(e: seq<(T, nat)>, x: T, keys: seq<T>)
    requires |keys| == |e|
    requires forall i :: 0 <= i < |e| ==> e[i].0 == keys[i]
    ensures x !in keys ==> Lookup(e, x) == None
    ensures forall i :: 0 <= i < |e| && keys[i] == x && x !in keys[..i] ==> Lookup(e, x) == Some(e[i].1)
    decreases |e|
  {
    if e != [] {
      LookupDistinctKeys(e[1..], x, keys[1..]);
      forall i | 0 < i < |e| && keys[i] == x && x !in keys[..i]
        ensures Lookup(e, x) == Some(e[i].1)
      {
        assert keys[0] in keys[..i];
        assert keys[1..][..i - 1] == keys[..i][1..];
      }
    }
  }

  /** The elements of `Dedup(s)` appear in the order of their first occurrences in `s`. */
  lemma {:induction false} DedupFirstOccurrenceOrder<T>(s: seq<T>, i: nat, j: nat)
    requires i < j < |Dedup(s)|
    ensures FirstIndex(s, Dedup(s)[i]) < FirstIndex(s, Dedup(s)[j])
    decreases |s|
  {
    var p, x := s[..|s| - 1], s[|s| - 1];
    assert s == p + [x];
    var d, dp := Dedup(s), Dedup(p);
    assert d == if x in dp then dp else dp + [x];
    assert d[i] == dp[i];
    FirstIndexOfPrefix(p, x, dp[i]);
    if j < |dp| {
      DedupFirstOccurrenceOrder(p, i, j);
      FirstIndexOfPrefix(p, x, dp[j]);
    } else {
      assert d[j] == x;
      FirstIndexOfNew(p, x);
    }
  }

  lemma FirstIndexOfNew<T>(p: seq<T>, x: T)
    requires x !in p
    ensures FirstIndex(p + [x], x) == |p|
  {
    var s := p + [x];
    assert s[|p|] == x;
  }

  lemma FirstIndexOfPrefix<T>(p: seq<T>, x: T, y: T)
    requires y in p
    ensures FirstIndex(p + [x], y) == FirstIndex(p, y)
  {
    var s := p + [x];
    var k := FirstIndex(p, y);
    assert s[k] == y;
  }
}
