/**
 * Removing every element that matches, as `Array.prototype.filter` with a negated test
 * and `URLSearchParams.delete` do, and the "keeps relative order" relation.
 */
module Sequences {

  /** `s` without the elements for which `drop` holds, the rest in their original order. */
  function RemoveAll<T>(s: seq<T>, drop: T -> bool): (r: seq<T>)
    ensures |r| <= |s|
  {
    if s == [] then []
    else if drop(s[0]) then RemoveAll(s[1..], drop)
    else [s[0]] + RemoveAll(s[1..], drop)
  }

  /** Exactly the matching elements go; every other element stays as often as it was there. */
  lemma {:induction false} RemoveAllContents<T>(s: seq<T>, drop: T -> bool)
    ensures forall x :: multiset(RemoveAll(s, drop))[x] == if drop(x) then 0 else multiset(s)[x]
  {
    if s != [] {
      RemoveAllContents(s[1..], drop);
      assert s == [s[0]] + s[1..];
    }
  }

  /** The remaining elements keep their relative order. */
  lemma {:induction false} RemoveAllKeepsOrder<T>(s: seq<T>, drop: T -> bool)
    ensures Subsequence(RemoveAll(s, drop), s)
  {
    if s != [] {
      RemoveAllKeepsOrder(s[1..], drop);
      if !drop(s[0]) {
        assert RemoveAll(s, drop)[1..] == RemoveAll(s[1..], drop);
      }
    }
  }

  /** Removing from a sequence with no matching element changes nothing. */
  lemma {:induction false} RemoveAllAbsent<T>(s: seq<T>, drop: T -> bool)
    requires forall k :: 0 <= k < |s| ==> !drop(s[k])
    ensures RemoveAll(s, drop) == s
  {
    if s != [] {
      RemoveAllAbsent(s[1..], drop);
      assert s == [s[0]] + s[1..];
    }
  }

  /** `a` is `b` with some elements left out and the rest in their original order. */
  ghost predicate Subsequence<T>(a: seq<T>, b: seq<T>)
    decreases |b|
  {
    if a == [] then true
    else if b == [] then false
    else (a[0] == b[0] && Subsequence(a[1..], b[1..])) || Subsequence(a, b[1..])
  }

  /** Dropping the tail of a subsequence leaves a subsequence. */
  lemma {:induction false} SubsequencePrefix<T>(a: seq<T>, b: seq<T>, k: nat)
    requires Subsequence(a, b) && k <= |a|
    ensures Subsequence(a[..k], b)
    decreases |b|
  {
    if k == 0 {
    } else if a[0] == b[0] && Subsequence(a[1..], b[1..]) {
      SubsequencePrefix(a[1..], b[1..], k - 1);
      assert a[..k][1..] == a[1..][..k - 1];
    } else {
      SubsequencePrefix(a, b[1..], k);
    }
  }

  /** A subsequence of a subsequence is a subsequence. */
  lemma {:induction false} SubsequenceTrans<T>(a: seq<T>, b: seq<T>, c: seq<T>)
    requires Subsequence(a, b) && Subsequence(b, c)
    ensures Subsequence(a, c)
    decreases |c|
  {
    if a != [] && b != [] && c != [] {
      if b[0] == c[0] && Subsequence(b[1..], c[1..]) {
        if a[0] == b[0] && Subsequence(a[1..], b[1..]) {
          SubsequenceTrans(a[1..], b[1..], c[1..]);
        } else {
          SubsequenceTrans(a, b[1..], c[1..]);
        }
      } else {
        SubsequenceTrans(a, b, c[1..]);
      }
    }
  }
}
