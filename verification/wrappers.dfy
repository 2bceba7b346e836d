/** Small failure-carrying datatypes shared by the cart model. */
module Wrappers {

  /** A value that may be absent: Ruby's `nil` is `None`. */
  datatype Option<+T> = None | Some(value: T) {

    /** The wrapped value, or `default` when absent. */
    function GetOr(default: T): T {
      match this
      case Some(v) => v
      case None => default
    }
  }

  /** The outcome of a Ruby call that either returns a value or raises. */
  datatype Result<+T> = Ok(value: T) | Raised(message: string)

  /** A sequence lists the elements of a set, each exactly once, in some order.
      Redis replies to SMEMBERS and KEYS in an unspecified order; the model
      takes that order as an input constrained by this predicate. */
  predicate Enumerates<T>(order: seq<T>, s: set<T>) {
    multiset(order) == multiset(s)
  }

  /** An enumeration has the set's elements and its size. */
  lemma EnumeratesFacts<T>(order: seq<T>, s: set<T>)
    requires Enumerates(order, s)
    ensures |order| == |s|
    ensures forall x :: x in order <==> x in s
  {
    assert |multiset(order)| == |order|;
    assert |multiset(s)| == |s|;
    forall x
      ensures x in order <==> x in s
    {
      assert x in order <==> x in multiset(order);
      assert x in s <==> x in multiset(s);
    }
  }

  /** No element occurs twice. */
  predicate Distinct<T(==)>(s: seq<T>) {
    forall i, j :: 0 <= i < j < |s| ==> s[i] != s[j]
  }

  lemma RepeatCountsTwice<T>(s: seq<T>, i: int, j: int)
    requires 0 <= i < j < |s| && s[i] == s[j]
    ensures multiset(s)[s[i]] >= 2
  {
    var x := s[i];
    assert s == s[..i] + [x] + s[i + 1..j] + [x] + s[j + 1..];
    assert multiset(s) == multiset(s[..i]) + multiset{x} + multiset(s[i + 1..j]) + multiset{x} + multiset(s[j + 1..]);
  }

  /** An enumeration of a set lists no element twice. */
  lemma EnumerationDistinct<T>(order: seq<T>, s: set<T>)
    requires Enumerates(order, s)
    ensures Distinct(order)
  {
    forall i, j | 0 <= i < j < |order|
      ensures order[i] != order[j]
    {
      if order[i] == order[j] {
        RepeatCountsTwice(order, i, j);
      }
    }
  }

  /** Dropping the head of a list without repeats leaves such a list, and
      the head is not in it. */
  lemma DistinctTail<T>(s: seq<T>)
    requires Distinct(s) && |s| > 0
    ensures Distinct(s[1..]) && s[0] !in s[1..]
  {
    var t := s[1..];
    forall i, j | 0 <= i < j < |t|
      ensures t[i] != t[j]
    {
      assert t[i] == s[i + 1] && t[j] == s[j + 1];
    }
    forall j | 0 <= j < |t|
      ensures t[j] != s[0]
    {
      assert t[j] == s[j + 1];
    }
  }

  /** An element at a position of a list is in the list. */
  lemma IndexedIn<T>(s: seq<T>, i: int)
    requires 0 <= i < |s|
    ensures s[i] in s
  {
  }
}
