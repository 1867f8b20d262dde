/** Ordered, identity-keyed subscriber lists: the shape of both a map's list
    of registered callback interfaces and each action's per-phase list of
    subscribed callbacks. Adding suppresses duplicates by identity; removing
    takes out the first occurrence, as `List<T>.Remove` does. */
module SubscriberLists {

  /** No identity occurs twice. */
  predicate NoDup<T(==)>(s: seq<T>) {
    forall i, j :: 0 <= i < j < |s| ==> s[i] != s[j]
  }

  /** Appends `x` unless it is already subscribed. */
  function Subscribe<T(==)>(s: seq<T>, x: T): seq<T> {
    if x in s then s else s + [x]
  }

  /** Subscribing keeps the existing list as a prefix, adds `x` exactly when
      it was absent, and keeps the list duplicate-free. */
  lemma SubscribeFacts<T>(s: seq<T>, x: T)
    ensures |s| <= |Subscribe(s, x)| <= |s| + 1 && Subscribe(s, x)[..|s|] == s
    ensures x in Subscribe(s, x)
    ensures |Subscribe(s, x)| == |s| <==> x in s
    ensures NoDup(s) ==> NoDup(Subscribe(s, x))
  {
    assert (s + [x])[..|s|] == s;
  }

  /** Position of the first occurrence of `x` in `s`. */
  function FirstIndex<T(==)>(s: seq<T>, x: T): (k: nat)
    requires x in s
    ensures k < |s| && s[k] == x
    ensures x !in s[..k]
  {
    if s[0] == x then 0
    else
      assert x in s[1..];
      var k := FirstIndex(s[1..], x) + 1;
      assert s[..k] == [s[0]] + s[1..][..k - 1];
      k
  }

  /** Removes the first occurrence of `x`, if there is one. */
  function RemoveFirst<T(==)>(s: seq<T>, x: T): seq<T> {
    if x in s then
      var k := FirstIndex(s, x);
      s[..k] + s[k + 1..]
    else
      s
  }

  /** Removal is a no-op on an absent identity; otherwise it drops exactly
      the first occurrence, keeping the order of the rest; on a
      duplicate-free list it leaves no trace of `x`. */
  lemma RemoveFirstFacts<T>(s: seq<T>, x: T)
    ensures x !in s ==> RemoveFirst(s, x) == s
    ensures x in s ==> |RemoveFirst(s, x)| == |s| - 1
    ensures x in s ==> multiset(RemoveFirst(s, x)) == multiset(s) - multiset{x}
    ensures x in s ==> exists i :: 0 <= i < |s| && s[i] == x && x !in s[..i] && RemoveFirst(s, x) == s[..i] + s[i + 1..]
    ensures NoDup(s) ==> NoDup(RemoveFirst(s, x)) && x !in RemoveFirst(s, x)
  {
    if x in s {
      var k := FirstIndex(s, x);
      var r := s[..k] + s[k + 1..];
      assert s == s[..k] + [s[k]] + s[k + 1..];
      assert multiset(s) == multiset(s[..k]) + multiset{x} + multiset(s[k + 1..]);
      if NoDup(s) {
        forall i, j | 0 <= i < j < |r| ensures r[i] != r[j] {
          var i' := if i < k then i else i + 1;
          var j' := if j < k then j else j + 1;
          assert r[i] == s[i'] && r[j] == s[j'];
        }
        forall i | 0 <= i < |r| ensures r[i] != x {
          var i' := if i < k then i else i + 1;
          assert r[i] == s[i'] && i' != k;
        }
      }
    }
  }

  /** Removing a freshly appended subscriber gives back the list it was appended to. */
  lemma RemoveUndoesSubscribe<T>(s: seq<T>, x: T)
    requires x !in s
    ensures RemoveFirst(Subscribe(s, x), x) == s
  {
    var t := s + [x];
    var k := FirstIndex(t, x);
    assert t[..k] == s;
  }

  /** Removing the head of a list leaves its tail: the step of unsubscribing
      a registration list front to back. */
  lemma RemoveHead<T>(s: seq<T>)
    requires |s| > 0
    ensures RemoveFirst(s, s[0]) == s[1..]
  {
    assert FirstIndex(s, s[0]) == 0;
  }
}
