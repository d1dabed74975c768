/** The JavaScript array built-ins the handlers use on lists of identities
    and records: `indexOf`, `includes`, `splice(k, 1)` and `filter(y => y !== x)`. */
module Seqs {

  /** Every element occurs once: the shape of a set of identities kept in a list. */
  predicate NoDup<T(==)>(s: seq<T>) {
    forall i, j :: 0 <= i < j < |s| ==> s[i] != s[j]
  }

  /** `s.indexOf(x)`: the first position of x, or -1. */
  function IndexOf<T(==)>(s: seq<T>, x: T): (r: int)
    ensures -1 <= r < |s|
    ensures r == -1 <==> x !in s
    ensures 0 <= r ==> s[r] == x && x !in s[..r]
  {
    if s == [] then -1
    else if s[0] == x then 0
    else
      var k := IndexOf(s[1..], x);
      assert s[1..][..if k < 0 then 0 else k] == s[1..if k < 0 then 1 else k + 1];
      if k < 0 then -1 else k + 1
  }

  /** `s.splice(k, 1)`: s without its element at k, the rest in order. */
  function RemoveAt<T>(s: seq<T>, k: int): (r: seq<T>)
    requires 0 <= k < |s|
    ensures |r| == |s| - 1
    ensures forall i :: 0 <= i < k ==> r[i] == s[i]
    ensures forall i :: k <= i < |r| ==> r[i] == s[i + 1]
  {
    s[..k] + s[k + 1..]
  }

  /** `s.filter(y => y !== x)` */
  function Without<T(==,!new)>(s: seq<T>, x: T): (r: seq<T>)
    ensures x !in r
    ensures forall y :: y != x ==> (y in r <==> y in s)
    ensures multiset(r) == multiset(s)[x := 0]
  {
    if s == [] then []
    else
      var rest := Without(s[1..], x);
      assert s == [s[0]] + s[1..];
      if s[0] == x then rest else [s[0]] + rest
  }

  /** One element is kept exactly when it is not the one filtered out. */
  lemma WithoutSingle<T(!new)>(y: T, x: T)
    ensures Without([y], x) == if y == x then [] else [y]
  {
    assert [y][1..] == [];
  }

  /** The filter works element by element: it keeps the order of the
      remaining elements and each of them as often as it occurs. */
  lemma {:induction false} WithoutAppend<T(!new)>(a: seq<T>, b: seq<T>, x: T)
    ensures Without(a + b, x) == Without(a, x) + Without(b, x)
  {
    if a == [] {
      assert a + b == b;
    } else {
      assert (a + b)[1..] == a[1..] + b;
      WithoutAppend(a[1..], b, x);
    }
  }

  /** Filtering out an element that is absent changes nothing. */
  lemma {:induction false} WithoutAbsent<T(!new)>(s: seq<T>, x: T)
    requires x !in s
    ensures Without(s, x) == s
  {
    if s != [] {
      WithoutAbsent(s[1..], x);
    }
  }

  /** Filtering keeps a duplicate-free list duplicate-free. */
  lemma {:induction false} WithoutNoDup<T(!new)>(s: seq<T>, x: T)
    requires NoDup(s)
    ensures NoDup(Without(s, x))
  {
    if s != [] {
      WithoutNoDup(s[1..], x);
      var rest := Without(s[1..], x);
      assert s[0] !in rest by {
        assert s[0] !in s[1..];
      }
    }
  }

  /** In a duplicate-free list, filtering out a present element removes exactly
      one, which is what `indexOf` then `splice` does. */
  lemma {:induction false} WithoutIsRemoveAt<T(!new)>(s: seq<T>, x: T)
    requires NoDup(s) && x in s
    ensures Without(s, x) == RemoveAt(s, IndexOf(s, x))
  {
    if s[0] == x {
      WithoutAbsent(s[1..], x);
      assert RemoveAt(s, 0) == s[1..];
    } else {
      WithoutIsRemoveAt(s[1..], x);
      var k := IndexOf(s[1..], x);
      assert IndexOf(s, x) == k + 1;
      assert RemoveAt(s, k + 1) == [s[0]] + RemoveAt(s[1..], k);
    }
  }

  /** Removing one element keeps a list duplicate-free. */
  lemma RemoveAtNoDup<T>(s: seq<T>, k: int)
    requires NoDup(s) && 0 <= k < |s|
    ensures NoDup(RemoveAt(s, k))
  {
    var r := RemoveAt(s, k);
    forall i, j | 0 <= i < j < |r| ensures r[i] != r[j] {
      var i' := if i < k then i else i + 1;
      var j' := if j < k then j else j + 1;
      assert r[i] == s[i'] && r[j] == s[j'] && i' < j';
    }
  }

  /** Removing a present element of a duplicate-free list shortens it by one. */
  lemma WithoutLength<T(!new)>(s: seq<T>, x: T)
    requires NoDup(s) && x in s
    ensures |Without(s, x)| == |s| - 1
  {
    WithoutIsRemoveAt(s, x);
  }

  /** Appending then filtering out an absent element gives the list back. */
  lemma {:induction false} WithoutAppended<T(!new)>(s: seq<T>, x: T)
    requires x !in s
    ensures Without(s + [x], x) == s
  {
    if s == [] {
      assert [] + [x] == [x];
      assert Without([x][1..], x) == [];
    } else {
      assert (s + [x])[1..] == s[1..] + [x];
      WithoutAppended(s[1..], x);
      assert s == [s[0]] + s[1..];
    }
  }

  /** Appending an absent element keeps a list duplicate-free. */
  lemma AppendNoDup<T>(s: seq<T>, x: T)
    requires NoDup(s) && x !in s
    ensures NoDup(s + [x])
  {
  }

  /** A present element of a duplicate-free list occurs exactly once. */
  lemma NoDupOnce<T(!new)>(s: seq<T>, x: T)
    requires NoDup(s) && x in s
    ensures multiset(s)[x] == 1
  {
    WithoutLength(s, x);
    var m := multiset(s);
    var only := multiset{}[x := m[x]];
    assert m == m[x := 0] + only;
    assert |only| == m[x];
  }
}
