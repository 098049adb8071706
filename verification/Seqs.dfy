// Sequence facts shared by the list-handling modules.
module Seqs {

  datatype Option<+T> = None | Some(value: T)

  predicate Distinct<T(==)>(s: seq<T>) {
    forall i, j :: 0 <= i < j < |s| ==> s[i] != s[j]
  }

  /** The list after unlinking x (list_del). */
  function Without<T(==)>(s: seq<T>, x: T): (r: seq<T>)
    ensures forall y | y in r :: y in s && y != x
    ensures forall y | y in s :: y != x ==> y in r
    ensures x !in s ==> r == s
    ensures Distinct(s) ==> Distinct(r) && |r| == if x in s then |s| - 1 else |s|
  {
    if s == [] then []
    else
      assert Distinct(s) ==> s[0] !in s[1..];
      var rest := Without(s[1..], x);
      if s[0] == x then rest else
        assert forall y | y in rest :: y in s[1..];
        [s[0]] + rest
  }

  lemma {:induction false} WithoutMultiset<T>(s: seq<T>, x: T)
    requires Distinct(s) && x in s
    ensures multiset(s) == multiset(Without(s, x)) + multiset{x}
  {
    assert s == [s[0]] + s[1..];
    if s[0] == x {
      assert x !in s[1..];
    } else {
      WithoutMultiset(s[1..], x);
    }
  }

  function Last<T>(s: seq<T>): T
    requires s != []
  {
    s[|s| - 1]
  }

  lemma HeadIn<T>(s: seq<T>)
    ensures s != [] ==> s[0] in s
  {
  }

  /** The newest n elements, or all of them when there are fewer. */
  function Newest<T>(s: seq<T>, n: nat): (r: seq<T>)
    ensures |r| == if |s| <= n then |s| else n
  {
    if |s| <= n then s else s[|s| - n..]
  }

  function Flatten<T>(ss: seq<seq<T>>): seq<T> {
    if ss == [] then [] else ss[0] + Flatten(ss[1..])
  }

  lemma {:induction false} FlattenAppend<T>(a: seq<seq<T>>, b: seq<seq<T>>)
    ensures Flatten(a + b) == Flatten(a) + Flatten(b)
  {
    if a == [] {
      assert a + b == b;
    } else {
      assert (a + b)[1..] == a[1..] + b;
      calc {
        Flatten(a + b);
        a[0] + Flatten(a[1..] + b);
        { FlattenAppend(a[1..], b); }
        a[0] + (Flatten(a[1..]) + Flatten(b));
        (a[0] + Flatten(a[1..])) + Flatten(b);
      }
    }
  }

  lemma FlattenNext<T>(ss: seq<seq<T>>, b: nat)
    requires b < |ss|
    ensures Flatten(ss[..b + 1]) == Flatten(ss[..b]) + ss[b]
  {
    assert ss[..b + 1] == ss[..b] + [ss[b]];
    FlattenAppend(ss[..b], [ss[b]]);
    assert Flatten([ss[b]]) == ss[b] + Flatten([ss[b]][1..]) == ss[b];
  }

  lemma FlattenPrefix<T>(ss: seq<seq<T>>, b: nat)
    requires b <= |ss|
    ensures Flatten(ss) == Flatten(ss[..b]) + Flatten(ss[b..])
  {
    assert ss == ss[..b] + ss[b..];
    FlattenAppend(ss[..b], ss[b..]);
  }

  lemma DistinctConcat<T>(a: seq<T>, b: seq<T>)
    requires Distinct(a) && Distinct(b) && forall x | x in a :: x !in b
    ensures Distinct(a + b)
  {
    forall i, j | 0 <= i < j < |a + b| ensures (a + b)[i] != (a + b)[j] {
      assert i < |a| ==> (a + b)[i] in a;
      assert j >= |a| ==> (a + b)[j] in b;
    }
  }

  /** At most n elements from position i. */
  function Slice<T>(s: seq<T>, i: nat, n: nat): seq<T> {
    if i >= |s| then [] else if n <= |s| - i then s[i..i + n] else s[i..]
  }

  /** Two duplicate-free sequences over the same elements are permutations of each other. */
  lemma {:induction false} SameElements<T>(a: seq<T>, b: seq<T>)
    requires Distinct(a) && Distinct(b)
    requires (forall x | x in a :: x in b) && (forall x | x in b :: x in a)
    ensures multiset(a) == multiset(b) && |a| == |b|
  {
    assert b != [] ==> b[0] in b;
    if a != [] {
      var x := a[0];
      assert x in b && x !in a[1..];
      WithoutMultiset(b, x);
      assert a == [x] + a[1..];
      forall y | y in a[1..] ensures y in Without(b, x) {
        assert y in a;
      }
      SameElements(a[1..], Without(b, x));
    }
  }

  /** A slice, and the slice that starts where it stopped. */
  lemma SlicesContinue<T>(s: seq<T>, start: nat, n: nat, m: nat)
    ensures Slice(s, start, n) + Slice(s, start + |Slice(s, start, n)|, m) == Slice(s, start, n + m)
  {
  }

  lemma SliceNext<T>(s: seq<T>, start: nat, k: nat)
    requires start + k < |s|
    ensures Slice(s, start, k + 1) == Slice(s, start, k) + [s[start + k]] && |Slice(s, start, k)| == k
  {
  }

  lemma SliceEndsHere<T>(s: seq<T>, start: nat, k: nat, n: nat)
    requires k <= n
    ensures start + k >= |s| ==> Slice(s, start, k) == Slice(s, start, n)
    ensures Slice(s, start, 0) == []
  {
  }
}
