/** Finite-collection vocabulary shared by the other modules. */
module Collections {

  datatype Option<+T> = None | Some(value: T)

  /** The sum of `values` over a finite set of its keys. */
  ghost function SumOver<K>(values: map<K, int>, keys: set<K>): int
    requires keys <= values.Keys
  {
    if keys == {} then 0
    else
      var k :| k in keys;
      values[k] + SumOver(values, keys - {k})
  }

  /** Any key may be taken out first: the sum does not depend on the enumeration order. */
  lemma {:induction false} SumOverRemove<K>(values: map<K, int>, keys: set<K>, k: K)
    requires keys <= values.Keys && k in keys
    ensures SumOver(values, keys) == values[k] + SumOver(values, keys - {k})
    decreases keys
  {
    var first :| first in keys && SumOver(values, keys) == values[first] + SumOver(values, keys - {first});
    if first != k {
      SumOverRemove(values, keys - {first}, k);
      SumOverRemove(values, keys - {k}, first);
      assert keys - {first} - {k} == keys - {k} - {first};
    }
  }

  /** The sum only looks at the listed keys. */
  lemma {:induction false} SumOverAgree<K>(a: map<K, int>, b: map<K, int>, keys: set<K>)
    requires keys <= a.Keys && keys <= b.Keys
    requires forall k :: k in keys ==> a[k] == b[k]
    ensures SumOver(a, keys) == SumOver(b, keys)
    decreases keys
  {
    if keys != {} {
      var k :| k in keys;
      SumOverRemove(a, keys, k);
      SumOverRemove(b, keys, k);
      SumOverAgree(a, b, keys - {k});
    }
  }

  function Members<T(==)>(s: seq<T>): set<T> {
    set x | x in s
  }

  predicate Distinct<T(==)>(s: seq<T>) {
    forall i, j :: 0 <= i < j < |s| ==> s[i] != s[j]
  }

  /** A list has as many members as entries exactly if it repeats none. */
  lemma {:induction false} MembersCount<T>(s: seq<T>)
    ensures |Members(s)| <= |s|
    ensures |Members(s)| == |s| <==> Distinct(s)
  {
    if s != [] {
      var init, last := s[..|s| - 1], s[|s| - 1];
      MembersCount(init);
      InitAndLast(s);
      assert Members(s) == Members(init) + {last};
      if last in init {
        assert Members(s) == Members(init);
        var i :| 0 <= i < |init| && init[i] == last;
        assert s[i] == s[|s| - 1];
      } else {
        assert Distinct(s) <==> Distinct(init);
      }
    }
  }

  lemma SubsetSize<T>(a: set<T>, b: set<T>)
    requires a <= b
    ensures |a| <= |b|
    ensures |a| == |b| ==> a == b
  {
    var rest := b - a;
    assert b == a + rest && a !! rest;
    if |a| == |b| {
      assert |rest| == 0;
    }
  }

  lemma JoinAssociates<T>(a: seq<T>, b: seq<T>, c: seq<T>)
    ensures (a + b) + c == a + (b + c)
  {
  }

  lemma HeadAndTail<T>(s: seq<T>)
    requires s != []
    ensures s == [s[0]] + s[1..]
  {
  }

  lemma InitAndLast<T>(s: seq<T>)
    requires s != []
    ensures s == s[..|s| - 1] + [s[|s| - 1]]
  {
  }

  lemma SliceOfSlice<T>(s: seq<T>, start: nat, end: nat, i: nat, j: nat)
    requires i <= j && start + j <= end <= |s|
    ensures s[start..end][i..j] == s[start + i..start + j]
  {
    var a, b := s[start..end][i..j], s[start + i..start + j];
    forall k | 0 <= k < |a|
      ensures a[k] == b[k]
    {
      assert a[k] == s[start..end][i + k] == s[start + i + k];
    }
  }

  lemma TakeAll<T>(s: seq<T>)
    ensures s[..|s|] == s
  {
  }

  lemma SnocInit<T>(s: seq<T>, x: T)
    ensures (s + [x])[..|s| + 1 - 1] == s && (s + [x])[|s|] == x
  {
  }

  lemma NextPrefix<T>(s: seq<T>, i: nat)
    requires i < |s|
    ensures s[..i + 1] == s[..i] + [s[i]] && s[..i + 1][..i] == s[..i]
  {
  }

  function Map<A, B>(f: A -> B, s: seq<A>): seq<B> {
    seq(|s|, i requires 0 <= i < |s| => f(s[i]))
  }

  lemma MapHead<A, B>(f: A -> B, s: seq<A>)
    requires s != []
    ensures Map(f, s) == [f(s[0])] + Map(f, s[1..])
  {
  }

  lemma MapLast<A, B>(f: A -> B, s: seq<A>)
    requires s != []
    ensures Map(f, s) == Map(f, s[..|s| - 1]) + [f(s[|s| - 1])]
  {
  }

  lemma TakeAndDrop<T>(s: seq<T>, n: nat)
    requires n <= |s|
    ensures s[..n] + s[n..] == s
  {
  }

  lemma CutBeforeJoin<T>(a: seq<T>, b: seq<T>, k: nat)
    requires k <= |a|
    ensures (a + b)[..k] == a[..k] && (a + b)[k..] == a[k..] + b
  {
  }
}
