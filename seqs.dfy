/** Facts about sequences shared by the models. */
module Seqs {
  /** No element occurs twice. */
  predicate Distinct<T(==)>(s: seq<T>) {
    forall i, k :: 0 <= i < k < |s| ==> s[i] != s[k]
  }

  /** The concatenation of a sequence of sequences. */
  function Flatten<T>(ss: seq<seq<T>>): (r: seq<T>)
    ensures |ss| == 0 ==> r == []
  {
    if ss == [] then [] else Flatten(ss[..|ss| - 1]) + ss[|ss| - 1]
  }

  lemma FlattenSnoc<T>(ss: seq<seq<T>>, s: seq<T>)
    ensures Flatten(ss + [s]) == Flatten(ss) + s
  {
    assert (ss + [s])[..|ss|] == ss;
  }

  /** A non-empty sequence is its head followed by its tail. */
  lemma HeadTail<T>(s: seq<T>)
    requires s != []
    ensures [s[0]] + s[1..] == s
  {
  }

  /** A non-empty sequence is its front followed by its last element. */
  lemma InitLast<T>(s: seq<T>)
    requires s != []
    ensures s == s[..|s| - 1] + [s[|s| - 1]]
  {
  }

  lemma PrefixSlice<T>(s: seq<T>, a: nat, b: nat)
    requires a <= b <= |s|
    ensures s[..a] + s[a..b] == s[..b]
  {
  }

  lemma AppendAssoc<T>(a: seq<T>, b: seq<T>, c: seq<T>)
    ensures a + (b + c) == (a + b) + c
  {
  }

  /** An element of a concatenation comes from one of its parts. */
  lemma {:induction false} FlattenMember<T>(ss: seq<seq<T>>, x: T)
    requires x in Flatten(ss)
    ensures exists k :: 0 <= k < |ss| && x in ss[k]
  {
    var init := ss[..|ss| - 1];
    if x !in ss[|ss| - 1] {
      FlattenMember(init, x);
      var k :| 0 <= k < |init| && x in init[k];
      assert ss[k] == init[k];
    }
  }

  /** Under a multiset-preserving reordering a sequence without repeats stays without repeats. */
  lemma DistinctPermutation<T>(s: seq<T>, t: seq<T>)
    requires multiset(s) == multiset(t) && Distinct(s)
    ensures Distinct(t)
  {
    forall i, k | 0 <= i < k < |t| ensures t[i] != t[k] {
      if t[i] == t[k] {
        TwiceCounted(t, i, k);
        AtMostOnce(s, t[i]);
        assert false;
      }
    }
  }

  lemma {:induction false} AtMostOnce<T>(s: seq<T>, x: T)
    requires Distinct(s)
    ensures multiset(s)[x] <= 1
  {
    if s != [] {
      var init := s[..|s| - 1];
      assert s == init + [s[|s| - 1]];
      assert Distinct(init);
      AtMostOnce(init, x);
      if x == s[|s| - 1] {
        assert x !in init;
      }
    }
  }

  lemma TwiceCounted<T>(t: seq<T>, i: nat, k: nat)
    requires i < k < |t| && t[i] == t[k]
    ensures multiset(t)[t[i]] >= 2
  {
    assert t == t[..k] + [t[k]] + t[k + 1..];
    assert t[..k][i] == t[i];
  }

  /** Appending one element keeps a sequence without repeats iff the element is new. */
  lemma DistinctSnoc<T>(a: seq<T>, x: T)
    ensures Distinct(a + [x]) <==> Distinct(a) && x !in a
  {
    DistinctConcat(a, [x]);
  }

  /** A concatenation has no repeats iff neither part has and they share no element. */
  lemma DistinctConcat<T>(a: seq<T>, b: seq<T>)
    ensures Distinct(a + b) <==> Distinct(a) && Distinct(b) && (forall x :: x in a ==> x !in b)
  {
    var c := a + b;
    if Distinct(c) {
      forall i, k | 0 <= i < k < |a| ensures a[i] != a[k] {
        assert c[i] == a[i] && c[k] == a[k];
      }
      forall i, k | 0 <= i < k < |b| ensures b[i] != b[k] {
        assert c[|a| + i] == b[i] && c[|a| + k] == b[k];
      }
      assert forall i :: 0 <= i < |a| ==> c[i] == a[i];
      assert forall k :: 0 <= k < |b| ==> c[|a| + k] == b[k];
    }
    if Distinct(a) && Distinct(b) && (forall x :: x in a ==> x !in b) {
      forall i, k | 0 <= i < k < |c| ensures c[i] != c[k] {
        if k < |a| {
        } else if i >= |a| {
          assert c[i] == b[i - |a|] && c[k] == b[k - |a|];
        } else {
          assert c[i] in a && c[k] == b[k - |a|];
        }
      }
    }
  }

  /** No two elements share a key. */
  predicate KeysDistinct<T, K(==)>(s: seq<T>, key: T -> K) {
    forall i, k :: 0 <= i < k < |s| ==> key(s[i]) != key(s[k])
  }

  /** Reordering keeps the keys pairwise different. */
  lemma KeysDistinctPermutation<T, K>(s: seq<T>, t: seq<T>, key: T -> K)
    requires multiset(s) == multiset(t) && KeysDistinct(s, key)
    ensures KeysDistinct(t, key)
  {
    assert Distinct(s);
    forall a, b | 0 <= a < b < |t| ensures key(t[a]) != key(t[b]) {
      assert t[a] in multiset(s) && t[b] in multiset(s);
      var a' :| 0 <= a' < |s| && s[a'] == t[a];
      var b' :| 0 <= b' < |s| && s[b'] == t[b];
      if key(t[a]) == key(t[b]) {
        assert a' == b';
        TwiceCounted(t, a, b);
        AtMostOnce(s, t[a]);
        assert false;
      }
    }
  }
}
