/** Sorting by a string key, as `sort.Slice` with `a.Key < b.Key` does. */
module Sorting {
  import opened GoStrings

  /** No element's key is below an earlier one's. */
  predicate SortedByKey<T>(s: seq<T>, key: T -> string) {
    forall i, k :: 0 <= i < k < |s| ==> !StrLess(key(s[k]), key(s[i]))
  }

  /** Keys strictly increase. */
  predicate StrictlySortedByKey<T>(s: seq<T>, key: T -> string) {
    forall i, k :: 0 <= i < k < |s| ==> StrLess(key(s[i]), key(s[k]))
  }

  /** Inserts `x` before the first element whose key is above its own. */
  function InsertByKey<T>(x: T, s: seq<T>, key: T -> string): (r: seq<T>)
    ensures multiset(r) == multiset(s) + multiset{x}
    ensures |r| == |s| + 1
  {
    if s == [] then [x]
    else if !StrLess(key(s[0]), key(x)) then [x] + s
    else
      assert s == [s[0]] + s[1..];
      [s[0]] + InsertByKey(x, s[1..], key)
  }

  lemma {:induction false} InsertByKeySorted<T>(x: T, s: seq<T>, key: T -> string)
    requires SortedByKey(s, key)
    ensures SortedByKey(InsertByKey(x, s, key), key)
  {
    if s != [] && StrLess(key(s[0]), key(x)) {
      var rest := InsertByKey(x, s[1..], key);
      assert SortedByKey(s[1..], key) by {
        assert forall i :: 0 <= i < |s| - 1 ==> s[1..][i] == s[i + 1];
      }
      InsertByKeySorted(x, s[1..], key);
      var r := [s[0]] + rest;
      forall k | 0 < k < |r| ensures !StrLess(key(r[k]), key(s[0])) {
        assert r[k] == rest[k - 1];
        assert rest[k - 1] in multiset(rest);
        if rest[k - 1] == x {
          StrLessAsymmetric(key(s[0]), key(x));
        } else {
          assert rest[k - 1] in multiset(s[1..]);
          var m :| 0 <= m < |s[1..]| && s[1..][m] == rest[k - 1];
          assert s[m + 1] == rest[k - 1];
        }
      }
    } else if s != [] {
      var r := [x] + s;
      forall i, k | 0 <= i < k < |r| ensures !StrLess(key(r[k]), key(r[i])) {
        if i == 0 {
          assert r[k] == s[k - 1];
          if StrLess(key(s[k - 1]), key(x)) {
            if k - 1 > 0 {
              assert !StrLess(key(s[k - 1]), key(s[0]));
              StrLessTotalOrEqual(key(s[k - 1]), key(s[0]));
              if key(s[k - 1]) != key(s[0]) {
                StrLessTransitive(key(s[0]), key(s[k - 1]), key(x));
              }
            }
          }
        } else {
          assert r[i] == s[i - 1] && r[k] == s[k - 1];
        }
      }
    }
  }

  lemma StrLessTotalOrEqual(a: string, b: string)
    requires !StrLess(a, b)
    ensures a == b || StrLess(b, a)
  {
    if a != b {
      StrLessTotal(a, b);
    }
  }

  /** Insertion sort on keys. */
  function SortByKey<T>(s: seq<T>, key: T -> string): (r: seq<T>)
    ensures multiset(r) == multiset(s) && |r| == |s|
  {
    if s == [] then []
    else
      assert s == [s[0]] + s[1..];
      InsertByKey(s[0], SortByKey(s[1..], key), key)
  }

  /** The result is sorted by key, whatever the input order. */
  lemma {:induction false} SortByKeySorted<T>(s: seq<T>, key: T -> string)
    ensures SortedByKey(SortByKey(s, key), key)
  {
    if s != [] {
      SortByKeySorted(s[1..], key);
      InsertByKeySorted(s[0], SortByKey(s[1..], key), key);
    }
  }

  /** A sorted sequence whose keys are pairwise different is strictly sorted. */
  lemma SortedDistinctKeys<T>(s: seq<T>, key: T -> string)
    requires SortedByKey(s, key)
    requires forall i, k :: 0 <= i < k < |s| ==> key(s[i]) != key(s[k])
    ensures StrictlySortedByKey(s, key)
  {
    forall i, k | 0 <= i < k < |s| ensures StrLess(key(s[i]), key(s[k])) {
      StrLessTotal(key(s[i]), key(s[k]));
    }
  }
}
