/**
 * The two ways the dump gets a deterministic order out of `String.compareTo`:
 * a `TreeMap<String, V>` (a strictly sorted association list whose `put`
 * replaces the value of an equal key) and `List.sort` with a comparator on
 * identifiers (a stable sort).
 */
module Sorting {
  import opened Wrappers
  import opened JavaLang
  import opened OrderedMaps

  predicate StrictlySorted<V>(es: seq<(string, V)>)
  {
    forall i, j :: 0 <= i < j < |es| ==> LexLess(es[i].0, es[j].0)
  }

  lemma {:induction false} StrictlySortedDistinct<V>(es: seq<(string, V)>)
    requires StrictlySorted(es)
    ensures DistinctKeys(es)
  {
    forall i, j | 0 <= i < j < |es| ensures es[i].0 != es[j].0 {
      LexLessIrreflexive(es[i].0);
    }
  }

  // ---------------------------------------------------------------------
  // TreeMap

  /** `treeMap.put(k, v)` on the entries of a TreeMap, listed in ascending key order. */
  function TreePut<V>(es: seq<(string, V)>, k: string, v: V): seq<(string, V)>
  {
    if es == [] then [(k, v)]
    else if k == es[0].0 then [(k, v)] + es[1..]
    else if LexLess(k, es[0].0) then [(k, v)] + es
    else [es[0]] + TreePut(es[1..], k, v)
  }

  /** A put adds `k` to the keys and keeps the others. */
  lemma {:induction false} TreePutKey<V>(es: seq<(string, V)>, k: string, v: V, k': string)
    ensures k' in Keys(TreePut(es, k, v)) <==> k' == k || k' in Keys(es)
  {
    if es == [] {
      ConsKeys((k, v), [], k');
      assert [(k, v)] + [] == [(k, v)];
    } else {
      ConsKeys(es[0], es[1..], k');
      assert [es[0]] + es[1..] == es;
      if k == es[0].0 {
        ConsKeys((k, v), es[1..], k');
      } else if LexLess(k, es[0].0) {
        ConsKeys((k, v), es, k');
      } else {
        TreePutKey(es[1..], k, v, k');
        ConsKeys(es[0], TreePut(es[1..], k, v), k');
      }
    }
  }

  /** After a put, `k` maps to `v`. */
  lemma {:induction false} TreePutGet<V>(es: seq<(string, V)>, k: string, v: V)
    ensures Get(TreePut(es, k, v), k) == Some(v)
  {
    if es == [] {
      ConsKeys((k, v), [], k);
      assert [(k, v)] + [] == [(k, v)];
    } else if k == es[0].0 {
      ConsKeys((k, v), es[1..], k);
    } else if LexLess(k, es[0].0) {
      ConsKeys((k, v), es, k);
    } else {
      TreePutGet(es[1..], k, v);
      ConsKeys(es[0], TreePut(es[1..], k, v), k);
    }
  }

  /** `treeMap.put(k, v)` leaves the value of every other key alone. */
  lemma {:induction false} TreePutOther<V>(es: seq<(string, V)>, k: string, v: V, k': string)
    requires k' != k
    ensures Get(TreePut(es, k, v), k') == Get(es, k')
  {
    if es == [] {
      ConsKeys((k, v), [], k');
      assert [(k, v)] + [] == [(k, v)];
    } else {
      ConsKeys(es[0], es[1..], k');
      assert [es[0]] + es[1..] == es;
      if k == es[0].0 {
        ConsKeys((k, v), es[1..], k');
      } else if LexLess(k, es[0].0) {
        ConsKeys((k, v), es, k');
      } else {
        TreePutOther(es[1..], k, v, k');
        ConsKeys(es[0], TreePut(es[1..], k, v), k');
      }
    }
  }

  /** A put keeps the entries in ascending key order. */
  lemma {:induction false} TreePutSorted<V>(es: seq<(string, V)>, k: string, v: V)
    requires StrictlySorted(es)
    ensures StrictlySorted(TreePut(es, k, v))
  {
    if es == [] {
    } else if k == es[0].0 {
      var r := TreePut(es, k, v);
      assert forall i :: 0 <= i < |r| ==> r[i].0 == es[i].0;
    } else if LexLess(k, es[0].0) {
      TreePutSortedFront(es, k, v);
    } else {
      assert StrictlySorted(es[1..]);
      TreePutSorted(es[1..], k, v);
      TreePutSortedSkip(es, k, v);
    }
  }

  lemma {:induction false} TreePutSortedFront<V>(es: seq<(string, V)>, k: string, v: V)
    requires StrictlySorted(es) && es != [] && LexLess(k, es[0].0)
    ensures StrictlySorted([(k, v)] + es)
  {
    var r := [(k, v)] + es;
    forall j | 0 < j < |r| ensures LexLess(k, r[j].0) {
      if j > 1 { LexLessTransitive(k, es[0].0, r[j].0); }
    }
  }

  lemma {:induction false} TreePutSortedSkip<V>(es: seq<(string, V)>, k: string, v: V)
    requires StrictlySorted(es) && es != [] && k != es[0].0 && !LexLess(k, es[0].0)
    requires StrictlySorted(TreePut(es[1..], k, v))
    ensures StrictlySorted([es[0]] + TreePut(es[1..], k, v))
  {
    var rest := TreePut(es[1..], k, v);
    LexLessTotal(k, es[0].0);
    forall j | 0 <= j < |rest| ensures LexLess(es[0].0, rest[j].0) {
      assert rest[j].0 in Keys(rest);
      TreePutKey(es[1..], k, v, rest[j].0);
      if rest[j].0 != k {
        var m :| 0 <= m < |es[1..]| && es[1..][m].0 == rest[j].0;
        assert es[m + 1].0 == rest[j].0;
      }
    }
    var r := [es[0]] + rest;
    forall i, j | 0 <= i < j < |r| ensures LexLess(r[i].0, r[j].0) {
      if i == 0 {
        assert r[j] == rest[j - 1];
      } else {
        assert r[i] == rest[i - 1] && r[j] == rest[j - 1];
      }
    }
  }

  /** The entries of a TreeMap after `put(e.key, e.value)` for each `e` of `es` in turn. */
  function TreePutAll<V>(es: seq<(string, V)>): seq<(string, V)>
  {
    if es == [] then []
    else TreePut(TreePutAll(es[..|es| - 1]), es[|es| - 1].0, es[|es| - 1].1)
  }

  /** A TreeMap filled from `es` lists each key of `es` once, in ascending order. */
  lemma {:induction false} TreePutAllSpec<V>(es: seq<(string, V)>)
    ensures StrictlySorted(TreePutAll(es))
    ensures forall k :: k in Keys(TreePutAll(es)) <==> k in Keys(es)
  {
    if es != [] {
      var init := es[..|es| - 1];
      var (k, v) := es[|es| - 1];
      TreePutAllSpec(init);
      TreePutSorted(TreePutAll(init), k, v);
      forall k' ensures k' in Keys(TreePutAll(es)) <==> k' in Keys(es) {
        TreePutKey(TreePutAll(init), k, v, k');
        SnocKeys(init, (k, v), k');
        assert init + [(k, v)] == es;
      }
    }
  }

  /** In a TreeMap filled in order, each key holds the value put last under it. */
  lemma {:induction false} TreePutAllLastWins<V>(es: seq<(string, V)>, i: nat)
    requires i < |es|
    requires forall j :: i < j < |es| ==> es[j].0 != es[i].0
    ensures Get(TreePutAll(es), es[i].0) == Some(es[i].1)
  {
    if i == |es| - 1 {
      TreePutGet(TreePutAll(es[..|es| - 1]), es[i].0, es[i].1);
    } else {
      TreePutAllLastWins(es[..|es| - 1], i);
      TreePutOther(TreePutAll(es[..|es| - 1]), es[|es| - 1].0, es[|es| - 1].1, es[i].0);
    }
  }

  /** The TreeMap after the first `i + 1` puts is the one after the first `i`, plus put `i`. */
  lemma {:induction false} TreePutAllSnoc<V>(es: seq<(string, V)>, i: nat)
    requires i < |es|
    ensures TreePutAll(es[..i + 1]) == TreePut(TreePutAll(es[..i]), es[i].0, es[i].1)
  {
    assert es[..i + 1][..i] == es[..i];
  }

  /** Every value a TreeMap holds is one of the values put into it. */
  lemma {:induction false} TreePutAllValues<V>(es: seq<(string, V)>, m: nat)
    requires m < |TreePutAll(es)|
    ensures exists i :: 0 <= i < |es| && TreePutAll(es)[m] == es[i]
  {
    var init := es[..|es| - 1];
    var (k, v) := es[|es| - 1];
    var acc := TreePutAll(init);
    var r := TreePut(acc, k, v);
    TreePutValues(acc, k, v, m);
    if r[m] != (k, v) {
      var j :| 0 <= j < |acc| && r[m] == acc[j];
      TreePutAllValues(init, j);
      var i :| 0 <= i < |init| && acc[j] == init[i];
      assert es[i] == init[i];
    }
  }

  lemma {:induction false} TreePutValues<V>(es: seq<(string, V)>, k: string, v: V, m: nat)
    requires m < |TreePut(es, k, v)|
    ensures TreePut(es, k, v)[m] == (k, v) || exists j :: 0 <= j < |es| && TreePut(es, k, v)[m] == es[j]
  {
    var r := TreePut(es, k, v);
    if es == [] || k == es[0].0 {
      if m > 0 { assert r[m] == es[m]; }
    } else if LexLess(k, es[0].0) {
      if m > 0 { assert r[m] == es[m - 1]; }
    } else if m > 0 {
      TreePutValues(es[1..], k, v, m - 1);
      if r[m] != (k, v) {
        var j :| 0 <= j < |es[1..]| && r[m] == es[1..][j];
        assert r[m] == es[j + 1];
      }
    } else {
      assert r[0] == es[0];
    }
  }

  // ---------------------------------------------------------------------
  // List.sort with a comparator on a string key

  /** No element's key is smaller than the key of an element before it. */
  predicate SortedBy<T>(s: seq<T>, key: T -> string)
  {
    forall i, j :: 0 <= i < j < |s| ==> LexLessEq(key(s[i]), key(s[j]))
  }

  /** Inserts `x` after every element whose key is not greater than its own. */
  function InsertBy<T>(s: seq<T>, x: T, key: T -> string): (r: seq<T>)
    ensures multiset(r) == multiset(s) + multiset{x}
  {
    if s == [] then [x]
    else if LexLess(key(x), key(s[|s| - 1])) then
      assert s == s[..|s| - 1] + [s[|s| - 1]];
      InsertBy(s[..|s| - 1], x, key) + [s[|s| - 1]]
    else s + [x]
  }

  lemma {:induction false} InsertBySorted<T>(s: seq<T>, x: T, key: T -> string)
    requires SortedBy(s, key)
    ensures SortedBy(InsertBy(s, x, key), key)
  {
    if s != [] && LexLess(key(x), key(s[|s| - 1])) {
      var init := s[..|s| - 1];
      InsertBySorted(init, x, key);
      var ins := InsertBy(init, x, key);
      forall i | 0 <= i < |ins| ensures LexLessEq(key(ins[i]), key(s[|s| - 1])) {
        assert ins[i] in multiset(ins);
        if ins[i] != x {
          assert ins[i] in multiset(init);
          var m :| 0 <= m < |init| && init[m] == ins[i];
        }
      }
    } else if s != [] {
      LexLessTotal(key(x), key(s[|s| - 1]));
      forall i | 0 <= i < |s| ensures LexLessEq(key(s[i]), key(x)) {
        LexLessEqTransitive(key(s[i]), key(s[|s| - 1]), key(x));
      }
    }
  }

  /** `list.sort((a, b) -> key(a).compareTo(key(b)))`: a stable sort by key. */
  function SortBy<T>(xs: seq<T>, key: T -> string): (r: seq<T>)
    ensures multiset(r) == multiset(xs)
  {
    if xs == [] then []
    else
      assert xs == xs[..|xs| - 1] + [xs[|xs| - 1]];
      InsertBy(SortBy(xs[..|xs| - 1], key), xs[|xs| - 1], key)
  }

  /** The sorted list is in ascending key order. */
  lemma {:induction false} SortBySorted<T>(xs: seq<T>, key: T -> string)
    ensures SortedBy(SortBy(xs, key), key)
  {
    if xs != [] {
      SortBySorted(xs[..|xs| - 1], key);
      InsertBySorted(SortBy(xs[..|xs| - 1], key), xs[|xs| - 1], key);
    }
  }

  /** The elements of `s` whose key is `k`, in their order in `s`. */
  function WithKey<T>(s: seq<T>, key: T -> string, k: string): (r: seq<T>)
    ensures forall i :: 0 <= i < |r| ==> key(r[i]) == k
  {
    if s == [] then []
    else WithKey(s[..|s| - 1], key, k) + (if key(s[|s| - 1]) == k then [s[|s| - 1]] else [])
  }

  lemma {:induction false} WithKeyAppend<T>(s: seq<T>, t: seq<T>, key: T -> string, k: string)
    ensures WithKey(s + t, key, k) == WithKey(s, key, k) + WithKey(t, key, k)
  {
    if t != [] {
      var t' := t[..|t| - 1];
      assert (s + t)[..|s + t| - 1] == s + t';
      WithKeyAppend(s, t', key, k);
    } else {
      assert s + t == s;
    }
  }

  lemma {:induction false} InsertByStable<T>(s: seq<T>, x: T, key: T -> string, k: string)
    ensures WithKey(InsertBy(s, x, key), key, k)
         == WithKey(s, key, k) + (if key(x) == k then [x] else [])
  {
    if s != [] && LexLess(key(x), key(s[|s| - 1])) {
      InsertByStable(s[..|s| - 1], x, key, k);
      InsertByStableBefore(s, x, key, k);
    } else if s != [] {
      WithKeyAppend(s, [x], key, k);
      assert [x][..0] == [];
    }
  }

  /** The step of `InsertByStable` where `x` goes before the last element. */
  lemma {:induction false} InsertByStableBefore<T>(s: seq<T>, x: T, key: T -> string, k: string)
    requires s != [] && LexLess(key(x), key(s[|s| - 1]))
    requires WithKey(InsertBy(s[..|s| - 1], x, key), key, k)
          == WithKey(s[..|s| - 1], key, k) + (if key(x) == k then [x] else [])
    ensures WithKey(InsertBy(s, x, key), key, k)
         == WithKey(s, key, k) + (if key(x) == k then [x] else [])
  {
    var init := s[..|s| - 1];
    var last := s[|s| - 1];
    assert InsertBy(s, x, key) == InsertBy(init, x, key) + [last];
    WithKeySnoc(InsertBy(init, x, key), last, key, k);
    if key(x) == k && key(last) == k {
      LexLessIrreflexive(k);
    }
    SwapAroundEmpty(WithKey(init, key, k), if key(x) == k then [x] else [], if key(last) == k then [last] else []);
  }

  /** The elements with key `k` of a sequence with one more element at the end. */
  lemma {:induction false} WithKeySnoc<T>(s: seq<T>, y: T, key: T -> string, k: string)
    ensures WithKey(s + [y], key, k) == WithKey(s, key, k) + (if key(y) == k then [y] else [])
  {
    assert (s + [y])[..|s|] == s;
  }

  lemma {:induction false} SwapAroundEmpty<T>(a: seq<T>, p: seq<T>, q: seq<T>)
    requires p == [] || q == []
    ensures a + p + q == a + q + p
  {
    if p == [] {
      assert a + p == a && a + q + p == a + q;
    } else {
      assert a + q == a && a + p + q == a + p;
    }
  }

  /** When `s[i]` is the last element with key `k`, it ends the elements with key `k`. */
  lemma {:induction false} WithKeyEndsAt<T>(s: seq<T>, key: T -> string, k: string, i: nat)
    requires i < |s| && key(s[i]) == k
    requires forall j :: i < j < |s| ==> key(s[j]) != k
    ensures WithKey(s, key, k) != [] && WithKey(s, key, k)[|WithKey(s, key, k)| - 1] == s[i]
  {
    if i < |s| - 1 {
      var init := s[..|s| - 1];
      assert key(s[|s| - 1]) != k;
      assert init[i] == s[i];
      WithKeyEndsAt(init, key, k, i);
    }
  }

  /** The last element with key `k` sits at some position after which no element has key `k`. */
  lemma {:induction false} WithKeyLast<T>(s: seq<T>, key: T -> string, k: string) returns (m: nat)
    requires WithKey(s, key, k) != []
    ensures m < |s| && s[m] == WithKey(s, key, k)[|WithKey(s, key, k)| - 1]
    ensures forall j :: m < j < |s| ==> key(s[j]) != k
  {
    var init := s[..|s| - 1];
    if key(s[|s| - 1]) == k {
      m := |s| - 1;
    } else {
      assert WithKey(s, key, k) == WithKey(init, key, k);
      m := WithKeyLast(init, key, k);
      assert s[m] == init[m];
    }
  }

  /** Stability: elements with equal keys keep their relative order. */
  lemma {:induction false} SortByStable<T>(xs: seq<T>, key: T -> string, k: string)
    ensures WithKey(SortBy(xs, key), key, k) == WithKey(xs, key, k)
  {
    if xs != [] {
      SortByStable(xs[..|xs| - 1], key, k);
      InsertByStable(SortBy(xs[..|xs| - 1], key), xs[|xs| - 1], key, k);
    }
  }

  /**
   * Putting entries into an insertion-ordered map in key order gives a map
   * whose keys are strictly ascending: a repeated key is always the latest
   * one, so it is replaced where it stands.
   */
  lemma {:induction false} PutAllInKeyOrder<V>(es: seq<(string, V)>)
    requires forall i, j :: 0 <= i < j < |es| ==> LexLessEq(es[i].0, es[j].0)
    ensures StrictlySorted(PutAll(es))
    ensures es != [] ==> |PutAll(es)| > 0 && PutAll(es)[|PutAll(es)| - 1].0 == es[|es| - 1].0
  {
    if es != [] {
      var init := es[..|es| - 1];
      var (k, v) := es[|es| - 1];
      PutAllInKeyOrder(init);
      var acc := PutAll(init);
      if acc == [] {
        SortedPutAbove(acc, k, v);
      } else {
        assert LexLessEq(init[|init| - 1].0, k);
        if acc[|acc| - 1].0 == k {
          SortedPutLast(acc, k, v);
        } else {
          SortedPutAbove(acc, k, v);
        }
      }
    }
  }

  /** Putting the greatest key of a sorted map again replaces its last entry. */
  lemma {:induction false} SortedPutLast<V>(acc: seq<(string, V)>, k: string, v: V)
    requires StrictlySorted(acc) && acc != [] && acc[|acc| - 1].0 == k
    ensures StrictlySorted(Put(acc, k, v)) && Put(acc, k, v)[|acc| - 1].0 == k
  {
    StrictlySortedDistinct(acc);
    IndexOfDistinct(acc, |acc| - 1);
    var r := Put(acc, k, v);
    assert r == acc[|acc| - 1 := (k, v)];
    assert forall i :: 0 <= i < |r| ==> r[i].0 == acc[i].0;
  }

  /** Putting a key above every key of a sorted map appends it. */
  lemma {:induction false} SortedPutAbove<V>(acc: seq<(string, V)>, k: string, v: V)
    requires StrictlySorted(acc) && (acc != [] ==> LexLess(acc[|acc| - 1].0, k))
    ensures Put(acc, k, v) == acc + [(k, v)] && StrictlySorted(acc + [(k, v)])
  {
    forall i | 0 <= i < |acc| ensures LexLess(acc[i].0, k) {
      if i < |acc| - 1 { LexLessTransitive(acc[i].0, acc[|acc| - 1].0, k); }
    }
    forall i | 0 <= i < |acc| ensures acc[i].0 != k {
      LexLessIrreflexive(k);
    }
    assert k !in Keys(acc);
    var r := acc + [(k, v)];
    forall i, j | 0 <= i < j < |r| ensures LexLess(r[i].0, r[j].0) {
      if j < |acc| { assert r[i] == acc[i] && r[j] == acc[j]; }
    }
  }
}
