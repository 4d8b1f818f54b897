/**
 * Insertion-ordered maps from string keys, as association lists. `Put` is
 * the `put`/`add` of `LinkedHashMap`, Gson's `JsonObject` and a tag
 * compound: an existing key keeps its position and takes the new value, a
 * new key goes at the end.
 */
module OrderedMaps {
  import opened Wrappers

  function Keys<V>(es: seq<(string, V)>): (ks: seq<string>)
    ensures |ks| == |es|
    ensures forall i :: 0 <= i < |es| ==> ks[i] == es[i].0
  {
    seq(|es|, i requires 0 <= i < |es| => es[i].0)
  }

  predicate DistinctKeys<V>(es: seq<(string, V)>)
  {
    forall i, j :: 0 <= i < j < |es| ==> es[i].0 != es[j].0
  }

  /** Position of the first entry with key `k`. */
  function IndexOf<V>(es: seq<(string, V)>, k: string): (r: Option<nat>)
    ensures r.Some? ==> r.value < |es| && es[r.value].0 == k
                        && forall i :: 0 <= i < r.value ==> es[i].0 != k
    ensures r.None? <==> k !in Keys(es)
  {
    if es == [] then None
    else if es[0].0 == k then Some(0)
    else match IndexOf(es[1..], k)
      case None => None
      case Some(j) => Some(j + 1)
  }

  function Get<V>(es: seq<(string, V)>, k: string): (r: Option<V>)
    ensures r.Some? <==> k in Keys(es)
  {
    match IndexOf(es, k)
    case None => None
    case Some(j) => Some(es[j].1)
  }

  /** `map.put(k, v)`. */
  function Put<V>(es: seq<(string, V)>, k: string, v: V): (r: seq<(string, V)>)
    ensures k in Keys(es) ==> |r| == |es| && Keys(r) == Keys(es)
    ensures k !in Keys(es) ==> r == es + [(k, v)]
  {
    match IndexOf(es, k)
    case None =>
      var r := es + [(k, v)];
      assert Keys(r) == Keys(es) + [k];
      r
    case Some(j) =>
      var r := es[j := (k, v)];
      assert Keys(r) == Keys(es);
      r
  }

  /** After `put`, `k` maps to `v`, the keys are the old ones plus `k`, and they stay distinct. */
  lemma {:induction false} PutFacts<V>(es: seq<(string, V)>, k: string, v: V)
    ensures Get(Put(es, k, v), k) == Some(v)
    ensures forall k' :: k' in Keys(Put(es, k, v)) <==> k' == k || k' in Keys(es)
    ensures DistinctKeys(es) ==> DistinctKeys(Put(es, k, v))
  {
    var r := Put(es, k, v);
    match IndexOf(es, k)
    case None =>
      assert Keys(r) == Keys(es) + [k];
      assert Keys(r)[|es|] == k;
    case Some(j) =>
      assert Keys(r) == Keys(es);
  }

  /** `put` leaves every other key's value alone. */
  lemma {:induction false} PutOther<V>(es: seq<(string, V)>, k: string, v: V, k': string)
    requires k' != k
    ensures Get(Put(es, k, v), k') == Get(es, k')
  {
    match IndexOf(es, k)
    case None => GetAppend(es, k, v, k');
    case Some(j) => GetReplace(es, j, v, k');
  }

  lemma {:induction false} GetAppend<V>(es: seq<(string, V)>, k: string, v: V, k': string)
    requires k != k'
    ensures Get(es + [(k, v)], k') == Get(es, k')
  {
    if es != [] {
      assert (es + [(k, v)])[1..] == es[1..] + [(k, v)];
      GetAppend(es[1..], k, v, k');
    }
  }

  lemma {:induction false} GetReplace<V>(es: seq<(string, V)>, j: nat, v: V, k': string)
    requires j < |es| && k' != es[j].0
    ensures Get(es[j := (es[j].0, v)], k') == Get(es, k')
  {
    if j > 0 {
      assert es[j := (es[j].0, v)][1..] == es[1..][j - 1 := (es[j].0, v)];
      GetReplace(es[1..], j - 1, v, k');
    }
  }

  /** Two association lists with the same keys in the same order find a key at the same position. */
  lemma {:induction false} IndexOfSameKeys<V, W>(es: seq<(string, V)>, ws: seq<(string, W)>, k: string)
    requires Keys(es) == Keys(ws)
    ensures IndexOf(es, k) == IndexOf(ws, k)
  {
    if es != [] {
      assert Keys(es[1..]) == Keys(es)[1..];
      assert Keys(ws[1..]) == Keys(ws)[1..];
      IndexOfSameKeys(es[1..], ws[1..], k);
    }
  }

  /** With distinct keys, the entry at position `i` is found by its key. */
  lemma {:induction false} IndexOfDistinct<V>(es: seq<(string, V)>, i: nat)
    requires DistinctKeys(es) && i < |es|
    ensures IndexOf(es, es[i].0) == Some(i)
  {
  }

  /**
   * `PutAll(es)` puts the entries of `es` one after the other, starting
   * from an empty map: what a loop `for (e : es) m.put(e.key, e.value)`
   * leaves.
   */
  function PutAll<V>(es: seq<(string, V)>): (r: seq<(string, V)>)
    ensures DistinctKeys(r)
  {
    if es == [] then []
    else
      PutFacts(PutAll(es[..|es| - 1]), es[|es| - 1].0, es[|es| - 1].1);
      Put(PutAll(es[..|es| - 1]), es[|es| - 1].0, es[|es| - 1].1)
  }

  /** Putting entries with pairwise-distinct keys into an empty map keeps them all, in order. */
  lemma {:induction false} PutAllDistinct<V>(es: seq<(string, V)>)
    requires DistinctKeys(es)
    ensures PutAll(es) == es
  {
    if es != [] {
      var init := es[..|es| - 1];
      PutAllDistinct(init);
      assert es[|es| - 1].0 !in Keys(init);
      assert es == init + [es[|es| - 1]];
    }
  }

  /** The keys of `PutAll(es)` are exactly the keys occurring in `es`. */
  lemma {:induction false} PutAllKeys<V>(es: seq<(string, V)>)
    ensures forall k :: k in Keys(PutAll(es)) <==> k in Keys(es)
  {
    if es != [] {
      var init := es[..|es| - 1];
      PutAllKeys(init);
      PutFacts(PutAll(init), es[|es| - 1].0, es[|es| - 1].1);
      assert Keys(es) == Keys(init) + [es[|es| - 1].0];
    }
  }

  /** For every key of `es`, `PutAll(es)` holds the value of its last occurrence. */
  lemma {:induction false} PutAllLastWins<V>(es: seq<(string, V)>, i: nat)
    requires i < |es|
    requires forall j :: i < j < |es| ==> es[j].0 != es[i].0
    ensures Get(PutAll(es), es[i].0) == Some(es[i].1)
  {
    if i < |es| - 1 {
      PutAllLastWins(es[..|es| - 1], i);
      PutOther(PutAll(es[..|es| - 1]), es[|es| - 1].0, es[|es| - 1].1, es[i].0);
    } else {
      PutFacts(PutAll(es[..|es| - 1]), es[i].0, es[i].1);
    }
  }

  /** The map after the first `i + 1` puts is the map after the first `i`, plus put `i`. */
  lemma {:induction false} PutAllSnoc<V>(es: seq<(string, V)>, i: nat)
    requires i < |es|
    ensures PutAll(es[..i + 1]) == Put(PutAll(es[..i]), es[i].0, es[i].1)
  {
    assert es[..i + 1][..i] == es[..i];
  }

  /** Keys and lookups of an association list with one entry put in front. */
  lemma {:induction false} ConsKeys<V>(x: (string, V), rest: seq<(string, V)>, k': string)
    ensures k' in Keys([x] + rest) <==> k' == x.0 || k' in Keys(rest)
    ensures Get([x] + rest, k') == if k' == x.0 then Some(x.1) else Get(rest, k')
  {
    ConsKeySeq(x, rest);
    ConsGet(x, rest, k');
  }

  lemma {:induction false} ConsKeySeq<V>(x: (string, V), rest: seq<(string, V)>)
    ensures Keys([x] + rest) == [x.0] + Keys(rest)
  {
  }

  lemma {:induction false} ConsGet<V>(x: (string, V), rest: seq<(string, V)>, k': string)
    ensures Get([x] + rest, k') == if k' == x.0 then Some(x.1) else Get(rest, k')
  {
    var s := [x] + rest;
    assert s[0] == x && s[1..] == rest;
    if k' != x.0 {
      match IndexOf(rest, k')
      case None =>
      case Some(j) => assert s[j + 1] == rest[j];
    }
  }

  /** Keys of an association list with one entry added at the end. */
  lemma {:induction false} SnocKeys<V>(init: seq<(string, V)>, x: (string, V), k': string)
    ensures k' in Keys(init + [x]) <==> k' == x.0 || k' in Keys(init)
  {
    assert Keys(init + [x]) == Keys(init) + [x.0];
  }

  /** Splitting off the last entry of a map whose keys are distinct: its key is not among the others. */
  lemma {:induction false} LastKeyFresh<V>(es: seq<(string, V)>)
    requires DistinctKeys(es) && es != []
    ensures Keys(es) == Keys(es[..|es| - 1]) + [es[|es| - 1].0]
    ensures es[|es| - 1].0 !in Keys(es[..|es| - 1])
  {
    var init := es[..|es| - 1];
    forall j | 0 <= j < |init| ensures init[j].0 != es[|es| - 1].0 {
      assert init[j] == es[j];
    }
    assert es == init + [es[|es| - 1]];
  }

  lemma {:induction false} AppendKeys<V>(es: seq<(string, V)>, x: (string, V))
    ensures Keys(es + [x]) == Keys(es) + [x.0]
  {
  }
}
