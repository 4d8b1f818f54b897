/**
 * The type-directed encoder of `RegistryDataDump`: `buildNestedData`,
 * `addValueToObject` and `addValueToArray` walk decoded data into a
 * builder. The functions `ObjectValue`, `ObjectEntries`, `ArrayElem` and
 * `ArrayItems` say which tree each value becomes; the methods build that
 * tree in the builder's nodes and are proved to do so.
 */
module ValueEncoder {
  import opened Wrappers
  import opened JavaLang
  import opened OrderedMaps
  import opened Values
  import opened Nodes
  import opened Builders
  import opened Filling

  /** `value.toString()` of a value that reaches `addStringToArray` as text. */
  function Text(v: Data, jvm: JvmText): (r: string)
    ensures v.DInt? ==> r == IntText(v.intValue)
    ensures v.DLong? ==> r == IntText(v.longValue)
    ensures v.DByte? ==> r == IntText(v.byteValue)
    ensures v.DShort? ==> r == IntText(v.shortValue)
    ensures v.DBool? ==> r == (if v.boolValue then "true" else "false")
  {
    match v
    case DInt(n) => IntText(n)
    case DLong(n) => IntText(n)
    case DByte(n) => IntText(n)
    case DShort(n) => IntText(n)
    case DBool(b) => if b then "true" else "false"
    case _ => jvm(v)
  }

  /** The tree `addValueToObject` puts under a key for the value `v`. */
  function ObjectValue(v: Data, jvm: JvmText): Tree
    decreases v
  {
    match v
    case DNull => TStr("null")
    case DString(s) => TStr(s)
    case DInt(i) => TInt(i)
    case DBool(b) => TBool(b)
    case DMap(es) => TObj(ObjectEntries(es, jvm))
    case DList(xs) => TArr(ArrayItems(xs, jvm))
    case DLong(l) => TInt(Low32(l))
    case DByte(b) => TInt(b)
    case DShort(s) => TInt(s)
    case DFloat(_) => TStr(jvm(v))
    case DDouble(_) => TStr(jvm(v))
    case DOtherNumber(n) => TInt(Low32(n))
    case _ => TStr(jvm(v))
  }

  /** The fields of the object built from a map: each entry put in iteration order. */
  function ObjectEntries(es: seq<(string, Data)>, jvm: JvmText): seq<(string, Tree)>
    decreases es
  {
    if es == [] then []
    else
      var e := es[|es| - 1];
      assert e in es && e.1 < e;
      Put(ObjectEntries(es[..|es| - 1], jvm), e.0, ObjectValue(e.1, jvm))
  }

  /** The element `addValueToArray` appends for `v`, or `None` when nothing is appended. */
  function ArrayElem(v: Data, jvm: JvmText): Option<Tree>
    decreases v
  {
    if v.DNull? then Some(TStr("null"))
    else if v.DString? then Some(TStr(v.str))
    else if v.DMap? then Some(TObj(ObjectEntries(v.entries, jvm)))
    else if v.DList? then None
    else Some(TStr(Text(v, jvm)))
  }

  /** The elements of the array built from a collection: a nested collection is dropped, everything else kept in order. */
  function ArrayItems(xs: seq<Data>, jvm: JvmText): seq<Tree>
    decreases xs
  {
    if xs == [] then []
    else
      var x := xs[|xs| - 1];
      ArrayItems(xs[..|xs| - 1], jvm) + Listed(ArrayElem(x, jvm))
  }

  /**
   * An encoded array is never longer than its source and never holds an
   * array; without nested collections every element is kept, in order.
   */
  lemma {:induction false} ArrayItemsShape(xs: seq<Data>, jvm: JvmText)
    ensures |ArrayItems(xs, jvm)| <= |xs|
    ensures forall i :: 0 <= i < |ArrayItems(xs, jvm)| ==> !ArrayItems(xs, jvm)[i].TArr?
    ensures (forall i :: 0 <= i < |xs| ==> !xs[i].DList?) ==>
              |ArrayItems(xs, jvm)| == |xs| && forall i :: 0 <= i < |xs| ==> ArrayElem(xs[i], jvm) == Some(ArrayItems(xs, jvm)[i])
    decreases xs
  {
    if xs != [] {
      var init := xs[..|xs| - 1];
      var x := xs[|xs| - 1];
      ArrayItemsShape(init, jvm);
      var acc := ArrayItems(init, jvm);
      var r := ArrayItems(xs, jvm);
      assert r == acc + Listed(ArrayElem(x, jvm));
      forall i | 0 <= i < |r| ensures !r[i].TArr? {
        if i < |acc| { assert r[i] == acc[i]; }
      }
      if forall i :: 0 <= i < |xs| ==> !xs[i].DList? {
        forall i | 0 <= i < |init| ensures !init[i].DList? { assert init[i] == xs[i]; }
        forall i | 0 <= i < |xs| ensures ArrayElem(xs[i], jvm) == Some(r[i]) {
          if i < |init| { assert xs[i] == init[i] && r[i] == acc[i]; }
        }
      }
    }
  }

  // ---------------------------------------------------------------------
  // Building the trees in a builder

  /**
   * `buildNestedData`: a map becomes a new object holding its encoded
   * entries and a collection a new array holding its encoded elements, all
   * in nodes created by this call (so the result denotes `ObjectValue(v)`,
   * by `ObjectDone` and `ArrayDone`); any other value is handed back
   * untouched.
   */
  method BuildNested(b: Builder, v: Data, jvm: JvmText) returns (r: Item)
    requires b.Valid() && !b.HandsOutRoot()
    modifies b
    ensures b.Valid() && b.isFirstObjectCreation == old(b.isFirstObjectCreation)
    ensures Extends(old(b.nodes), b.nodes)
    ensures v.DMap? ==> r == Ref(old(|b.nodes|)) && ObjectHolds(b.nodes, r.h, ObjectEntries(v.entries, jvm), r.h + 1)
    ensures v.DList? ==> r == Ref(old(|b.nodes|)) && ArrayHolds(b.nodes, r.h, ArrayItems(v.items, jvm))
    ensures !(v.DMap? || v.DList?) ==> r == Foreign && b.nodes == old(b.nodes)
    decreases v, 2
  {
    match v
    case DMap(_) =>
      var h := BuildObject(b, v, jvm);
      r := Ref(h);
    case DList(_) =>
      var h := BuildArray(b, v, jvm);
      r := Ref(h);
    case _ =>
      assert !(v.DMap? || v.DList?);
      r := Foreign;
  }

  /** The `Map` branch of `buildNestedData`: a new object, then each entry added in iteration order. */
  method BuildObject(b: Builder, v: Data, jvm: JvmText) returns (h: Handle)
    requires b.Valid() && !b.HandsOutRoot() && v.DMap?
    modifies b
    ensures b.Valid() && b.isFirstObjectCreation == old(b.isFirstObjectCreation)
    ensures h == old(|b.nodes|) && Extends(old(b.nodes), b.nodes)
    ensures ObjectHolds(b.nodes, h, ObjectEntries(v.entries, jvm), h + 1)
    decreases v, 1
  {
    var es := v.entries;
    h := b.CreateObject();
    var i := 0;
    while i < |es|
      invariant 0 <= i <= |es|
      invariant b.Valid() && b.isFirstObjectCreation == old(b.isFirstObjectCreation)
      invariant h == old(|b.nodes|) && Extends(old(b.nodes), b.nodes)
      invariant ObjectHolds(b.nodes, h, ObjectEntries(es[..i], jvm), h + 1)
    {
      AddEntry(b, h, v, i, jvm, old(b.nodes));
      i := i + 1;
    }
    assert es[..i] == es;
  }

  /** One pass of the `Map` loop: entry `i` added to the object `h`. */
  method AddEntry(b: Builder, h: Handle, v: Data, i: nat, jvm: JvmText, ghost o: seq<Node>)
    requires b.Valid() && !b.HandsOutRoot() && v.DMap? && i < |v.entries|
    requires |o| <= h && Extends(o, b.nodes) && ObjectHolds(b.nodes, h, ObjectEntries(v.entries[..i], jvm), h + 1)
    modifies b
    ensures b.Valid() && b.isFirstObjectCreation == old(b.isFirstObjectCreation)
    ensures Extends(o, b.nodes) && ObjectHolds(b.nodes, h, ObjectEntries(v.entries[..i + 1], jvm), h + 1)
    decreases v, 0
  {
    var e := v.entries[i];
    assert e in v.entries && e.1 < e;
    ghost var prev := b.nodes;
    AddValueToObject(b, h, e.0, e.1, jvm, ObjectEntries(v.entries[..i], jvm), h + 1);
    ExtendsPast(o, prev, b.nodes, h);
    ObjectEntriesSnoc(v.entries, i, jvm);
  }

  /** The object built from the first `i + 1` entries is the one built from the first `i`, plus entry `i`. */
  lemma {:induction false} ObjectEntriesSnoc(es: seq<(string, Data)>, i: nat, jvm: JvmText)
    requires i < |es|
    ensures ObjectEntries(es[..i + 1], jvm) == Put(ObjectEntries(es[..i], jvm), es[i].0, ObjectValue(es[i].1, jvm))
  {
    assert es[..i + 1][..i] == es[..i];
  }

  /** The `Collection` branch of `buildNestedData`: a new array, then each element added in order. */
  method BuildArray(b: Builder, v: Data, jvm: JvmText) returns (h: Handle)
    requires b.Valid() && !b.HandsOutRoot() && v.DList?
    modifies b
    ensures b.Valid() && b.isFirstObjectCreation == old(b.isFirstObjectCreation)
    ensures h == old(|b.nodes|) && Extends(old(b.nodes), b.nodes)
    ensures ArrayHolds(b.nodes, h, ArrayItems(v.items, jvm))
    decreases v, 1
  {
    var xs := v.items;
    h := b.CreateArray();
    var i := 0;
    while i < |xs|
      invariant 0 <= i <= |xs|
      invariant b.Valid() && b.isFirstObjectCreation == old(b.isFirstObjectCreation)
      invariant h == old(|b.nodes|) && Extends(old(b.nodes), b.nodes)
      invariant ArrayHolds(b.nodes, h, ArrayItems(xs[..i], jvm))
    {
      AddItem(b, h, v, i, jvm, old(b.nodes));
      i := i + 1;
    }
    assert xs[..i] == xs;
  }

  /** One pass of the `Collection` loop: element `i` added to the array `h`. */
  method AddItem(b: Builder, h: Handle, v: Data, i: nat, jvm: JvmText, ghost o: seq<Node>)
    requires b.Valid() && !b.HandsOutRoot() && v.DList? && i < |v.items|
    requires |o| <= h && Extends(o, b.nodes) && ArrayHolds(b.nodes, h, ArrayItems(v.items[..i], jvm))
    modifies b
    ensures b.Valid() && b.isFirstObjectCreation == old(b.isFirstObjectCreation)
    ensures Extends(o, b.nodes) && ArrayHolds(b.nodes, h, ArrayItems(v.items[..i + 1], jvm))
    decreases v, 0
  {
    var x := v.items[i];
    assert x in v.items;
    ghost var prev := b.nodes;
    AddValueToArray(b, h, x, jvm, ArrayItems(v.items[..i], jvm));
    ExtendsPast(o, prev, b.nodes, h);
    ArrayItemsSnoc(v.items, i, jvm);
  }

  /** The array built from the first `i + 1` elements is the one built from the first `i`, plus element `i` if it is kept. */
  lemma {:induction false} ArrayItemsSnoc(xs: seq<Data>, i: nat, jvm: JvmText)
    requires i < |xs|
    ensures ArrayItems(xs[..i + 1], jvm) == ArrayItems(xs[..i], jvm) + Listed(ArrayElem(xs[i], jvm))
  {
    assert xs[..i + 1][..i] == xs[..i];
  }

  /**
   * `addValueToObject`: object `parent`, holding `fs` so far, then holds
   * `Put(fs, key, ObjectValue(v))`, the value's tree being built in new
   * nodes only; no other existing node changes.
   */
  method AddValueToObject(b: Builder, parent: Handle, key: string, v: Data, jvm: JvmText,
                          ghost fs: seq<(string, Tree)>, ghost lo: nat)
    requires b.Valid() && !b.HandsOutRoot() && ObjectHolds(b.nodes, parent, fs, lo)
    modifies b
    ensures b.Valid() && b.isFirstObjectCreation == old(b.isFirstObjectCreation)
    ensures ChangedOnly(old(b.nodes), b.nodes, parent)
    ensures ObjectHolds(b.nodes, parent, Put(fs, key, ObjectValue(v, jvm)), lo)
    decreases v, 3
  {
    match v
    case DNull => PutString(b, parent, key, "null", ObjectValue(v, jvm), fs, lo);
    case DString(s) => PutString(b, parent, key, s, ObjectValue(v, jvm), fs, lo);
    case DInt(i) => PutInt(b, parent, key, i, ObjectValue(v, jvm), fs, lo);
    case DBool(x) => PutBool(b, parent, key, x, ObjectValue(v, jvm), fs, lo);
    case DMap(_) => AddMapToObject(b, parent, key, v, jvm, ObjectValue(v, jvm), fs, lo);
    case DList(_) => AddListToObject(b, parent, key, v, jvm, ObjectValue(v, jvm), fs, lo);
    case DLong(l) => PutInt(b, parent, key, Low32(l), ObjectValue(v, jvm), fs, lo);
    case DByte(x) => PutInt(b, parent, key, x, ObjectValue(v, jvm), fs, lo);
    case DShort(x) => PutInt(b, parent, key, x, ObjectValue(v, jvm), fs, lo);
    case DFloat(_) => PutString(b, parent, key, jvm(v), ObjectValue(v, jvm), fs, lo);
    case DDouble(_) => PutString(b, parent, key, jvm(v), ObjectValue(v, jvm), fs, lo);
    case DOtherNumber(n) => PutInt(b, parent, key, Low32(n), ObjectValue(v, jvm), fs, lo);
    case _ => PutString(b, parent, key, jvm(v), ObjectValue(v, jvm), fs, lo);
  }

  /** The `Map` case of `addValueToObject`: build the nested object, then attach it under `key`. */
  method AddMapToObject(b: Builder, parent: Handle, key: string, v: Data, jvm: JvmText, ghost t: Tree,
                        ghost fs: seq<(string, Tree)>, ghost lo: nat)
    requires b.Valid() && !b.HandsOutRoot() && ObjectHolds(b.nodes, parent, fs, lo)
    requires v.DMap? && t == TObj(ObjectEntries(v.entries, jvm))
    modifies b
    ensures b.Valid() && b.isFirstObjectCreation == old(b.isFirstObjectCreation)
    ensures ChangedOnly(old(b.nodes), b.nodes, parent)
    ensures ObjectHolds(b.nodes, parent, Put(fs, key, t), lo)
    decreases v, 2
  {
    ghost var before := b.nodes;
    var nested := BuildObject(b, v, jvm);
    PutObject(b, parent, key, nested, ObjectEntries(v.entries, jvm), fs, lo, before);
  }

  /** The `Collection` case of `addValueToObject`: build the nested array, then attach it under `key`. */
  method AddListToObject(b: Builder, parent: Handle, key: string, v: Data, jvm: JvmText, ghost t: Tree,
                         ghost fs: seq<(string, Tree)>, ghost lo: nat)
    requires b.Valid() && !b.HandsOutRoot() && ObjectHolds(b.nodes, parent, fs, lo)
    requires v.DList? && t == TArr(ArrayItems(v.items, jvm))
    modifies b
    ensures b.Valid() && b.isFirstObjectCreation == old(b.isFirstObjectCreation)
    ensures ChangedOnly(old(b.nodes), b.nodes, parent)
    ensures ObjectHolds(b.nodes, parent, Put(fs, key, t), lo)
    decreases v, 2
  {
    ghost var before := b.nodes;
    var nested := BuildArray(b, v, jvm);
    PutArray(b, parent, key, nested, ArrayItems(v.items, jvm), fs, lo, before);
  }

  /**
   * `addValueToArray`: array `arr`, holding `ts` so far, then holds `ts`
   * followed by `ArrayElem(v)` when there is one, built in new nodes only;
   * a nested collection is built and then refused by `addToArray`.
   */
  method AddValueToArray(b: Builder, arr: Handle, v: Data, jvm: JvmText, ghost ts: seq<Tree>)
    requires b.Valid() && !b.HandsOutRoot() && ArrayHolds(b.nodes, arr, ts)
    modifies b
    ensures b.Valid() && b.isFirstObjectCreation == old(b.isFirstObjectCreation)
    ensures ChangedOnly(old(b.nodes), b.nodes, arr)
    ensures ArrayHolds(b.nodes, arr, ts + Listed(ArrayElem(v, jvm)))
    decreases v, 3
  {
    if v.DNull? {
      AppendString(b, arr, "null", ArrayElem(v, jvm).value, ts);
    } else if v.DString? {
      AppendString(b, arr, v.str, ArrayElem(v, jvm).value, ts);
    } else if v.DMap? {
      AddMapToArray(b, arr, v, jvm, ts);
    } else if v.DList? {
      AddListToArray(b, arr, v, jvm, ts);
      assert ts + Listed(ArrayElem(v, jvm)) == ts;
    } else {
      AppendString(b, arr, Text(v, jvm), ArrayElem(v, jvm).value, ts);
    }
  }

  /** The `Map` case of `addValueToArray`: build the nested object, then append it. */
  method AddMapToArray(b: Builder, arr: Handle, v: Data, jvm: JvmText, ghost ts: seq<Tree>)
    requires b.Valid() && !b.HandsOutRoot() && ArrayHolds(b.nodes, arr, ts) && v.DMap?
    modifies b
    ensures b.Valid() && b.isFirstObjectCreation == old(b.isFirstObjectCreation)
    ensures ChangedOnly(old(b.nodes), b.nodes, arr)
    ensures ArrayHolds(b.nodes, arr, ts + [TObj(ObjectEntries(v.entries, jvm))])
    decreases v, 2
  {
    ghost var before := b.nodes;
    var nested := BuildObject(b, v, jvm);
    AppendObject(b, arr, nested, ObjectEntries(v.entries, jvm), ts, before);
  }

  /**
   * The `Collection` case of `addValueToArray`: the nested array is built,
   * then refused by `addToArray`, so the array keeps what it held.
   */
  method AddListToArray(b: Builder, arr: Handle, v: Data, jvm: JvmText, ghost ts: seq<Tree>)
    requires b.Valid() && !b.HandsOutRoot() && ArrayHolds(b.nodes, arr, ts) && v.DList?
    modifies b
    ensures b.Valid() && b.isFirstObjectCreation == old(b.isFirstObjectCreation)
    ensures ChangedOnly(old(b.nodes), b.nodes, arr)
    ensures ArrayHolds(b.nodes, arr, ts)
    decreases v, 2
  {
    ghost var before := b.nodes;
    var nested := BuildArray(b, v, jvm);
    b.AddToArray(arr, Ref(nested));
    ArrayGrows(before, b.nodes, arr, ts);
  }

  // ---------------------------------------------------------------------
  // Properties of the encoding

  /** A map whose keys are distinct becomes an object with the same keys, in order, each holding its encoded value. */
  lemma {:induction false} ObjectEntriesDistinct(es: seq<(string, Data)>, jvm: JvmText)
    requires DistinctKeys(es)
    ensures Keys(ObjectEntries(es, jvm)) == Keys(es)
    ensures forall i :: 0 <= i < |es| ==> ObjectEntries(es, jvm)[i].1 == ObjectValue(es[i].1, jvm)
  {
    ObjectEntriesKeys(es, jvm);
    ObjectEntriesValues(es, jvm);
  }

  lemma {:induction false} ObjectEntriesKeys(es: seq<(string, Data)>, jvm: JvmText)
    requires DistinctKeys(es)
    ensures Keys(ObjectEntries(es, jvm)) == Keys(es)
  {
    if es != [] {
      ObjectEntriesKeys(es[..|es| - 1], jvm);
      LastKeyFresh(es);
      ObjectEntriesFresh(es, jvm);
      AppendKeys(ObjectEntries(es[..|es| - 1], jvm), (es[|es| - 1].0, ObjectValue(es[|es| - 1].1, jvm)));
    }
  }

  lemma {:induction false} ObjectEntriesValues(es: seq<(string, Data)>, jvm: JvmText)
    requires DistinctKeys(es)
    ensures |ObjectEntries(es, jvm)| == |es|
    ensures forall i :: 0 <= i < |es| ==> ObjectEntries(es, jvm)[i].1 == ObjectValue(es[i].1, jvm)
  {
    if es != [] {
      var init := es[..|es| - 1];
      ObjectEntriesKeys(init, jvm);
      ObjectEntriesValues(init, jvm);
      LastKeyFresh(es);
      ObjectEntriesFresh(es, jvm);
      assert es == init + [es[|es| - 1]];
      AppendValues(ObjectEntries(init, jvm), init, es[|es| - 1], jvm);
    }
  }

  /** Appending an entry and its encoded value keeps values and encodings aligned. */
  lemma AppendValues(acc: seq<(string, Tree)>, init: seq<(string, Data)>, e: (string, Data), jvm: JvmText)
    requires |acc| == |init| && forall i :: 0 <= i < |init| ==> acc[i].1 == ObjectValue(init[i].1, jvm)
    ensures forall i :: 0 <= i < |init| + 1 ==>
              (acc + [(e.0, ObjectValue(e.1, jvm))])[i].1 == ObjectValue((init + [e])[i].1, jvm)
  {
    forall i | 0 <= i < |init| + 1 ensures (acc + [(e.0, ObjectValue(e.1, jvm))])[i].1 == ObjectValue((init + [e])[i].1, jvm) {
      if i < |init| {
        assert (init + [e])[i] == init[i];
      }
    }
  }

  /** A last entry with a fresh key is appended to the object built from the others. */
  lemma {:induction false} ObjectEntriesFresh(es: seq<(string, Data)>, jvm: JvmText)
    requires es != [] && es[|es| - 1].0 !in Keys(ObjectEntries(es[..|es| - 1], jvm))
    ensures ObjectEntries(es, jvm)
         == ObjectEntries(es[..|es| - 1], jvm) + [(es[|es| - 1].0, ObjectValue(es[|es| - 1].1, jvm))]
  {
  }

  /** No array anywhere in an encoded tree holds an array. */
  predicate NoArrayInArray(t: Tree)
    decreases t
  {
    match t
    case TObj(fs) => forall i :: 0 <= i < |fs| ==> (assert fs[i] in fs && fs[i].1 < fs[i]; NoArrayInArray(fs[i].1))
    case TArr(xs) => forall i :: 0 <= i < |xs| ==> !xs[i].TArr? && NoArrayInArray(xs[i])
    case _ => true
  }

  lemma {:induction false} EncodedNoArrayInArray(v: Data, jvm: JvmText)
    ensures NoArrayInArray(ObjectValue(v, jvm))
    decreases v
  {
    match v
    case DMap(es) => EntriesNoArrayInArray(es, jvm);
    case DList(xs) => ItemsNoArrayInArray(xs, jvm); ArrayItemsShape(xs, jvm);
    case _ =>
  }

  lemma {:induction false} EntriesNoArrayInArray(es: seq<(string, Data)>, jvm: JvmText)
    ensures forall i :: 0 <= i < |ObjectEntries(es, jvm)| ==> NoArrayInArray(ObjectEntries(es, jvm)[i].1)
    decreases es
  {
    if es != [] {
      var init := es[..|es| - 1];
      var e := es[|es| - 1];
      assert e in es && e.1 < e;
      EntriesNoArrayInArray(init, jvm);
      EncodedNoArrayInArray(e.1, jvm);
      var acc := ObjectEntries(init, jvm);
      var r := Put(acc, e.0, ObjectValue(e.1, jvm));
      forall i | 0 <= i < |r| ensures NoArrayInArray(r[i].1) {
        match IndexOf(acc, e.0)
        case None => assert r == acc + [(e.0, ObjectValue(e.1, jvm))];
        case Some(j) => assert r == acc[j := (e.0, ObjectValue(e.1, jvm))];
      }
    }
  }

  lemma {:induction false} ItemsNoArrayInArray(xs: seq<Data>, jvm: JvmText)
    ensures forall i :: 0 <= i < |ArrayItems(xs, jvm)| ==> NoArrayInArray(ArrayItems(xs, jvm)[i])
    decreases xs
  {
    if xs != [] {
      var init := xs[..|xs| - 1];
      var x := xs[|xs| - 1];
      ItemsNoArrayInArray(init, jvm);
      var acc := ArrayItems(init, jvm);
      match ArrayElem(x, jvm)
      case None =>
        assert ArrayItems(xs, jvm) == acc;
      case Some(t) =>
        if x.DMap? {
          EncodedNoArrayInArray(x, jvm);
          assert t == ObjectValue(x, jvm);
        }
        assert NoArrayInArray(t);
        var r := ArrayItems(xs, jvm);
        assert r == acc + [t];
        forall i | 0 <= i < |r| ensures NoArrayInArray(r[i]) {
          if i < |acc| {
            assert r[i] == acc[i];
          }
        }
    }
  }

  /** A `Long` keeps its value exactly when it fits in 32 bits; otherwise only its low 32 bits survive. */
  lemma LongNarrowing(l: Int64, jvm: JvmText)
    ensures ObjectValue(DLong(l), jvm) == TInt(Low32(l))
    ensures ObjectValue(DLong(l), jvm).num == l <==> MIN_INT <= l <= MAX_INT
  {
    Low32Exact(l);
  }

  /** Floating-point numbers always go through the string setter, never as numbers. */
  lemma FloatsAsText(v: Data, jvm: JvmText)
    requires v.DFloat? || v.DDouble?
    ensures ObjectValue(v, jvm) == TStr(jvm(v))
    ensures ArrayElem(v, jvm) == Some(TStr(jvm(v)))
  {
  }

  /** An empty map or collection gives an empty object or array, not a missing key. */
  lemma EmptyContainers(jvm: JvmText)
    ensures ObjectValue(DMap([]), jvm) == TObj([])
    ensures ObjectValue(DList([]), jvm) == TArr([])
  {
  }
}
