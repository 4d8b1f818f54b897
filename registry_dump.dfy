/**
 * `RegistryDataDump.buildRegistryData` and `generateDump`: the registries,
 * sorted by identifier, each become an object holding its "type" and a
 * "value" array of entry objects, put into the root under the registry's
 * identifier. The functions say which tree each part becomes; the methods
 * build it through a builder and are proved to build exactly that.
 */
module RegistryDump {
  import opened Wrappers
  import opened JavaLang
  import opened OrderedMaps
  import opened Sorting
  import opened Values
  import opened Nodes
  import opened Builders
  import opened Entities
  import opened Dumps
  import opened Filling
  import opened ValueEncoder

  // ---------------------------------------------------------------------
  // The trees

  /** `profile.getRegistries() != null && profile.getRegistries().isCodec()`. */
  predicate IncludeCodec(profile: ProfileConfig)
  {
    profile.registries.Some? && profile.registries.value.codec
  }

  /** The sort key of the registries: `getRegistryIdentifier()`. */
  function RegistryKey(r: RegistryData): string
  {
    r.registryId
  }

  /** The "element" part of an entry object: the encoded map, when the codec is on and the entry has one. */
  function ElementField(e: RegistryEntryData, codec: bool, jvm: JvmText): seq<(string, Tree)>
  {
    if codec && e.HasEncodedData() then [("element", TObj(ObjectEntries(e.encodedData.value, jvm)))] else []
  }

  /** The fields of an entry object: "name", "id", then perhaps "element". */
  function EntryFields(e: RegistryEntryData, codec: bool, jvm: JvmText): seq<(string, Tree)>
  {
    [("name", TStr(e.identifier)), ("id", TInt(e.rawId))] + ElementField(e, codec, jvm)
  }

  function EntryTree(e: RegistryEntryData, codec: bool, jvm: JvmText): Tree
  {
    TObj(EntryFields(e, codec, jvm))
  }

  function EntryTrees(es: seq<RegistryEntryData>, codec: bool, jvm: JvmText): (r: seq<Tree>)
    ensures |r| == |es| && forall i :: 0 <= i < |es| ==> r[i] == EntryTree(es[i], codec, jvm)
  {
    seq(|es|, i requires 0 <= i < |es| => EntryTree(es[i], codec, jvm))
  }

  /** A registry object: its identifier as "type", then its entries, in provider order, as "value". */
  function RegistryTree(r: RegistryData, codec: bool, jvm: JvmText): Tree
  {
    TObj([("type", TStr(r.registryId)), ("value", TArr(EntryTrees(r.entries, codec, jvm)))])
  }

  /** The puts into the root, one per registry, in the order given. */
  function RegistryPuts(rs: seq<RegistryData>, codec: bool, jvm: JvmText): (r: seq<(string, Tree)>)
    ensures |r| == |rs|
    ensures forall i :: 0 <= i < |rs| ==> r[i] == (rs[i].registryId, RegistryTree(rs[i], codec, jvm))
  {
    seq(|rs|, i requires 0 <= i < |rs| => (rs[i].registryId, RegistryTree(rs[i], codec, jvm)))
  }

  /** The fields of the root: the registries sorted by identifier, each put under its identifier. */
  function RegistriesFields(rs: seq<RegistryData>, codec: bool, jvm: JvmText): seq<(string, Tree)>
  {
    PutAll(RegistryPuts(SortBy(rs, RegistryKey), codec, jvm))
  }

  // ---------------------------------------------------------------------
  // Building them

  /** The body of the loop over entries: one entry object. */
  method BuildEntry(b: Builder, e: RegistryEntryData, codec: bool, jvm: JvmText) returns (h: Handle)
    requires b.Valid() && !b.HandsOutRoot()
    modifies b
    ensures b.Valid() && b.isFirstObjectCreation == old(b.isFirstObjectCreation)
    ensures h == old(|b.nodes|) && Extends(old(b.nodes), b.nodes)
    ensures Denotes(b.nodes, SRef(h), EntryTree(e, codec, jvm), old(|b.nodes|), |b.nodes|)
  {
    h := b.CreateObject();
    PutString(b, h, "name", e.identifier, TStr(e.identifier), [], h + 1);
    ghost var fs := [("name", TStr(e.identifier))];
    PutInt(b, h, "id", e.rawId, TInt(e.rawId), fs, h + 1);
    fs := [("name", TStr(e.identifier)), ("id", TInt(e.rawId))];
    AddElement(b, h, e, codec, jvm, fs);
    ObjectDone(b.nodes, h, fs + ElementField(e, codec, jvm), h);
  }

  /** The "element" part of an entry object: the encoded map, built as a nested object. */
  method AddElement(b: Builder, h: Handle, e: RegistryEntryData, codec: bool, jvm: JvmText, ghost fs: seq<(string, Tree)>)
    requires b.Valid() && !b.HandsOutRoot() && ObjectHolds(b.nodes, h, fs, h + 1) && "element" !in Keys(fs)
    modifies b
    ensures b.Valid() && b.isFirstObjectCreation == old(b.isFirstObjectCreation)
    ensures ChangedOnly(old(b.nodes), b.nodes, h) && ObjectHolds(b.nodes, h, fs + ElementField(e, codec, jvm), h + 1)
  {
    if codec && e.HasEncodedData() {
      var encodedData := e.encodedData;
      if encodedData.Some? && |encodedData.value| > 0 {
        ghost var before := b.nodes;
        var elementObject := BuildNested(b, DMap(encodedData.value), jvm);
        PutObject(b, h, "element", elementObject.h, ObjectEntries(encodedData.value, jvm), fs, h + 1, before);
      }
    } else {
      assert fs + ElementField(e, codec, jvm) == fs;
    }
  }

  /** The entries array of a registry: one entry object per entry, in provider order. */
  method BuildEntries(b: Builder, es: seq<RegistryEntryData>, codec: bool, jvm: JvmText) returns (arr: Handle)
    requires b.Valid() && !b.HandsOutRoot()
    modifies b
    ensures b.Valid() && b.isFirstObjectCreation == old(b.isFirstObjectCreation)
    ensures arr == old(|b.nodes|) && Extends(old(b.nodes), b.nodes)
    ensures Denotes(b.nodes, SRef(arr), TArr(EntryTrees(es, codec, jvm)), old(|b.nodes|), |b.nodes|)
  {
    arr := b.CreateArray();
    ghost var trees := EntryTrees(es, codec, jvm);
    ghost var ts: seq<Tree> := [];
    for i := 0 to |es|
      invariant b.Valid() && b.isFirstObjectCreation == old(b.isFirstObjectCreation)
      invariant arr == old(|b.nodes|) && Extends(old(b.nodes), b.nodes)
      invariant ts == trees[..i]
      invariant ArrayHolds(b.nodes, arr, ts)
    {
      ghost var before := b.nodes;
      var entryObject := BuildEntry(b, es[i], codec, jvm);
      AppendChild(b, arr, entryObject, trees[i], ts, before);
      ExtendsPast(old(b.nodes), before, b.nodes, arr);
      assert trees[..i + 1] == ts + [trees[i]];
      ts := ts + [trees[i]];
    }
    assert trees[..|es|] == trees;
    ArrayDone(b.nodes, arr, ts, arr);
  }

  /** The body of the loop over registries: one registry object. */
  method BuildRegistry(b: Builder, r: RegistryData, codec: bool, jvm: JvmText) returns (h: Handle)
    requires b.Valid() && !b.HandsOutRoot()
    modifies b
    ensures b.Valid() && b.isFirstObjectCreation == old(b.isFirstObjectCreation)
    ensures h == old(|b.nodes|) && Extends(old(b.nodes), b.nodes)
    ensures Denotes(b.nodes, SRef(h), RegistryTree(r, codec, jvm), old(|b.nodes|), |b.nodes|)
  {
    h := b.CreateObject();
    PutString(b, h, "type", r.registryId, TStr(r.registryId), [], h + 1);
    ghost var before := b.nodes;
    var entriesArray := BuildEntries(b, r.entries, codec, jvm);
    PutChild(b, h, "value", entriesArray, TArr(EntryTrees(r.entries, codec, jvm)), [("type", TStr(r.registryId))], h + 1, before);
    ObjectDone(b.nodes, h, [("type", TStr(r.registryId)), ("value", TArr(EntryTrees(r.entries, codec, jvm)))], h);
  }

  /**
   * `buildRegistryData`: the root is the builder's first `createObject`
   * (the tag builder's own root compound when it still hands that out);
   * the registries, sorted by identifier, are put into it one by one, and
   * it ends up holding `RegistriesFields` in nodes created by this call.
   */
  method BuildRegistryData(b: Builder, registries: seq<RegistryData>, profile: ProfileConfig, jvm: JvmText)
    returns (root: Handle)
    requires b.Valid()
    requires b.HandsOutRoot() ==> b.nodes[b.target.root] == ObjNode([])
    modifies b
    ensures b.Valid() && !b.isFirstObjectCreation
    ensures old(b.HandsOutRoot()) ==> root == b.target.root
    ensures !old(b.HandsOutRoot()) ==> root == old(|b.nodes|)
    ensures ChangedOnly(old(b.nodes), b.nodes, root) && root < |b.nodes| && b.nodes[root].ObjNode?
    ensures FieldsDenote(b.nodes, b.nodes[root].entries, RegistriesFields(registries, IncludeCodec(profile), jvm),
                         old(|b.nodes|), |b.nodes|)
  {
    root := b.CreateObject();
    ghost var created := b.nodes;
    ghost var lo := |b.nodes|;
    var includeCodec := profile.registries != None && profile.registries.value.codec;
    var sortedRegistries := SortBy(registries, RegistryKey);
    ghost var puts := RegistryPuts(sortedRegistries, includeCodec, jvm);
    ghost var fs: seq<(string, Tree)> := [];
    for i := 0 to |sortedRegistries|
      invariant b.Valid() && !b.isFirstObjectCreation
      invariant ChangedOnly(created, b.nodes, root)
      invariant fs == PutAll(puts[..i]) && ObjectHolds(b.nodes, root, fs, lo)
    {
      ghost var before := b.nodes;
      var registryData := BuildRegistry(b, sortedRegistries[i], includeCodec, jvm);
      PutChild(b, root, sortedRegistries[i].registryId, registryData, puts[i].1, fs, lo, before);
      ChangedOnlyTrans(created, before, b.nodes, root);
      PutAllSnoc(puts, i);
      fs := Put(fs, puts[i].0, puts[i].1);
    }
    assert puts[..|sortedRegistries|] == puts;
    ChangedOnlyTrans(old(b.nodes), created, b.nodes, root);
    FieldsWiden(b.nodes, b.nodes[root].entries, fs, lo, |b.nodes|, old(|b.nodes|), |b.nodes|);
  }

  /**
   * `generateDump`: "binary" in any case is refused before the provider is
   * asked for registries; any other unknown format only after; "json" and
   * "nbt" build the registry tree, the tag writer's root compound being the
   * root.
   */
  method GenerateDump(profile: ProfileConfig, registries: seq<RegistryData>, jvm: JvmText) returns (r: DumpResult)
    ensures RouteOf(profile.exportConfig.format) == BinaryFormat ==> r == Thrown(false)
    ensures RouteOf(profile.exportConfig.format) == UnknownFormat ==> r == Thrown(true)
    ensures (RouteOf(profile.exportConfig.format) == JsonFormat || RouteOf(profile.exportConfig.format) == NbtFormat) ==>
              r.Dumped? && Denotes(r.nodes, SRef(r.root), TObj(RegistriesFields(registries, IncludeCodec(profile), jvm)), 0, |r.nodes|)
    ensures RouteOf(profile.exportConfig.format) == NbtFormat ==> r.Dumped? && r.root == 0
  {
    var route := RouteOf(profile.exportConfig.format);
    if route == BinaryFormat {
      return Thrown(false);
    }
    if route == JsonFormat {
      var b := new Builder.Json();
      var root := BuildRegistryData(b, registries, profile, jvm);
      r := Dumped(b.nodes, root);
    } else if route == NbtFormat {
      var b := new Builder.Nbt();
      var root := BuildRegistryData(b, registries, profile, jvm);
      FieldsWiden(b.nodes, b.nodes[root].entries, RegistriesFields(registries, IncludeCodec(profile), jvm), 1, |b.nodes|, 0, |b.nodes|);
      r := Dumped(b.nodes, root);
    } else {
      r := Thrown(true);
    }
  }

  // ---------------------------------------------------------------------
  // Properties of the registry tree

  /** The registries appear in strictly ascending identifier order, whatever order the provider gave them in. */
  lemma {:induction false} RegistriesSorted(rs: seq<RegistryData>, codec: bool, jvm: JvmText)
    ensures StrictlySorted(RegistriesFields(rs, codec, jvm))
  {
    var sorted := SortBy(rs, RegistryKey);
    SortBySorted(rs, RegistryKey);
    var puts := RegistryPuts(sorted, codec, jvm);
    forall i, j | 0 <= i < j < |puts| ensures LexLessEq(puts[i].0, puts[j].0) {
      assert puts[i].0 == RegistryKey(sorted[i]) && puts[j].0 == RegistryKey(sorted[j]);
    }
    PutAllInKeyOrder(puts);
  }

  /** The root has a key for a registry identifier exactly when some registry has that identifier. */
  lemma {:induction false} RegistriesKeys(rs: seq<RegistryData>, codec: bool, jvm: JvmText, k: string)
    ensures k in Keys(RegistriesFields(rs, codec, jvm)) <==> exists i :: 0 <= i < |rs| && rs[i].registryId == k
  {
    var sorted := SortBy(rs, RegistryKey);
    var puts := RegistryPuts(sorted, codec, jvm);
    PutAllKeys(puts);
    if k in Keys(puts) {
      var j :| 0 <= j < |puts| && Keys(puts)[j] == k;
      assert sorted[j] in multiset(rs);
      var i :| 0 <= i < |rs| && rs[i] == sorted[j];
      assert rs[i].registryId == k;
    }
    if i :| 0 <= i < |rs| && rs[i].registryId == k {
      assert rs[i] in multiset(sorted);
      var j :| 0 <= j < |sorted| && sorted[j] == rs[i];
      assert Keys(puts)[j] == k;
    }
  }

  /**
   * Under a registry's identifier the root holds that registry's tree,
   * unless a later registry in provider order has the same identifier: the
   * sort keeps registries with equal identifiers in provider order, and the
   * later `addToObject` replaces the earlier.
   */
  lemma {:induction false} RegistryLastWins(rs: seq<RegistryData>, codec: bool, jvm: JvmText, i: nat)
    requires i < |rs|
    requires forall j :: i < j < |rs| ==> rs[j].registryId != rs[i].registryId
    ensures Get(RegistriesFields(rs, codec, jvm), rs[i].registryId) == Some(RegistryTree(rs[i], codec, jvm))
  {
    var k := rs[i].registryId;
    var sorted := SortBy(rs, RegistryKey);
    var m := LastSorted(rs, i);
    var puts := RegistryPuts(sorted, codec, jvm);
    forall j | m < j < |puts| ensures puts[j].0 != puts[m].0 {
      assert RegistryKey(sorted[j]) != k;
    }
    PutAllLastWins(puts, m);
  }

  /** Where the last registry with a given identifier ends up after the stable sort. */
  lemma {:induction false} LastSorted(rs: seq<RegistryData>, i: nat) returns (m: nat)
    requires i < |rs|
    requires forall j :: i < j < |rs| ==> rs[j].registryId != rs[i].registryId
    ensures m < |SortBy(rs, RegistryKey)| && SortBy(rs, RegistryKey)[m] == rs[i]
    ensures forall j :: m < j < |SortBy(rs, RegistryKey)| ==> RegistryKey(SortBy(rs, RegistryKey)[j]) != rs[i].registryId
  {
    var k := rs[i].registryId;
    var sorted := SortBy(rs, RegistryKey);
    forall j | i < j < |rs| ensures RegistryKey(rs[j]) != k {
      assert rs[j].registryId != k;
    }
    WithKeyEndsAt(rs, RegistryKey, k, i);
    var w := WithKey(rs, RegistryKey, k);
    assert w[|w| - 1] == rs[i];
    SortByStable(rs, RegistryKey, k);
    assert WithKey(sorted, RegistryKey, k) == w;
    m := WithKeyLast(sorted, RegistryKey, k);
    assert sorted[m] == w[|w| - 1];
    forall j | m < j < |sorted| ensures RegistryKey(sorted[j]) != k {
    }
  }

  /** An entry object always starts with its "name" and then its "id". */
  lemma EntryHead(e: RegistryEntryData, codec: bool, jvm: JvmText)
    ensures Keys(EntryFields(e, codec, jvm))[..2] == ["name", "id"]
    ensures Get(EntryFields(e, codec, jvm), "name") == Some(TStr(e.identifier))
    ensures Get(EntryFields(e, codec, jvm), "id") == Some(TInt(e.rawId))
  {
    var fs := EntryFields(e, codec, jvm);
    assert fs[0] == ("name", TStr(e.identifier)) && fs[1] == ("id", TInt(e.rawId));
    assert Keys(fs)[0] == "name" && Keys(fs)[1] == "id";
  }

  /**
   * An entry object has an "element" exactly when the profile has a
   * registries section with the codec on and the entry's encoded map exists
   * and is not empty; the element is then that map encoded as an object.
   */
  lemma EntryElement(e: RegistryEntryData, profile: ProfileConfig, jvm: JvmText)
    ensures "element" in Keys(EntryFields(e, IncludeCodec(profile), jvm))
        <==> profile.registries.Some? && profile.registries.value.codec && e.encodedData.Some? && e.encodedData.value != []
    ensures "element" in Keys(EntryFields(e, IncludeCodec(profile), jvm)) ==>
              Get(EntryFields(e, IncludeCodec(profile), jvm), "element") == Some(ObjectValue(DMap(e.encodedData.value), jvm))
  {
    if IncludeCodec(profile) && e.HasEncodedData() {
      EntryFieldsWithElement(e, IncludeCodec(profile), jvm);
    } else {
      EntryFieldsWithoutElement(e, IncludeCodec(profile), jvm);
    }
  }

  /** With the codec on and encoded data present, the entry object's fields are "name", "id" and "element". */
  lemma EntryFieldsWithElement(e: RegistryEntryData, codec: bool, jvm: JvmText)
    requires codec && e.HasEncodedData()
    ensures Keys(EntryFields(e, codec, jvm)) == ["name", "id", "element"]
    ensures Get(EntryFields(e, codec, jvm), "element") == Some(TObj(ObjectEntries(e.encodedData.value, jvm)))
  {
    var two := [("name", TStr(e.identifier)), ("id", TInt(e.rawId))];
    var t := TObj(ObjectEntries(e.encodedData.value, jvm));
    assert EntryFields(e, codec, jvm) == two + [("element", t)];
    AppendKeys(two, ("element", t));
    assert Keys(two) == ["name", "id"];
    assert IndexOf(EntryFields(e, codec, jvm), "element") == Some(2);
  }

  /** Otherwise the entry object's fields are "name" and "id" only. */
  lemma EntryFieldsWithoutElement(e: RegistryEntryData, codec: bool, jvm: JvmText)
    requires !(codec && e.HasEncodedData())
    ensures Keys(EntryFields(e, codec, jvm)) == ["name", "id"]
  {
    assert EntryFields(e, codec, jvm) == [("name", TStr(e.identifier)), ("id", TInt(e.rawId))];
  }
}
