/**
 * `BlockDataDump`: one object per block, keyed by identifier in a
 * `TreeMap`, each holding the block's "properties" and "states" as the
 * profile asks. The functions say which tree each part becomes; the
 * methods build it through a builder and are proved to build exactly that.
 */
module BlockDump {
  import opened Wrappers
  import opened JavaLang
  import opened OrderedMaps
  import opened Sorting
  import opened Nodes
  import opened Builders
  import opened Entities
  import opened Dumps
  import opened Filling

  // ---------------------------------------------------------------------
  // The trees

  /** The array of a property's possible values, in order. */
  function ValueItems(vs: seq<string>): (r: seq<Tree>)
    ensures |r| == |vs| && forall i :: 0 <= i < |vs| ==> r[i] == TStr(vs[i])
  {
    seq(|vs|, i requires 0 <= i < |vs| => TStr(vs[i]))
  }

  /** The puts the properties loop makes: each property name with the array of its values. */
  function PropertyPuts(ps: seq<PropertyInfo>): (r: seq<(string, Tree)>)
    ensures |r| == |ps|
    ensures forall i :: 0 <= i < |ps| ==> r[i] == (ps[i].name, TArr(ValueItems(ps[i].possibleValues)))
  {
    seq(|ps|, i requires 0 <= i < |ps| => (ps[i].name, TArr(ValueItems(ps[i].possibleValues))))
  }

  /** The puts a state's properties loop makes: each property with its value as a string. */
  function StatePropertyPuts(m: seq<(string, string)>): (r: seq<(string, Tree)>)
    ensures |r| == |m| && forall i :: 0 <= i < |m| ==> r[i] == (m[i].0, TStr(m[i].1))
  {
    seq(|m|, i requires 0 <= i < |m| => (m[i].0, TStr(m[i].1)))
  }

  /** A state object: its id, then its property values when it has any, then `"default": true` for the default state. */
  function StateFields(st: BlockStateInfo): seq<(string, Tree)>
  {
    [("id", TInt(st.stateId))] + StatePropertiesField(st) + StateDefaultField(st)
  }

  function StateTree(st: BlockStateInfo): Tree
  {
    TObj(StateFields(st))
  }

  function StatePropertiesField(st: BlockStateInfo): seq<(string, Tree)>
  {
    if |st.properties| > 0 then [("properties", TObj(PutAll(StatePropertyPuts(st.properties))))] else []
  }

  function StateDefaultField(st: BlockStateInfo): seq<(string, Tree)>
  {
    if st.isDefault then [("default", TBool(true))] else []
  }

  function StateTrees(sts: seq<BlockStateInfo>): (r: seq<Tree>)
    ensures |r| == |sts| && forall i :: 0 <= i < |sts| ==> r[i] == StateTree(sts[i])
  {
    seq(|sts|, i requires 0 <= i < |sts| => StateTree(sts[i]))
  }

  /** A block object: "properties" when the profile asks and the block has some, then "states" when the profile asks. */
  function BlockFields(blk: BlockInfo, cfg: BlocksConfig): seq<(string, Tree)>
  {
    BlockPropertiesField(blk, cfg) + BlockStatesField(blk, cfg)
  }

  function BlockTree(blk: BlockInfo, cfg: BlocksConfig): Tree
  {
    TObj(BlockFields(blk, cfg))
  }

  function BlockPropertiesField(blk: BlockInfo, cfg: BlocksConfig): seq<(string, Tree)>
  {
    if cfg.properties && |blk.properties| > 0 then [("properties", TObj(PutAll(PropertyPuts(blk.properties))))] else []
  }

  function BlockStatesField(blk: BlockInfo, cfg: BlocksConfig): seq<(string, Tree)>
  {
    if cfg.states then [("states", TArr(StateTrees(blk.states)))] else []
  }

  /** The puts into the `TreeMap`, in provider order. */
  function BlockPuts(blocks: seq<BlockInfo>, cfg: BlocksConfig): (r: seq<(string, Tree)>)
    ensures |r| == |blocks|
    ensures forall i :: 0 <= i < |blocks| ==> r[i] == (blocks[i].identifier, BlockTree(blocks[i], cfg))
  {
    seq(|blocks|, i requires 0 <= i < |blocks| => (blocks[i].identifier, BlockTree(blocks[i], cfg)))
  }

  /** The fields of the root: the `TreeMap` of block trees, in ascending identifier order. */
  function BlocksFields(blocks: seq<BlockInfo>, cfg: BlocksConfig): seq<(string, Tree)>
  {
    TreePutAll(BlockPuts(blocks, cfg))
  }

  // ---------------------------------------------------------------------
  // Building them

  /** The inner loop over a property's values: a new array holding each value as a string. */
  method BuildValues(b: Builder, vs: seq<string>) returns (h: Handle)
    requires b.Valid()
    modifies b
    ensures b.Valid() && b.isFirstObjectCreation == old(b.isFirstObjectCreation)
    ensures h == old(|b.nodes|) && Extends(old(b.nodes), b.nodes)
    ensures Denotes(b.nodes, SRef(h), TArr(ValueItems(vs)), old(|b.nodes|), |b.nodes|)
  {
    h := b.CreateArray();
    ghost var items: seq<Slot> := [];
    for i := 0 to |vs|
      invariant b.Valid() && b.isFirstObjectCreation == old(b.isFirstObjectCreation)
      invariant b.nodes == old(b.nodes) + [ArrNode(items)]
      invariant |items| == i && forall j :: 0 <= j < i ==> items[j] == SStr(vs[j])
    {
      b.AddStringToArray(h, vs[i]);
      items := items + [SStr(vs[i])];
    }
  }

  /** The "properties" object of a block: for each property, its values array under its name. */
  method BuildProperties(b: Builder, ps: seq<PropertyInfo>) returns (h: Handle)
    requires b.Valid() && !b.HandsOutRoot()
    modifies b
    ensures b.Valid() && b.isFirstObjectCreation == old(b.isFirstObjectCreation)
    ensures h == old(|b.nodes|) && Extends(old(b.nodes), b.nodes)
    ensures Denotes(b.nodes, SRef(h), TObj(PutAll(PropertyPuts(ps))), old(|b.nodes|), |b.nodes|)
  {
    h := b.CreateObject();
    var puts := PropertyPuts(ps);
    ghost var fs: seq<(string, Tree)> := [];
    for i := 0 to |ps|
      invariant b.Valid() && b.isFirstObjectCreation == old(b.isFirstObjectCreation)
      invariant h == old(|b.nodes|) && Extends(old(b.nodes), b.nodes)
      invariant fs == PutAll(puts[..i])
      invariant ObjectHolds(b.nodes, h, fs, h + 1)
    {
      ghost var prev := b.nodes;
      AddProperty(b, h, ps[i], fs);
      ExtendsPast(old(b.nodes), prev, b.nodes, h);
      PutAllSnoc(puts, i);
      fs := Put(fs, puts[i].0, puts[i].1);
    }
    assert puts[..|ps|] == puts;
    ObjectDone(b.nodes, h, fs, h);
  }

  /** One pass of the properties loop: the property's values array, put under its name. */
  method AddProperty(b: Builder, h: Handle, p: PropertyInfo, ghost fs: seq<(string, Tree)>)
    requires b.Valid() && !b.HandsOutRoot() && ObjectHolds(b.nodes, h, fs, h + 1)
    modifies b
    ensures b.Valid() && b.isFirstObjectCreation == old(b.isFirstObjectCreation)
    ensures ChangedOnly(old(b.nodes), b.nodes, h)
    ensures ObjectHolds(b.nodes, h, Put(fs, p.name, TArr(ValueItems(p.possibleValues))), h + 1)
  {
    ghost var before := b.nodes;
    var values := BuildValues(b, p.possibleValues);
    PutChild(b, h, p.name, values, TArr(ValueItems(p.possibleValues)), fs, h + 1, before);
  }

  /** The "properties" object of a state: each property's value as a string property. */
  method BuildStateProperties(b: Builder, m: seq<(string, string)>) returns (h: Handle)
    requires b.Valid() && !b.HandsOutRoot()
    modifies b
    ensures b.Valid() && b.isFirstObjectCreation == old(b.isFirstObjectCreation)
    ensures h == old(|b.nodes|) && Extends(old(b.nodes), b.nodes)
    ensures Denotes(b.nodes, SRef(h), TObj(PutAll(StatePropertyPuts(m))), old(|b.nodes|), |b.nodes|)
  {
    h := b.CreateObject();
    ghost var puts := StatePropertyPuts(m);
    for i := 0 to |m|
      invariant b.Valid() && b.isFirstObjectCreation == old(b.isFirstObjectCreation)
      invariant h == old(|b.nodes|) && Extends(old(b.nodes), b.nodes)
      invariant ObjectHolds(b.nodes, h, PutAll(puts[..i]), h + 1)
    {
      AddStateProperty(b, h, m, i, old(b.nodes));
    }
    assert puts[..|m|] == puts;
    ObjectDone(b.nodes, h, PutAll(puts), h);
  }

  /** One pass of the state properties loop: property `i` put as a string under its name. */
  method AddStateProperty(b: Builder, h: Handle, m: seq<(string, string)>, i: nat, ghost o: seq<Node>)
    requires b.Valid() && i < |m| && |o| <= h && Extends(o, b.nodes)
    requires ObjectHolds(b.nodes, h, PutAll(StatePropertyPuts(m)[..i]), h + 1)
    modifies b
    ensures b.Valid() && b.isFirstObjectCreation == old(b.isFirstObjectCreation)
    ensures Extends(o, b.nodes) && ObjectHolds(b.nodes, h, PutAll(StatePropertyPuts(m)[..i + 1]), h + 1)
  {
    ghost var puts := StatePropertyPuts(m);
    ghost var prev := b.nodes;
    PutString(b, h, m[i].0, m[i].1, TStr(m[i].1), PutAll(puts[..i]), h + 1);
    ExtendsPast(o, prev, b.nodes, h);
    PutAllSnoc(puts, i);
  }

  /** One state object: "id", then "properties" when the state has any, then "default" for the default state. */
  method BuildState(b: Builder, st: BlockStateInfo) returns (h: Handle)
    requires b.Valid() && !b.HandsOutRoot()
    modifies b
    ensures b.Valid() && b.isFirstObjectCreation == old(b.isFirstObjectCreation)
    ensures h == old(|b.nodes|) && Extends(old(b.nodes), b.nodes)
    ensures Denotes(b.nodes, SRef(h), StateTree(st), old(|b.nodes|), |b.nodes|)
  {
    h := b.CreateObject();
    PutInt(b, h, "id", st.stateId, TInt(st.stateId), [], h + 1);
    ghost var fs := [("id", TInt(st.stateId))];
    AddStateProperties(b, h, st, fs);
    fs := fs + StatePropertiesField(st);
    AddDefaultMark(b, h, st, fs);
    fs := fs + StateDefaultField(st);
    ObjectDone(b.nodes, h, fs, h);
  }

  /** The "properties" part of a state object, when the state has properties. */
  method AddStateProperties(b: Builder, h: Handle, st: BlockStateInfo, ghost fs: seq<(string, Tree)>)
    requires b.Valid() && !b.HandsOutRoot() && ObjectHolds(b.nodes, h, fs, h + 1) && "properties" !in Keys(fs)
    modifies b
    ensures b.Valid() && b.isFirstObjectCreation == old(b.isFirstObjectCreation)
    ensures ChangedOnly(old(b.nodes), b.nodes, h) && ObjectHolds(b.nodes, h, fs + StatePropertiesField(st), h + 1)
  {
    if |st.properties| > 0 {
      ghost var before := b.nodes;
      var stateProperties := BuildStateProperties(b, st.properties);
      PutChild(b, h, "properties", stateProperties, TObj(PutAll(StatePropertyPuts(st.properties))), fs, h + 1, before);
    } else {
      assert fs + StatePropertiesField(st) == fs;
    }
  }

  /** The `"default": true` part of a state object, for the default state. */
  method AddDefaultMark(b: Builder, h: Handle, st: BlockStateInfo, ghost fs: seq<(string, Tree)>)
    requires b.Valid() && ObjectHolds(b.nodes, h, fs, h + 1) && "default" !in Keys(fs)
    modifies b
    ensures b.Valid() && b.isFirstObjectCreation == old(b.isFirstObjectCreation)
    ensures ChangedOnly(old(b.nodes), b.nodes, h) && ObjectHolds(b.nodes, h, fs + StateDefaultField(st), h + 1)
  {
    if st.isDefault {
      PutBool(b, h, "default", true, TBool(true), fs, h + 1);
    } else {
      assert fs + StateDefaultField(st) == fs;
    }
  }

  /** The "states" array: one state object per state, in provider order. */
  method BuildStates(b: Builder, sts: seq<BlockStateInfo>) returns (arr: Handle)
    requires b.Valid() && !b.HandsOutRoot()
    modifies b
    ensures b.Valid() && b.isFirstObjectCreation == old(b.isFirstObjectCreation)
    ensures arr == old(|b.nodes|) && Extends(old(b.nodes), b.nodes)
    ensures Denotes(b.nodes, SRef(arr), TArr(StateTrees(sts)), old(|b.nodes|), |b.nodes|)
  {
    arr := b.CreateArray();
    var trees := StateTrees(sts);
    ghost var ts: seq<Tree> := [];
    for i := 0 to |sts|
      invariant b.Valid() && b.isFirstObjectCreation == old(b.isFirstObjectCreation)
      invariant arr == old(|b.nodes|) && Extends(old(b.nodes), b.nodes)
      invariant ts == trees[..i]
      invariant ArrayHolds(b.nodes, arr, ts)
    {
      ghost var before := b.nodes;
      var stateObject := BuildState(b, sts[i]);
      AppendChild(b, arr, stateObject, trees[i], ts, before);
      ExtendsPast(old(b.nodes), before, b.nodes, arr);
      assert trees[..i + 1] == ts + [trees[i]];
      ts := ts + [trees[i]];
    }
    assert trees[..|sts|] == trees;
    ArrayDone(b.nodes, arr, ts, arr);
  }

  /** The body of the loop over blocks: one block object. */
  method BuildBlock(b: Builder, blk: BlockInfo, cfg: BlocksConfig) returns (h: Handle)
    requires b.Valid() && !b.HandsOutRoot()
    modifies b
    ensures b.Valid() && b.isFirstObjectCreation == old(b.isFirstObjectCreation)
    ensures h == old(|b.nodes|) && Extends(old(b.nodes), b.nodes)
    ensures Denotes(b.nodes, SRef(h), BlockTree(blk, cfg), old(|b.nodes|), |b.nodes|)
  {
    h := b.CreateObject();
    AddBlockProperties(b, h, blk, cfg);
    AddBlockStates(b, h, blk, cfg, BlockPropertiesField(blk, cfg));
    ObjectDone(b.nodes, h, BlockPropertiesField(blk, cfg) + BlockStatesField(blk, cfg), h);
  }

  /** The "properties" part of a block object, when the profile asks and the block has properties. */
  method AddBlockProperties(b: Builder, h: Handle, blk: BlockInfo, cfg: BlocksConfig)
    requires b.Valid() && !b.HandsOutRoot() && ObjectHolds(b.nodes, h, [], h + 1)
    modifies b
    ensures b.Valid() && b.isFirstObjectCreation == old(b.isFirstObjectCreation)
    ensures ChangedOnly(old(b.nodes), b.nodes, h) && ObjectHolds(b.nodes, h, BlockPropertiesField(blk, cfg), h + 1)
  {
    if cfg.properties && |blk.properties| > 0 {
      ghost var before := b.nodes;
      var propertiesObject := BuildProperties(b, blk.properties);
      PutChild(b, h, "properties", propertiesObject, TObj(PutAll(PropertyPuts(blk.properties))), [], h + 1, before);
    }
  }

  /** The "states" part of a block object, when the profile asks. */
  method AddBlockStates(b: Builder, h: Handle, blk: BlockInfo, cfg: BlocksConfig, ghost fs: seq<(string, Tree)>)
    requires b.Valid() && !b.HandsOutRoot() && ObjectHolds(b.nodes, h, fs, h + 1) && "states" !in Keys(fs)
    modifies b
    ensures b.Valid() && b.isFirstObjectCreation == old(b.isFirstObjectCreation)
    ensures ChangedOnly(old(b.nodes), b.nodes, h) && ObjectHolds(b.nodes, h, fs + BlockStatesField(blk, cfg), h + 1)
  {
    if cfg.states {
      ghost var before := b.nodes;
      var statesArray := BuildStates(b, blk.states);
      PutChild(b, h, "states", statesArray, TArr(StateTrees(blk.states)), fs, h + 1, before);
    } else {
      assert fs + BlockStatesField(blk, cfg) == fs;
    }
  }

  /** A `TreeMap<String, Object>` of builder objects, entry by entry, unfolds into the fields `fs`. */
  ghost predicate RefsDenote(nodes: seq<Node>, m: seq<(string, Handle)>, fs: seq<(string, Tree)>, lo: nat, hi: nat)
  {
    |m| == |fs|
    && forall i :: 0 <= i < |m| ==>
         m[i].0 == fs[i].0 && lo <= m[i].1 < hi && Denotes(nodes, SRef(m[i].1), fs[i].1, lo, hi)
  }

  /** A put into the map of handles and the same put into the map of trees keep the two in step. */
  lemma {:induction false} TreePutRefs(nodes: seq<Node>, m: seq<(string, Handle)>, fs: seq<(string, Tree)>,
                                       k: string, h: Handle, t: Tree, lo: nat, hi: nat)
    requires RefsDenote(nodes, m, fs, lo, hi) && lo <= h < hi && Denotes(nodes, SRef(h), t, lo, hi)
    ensures RefsDenote(nodes, TreePut<Handle>(m, k, h), TreePut(fs, k, t), lo, hi)
  {
    if m != [] && k != m[0].0 && !LexLess(k, m[0].0) {
      TreePutRefs(nodes, m[1..], fs[1..], k, h, t, lo, hi);
      TreePutRefsSkip(nodes, m, fs, k, h, t, lo, hi);
    } else if m != [] {
      TreePutRefsHere(nodes, m, fs, k, h, t, lo, hi);
    }
  }

  /** The step of `TreePutRefs` where the key goes after the first entry. */
  lemma {:induction false} TreePutRefsSkip(nodes: seq<Node>, m: seq<(string, Handle)>, fs: seq<(string, Tree)>,
                                           k: string, h: Handle, t: Tree, lo: nat, hi: nat)
    requires RefsDenote(nodes, m, fs, lo, hi) && m != [] && k != m[0].0 && !LexLess(k, m[0].0)
    requires RefsDenote(nodes, TreePut<Handle>(m[1..], k, h), TreePut(fs[1..], k, t), lo, hi)
    ensures RefsDenote(nodes, TreePut<Handle>(m, k, h), TreePut(fs, k, t), lo, hi)
  {
    var r, rf := TreePut<Handle>(m, k, h), TreePut(fs, k, t);
    var r', rf' := TreePut<Handle>(m[1..], k, h), TreePut(fs[1..], k, t);
    assert r == [m[0]] + r';
    assert rf == [fs[0]] + rf';
    forall i | 0 <= i < |r| ensures r[i].0 == rf[i].0 && lo <= r[i].1 < hi && Denotes(nodes, SRef(r[i].1), rf[i].1, lo, hi) {
      if i > 0 {
        assert r[i] == r'[i - 1] && rf[i] == rf'[i - 1];
      }
    }
  }

  /** The steps of `TreePutRefs` where the key replaces the first entry or goes before it. */
  lemma {:induction false} TreePutRefsHere(nodes: seq<Node>, m: seq<(string, Handle)>, fs: seq<(string, Tree)>,
                                           k: string, h: Handle, t: Tree, lo: nat, hi: nat)
    requires RefsDenote(nodes, m, fs, lo, hi) && lo <= h < hi && Denotes(nodes, SRef(h), t, lo, hi)
    requires m != [] && (k == m[0].0 || LexLess(k, m[0].0))
    ensures RefsDenote(nodes, TreePut<Handle>(m, k, h), TreePut(fs, k, t), lo, hi)
  {
    var r, rf := TreePut<Handle>(m, k, h), TreePut(fs, k, t);
    if k == m[0].0 {
      forall i | 0 < i < |r| ensures r[i] == m[i] && rf[i] == fs[i] { }
    } else {
      forall i | 0 < i < |r| ensures r[i] == m[i - 1] && rf[i] == fs[i - 1] { }
    }
  }

  /** The map of block objects stays valid while later blocks are built in new nodes. */
  lemma {:induction false} RefsExtend(before: seq<Node>, after: seq<Node>, m: seq<(string, Handle)>, fs: seq<(string, Tree)>, lo: nat)
    requires Extends(before, after) && lo <= |before| && RefsDenote(before, m, fs, lo, |before|)
    ensures RefsDenote(after, m, fs, lo, |after|)
  {
    forall i | 0 <= i < |m| ensures Denotes(after, SRef(m[i].1), fs[i].1, lo, |after|) {
      DenotesExtend(before, after, SRef(m[i].1), fs[i].1, lo);
    }
  }

  /** The first loop of `buildBlockData`: each block object is built and put into the `TreeMap` under its identifier. */
  method CollectBlocks(b: Builder, blocks: seq<BlockInfo>, cfg: BlocksConfig) returns (sortedBlocks: seq<(string, Handle)>)
    requires b.Valid() && !b.HandsOutRoot()
    modifies b
    ensures b.Valid() && b.isFirstObjectCreation == old(b.isFirstObjectCreation)
    ensures Extends(old(b.nodes), b.nodes)
    ensures RefsDenote(b.nodes, sortedBlocks, BlocksFields(blocks, cfg), old(|b.nodes|), |b.nodes|)
  {
    var puts := BlockPuts(blocks, cfg);
    sortedBlocks := [];
    for i := 0 to |blocks|
      invariant b.Valid() && b.isFirstObjectCreation == old(b.isFirstObjectCreation)
      invariant Extends(old(b.nodes), b.nodes)
      invariant RefsDenote(b.nodes, sortedBlocks, TreePutAll(puts[..i]), old(|b.nodes|), |b.nodes|)
    {
      ghost var before := b.nodes;
      var blockData := BuildBlock(b, blocks[i], cfg);
      RefsExtend(before, b.nodes, sortedBlocks, TreePutAll(puts[..i]), old(|b.nodes|));
      DenotesWiden(b.nodes, SRef(blockData), puts[i].1, |before|, |b.nodes|, old(|b.nodes|), |b.nodes|);
      TreePutRefs(b.nodes, sortedBlocks, TreePutAll(puts[..i]), blocks[i].identifier, blockData, puts[i].1,
                  old(|b.nodes|), |b.nodes|);
      sortedBlocks := TreePut<Handle>(sortedBlocks, blocks[i].identifier, blockData);
      TreePutAllSnoc(puts, i);
    }
    assert puts[..|blocks|] == puts;
  }

  /** The entries the root gets from a map of handles: each handle as a reference. */
  function RefEntries(m: seq<(string, Handle)>): (r: seq<(string, Slot)>)
    ensures |r| == |m| && forall i :: 0 <= i < |m| ==> r[i] == (m[i].0, SRef(m[i].1))
  {
    seq(|m|, i requires 0 <= i < |m| => (m[i].0, SRef(m[i].1)))
  }

  /**
   * The second loop of `buildBlockData`: the map's entries go into the
   * empty root in ascending key order; the keys are distinct, so each is
   * appended and the root ends up holding the map as it is.
   */
  method CopyToRoot(b: Builder, root: Handle, sortedBlocks: seq<(string, Handle)>, ghost fs: seq<(string, Tree)>, ghost lo: nat)
    requires b.Valid() && root < lo <= |b.nodes| && b.nodes[root] == ObjNode([])
    requires RefsDenote(b.nodes, sortedBlocks, fs, lo, |b.nodes|) && StrictlySorted(fs)
    modifies b
    ensures b.Valid() && b.isFirstObjectCreation == old(b.isFirstObjectCreation)
    ensures b.nodes == old(b.nodes)[root := ObjNode(RefEntries(sortedBlocks))]
    ensures FieldsDenote(b.nodes, b.nodes[root].entries, fs, lo, |b.nodes|)
  {
    ghost var es: seq<(string, Slot)> := [];
    for i := 0 to |sortedBlocks|
      invariant b.Valid() && b.isFirstObjectCreation == old(b.isFirstObjectCreation)
      invariant es == RefEntries(sortedBlocks[..i])
      invariant b.nodes == old(b.nodes)[root := ObjNode(es)]
    {
      var (key, value) := sortedBlocks[i];
      NotYetCopied(old(b.nodes), sortedBlocks, fs, lo, i);
      b.AddToObject(root, key, Ref(value));
      RefEntriesSnoc(sortedBlocks, i);
      es := es + [(key, SRef(value))];
    }
    assert sortedBlocks[..|sortedBlocks|] == sortedBlocks;
    RefsToFields(old(b.nodes), b.nodes, root, sortedBlocks, fs, lo);
  }

  lemma {:induction false} RefEntriesSnoc(m: seq<(string, Handle)>, i: nat)
    requires i < |m|
    ensures RefEntries(m[..i + 1]) == RefEntries(m[..i]) + [(m[i].0, SRef(m[i].1))]
  {
    assert RefEntries(m[..i + 1]) == RefEntries(m[..i]) + [(m[i].0, SRef(m[i].1))];
  }

  /** The keys of a map whose trees are in ascending key order are distinct: entry `i` is not among those before it. */
  lemma {:induction false} NotYetCopied(nodes: seq<Node>, m: seq<(string, Handle)>, fs: seq<(string, Tree)>, lo: nat, i: nat)
    requires RefsDenote(nodes, m, fs, lo, |nodes|) && StrictlySorted(fs) && i < |m|
    ensures m[i].0 !in Keys(RefEntries(m[..i]))
  {
    var es := RefEntries(m[..i]);
    forall j | 0 <= j < i ensures es[j].0 != m[i].0 {
      assert es[j].0 == fs[j].0 && m[i].0 == fs[i].0;
      LexLessIrreflexive(fs[j].0);
    }
  }

  /** Once the root holds a reference to each handle of the map, its entries unfold into the map's trees. */
  lemma {:induction false} RefsToFields(filled: seq<Node>, nodes: seq<Node>, root: Handle, m: seq<(string, Handle)>,
                     fs: seq<(string, Tree)>, lo: nat)
    requires root < lo <= |filled| && RefsDenote(filled, m, fs, lo, |filled|)
    requires nodes == filled[root := ObjNode(RefEntries(m))]
    ensures FieldsDenote(nodes, nodes[root].entries, fs, lo, |nodes|)
  {
    forall i | 0 <= i < |m| ensures Denotes(nodes, SRef(m[i].1), fs[i].1, lo, |nodes|) {
      DenotesFrame(filled, nodes, SRef(m[i].1), fs[i].1, lo, |nodes|);
    }
  }

  /**
   * `buildBlockData`: the root is the builder's first `createObject` (the
   * tag builder's own root compound when it still hands that out), and ends
   * up holding `BlocksFields` in nodes created by this call.
   */
  method BuildBlockData(b: Builder, blocks: seq<BlockInfo>, cfg: BlocksConfig) returns (root: Handle)
    requires b.Valid()
    requires b.HandsOutRoot() ==> b.nodes[b.target.root] == ObjNode([])
    modifies b
    ensures b.Valid() && !b.isFirstObjectCreation
    ensures old(b.HandsOutRoot()) ==> root == b.target.root
    ensures !old(b.HandsOutRoot()) ==> root == old(|b.nodes|) && Extends(old(b.nodes), b.nodes)
    ensures old(|b.nodes|) <= |b.nodes| && root < |b.nodes| && b.nodes[root].ObjNode?
    ensures forall j :: 0 <= j < old(|b.nodes|) && j != root ==> b.nodes[j] == old(b.nodes[j])
    ensures FieldsDenote(b.nodes, b.nodes[root].entries, BlocksFields(blocks, cfg), old(|b.nodes|), |b.nodes|)
    ensures !old(b.HandsOutRoot()) ==>
              Denotes(b.nodes, SRef(root), TObj(BlocksFields(blocks, cfg)), old(|b.nodes|), |b.nodes|)
  {
    root := b.CreateObject();
    ghost var lo := |b.nodes|;
    ghost var created := b.nodes;
    var sortedBlocks := CollectBlocks(b, blocks, cfg);
    TreePutAllSpec(BlockPuts(blocks, cfg));
    CopyToRoot(b, root, sortedBlocks, BlocksFields(blocks, cfg), lo);
    FieldsWiden(b.nodes, b.nodes[root].entries, BlocksFields(blocks, cfg), lo, |b.nodes|, old(|b.nodes|), |b.nodes|);
  }

  /**
   * `generateDump`: "binary" in any case is refused before the provider is
   * asked for blocks; any other unknown format only after; "json" and "nbt"
   * build the block tree, the tag writer's root compound being the root.
   * A profile without a blocks section fails inside `buildBlockData`.
   */
  method GenerateDump(profile: ProfileConfig, blocks: seq<BlockInfo>) returns (r: DumpResult)
    ensures RouteOf(profile.exportConfig.format) == BinaryFormat ==> r == Thrown(false)
    ensures RouteOf(profile.exportConfig.format) == UnknownFormat ==> r == Thrown(true)
    ensures (RouteOf(profile.exportConfig.format) == JsonFormat || RouteOf(profile.exportConfig.format) == NbtFormat) ==>
              if profile.blocks.None? then r == Thrown(true)
              else r.Dumped? && Denotes(r.nodes, SRef(r.root), TObj(BlocksFields(blocks, profile.blocks.value)), 0, |r.nodes|)
    ensures RouteOf(profile.exportConfig.format) == NbtFormat && r.Dumped? ==> r.root == 0
  {
    var route := RouteOf(profile.exportConfig.format);
    if route == BinaryFormat {
      return Thrown(false);
    }
    if route == JsonFormat {
      if profile.blocks.None? {
        return Thrown(true);
      }
      var b := new Builder.Json();
      var root := BuildBlockData(b, blocks, profile.blocks.value);
      r := Dumped(b.nodes, root);
    } else if route == NbtFormat {
      if profile.blocks.None? {
        return Thrown(true);
      }
      var b := new Builder.Nbt();
      var root := BuildBlockData(b, blocks, profile.blocks.value);
      FieldsWiden(b.nodes, b.nodes[root].entries, BlocksFields(blocks, profile.blocks.value), 1, |b.nodes|, 0, |b.nodes|);
      r := Dumped(b.nodes, root);
    } else {
      r := Thrown(true);
    }
  }

  // ---------------------------------------------------------------------
  // Properties of the block tree

  /** The root's keys are the block identifiers, in strictly ascending order, whatever order the provider gave. */
  lemma {:induction false} BlocksKeys(blocks: seq<BlockInfo>, cfg: BlocksConfig, k: string)
    ensures StrictlySorted(BlocksFields(blocks, cfg))
    ensures k in Keys(BlocksFields(blocks, cfg)) <==> exists i :: 0 <= i < |blocks| && blocks[i].identifier == k
  {
    var puts := BlockPuts(blocks, cfg);
    TreePutAllSpec(puts);
    if k in Keys(puts) {
      var j :| 0 <= j < |puts| && Keys(puts)[j] == k;
      assert blocks[j].identifier == k;
    }
    if i :| 0 <= i < |blocks| && blocks[i].identifier == k {
      assert Keys(puts)[i] == k;
    }
  }

  /** Under a block's identifier the root holds that block's tree, unless a later block in provider order has the same identifier. */
  lemma {:induction false} BlockLastWins(blocks: seq<BlockInfo>, cfg: BlocksConfig, i: nat)
    requires i < |blocks|
    requires forall j :: i < j < |blocks| ==> blocks[j].identifier != blocks[i].identifier
    ensures Get(BlocksFields(blocks, cfg), blocks[i].identifier) == Some(BlockTree(blocks[i], cfg))
  {
    var puts := BlockPuts(blocks, cfg);
    forall j | i < j < |puts| ensures puts[j].0 != puts[i].0 {
      assert puts[j].0 == blocks[j].identifier;
    }
    TreePutAllLastWins(puts, i);
  }

  /** A block object has "properties" exactly when the profile asks for them and the block has some. */
  lemma BlockPropertiesPresent(blk: BlockInfo, cfg: BlocksConfig)
    ensures "properties" in Keys(BlockFields(blk, cfg)) <==> cfg.properties && |blk.properties| > 0
    ensures "properties" in Keys(BlockFields(blk, cfg)) ==>
              Get(BlockFields(blk, cfg), "properties") == Some(TObj(PutAll(PropertyPuts(blk.properties))))
  {
    var fs := BlockFields(blk, cfg);
    if cfg.properties && |blk.properties| > 0 {
      assert fs[0].0 == "properties";
      assert IndexOf(fs, "properties") == Some(0);
    } else if cfg.states {
      assert Keys(fs) == ["states"];
    } else {
      assert fs == [];
    }
  }

  /** A block object has "states" exactly when the profile asks for them, even for a block without states; it holds one state object per state, in order. */
  lemma BlockStatesPresent(blk: BlockInfo, cfg: BlocksConfig)
    ensures "states" in Keys(BlockFields(blk, cfg)) <==> cfg.states
    ensures cfg.states ==> Get(BlockFields(blk, cfg), "states") == Some(TArr(StateTrees(blk.states)))
  {
    var fs := BlockFields(blk, cfg);
    var n := |BlockPropertiesField(blk, cfg)|;
    if cfg.states {
      assert fs[n] == ("states", TArr(StateTrees(blk.states)));
      assert Keys(fs)[n] == "states";
      forall j | 0 <= j < n ensures fs[j].0 != "states" {
        assert fs[j].0 == "properties";
      }
      assert IndexOf(fs, "states") == Some(n);
    } else if cfg.properties && |blk.properties| > 0 {
      assert Keys(fs) == ["properties"];
    } else {
      assert fs == [];
    }
  }

  /**
   * The "properties" object of a block maps exactly the property names,
   * each (when no later property has the same name) to the array of that
   * property's possible values, in order.
   */
  lemma {:induction false} PropertiesObject(ps: seq<PropertyInfo>, k: string)
    ensures k in Keys(PutAll(PropertyPuts(ps))) <==> exists i :: 0 <= i < |ps| && ps[i].name == k
    ensures forall i :: 0 <= i < |ps| && ps[i].name == k && (forall j :: i < j < |ps| ==> ps[j].name != k) ==>
              Get(PutAll(PropertyPuts(ps)), k) == Some(TArr(ValueItems(ps[i].possibleValues)))
  {
    var puts := PropertyPuts(ps);
    PutAllKeys(puts);
    if k in Keys(puts) {
      var j :| 0 <= j < |puts| && Keys(puts)[j] == k;
      assert ps[j].name == k;
    }
    if i :| 0 <= i < |ps| && ps[i].name == k {
      assert Keys(puts)[i] == k;
    }
    forall i | 0 <= i < |ps| && ps[i].name == k && (forall j :: i < j < |ps| ==> ps[j].name != k)
      ensures Get(PutAll(puts), k) == Some(TArr(ValueItems(ps[i].possibleValues)))
    {
      forall j | i < j < |puts| ensures puts[j].0 != puts[i].0 {
        assert puts[j].0 == ps[j].name;
      }
      PutAllLastWins(puts, i);
    }
  }

  /** A state object starts with its int "id". */
  lemma {:induction false} StateId(st: BlockStateInfo)
    ensures Keys(StateFields(st))[0] == "id" && Get(StateFields(st), "id") == Some(TInt(st.stateId))
  {
    var fs := StateFields(st);
    assert fs[0] == ("id", TInt(st.stateId));
    assert IndexOf(fs, "id") == Some(0);
  }

  /** The keys of a state object: "id", then "properties" when the state has property values, then "default" for the default state. */
  lemma {:induction false} StateKeys(st: BlockStateInfo)
    ensures Keys(StateFields(st))
            == ["id"] + (if |st.properties| > 0 then ["properties"] else []) + (if st.isDefault then ["default"] else [])
  {
    var fs := StateFields(st);
    var ks := ["id"] + (if |st.properties| > 0 then ["properties"] else []) + (if st.isDefault then ["default"] else []);
    assert |fs| == |ks|;
    forall j | 0 <= j < |fs| ensures Keys(fs)[j] == ks[j] {
      if j == 0 {
        assert fs[j].0 == "id";
      } else if j == 1 && |st.properties| > 0 {
        assert fs[j].0 == "properties";
      } else {
        assert fs[j].0 == "default";
      }
    }
  }

  /** A state object has "properties" exactly when the state has property values, and "default" exactly for the default state. */
  lemma {:induction false} StateOptionalFields(st: BlockStateInfo)
    ensures "properties" in Keys(StateFields(st)) <==> |st.properties| > 0
    ensures "default" in Keys(StateFields(st)) <==> st.isDefault
  {
    StateKeys(st);
  }

  /** The default state's "default" is always true, never false. */
  lemma {:induction false} StateDefaultTrue(st: BlockStateInfo)
    requires st.isDefault
    ensures Get(StateFields(st), "default") == Some(TBool(true))
  {
    var fs := StateFields(st);
    var n := |fs| - 1;
    StateKeys(st);
    assert fs[n] == ("default", TBool(true));
    forall j | 0 <= j < n ensures fs[j].0 != "default" {
      assert Keys(fs)[j] != "default";
    }
    assert Keys(fs)[n] == "default";
  }

  /** With both flags off, every block maps to an empty object. */
  lemma {:induction false} FlagsOff(blocks: seq<BlockInfo>)
    ensures forall m :: 0 <= m < |BlocksFields(blocks, BlocksConfig(false, false))| ==>
              BlocksFields(blocks, BlocksConfig(false, false))[m].1 == TObj([])
  {
    var puts := BlockPuts(blocks, BlocksConfig(false, false));
    forall m | 0 <= m < |TreePutAll(puts)| ensures TreePutAll(puts)[m].1 == TObj([]) {
      TreePutAllValues(puts, m);
    }
  }
}
