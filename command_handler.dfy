/**
 * `CommandHandler`: the `/datadump` commands. A profile is dumped either
 * into one combined file, holding the block and registry trees under
 * "blocks" and "registries", or into one file per configured category; the
 * handler reports a `CommandResult`. The static `configManager` is the one
 * field of the handler object, the output directory (the game directory's
 * "datadump" subdirectory) is a parameter, and what
 * the configuration files hold is given as the profile `loadProfile`
 * produced (or `None` when it threw) and the names `listProfiles` found.
 */
module Commands {
  import opened Wrappers
  import opened JavaLang
  import opened OrderedMaps
  import opened Values
  import opened Nodes
  import opened Builders
  import opened Entities
  import opened Dumps
  import opened Filling
  import opened BlockDump
  import opened RegistryDump
  import opened CommandResults

  // ---------------------------------------------------------------------
  // File names

  /**
   * The name a dump is written to: a name without '.' gets ".json" when the
   * format is "json" ignoring case, ".nbt" when it is "nbt"; any other name
   * is kept.
   */
  function WithExtension(filename: string, format: string): string
  {
    if '.' in filename then filename
    else if EqualsIgnoreCase(format, "json") then filename + ".json"
    else if EqualsIgnoreCase(format, "nbt") then filename + ".nbt"
    else filename
  }

  /** A format a dump can be written in: "json" or "nbt", in any case. */
  predicate Writable(format: string)
  {
    RouteOf(format) == JsonFormat || RouteOf(format) == NbtFormat
  }

  /**
   * The extension rule only ever appends; a name without '.' is extended
   * exactly when its format is one a dump is written in; and applying the
   * rule to its own result changes nothing.
   */
  lemma ExtensionRule(filename: string, format: string)
    ensures |filename| <= |WithExtension(filename, format)|
    ensures WithExtension(filename, format)[..|filename|] == filename
    ensures '.' !in filename ==> (WithExtension(filename, format) != filename <==> Writable(format))
    ensures WithExtension(WithExtension(filename, format), format) == WithExtension(filename, format)
  {
    var r := WithExtension(filename, format);
    if '.' !in filename && r != filename {
      assert r[|filename|] == '.';
    }
  }

  // ---------------------------------------------------------------------
  // The combined dump

  /** The root of a combined dump: the block tree under "blocks" when the profile has a blocks section, then the registry tree under "registries" when it has a registries section. */
  function CombinedFields(profile: ProfileConfig, blocks: seq<BlockInfo>, registries: seq<RegistryData>, jvm: JvmText): seq<(string, Tree)>
  {
    Sections(BlocksSection(profile, blocks), RegistriesSection(profile, registries, jvm))
  }

  function BlocksSection(profile: ProfileConfig, blocks: seq<BlockInfo>): Option<Tree>
  {
    if profile.blocks.Some? then Some(TObj(BlocksFields(blocks, profile.blocks.value))) else None
  }

  function RegistriesSection(profile: ProfileConfig, registries: seq<RegistryData>, jvm: JvmText): Option<Tree>
  {
    if profile.registries.Some? then Some(TObj(RegistriesFields(registries, IncludeCodec(profile), jvm))) else None
  }

  /** The fields of a root holding the sections that are present, "blocks" first. */
  function Sections(blocksTree: Option<Tree>, registriesTree: Option<Tree>): seq<(string, Tree)>
  {
    (if blocksTree.Some? then [("blocks", blocksTree.value)] else [])
    + (if registriesTree.Some? then [("registries", registriesTree.value)] else [])
  }

  /** A root of sections has exactly the keys of the sections present, each holding its tree. */
  lemma SectionsShape(blocksTree: Option<Tree>, registriesTree: Option<Tree>, k: string)
    ensures k in Keys(Sections(blocksTree, registriesTree)) <==>
              (k == "blocks" && blocksTree.Some?) || (k == "registries" && registriesTree.Some?)
    ensures Get(Sections(blocksTree, registriesTree), "blocks") == blocksTree
    ensures Get(Sections(blocksTree, registriesTree), "registries") == registriesTree
  {
    var fs := Sections(blocksTree, registriesTree);
    if blocksTree.Some? {
      assert fs[0].0 == "blocks";
      assert IndexOf(fs, "blocks") == Some(0);
    }
    if registriesTree.Some? {
      var n := |fs| - 1;
      assert fs[n].0 == "registries";
      assert forall j :: 0 <= j < n ==> fs[j].0 == "blocks";
      assert IndexOf(fs, "registries") == Some(n);
    }
    assert Keys(fs) == seq(|fs|, j requires 0 <= j < |fs| => fs[j].0);
  }

  /**
   * The combined root has "blocks" exactly when the profile has a blocks
   * section, holding the block tree, and "registries" exactly when it has a
   * registries section, holding the registry tree; it has no other key.
   */
  lemma {:induction false} CombinedSections(profile: ProfileConfig, blocks: seq<BlockInfo>, registries: seq<RegistryData>, jvm: JvmText, k: string)
    ensures k in Keys(CombinedFields(profile, blocks, registries, jvm)) <==>
              (k == "blocks" && profile.blocks.Some?) || (k == "registries" && profile.registries.Some?)
    ensures Get(CombinedFields(profile, blocks, registries, jvm), "blocks")
            == if profile.blocks.Some? then Some(TObj(BlocksFields(blocks, profile.blocks.value))) else None
    ensures Get(CombinedFields(profile, blocks, registries, jvm), "registries")
            == if profile.registries.Some? then Some(TObj(RegistriesFields(registries, IncludeCodec(profile), jvm))) else None
  {
    SectionsShape(BlocksSection(profile, blocks), RegistriesSection(profile, registries, jvm), k);
  }

  /**
   * The two `if` blocks of `generateCombinedJsonDump`/`generateCombinedNbtDump`
   * when the root came from the builder: each section is built in new nodes
   * and put under its key into the root.
   */
  method AddSections(b: Builder, root: Handle, profile: ProfileConfig, blocks: seq<BlockInfo>,
                     registries: seq<RegistryData>, jvm: JvmText)
    requires b.Valid() && !b.HandsOutRoot() && root == 0 && b.nodes == [ObjNode([])]
    modifies b
    ensures b.Valid()
    ensures Denotes(b.nodes, SRef(root), TObj(CombinedFields(profile, blocks, registries, jvm)), 0, |b.nodes|)
  {
    AddBlocksSection(b, root, profile, blocks);
    ghost var fs := Sections(BlocksSection(profile, blocks), None);
    SectionsShape(BlocksSection(profile, blocks), None, "registries");
    AddRegistriesSection(b, root, profile, registries, jvm, fs);
    assert fs + Sections(None, RegistriesSection(profile, registries, jvm)) == CombinedFields(profile, blocks, registries, jvm);
    ObjectDone(b.nodes, root, CombinedFields(profile, blocks, registries, jvm), 0);
  }

  /** The blocks `if` block: with a blocks section, the block tree is built and put under "blocks". */
  method AddBlocksSection(b: Builder, root: Handle, profile: ProfileConfig, blocks: seq<BlockInfo>)
    requires b.Valid() && !b.HandsOutRoot() && root == 0 && b.nodes == [ObjNode([])]
    modifies b
    ensures b.Valid() && !b.HandsOutRoot()
    ensures ObjectHolds(b.nodes, root, Sections(BlocksSection(profile, blocks), None), 1)
  {
    if profile.blocks.Some? {
      ghost var before := b.nodes;
      ghost var t := BlocksSection(profile, blocks).value;
      var blocksData := BuildBlockData(b, blocks, profile.blocks.value);
      PutChild(b, root, "blocks", blocksData, t, [], 1, before);
    }
  }

  /** The registries `if` block: with a registries section, the registry tree is built and put under "registries". */
  method AddRegistriesSection(b: Builder, root: Handle, profile: ProfileConfig, registries: seq<RegistryData>,
                              jvm: JvmText, ghost fs: seq<(string, Tree)>)
    requires b.Valid() && !b.HandsOutRoot() && ObjectHolds(b.nodes, root, fs, 1) && "registries" !in Keys(fs)
    modifies b
    ensures b.Valid()
    ensures ObjectHolds(b.nodes, root, fs + Sections(None, RegistriesSection(profile, registries, jvm)), 1)
  {
    if profile.registries.Some? {
      PutRegistries(b, root, profile, registries, jvm, fs);
    } else {
      assert fs + Sections(None, None) == fs;
    }
  }

  /** The body of the registries `if` block: the registry tree is built and put under "registries". */
  method PutRegistries(b: Builder, root: Handle, profile: ProfileConfig, registries: seq<RegistryData>,
                       jvm: JvmText, ghost fs: seq<(string, Tree)>)
    requires b.Valid() && !b.HandsOutRoot() && ObjectHolds(b.nodes, root, fs, 1) && "registries" !in Keys(fs)
    modifies b
    ensures b.Valid()
    ensures ObjectHolds(b.nodes, root, fs + [("registries", TObj(RegistriesFields(registries, IncludeCodec(profile), jvm)))], 1)
  {
    ghost var before := b.nodes;
    ghost var t := TObj(RegistriesFields(registries, IncludeCodec(profile), jvm));
    var registriesData := BuildRegistryData(b, registries, profile, jvm);
    assert Denotes(b.nodes, SRef(registriesData), t, |before|, |b.nodes|);
    ExtendsPast(before, before, b.nodes, registriesData);
    PutChild(b, root, "registries", registriesData, t, fs, 1, before);
  }

  /** `generateCombinedJsonDump`, up to the writer: the root is a new object holding the enabled sections. */
  method CombinedJsonDump(profile: ProfileConfig, blocks: seq<BlockInfo>, registries: seq<RegistryData>, jvm: JvmText)
    returns (nodes: seq<Node>, root: Handle)
    ensures Denotes(nodes, SRef(root), TObj(CombinedFields(profile, blocks, registries, jvm)), 0, |nodes|)
  {
    var b := new Builder.Json();
    root := b.CreateObject();
    AddSections(b, root, profile, blocks, registries, jvm);
    nodes := b.nodes;
  }

  /**
   * The fields of the section built first by the as-written NBT dump: the
   * blocks tree, or the registries tree when there is no blocks section.
   */
  function FirstSectionFields(profile: ProfileConfig, blocks: seq<BlockInfo>, registries: seq<RegistryData>, jvm: JvmText): seq<(string, Tree)>
  {
    if profile.blocks.Some? then BlocksFields(blocks, profile.blocks.value)
    else if profile.registries.Some? then RegistriesFields(registries, IncludeCodec(profile), jvm)
    else []
  }

  /** Object `h` has key `k` exactly when `fs` has, and its slot there denotes the tree `fs` has there. */
  ghost predicate HoldsKey(nodes: seq<Node>, h: Handle, fs: seq<(string, Tree)>, k: string, lo: nat)
  {
    h < |nodes| && nodes[h].ObjNode?
    && (Get(nodes[h].entries, k).Some? <==> Get(fs, k).Some?)
    && (Get(fs, k).Some? ==> Denotes(nodes, Get(nodes[h].entries, k).value, Get(fs, k).value, lo, |nodes|))
  }

  /** Object `h` agrees with the fields `fs` on every key other than the section keys. */
  ghost predicate HoldsBesides(nodes: seq<Node>, h: Handle, fs: seq<(string, Tree)>, lo: nat)
  {
    h < |nodes| && nodes[h].ObjNode?
    && forall k :: k != "blocks" && k != "registries" ==> HoldsKey(nodes, h, fs, k, lo)
  }

  /** Fields denoted by an object's entries are held by it on every key. */
  lemma HoldsBesidesFields(nodes: seq<Node>, h: Handle, fs: seq<(string, Tree)>, lo: nat)
    requires h < |nodes| && nodes[h].ObjNode? && FieldsDenote(nodes, nodes[h].entries, fs, lo, |nodes|)
    ensures HoldsBesides(nodes, h, fs, lo)
  {
    forall k | k != "blocks" && k != "registries" ensures HoldsKey(nodes, h, fs, k, lo) {
      FieldsGet(nodes, nodes[h].entries, fs, lo, |nodes|, k);
    }
  }

  /** Putting a section key into the object, or adding nodes, keeps what it holds on the other keys. */
  lemma HoldsBesidesStep(nodes: seq<Node>, nodes': seq<Node>, h: Handle, fs: seq<(string, Tree)>, lo: nat, k: string, s: Slot)
    requires HoldsBesides(nodes, h, fs, lo) && h < lo && |nodes| <= |nodes'| && SameOn(nodes, nodes', lo, |nodes|)
    requires k == "blocks" || k == "registries"
    requires nodes'[h] == nodes[h] || nodes'[h] == ObjNode(Put(nodes[h].entries, k, s))
    ensures HoldsBesides(nodes', h, fs, lo)
  {
    forall k' | k' != "blocks" && k' != "registries" ensures HoldsKey(nodes', h, fs, k', lo) {
      assert HoldsKey(nodes, h, fs, k', lo);
      PutOther(nodes[h].entries, k, s, k');
      assert Get(nodes'[h].entries, k') == Get(nodes[h].entries, k');
      if Get(fs, k').Some? {
        var slot, t := Get(nodes[h].entries, k').value, Get(fs, k').value;
        DenotesFrame(nodes, nodes', slot, t, lo, |nodes|);
        DenotesWiden(nodes', slot, t, lo, |nodes|, lo, |nodes'|);
      }
    }
  }

  /**
   * `generateCombinedNbtDump` as written: the writer's root compound is
   * handed to the builder but never taken from it, so the first section
   * built gets the root itself as its own root: its fields are written
   * straight into the root, which is then put into itself. The resulting
   * compound contains itself and denotes no tree.
   */
  method CombinedNbtDumpAsWritten(profile: ProfileConfig, blocks: seq<BlockInfo>, registries: seq<RegistryData>, jvm: JvmText)
    returns (nodes: seq<Node>, root: Handle)
    ensures root == 0 && root < |nodes| && nodes[root].ObjNode?
    ensures profile.blocks.Some? ==> Get(nodes[root].entries, "blocks") == Some(SRef(root))
    ensures profile.blocks.None? && profile.registries.Some? ==> Get(nodes[root].entries, "registries") == Some(SRef(root))
    ensures HoldsBesides(nodes, root, FirstSectionFields(profile, blocks, registries, jvm), 1)
    ensures profile.blocks.Some? && profile.registries.Some? ==>
              Get(nodes[root].entries, "registries").Some?
              && Denotes(nodes, Get(nodes[root].entries, "registries").value,
                         TObj(RegistriesFields(registries, IncludeCodec(profile), jvm)), 1, |nodes|)
    ensures profile.blocks.Some? || profile.registries.Some? ==>
              forall t: Tree, lo: nat, hi: nat :: !Denotes(nodes, SRef(root), t, lo, hi)
    ensures profile.blocks.None? && profile.registries.None? ==> nodes == [ObjNode([])]
  {
    var b := new Builder.Nbt();
    root := b.target.root;
    ghost var first := FirstSectionFields(profile, blocks, registries, jvm);
    if profile.blocks.Some? {
      var blocksData := BuildBlockData(b, blocks, profile.blocks.value);
      HoldsBesidesFields(b.nodes, root, first, 1);
      ghost var before := b.nodes;
      b.AddToObject(root, "blocks", Ref(blocksData));
      HoldsBesidesStep(before, b.nodes, root, first, 1, "blocks", SRef(root));
      PutFacts(before[root].entries, "blocks", SRef(root));
    }
    if profile.registries.Some? {
      if profile.blocks.Some? {
        AddRegistriesBesideSelf(b, root, profile, registries, jvm, first);
      } else {
        var registriesData := BuildRegistryData(b, registries, profile, jvm);
        HoldsBesidesFields(b.nodes, root, first, 1);
        ghost var before := b.nodes;
        b.AddToObject(root, "registries", Ref(registriesData));
        HoldsBesidesStep(before, b.nodes, root, first, 1, "registries", SRef(root));
        PutFacts(before[root].entries, "registries", SRef(root));
      }
    }
    nodes := b.nodes;
    if profile.blocks.Some? {
      SelfKeyHasNoTree(nodes, root, "blocks");
    } else if profile.registries.Some? {
      SelfKeyHasNoTree(nodes, root, "registries");
    }
  }

  /**
   * The registries step of the as-written NBT dump after the blocks step:
   * the root has already been handed out, so the registry tree is built in
   * new nodes and put under "registries"; the rest of the root stays.
   */
  method AddRegistriesBesideSelf(b: Builder, root: Handle, profile: ProfileConfig, registries: seq<RegistryData>,
                                 jvm: JvmText, ghost first: seq<(string, Tree)>)
    requires b.Valid() && !b.HandsOutRoot() && root == 0 && HoldsBesides(b.nodes, root, first, 1)
    requires Get(b.nodes[root].entries, "blocks") == Some(SRef(root))
    modifies b
    ensures b.Valid() && HoldsBesides(b.nodes, root, first, 1)
    ensures Get(b.nodes[root].entries, "blocks") == Some(SRef(root))
    ensures Get(b.nodes[root].entries, "registries").Some?
            && Denotes(b.nodes, Get(b.nodes[root].entries, "registries").value,
                       TObj(RegistriesFields(registries, IncludeCodec(profile), jvm)), 1, |b.nodes|)
  {
    ghost var start := b.nodes;
    ghost var t := TObj(RegistriesFields(registries, IncludeCodec(profile), jvm));
    var registriesData := BuildRegistryData(b, registries, profile, jvm);
    assert Denotes(b.nodes, SRef(registriesData), t, |start|, |b.nodes|);
    HoldsBesidesStep(start, b.nodes, root, first, 1, "blocks", SRef(root));
    ghost var mid := b.nodes;
    ghost var es := mid[root].entries;
    assert es == start[root].entries;
    b.AddToObject(root, "registries", Ref(registriesData));
    HoldsBesidesStep(mid, b.nodes, root, first, 1, "registries", SRef(registriesData));
    PutFacts(es, "registries", SRef(registriesData));
    PutOther(es, "registries", SRef(registriesData), "blocks");
    DenotesFrame(mid, b.nodes, SRef(registriesData), t, |start|, |mid|);
    DenotesWiden(b.nodes, SRef(registriesData), t, |start|, |mid|, 1, |b.nodes|);
  }

  /** An object node holding itself under some key denotes no tree, over any window. */
  lemma {:induction false} SelfKeyHasNoTree(nodes: seq<Node>, h: Handle, k: string)
    requires h < |nodes| && nodes[h].ObjNode? && Get(nodes[h].entries, k) == Some(SRef(h))
    ensures forall t: Tree, lo: nat, hi: nat :: !Denotes(nodes, SRef(h), t, lo, hi)
  {
    var j := IndexOf(nodes[h].entries, k).value;
    forall t: Tree, lo: nat, hi: nat ensures !Denotes(nodes, SRef(h), t, lo, hi) {
      SelfReferenceHasNoTree(nodes, h, j, t, lo, hi);
    }
  }

  /**
   * `generateCombinedNbtDump` with the root taken through the builder, as
   * the JSON variant does: the root compound holds the enabled sections.
   */
  method CombinedNbtDump(profile: ProfileConfig, blocks: seq<BlockInfo>, registries: seq<RegistryData>, jvm: JvmText)
    returns (nodes: seq<Node>, root: Handle)
    ensures root == 0
    ensures Denotes(nodes, SRef(root), TObj(CombinedFields(profile, blocks, registries, jvm)), 0, |nodes|)
  {
    var b := new Builder.Nbt();
    root := b.CreateObject();
    AddSections(b, root, profile, blocks, registries, jvm);
    nodes := b.nodes;
  }

  /**
   * `generateCombinedDump`: the lower-cased format decides; "binary" and
   * any unknown format throw before a provider is asked for anything.
   */
  method GenerateCombinedDump(profile: ProfileConfig, blocks: seq<BlockInfo>, registries: seq<RegistryData>, jvm: JvmText)
    returns (r: DumpResult)
    ensures !Writable(profile.exportConfig.format) ==> r == Thrown(false)
    ensures Writable(profile.exportConfig.format) ==>
              r.Dumped? && Denotes(r.nodes, SRef(r.root), TObj(CombinedFields(profile, blocks, registries, jvm)), 0, |r.nodes|)
    ensures RouteOf(profile.exportConfig.format) == NbtFormat ==> r.Dumped? && r.root == 0
  {
    var route := RouteOf(profile.exportConfig.format);
    if route == BinaryFormat {
      return Thrown(false);
    }
    if route == JsonFormat {
      var nodes, root := CombinedJsonDump(profile, blocks, registries, jvm);
      r := Dumped(nodes, root);
    } else if route == NbtFormat {
      var nodes, root := CombinedNbtDump(profile, blocks, registries, jvm);
      r := Dumped(nodes, root);
    } else {
      r := Thrown(false);
    }
  }

  /**
   * `runSingleFileDump`: the file is the export file name, extended, in
   * the output directory; the result is a success exactly when the combined
   * dump was produced.
   */
  method RunSingleFileDump(profile: ProfileConfig, outputDir: string, blocks: seq<BlockInfo>,
                           registries: seq<RegistryData>, jvm: JvmText)
    returns (res: CommandResult, file: string, dump: DumpResult)
    ensures file == outputDir + "/" + WithExtension(profile.exportConfig.filename, profile.exportConfig.format)
    ensures dump.Dumped? <==> Writable(profile.exportConfig.format)
    ensures dump.Dumped? ==>
              Denotes(dump.nodes, SRef(dump.root), TObj(CombinedFields(profile, blocks, registries, jvm)), 0, |dump.nodes|)
    ensures res == if dump.Dumped? then SuccessResult(SingleFileDone + file) else ErrorResult(DumpFailed)
  {
    var filename := WithExtension(profile.exportConfig.filename, profile.exportConfig.format);
    file := outputDir + "/" + filename;
    dump := GenerateCombinedDump(profile, blocks, registries, jvm);
    if dump.Thrown? {
      return ErrorResult(DumpFailed), file, dump;
    }
    res := SuccessResult(SingleFileDone + file);
  }

  // ---------------------------------------------------------------------
  // The multi-file dump

  const SingleFileDone := "Data dump completed successfully! File saved to: "
  const DumpFailed := "Failed to run dump: "
  const NotInitialized := "Command handler not initialized!"
  const NoOutputs := "No valid output configurations found in profile"

  /** The configured outputs, in the profile's order; none when the section is missing. */
  function Categories(profile: ProfileConfig): seq<(string, MultiOutputConfig)>
  {
    if profile.multiOutput.Some? then profile.multiOutput.value else []
  }

  /** The single-file profile one output is dumped with: its format, its extended file name, and the profile's json and nbt settings; the caller adds the category's own section. */
  function TempProfile(profile: ProfileConfig, out: MultiOutputConfig): ProfileConfig
  {
    var settings := ExportConfig(out.format, true, WithExtension(out.file, out.format),
                               profile.exportConfig.json, profile.exportConfig.nbt);
    ProfileConfig(settings, None, None, None)
  }

  /**
   * A temporary profile is a single-file profile that routes like the
   * output's format, keeps the writer settings, and whose file name the
   * extension rule leaves alone.
   */
  lemma TempProfileShape(profile: ProfileConfig, out: MultiOutputConfig)
    ensures TempProfile(profile, out).exportConfig.singleFile
    ensures RouteOf(TempProfile(profile, out).exportConfig.format) == RouteOf(out.format)
    ensures TempProfile(profile, out).exportConfig.json == profile.exportConfig.json
    ensures TempProfile(profile, out).exportConfig.nbt == profile.exportConfig.nbt
    ensures var e := TempProfile(profile, out).exportConfig; WithExtension(e.filename, e.format) == e.filename
  {
    ExtensionRule(out.file, out.format);
  }

  datatype CategoryOutcome = Skipped | Succeeded | Failed

  /**
   * What one output comes to: "blocks" and "registries" are dumped and
   * succeed when their dump does not throw; any other category is skipped.
   */
  function Outcome(profile: ProfileConfig, category: string, out: MultiOutputConfig): CategoryOutcome
  {
    if category == "blocks" then
      (if Writable(out.format) && profile.blocks.Some? then Succeeded else Failed)
    else if category == "registries" then
      (if Writable(out.format) then Succeeded else Failed)
    else Skipped
  }

  /** What each configured output comes to, in order. */
  function Outcomes(profile: ProfileConfig, es: seq<(string, MultiOutputConfig)>): (os: seq<CategoryOutcome>)
    ensures |os| == |es|
    ensures forall i :: 0 <= i < |es| ==> os[i] == Outcome(profile, es[i].0, es[i].1)
  {
    seq(|es|, i requires 0 <= i < |es| => Outcome(profile, es[i].0, es[i].1))
  }

  /** The success and failure counts after the given outcomes. */
  function Tally(os: seq<CategoryOutcome>): (nat, nat)
  {
    if os == [] then (0, 0)
    else Count(Tally(os[..|os| - 1]), os[|os| - 1])
  }

  /** One more outcome on top of the counts. */
  function Count(counts: (nat, nat), o: CategoryOutcome): (nat, nat)
  {
    match o
    case Skipped => counts
    case Succeeded => (counts.0 + 1, counts.1)
    case Failed => (counts.0, counts.1 + 1)
  }

  /** A category is one the dump knows. */
  predicate Known(category: string)
  {
    category == "blocks" || category == "registries"
  }

  /** Exactly the known categories are dumped; the others are skipped. */
  lemma SkippedUnlessKnown(profile: ProfileConfig, category: string, out: MultiOutputConfig)
    ensures Outcome(profile, category, out) == Skipped <==> !Known(category)
  {
  }

  /** The positions among the first `n` outcomes that were counted. */
  function CountedAmong(os: seq<CategoryOutcome>, n: nat): set<nat>
    requires n <= |os|
  {
    set i: nat | i < n && os[i] != Skipped
  }

  /** The positions among the first `n` outcomes that failed. */
  function FailedAmong(os: seq<CategoryOutcome>, n: nat): set<nat>
    requires n <= |os|
  {
    set i: nat | i < n && os[i] == Failed
  }

  lemma {:induction false} CountedStep(os: seq<CategoryOutcome>, n: nat)
    requires 0 < n <= |os|
    ensures |CountedAmong(os, n)| == |CountedAmong(os, n - 1)| + (if os[n - 1] != Skipped then 1 else 0)
  {
    if os[n - 1] != Skipped {
      assert CountedAmong(os, n) == CountedAmong(os, n - 1) + {n - 1};
    } else {
      assert CountedAmong(os, n) == CountedAmong(os, n - 1);
    }
  }

  lemma {:induction false} FailedStep(os: seq<CategoryOutcome>, n: nat)
    requires 0 < n <= |os|
    ensures |FailedAmong(os, n)| == |FailedAmong(os, n - 1)| + (if os[n - 1] == Failed then 1 else 0)
  {
    if os[n - 1] == Failed {
      assert FailedAmong(os, n) == FailedAmong(os, n - 1) + {n - 1};
    } else {
      assert FailedAmong(os, n) == FailedAmong(os, n - 1);
    }
  }

  /** Every outcome but a skip is counted once, as a success or as a failure. */
  lemma {:induction false} TallyCountsAll(os: seq<CategoryOutcome>, n: nat)
    requires n <= |os|
    ensures Tally(os[..n]).0 + Tally(os[..n]).1 == |CountedAmong(os, n)|
  {
    if n > 0 {
      TallyCountsAll(os, n - 1);
      assert os[..n][..n - 1] == os[..n - 1];
      CountedStep(os, n);
    }
  }

  /** The failure count is the number of failed outcomes. */
  lemma {:induction false} TallyFailures(os: seq<CategoryOutcome>, n: nat)
    requires n <= |os|
    ensures Tally(os[..n]).1 == |FailedAmong(os, n)|
  {
    if n > 0 {
      TallyFailures(os, n - 1);
      assert os[..n][..n - 1] == os[..n - 1];
      FailedStep(os, n);
    }
  }

  /**
   * `runMultiFileDump`'s verdict: nothing counted is an error; any failure
   * is reported as a success "with errors", even when nothing succeeded;
   * otherwise a plain success.
   */
  function MultiOutcome(outputDir: string, successCount: nat, failCount: nat): CommandResult
  {
    if successCount == 0 && failCount == 0 then ErrorResult(NoOutputs)
    else if failCount > 0 then
      SuccessResult("Data dump completed with errors. Success: " + NatText(successCount)
                    + ", Failed: " + NatText(failCount) + ". Check logs for details.")
    else
      SuccessResult("Data dump completed successfully! Generated " + NatText(successCount) + " file(s) in: " + outputDir)
  }

  /** The verdict is an error exactly when nothing was counted, and a failure never makes it one. */
  lemma MultiOutcomeRule(outputDir: string, successCount: nat, failCount: nat)
    ensures MultiOutcome(outputDir, successCount, failCount).kind == Error <==> successCount == 0 && failCount == 0
    ensures MultiOutcome(outputDir, successCount, failCount).isSuccess <==> successCount + failCount > 0
    ensures Consistent(MultiOutcome(outputDir, successCount, failCount))
  {
  }

  /** A profile whose outputs all name unknown categories (or that has none) gets the error verdict. */
  lemma OnlyUnknownIsError(profile: ProfileConfig, outputDir: string)
    requires forall i :: 0 <= i < |Categories(profile)| ==> !Known(Categories(profile)[i].0)
    ensures var (s, f) := Tally(Outcomes(profile, Categories(profile))); MultiOutcome(outputDir, s, f) == ErrorResult(NoOutputs)
  {
    var os := Outcomes(profile, Categories(profile));
    TallyCountsAll(os, |os|);
    assert os[..|os|] == os;
    assert CountedAmong(os, |os|) == {};
  }

  /** A profile whose known outputs all fail still gets a success-typed verdict, as long as it has one. */
  lemma AllFailedIsSuccess(profile: ProfileConfig, outputDir: string, j: nat)
    requires j < |Categories(profile)| && Known(Categories(profile)[j].0)
    requires forall i :: 0 <= i < |Categories(profile)| ==> Outcome(profile, Categories(profile)[i].0, Categories(profile)[i].1) != Succeeded
    ensures var (s, f) := Tally(Outcomes(profile, Categories(profile)));
            s == 0 && f > 0 && MultiOutcome(outputDir, s, f).kind == ResultType.Success
  {
    var os := Outcomes(profile, Categories(profile));
    TallyCountsAll(os, |os|);
    TallyFailures(os, |os|);
    assert os[..|os|] == os;
    assert CountedAmong(os, |os|) == FailedAmong(os, |os|);
    assert j in CountedAmong(os, |os|);
  }

  /**
   * The body of `runMultiFileDump`'s loop for one output: "blocks" and
   * "registries" are dumped alone with the temporary profile carrying their
   * own section, and count as failed when the dump throws; any other
   * category is skipped.
   */
  method DumpCategory(profile: ProfileConfig, category: string, out: MultiOutputConfig, blocks: seq<BlockInfo>,
                      registries: seq<RegistryData>, jvm: JvmText)
    returns (outcome: CategoryOutcome)
    ensures outcome == Outcome(profile, category, out)
  {
    var tempProfile := TempProfile(profile, out);
    if category == "blocks" {
      var r := BlockDump.GenerateDump(tempProfile.(blocks := profile.blocks), blocks);
      outcome := if r.Thrown? then Failed else Succeeded;
    } else if category == "registries" {
      var r := RegistryDump.GenerateDump(tempProfile.(registries := profile.registries), registries, jvm);
      outcome := if r.Thrown? then Failed else Succeeded;
    } else {
      outcome := Skipped;
    }
  }

  /**
   * `runMultiFileDump`: each output is dumped alone with its temporary
   * profile; a dump that throws is counted as a failure and the loop goes
   * on; an unknown category is skipped without being counted.
   */
  method RunMultiFileDump(profile: ProfileConfig, outputDir: string, blocks: seq<BlockInfo>,
                          registries: seq<RegistryData>, jvm: JvmText)
    returns (res: CommandResult, successCount: nat, failCount: nat)
    ensures (successCount, failCount) == Tally(Outcomes(profile, Categories(profile)))
    ensures res == MultiOutcome(outputDir, successCount, failCount)
  {
    successCount, failCount := 0, 0;
    var es := Categories(profile);
    ghost var os := Outcomes(profile, es);
    for i := 0 to |es|
      invariant (successCount, failCount) == Tally(os[..i])
    {
      var outcome := DumpCategory(profile, es[i].0, es[i].1, blocks, registries, jvm);
      assert os[..i + 1][..i] == os[..i];
      if outcome == Failed {
        failCount := failCount + 1;
      } else if outcome == Succeeded {
        successCount := successCount + 1;
      }
    }
    assert os[..|es|] == os;
    res := MultiOutcome(outputDir, successCount, failCount);
  }

  // ---------------------------------------------------------------------
  // The commands

  /** The line `handleList` shows for one profile name. */
  function ProfileLine(name: string): string
  {
    "  \U{00A7}e" + name + "\U{00A7}r\n"
  }

  /** The lines `handleList` shows, one per profile name. */
  function ProfileLines(profiles: seq<string>): string
  {
    if profiles == [] then ""
    else ProfileLines(profiles[..|profiles| - 1]) + ProfileLine(profiles[|profiles| - 1])
  }

  /** The listing of a concatenation is the concatenation of the listings. */
  lemma {:induction false} ProfileLinesAppend(a: seq<string>, b: seq<string>)
    ensures ProfileLines(a + b) == ProfileLines(a) + ProfileLines(b)
    decreases |b|
  {
    if b != [] {
      var n := |b| - 1;
      assert (a + b)[..|a + b| - 1] == a + b[..n];
      ProfileLinesAppend(a, b[..n]);
    } else {
      assert a + b == a;
    }
  }

  /** Every profile name gets its own line in the listing, in order. */
  lemma {:induction false} ProfileListed(profiles: seq<string>, i: nat)
    requires i < |profiles|
    ensures ProfileLines(profiles) == ProfileLines(profiles[..i]) + ProfileLine(profiles[i]) + ProfileLines(profiles[i + 1..])
  {
    ProfileLinesSplit(profiles, i + 1);
    ProfileLinesSnoc(profiles, i);
  }

  /** The listing of all names is the listing of the first `n` followed by the listing of the rest. */
  lemma {:induction false} ProfileLinesSplit(profiles: seq<string>, n: nat)
    requires n <= |profiles|
    ensures ProfileLines(profiles) == ProfileLines(profiles[..n]) + ProfileLines(profiles[n..])
  {
    ProfileLinesAppend(profiles[..n], profiles[n..]);
    assert profiles[..n] + profiles[n..] == profiles;
  }

  /** The listing of the first `i + 1` names ends with the line of name `i`. */
  lemma {:induction false} ProfileLinesSnoc(profiles: seq<string>, i: nat)
    requires i < |profiles|
    ensures ProfileLines(profiles[..i + 1]) == ProfileLines(profiles[..i]) + ProfileLine(profiles[i])
  {
    assert profiles[..i + 1][..i] == profiles[..i];
  }

  const ListHeader := "\U{00A7}6\U{00A7}lAvailable Profiles:\U{00A7}r\n"
  const ListFooter := "\n\U{00A7}7Use '/datadump run <profile>' to execute a profile"
  const NoProfiles := "No profiles found. Run '/datadump reset' to create default profiles."
  const HelpText :=
    "\U{00A7}6\U{00A7}l=== Data Dump Command Help ===\U{00A7}r\n"
    + "\U{00A7}e/datadump run <profile>\U{00A7}r - Executes data dump using specified profile\n"
    + "\U{00A7}e/datadump list\U{00A7}r - Lists all available profiles\n"
    + "\U{00A7}e/datadump reset\U{00A7}r - Resets preset profiles to default values\n"
    + "\U{00A7}e/datadump help\U{00A7}r - Shows this help message\n"
    + "\U{00A7}7For more information, check the profile files in the profile directory."

  /** `handleHelp`: always the help text, as information. */
  function HandleHelp(): (r: CommandResult)
    ensures r.isSuccess && r.kind == Info && Consistent(r)
  {
    InfoResult(HelpText)
  }

  /** The part of `ConfigManager` the commands see: where the profiles live. */
  datatype ConfigManager = ConfigManager(profileDir: string)

  /** `PROFILE_DIR_NAME`: the profiles live in this subdirectory of the configuration directory. */
  const ProfileDirName := "datadump"

  /** `configDir.resolve(PROFILE_DIR_NAME)`, with `/` as the name separator. */
  function ProfileDirIn(configDir: string): (r: string)
    ensures |r| == |configDir| + 1 + |ProfileDirName|
    ensures r[..|configDir|] == configDir && r[|configDir|] == '/'
    ensures r[|configDir| + 1..] == ProfileDirName
  {
    configDir + "/" + ProfileDirName
  }

  class CommandHandler {
    /** The static `configManager`; `None` until `initialize`. */
    var configManager: Option<ConfigManager>

    constructor ()
      ensures configManager.None?
    {
      configManager := None;
    }

    /**
     * `initialize`: sets a configuration manager whose profile directory is
     * the "datadump" subdirectory of the given configuration directory.
     */
    method Initialize(configDir: string)
      modifies this
      ensures configManager == Some(ConfigManager(ProfileDirIn(configDir)))
    {
      configManager := Some(ConfigManager(ProfileDirIn(configDir)));
    }

    /**
     * `handleRun`: an error before initialisation or when the profile cannot
     * be loaded; otherwise the single-file or the multi-file dump's result.
     */
    method HandleRun(loaded: Option<ProfileConfig>, outputDir: string, blocks: seq<BlockInfo>,
                     registries: seq<RegistryData>, jvm: JvmText)
      returns (res: CommandResult)
      ensures configManager.None? ==> res == ErrorResult(NotInitialized)
      ensures configManager.Some? && loaded.None? ==> res.kind == Error
      ensures configManager.Some? && loaded.Some? && loaded.value.exportConfig.singleFile ==>
                (res.kind == ResultType.Success <==> Writable(loaded.value.exportConfig.format))
                && (res.kind == ResultType.Success || res.kind == Error)
      ensures configManager.Some? && loaded.Some? && !loaded.value.exportConfig.singleFile ==>
                var (s, f) := Tally(Outcomes(loaded.value, Categories(loaded.value))); res == MultiOutcome(outputDir, s, f)
      ensures Consistent(res)
    {
      if configManager.None? {
        return ErrorResult(NotInitialized);
      }
      if loaded.None? {
        return ErrorResult("Failed to run data dump: ");
      }
      var profile := loaded.value;
      if profile.exportConfig.singleFile {
        var file, dump;
        res, file, dump := RunSingleFileDump(profile, outputDir, blocks, registries, jvm);
      } else {
        var s, f;
        res, s, f := RunMultiFileDump(profile, outputDir, blocks, registries, jvm);
        MultiOutcomeRule(outputDir, s, f);
      }
    }

    /**
     * `handleList`: an error before initialisation; otherwise information,
     * a hint when there is no profile and else one line per profile between
     * a header and a footer.
     */
    method HandleList(profiles: seq<string>) returns (res: CommandResult)
      ensures configManager.None? ==> res == ErrorResult(NotInitialized)
      ensures configManager.Some? && profiles == [] ==> res == InfoResult(NoProfiles)
      ensures configManager.Some? && profiles != [] ==> res == InfoResult(ListHeader + ProfileLines(profiles) + ListFooter)
    {
      if configManager.None? {
        return ErrorResult(NotInitialized);
      }
      if profiles == [] {
        return InfoResult(NoProfiles);
      }
      var message := ListHeader;
      for i := 0 to |profiles|
        invariant message == ListHeader + ProfileLines(profiles[..i])
      {
        assert profiles[..i + 1][..i] == profiles[..i];
        message := message + "  \U{00A7}e" + profiles[i] + "\U{00A7}r\n";
        assert message == ListHeader + ProfileLines(profiles[..i]) + ProfileLine(profiles[i]);
      }
      assert profiles[..|profiles|] == profiles;
      message := message + ListFooter;
      res := InfoResult(message);
    }

    /** `handleReset`: an error before initialisation, otherwise a success naming the profile directory. */
    method HandleReset() returns (res: CommandResult)
      ensures configManager.None? ==> res == ErrorResult(NotInitialized)
      ensures configManager.Some? ==>
                res == SuccessResult("Profiles have been reset to defaults at: " + configManager.value.profileDir)
    {
      if configManager.None? {
        return ErrorResult(NotInitialized);
      }
      res := SuccessResult("Profiles have been reset to defaults at: " + configManager.value.profileDir);
    }
  }
}
