# MinecraftDataDump: the dual-target tree serialiser

MinecraftDataDump is a Minecraft mod. It dumps the game's blocks and registries to disk, either as JSON or as NBT (Minecraft's tagged binary format).
The tree-building code is shared between the two formats.
The orchestrators (`BlockDataDump.buildBlockData`, `RegistryDataDump.buildRegistryData` and the combined dumps in `CommandHandler`) build their tree through the `DataStructureBuilder` interface.
Two builders implement that interface:
- `JsonDataBuilder` makes a fresh Gson node on every call;
- `NbtDataBuilder` hands out the caller's root compound on its first `createObject` and fresh compounds afterwards.

Codec data taken from the game is first decoded from tags by `NbtConverter`. A type-directed encoder (`buildNestedData`, `addValueToObject`, `addValueToArray`) then writes it into a builder.
`CommandHandler` turns the `/datadump` commands into dumps and classifies their outcome as a `CommandResult`.

The model has these parts:

- **Nodes** (`nodes.dfy`, `filling.dfy`). Every object and array a builder creates is a node in an arena: a sequence of nodes indexed by handles.
  - An object node is an insertion-ordered map from keys to slots. An array node is a sequence of slots.
  - A slot is a string, an int, a boolean or a reference to another node.
  - The ghost predicate `Denotes` relates a handle to the tree it stands for: a `Tree` value of strings, ints, booleans, objects and arrays.
  - Every orchestrator is proved to leave its root denoting a tree given by a function of its inputs. The exception is the combined NBT dump as written, whose root contains itself (see Findings). The single-file command is modelled with the corrected combined NBT dump.
- **Builder** (`builder.dfy`). The class `Builder` covers both implementations.
  - Its fields are the node arena, a constant target (JSON, or NBT with its root compound) and `isFirstObjectCreation`.
  - Its methods are the surface the orchestrators use. Their contracts state the new arena exactly, including the values they silently ignore.
  - `Valid` keeps the invariant that an array never holds a nested array.
- **Decoder** (`nbt_converter.dfy`). `NbtConverter` is written as functions over a `Tag` datatype.
- **Encoder and orchestrators** (`value_encoder.dfy`, `registry_dump.dfy`, `block_dump.dfy`). These are methods on a `Builder`, with loops and their invariants. Each is specified by a function giving the tree it builds, and lemmas state the key shapes, orderings and inclusion rules of those trees.
- **Commands** (`command_handler.dfy`, `command_result.dfy`). These cover:
  - the extension rule and the format dispatch;
  - the combined dumps;
  - the multi-file counting loop and its outcome;
  - the list, reset and help commands.

  The static `configManager` is a field of a `CommandHandler` object.

Java `int`, `long`, `byte` and `short` are bounded subsets of `int` (`Int32`, `Int64`, `Int8`, `Int16`). `Long.intValue` is written out as `Low32`, which keeps the low 32 bits in two's complement.

## Model

Source paths are relative to the repository root.

| member | source | states |
|---|---|---|
| Builders.Builder.Json | common/src/main/java/com/tyzeron/datadump/builder/JsonDataBuilder.java:10-15 | A JSON builder starts with no nodes and never hands out a pre-existing root. |
| Builders.Builder.Nbt | common/src/main/java/com/tyzeron/datadump/builder/NbtDataBuilder.java:12-17 | A tag builder starts with the caller's empty root compound as node 0 and the one-shot flag set. |
| Builders.Builder.CreateObject | common/src/main/java/com/tyzeron/datadump/builder/NbtDataBuilder.java:20-28 | Behaviour on the first call with the flag set: returns the root compound by identity, adds no node and clears the flag. Behaviour on every other call, including every JSON call: appends one new empty object distinct from the root and leaves the flag alone. |
| Builders.Builder.CreateArray | common/src/main/java/com/tyzeron/datadump/builder/NbtDataBuilder.java:31-33 | Appends one new empty array and never touches the flag; JSON behaves the same (JsonDataBuilder.java 18-20). |
| Builders.Builder.AddToObject | common/src/main/java/com/tyzeron/datadump/builder/NbtDataBuilder.java:36-43 | A builder node is put under the key of the parent: it replaces an existing key in place or is appended. Every other node is unchanged. A non-node value leaves everything unchanged. JSON behaves the same (JsonDataBuilder.java 23-30). |
| Builders.Builder.AddToArray | common/src/main/java/com/tyzeron/datadump/builder/NbtDataBuilder.java:46-51 | Only an object node is appended to the array. An array or a non-node value leaves every node unchanged, so no array ever holds an array. JSON behaves the same (JsonDataBuilder.java 33-38). |
| Builders.Builder.AddStringProperty | common/src/main/java/com/tyzeron/datadump/builder/NbtDataBuilder.java:54-57 | Writes exactly one string slot under the key of the parent and changes no other node. |
| Builders.Builder.AddIntProperty | common/src/main/java/com/tyzeron/datadump/builder/NbtDataBuilder.java:60-63 | Writes exactly one int slot under the key of the parent and changes no other node. |
| Builders.Builder.AddBooleanProperty | common/src/main/java/com/tyzeron/datadump/builder/NbtDataBuilder.java:66-69 | Writes exactly one boolean slot under the key of the parent and changes no other node. |
| Builders.Builder.AddStringToArray | common/src/main/java/com/tyzeron/datadump/builder/NbtDataBuilder.java:72-75 | Appends exactly one string at the end of the array. Earlier elements and every other node are unchanged. |
| NbtConverter.ConvertToMap | common/src/main/java/com/tyzeron/datadump/util/NbtConverter.java:18-27 | A compound gives the map `convertToObject` gives for it. Any other tag gives a one-entry map whose only key is "value", holding the tag's conversion. |
| NbtConverter.ListToList | common/src/main/java/com/tyzeron/datadump/util/NbtConverter.java:71-77 | The list has the source's length, and element i is the conversion of source element i. |
| NbtConverter.CompoundToMapIsPresent | common/src/main/java/com/tyzeron/datadump/util/NbtConverter.java:60-69 | A compound's map is its entries in key-iteration order with the null-valued keys dropped and each value converted. |
| NbtConverter.PresentKeys | common/src/main/java/com/tyzeron/datadump/util/NbtConverter.java:60-69 | Every key of a converted compound is a key of the compound. |
| NbtConverter.ConvertToMapKeys | common/src/main/java/com/tyzeron/datadump/util/NbtConverter.java:18-20 | A compound with no null values keeps exactly its keys, in order. |
| NbtConverter.DecodeNoNullOrBool | common/src/main/java/com/tyzeron/datadump/util/NbtConverter.java:32-77 | Decoding never yields null or a boolean, at any depth. |
| NbtConverter.DecodeKeepsWidth | common/src/main/java/com/tyzeron/datadump/util/NbtConverter.java:43-57 | Each scalar tag decodes to a boxed value of its own width, so nothing is narrowed at decode time. A string or unrecognised tag decodes to its string form. |
| ValueEncoder.BuildNested | common/src/main/java/com/tyzeron/datadump/RegistryDataDump.java:134-158 | A map becomes a new object holding its encoded entries, and a collection becomes a new array holding its kept elements. Any other value is handed back with no node created. |
| ValueEncoder.BuildObject | common/src/main/java/com/tyzeron/datadump/RegistryDataDump.java:135-143 | The new object holds each entry, encoded in object context and put in map iteration order. |
| ValueEncoder.AddEntry | common/src/main/java/com/tyzeron/datadump/RegistryDataDump.java:139-141 | One pass of the map loop: the object that held the first i entries now holds the first i + 1, with earlier nodes kept. |
| ValueEncoder.BuildArray | common/src/main/java/com/tyzeron/datadump/RegistryDataDump.java:144-151 | The new array holds each element encoded in array context, in order, with nested collections dropped. |
| ValueEncoder.AddItem | common/src/main/java/com/tyzeron/datadump/RegistryDataDump.java:147-149 | One pass of the collection loop: the array that held the encodings of the first i elements now holds those of the first i + 1, with earlier nodes kept. |
| ValueEncoder.AddValueToObject | common/src/main/java/com/tyzeron/datadump/RegistryDataDump.java:163-193 | The parent gains the key with the object-context encoding of the value, and no other existing node changes. |
| ValueEncoder.AddMapToObject | common/src/main/java/com/tyzeron/datadump/RegistryDataDump.java:169-172 | A nested map is put under the key as the object built from it. |
| ValueEncoder.AddListToObject | common/src/main/java/com/tyzeron/datadump/RegistryDataDump.java:173-176 | A nested collection is put under the key as the array built from it. |
| ValueEncoder.AddValueToArray | common/src/main/java/com/tyzeron/datadump/RegistryDataDump.java:198-210 | The array gains the array-context encoding of the value at its end, or nothing for a nested collection. |
| ValueEncoder.AddMapToArray | common/src/main/java/com/tyzeron/datadump/RegistryDataDump.java:203-205 | A map is appended as the object built from it. |
| ValueEncoder.AddListToArray | common/src/main/java/com/tyzeron/datadump/RegistryDataDump.java:203-205 | A nested collection is built and then dropped by `addToArray`, leaving the array as it was. |
| ValueEncoder.Text | common/src/main/java/com/tyzeron/datadump/RegistryDataDump.java:206-209 | An integer primitive in an array becomes its decimal text, and a boolean becomes "true" or "false". |
| ValueEncoder.ArrayItemsShape | common/src/main/java/com/tyzeron/datadump/RegistryDataDump.java:144-151 | An encoded array is never longer than its source and never holds an array. Without nested collections it keeps every element, in order. |
| ValueEncoder.ObjectEntriesDistinct | common/src/main/java/com/tyzeron/datadump/RegistryDataDump.java:139-141 | A map with distinct keys is encoded with the same keys in the same order, each value encoded in place. |
| ValueEncoder.EncodedNoArrayInArray | common/src/main/java/com/tyzeron/datadump/RegistryDataDump.java:198-210 | No encoded value, at any depth, has an array directly inside an array. |
| ValueEncoder.LongNarrowing | common/src/main/java/com/tyzeron/datadump/RegistryDataDump.java:177-179 | A long becomes the int of its low 32 bits. The number survives exactly when the long is in int range. |
| ValueEncoder.FloatsAsText | common/src/main/java/com/tyzeron/datadump/RegistryDataDump.java:182-185 | A float or double becomes a string property, or a string element in an array, holding its text; never a number. |
| ValueEncoder.EmptyContainers | common/src/main/java/com/tyzeron/datadump/RegistryDataDump.java:134-151 | An empty map or collection becomes an empty object or array, never an omitted key. |
| RegistryDump.EntryTrees | common/src/main/java/com/tyzeron/datadump/RegistryDataDump.java:94-115 | There is one entry object per provider entry, in provider order. |
| RegistryDump.RegistryPuts | common/src/main/java/com/tyzeron/datadump/RegistryDataDump.java:85-120 | Each registry is put under its identifier as its registry object, one put per registry in iteration order. |
| RegistryDump.BuildEntry | common/src/main/java/com/tyzeron/datadump/RegistryDataDump.java:95-111 | Builds one new object denoting the entry tree: name, id and the optional element. |
| RegistryDump.AddElement | common/src/main/java/com/tyzeron/datadump/RegistryDataDump.java:104-111 | The entry object gains "element" exactly when codec is on and the encoded map is non-null and non-empty. |
| RegistryDump.BuildEntries | common/src/main/java/com/tyzeron/datadump/RegistryDataDump.java:92-115 | Builds one new array denoting the registry's entry objects in order. |
| RegistryDump.BuildRegistry | common/src/main/java/com/tyzeron/datadump/RegistryDataDump.java:86-117 | Builds one new object denoting `{"type": id, "value": [entries]}`. |
| RegistryDump.BuildRegistryData | common/src/main/java/com/tyzeron/datadump/RegistryDataDump.java:70-128 | The root is the builder's first object: the tag builder's root compound, or else a new node. Only the root among the existing nodes changes. Its fields denote the registries sorted by identifier and put under their identifiers. |
| RegistryDump.GenerateDump | common/src/main/java/com/tyzeron/datadump/RegistryDataDump.java:34-65 | "binary" in any case throws before the provider is called. Any other unknown format throws after it. "json" and "nbt" produce the registry tree, rooted at the root compound for NBT. |
| RegistryDump.RegistriesSorted | common/src/main/java/com/tyzeron/datadump/RegistryDataDump.java:81-85 | The root's keys are in strictly ascending `String.compareTo` order, whatever the provider order. |
| RegistryDump.RegistriesKeys | common/src/main/java/com/tyzeron/datadump/RegistryDataDump.java:85-120 | The root has a key exactly when some registry has that identifier. |
| RegistryDump.RegistryLastWins | common/src/main/java/com/tyzeron/datadump/RegistryDataDump.java:81-120 | The value under an identifier is the object of the last registry with that identifier in provider order, because the sort is stable. |
| RegistryDump.LastSorted | common/src/main/java/com/tyzeron/datadump/RegistryDataDump.java:81-82 | After the stable sort, the last registry with an identifier is followed by no other with the same identifier. |
| RegistryDump.EntryHead | common/src/main/java/com/tyzeron/datadump/RegistryDataDump.java:98-101 | Every entry object starts with "name" (its identifier) and "id" (its raw id). |
| RegistryDump.EntryElement | common/src/main/java/com/tyzeron/datadump/RegistryDataDump.java:73-111 | "element" is present if and only if the profile's registries config exists with codec on and the encoded map is non-null and non-empty. It then holds the encoded map. |
| BlockDump.ValueItems | common/src/main/java/com/tyzeron/datadump/BlockDataDump.java:81-83 | A property's values array holds its possible values as strings, in order. |
| BlockDump.PropertyPuts | common/src/main/java/com/tyzeron/datadump/BlockDataDump.java:79-85 | One put per property, of its name and its values array, in order. |
| BlockDump.StatePropertyPuts | common/src/main/java/com/tyzeron/datadump/BlockDataDump.java:102-104 | One string put per state property, in the map's order. |
| BlockDump.StateTrees | common/src/main/java/com/tyzeron/datadump/BlockDataDump.java:93-114 | There is one state object per state, in provider order. |
| BlockDump.BlockPuts | common/src/main/java/com/tyzeron/datadump/BlockDataDump.java:72-120 | One put per block, of its identifier and its block object, in provider order. |
| BlockDump.BuildValues | common/src/main/java/com/tyzeron/datadump/BlockDataDump.java:80-83 | Builds one new array denoting the property's values. |
| BlockDump.BuildProperties | common/src/main/java/com/tyzeron/datadump/BlockDataDump.java:77-85 | Builds one new object denoting the properties, each put under its name. |
| BlockDump.AddProperty | common/src/main/java/com/tyzeron/datadump/BlockDataDump.java:79-85 | One pass of the property loop puts the values array under the property's name and changes no other existing node. |
| BlockDump.BuildStateProperties | common/src/main/java/com/tyzeron/datadump/BlockDataDump.java:101-104 | Builds one new object denoting the state's property map. |
| BlockDump.AddStateProperty | common/src/main/java/com/tyzeron/datadump/BlockDataDump.java:102-104 | One pass of the property loop: the object that held the first i properties now holds the first i + 1. |
| BlockDump.BuildState | common/src/main/java/com/tyzeron/datadump/BlockDataDump.java:94-111 | Builds one new object denoting the state tree. |
| BlockDump.AddStateProperties | common/src/main/java/com/tyzeron/datadump/BlockDataDump.java:100-106 | The state object gains "properties" exactly when the state's map is non-empty. |
| BlockDump.AddDefaultMark | common/src/main/java/com/tyzeron/datadump/BlockDataDump.java:109-111 | The state object gains "default" = true exactly for the default state. |
| BlockDump.BuildStates | common/src/main/java/com/tyzeron/datadump/BlockDataDump.java:92-114 | Builds one new array denoting the state objects in order. |
| BlockDump.BuildBlock | common/src/main/java/com/tyzeron/datadump/BlockDataDump.java:73-117 | Builds one new object denoting the block tree for the profile's flags. |
| BlockDump.AddBlockProperties | common/src/main/java/com/tyzeron/datadump/BlockDataDump.java:76-88 | The block object gains "properties" exactly when the properties flag is on and the block has properties. |
| BlockDump.AddBlockStates | common/src/main/java/com/tyzeron/datadump/BlockDataDump.java:91-117 | The block object gains "states" exactly when the states flag is on. |
| BlockDump.CollectBlocks | common/src/main/java/com/tyzeron/datadump/BlockDataDump.java:66-120 | The `TreeMap` filled by the first loop maps each identifier, in sorted order, to a node denoting the block's tree. A later block with the same identifier replaces the earlier one. |
| BlockDump.RefEntries | common/src/main/java/com/tyzeron/datadump/BlockDataDump.java:123-125 | The root's entries are the map's entries in order, as references. |
| BlockDump.CopyToRoot | common/src/main/java/com/tyzeron/datadump/BlockDataDump.java:123-125 | The second loop fills the empty root with the sorted map's entries and changes no other node. |
| BlockDump.BuildBlockData | common/src/main/java/com/tyzeron/datadump/BlockDataDump.java:64-128 | The root is the builder's first object: the tag builder's root compound, or else a new node. No other existing node changes. The root denotes the blocks tree. |
| BlockDump.GenerateDump | common/src/main/java/com/tyzeron/datadump/BlockDataDump.java:34-59 | "binary" in any case throws before the provider is called, and any other unknown format throws after it. "json" and "nbt" produce the blocks tree, rooted at the root compound for NBT. A profile without a blocks section throws. |
| BlockDump.BlocksKeys | common/src/main/java/com/tyzeron/datadump/BlockDataDump.java:66-125 | The root's keys are strictly ascending, and a key is present exactly when some block has that identifier. |
| BlockDump.BlockLastWins | common/src/main/java/com/tyzeron/datadump/BlockDataDump.java:119 | The value under an identifier is the object of the last block with that identifier. |
| BlockDump.BlockPropertiesPresent | common/src/main/java/com/tyzeron/datadump/BlockDataDump.java:76-88 | "properties" is present if and only if the flag is on and the block has a property. It then maps each name to its values array. |
| BlockDump.PropertiesObject | common/src/main/java/com/tyzeron/datadump/BlockDataDump.java:79-85 | The properties object has a key exactly for each property name. The last property of a name gives its possible values in order. |
| BlockDump.BlockStatesPresent | common/src/main/java/com/tyzeron/datadump/BlockDataDump.java:91-117 | "states" is present if and only if the flag is on, even for a block with no states. It then holds one object per state, in order. |
| BlockDump.StateId | common/src/main/java/com/tyzeron/datadump/BlockDataDump.java:97 | Every state object starts with the int "id" of the state. |
| BlockDump.StateKeys | common/src/main/java/com/tyzeron/datadump/BlockDataDump.java:94-111 | A state object's keys are exactly "id", then "properties" when the map is non-empty, then "default" for the default state. |
| BlockDump.StateOptionalFields | common/src/main/java/com/tyzeron/datadump/BlockDataDump.java:100-111 | "properties" is present if and only if the state has properties, and "default" if and only if it is the default state. |
| BlockDump.StateDefaultTrue | common/src/main/java/com/tyzeron/datadump/BlockDataDump.java:109-111 | "default" is always true, never false. |
| BlockDump.FlagsOff | common/src/main/java/com/tyzeron/datadump/BlockDataDump.java:73-119 | With both flags off, every block maps to an empty object. |
| Entities.NoEncodedData | common/src/main/java/com/tyzeron/datadump/abstraction/registry/RegistryEntryData.java:37-39 | `hasEncodedData` is true if and only if the encoded map is non-null and non-empty. A null map, as passed when encoding failed, gives false. |
| CommandResults.SuccessResult | common/src/main/java/com/tyzeron/datadump/command/CommandResult.java:31-33 | `success(m)` is a success of type SUCCESS with message m. |
| CommandResults.ErrorResult | common/src/main/java/com/tyzeron/datadump/command/CommandResult.java:35-37 | `error(m)` is not a success, has type ERROR and message m. |
| CommandResults.InfoResult | common/src/main/java/com/tyzeron/datadump/command/CommandResult.java:39-41 | `info(m)` is a success of type INFO with message m. |
| CommandResults.FactoryResultsConsistent | common/src/main/java/com/tyzeron/datadump/command/CommandResult.java:13-47 | With the constructor private, the results that can exist are exactly those that claim success if and only if their type is not ERROR. |
| Dumps.RouteOf | common/src/main/java/com/tyzeron/datadump/command/CommandHandler.java:195-208 | The lower-cased format is "binary", "json", "nbt" or unknown, each if and only if it equals that name ignoring case. |
| Commands.ExtensionRule | common/src/main/java/com/tyzeron/datadump/command/CommandHandler.java:80-86 | A name without '.' gains an extension if and only if the format is json or nbt ignoring case. The original name is always a prefix, and the rule is idempotent. The same rule appears at lines 128-134. |
| Commands.SectionsShape | common/src/main/java/com/tyzeron/datadump/command/CommandHandler.java:219-236 | The combined root has "blocks" and "registries" exactly for the sections present, each holding its tree. |
| Commands.CombinedSections | common/src/main/java/com/tyzeron/datadump/command/CommandHandler.java:219-236 | "blocks" is present only when the blocks config is present, and "registries" only when the registries config is. Each holds that dump's tree. |
| Commands.AddSections | common/src/main/java/com/tyzeron/datadump/command/CommandHandler.java:216-238 | The combined root, made by the builder, denotes the combined tree. |
| Commands.AddBlocksSection | common/src/main/java/com/tyzeron/datadump/command/CommandHandler.java:219-226 | The root holds "blocks" exactly when the profile has a blocks section. |
| Commands.AddRegistriesSection | common/src/main/java/com/tyzeron/datadump/command/CommandHandler.java:229-236 | The root gains "registries" exactly when the profile has a registries section. |
| Commands.PutRegistries | common/src/main/java/com/tyzeron/datadump/command/CommandHandler.java:233-235 | The registry tree is built in new nodes and the root gains it under "registries", after the fields it already had. |
| Commands.CombinedJsonDump | common/src/main/java/com/tyzeron/datadump/command/CommandHandler.java:214-246 | The tree handed to the writer is the combined tree. |
| Commands.CombinedNbtDumpAsWritten | common/src/main/java/com/tyzeron/datadump/command/CommandHandler.java:251-274 | As written, the root compound holds itself under "blocks", or under "registries" when there is no blocks section, and then denotes no tree. On every other key it holds exactly the fields of the first section built, written straight into it. With both sections, "registries" holds the registry tree. Without sections it stays the empty compound. |
| Commands.AddRegistriesBesideSelf | common/src/main/java/com/tyzeron/datadump/command/CommandHandler.java:266-273 | After the blocks step, the registry tree is built in new nodes and put under "registries". The self-reference under "blocks" and the root's other fields stay. |
| Commands.SelfKeyHasNoTree | common/src/main/java/com/tyzeron/datadump/builder/NbtDataBuilder.java:23-26 | A compound that holds itself under a key denotes no finite tree. |
| Commands.CombinedNbtDump | common/src/main/java/com/tyzeron/datadump/command/CommandHandler.java:251-282 | With the root obtained through the builder, the root compound denotes the combined tree. |
| Commands.GenerateCombinedDump | common/src/main/java/com/tyzeron/datadump/command/CommandHandler.java:194-209 | "binary" and unknown formats throw before any provider is fetched. "json" produces the combined tree. "nbt" produces the tree of the corrected combined NBT dump, rooted at node 0 (see Findings and Left out). |
| Commands.RunSingleFileDump | common/src/main/java/com/tyzeron/datadump/command/CommandHandler.java:73-108 | The output file is the directory plus the name with its extension rule applied. The result is a success naming the file exactly when the format is writable, and an error otherwise. A produced dump holds the combined tree, with "nbt" following the corrected combined dump (see Left out). |
| Commands.TempProfileShape | common/src/main/java/com/tyzeron/datadump/command/CommandHandler.java:128-148 | A category's temporary profile is single-file with the category's format and extended file name, and it copies the json and nbt settings. |
| Commands.Outcomes | common/src/main/java/com/tyzeron/datadump/command/CommandHandler.java:120-169 | There is one outcome per configured category, in order. |
| Commands.SkippedUnlessKnown | common/src/main/java/com/tyzeron/datadump/command/CommandHandler.java:153-163 | A category is skipped, counted neither as success nor as failure, exactly when it is neither "blocks" nor "registries". |
| Commands.TallyCountsAll | common/src/main/java/com/tyzeron/datadump/command/CommandHandler.java:116-169 | Successes plus failures is the number of categories that were not skipped. |
| Commands.TallyFailures | common/src/main/java/com/tyzeron/datadump/command/CommandHandler.java:164-167 | The failure count is the number of categories whose dump threw, and the loop goes on after each. |
| Commands.DumpCategory | common/src/main/java/com/tyzeron/datadump/command/CommandHandler.java:152-167 | One pass of the category loop: its outcome is success, failure or skip by the category's rule. |
| Commands.RunMultiFileDump | common/src/main/java/com/tyzeron/datadump/command/CommandHandler.java:113-189 | The counts are the tally of all the category outcomes, and the result is the outcome rule applied to them. |
| Commands.MultiOutcomeRule | common/src/main/java/com/tyzeron/datadump/command/CommandHandler.java:171-184 | The multi-file result is an error if and only if nothing was counted. Otherwise it is a success, with errors or without. |
| Commands.OnlyUnknownIsError | common/src/main/java/com/tyzeron/datadump/command/CommandHandler.java:171-174 | A profile whose categories are all unknown gives the "no valid output" error. |
| Commands.AllFailedIsSuccess | common/src/main/java/com/tyzeron/datadump/command/CommandHandler.java:175-180 | Even when every known category failed, the result is a success-typed "completed with errors". |
| Commands.ProfileListed | common/src/main/java/com/tyzeron/datadump/command/CommandHandler.java:297-304 | Every profile appears as its own line, between the lines of those before and after it. |
| Commands.ProfileLinesAppend | common/src/main/java/com/tyzeron/datadump/command/CommandHandler.java:297-304 | The listing of two lists is the listing of the first followed by the listing of the second. |
| Commands.HandleHelp | common/src/main/java/com/tyzeron/datadump/command/CommandHandler.java:331-339 | Help is a consistent info result. |
| Commands.CommandHandler.constructor | common/src/main/java/com/tyzeron/datadump/command/CommandHandler.java:36 | The handler starts uninitialised. |
| Commands.ProfileDirIn | common/src/main/java/com/tyzeron/datadump/config/ConfigManager.java:27-29 | The profile directory is the configuration directory followed by a separator and "datadump": it starts with the configuration directory and ends with the subdirectory name. |
| Commands.CommandHandler.Initialize | common/src/main/java/com/tyzeron/datadump/command/CommandHandler.java:41-45 | After `initialize` the handler has a config manager whose profile directory is the "datadump" subdirectory of the given configuration directory. |
| Commands.CommandHandler.HandleRun | common/src/main/java/com/tyzeron/datadump/command/CommandHandler.java:50-68 | Uninitialised gives the error. A profile that cannot be loaded gives an error. Single-file mode succeeds if and only if the format is writable, with "nbt" following the corrected combined dump (see Left out). Multi-file mode gives the outcome rule. The result is always consistent. |
| Commands.CommandHandler.HandleList | common/src/main/java/com/tyzeron/datadump/command/CommandHandler.java:287-309 | Uninitialised gives the error. No profiles gives an info hint. Otherwise the header, one line per profile in order, and the footer. |
| Commands.CommandHandler.HandleReset | common/src/main/java/com/tyzeron/datadump/command/CommandHandler.java:314-326 | Uninitialised gives the error. Otherwise a success naming the profile directory. |

## Left out

- Writing files is not modelled: Gson serialisation, `NbtWriter.writeNbt`, compression, directory creation and the pretty or compressed flags. The model stops at the in-memory tree handed to the writer. A writer that throws is therefore never modelled, and in multi-file mode a category fails only by the rules of its dump.
- NBT compound key order on disk is decided by the platform tag classes. These are not part of this model: a compound is modelled as insertion-ordered, with a put on an existing key replacing its value.
- The block and registry providers are given as sequences of input records. The encoded codec data of an entry is an optional map, `None` where the Java value is null. Block and registry enumeration and codec lookup are not modelled.
- `PlatformHelper`'s global providers and writer are parameters.
- `ConfigManager`'s TOML parsing, `initializeProfiles` and file copying are I/O. `loadProfile` is a parameter `loaded`, with `None` when it throws or when the profile has no `[export]` table. `listProfiles` is a parameter `profiles`. `ProfileConfig` is a record.
- Commands.ProfileDirIn: `Path.resolve` is modelled as joining with `/`. Separator normalisation, such as a configuration directory that already ends in a separator, is not modelled.
- Entities.ProfileConfig: `exportConfig` is never absent. A profile file without an `[export]` table leaves the Java field null, and `handleRun` then fails with a null pointer exception at CommandHandler.java:59, which it returns as the "Failed to run data dump: " error. The model represents such a profile by `loaded == None`, which gives the same error from `HandleRun`.
- The output directory is a parameter, and "/" stands for the platform path separator. Absolute paths are not modelled.
- `Float.toString` and `Double.toString`, and the `toString` of other objects such as typed arrays, are given by a parameter `jvm`. Only where this text goes is stated.
- Logging and the logging-only counters in `buildRegistryData` are not modelled.
- Commands.CommandHandler.HandleRun: an exception's message is not modelled. The error for a profile that cannot be loaded carries only its fixed prefix, and `RunSingleFileDump` reports `DumpFailed` without the message.
- Null format or filename strings, which would throw in `toLowerCase`/`contains`, are not modelled.
- The interface's typed setters (byte, short, long, float, double and the array variants) are declared but not implemented by either builder, and no orchestrator calls them. They are not modelled.
- NbtConverter.ConvertToMap: each tag has exactly one kind, so the order in which the kind predicates are tried is kept in `ConvertToObject` but cannot be observed. Platform tag classes that answer several predicates are not part of this model.
- The command registration entry points (the Fabric and Forge mod classes) are not part of this model.
- Commands.GenerateCombinedDump: the "nbt" branch dispatches to the corrected `CombinedNbtDump` of Findings, not to the dump as written. As written, the writer receives a root compound that contains itself (`CombinedNbtDumpAsWritten`).
- Commands.RunSingleFileDump: a single-file "nbt" dump is the corrected combined dump. As written, the compound handed to the writer contains itself, and what the writer then does with it is not modelled. So "success exactly when the format is writable" is the corrected behaviour for "nbt" with a section.
- Commands.CommandHandler.HandleRun: single-file "nbt" success follows the corrected combined dump, as for `RunSingleFileDump`.
- Dumps.RouteOf: `toLowerCase` and `equalsIgnoreCase` are modelled with ASCII case mapping in a locale without special rules. Java lower-cases with the default locale: under a Turkish locale "BINARY" becomes "bınary", which Java then treats as an unknown format. Java's `equalsIgnoreCase` also folds non-ASCII letters such as U+017F (long s) to ASCII ones. Neither is modelled.
- Commands.ExtensionRule: the "extended exactly when writable" clause holds for the model's ASCII case mapping. In Java it holds only for formats whose letters are ASCII, in a locale without special rules. For example, "jſon" (with U+017F) gets ".json" in Java but is routed as unknown.
- JavaLang.LexLess: keys are ordered by Unicode scalar values. Java's `String.compareTo` compares UTF-16 code units, so a key with a character above U+FFFF sorts before one with a character in U+E000 to U+FFFF in Java, and after it in the model. The two orders agree on keys within the Basic Multilingual Plane.

Behaviour worth noting:
- Only "binary" is rejected before the provider is called. Any other unknown format is rejected by the per-dump `generateDump` after the provider fetch; the combined dump rejects both before.
- Longs and other numbers are narrowed to 32 bits in object context. Numbers in arrays become text, and so do booleans in arrays: they become the strings "true" and "false", not booleans. So integers and booleans are not preserved exactly through the encoder.
- The one-shot root flag is the boolean field `isFirstObjectCreation` of the NBT builder, set at construction and cleared by the first `createObject`.

## Findings

| source | as written | input that shows it | evidently intended | confidence | as-written member | corrected member |
|---|---|---|---|---|---|---|
| common/src/main/java/com/tyzeron/datadump/command/CommandHandler.java:251-274 | The combined NBT dump never asks the builder for its root. The first tree built, the blocks tree (or the registries tree when there is no blocks section), calls `createObject` first and so receives the root compound itself (NbtDataBuilder.java 23-26). It is then put into the root under "blocks" (or "registries"), so the root holds itself. | Any profile in "nbt" format, in single-file mode, with a blocks or a registries section. | Obtain the root with `builder.createObject()` before building the sections, as the JSON path does at line 216. Then "blocks" and "registries" are nested compounds under the root. | not executed | Commands.CombinedNbtDumpAsWritten | Commands.CombinedNbtDump |
