/**
 * The input records the dumps walk (blocks, their properties and states,
 * registries and their entries) and the profile that selects what goes
 * into a dump. All of them are immutable in the original, so they are
 * values here; a `Map` field is its entries in iteration order and a
 * nullable field is an `Option`.
 */
module Entities {
  import opened Wrappers
  import opened JavaLang
  import opened Values

  /** `PropertyInfo`: a block property and the values it can take, in order. */
  datatype PropertyInfo = PropertyInfo(name: string, possibleValues: seq<string>)

  /** `BlockStateInfo`: one state of a block, with its property assignment. */
  datatype BlockStateInfo = BlockStateInfo(stateId: Int32, properties: seq<(string, string)>, isDefault: bool)

  /** `BlockInfo`: a registered block. */
  datatype BlockInfo = BlockInfo(identifier: string, properties: seq<PropertyInfo>, states: seq<BlockStateInfo>)

  /** `RegistryEntryData`: an entry's name, protocol id and encoded element (`None` when encoding failed). */
  datatype RegistryEntryData = RegistryEntryData(identifier: string, rawId: Int32, encodedData: Option<seq<(string, Data)>>)
  {
    /** `hasEncodedData`: there is an encoded map and it is not empty. */
    predicate HasEncodedData()
    {
      encodedData.Some? && |encodedData.value| > 0
    }
  }

  /** `RegistryData`: a registry's identifier and its entries, in provider order. */
  datatype RegistryData = RegistryData(registryId: string, entries: seq<RegistryEntryData>)

  // ---------------------------------------------------------------------
  // Profile

  datatype JsonConfig = JsonConfig(pretty: bool)
  datatype NbtConfig = NbtConfig(compressed: bool)
  datatype BlocksConfig = BlocksConfig(properties: bool, states: bool)
  datatype RegistriesConfig = RegistriesConfig(codec: bool)
  datatype MultiOutputConfig = MultiOutputConfig(file: string, format: string)

  datatype ExportConfig = ExportConfig(
    format: string,
    singleFile: bool,
    filename: string,
    json: Option<JsonConfig>,
    nbt: Option<NbtConfig>)

  /** A profile; a section missing from the profile file is `None`, as the Java field is null. */
  datatype ProfileConfig = ProfileConfig(
    exportConfig: ExportConfig,
    blocks: Option<BlocksConfig>,
    registries: Option<RegistriesConfig>,
    multiOutput: Option<seq<(string, MultiOutputConfig)>>)

  // ---------------------------------------------------------------------
  // Properties

  /** An entry has encoded data exactly when its encoding succeeded with a non-empty map. */
  lemma NoEncodedData(e: RegistryEntryData)
    ensures e.HasEncodedData() <==> e.encodedData.Some? && e.encodedData.value != []
    ensures e.encodedData.None? ==> !e.HasEncodedData()
    ensures e.encodedData == Some([]) ==> !e.HasEncodedData()
    ensures e.HasEncodedData() ==> e.encodedData.Some? && e.encodedData.value != []
  {
  }
}
