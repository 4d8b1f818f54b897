/**
 * What the dump entry points share: the format string of a profile,
 * lower-cased and routed to one of the two writers (or refused), and the
 * outcome of a dump, which is either an exception (and whether the data
 * provider had been asked for its data when it was thrown) or the nodes
 * handed to the writer with the handle of the root.
 */
module Dumps {
  import opened JavaLang
  import opened Nodes

  datatype Route = BinaryFormat | JsonFormat | NbtFormat | UnknownFormat

  /** `format.toLowerCase()` compared with "binary", "json" and "nbt", in that order. */
  function RouteOf(format: string): (r: Route)
    ensures r == BinaryFormat <==> EqualsIgnoreCase(format, "binary")
    ensures r == JsonFormat <==> EqualsIgnoreCase(format, "json")
    ensures r == NbtFormat <==> EqualsIgnoreCase(format, "nbt")
  {
    EqualsIgnoreCaseLowered(format, "binary");
    EqualsIgnoreCaseLowered(format, "json");
    EqualsIgnoreCaseLowered(format, "nbt");
    var f := ToLower(format);
    if f == "binary" then BinaryFormat
    else if f == "json" then JsonFormat
    else if f == "nbt" then NbtFormat
    else UnknownFormat
  }

  datatype DumpResult =
      /** An `IOException` or other exception escaped; `afterFetch` says whether the provider had been called. */
    | Thrown(afterFetch: bool)
      /** The nodes and root that reach the writer. */
    | Dumped(nodes: seq<Node>, root: Handle)
}
