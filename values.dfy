/**
 * The dynamically-typed values the registry dump walks: what
 * `NbtConverter` produces (maps, lists, boxed scalars, primitive arrays)
 * plus the few other Java values `addValueToObject` has a branch for
 * (`null`, `Boolean`, other `Number` classes).
 */
module Values {
  import opened JavaLang

  datatype Data =
    | DNull
    | DString(str: string)
    | DBool(boolValue: bool)
    | DByte(byteValue: Int8)
    | DShort(shortValue: Int16)
    | DInt(intValue: Int32)
    | DLong(longValue: Int64)
      /** A `Float`, by its IEEE 754 bits. */
    | DFloat(floatBits: bv32)
      /** A `Double`, by its IEEE 754 bits. */
    | DDouble(doubleBits: bv64)
      /** A `Number` of any other class (`BigInteger`, `AtomicLong`, ...), by its integer value. */
    | DOtherNumber(numberValue: int)
    | DByteArray(bytes: seq<Int8>)
    | DIntArray(ints: seq<Int32>)
    | DLongArray(longs: seq<Int64>)
      /** A `Map<String, Object>`, its entries in iteration order. */
    | DMap(entries: seq<(string, Data)>)
      /** A `Collection`, its elements in iteration order. */
    | DList(items: seq<Data>)

  /**
   * The text Java's `toString()` gives for values whose rendering the model
   * does not compute (floating point numbers, primitive arrays, other
   * `Number` classes); it is supplied from outside.
   */
  type JvmText = Data -> string
}
