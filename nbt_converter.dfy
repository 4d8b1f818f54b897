/**
 * `NbtConverter`: turns a tag tree into plain maps, lists and boxed scalars.
 * The platform's tag classes become the datatype `Tag`; the kind predicates
 * (`isCompound`, `isList`, ...) become tests on its variants, tried in the
 * same order as the converter tries them.
 */
module NbtConverter {
  import opened Wrappers
  import opened JavaLang
  import opened OrderedMaps
  import opened Values

  datatype Tag =
      /** Keys in the compound's iteration order; `None` where `getCompoundValue` gives null. */
    | CompoundTag(entries: seq<(string, Option<Tag>)>)
    | ListTag(elements: seq<Tag>)
    | ByteArrayTag(byteArray: seq<Int8>)
    | IntArrayTag(intArray: seq<Int32>)
    | LongArrayTag(longArray: seq<Int64>)
    | IntTag(i: Int32)
    | LongTag(l: Int64)
    | FloatTag(f: bv32)
    | DoubleTag(d: bv64)
    | ByteTag(b: Int8)
    | ShortTag(sh: Int16)
    | StringTag(text: string)
      /** A tag of a kind no predicate recognises, with the text `getAsString` gives for it. */
    | OtherTag(asString: string)

  predicate IsCompound(t: Tag) { t.CompoundTag? }
  predicate IsList(t: Tag) { t.ListTag? }
  predicate IsByteArray(t: Tag) { t.ByteArrayTag? }
  predicate IsIntArray(t: Tag) { t.IntArrayTag? }
  predicate IsLongArray(t: Tag) { t.LongArrayTag? }
  predicate IsInt(t: Tag) { t.IntTag? }
  predicate IsLong(t: Tag) { t.LongTag? }
  predicate IsFloat(t: Tag) { t.FloatTag? }
  predicate IsDouble(t: Tag) { t.DoubleTag? }
  predicate IsByte(t: Tag) { t.ByteTag? }
  predicate IsShort(t: Tag) { t.ShortTag? }

  /** True when none of the eleven kind predicates accepts the tag. */
  predicate Unrecognised(t: Tag)
  {
    !IsCompound(t) && !IsList(t) && !IsByteArray(t) && !IsIntArray(t) && !IsLongArray(t)
    && !IsInt(t) && !IsLong(t) && !IsFloat(t) && !IsDouble(t) && !IsByte(t) && !IsShort(t)
  }

  function GetAsString(t: Tag): string
    requires Unrecognised(t)
  {
    match t
    case StringTag(s) => s
    case OtherTag(s) => s
  }

  /** `convertToObject`: the first predicate that accepts the tag decides the result. */
  function ConvertToObject(t: Tag): Data
    decreases t, 1
  {
    if IsCompound(t) then DMap(CompoundToMap(t, |t.entries|))
    else if IsList(t) then DList(ListToList(t.elements))
    else if IsByteArray(t) then DByteArray(t.byteArray)
    else if IsIntArray(t) then DIntArray(t.intArray)
    else if IsLongArray(t) then DLongArray(t.longArray)
    else if IsInt(t) then DInt(t.i)
    else if IsLong(t) then DLong(t.l)
    else if IsFloat(t) then DFloat(t.f)
    else if IsDouble(t) then DDouble(t.d)
    else if IsByte(t) then DByte(t.b)
    else if IsShort(t) then DShort(t.sh)
    else DString(GetAsString(t))
  }

  /**
   * `convertCompoundToMap` after its loop has seen the first `n` keys:
   * each present value is converted and put into a `LinkedHashMap`.
   */
  function CompoundToMap(c: Tag, n: nat): seq<(string, Data)>
    requires c.CompoundTag? && n <= |c.entries|
    decreases c, 0, n
  {
    if n == 0 then []
    else
      var acc := CompoundToMap(c, n - 1);
      var e := c.entries[n - 1];
      assert e in c.entries && e.1 < e;
      match e.1
      case None => acc
      case Some(v) => Put(acc, e.0, ConvertToObject(v))
  }

  /** `convertListToList`: element `i` of the result is the conversion of element `i`. */
  function ListToList(ts: seq<Tag>): (r: seq<Data>)
    ensures |r| == |ts|
    ensures forall i :: 0 <= i < |ts| ==> r[i] == ConvertToObject(ts[i])
    decreases ts
  {
    if ts == [] then []
    else ListToList(ts[..|ts| - 1]) + [ConvertToObject(ts[|ts| - 1])]
  }

  /** `convertToMap`: a compound becomes its map, anything else a map with the single key "value". */
  function ConvertToMap(t: Tag): (r: seq<(string, Data)>)
    ensures t.CompoundTag? ==> DMap(r) == ConvertToObject(t)
    ensures !t.CompoundTag? ==> |r| == 1 && r[0] == ("value", ConvertToObject(t))
  {
    if IsCompound(t) then CompoundToMap(t, |t.entries|)
    else [("value", ConvertToObject(t))]
  }

  // ---------------------------------------------------------------------
  // Properties

  /** The present entries of a compound, converted, in key-iteration order. */
  function Present(es: seq<(string, Option<Tag>)>): (r: seq<(string, Data)>)
  {
    if es == [] then []
    else
      var e := es[|es| - 1];
      assert e in es && e.1 < e;
      Present(es[..|es| - 1]) + (if e.1.Some? then [(e.0, ConvertToObject(e.1.value))] else [])
  }

  lemma {:induction false} PresentKeys(es: seq<(string, Option<Tag>)>)
    ensures forall k :: k in Keys(Present(es)) ==> k in Keys(es)
  {
    if es != [] {
      PresentKeys(es[..|es| - 1]);
      assert Keys(es) == Keys(es[..|es| - 1]) + [es[|es| - 1].0];
      var p := Present(es[..|es| - 1]);
      var e := es[|es| - 1];
      if e.1.Some? {
        assert Keys(p + [(e.0, ConvertToObject(e.1.value))]) == Keys(p) + [e.0];
      }
    }
  }

  /**
   * A compound's keys are unique, so converting it keeps its keys in
   * iteration order and drops exactly the absent values.
   */
  lemma {:induction false} CompoundToMapIsPresent(c: Tag, n: nat)
    requires c.CompoundTag? && n <= |c.entries|
    requires DistinctKeys(c.entries)
    ensures CompoundToMap(c, n) == Present(c.entries[..n])
  {
    if n > 0 {
      var es := c.entries[..n];
      assert es[..n - 1] == c.entries[..n - 1];
      CompoundToMapIsPresent(c, n - 1);
      var e := c.entries[n - 1];
      if e.1.Some? {
        PresentKeys(es[..n - 1]);
        var ks := Keys(es[..n - 1]);
        forall j | 0 <= j < n - 1 ensures ks[j] != e.0 {
          assert ks[j] == c.entries[j].0;
        }
        assert e.0 !in Keys(Present(es[..n - 1]));
      }
    }
  }

  /** `convertToMap` of a compound whose values are all present keeps every key, in order. */
  lemma ConvertToMapKeys(t: Tag)
    requires t.CompoundTag? && DistinctKeys(t.entries)
    requires forall i :: 0 <= i < |t.entries| ==> t.entries[i].1.Some?
    ensures Keys(ConvertToMap(t)) == Keys(t.entries)
  {
    CompoundToMapIsPresent(t, |t.entries|);
    PresentAllKeys(t.entries);
    assert t.entries[..|t.entries|] == t.entries;
  }

  lemma {:induction false} PresentAllKeys(es: seq<(string, Option<Tag>)>)
    requires forall i :: 0 <= i < |es| ==> es[i].1.Some?
    ensures Keys(Present(es)) == Keys(es)
  {
    if es != [] {
      PresentAllKeys(es[..|es| - 1]);
      var e := es[|es| - 1];
      assert Keys(es) == Keys(es[..|es| - 1]) + [e.0];
      assert Keys(Present(es)) == Keys(Present(es[..|es| - 1])) + [e.0];
    }
  }

  /** Decoded data never holds `null` or a `Boolean`: the tag format has neither. */
  predicate NoNullOrBool(d: Data)
  {
    match d
    case DNull => false
    case DBool(_) => false
    case DMap(es) => forall i :: 0 <= i < |es| ==> (assert es[i] in es && es[i].1 < es[i]; NoNullOrBool(es[i].1))
    case DList(xs) => forall i :: 0 <= i < |xs| ==> NoNullOrBool(xs[i])
    case _ => true
  }

  lemma {:induction false} DecodeNoNullOrBool(t: Tag)
    ensures NoNullOrBool(ConvertToObject(t))
    decreases t, 1
  {
    if t.CompoundTag? {
      CompoundNoNullOrBool(t, |t.entries|);
    } else if t.ListTag? {
      var xs := ListToList(t.elements);
      forall i | 0 <= i < |xs| ensures NoNullOrBool(xs[i]) {
        DecodeNoNullOrBool(t.elements[i]);
      }
    }
  }

  lemma {:induction false} CompoundNoNullOrBool(c: Tag, n: nat)
    requires c.CompoundTag? && n <= |c.entries|
    ensures forall i :: 0 <= i < |CompoundToMap(c, n)| ==> NoNullOrBool(CompoundToMap(c, n)[i].1)
    decreases c, 0, n
  {
    if n > 0 {
      CompoundNoNullOrBool(c, n - 1);
      var e := c.entries[n - 1];
      assert e in c.entries && e.1 < e;
      if e.1.Some? {
        DecodeNoNullOrBool(e.1.value);
        var acc := CompoundToMap(c, n - 1);
        var r := Put(acc, e.0, ConvertToObject(e.1.value));
        forall i | 0 <= i < |r| ensures NoNullOrBool(r[i].1) {
          if e.0 !in Keys(acc) {
            assert r == acc + [(e.0, ConvertToObject(e.1.value))];
          } else {
            var j := IndexOf(acc, e.0).value;
            assert r == acc[j := (e.0, ConvertToObject(e.1.value))];
          }
        }
      }
    }
  }

  /** Scalars keep their width: nothing is narrowed or widened at decode time. */
  lemma DecodeKeepsWidth(t: Tag)
    ensures t.IntTag? ==> ConvertToObject(t) == DInt(t.i)
    ensures t.LongTag? ==> ConvertToObject(t) == DLong(t.l)
    ensures t.ByteTag? ==> ConvertToObject(t) == DByte(t.b)
    ensures t.ShortTag? ==> ConvertToObject(t) == DShort(t.sh)
    ensures t.FloatTag? ==> ConvertToObject(t) == DFloat(t.f)
    ensures t.DoubleTag? ==> ConvertToObject(t) == DDouble(t.d)
    ensures t.StringTag? ==> ConvertToObject(t) == DString(t.text)
    ensures t.OtherTag? ==> ConvertToObject(t) == DString(t.asString)
  {
  }
}
