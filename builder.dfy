/**
 * `DataStructureBuilder` and its two implementations. The interface is a
 * closed choice here: a `Builder` is either the JSON builder, which makes a
 * fresh `JsonObject`/`JsonArray` on every call, or the tag builder, which
 * hands out the caller's root compound on its first `createObject` and
 * fresh compounds afterwards. Both write into the same arena of nodes.
 */
module Builders {
  import opened JavaLang
  import opened OrderedMaps
  import opened Nodes

  datatype Target = JsonTarget | NbtTarget(root: Handle)

  /**
   * The `Object value` an orchestrator passes to `addToObject`/`addToArray`:
   * a node of this builder, or some other Java value (what
   * `buildNestedData` returns for a primitive).
   */
  datatype Item = Ref(h: Handle) | Foreign

  class Builder {
    /** Every object and array created so far; handles index this sequence. */
    var nodes: seq<Node>
    const target: Target
    /** `NbtDataBuilder.isFirstObjectCreation`; the JSON builder keeps it false. */
    var isFirstObjectCreation: bool

    /** Every reference points at an existing node. */
    ghost predicate Closed()
      reads this
    {
      forall a, i :: 0 <= a < |nodes| && nodes[a].ObjNode? && 0 <= i < |nodes[a].entries| ==>
        (nodes[a].entries[i].1.SRef? ==> nodes[a].entries[i].1.h < |nodes|)
    }

    /** An array only ever holds strings and references to objects: never a nested array, int or boolean. */
    ghost predicate ArraysHoldNoArrays()
      reads this
    {
      forall a, i :: 0 <= a < |nodes| && nodes[a].ArrNode? && 0 <= i < |nodes[a].items| ==>
        match nodes[a].items[i]
        case SStr(_) => true
        case SRef(h) => h < |nodes| && nodes[h].ObjNode?
        case _ => false
    }

    ghost predicate Valid()
      reads this
    {
      (target.NbtTarget? ==> target.root < |nodes| && nodes[target.root].ObjNode?)
      && (target.JsonTarget? ==> !isFirstObjectCreation)
      && Closed() && ArraysHoldNoArrays()
    }

    /** The next `createObject` returns the root compound. */
    predicate HandsOutRoot()
      reads this
    {
      target.NbtTarget? && isFirstObjectCreation
    }

    /** `new JsonDataBuilder()`. */
    constructor Json()
      ensures Valid()
      ensures target == JsonTarget && nodes == [] && !isFirstObjectCreation
    {
      target := JsonTarget;
      nodes := [];
      isFirstObjectCreation := false;
    }

    /** `new NbtDataBuilder(nbtWriter.createCompound())`: the root is a new, empty compound. */
    constructor Nbt()
      ensures Valid()
      ensures target == NbtTarget(0) && nodes == [ObjNode([])] && isFirstObjectCreation
    {
      target := NbtTarget(0);
      nodes := [ObjNode([])];
      isFirstObjectCreation := true;
    }

    /**
     * `createObject`: the tag builder's first call returns its root, by
     * identity, and clears the flag; every other call appends a new, empty
     * object, which is never the root.
     */
    method CreateObject() returns (h: Handle)
      requires Valid()
      modifies this
      ensures Valid()
      ensures old(HandsOutRoot()) ==> h == target.root && nodes == old(nodes) && !isFirstObjectCreation
      ensures !old(HandsOutRoot()) ==>
                h == old(|nodes|) && nodes == old(nodes) + [ObjNode([])]
                && isFirstObjectCreation == old(isFirstObjectCreation)
                && (target.NbtTarget? ==> h != target.root)
    {
      if target.NbtTarget? && isFirstObjectCreation {
        isFirstObjectCreation := false;
        h := target.root;
      } else {
        h := |nodes|;
        nodes := nodes + [ObjNode([])];
      }
    }

    /** `createArray`: always a new, empty array; the flag is left alone. */
    method CreateArray() returns (h: Handle)
      requires Valid()
      modifies this
      ensures Valid()
      ensures h == old(|nodes|) && nodes == old(nodes) + [ArrNode([])]
      ensures isFirstObjectCreation == old(isFirstObjectCreation)
    {
      h := |nodes|;
      nodes := nodes + [ArrNode([])];
    }

    /** `addToObject`: an object or array goes under `key` (`add`/`putCompound`/`putList`); anything else is ignored. */
    method AddToObject(parent: Handle, key: string, value: Item)
      requires Valid() && parent < |nodes| && nodes[parent].ObjNode?
      requires value.Ref? ==> value.h < |nodes|
      modifies this
      ensures Valid()
      ensures isFirstObjectCreation == old(isFirstObjectCreation)
      ensures value.Ref? ==>
                nodes == old(nodes)[parent := ObjNode(Put(old(nodes[parent].entries), key, SRef(value.h)))]
      ensures value.Foreign? ==> nodes == old(nodes)
    {
      if value.Ref? {
        nodes := nodes[parent := ObjNode(Put(nodes[parent].entries, key, SRef(value.h)))];
        PutClosed(old(nodes), parent, key, SRef(value.h));
      }
    }

    /** `addToArray`: only an object is appended; an array or any other value leaves the array as it was. */
    method AddToArray(arr: Handle, value: Item)
      requires Valid() && arr < |nodes| && nodes[arr].ArrNode?
      requires value.Ref? ==> value.h < |nodes|
      modifies this
      ensures Valid()
      ensures isFirstObjectCreation == old(isFirstObjectCreation)
      ensures value.Ref? && old(nodes[value.h]).ObjNode? ==>
                nodes == old(nodes)[arr := ArrNode(old(nodes[arr].items) + [SRef(value.h)])]
      ensures !(value.Ref? && old(nodes[value.h]).ObjNode?) ==> nodes == old(nodes)
    {
      if value.Ref? && nodes[value.h].ObjNode? {
        nodes := nodes[arr := ArrNode(nodes[arr].items + [SRef(value.h)])];
      }
    }

    /** `addStringProperty`: one string under `key`. */
    method AddStringProperty(parent: Handle, key: string, value: string)
      requires Valid() && parent < |nodes| && nodes[parent].ObjNode?
      modifies this
      ensures Valid()
      ensures isFirstObjectCreation == old(isFirstObjectCreation)
      ensures nodes == old(nodes)[parent := ObjNode(Put(old(nodes[parent].entries), key, SStr(value)))]
    {
      nodes := nodes[parent := ObjNode(Put(nodes[parent].entries, key, SStr(value)))];
      PutClosed(old(nodes), parent, key, SStr(value));
    }

    /** `addIntProperty`: one int under `key`. */
    method AddIntProperty(parent: Handle, key: string, value: Int32)
      requires Valid() && parent < |nodes| && nodes[parent].ObjNode?
      modifies this
      ensures Valid()
      ensures isFirstObjectCreation == old(isFirstObjectCreation)
      ensures nodes == old(nodes)[parent := ObjNode(Put(old(nodes[parent].entries), key, SInt(value)))]
    {
      nodes := nodes[parent := ObjNode(Put(nodes[parent].entries, key, SInt(value)))];
      PutClosed(old(nodes), parent, key, SInt(value));
    }

    /** `addBooleanProperty`: one boolean under `key` (a JSON boolean, or a byte tag 0/1). */
    method AddBooleanProperty(parent: Handle, key: string, value: bool)
      requires Valid() && parent < |nodes| && nodes[parent].ObjNode?
      modifies this
      ensures Valid()
      ensures isFirstObjectCreation == old(isFirstObjectCreation)
      ensures nodes == old(nodes)[parent := ObjNode(Put(old(nodes[parent].entries), key, SBool(value)))]
    {
      nodes := nodes[parent := ObjNode(Put(nodes[parent].entries, key, SBool(value)))];
      PutClosed(old(nodes), parent, key, SBool(value));
    }

    /** `addStringToArray`: one string at the end; the earlier elements stay. */
    method AddStringToArray(arr: Handle, value: string)
      requires Valid() && arr < |nodes| && nodes[arr].ArrNode?
      modifies this
      ensures Valid()
      ensures isFirstObjectCreation == old(isFirstObjectCreation)
      ensures nodes == old(nodes)[arr := ArrNode(old(nodes[arr].items) + [SStr(value)])]
    {
      nodes := nodes[arr := ArrNode(nodes[arr].items + [SStr(value)])];
    }
  }

  /** Every reference in an object's entries points below `n`. */
  ghost predicate EntriesBelow(es: seq<(string, Slot)>, n: nat)
  {
    forall i :: 0 <= i < |es| ==> (es[i].1.SRef? ==> es[i].1.h < n)
  }

  /** Putting an in-range slot keeps an object's references in range. */
  lemma {:induction false} PutClosed(nodes: seq<Node>, parent: Handle, key: string, s: Slot)
    requires parent < |nodes| && nodes[parent].ObjNode?
    requires EntriesBelow(nodes[parent].entries, |nodes|)
    requires s.SRef? ==> s.h < |nodes|
    ensures EntriesBelow(Put(nodes[parent].entries, key, s), |nodes|)
  {
    var es := nodes[parent].entries;
    match IndexOf(es, key)
    case None =>
      assert Put(es, key, s) == es + [(key, s)];
    case Some(j) =>
      assert Put(es, key, s) == es[j := (key, s)];
  }
}
