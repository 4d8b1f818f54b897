/**
 * The objects a builder creates and links: Gson `JsonObject`/`JsonArray`
 * or tag compounds/lists. They live in an arena `seq<Node>`, and a handle
 * is an index into it, so that two parents can share a child and a
 * compound can even hold itself, as with Java references.
 *
 * `Tree` is the logical content of a node (what a writer would print), and
 * `Denotes` says that a slot of the arena unfolds into a given finite tree
 * using only nodes whose handles lie in a window `[lo, hi)`.
 */
module Nodes {
  import opened Wrappers
  import opened JavaLang
  import opened OrderedMaps

  type Handle = nat

  /** What an object key or an array element holds: a primitive, or a reference to a node. */
  datatype Slot = SStr(s: string) | SInt(n: Int32) | SBool(b: bool) | SRef(h: Handle)

  datatype Node =
    | ObjNode(entries: seq<(string, Slot)>)
    | ArrNode(items: seq<Slot>)

  datatype Tree =
    | TStr(str: string)
    | TInt(num: Int32)
    | TBool(flag: bool)
    | TObj(fields: seq<(string, Tree)>)
    | TArr(elems: seq<Tree>)

  ghost predicate Denotes(nodes: seq<Node>, s: Slot, t: Tree, lo: nat, hi: nat)
    decreases t
  {
    match t
    case TStr(x) => s == SStr(x)
    case TInt(n) => s == SInt(n)
    case TBool(b) => s == SBool(b)
    case TObj(fs) =>
      s.SRef? && lo <= s.h < hi <= |nodes| && nodes[s.h].ObjNode?
      && FieldsDenote(nodes, nodes[s.h].entries, fs, lo, hi)
    case TArr(xs) =>
      s.SRef? && lo <= s.h < hi <= |nodes| && nodes[s.h].ArrNode?
      && ItemsDenote(nodes, nodes[s.h].items, xs, lo, hi)
  }

  /** The entries of an object node, key by key and in order, unfold into the fields of a tree. */
  ghost predicate FieldsDenote(nodes: seq<Node>, es: seq<(string, Slot)>, fs: seq<(string, Tree)>, lo: nat, hi: nat)
    decreases fs
  {
    |es| == |fs|
    && forall i :: 0 <= i < |es| ==>
         es[i].0 == fs[i].0 && (assert fs[i] in fs && fs[i].1 < fs[i]; Denotes(nodes, es[i].1, fs[i].1, lo, hi))
  }

  ghost predicate ItemsDenote(nodes: seq<Node>, items: seq<Slot>, xs: seq<Tree>, lo: nat, hi: nat)
    decreases xs
  {
    |items| == |xs| && forall i :: 0 <= i < |items| ==> Denotes(nodes, items[i], xs[i], lo, hi)
  }

  /** Nodes agree on the window `[lo, hi)`. */
  ghost predicate SameOn(nodes: seq<Node>, nodes': seq<Node>, lo: nat, hi: nat)
  {
    hi <= |nodes| && hi <= |nodes'| && forall j :: lo <= j < hi ==> nodes'[j] == nodes[j]
  }

  /** A tree stored in a window survives any change made outside that window. */
  lemma {:induction false} DenotesFrame(nodes: seq<Node>, nodes': seq<Node>, s: Slot, t: Tree, lo: nat, hi: nat)
    requires Denotes(nodes, s, t, lo, hi) && SameOn(nodes, nodes', lo, hi)
    ensures Denotes(nodes', s, t, lo, hi)
    decreases t
  {
    match t
    case TObj(fs) =>
      FieldsFrame(nodes, nodes', nodes[s.h].entries, fs, lo, hi);
    case TArr(xs) =>
      var items := nodes[s.h].items;
      forall i | 0 <= i < |items| ensures Denotes(nodes', items[i], xs[i], lo, hi) {
        DenotesFrame(nodes, nodes', items[i], xs[i], lo, hi);
      }
    case _ =>
  }

  lemma {:induction false} FieldsFrame(nodes: seq<Node>, nodes': seq<Node>, es: seq<(string, Slot)>, fs: seq<(string, Tree)>, lo: nat, hi: nat)
    requires FieldsDenote(nodes, es, fs, lo, hi) && SameOn(nodes, nodes', lo, hi)
    ensures FieldsDenote(nodes', es, fs, lo, hi)
    decreases fs
  {
    forall i | 0 <= i < |es| ensures Denotes(nodes', es[i].1, fs[i].1, lo, hi) {
      assert fs[i] in fs && fs[i].1 < fs[i];
      DenotesFrame(nodes, nodes', es[i].1, fs[i].1, lo, hi);
    }
  }

  /** A wider window still holds every tree a narrower one held. */
  lemma {:induction false} DenotesWiden(nodes: seq<Node>, s: Slot, t: Tree, lo: nat, hi: nat, lo': nat, hi': nat)
    requires Denotes(nodes, s, t, lo, hi) && lo' <= lo && hi <= hi' <= |nodes|
    ensures Denotes(nodes, s, t, lo', hi')
    decreases t
  {
    match t
    case TObj(fs) =>
      FieldsWiden(nodes, nodes[s.h].entries, fs, lo, hi, lo', hi');
    case TArr(xs) =>
      var items := nodes[s.h].items;
      forall i | 0 <= i < |items| ensures Denotes(nodes, items[i], xs[i], lo', hi') {
        DenotesWiden(nodes, items[i], xs[i], lo, hi, lo', hi');
      }
    case _ =>
  }

  lemma {:induction false} FieldsWiden(nodes: seq<Node>, es: seq<(string, Slot)>, fs: seq<(string, Tree)>, lo: nat, hi: nat, lo': nat, hi': nat)
    requires FieldsDenote(nodes, es, fs, lo, hi) && lo' <= lo && hi <= hi' <= |nodes|
    ensures FieldsDenote(nodes, es, fs, lo', hi')
    decreases fs
  {
    forall i | 0 <= i < |es| ensures Denotes(nodes, es[i].1, fs[i].1, lo', hi') {
      assert fs[i] in fs && fs[i].1 < fs[i];
      DenotesWiden(nodes, es[i].1, fs[i].1, lo, hi, lo', hi');
    }
  }

  lemma {:induction false} ItemsFrame(nodes: seq<Node>, nodes': seq<Node>, items: seq<Slot>, xs: seq<Tree>, lo: nat, hi: nat)
    requires ItemsDenote(nodes, items, xs, lo, hi) && SameOn(nodes, nodes', lo, hi)
    ensures ItemsDenote(nodes', items, xs, lo, hi)
  {
    forall i | 0 <= i < |items| ensures Denotes(nodes', items[i], xs[i], lo, hi) {
      DenotesFrame(nodes, nodes', items[i], xs[i], lo, hi);
    }
  }

  lemma {:induction false} ItemsWiden(nodes: seq<Node>, items: seq<Slot>, xs: seq<Tree>, lo: nat, hi: nat, lo': nat, hi': nat)
    requires ItemsDenote(nodes, items, xs, lo, hi) && lo' <= lo && hi <= hi' <= |nodes|
    ensures ItemsDenote(nodes, items, xs, lo', hi')
  {
    forall i | 0 <= i < |items| ensures Denotes(nodes, items[i], xs[i], lo', hi') {
      DenotesWiden(nodes, items[i], xs[i], lo, hi, lo', hi');
    }
  }

  /** Looking a key up in an object node finds the slot of the field the tree has under that key. */
  lemma {:induction false} FieldsGet(nodes: seq<Node>, es: seq<(string, Slot)>, fs: seq<(string, Tree)>, lo: nat, hi: nat, k: string)
    requires FieldsDenote(nodes, es, fs, lo, hi)
    ensures Get(es, k).Some? <==> Get(fs, k).Some?
    ensures Get(fs, k).Some? ==> Denotes(nodes, Get(es, k).value, Get(fs, k).value, lo, hi)
  {
    assert Keys(es) == Keys(fs);
    IndexOfSameKeys(es, fs, k);
    match IndexOf(es, k)
    case None =>
    case Some(j) =>
      assert Get(es, k) == Some(es[j].1) && Get(fs, k) == Some(fs[j].1);
  }

  /**
   * Putting a key into an object node and the same key into the fields of
   * the tree it denotes keeps the two in step: the replaced or appended
   * entry is at the same position on both sides.
   */
  lemma {:induction false} FieldsPut(nodes: seq<Node>, es: seq<(string, Slot)>, fs: seq<(string, Tree)>, k: string, s: Slot, t: Tree, lo: nat, hi: nat)
    requires FieldsDenote(nodes, es, fs, lo, hi) && Denotes(nodes, s, t, lo, hi)
    ensures FieldsDenote(nodes, Put(es, k, s), Put(fs, k, t), lo, hi)
  {
    assert Keys(es) == Keys(fs);
    IndexOfSameKeys(es, fs, k);
    var es', fs' := Put(es, k, s), Put(fs, k, t);
    match IndexOf(es, k)
    case None =>
      assert es' == es + [(k, s)] && fs' == fs + [(k, t)];
      forall i | 0 <= i < |es'| ensures es'[i].0 == fs'[i].0 && Denotes(nodes, es'[i].1, fs'[i].1, lo, hi) {
        if i < |es| {
          assert es'[i] == es[i] && fs'[i] == fs[i];
        }
      }
    case Some(j) =>
      assert es' == es[j := (k, s)] && fs' == fs[j := (k, t)];
      forall i | 0 <= i < |es'| ensures es'[i].0 == fs'[i].0 && Denotes(nodes, es'[i].1, fs'[i].1, lo, hi) {
        if i != j {
          assert es'[i] == es[i] && fs'[i] == fs[i];
        }
      }
  }

  lemma {:induction false} ItemsAppend(nodes: seq<Node>, items: seq<Slot>, xs: seq<Tree>, s: Slot, t: Tree, lo: nat, hi: nat)
    requires ItemsDenote(nodes, items, xs, lo, hi) && Denotes(nodes, s, t, lo, hi)
    ensures ItemsDenote(nodes, items + [s], xs + [t], lo, hi)
  {
  }

  /** The element an optional tree contributes to an array: none, or exactly one. */
  function Listed(o: Option<Tree>): (r: seq<Tree>)
    ensures |r| <= 1 && (o.Some? <==> |r| == 1) && (o.Some? ==> r[0] == o.value)
  {
    match o
    case None => []
    case Some(t) => [t]
  }

  /**
   * One step of filling an object node `h` whose children lie in the window
   * `[lo, ..)` above it: the entries denoted so far survive a change that
   * touched only `h` and new nodes, and `Put` adds the new entry on both sides.
   */
  lemma {:induction false} FieldsStep(before: seq<Node>, after: seq<Node>, h: Handle, k: string, slot: Slot, fs: seq<(string, Tree)>, t: Tree, lo: nat)
    requires h < lo <= |before| <= |after|
    requires before[h].ObjNode?
    requires FieldsDenote(before, before[h].entries, fs, lo, |before|)
    requires forall j :: 0 <= j < |before| && j != h ==> after[j] == before[j]
    requires after[h] == ObjNode(Put(before[h].entries, k, slot))
    requires Denotes(after, slot, t, |before|, |after|)
    ensures FieldsDenote(after, after[h].entries, Put(fs, k, t), lo, |after|)
  {
    FieldsFrame(before, after, before[h].entries, fs, lo, |before|);
    FieldsWiden(after, before[h].entries, fs, lo, |before|, lo, |after|);
    DenotesWiden(after, slot, t, |before|, |after|, lo, |after|);
    FieldsPut(after, before[h].entries, fs, k, slot, t, lo, |after|);
  }

  /** One step of filling an array node `h`: earlier elements survive and the new one, if any, is appended. */
  lemma {:induction false} ItemsStep(before: seq<Node>, after: seq<Node>, h: Handle, slot: Slot, ts: seq<Tree>, elem: Option<Tree>)
    requires h < |before| <= |after|
    requires before[h].ArrNode? && after[h].ArrNode?
    requires ItemsDenote(before, before[h].items, ts, h + 1, |before|)
    requires forall j :: 0 <= j < |before| && j != h ==> after[j] == before[j]
    requires elem.None? ==> after[h] == before[h]
    requires elem.Some? ==>
               after[h] == ArrNode(before[h].items + [slot]) && Denotes(after, slot, elem.value, |before|, |after|)
    ensures ItemsDenote(after, after[h].items, ts + Listed(elem), h + 1, |after|)
  {
    ItemsFrame(before, after, before[h].items, ts, h + 1, |before|);
    ItemsWiden(after, before[h].items, ts, h + 1, |before|, h + 1, |after|);
    if elem.Some? {
      DenotesWiden(after, slot, elem.value, |before|, |after|, h + 1, |after|);
      ItemsAppend(after, before[h].items, ts, slot, elem.value, h + 1, |after|);
    } else {
      assert ts + Listed(elem) == ts;
    }
  }

  /** `next` keeps every node of `prev` and may add new ones after them. */
  ghost predicate Extends(prev: seq<Node>, next: seq<Node>)
  {
    |prev| <= |next| && forall j :: 0 <= j < |prev| ==> next[j] == prev[j]
  }

  /**
   * Attaching a child built in new nodes to an object node `p` under `k`:
   * the entries denoted so far survive, and `Put` adds the child's tree.
   */
  lemma {:induction false} AttachField(before: seq<Node>, mid: seq<Node>, after: seq<Node>, p: Handle, k: string, c: Handle, t: Tree, fs: seq<(string, Tree)>, lo: nat)
    requires p < lo <= |before| && before[p].ObjNode?
    requires FieldsDenote(before, before[p].entries, fs, lo, |before|)
    requires Extends(before, mid) && Denotes(mid, SRef(c), t, |before|, |mid|)
    requires after == mid[p := ObjNode(Put(mid[p].entries, k, SRef(c)))]
    ensures FieldsDenote(after, after[p].entries, Put(fs, k, t), lo, |after|)
  {
    DenotesFrame(mid, after, SRef(c), t, |before|, |mid|);
    FieldsStep(before, after, p, k, SRef(c), fs, t, lo);
  }

  /** Appending a child built in new nodes to an array node `a`: the earlier elements survive and the child's tree comes last. */
  lemma {:induction false} AttachItem(before: seq<Node>, mid: seq<Node>, after: seq<Node>, a: Handle, c: Handle, t: Tree, ts: seq<Tree>)
    requires a < |before| && before[a].ArrNode?
    requires ItemsDenote(before, before[a].items, ts, a + 1, |before|)
    requires Extends(before, mid) && Denotes(mid, SRef(c), t, |before|, |mid|)
    requires after == mid[a := ArrNode(mid[a].items + [SRef(c)])]
    ensures ItemsDenote(after, after[a].items, ts + [t], a + 1, |after|)
  {
    DenotesFrame(mid, after, SRef(c), t, |before|, |mid|);
    ItemsStep(before, after, a, SRef(c), ts, Some(t));
  }

  /** A tree held by the nodes so far is still held once more nodes are added after them. */
  lemma {:induction false} DenotesExtend(before: seq<Node>, after: seq<Node>, s: Slot, t: Tree, lo: nat)
    requires Extends(before, after) && lo <= |before| && Denotes(before, s, t, lo, |before|)
    ensures Denotes(after, s, t, lo, |after|)
  {
    DenotesFrame(before, after, s, t, lo, |before|);
    DenotesWiden(after, s, t, lo, |before|, lo, |after|);
  }

  /**
   * An object node holding a reference to itself denotes no finite tree: any
   * tree it denoted would have to contain itself as a proper subtree.
   */
  lemma {:induction false} SelfReferenceHasNoTree(nodes: seq<Node>, h: Handle, j: nat, t: Tree, lo: nat, hi: nat)
    requires h < |nodes| && nodes[h].ObjNode? && j < |nodes[h].entries| && nodes[h].entries[j].1 == SRef(h)
    ensures !Denotes(nodes, SRef(h), t, lo, hi)
    decreases t
  {
    if t.TObj? && j < |t.fields| {
      var fs := t.fields;
      assert fs[j] in fs && fs[j].1 < fs[j];
      SelfReferenceHasNoTree(nodes, h, j, fs[j].1, lo, hi);
    }
  }
}
