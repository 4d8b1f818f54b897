/**
 * Filling one object or array node of a builder, call by call, while its
 * children are built in nodes created after it. The predicates say what
 * the node holds so far; each method is one builder call together with the
 * reason the node then holds one entry or element more.
 */
module Filling {
  import opened Wrappers
  import opened JavaLang
  import opened OrderedMaps
  import opened Nodes
  import opened Builders

  /** Object node `h` holds the fields `fs`, its children lying in nodes `lo` and above. */
  ghost predicate ObjectHolds(nodes: seq<Node>, h: Handle, fs: seq<(string, Tree)>, lo: nat)
  {
    h < lo <= |nodes| && nodes[h].ObjNode? && FieldsDenote(nodes, nodes[h].entries, fs, lo, |nodes|)
  }

  /** Array node `a` holds the elements `ts`, its children lying in nodes after it. */
  ghost predicate ArrayHolds(nodes: seq<Node>, a: Handle, ts: seq<Tree>)
  {
    a < |nodes| && nodes[a].ArrNode? && ItemsDenote(nodes, nodes[a].items, ts, a + 1, |nodes|)
  }

  /** `next` keeps every node of `prev` except perhaps node `h`, and may add new ones. */
  ghost predicate ChangedOnly(prev: seq<Node>, next: seq<Node>, h: Handle)
  {
    |prev| <= |next| && forall j :: 0 <= j < |prev| && j != h ==> next[j] == prev[j]
  }

  /** `addStringProperty(h, k, s)`. */
  method PutString(b: Builder, h: Handle, k: string, s: string, ghost t: Tree, ghost fs: seq<(string, Tree)>, ghost lo: nat)
    requires b.Valid() && ObjectHolds(b.nodes, h, fs, lo) && t == TStr(s)
    modifies b
    ensures b.Valid() && b.isFirstObjectCreation == old(b.isFirstObjectCreation)
    ensures ChangedOnly(old(b.nodes), b.nodes, h) && ObjectHolds(b.nodes, h, Put(fs, k, t), lo)
  {
    ghost var before := b.nodes;
    b.AddStringProperty(h, k, s);
    FieldsStep(before, b.nodes, h, k, SStr(s), fs, TStr(s), lo);
  }

  /** `addIntProperty(h, k, n)`. */
  method PutInt(b: Builder, h: Handle, k: string, n: Int32, ghost t: Tree, ghost fs: seq<(string, Tree)>, ghost lo: nat)
    requires b.Valid() && ObjectHolds(b.nodes, h, fs, lo) && t == TInt(n)
    modifies b
    ensures b.Valid() && b.isFirstObjectCreation == old(b.isFirstObjectCreation)
    ensures ChangedOnly(old(b.nodes), b.nodes, h) && ObjectHolds(b.nodes, h, Put(fs, k, t), lo)
  {
    ghost var before := b.nodes;
    b.AddIntProperty(h, k, n);
    FieldsStep(before, b.nodes, h, k, SInt(n), fs, TInt(n), lo);
  }

  /** `addBooleanProperty(h, k, x)`. */
  method PutBool(b: Builder, h: Handle, k: string, x: bool, ghost t: Tree, ghost fs: seq<(string, Tree)>, ghost lo: nat)
    requires b.Valid() && ObjectHolds(b.nodes, h, fs, lo) && t == TBool(x)
    modifies b
    ensures b.Valid() && b.isFirstObjectCreation == old(b.isFirstObjectCreation)
    ensures ChangedOnly(old(b.nodes), b.nodes, h) && ObjectHolds(b.nodes, h, Put(fs, k, t), lo)
  {
    ghost var before := b.nodes;
    b.AddBooleanProperty(h, k, x);
    FieldsStep(before, b.nodes, h, k, SBool(x), fs, TBool(x), lo);
  }

  /**
   * `addToObject(h, k, c)` for a child `c` built since the nodes were
   * `before`: node `h` then holds the child's tree under `k`.
   */
  method PutChild(b: Builder, h: Handle, k: string, c: Handle, ghost t: Tree,
                  ghost fs: seq<(string, Tree)>, ghost lo: nat, ghost before: seq<Node>)
    requires b.Valid() && ObjectHolds(before, h, fs, lo) && Extends(before, b.nodes)
    requires Denotes(b.nodes, SRef(c), t, |before|, |b.nodes|)
    modifies b
    ensures b.Valid() && b.isFirstObjectCreation == old(b.isFirstObjectCreation)
    ensures ChangedOnly(before, b.nodes, h) && ObjectHolds(b.nodes, h, Put(fs, k, t), lo)
  {
    ghost var mid := b.nodes;
    DenotesBelow(mid, SRef(c), t, |before|, |mid|);
    b.AddToObject(h, k, Ref(c));
    AttachField(before, mid, b.nodes, h, k, c, t, fs, lo);
  }

  /** `addToObject(h, k, c)` for an object `c` just built in the nodes after `before`. */
  method PutObject(b: Builder, h: Handle, k: string, c: Handle, ghost es: seq<(string, Tree)>,
                   ghost fs: seq<(string, Tree)>, ghost lo: nat, ghost before: seq<Node>)
    requires b.Valid() && ObjectHolds(before, h, fs, lo) && Extends(before, b.nodes)
    requires c == |before| && ObjectHolds(b.nodes, c, es, c + 1)
    modifies b
    ensures b.Valid() && b.isFirstObjectCreation == old(b.isFirstObjectCreation)
    ensures ChangedOnly(before, b.nodes, h) && ObjectHolds(b.nodes, h, Put(fs, k, TObj(es)), lo)
  {
    ObjectDone(b.nodes, c, es, |before|);
    PutChild(b, h, k, c, TObj(es), fs, lo, before);
  }

  /** `addToObject(h, k, c)` for an array `c` just built in the nodes after `before`. */
  method PutArray(b: Builder, h: Handle, k: string, c: Handle, ghost ts: seq<Tree>,
                  ghost fs: seq<(string, Tree)>, ghost lo: nat, ghost before: seq<Node>)
    requires b.Valid() && ObjectHolds(before, h, fs, lo) && Extends(before, b.nodes)
    requires c == |before| && ArrayHolds(b.nodes, c, ts)
    modifies b
    ensures b.Valid() && b.isFirstObjectCreation == old(b.isFirstObjectCreation)
    ensures ChangedOnly(before, b.nodes, h) && ObjectHolds(b.nodes, h, Put(fs, k, TArr(ts)), lo)
  {
    ArrayDone(b.nodes, c, ts, |before|);
    PutChild(b, h, k, c, TArr(ts), fs, lo, before);
  }

  /** `addToArray(a, c)` for an object `c` just built in the nodes after `before`. */
  method AppendObject(b: Builder, a: Handle, c: Handle, ghost es: seq<(string, Tree)>, ghost ts: seq<Tree>,
                      ghost before: seq<Node>)
    requires b.Valid() && ArrayHolds(before, a, ts) && Extends(before, b.nodes)
    requires c == |before| && a < c && ObjectHolds(b.nodes, c, es, c + 1)
    modifies b
    ensures b.Valid() && b.isFirstObjectCreation == old(b.isFirstObjectCreation)
    ensures ChangedOnly(before, b.nodes, a) && ArrayHolds(b.nodes, a, ts + [TObj(es)])
  {
    ObjectDone(b.nodes, c, es, |before|);
    AppendChild(b, a, c, TObj(es), ts, before);
  }

  /** `addStringToArray(a, s)`. */
  method AppendString(b: Builder, a: Handle, s: string, ghost t: Tree, ghost ts: seq<Tree>)
    requires b.Valid() && ArrayHolds(b.nodes, a, ts) && t == TStr(s)
    modifies b
    ensures b.Valid() && b.isFirstObjectCreation == old(b.isFirstObjectCreation)
    ensures ChangedOnly(old(b.nodes), b.nodes, a) && ArrayHolds(b.nodes, a, ts + [t])
  {
    ghost var before := b.nodes;
    b.AddStringToArray(a, s);
    ItemsStep(before, b.nodes, a, SStr(s), ts, Some(TStr(s)));
  }

  /** `addToArray(a, c)` for an object `c` built since the nodes were `before`. */
  method AppendChild(b: Builder, a: Handle, c: Handle, ghost t: Tree, ghost ts: seq<Tree>, ghost before: seq<Node>)
    requires b.Valid() && ArrayHolds(before, a, ts) && Extends(before, b.nodes)
    requires t.TObj? && Denotes(b.nodes, SRef(c), t, |before|, |b.nodes|)
    modifies b
    ensures b.Valid() && b.isFirstObjectCreation == old(b.isFirstObjectCreation)
    ensures ChangedOnly(before, b.nodes, a) && ArrayHolds(b.nodes, a, ts + [t])
  {
    ghost var mid := b.nodes;
    b.AddToArray(a, Ref(c));
    AttachItem(before, mid, b.nodes, a, c, t, ts);
  }

  /** Changing only a node created after `o` keeps every node of `o`. */
  lemma {:induction false} ExtendsPast(o: seq<Node>, prev: seq<Node>, next: seq<Node>, h: Handle)
    requires Extends(o, prev) && ChangedOnly(prev, next, h) && |o| <= h
    ensures Extends(o, next)
  {
  }

  /** Two steps that each change only node `h` together change only node `h`. */
  lemma {:induction false} ChangedOnlyTrans(a: seq<Node>, b: seq<Node>, c: seq<Node>, h: Handle)
    requires ChangedOnly(a, b, h) && ChangedOnly(b, c, h)
    ensures ChangedOnly(a, c, h)
  {
  }

  /** A reference that denotes a tree points into the nodes. */
  lemma {:induction false} DenotesBelow(nodes: seq<Node>, s: Slot, t: Tree, lo: nat, hi: nat)
    requires Denotes(nodes, s, t, lo, hi) && s.SRef?
    ensures s.h < |nodes|
  {
  }

  /** A filled object node denotes the object tree of its fields. */
  lemma {:induction false} ObjectDone(nodes: seq<Node>, h: Handle, fs: seq<(string, Tree)>, lo: nat)
    requires ObjectHolds(nodes, h, fs, h + 1) && lo <= h
    ensures Denotes(nodes, SRef(h), TObj(fs), lo, |nodes|)
  {
    FieldsWiden(nodes, nodes[h].entries, fs, h + 1, |nodes|, lo, |nodes|);
  }

  /** A filled array node denotes the array tree of its elements. */
  lemma {:induction false} ArrayDone(nodes: seq<Node>, a: Handle, ts: seq<Tree>, lo: nat)
    requires ArrayHolds(nodes, a, ts) && lo <= a
    ensures Denotes(nodes, SRef(a), TArr(ts), lo, |nodes|)
  {
    ItemsWiden(nodes, nodes[a].items, ts, a + 1, |nodes|, lo, |nodes|);
  }

  /** An array node holds what it held once more nodes are added after the ones it was filled from. */
  lemma {:induction false} ArrayGrows(before: seq<Node>, after: seq<Node>, a: Handle, ts: seq<Tree>)
    requires ArrayHolds(before, a, ts) && Extends(before, after)
    ensures ArrayHolds(after, a, ts)
  {
    ItemsFrame(before, after, before[a].items, ts, a + 1, |before|);
    ItemsWiden(after, before[a].items, ts, a + 1, |before|, a + 1, |after|);
  }
}
