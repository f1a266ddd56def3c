/** The single steps by which the pattern tree grows and shrinks, and what each of them keeps. */
module TrieUpdates {
  import opened Basics
  import opened Patterns
  import opened Hash
  import opened TrieNodes
  import opened Options

  /** Every childless node but the root and `cur` ends a stored pattern; the root never does. */
  ghost predicate PrunedBut(nodes: Nodes, cur: nat) {
    && (ROOT in nodes ==> nodes[ROOT].pattern.None?)
    && (forall n :: n in nodes && n != ROOT && n != cur && Childless(nodes[n]) ==> nodes[n].pattern.Some?)
  }

  /** Every literal node holds the handle of its own index entry. */
  ghost predicate HandlesMatch(nodes: Nodes, keys: map<nat, string>) {
    forall n :: n in nodes && nodes[n].kind == Token && nodes[n].parent.Some? ==>
      nodes[n].handle.Some? && nodes[n].handle.value in keys &&
      keys[nodes[n].handle.value] == Key(nodes[n].parent.value, nodes[n].token)
  }

  /** The place for a new child is free. */
  predicate IsFree(t: Tree, p: nat, kind: Kind, token: string) {
    p in t.nodes &&
    match kind
    case Root => false
    case Token => Key(p, token) !in t.index
    case MatchOne => t.nodes[p].one.None?
    case MatchGlob => t.nodes[p].glob.None?
  }

  function NewNode(kind: Kind, token: string, parent: nat, handle: Option<nat>): Node {
    Node(kind, token, None, 0, None, None, [], Some(parent), handle)
  }

  function LinkedTo(n: Node, kind: Kind, c: nat): Node {
    match kind
    case MatchOne => n.(one := Some(c))
    case MatchGlob => n.(glob := Some(c))
    case _ => n.(children := n.children + [c])
  }

  function Grown(t: Tree, p: nat, kind: Kind, token: string, handle: Option<nat>): Tree
    requires IsFree(t, p, kind, token) && p in t.path
  {
    var c := t.next;
    var n := NewNode(kind, token, p, handle);
    Tree(t.nodes[p := LinkedTo(t.nodes[p], kind, c)][c := n],
         t.path[c := t.path[p] + [TokOf(n)]],
         if kind == Token then t.index[Key(p, token) := c] else t.index,
         c + 1)
  }

  /** `nodes'` is `nodes` with one more node `c`, and with `p` changed in its links only. */
  ghost predicate GrewBy(nodes: Nodes, nodes': Nodes, p: nat, kind: Kind, c: nat) {
    && p in nodes && c !in nodes && kind != Root
    && nodes'.Keys == nodes.Keys + {c}
    && (forall n :: n in nodes && n != p ==> nodes'[n] == nodes[n])
    && nodes'[p] == LinkedTo(nodes[p], kind, c)
    && nodes'[c].kind == kind && nodes'[c].parent == Some(p) && nodes'[c].pattern.None? && Childless(nodes'[c])
  }

  lemma GrownGrew(t: Tree, p: nat, kind: Kind, token: string, handle: Option<nat>)
    requires ShapeOk(t.nodes, t.path, t.next) && IsFree(t, p, kind, token)
    ensures GrewBy(t.nodes, Grown(t, p, kind, token, handle).nodes, p, kind, t.next)
  {
    assert t.next !in t.nodes;
  }

  lemma GrewShape(nodes: Nodes, nodes': Nodes, path: Paths, p: nat, kind: Kind, c: nat)
    requires ShapeOk(nodes, path, c) && GrewBy(nodes, nodes', p, kind, c)
    ensures ShapeOk(nodes', path[c := path[p] + [TokOf(nodes'[c])]], c + 1)
  {
    var path' := path[c := path[p] + [TokOf(nodes'[c])]];
    assert nodes'.Keys == path'.Keys;
    forall n | n in nodes' && n != ROOT
      ensures && nodes'[n].kind != Root && nodes'[n].parent.Some? && nodes'[n].parent.value in nodes'
              && nodes'[n].parent.value < n && path'[n] == path'[nodes'[n].parent.value] + [TokOf(nodes'[n])]
    {
      if n != c { assert n in nodes && Meta(nodes'[n]) == Meta(nodes[n]); }
    }
  }

  lemma GrewChildren(nodes: Nodes, nodes': Nodes, path: Paths, p: nat, kind: Kind, c: nat)
    requires ShapeOk(nodes, path, c) && GrewBy(nodes, nodes', p, kind, c)
    ensures forall q: nat, d: nat, k: Kind :: IsChild(nodes', q, d, k) <==> IsChild(nodes, q, d, k) || (q == p && d == c && k == kind)
    ensures forall d: nat, k: Kind :: !IsChild(nodes, c, d, k)
  {
  }

  lemma GrewLinks(nodes: Nodes, nodes': Nodes, path: Paths, p: nat, kind: Kind, c: nat)
    requires ShapeOk(nodes, path, c) && LinksOk(nodes) && GrewBy(nodes, nodes', p, kind, c)
    requires kind == MatchOne ==> nodes[p].one.None?
    requires kind == MatchGlob ==> nodes[p].glob.None?
    ensures LinksOk(nodes')
  {
    hide ShapeOk, IsChild;
    GrewChildren(nodes, nodes', path, p, kind, c);
    assert forall d :: d in nodes[p].children ==> IsChild(nodes, p, d, Token);
    assert c !in nodes[p].children by { if c in nodes[p].children { NoSuchChild(nodes, p, c); } }
  }

  lemma NoSuchChild(nodes: Nodes, p: nat, c: nat)
    requires c !in nodes
    ensures !IsChild(nodes, p, c, Token)
  {
  }

  lemma GrewIndex(nodes: Nodes, nodes': Nodes, path: Paths, index: map<string, Ref>, p: nat, kind: Kind, c: nat)
    requires ShapeOk(nodes, path, c) && IndexOk(nodes, index) && GrewBy(nodes, nodes', p, kind, c)
    requires kind == Token ==> Key(p, nodes'[c].token) !in index
    ensures IndexOk(nodes', if kind == Token then index[Key(p, nodes'[c].token) := c] else index)
  {
    hide Key, ShapeOk, LinkedTo;
    assert SameMeta(nodes, nodes') by { GrewMeta(nodes, nodes', p, kind, c); }
    hide GrewBy;
  }

  /** Nodes keep their kind, token, parent, handle, pattern and payload. */
  ghost predicate SameMeta(nodes: Nodes, nodes': Nodes) {
    forall n :: n in nodes ==> n in nodes' && Meta(nodes'[n]) == Meta(nodes[n])
  }

  function Meta(n: Node): Node {
    n.(one := None, glob := None, children := [])
  }

  lemma GrewMeta(nodes: Nodes, nodes': Nodes, p: nat, kind: Kind, c: nat)
    requires GrewBy(nodes, nodes', p, kind, c)
    ensures SameMeta(nodes, nodes')
  {
  }

  lemma GrewPruned(nodes: Nodes, nodes': Nodes, p: nat, kind: Kind, c: nat)
    requires GrewBy(nodes, nodes', p, kind, c) && PrunedBut(nodes, p) && c != ROOT
    ensures PrunedBut(nodes', c)
  {
    forall n | n in nodes' && n != ROOT && n != c && Childless(nodes'[n]) ensures nodes'[n].pattern.Some? {
      assert n in nodes && n != p;
    }
  }

  /** The stored patterns stay the same when a node that ends none is added. */
  lemma GrewSpells(nodes: Nodes, nodes': Nodes, path: Paths, path': Paths, p: nat, kind: Kind, c: nat, dict: map<Pattern, Entry>)
    requires GrewBy(nodes, nodes', p, kind, c) && nodes.Keys == path.Keys
    requires path'.Keys == path.Keys + {c} && forall n :: n in path ==> path'[n] == path[n]
    requires SpellsOut(nodes, path, dict)
    ensures SpellsOut(nodes', path', dict)
  {
    GrewMeta(nodes, nodes', p, kind, c);
    forall n | n in nodes' && n in path' && nodes'[n].pattern.Some?
      ensures path'[n] in dict && dict[path'[n]] == EntryOf(nodes'[n])
    {
      assert n in nodes && Meta(nodes'[n]) == Meta(nodes[n]);
    }
    forall q | q in dict ensures exists n :: n in nodes' && n in path' && nodes'[n].pattern.Some? && path'[n] == q {
      var n :| n in nodes && n in path && nodes[n].pattern.Some? && path[n] == q;
      assert Meta(nodes'[n]) == Meta(nodes[n]);
    }
  }

  lemma NextIsUnused(t: Tree)
    requires TreeOk(t)
    ensures t.next !in t.nodes && t.next !in t.path && ROOT < t.next
  {
  }

  lemma GrownFields(t: Tree, p: nat, kind: Kind, token: string, handle: Option<nat>)
    requires IsFree(t, p, kind, token) && p in t.path
    ensures var t' := Grown(t, p, kind, token, handle);
            && t.next in t'.nodes && t'.nodes[t.next].kind != Root && t'.nodes[t.next].token == token
            && t'.path == t.path[t.next := t.path[p] + [TokOf(t'.nodes[t.next])]]
            && t'.index == (if kind == Token then t.index[Key(p, token) := t.next] else t.index)
            && t'.next == t.next + 1
  {
  }

  lemma GrownSound(t: Tree, t': Tree, p: nat, kind: Kind)
    requires TreeOk(t) && GrewBy(t.nodes, t'.nodes, p, kind, t.next) && p in t.path
    requires kind == MatchOne ==> t.nodes[p].one.None?
    requires kind == MatchGlob ==> t.nodes[p].glob.None?
    requires kind == Token ==> Key(p, t'.nodes[t.next].token) !in t.index
    requires t'.path == t.path[t.next := t.path[p] + [TokOf(t'.nodes[t.next])]] && t'.next == t.next + 1
    requires t'.index == (if kind == Token then t.index[Key(p, t'.nodes[t.next].token) := t.next] else t.index)
    ensures TreeOk(t')
  {
    hide LinksOk, IndexOk, ShapeOk, Key;
    GrewShape(t.nodes, t'.nodes, t.path, p, kind, t.next);
    GrewLinks(t.nodes, t'.nodes, t.path, p, kind, t.next);
    GrewIndex(t.nodes, t'.nodes, t.path, t.index, p, kind, t.next);
  }

  lemma GrownTree(t: Tree, p: nat, kind: Kind, token: string, handle: Option<nat>)
    requires TreeOk(t) && IsFree(t, p, kind, token)
    ensures p in t.path && TreeOk(Grown(t, p, kind, token, handle))
    ensures GrewBy(t.nodes, Grown(t, p, kind, token, handle).nodes, p, kind, t.next)
  {
    hide LinksOk, IndexOk, ShapeOk, Key;
    ParentFacts(t, p);
    NextIsUnused(t);
    GrownGrew(t, p, kind, token, handle);
    GrownFields(t, p, kind, token, handle);
    hide GrewBy, Grown, TreeOk;
    GrownSound(t, Grown(t, p, kind, token, handle), p, kind);
  }

  /** A new childless node keeps the tree sound; only the new node itself may now be a dead end. */
  lemma GrowKeeps(t: Tree, p: nat, kind: Kind, token: string, handle: Option<nat>, dict: map<Pattern, Entry>)
    requires TreeOk(t) && IsFree(t, p, kind, token) && PrunedBut(t.nodes, p) && SpellsOut(t.nodes, t.path, dict)
    ensures p in t.path
    ensures var t' := Grown(t, p, kind, token, handle);
            TreeOk(t') && PrunedBut(t'.nodes, t.next) && SpellsOut(t'.nodes, t'.path, dict)
  {
    hide LinksOk, IndexOk, ShapeOk, Key, PrunedBut, SpellsOut, GrewBy;
    ParentFacts(t, p);
    var t' := Grown(t, p, kind, token, handle);
    GrownTree(t, p, kind, token, handle);
    NextIsUnused(t);
    GrewPruned(t.nodes, t'.nodes, p, kind, t.next);
    GrewSpells(t.nodes, t'.nodes, t.path, t'.path, p, kind, t.next, dict);
  }

  lemma GrownHandles(t: Tree, p: nat, kind: Kind, token: string, handle: Option<nat>, keys: map<nat, string>, keys': map<nat, string>)
    requires TreeOk(t) && IsFree(t, p, kind, token) && p in t.path && HandlesMatch(t.nodes, keys)
    requires kind == Token ==> handle.Some? && handle.value !in keys && keys' == keys[handle.value := Key(p, token)]
    requires kind != Token ==> keys' == keys
    ensures HandlesMatch(Grown(t, p, kind, token, handle).nodes, keys')
  {
    hide LinksOk, IndexOk, ShapeOk, Key;
    NextIsUnused(t);
    var nodes' := Grown(t, p, kind, token, handle).nodes;
    forall n | n in nodes' && nodes'[n].kind == Token && nodes'[n].parent.Some?
      ensures nodes'[n].handle.Some? && nodes'[n].handle.value in keys' &&
              keys'[nodes'[n].handle.value] == Key(nodes'[n].parent.value, nodes'[n].token)
    {
      if n != t.next { assert n in t.nodes && Meta(nodes'[n]) == Meta(t.nodes[n]); }
    }
  }

  // ----- Taking a childless node off -----

  function Unlinked(n: Node, kind: Kind, c: nat): Node {
    match kind
    case MatchOne => n.(one := None)
    case MatchGlob => n.(glob := None)
    case _ => n.(children := Without(n.children, c))
  }

  /** `nodes'` is `nodes` without the node `c`, and with its parent `p` changed in its links only. */
  ghost predicate ShrankBy(nodes: Nodes, nodes': Nodes, p: nat, kind: Kind, c: nat) {
    && p in nodes && c in nodes && p != c && kind != Root
    && nodes[c].kind == kind && nodes[c].parent == Some(p) && Childless(nodes[c])
    && nodes'.Keys == nodes.Keys - {c}
    && (forall n :: n in nodes' && n != p ==> nodes'[n] == nodes[n])
    && nodes'[p] == Unlinked(nodes[p], kind, c)
  }

  function Shrunk(t: Tree, c: nat): Tree
    requires c in t.nodes && t.nodes[c].parent.Some? && t.nodes[c].parent.value in t.nodes
  {
    var n := t.nodes[c];
    var p := n.parent.value;
    Tree(t.nodes[p := Unlinked(t.nodes[p], n.kind, c)] - {c},
         t.path - {c},
         if n.kind == Token then t.index - {Key(p, n.token)} else t.index,
         t.next)
  }

  lemma ShrankMeta(nodes: Nodes, nodes': Nodes, p: nat, kind: Kind, c: nat)
    requires ShrankBy(nodes, nodes', p, kind, c)
    ensures SameMeta(nodes', nodes)
  {
  }

  lemma NoChildren(nodes: Nodes, c: nat)
    requires LinksOk(nodes) && c in nodes && Childless(nodes[c])
    ensures forall d: nat, k: Kind :: k != Root ==> !IsChild(nodes, c, d, k)
  {
    forall d: nat, k: Kind | k != Root ensures !IsChild(nodes, c, d, k) {
      match k case MatchOne => case MatchGlob => case Token =>
    }
  }

  lemma ShrankNode(nodes: Nodes, nodes': Nodes, path: Paths, next: nat, p: nat, kind: Kind, c: nat, n: nat)
    requires ShapeOk(nodes, path, next) && ShrankBy(nodes, nodes', p, kind, c) && c != ROOT
    requires n in nodes' && n != ROOT && !IsChild(nodes, c, n, nodes[n].kind) && Meta(nodes'[n]) == Meta(nodes[n])
    ensures && nodes'[n].kind != Root && nodes'[n].parent.Some? && nodes'[n].parent.value in nodes'
            && nodes'[n].parent.value < n && n in path - {c} && nodes'[n].parent.value in path - {c}
            && (path - {c})[n] == (path - {c})[nodes'[n].parent.value] + [TokOf(nodes'[n])]
  {
  }

  lemma ShrankShape(nodes: Nodes, nodes': Nodes, path: Paths, next: nat, p: nat, kind: Kind, c: nat)
    requires ShapeOk(nodes, path, next) && LinksOk(nodes) && ShrankBy(nodes, nodes', p, kind, c) && c != ROOT
    ensures ShapeOk(nodes', path - {c}, next)
  {
    assert SameMeta(nodes', nodes) by { ShrankMeta(nodes, nodes', p, kind, c); }
    NoChildren(nodes, c);
    hide LinksOk;
    forall n | n in nodes' && n != ROOT
      ensures && nodes'[n].kind != Root && nodes'[n].parent.Some? && nodes'[n].parent.value in nodes'
              && nodes'[n].parent.value < n
              && (path - {c})[n] == (path - {c})[nodes'[n].parent.value] + [TokOf(nodes'[n])]
    {
      assert Meta(nodes'[n]) == Meta(nodes[n]);
      assert !IsChild(nodes, c, n, nodes[n].kind);
      ShrankNode(nodes, nodes', path, next, p, kind, c, n);
    }
    assert Meta(nodes'[ROOT]) == Meta(nodes[ROOT]);
  }

  lemma ShrankChildren(nodes: Nodes, nodes': Nodes, p: nat, kind: Kind, c: nat)
    requires ShrankBy(nodes, nodes', p, kind, c)
    ensures forall q: nat, d: nat, k: Kind :: IsChild(nodes', q, d, k) <==> IsChild(nodes, q, d, k) && d != c
  {
    ShrankMeta(nodes, nodes', p, kind, c);
    forall q: nat, d: nat, k: Kind ensures IsChild(nodes', q, d, k) <==> IsChild(nodes, q, d, k) && d != c {
      if d in nodes' { assert Meta(nodes'[d]) == Meta(nodes[d]); }
    }
  }

  lemma ShrankLinks(nodes: Nodes, nodes': Nodes, p: nat, kind: Kind, c: nat)
    requires LinksOk(nodes) && ShrankBy(nodes, nodes', p, kind, c)
    ensures LinksOk(nodes')
  {
    ShrankChildren(nodes, nodes', p, kind, c);
    assert IsChild(nodes, p, c, kind);
    forall q | q in nodes && q != p
      ensures nodes[q].one != Some(c) && nodes[q].glob != Some(c) && c !in nodes[q].children
    {
    }
    hide IsChild;
  }

  lemma ShrankIndex(nodes: Nodes, nodes': Nodes, index: map<string, Ref>, p: nat, kind: Kind, c: nat)
    requires IndexOk(nodes, index) && ShrankBy(nodes, nodes', p, kind, c)
    ensures IndexOk(nodes', if kind == Token then index - {Key(p, nodes[c].token)} else index)
  {
    hide Key;
    assert SameMeta(nodes', nodes) by { ShrankMeta(nodes, nodes', p, kind, c); }
    hide Unlinked;
  }

  /** A node without children that ends no pattern can go; its parent may then be the dead end. */
  lemma ShrinkKeeps(t: Tree, c: nat, dict: map<Pattern, Entry>)
    requires TreeOk(t) && c in t.nodes && c != ROOT && Childless(t.nodes[c]) && t.nodes[c].pattern.None?
    requires PrunedBut(t.nodes, c) && SpellsOut(t.nodes, t.path, dict)
    ensures t.nodes[c].parent.Some? && t.nodes[c].parent.value in t.nodes && t.nodes[c].parent.value < c
    ensures var t' := Shrunk(t, c);
            TreeOk(t') && PrunedBut(t'.nodes, t.nodes[c].parent.value) && SpellsOut(t'.nodes, t'.path, dict) &&
            t.nodes[c].parent.value in t'.nodes
  {
    hide LinksOk, IndexOk, ShapeOk, Key, PrunedBut, SpellsOut;
    ParentFacts(t, c);
    var t', p, kind := Shrunk(t, c), t.nodes[c].parent.value, t.nodes[c].kind;
    ShrunkShrank(t, c);
    hide ShrankBy, Unlinked;
    ShrunkSound(t, t', p, kind, c);
    ShrankPruned(t.nodes, t'.nodes, p, kind, c);
    ShrankSpells(t.nodes, t'.nodes, t.path, p, kind, c, dict);
  }

  lemma ShrunkShrank(t: Tree, c: nat)
    requires TreeOk(t) && c in t.nodes && c != ROOT && Childless(t.nodes[c])
    ensures t.nodes[c].parent.Some? && t.nodes[c].parent.value in t.nodes
    ensures ShrankBy(t.nodes, Shrunk(t, c).nodes, t.nodes[c].parent.value, t.nodes[c].kind, c)
  {
    hide LinksOk, IndexOk, Key;
    ParentFacts(t, c);
    hide ShapeOk;
  }

  lemma ShrunkSound(t: Tree, t': Tree, p: nat, kind: Kind, c: nat)
    requires TreeOk(t) && ShrankBy(t.nodes, t'.nodes, p, kind, c) && c != ROOT
    requires t'.path == t.path - {c} && t'.next == t.next
    requires t'.index == if kind == Token then t.index - {Key(p, t.nodes[c].token)} else t.index
    ensures TreeOk(t')
  {
    hide LinksOk, IndexOk, ShapeOk, Key;
    ShrankShape(t.nodes, t'.nodes, t.path, t.next, p, kind, c);
    ShrankLinks(t.nodes, t'.nodes, p, kind, c);
    ShrankIndex(t.nodes, t'.nodes, t.index, p, kind, c);
  }

  lemma ShrankPruned(nodes: Nodes, nodes': Nodes, p: nat, kind: Kind, c: nat)
    requires ShrankBy(nodes, nodes', p, kind, c) && PrunedBut(nodes, c)
    ensures PrunedBut(nodes', p)
  {
  }

  lemma ShrankSpells(nodes: Nodes, nodes': Nodes, path: Paths, p: nat, kind: Kind, c: nat, dict: map<Pattern, Entry>)
    requires ShrankBy(nodes, nodes', p, kind, c) && nodes[c].pattern.None? && SpellsOut(nodes, path, dict)
    ensures SpellsOut(nodes', path - {c}, dict)
  {
    ShrankMeta(nodes, nodes', p, kind, c);
    hide Unlinked;
    forall n | n in nodes' && n in path - {c} && nodes'[n].pattern.Some?
      ensures path[n] in dict && dict[path[n]] == EntryOf(nodes'[n])
    {
      assert Meta(nodes'[n]) == Meta(nodes[n]);
    }
    forall q | q in dict ensures exists n :: n in nodes' && n in path - {c} && nodes'[n].pattern.Some? && (path - {c})[n] == q {
      var n :| n in nodes && n in path && nodes[n].pattern.Some? && path[n] == q;
      assert Meta(nodes'[n]) == Meta(nodes[n]);
    }
  }

  /** Only the removed node's own handle goes with it. */
  lemma ShrunkHandles(t: Tree, c: nat, keys: map<nat, string>)
    requires TreeOk(t) && c in t.nodes && c != ROOT && Childless(t.nodes[c]) && HandlesMatch(t.nodes, keys)
    ensures t.nodes[c].parent.Some? && t.nodes[c].parent.value in t.nodes
    ensures t.nodes[c].kind == Token ==> t.nodes[c].handle.Some? && t.nodes[c].handle.value in keys
    ensures t.nodes[c].kind == Token ==> keys[t.nodes[c].handle.value] == Key(t.nodes[c].parent.value, t.nodes[c].token)
    ensures t.nodes[c].kind == Token ==> HandlesMatch(Shrunk(t, c).nodes, keys - {t.nodes[c].handle.value})
    ensures t.nodes[c].kind != Token ==> HandlesMatch(Shrunk(t, c).nodes, keys)
  {
    hide LinksOk, ShapeOk, Key;
    ParentFacts(t, c);
    ShrunkShrank(t, c);
    var nodes', p := Shrunk(t, c).nodes, t.nodes[c].parent.value;
    ShrankMeta(t.nodes, nodes', p, t.nodes[c].kind, c);
    hide ShrankBy, Unlinked;
    forall n | n in nodes' && nodes'[n].kind == Token && nodes'[n].parent.Some?
      ensures nodes'[n].handle.Some? && nodes'[n].handle.value in keys &&
              keys[nodes'[n].handle.value] == Key(nodes'[n].parent.value, nodes'[n].token)
      ensures t.nodes[c].kind == Token ==> nodes'[n].handle != t.nodes[c].handle
    {
      assert Meta(nodes'[n]) == Meta(t.nodes[n]);
      if t.nodes[c].kind == Token && nodes'[n].handle == t.nodes[c].handle {
        SameKeySameNode(t.nodes, t.index, n, c);
      }
    }
  }

  lemma SameKeySameNode(nodes: Nodes, index: map<string, Ref>, m: nat, n: nat)
    requires IndexOk(nodes, index) && m in nodes && n in nodes
    requires nodes[m].kind == Token && nodes[n].kind == Token && nodes[m].parent.Some? && nodes[n].parent.Some?
    requires Key(nodes[m].parent.value, nodes[m].token) == Key(nodes[n].parent.value, nodes[n].token)
    ensures m == n
  {
  }

  // ----- Marking and unmarking the end of a pattern -----

  function Marked(t: Tree, n: nat, pattern: Option<string>, payload: Ref): Tree
    requires n in t.nodes
  {
    t.(nodes := t.nodes[n := t.nodes[n].(pattern := pattern, payload := payload)])
  }

  /** Nodes differ at most in the pattern they end and its payload. */
  ghost predicate SameBones(nodes: Nodes, nodes': Nodes) {
    nodes'.Keys == nodes.Keys && forall n :: n in nodes ==> Bones(nodes'[n]) == Bones(nodes[n])
  }

  function Bones(n: Node): Node {
    n.(pattern := None, payload := 0)
  }

  lemma BonesShape(nodes: Nodes, nodes': Nodes, path: Paths, next: nat)
    requires ShapeOk(nodes, path, next) && SameBones(nodes, nodes')
    ensures ShapeOk(nodes', path, next)
  {
    assert Bones(nodes'[ROOT]) == Bones(nodes[ROOT]);
    forall n | n in nodes' && n != ROOT
      ensures && nodes'[n].kind != Root && nodes'[n].parent.Some? && nodes'[n].parent.value in nodes'
              && nodes'[n].parent.value < n && path[n] == path[nodes'[n].parent.value] + [TokOf(nodes'[n])]
    {
      assert Bones(nodes'[n]) == Bones(nodes[n]);
    }
  }

  lemma BonesLinks(nodes: Nodes, nodes': Nodes)
    requires LinksOk(nodes) && SameBones(nodes, nodes')
    ensures LinksOk(nodes')
  {
    forall q: nat, d: nat, k: Kind ensures IsChild(nodes', q, d, k) <==> IsChild(nodes, q, d, k) {
      if d in nodes { assert Bones(nodes'[d]) == Bones(nodes[d]); }
    }
    hide IsChild;
  }

  lemma BonesIndex(nodes: Nodes, nodes': Nodes, index: map<string, Ref>)
    requires IndexOk(nodes, index) && SameBones(nodes, nodes')
    ensures IndexOk(nodes', index)
  {
    hide Key;
  }

  lemma BonesHandles(nodes: Nodes, nodes': Nodes, keys: map<nat, string>)
    requires HandlesMatch(nodes, keys) && SameBones(nodes, nodes')
    ensures HandlesMatch(nodes', keys)
  {
    hide Key;
  }

  lemma MarkKeepsTree(t: Tree, n: nat, pattern: Option<string>, payload: Ref, keys: map<nat, string>)
    requires TreeOk(t) && n in t.nodes && HandlesMatch(t.nodes, keys)
    ensures TreeOk(Marked(t, n, pattern, payload)) && HandlesMatch(Marked(t, n, pattern, payload).nodes, keys)
  {
    hide LinksOk, IndexOk, ShapeOk, HandlesMatch;
    var t' := Marked(t, n, pattern, payload);
    assert SameBones(t.nodes, t'.nodes);
    BonesShape(t.nodes, t'.nodes, t.path, t.next);
    BonesLinks(t.nodes, t'.nodes);
    BonesIndex(t.nodes, t'.nodes, t.index);
    BonesHandles(t.nodes, t'.nodes, keys);
  }

  lemma MarkedSpells(nodes: Nodes, path: Paths, n: nat, node: Node, dict: map<Pattern, Entry>)
    requires SpellsOut(nodes, path, dict) && n in nodes && n in path && node.pattern.Some?
    requires forall m :: m in nodes && m in path && nodes[m].pattern.Some? && m != n ==> path[m] != path[n]
    ensures SpellsOut(nodes[n := node], path, dict[path[n] := EntryOf(node)])
  {
    var nodes' := nodes[n := node];
    forall q | q in dict && q != path[n] ensures exists m :: m in nodes' && m in path && nodes'[m].pattern.Some? && path[m] == q {
      var m :| m in nodes && m in path && nodes[m].pattern.Some? && path[m] == q;
      assert nodes'[m] == nodes[m];
    }
    assert nodes'[n].pattern.Some?;
  }

  lemma UnmarkedSpells(nodes: Nodes, path: Paths, n: nat, node: Node, dict: map<Pattern, Entry>)
    requires SpellsOut(nodes, path, dict) && n in nodes && n in path && node.pattern.None?
    requires forall m :: m in nodes && m in path && nodes[m].pattern.Some? && m != n ==> path[m] != path[n]
    ensures SpellsOut(nodes[n := node], path, dict - {path[n]})
  {
    var nodes' := nodes[n := node];
    forall q | q in dict - {path[n]} ensures exists m :: m in nodes' && m in path && nodes'[m].pattern.Some? && path[m] == q {
      var m :| m in nodes && m in path && nodes[m].pattern.Some? && path[m] == q;
      assert nodes'[m] == nodes[m];
    }
  }

  /** Marking the last node of a new pattern adds exactly that pattern. */
  lemma MarkAdds(t: Tree, n: nat, pattern: string, payload: Ref, dict: map<Pattern, Entry>)
    requires TreeOk(t) && n in t.nodes && n != ROOT && t.nodes[n].pattern.None?
    requires PrunedBut(t.nodes, n) && SpellsOut(t.nodes, t.path, dict)
    ensures n in t.path && t.path[n] !in dict
    ensures var t' := Marked(t, n, Some(pattern), payload);
            Pruned(t'.nodes) && SpellsOut(t'.nodes, t'.path, dict[t.path[n] := Entry(payload, pattern)])
  {
    hide TreeOk;
    ParentFacts(t, n);
    forall m | m in t.nodes && m in t.path && m != n ensures t.path[m] != t.path[n] {
      if t.path[m] == t.path[n] { PathsAreDistinct(t, m, n); }
    }
    MarkedSpells(t.nodes, t.path, n, t.nodes[n].(pattern := Some(pattern), payload := payload), dict);
  }

  /** Unmarking takes out exactly the pattern the node ended. */
  lemma UnmarkRemoves(t: Tree, n: nat, dict: map<Pattern, Entry>)
    requires TreeOk(t) && n in t.nodes && t.nodes[n].pattern.Some?
    requires Pruned(t.nodes) && SpellsOut(t.nodes, t.path, dict)
    ensures n in t.path && t.path[n] in dict && dict[t.path[n]] == EntryOf(t.nodes[n]) && n != ROOT
    ensures var t' := Marked(t, n, None, 0);
            PrunedBut(t'.nodes, n) && SpellsOut(t'.nodes, t'.path, dict - {t.path[n]})
  {
    hide TreeOk;
    TreeRoot(t);
    ParentFacts(t, n);
    forall m | m in t.nodes && m in t.path && m != n ensures t.path[m] != t.path[n] {
      if t.path[m] == t.path[n] { PathsAreDistinct(t, m, n); }
    }
    UnmarkedSpells(t.nodes, t.path, n, t.nodes[n].(pattern := None, payload := 0), dict);
  }

  lemma TreeRoot(t: Tree)
    requires TreeOk(t)
    ensures ROOT in t.nodes
  {
  }
}
