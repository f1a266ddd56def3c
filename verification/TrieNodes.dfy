/** The nodes of the pattern tree, their links, the hash keys of literal nodes, and what must hold between them. */
module TrieNodes {
  import opened Patterns
  import opened Hash
  import opened Options

  // ----- Hash keys -----

  function HexDigit(d: nat): (c: char)
    requires d < 16
    ensures c != '/'
  {
    if d < 10 then '0' + d as char else 'A' + (d - 10) as char
  }

  /** Upper-case hexadecimal without leading zeros. */
  function Hex(n: nat): (s: string)
    ensures |s| > 0 && '/' !in s
  {
    if n < 16 then [HexDigit(n)] else Hex(n / 16) + [HexDigit(n % 16)]
  }

  /** The key of a literal child: the parent's prefix, a slash, the token. */
  function Key(prefix: nat, token: string): string {
    Hex(prefix) + "/" + token
  }

  lemma HexDigitInjective(d: nat, e: nat)
    requires d < 16 && e < 16 && HexDigit(d) == HexDigit(e)
    ensures d == e
  {
  }

  lemma {:induction false} HexInjective(m: nat, n: nat)
    requires Hex(m) == Hex(n)
    ensures m == n
  {
    var s, t := Hex(m), Hex(n);
    assert s[|s| - 1] == HexDigit(m % 16) && t[|t| - 1] == HexDigit(n % 16);
    HexDigitInjective(m % 16, n % 16);
    if m >= 16 && n >= 16 {
      assert s[..|s| - 1] == Hex(m / 16) && t[..|t| - 1] == Hex(n / 16);
      HexInjective(m / 16, n / 16);
    }
  }

  /** Different (prefix, token) pairs have different keys, whatever the tokens contain. */
  lemma KeyInjective(p: nat, s: string, q: nat, t: string)
    requires Key(p, s) == Key(q, t)
    ensures p == q && s == t
  {
    var k, a, b := Key(p, s), Hex(p), Hex(q);
    assert k[|a|] == '/' && k[|b|] == '/';
    assert forall i :: 0 <= i < |a| ==> k[i] == a[i] && k[i] != '/';
    assert forall i :: 0 <= i < |b| ==> k[i] == b[i] && k[i] != '/';
    assert a == k[..|a|] && b == k[..|b|];
    HexInjective(p, q);
    assert s == k[|a| + 1..] && t == k[|b| + 1..];
  }

  // ----- Nodes -----

  datatype Kind = Root | Token | MatchOne | MatchGlob

  /** A node; other nodes are named by their key prefix, which no two nodes share. */
  datatype Node = Node(
    kind: Kind,
    token: string,
    pattern: Option<string>,
    payload: Ref,
    one: Option<nat>,
    glob: Option<nat>,
    children: seq<nat>,
    parent: Option<nat>,
    handle: Option<nat>)

  type Nodes = map<nat, Node>
  type Paths = map<nat, Pattern>

  /** The first prefix handed out; the root gets it. */
  const ROOT: nat := 1

  function TokOf(n: Node): Tok
    requires n.kind != Root
  {
    match n.kind
    case Token => Lit(n.token)
    case MatchOne => One
    case _ => Glob
  }

  predicate Childless(n: Node) {
    n.one.None? && n.glob.None? && n.children == []
  }

  /** Every node but the root hangs below an older node, and its path extends the parent's path by its own token. */
  ghost predicate ShapeOk(nodes: Nodes, path: Paths, next: nat) {
    && ROOT in nodes && nodes.Keys == path.Keys
    && nodes[ROOT].kind == Root && nodes[ROOT].parent.None? && path[ROOT] == []
    && (forall n :: n in nodes ==> ROOT <= n < next)
    && (forall n :: n in nodes && n != ROOT ==>
        && nodes[n].kind != Root && nodes[n].parent.Some? && nodes[n].parent.value in nodes
        && nodes[n].parent.value < n
        && path[n] == path[nodes[n].parent.value] + [TokOf(nodes[n])])
  }

  /** A node's links lead exactly to the nodes that name it as their parent. */
  ghost predicate LinksOk(nodes: Nodes) {
    && (forall p :: p in nodes && nodes[p].one.Some? ==> IsChild(nodes, p, nodes[p].one.value, MatchOne))
    && (forall p :: p in nodes && nodes[p].glob.Some? ==> IsChild(nodes, p, nodes[p].glob.value, MatchGlob))
    && (forall p, c :: p in nodes && c in nodes[p].children ==> IsChild(nodes, p, c, Token))
    && (forall p, i, j :: p in nodes && 0 <= i < j < |nodes[p].children| ==> nodes[p].children[i] != nodes[p].children[j])
    && (forall p: nat, c: nat :: p in nodes && IsChild(nodes, p, c, MatchOne) ==> nodes[p].one == Some(c))
    && (forall p: nat, c: nat :: p in nodes && IsChild(nodes, p, c, MatchGlob) ==> nodes[p].glob == Some(c))
    && (forall p: nat, c: nat :: p in nodes && IsChild(nodes, p, c, Token) ==> c in nodes[p].children)
  }

  predicate IsChild(nodes: Nodes, p: nat, c: nat, kind: Kind) {
    c in nodes && nodes[c].kind == kind && nodes[c].parent == Some(p)
  }

  /** The index holds exactly one entry for each literal node, under that node's key. */
  ghost predicate IndexOk(nodes: Nodes, index: map<string, Ref>) {
    && (forall k :: k in index ==>
        index[k] in nodes && nodes[index[k]].kind == Token && nodes[index[k]].parent.Some? &&
        k == Key(nodes[index[k]].parent.value, nodes[index[k]].token))
    && (forall n :: n in nodes && nodes[n].kind == Token && nodes[n].parent.Some? ==>
        var k := Key(nodes[n].parent.value, nodes[n].token); k in index && index[k] == n)
  }

  /** No dead branches: every childless node but the root ends a stored pattern; the root never does. */
  ghost predicate Pruned(nodes: Nodes) {
    && (ROOT in nodes ==> nodes[ROOT].pattern.None?)
    && (forall n :: n in nodes && n != ROOT && Childless(nodes[n]) ==> nodes[n].pattern.Some?)
  }

  /** What is stored of a pattern: its payload, and its text as it was added. */
  datatype Entry = Entry(payload: Ref, text: string)

  function EntryOf(n: Node): Entry
    requires n.pattern.Some?
  {
    Entry(n.payload, n.pattern.value)
  }

  /** The terminal nodes spell exactly the stored patterns. */
  ghost predicate SpellsOut(nodes: Nodes, path: Paths, dict: map<Pattern, Entry>) {
    && (forall n :: n in nodes && n in path && nodes[n].pattern.Some? ==> path[n] in dict && dict[path[n]] == EntryOf(nodes[n]))
    && (forall p :: p in dict ==> exists n :: n in nodes && n in path && nodes[n].pattern.Some? && path[n] == p)
  }

  /** The tree as one value: the nodes, the path each spells, the index of literal nodes, the next unused prefix. */
  datatype Tree = Tree(nodes: Nodes, path: Paths, index: map<string, Ref>, next: nat)

  ghost predicate TreeOk(t: Tree) {
    ShapeOk(t.nodes, t.path, t.next) && LinksOk(t.nodes) && IndexOk(t.nodes, t.index)
  }

  /** The index finds a literal child by parent and token, and nothing else. */
  lemma IndexFindsChild(t: Tree, p: nat, s: string)
    requires TreeOk(t) && p in t.nodes
    ensures Key(p, s) in t.index ==>
              t.index[Key(p, s)] in t.nodes[p].children && IsChild(t.nodes, p, t.index[Key(p, s)], Token) &&
              t.nodes[t.index[Key(p, s)]].token == s
    ensures forall c :: c in t.nodes[p].children && t.nodes[c].token == s ==> Key(p, s) in t.index && t.index[Key(p, s)] == c
  {
    if Key(p, s) in t.index {
      var c := t.index[Key(p, s)];
      KeyInjective(p, s, t.nodes[c].parent.value, t.nodes[c].token);
      assert IsChild(t.nodes, p, c, Token);
    }
  }

  /** No two nodes spell the same path. */
  lemma {:induction false} PathsAreDistinct(t: Tree, m: nat, n: nat)
    requires TreeOk(t) && m in t.nodes && n in t.nodes && t.path[m] == t.path[n]
    ensures m == n
    decreases |t.path[m]|
  {
    if m != ROOT && n != ROOT {
      var p, q := t.nodes[m].parent.value, t.nodes[n].parent.value;
      var x, y := t.path[m], t.path[n];
      assert x[..|x| - 1] == t.path[p] && y[..|y| - 1] == t.path[q];
      assert x[|x| - 1] == TokOf(t.nodes[m]) && y[|y| - 1] == TokOf(t.nodes[n]);
      PathsAreDistinct(t, p, q);
      assert IsChild(t.nodes, p, m, t.nodes[m].kind) && IsChild(t.nodes, p, n, t.nodes[n].kind);
    }
  }

  ghost predicate IsPathOf(t: Tree, p: Pattern) {
    exists n :: n in t.nodes && n in t.path && t.path[n] == p
  }

  /** Every front part of a path is a path. */
  lemma {:induction false} FrontsArePaths(t: Tree, n: nat, k: nat)
    requires ShapeOk(t.nodes, t.path, t.next) && n in t.nodes && k <= |t.path[n]|
    ensures IsPathOf(t, t.path[n][..k])
    decreases |t.path[n]|
  {
    if k == |t.path[n]| {
      assert t.path[n][..k] == t.path[n];
    } else {
      var p := t.nodes[n].parent.value;
      assert t.path[n][..k] == t.path[p][..k];
      FrontsArePaths(t, p, k);
    }
  }

  lemma SomeChild(nodes: Nodes, n: nat) returns (c: nat)
    requires LinksOk(nodes) && n in nodes && !Childless(nodes[n])
    ensures c in nodes && nodes[c].parent == Some(n)
  {
    if nodes[n].one.Some? {
      c := nodes[n].one.value;
    } else if nodes[n].glob.Some? {
      c := nodes[n].glob.value;
    } else {
      c := nodes[n].children[0];
      assert c in nodes[n].children;
    }
    assert IsChild(nodes, n, c, nodes[c].kind);
  }

  /** Below every node there is a terminal one. */
  lemma {:induction false} LeadsToTerminal(t: Tree, n: nat) returns (m: nat)
    requires TreeOk(t) && Pruned(t.nodes) && n in t.nodes && n != ROOT
    ensures m in t.nodes && t.nodes[m].pattern.Some? && t.path[n] <= t.path[m]
    decreases t.next - n
  {
    if t.nodes[n].pattern.Some? {
      m := n;
    } else {
      hide LinksOk, IndexOk;
      var c := SomeChild(t.nodes, n);
      m := LeadsToTerminal(t, c);
    }
  }

  /** The tree's shape is determined by what it stores: its paths are the fronts of the stored patterns and the root. */
  lemma ShapeIsDetermined(t: Tree, dict: map<Pattern, Entry>, p: Pattern)
    requires TreeOk(t) && Pruned(t.nodes) && SpellsOut(t.nodes, t.path, dict)
    ensures IsPathOf(t, p) <==> p == [] || exists q :: q in dict && p <= q
  {
    hide LinksOk, IndexOk, Pruned;
    if p == [] {
      assert t.path[ROOT] == p;
    } else if IsPathOf(t, p) {
      var n :| n in t.nodes && t.path[n] == p;
      var m := LeadsToTerminal(t, n);
      assert t.path[m] in dict && p <= t.path[m];
    }
    if q :| q in dict && p <= q {
      var m :| m in t.nodes && t.path[m] == q;
      FrontsArePaths(t, m, |p|);
      assert t.path[m][..|p|] == p;
    }
  }

  lemma ParentFacts(t: Tree, c: nat)
    requires TreeOk(t) && c in t.nodes
    ensures t.nodes.Keys == t.path.Keys && ROOT in t.nodes && c < t.next
    ensures c == ROOT <==> t.nodes[c].parent.None?
    ensures c == ROOT <==> t.path[c] == []
    ensures c != ROOT ==>
              && t.nodes[c].kind != Root && t.nodes[c].parent.value in t.nodes && t.nodes[c].parent.value < c
              && t.path[c] == t.path[t.nodes[c].parent.value] + [TokOf(t.nodes[c])]
  {
  }

  /** The child of `n` on the way to `m`. */
  lemma ChildOnPath(t: Tree, n: nat, m: nat) returns (c: nat)
    requires TreeOk(t) && n in t.nodes && m in t.nodes && n in t.path && m in t.path && t.path[n] < t.path[m]
    ensures c in t.nodes && c != ROOT && t.nodes[c].kind != Root && IsChild(t.nodes, n, c, t.nodes[c].kind)
    ensures TokOf(t.nodes[c]) == t.path[m][|t.path[n]|]
  {
    hide LinksOk, IndexOk, ShapeOk;
    var k := |t.path[n]|;
    FrontsArePaths(t, m, k + 1);
    c :| c in t.nodes && c in t.path && t.path[c] == t.path[m][..k + 1];
    ParentFacts(t, c);
    var p := t.nodes[c].parent.value;
    assert t.path[p] == t.path[c][..k] == t.path[n];
    PathsAreDistinct(t, p, n);
  }
}
