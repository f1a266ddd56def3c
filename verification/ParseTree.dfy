/** The pattern tree as an object: adding, getting, removing and searching patterns given as text.
    It refines a finite map from stored patterns (rewritten token lists) to payloads. */
module ParseTree {
  import opened Patterns
  import opened Tokens
  import opened Spellings
  import opened Rewriting
  import opened Hash
  import opened TrieNodes
  import opened TrieUpdates
  import opened TrieSearch
  import opened Options

  datatype Error = NoError | InvalidPattern | AlreadyExists

  /** What a callback that answers `go` gets to see of the visits: it is not called again once it answers false. */
  function Seen(visits: seq<nat>, go: nat -> bool): seq<nat> {
    if visits == [] then []
    else if !go(visits[0]) then [visits[0]]
    else [visits[0]] + Seen(visits[1..], go)
  }

  predicate AllGo(visits: seq<nat>, go: nat -> bool) {
    visits == [] || (go(visits[0]) && AllGo(visits[1..], go))
  }

  lemma {:induction false} AllGoConcat(x: seq<nat>, y: seq<nat>, go: nat -> bool)
    ensures AllGo(x + y, go) <==> AllGo(x, go) && AllGo(y, go)
  {
    if x == [] {
      assert x + y == y;
    } else {
      AllGoConcat(x[1..], y, go);
      assert (x + y)[1..] == x[1..] + y && (x + y)[0] == x[0];
    }
  }

  lemma {:induction false} SeenConcat(x: seq<nat>, y: seq<nat>, go: nat -> bool)
    ensures AllGo(x, go) ==> Seen(x + y, go) == x + Seen(y, go)
    ensures !AllGo(x, go) ==> Seen(x + y, go) == Seen(x, go)
  {
    if x == [] {
      assert x + y == y;
    } else {
      SeenConcat(x[1..], y, go);
      assert (x + y)[1..] == x[1..] + y && (x + y)[0] == x[0];
      if go(x[0]) {
        assert Seen(x + y, go) == [x[0]] + Seen(x[1..] + y, go);
        assert x == [x[0]] + x[1..];
      }
    }
  }

  /** The callback sees visits in order, and all of them unless it stops at one. */
  lemma {:induction false} SeenIsPart(x: seq<nat>, go: nat -> bool)
    ensures Seen(x, go) <= x
    ensures Seen(x, go) == x || exists m :: m in Seen(x, go) && !go(m)
  {
    if x != [] && go(x[0]) {
      SeenIsPart(x[1..], go);
      assert x == [x[0]] + x[1..];
    }
  }

  lemma {:induction false} SeenAll(x: seq<nat>, go: nat -> bool)
    requires AllGo(x, go)
    ensures Seen(x, go) == x
  {
    if x != [] { SeenAll(x[1..], go); }
  }

  /** The answer of a search whose unstopped visits are `all`. */
  ghost predicate Answers(seen: seq<nat>, on: bool, all: seq<nat>, go: nat -> bool) {
    seen == Seen(all, go) && (on <==> AllGo(all, go))
  }

  lemma AnswersNothing(go: nat -> bool)
    ensures Answers([], true, [], go)
  {
  }

  lemma AnswersConcat(seen: seq<nat>, more: seq<nat>, on: bool, x: seq<nat>, y: seq<nat>, go: nat -> bool)
    requires Answers(seen, true, x, go) && Answers(more, on, y, go)
    ensures Answers(seen + more, on, x + y, go)
  {
    hide Seen, AllGo;
    SeenAll(x, go);
    SeenConcat(x, y, go);
    AllGoConcat(x, y, go);
  }

  lemma AnswersStop(seen: seq<nat>, x: seq<nat>, y: seq<nat>, go: nat -> bool)
    requires Answers(seen, false, x, go)
    ensures Answers(seen, false, x + y, go)
  {
    hide Seen, AllGo;
    SeenConcat(x, y, go);
    AllGoConcat(x, y, go);
  }

  lemma RestEnds(ty: TreeType, s: string, it: TokenIter)
    requires ValidIter(ty, s, it)
    ensures Done(it) <==> Rest(ty, s, it) == []
    ensures !Done(it) ==> Rest(ty, s, it)[0] == s[it.begin..it.end]
  {
    var y := s[it.begin..it.term];
    assert y[..it.end - it.begin] == s[it.begin..it.end];
  }

  /** A normal form does not end in `#.#`. */
  lemma NormalFormHasNoGlobPair(p: Pattern)
    requires NormalForm(p)
    ensures !EndsInGlobPair(p)
  {
    if |p| >= 2 && p[|p| - 2] == Glob { assert p[|p| - 2 + 1].Lit?; }
  }

  lemma EmptyTree(t: Tree)
    requires t == Tree(map[ROOT := Node(Root, "", None, 0, None, None, [], None, None)], map[ROOT := []], map[], ROOT + 1)
    ensures TreeOk(t) && Pruned(t.nodes) && HandlesMatch(t.nodes, map[]) && SpellsOut(t.nodes, t.path, map[])
  {
  }

  lemma ReachedIsVisited(t: Tree, dict: map<Pattern, Entry>, v: Value, p: Pattern)
    requires TreeOk(t) && SpellsOut(t.nodes, t.path, dict) && ROOT in t.nodes
    ensures p in dict && Reaches(p, v) <==> exists m :: m in At(t, ROOT, v) && m in t.path && t.path[m] == p
  {
    hide TreeOk, At;
    TreeHasRoot(t);
    if p in dict && Reaches(p, v) {
      var m :| m in t.nodes && m in t.path && t.nodes[m].pattern.Some? && t.path[m] == p;
      assert Visible(t, ROOT, m);
      VisitedIsReached(t, v, m);
    }
    if m :| m in At(t, ROOT, v) && m in t.path && t.path[m] == p {
      VisitedIsReached(t, v, m);
    }
  }

  ghost predicate OnlyMatches(t: Tree, dict: map<Pattern, Entry>, seen: seq<nat>, v: Value) {
    forall m :: m in seen ==> m in t.path && t.path[m] in dict && Matches(t.path[m], v)
  }

  ghost predicate AllMatches(t: Tree, dict: map<Pattern, Entry>, seen: seq<nat>, v: Value) {
    forall p :: p in dict && Matches(p, v) ==> exists m :: m in seen && m in t.path && t.path[m] == p
  }

  lemma SeenMatches(t: Tree, dict: map<Pattern, Entry>, v: Value, go: nat -> bool)
    requires TreeOk(t) && SpellsOut(t.nodes, t.path, dict) && ROOT in t.nodes
    ensures OnlyMatches(t, dict, Seen(At(t, ROOT, v), go), v)
  {
    hide TreeOk, At;
    SeenIsPart(At(t, ROOT, v), go);
    forall m | m in At(t, ROOT, v) ensures m in t.path && t.path[m] in dict && Matches(t.path[m], v) {
      VisitedIsReached(t, v, m);
      ReachedIsMatched(t.path[m], v);
    }
  }

  /** A search none of whose callbacks stops it finds every stored pattern that matches. */
  lemma SeenAllMatches(t: Tree, dict: map<Pattern, Entry>, v: Value, go: nat -> bool)
    requires TreeOk(t) && Pruned(t.nodes) && SpellsOut(t.nodes, t.path, dict) && ROOT in t.nodes
    requires forall p :: p in dict ==> !EndsInGlobPair(p)
    ensures (forall m :: m in Seen(At(t, ROOT, v), go) ==> go(m)) ==> AllMatches(t, dict, Seen(At(t, ROOT, v), go), v)
  {
    hide TreeOk, At, EndsInGlobPair;
    SeenIsPart(At(t, ROOT, v), go);
    SearchIsExact(t, dict, v);
  }

  predicate GlobOnlyLast(p: Pattern) {
    forall i :: 0 <= i < |p| - 1 ==> p[i] != Glob
  }

  /** Legal MQTT patterns never end in `#.#`, so a search finds them all. */
  lemma LegalMqttIsFound(p: Pattern, v: Value)
    requires p != [] && GlobOnlyLast(p)
    ensures Reaches(p, v) == Matches(p, v)
  {
    SearchMeaning(p);
  }

  /** Each stored text spells its pattern. */
  ghost predicate TextsOk(ty: TreeType, dict: map<Pattern, Entry>) {
    forall p :: p in dict ==> PatternOf(ty, dict[p].text) == p
  }

  /** Two texts can name the same pattern and differ: in the separator between two tokens, in those in front, and in
      one at the end. */
  lemma SeparatorSpellingIsLost()
    ensures StoredPattern(Address, "a.b") == StoredPattern(Address, "a/b")
    ensures StoredSpelling(Address, "a.b") != StoredSpelling(Address, "a/b")
    ensures StoredPattern(Amqp010, ".a.b") == StoredPattern(Amqp010, "a.b")
    ensures StoredSpelling(Amqp010, ".a.b") != StoredSpelling(Amqp010, "a.b")
    ensures StoredPattern(Mqtt, "a/b/") == StoredPattern(Mqtt, "a/b")
    ensures StoredSpelling(Mqtt, "a/b/") != StoredSpelling(Mqtt, "a/b")
  {
    hide Split, Seps, FirstSep, SkipSeps, ClassifyAll, Normalize, SepsLeft, StoredPattern, StoredSpelling;
    PlainSpelling('.');
    PlainSpelling('/');
    MqttSpelling("a/b");
    MqttSpelling("a/b/");
    LeadingSeparator(Amqp010, '.', "a.b");
    assert ['.'] + "a.b" == ".a.b";
    TrailingSeparator(Mqtt, "a/b", '/');
    assert "a/b" + ['/'] == "a/b/";
  }

  lemma MqttSpelling(s: string)
    ensures StoredSpelling(Mqtt, s) == SpellingOf(Mqtt, s)
  {
  }

  /** Two literals and the separator between them. */
  lemma PlainSpelling(c: char)
    requires IsSep(Address, c)
    ensures StoredSpelling(Address, ['a', c, 'b']) == Spelling("", [c])
    ensures StoredPattern(Address, ['a', c, 'b']) == Normalize([Lit("a"), Lit("b")])
  {
    var s: string := ['a', c, 'b'];
    TokensOfJoin(Address, c, ["a", "b"]);
    assert Join(c, ["a", "b"]) == s;
    SkipSepsIs(Address, s, 0);
    assert s[0..] == s && s[..0] == [];
    assert Clean(Address, s[..1]) by { assert s[..1] == "a"; }
    SepsAt(Address, s, 1);
    SepsClean(Address, "b");
    assert s[2..] == "b" && Seps(Address, s) == [c] + [] == [c];
    var p := PatternOf(Address, s);
    assert p == [Lit("a"), Lit("b")];
    var q, z: string := [Lit("b")], [c];
    assert p[1..] == q && z[1..] == [] && SepsLeft(q, []) == [];
    assert SepsLeft(p, z) == [c] + SepsLeft(p[1..], z[1..]) == [c] + [] == [c];
  }

  class ParseTree {
    const ty: TreeType
    const hash: HashTable
    var nodes: Nodes
    var next: nat
    ghost var path: Paths
    ghost var Dict: map<Pattern, Entry>

    ghost function T(): Tree
      reads this, hash
    {
      Tree(nodes, path, hash.Contents, next)
    }

    /** What holds throughout, also while a pattern is being added or pruned. */
    ghost predicate Sound()
      reads this, hash
    {
      && hash.Valid() && TreeOk(T())
      && HandlesMatch(nodes, hash.HandleKeys)
      && SpellsOut(nodes, path, Dict)
      && (ty != Mqtt ==> forall p :: p in Dict ==> NormalForm(p))
      && TextsOk(ty, Dict)
    }

    ghost predicate Valid()
      reads this, hash
    {
      Sound() && Pruned(nodes)
    }

    constructor (ty: TreeType)
      ensures Valid() && this.ty == ty && Dict == map[] && fresh(hash)
    {
      this.ty := ty;
      hash := new HashTable(1024);
      nodes := map[ROOT := Node(Root, "", None, 0, None, None, [], None, None)];
      next := ROOT + 1;
      path := map[ROOT := []];
      Dict := map[];
      new;
      EmptyTree(T());
    }

    /** A new child below `p`; a literal child is entered in the index. */
    method NewChild(p: nat, kind: Kind, token: string) returns (c: nat)
      requires Sound() && IsFree(T(), p, kind, token) && PrunedBut(nodes, p) && p in path
      modifies this, hash
      ensures Sound() && PrunedBut(nodes, c) && c in nodes && c != ROOT && nodes[c].pattern.None?
      ensures c in path && path[c] == old(path[p]) + [TokOf(NewNode(kind, token, p, None))]
      ensures Dict == old(Dict)
    {
      hide TreeOk, HandlesMatch, SpellsOut, PrunedBut, Key, TableOk;
      ghost var t := T();
      c := next;
      NextIsUnused(t);
      var handle: Option<nat> := None;
      if kind == Token {
        handle := hash.Insert(Key(p, token), c);
      }
      GrowKeeps(t, p, kind, token, handle, Dict);
      GrownHandles(t, p, kind, token, handle, old(hash.HandleKeys), hash.HandleKeys);
      ghost var t' := Grown(t, p, kind, token, handle);
      nodes := nodes[p := LinkedTo(nodes[p], kind, c)][c := NewNode(kind, token, p, handle)];
      path := t'.path;
      next := next + 1;
      assert T() == t';
    }

    /** Adds a pattern. A text without tokens is refused; a pattern stored already is left as it is. The `text`
        stored has the separators of the pattern that its rewriting leaves. */
    method AddPattern(pattern: string, payload: Ref) returns (e: Error, ghost text: string)
      requires Valid()
      modifies this, hash
      ensures Valid()
      ensures var k := StoredPattern(ty, pattern);
              && e == (if k == [] then InvalidPattern else if k in old(Dict) then AlreadyExists else NoError)
              && PatternOf(ty, text) == k && SpellingOf(ty, text) == StoredSpelling(ty, pattern)
              && Dict == if e == NoError then old(Dict)[k := Entry(payload, text)] else old(Dict)
    {
      hide StoredSpelling, SpellingOf, TreeOk, HandlesMatch, SpellsOut, Key, TableOk, PrunedBut, Pruned, NormalForm, Normalize, PatternOf;
      var a := new char[|pattern|](i requires 0 <= i < |pattern| => pattern[i]);
      assert a[..|pattern|] == pattern;
      var len, _ := NormalizePattern(ty, a, |pattern|);
      var s := a[..len];
      text := s;
      var node := Descend(s, len);
      assert s[..len] == s;
      ghost var k := StoredPattern(ty, pattern);
      assert path[node] == k;
      ParentFacts(T(), node);
      if node == ROOT {
        e := InvalidPattern;
        PrunedAllButRoot(nodes);
        NeverEmpty(T(), Dict);
      } else if nodes[node].pattern.Some? {
        e := AlreadyExists;
        PrunedAtTerminal(nodes, node);
        TerminalIsStored(T(), Dict, node);
      } else {
        e := NoError;
        MarkAdds(T(), node, s, payload, Dict);
        MarkKeepsTree(T(), node, Some(s), payload, hash.HandleKeys);
        StoredIsNormal(ty, pattern);
        nodes := nodes[node := nodes[node].(pattern := Some(s), payload := payload)];
        Dict := Dict[k := Entry(payload, s)];
      }
    }

    /** The terminal node of a pattern, if it is stored, and whether the stored text is the one looked for. It is
        exactly if the two are spelled the same. */
    method FindPattern(pattern: string) returns (found: Option<nat>, same: bool)
      requires Valid()
      ensures found.Some? <==> StoredPattern(ty, pattern) in Dict
      ensures found.Some? ==> found.value in nodes && nodes[found.value].pattern.Some?
      ensures found.Some? ==> found.value in path && path[found.value] == StoredPattern(ty, pattern)
      ensures found.Some? ==>
                (same <==> SpellingOf(ty, Dict[StoredPattern(ty, pattern)].text) == StoredSpelling(ty, pattern))
    {
      hide StoredSpelling, SpellingOf, TreeOk, HandlesMatch, SpellsOut, TableOk, Pruned, NormalForm, Normalize, PatternOf, Split, FirstSep, ClassifyAll, IsPathOf;
      var a := new char[|pattern|](i requires 0 <= i < |pattern| => pattern[i]);
      assert a[..|pattern|] == pattern;
      var len, _ := NormalizePattern(ty, a, |pattern|);
      var s := a[..len];
      found := Follow(s);
      same := false;
      ghost var k := StoredPattern(ty, pattern);
      if found.Some? {
        var n := found.value;
        if nodes[n].pattern.None? {
          NotTerminalNotStored(T(), Dict, n);
          found := None;
        } else {
          TerminalIsStored(T(), Dict, n);
          same := nodes[n].pattern.value == s;
          PatternTextIsSpelling(ty, Dict[k].text, s);
        }
      } else {
        NoPathNotStored(T(), Dict, k);
      }
    }

    /** The node a text leads to, if there is one. */
    method Follow(s: string) returns (node: Option<nat>)
      requires Sound()
      ensures node.Some? ==> node.value in nodes && node.value in path && path[node.value] == PatternOf(ty, s)
      ensures node.None? ==> !IsPathOf(T(), PatternOf(ty, s))
    {
      hide TreeOk, HandlesMatch, SpellsOut, TableOk, NormalForm, Split, FirstSep, ClassifyAll, IsPathOf;
      TreeHasRoot(T());
      node := Some(ROOT);
      assert s[..|s|] == s;
      var it := InitIter(ty, s, |s|);
      while node.Some? && !Done(it)
        invariant ValidIter(ty, s, it)
        invariant node.Some? ==> node.value in nodes && node.value in path
        invariant node.Some? ==> path[node.value] + ClassifyAll(ty, Rest(ty, s, it)) == PatternOf(ty, s)
        invariant node.None? ==> !IsPathOf(T(), PatternOf(ty, s))
        decreases it.term - it.begin
      {
        var token := s[it.begin..it.end];
        var nx := NextToken(ty, s, it);
        TokenMoves(ty, path[node.value], token, Rest(ty, s, nx));
        node := FollowOne(node.value, token, PatternOf(ty, s));
        it := nx;
      }
      if node.Some? { NothingLeft(ty, s, it); }
    }

    method FollowOne(node: nat, token: string, ghost goal: Pattern) returns (child: Option<nat>)
      requires Sound() && node in nodes && node in path && path[node] + [Classify(ty, token)] <= goal
      ensures child.Some? ==> child.value in nodes && child.value in path && path[child.value] == path[node] + [Classify(ty, token)]
      ensures child.None? ==> !IsPathOf(T(), goal)
    {
      hide TreeOk, HandlesMatch, SpellsOut, Key, TableOk, NormalForm, IsPathOf;
      var k := Classify(ty, token);
      if k == One {
        child := nodes[node].one;
      } else if k == Glob {
        child := nodes[node].glob;
      } else {
        child := hash.Retrieve(Key(node, token));
      }
      ghost var kind := if k == One then MatchOne else if k == Glob then MatchGlob else Token;
      if child.Some? {
        ChildIsThere(T(), node, kind, token, child.value);
      } else {
        NoChildNoPath(T(), node, kind, token, goal);
      }
    }

    method GetPattern(pattern: string) returns (payload: Option<Ref>)
      requires Valid()
      ensures var k := StoredPattern(ty, pattern); payload == if k in Dict then Some(Dict[k].payload) else None
    {
      hide TreeOk, HandlesMatch, TableOk, Pruned, StoredPattern;
      var n, _ := FindPattern(pattern);
      payload := if n.Some? then Some(nodes[n.value].payload) else None;
    }

    /** Removes a pattern and gives back its payload; branches that lead to no pattern any more are pruned. The text
        given is the one stored exactly if the two are spelled the same. */
    method RemovePattern(pattern: string) returns (payload: Option<Ref>, same: bool)
      requires Valid()
      modifies this, hash
      ensures Valid()
      ensures var k := StoredPattern(ty, pattern);
              && payload == (if k in old(Dict) then Some(old(Dict)[k].payload) else None)
              && Dict == old(Dict) - {k}
              && (k in old(Dict) ==> (same <==> SpellingOf(ty, old(Dict)[k].text) == StoredSpelling(ty, pattern)))
    {
      hide TreeOk, HandlesMatch, SpellsOut, TableOk, Pruned, PrunedBut, StoredPattern, NormalForm, StoredSpelling, SpellingOf, PatternOf;
      var n;
      n, same := FindPattern(pattern);
      if n.None? {
        assert Dict == Dict - {StoredPattern(ty, pattern)};
        return None, same;
      }
      var node := n.value;
      payload := Some(nodes[node].payload);
      UnmarkRemoves(T(), node, Dict);
      MarkKeepsTree(T(), node, None, 0, hash.HandleKeys);
      nodes := nodes[node := nodes[node].(pattern := None, payload := 0)];
      Dict := Dict - {path[node]};
      ghost var d := Dict;
      while nodes[node].pattern.None? && Childless(nodes[node]) && nodes[node].parent.Some?
        invariant Sound() && PrunedBut(nodes, node) && node in nodes && Dict == d
        decreases node
      {
        node := DropLeaf(node);
      }
      ParentFacts(T(), node);
      PrunedAtLast(nodes, node);
    }

    /** Frees a node without children that ends no pattern, with its index entry and handle. */
    method DropLeaf(c: nat) returns (p: nat)
      requires Sound() && PrunedBut(nodes, c) && c in nodes
      requires nodes[c].pattern.None? && Childless(nodes[c]) && nodes[c].parent.Some?
      modifies this, hash
      ensures Sound() && Dict == old(Dict) && p in nodes && p < c && PrunedBut(nodes, p)
    {
      hide TreeOk, HandlesMatch, SpellsOut, TableOk, PrunedBut, Key, NormalForm;
      ParentFacts(T(), c);
      ghost var t, keys := T(), hash.HandleKeys;
      ShrinkKeeps(t, c, Dict);
      ShrunkHandles(t, c, keys);
      var n := nodes[c];
      p := n.parent.value;
      if n.kind == Token {
        var h := n.handle.value;
        LiveHandle(hash, h);
        var removed := hash.RemoveByHandle(h);
        hash.FreeHandle(h);
        assert hash.HandleKeys == keys - {h};
      }
      nodes := nodes[p := Unlinked(nodes[p], n.kind, c)] - {c};
      path := path - {c};
      assert T() == Shrunk(t, c);
    }

    // ----- Searching -----

    /** Searches below a node: exact match first, then `*`, and always `#`. False when the callback stopped the search. */
    method FindChildren(n: nat, s: string, value: TokenIter, go: nat -> bool) returns (seen: seq<nat>, on: bool)
      requires Sound() && n in nodes && ValidIter(ty, s, value)
      ensures Answers(seen, on, Below(T(), n, Rest(ty, s, value)), go)
      decreases |Rest(ty, s, value)|, next - n, 1
    {
      hide TreeOk, HandlesMatch, SpellsOut, TableOk, NormalForm, Rest, ViaLiteral, ViaOne, ViaGlob, Answers;
      ghost var v := Rest(ty, s, value);
      seen, on := FindLiteral(n, s, value, go);
      var more;
      if on {
        more, on := FindOne(n, s, value, go);
        AnswersConcat(seen, more, on, ViaLiteral(T(), n, v), ViaOne(T(), n, v), go);
        seen := seen + more;
      } else {
        AnswersStop(seen, ViaLiteral(T(), n, v), ViaOne(T(), n, v), go);
      }
      if on {
        more, on := FindGlob(n, s, value, go);
        AnswersConcat(seen, more, on, ViaLiteral(T(), n, v) + ViaOne(T(), n, v), ViaGlob(T(), n, v), go);
        seen := seen + more;
      } else {
        AnswersStop(seen, ViaLiteral(T(), n, v) + ViaOne(T(), n, v), ViaGlob(T(), n, v), go);
      }
    }

    method FindLiteral(n: nat, s: string, value: TokenIter, go: nat -> bool) returns (seen: seq<nat>, on: bool)
      requires Sound() && n in nodes && ValidIter(ty, s, value)
      ensures Answers(seen, on, ViaLiteral(T(), n, Rest(ty, s, value)), go)
      decreases |Rest(ty, s, value)|, next - n, 0
    {
      hide TreeOk, HandlesMatch, SpellsOut, TableOk, NormalForm, FirstSep, Split, At, Key;
      seen, on := [], true;
      RestEnds(ty, s, value);
      if !Done(value) {
        var tmp := NextToken(ty, s, value);
        var child := hash.Retrieve(Key(n, s[value.begin..value.end]));
        if child.Some? {
          IndexFindsChild(T(), n, s[value.begin..value.end]);
          ParentFacts(T(), child.value);
          assert Rest(ty, s, value)[1..] == Rest(ty, s, tmp);
          seen, on := Find(child.value, s, tmp, go);
        }
      }
    }

    method FindOne(n: nat, s: string, value: TokenIter, go: nat -> bool) returns (seen: seq<nat>, on: bool)
      requires Sound() && n in nodes && ValidIter(ty, s, value)
      ensures Answers(seen, on, ViaOne(T(), n, Rest(ty, s, value)), go)
      decreases |Rest(ty, s, value)|, next - n, 0
    {
      hide HandlesMatch, SpellsOut, TableOk, NormalForm, FirstSep, Split, At, Key, ShapeOk, IndexOk;
      seen, on := [], true;
      RestEnds(ty, s, value);
      if !Done(value) && nodes[n].one.Some? {
        assert IsChild(nodes, n, nodes[n].one.value, MatchOne);
        ParentFacts(T(), nodes[n].one.value);
        seen, on := Find(nodes[n].one.value, s, value, go);
      }
    }

    method FindGlob(n: nat, s: string, value: TokenIter, go: nat -> bool) returns (seen: seq<nat>, on: bool)
      requires Sound() && n in nodes && ValidIter(ty, s, value)
      ensures Answers(seen, on, ViaGlob(T(), n, Rest(ty, s, value)), go)
      decreases |Rest(ty, s, value)|, next - n, 0
    {
      hide HandlesMatch, SpellsOut, TableOk, NormalForm, FirstSep, Split, At, Key, ShapeOk, IndexOk;
      seen, on := [], true;
      if nodes[n].glob.Some? {
        assert IsChild(nodes, n, nodes[n].glob.value, MatchGlob);
        ParentFacts(T(), nodes[n].glob.value);
        seen, on := Find(nodes[n].glob.value, s, value, go);
      }
    }

    /** Calls back for the node itself when the value is used up and the node ends a pattern. */
    method VisitSelf(n: nat, s: string, value: TokenIter, go: nat -> bool) returns (seen: seq<nat>, on: bool)
      requires n in nodes && ValidIter(ty, s, value)
      ensures Answers(seen, on, Self(T(), n, Rest(ty, s, value)), go)
    {
      RestEnds(ty, s, value);
      seen, on := [], true;
      if Done(value) && nodes[n].pattern.Some? {
        seen, on := [n], go(n);
      }
    }

    method VisitSelfAndChildren(n: nat, s: string, value: TokenIter, go: nat -> bool) returns (seen: seq<nat>, on: bool)
      requires Sound() && n in nodes && ValidIter(ty, s, value)
      ensures Answers(seen, on, Self(T(), n, Rest(ty, s, value)) + Below(T(), n, Rest(ty, s, value)), go)
      decreases |Rest(ty, s, value)|, next - n, 2
    {
      hide TreeOk, HandlesMatch, SpellsOut, TableOk, NormalForm, Rest, Self, Below, Answers;
      ghost var v := Rest(ty, s, value);
      seen, on := VisitSelf(n, s, value, go);
      if on {
        var more;
        more, on := FindChildren(n, s, value, go);
        AnswersConcat(seen, more, on, Self(T(), n, v), Below(T(), n, v), go);
        seen := seen + more;
      } else {
        AnswersStop(seen, Self(T(), n, v), Below(T(), n, v), go);
      }
    }

    /** A `#` node: the children on every non-empty rest of the value, then the node itself. */
    method FindFromGlob(n: nat, s: string, value: TokenIter, go: nat -> bool) returns (seen: seq<nat>, on: bool)
      requires Sound() && n in nodes && ValidIter(ty, s, value)
      ensures Answers(seen, on, AtGlob(T(), n, Rest(ty, s, value)), go)
      decreases |Rest(ty, s, value)|, next - n, 2
    {
      hide TreeOk, HandlesMatch, SpellsOut, TableOk, NormalForm, FirstSep, Split, Rest, Self, Below, Answers;
      ghost var all := AtGlob(T(), n, Rest(ty, s, value));
      ghost var tried: seq<nat> := [];
      var it := value;
      seen, on := [], true;
      AnswersNothing(go);
      while !Done(it)
        invariant ValidIter(ty, s, it) && |Rest(ty, s, it)| <= |Rest(ty, s, value)|
        invariant on && Answers(seen, on, tried, go)
        invariant all == tried + AtGlob(T(), n, Rest(ty, s, it))
        decreases it.term - it.begin
      {
        ghost var v := Rest(ty, s, it);
        var more;
        more, on := FindChildren(n, s, it, go);
        var nx := NextToken(ty, s, it);
        ghost var b, g := Below(T(), n, v), AtGlob(T(), n, Rest(ty, s, nx));
        assert v[1..] == Rest(ty, s, nx);
        assert tried + (b + g) == (tried + b) + g;
        AnswersConcat(seen, more, on, tried, b, go);
        seen, tried := seen + more, tried + b;
        if !on {
          AnswersStop(seen, tried, g, go);
          return;
        }
        it := nx;
      }
      RestEnds(ty, s, it);
      var more;
      more, on := VisitSelf(n, s, it, go);
      AnswersConcat(seen, more, on, tried, Self(T(), n, Rest(ty, s, it)), go);
      seen := seen + more;
    }

    method Find(n: nat, s: string, value: TokenIter, go: nat -> bool) returns (seen: seq<nat>, on: bool)
      requires Sound() && n in nodes && ValidIter(ty, s, value)
      ensures Answers(seen, on, At(T(), n, Rest(ty, s, value)), go)
      decreases |Rest(ty, s, value)|, next - n, 3
    {
      hide TreeOk, HandlesMatch, SpellsOut, TableOk, NormalForm, FirstSep, Split, Self, Below, AtGlob;
      RestEnds(ty, s, value);
      match nodes[n].kind {
        case MatchOne =>
          if Done(value) { return [], true; }
          var tmp := NextToken(ty, s, value);
          assert Rest(ty, s, value)[1..] == Rest(ty, s, tmp);
          seen, on := VisitSelfAndChildren(n, s, tmp, go);
        case MatchGlob =>
          seen, on := FindFromGlob(n, s, value, go);
        case Token =>
          seen, on := VisitSelfAndChildren(n, s, value, go);
        case Root =>
          seen, on := FindChildren(n, s, value, go);
      }
    }

    /** Calls back for the patterns that match the value, until the callback answers false. Every pattern visited is
        stored and matches; if no callback stops the search, every stored pattern that matches is visited. */
    method Search(value: string, go: nat -> bool) returns (seen: seq<nat>)
      requires Valid()
      ensures ROOT in nodes && TreeOk(T()) && seen == Seen(At(T(), ROOT, TokensOf(ty, value)), go)
      ensures OnlyMatches(T(), Dict, seen, TokensOf(ty, value))
      ensures (ty != Mqtt || NoneEndsInGlobPair()) && (forall m :: m in seen ==> go(m)) ==>
                AllMatches(T(), Dict, seen, TokensOf(ty, value))
    {
      hide TreeOk, HandlesMatch, SpellsOut, TableOk, NormalForm, At, FirstSep, Split, Seen, OnlyMatches, AllMatches, EndsInGlobPair;
      TreeHasRoot(T());
      var it := InitIter(ty, value, |value|);
      assert value[..|value|] == value;
      var on;
      seen, on := Find(ROOT, value, it, go);
      SeenMatches(T(), Dict, TokensOf(ty, value), go);
      if ty != Mqtt || NoneEndsInGlobPair() {
        forall p | p in Dict ensures !EndsInGlobPair(p) { if ty != Mqtt { NormalFormHasNoGlobPair(p); } }
        SeenAllMatches(T(), Dict, TokensOf(ty, value), go);
      }
    }

    /** The best match: the payload of a stored pattern that matches the value and precedes all others that do.
        MQTT patterns are not rewritten, so for them this needs that none ends in `#.#`. */
    method RetrieveMatch(value: string) returns (payload: Option<Ref>, ghost best: Pattern)
      requires Valid()
      ensures payload.None? <==> forall p :: p in Dict ==> !Reaches(p, TokensOf(ty, value))
      ensures payload.Some? ==> forall q :: q in Dict && Reaches(q, TokensOf(ty, value)) ==> Precedes(best, q)
      ensures payload.Some? ==> best in Dict && payload.value == Dict[best].payload && Matches(best, TokensOf(ty, value))
      ensures ty != Mqtt || NoneEndsInGlobPair() ==>
                (payload.None? <==> forall p :: p in Dict ==> !Matches(p, TokensOf(ty, value)))
      ensures (ty != Mqtt || NoneEndsInGlobPair()) && payload.Some? ==>
                forall q :: q in Dict && Matches(q, TokensOf(ty, value)) ==> Precedes(best, q)
    {
      hide TreeOk, HandlesMatch, TableOk, At, Pruned, TokensOf, Precedes, NormalForm, EndsInGlobPair;
      var seen := Search(value, _ => false);
      ghost var v, all := TokensOf(ty, value), At(T(), ROOT, TokensOf(ty, value));
      forall p ensures p in Dict && Reaches(p, v) <==> exists m :: m in all && m in path && path[m] == p {
        ReachedIsVisited(T(), Dict, v, p);
      }
      best := [];
      if seen == [] {
        payload := None;
        assert all == [];
      } else {
        var m := seen[0];
        assert all[0] == m && m in all;
        VisitedIsReached(T(), v, m);
        best := path[m];
        ReachedIsMatched(best, v);
        payload := Some(nodes[m].payload);
        forall q | q in Dict && Reaches(q, v) ensures Precedes(best, q) {
          var n :| n in all && n in path && path[n] == q;
          FirstVisitPrecedes(T(), v, n);
        }
      }
      if ty != Mqtt || NoneEndsInGlobPair() {
        forall p | p in Dict ensures !EndsInGlobPair(p) { if ty != Mqtt { NormalFormHasNoGlobPair(p); } }
        SearchIsExact(T(), Dict, v);
        if payload.Some? {
          forall q | q in Dict && Matches(q, v) ensures Precedes(best, q) { FirstVisitIsBest(T(), Dict, v, q); }
        }
      }
    }

    ghost predicate NoneEndsInGlobPair()
      reads this
    {
      forall p :: p in Dict ==> !EndsInGlobPair(p)
    }

    /** Is the pattern legal? It has a token, and in MQTT a `#` comes last only. */
    method ValidatePattern(pattern: string) returns (ok: bool)
      ensures ok <==> PatternOf(ty, pattern) != [] && (ty == Mqtt ==> GlobOnlyLast(PatternOf(ty, pattern)))
    {
      hide FirstSep, Split;
      assert pattern[..|pattern|] == pattern;
      var it := InitIter(ty, pattern, |pattern|);
      RestEnds(ty, pattern, it);
      if Done(it) { return false; }
      if ty != Mqtt { return true; }
      ghost var all := PatternOf(ty, pattern);
      ghost var done: Pattern := [];
      while !Done(it)
        invariant ValidIter(ty, pattern, it)
        invariant all == done + ClassifyAll(ty, Rest(ty, pattern, it))
        invariant Glob !in done
        decreases it.term - it.begin
      {
        var head := pattern[it.begin..it.end];
        var nx := NextToken(ty, pattern, it);
        TokenMoves(ty, done, head, Rest(ty, pattern, nx));
        if head == "#" {
          RestEnds(ty, pattern, nx);
          assert all == (done + [Glob]) + ClassifyAll(ty, Rest(ty, pattern, nx));
          assert all[|done|] == Glob;
          return Done(nx);
        }
        done := done + [Classify(ty, head)];
        it := nx;
      }
      NothingLeft(ty, pattern, it);
      ok := true;
    }

    /** The node the pattern text leads to, growing what is missing on the way. */
    method Descend(s: string, len: nat) returns (node: nat)
      requires Valid() && len <= |s|
      modifies this, hash
      ensures Sound() && Dict == old(Dict) && PrunedBut(nodes, node) && node in nodes
      ensures node in path && path[node] == PatternOf(ty, s[..len])
    {
      hide TreeOk, HandlesMatch, SpellsOut, TableOk, PrunedBut, NormalForm, Split, FirstSep, ClassifyAll;
      TreeHasRoot(T());
      node := ROOT;
      PrunedAllButRoot(nodes);
      var it := InitIter(ty, s, len);
      while !Done(it)
        invariant Sound() && Dict == old(Dict) && PrunedBut(nodes, node) && node in nodes && node in path
        invariant ValidIter(ty, s, it)
        invariant path[node] + ClassifyAll(ty, Rest(ty, s, it)) == PatternOf(ty, s[..len])
        decreases it.term - it.begin
      {
        var token := s[it.begin..it.end];
        var nx := NextToken(ty, s, it);
        ghost var p := path[node];
        node := DescendOne(node, token);
        TokenMoves(ty, p, token, Rest(ty, s, nx));
        it := nx;
      }
      NothingLeft(ty, s, it);
    }

    /** One token further down. */
    method DescendOne(node: nat, token: string) returns (child: nat)
      requires Sound() && PrunedBut(nodes, node) && node in nodes && node in path
      modifies this, hash
      ensures Sound() && Dict == old(Dict) && PrunedBut(nodes, child) && child in nodes && child in path
      ensures path[child] == old(path[node]) + [Classify(ty, token)]
    {
      hide TreeOk, HandlesMatch, SpellsOut, Key, TableOk;
      var k := Classify(ty, token);
      var found: Option<nat>;
      if k == One {
        found := nodes[node].one;
      } else if k == Glob {
        found := nodes[node].glob;
      } else {
        found := hash.Retrieve(Key(node, token));
      }
      var kind := if k == One then MatchOne else if k == Glob then MatchGlob else Token;
      if found.Some? {
        child := found.value;
        ChildFound(T(), node, kind, token, child);
      } else {
        child := NewChild(node, kind, token);
      }
    }
  }

  lemma PrunedAllButRoot(nodes: Nodes)
    ensures Pruned(nodes) <==> PrunedBut(nodes, ROOT)
  {
  }

  lemma NothingLeft(ty: TreeType, s: string, it: TokenIter)
    requires ValidIter(ty, s, it) && Done(it)
    ensures ClassifyAll(ty, Rest(ty, s, it)) == []
  {
  }

  lemma TerminalIsStored(t: Tree, dict: map<Pattern, Entry>, n: nat)
    requires TreeOk(t) && SpellsOut(t.nodes, t.path, dict) && n in t.nodes && t.nodes[n].pattern.Some?
    ensures n in t.path && t.path[n] in dict && dict[t.path[n]] == EntryOf(t.nodes[n])
  {
  }

  lemma NeverEmpty(t: Tree, dict: map<Pattern, Entry>)
    requires TreeOk(t) && SpellsOut(t.nodes, t.path, dict) && Pruned(t.nodes)
    ensures [] !in dict
  {
    if [] in dict {
      var n :| n in t.nodes && n in t.path && t.nodes[n].pattern.Some? && t.path[n] == [];
      ParentFacts(t, n);
      assert false;
    }
  }

  lemma StoredIsNormal(ty: TreeType, s: string)
    ensures ty != Mqtt ==> NormalForm(StoredPattern(ty, s))
  {
    NormalizeReachesNormalForm(PatternOf(ty, s));
  }

  lemma LiveHandle(hash: HashTable, h: nat)
    requires hash.Valid() && h in hash.HandleKeys
    ensures h in hash.handles
  {
  }

  lemma PrunedAtLast(nodes: Nodes, n: nat)
    requires PrunedBut(nodes, n) && n in nodes && (nodes[n].pattern.Some? || !Childless(nodes[n]) || n == ROOT)
    ensures Pruned(nodes)
  {
  }

  lemma NotTerminalNotStored(t: Tree, dict: map<Pattern, Entry>, n: nat)
    requires TreeOk(t) && SpellsOut(t.nodes, t.path, dict) && n in t.nodes && t.nodes[n].pattern.None?
    ensures n in t.path && t.path[n] !in dict
  {
    ParentFacts(t, n);
    hide ShapeOk, LinksOk, IndexOk;
    if t.path[n] in dict {
      var m :| m in t.nodes && m in t.path && t.nodes[m].pattern.Some? && t.path[m] == t.path[n];
      PathsAreDistinct(t, m, n);
      assert false;
    }
  }

  lemma NoPathNotStored(t: Tree, dict: map<Pattern, Entry>, p: Pattern)
    requires SpellsOut(t.nodes, t.path, dict) && !IsPathOf(t, p)
    ensures p !in dict
  {
  }

  /** Where a child is missing, no path goes on. */
  lemma NoChildNoPath(t: Tree, p: nat, kind: Kind, token: string, goal: Pattern)
    requires TreeOk(t) && p in t.nodes && p in t.path && IsFree(t, p, kind, token)
    requires t.path[p] + [TokOf(NewNode(kind, token, p, None))] <= goal
    ensures !IsPathOf(t, goal)
  {
    hide ShapeOk, IndexOk, Key;
    if m :| m in t.nodes && m in t.path && t.path[m] == goal {
      assert goal[|t.path[p]|] == TokOf(NewNode(kind, token, p, None));
      var c := ChildOnPath(t, p, m);
      assert TokOf(t.nodes[c]) == TokOf(NewNode(kind, token, p, None));
      assert t.nodes[c].kind == kind by { SameTokSameKind(t.nodes[c], NewNode(kind, token, p, None)); }
      IndexFindsChild(t, p, token);
      ChildIsLinked(t, p, c);
      assert false;
    }
  }

  lemma SameTokSameKind(m: Node, n: Node)
    requires m.kind != Root && n.kind != Root && TokOf(m) == TokOf(n)
    ensures m.kind == n.kind
  {
  }

  lemma ChildIsLinked(t: Tree, p: nat, c: nat)
    requires TreeOk(t) && p in t.nodes && c in t.nodes && IsChild(t.nodes, p, c, t.nodes[c].kind)
    ensures t.nodes[c].kind == Token ==> c in t.nodes[p].children
    ensures t.nodes[c].kind == MatchOne ==> t.nodes[p].one == Some(c)
    ensures t.nodes[c].kind == MatchGlob ==> t.nodes[p].glob == Some(c)
  {
  }

  lemma ChildIsThere(t: Tree, p: nat, kind: Kind, token: string, c: nat)
    requires TreeOk(t) && p in t.nodes && kind != Root
    requires kind == MatchOne ==> t.nodes[p].one == Some(c)
    requires kind == MatchGlob ==> t.nodes[p].glob == Some(c)
    requires kind == Token ==> Key(p, token) in t.index && t.index[Key(p, token)] == c
    ensures c in t.nodes && c in t.path && p in t.path && IsChild(t.nodes, p, c, kind)
    ensures t.path[c] == t.path[p] + [TokOf(NewNode(kind, token, p, None))]
    ensures !Childless(t.nodes[p])
  {
    hide ShapeOk, IndexOk, Key;
    IndexFindsChild(t, p, token);
    assert IsChild(t.nodes, p, c, kind);
    ParentFacts(t, c);
  }

  lemma PrunedAtTerminal(nodes: Nodes, n: nat)
    requires PrunedBut(nodes, n) && n in nodes && nodes[n].pattern.Some?
    ensures Pruned(nodes)
  {
  }

  /** Moving one token from what is left to what is done. */
  lemma TokenMoves(ty: TreeType, p: Pattern, token: string, rest: seq<string>)
    ensures p + ClassifyAll(ty, [token] + rest) == (p + [Classify(ty, token)]) + ClassifyAll(ty, rest)
  {
    hide ClassifyAll, Classify;
    ClassifyCons(ty, token, rest);
  }

  /** What the links or the index give is the child with that token. */
  lemma ChildFound(t: Tree, p: nat, kind: Kind, token: string, c: nat)
    requires TreeOk(t) && p in t.nodes && kind != Root && PrunedBut(t.nodes, p)
    requires kind == MatchOne ==> t.nodes[p].one == Some(c)
    requires kind == MatchGlob ==> t.nodes[p].glob == Some(c)
    requires kind == Token ==> Key(p, token) in t.index && t.index[Key(p, token)] == c
    ensures c in t.nodes && c in t.path && p in t.path && IsChild(t.nodes, p, c, kind)
    ensures t.path[c] == t.path[p] + [TokOf(NewNode(kind, token, p, None))]
    ensures PrunedBut(t.nodes, c)
  {
    hide TreeOk, Key;
    ChildIsThere(t, p, kind, token, c);
  }

  /** Removing a pattern just added restores what is stored and the shape of the tree. */
  method AddThenRemove(tree: ParseTree, pattern: string, payload: Ref)
    requires tree.Valid() && StoredPattern(tree.ty, pattern) !in tree.Dict
    modifies tree, tree.hash
    ensures tree.Valid() && tree.Dict == old(tree.Dict)
    ensures forall p :: IsPathOf(tree.T(), p) <==> old(IsPathOf(tree.T(), p))
  {
    hide TreeOk, HandlesMatch, SpellsOut, TableOk, StoredPattern, NormalForm, IsPathOf, Pruned, StoredSpelling, SpellingOf, PatternOf;
    ghost var t, d := tree.T(), tree.Dict;
    forall p ensures IsPathOf(t, p) <==> p == [] || exists q :: q in d && p <= q { ShapeIsDetermined(t, d, p); }
    var e, _ := tree.AddPattern(pattern, payload);
    var removed, same := tree.RemovePattern(pattern);
    assert tree.Dict == d;
    forall p ensures IsPathOf(tree.T(), p) <==> p == [] || exists q :: q in d && p <= q { ShapeIsDetermined(tree.T(), d, p); }
  }

  /** A pattern added under one text and looked for under another that names it: the stored text is the one looked
      for exactly if the two texts keep the same separators when they are rewritten. */
  method AddThenFind(tree: ParseTree, added: string, payload: Ref, looked: string) returns (same: bool)
    requires tree.Valid() && StoredPattern(tree.ty, added) !in tree.Dict && StoredPattern(tree.ty, added) != []
    requires StoredPattern(tree.ty, looked) == StoredPattern(tree.ty, added)
    modifies tree, tree.hash
    ensures tree.Valid()
    ensures same <==> StoredSpelling(tree.ty, looked) == StoredSpelling(tree.ty, added)
  {
    hide TreeOk, HandlesMatch, SpellsOut, TableOk, StoredPattern, NormalForm, Pruned, StoredSpelling, SpellingOf, PatternOf;
    var e, text := tree.AddPattern(added, payload);
    var found;
    found, same := tree.FindPattern(looked);
  }
}
