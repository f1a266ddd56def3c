/** Searching the pattern tree for a value: which nodes are visited, and which is visited first. */
module TrieSearch {
  import opened Patterns
  import opened Hash
  import opened TrieNodes
  import opened Options

  // ----- The visits of a search that is never stopped -----

  /** The visits below `n` with the value `v` still to match: the literal child, then `*`, then `#`. */
  ghost function Below(t: Tree, n: nat, v: Value): seq<nat>
    requires TreeOk(t) && n in t.nodes
    decreases |v|, t.next - n, 1
  {
    ViaLiteral(t, n, v) + ViaOne(t, n, v) + ViaGlob(t, n, v)
  }

  ghost function ViaLiteral(t: Tree, n: nat, v: Value): seq<nat>
    requires TreeOk(t) && n in t.nodes
    decreases |v|, t.next - n, 0
  {
    if v != [] && Key(n, v[0]) in t.index then
      IndexFindsChild(t, n, v[0]);
      At(t, t.index[Key(n, v[0])], v[1..])
    else []
  }

  ghost function ViaOne(t: Tree, n: nat, v: Value): seq<nat>
    requires TreeOk(t) && n in t.nodes
    decreases |v|, t.next - n, 0
  {
    if v != [] && t.nodes[n].one.Some? then
      assert IsChild(t.nodes, n, t.nodes[n].one.value, MatchOne);
      At(t, t.nodes[n].one.value, v)
    else []
  }

  ghost function ViaGlob(t: Tree, n: nat, v: Value): seq<nat>
    requires TreeOk(t) && n in t.nodes
    decreases |v|, t.next - n, 0
  {
    if t.nodes[n].glob.Some? then
      assert IsChild(t.nodes, n, t.nodes[n].glob.value, MatchGlob);
      At(t, t.nodes[n].glob.value, v)
    else []
  }

  /** The visits from `n` on, entered with the value `v`. */
  ghost function At(t: Tree, n: nat, v: Value): seq<nat>
    requires TreeOk(t) && n in t.nodes
    decreases |v|, t.next - n, 3
  {
    match t.nodes[n].kind
    case Root => Below(t, n, v)
    case Token => Self(t, n, v) + Below(t, n, v)
    case MatchOne => if v == [] then [] else Self(t, n, v[1..]) + Below(t, n, v[1..])
    case MatchGlob => AtGlob(t, n, v)
  }

  /** A `#` node tries its children on every non-empty rest of the value, then matches itself. */
  ghost function AtGlob(t: Tree, n: nat, v: Value): seq<nat>
    requires TreeOk(t) && n in t.nodes
    decreases |v|, t.next - n, 2
  {
    if v == [] then Self(t, n, v) else Below(t, n, v) + AtGlob(t, n, v[1..])
  }

  function Self(t: Tree, n: nat, v: Value): seq<nat>
    requires n in t.nodes
  {
    if v == [] && t.nodes[n].pattern.Some? then [n] else []
  }

  // ----- What a search amounts to for one path -----

  /** Does a search at some node, with `v` to match, get to the end of the path `q` below it? */
  predicate Reaches(q: Pattern, v: Value)
    decreases |v|, |q|, 1
  {
    q != [] &&
    match q[0]
    case Lit(s) => v != [] && v[0] == s && Arrives(q[1..], v[1..])
    case One => v != [] && Arrives(q[1..], v[1..])
    case Glob => GlobReaches(q[1..], v)
  }

  predicate Arrives(q: Pattern, v: Value)
    decreases |v|, |q|, 2
  {
    if q == [] then v == [] else Reaches(q, v)
  }

  predicate GlobReaches(q: Pattern, v: Value)
    decreases |v|, |q|, 2
  {
    if v == [] then q == [] else Reaches(q, v) || GlobReaches(q, v[1..])
  }

  /** A terminal node at or below `n`. */
  ghost predicate Visible(t: Tree, n: nat, m: nat) {
    m in t.nodes && m in t.path && n in t.path && t.nodes[m].pattern.Some? && t.path[n] <= t.path[m]
  }

  /** The path from `n` down to `m`. */
  ghost function Rel(t: Tree, n: nat, m: nat): Pattern
    requires Visible(t, n, m)
  {
    t.path[m][|t.path[n]|..]
  }

  /** Can the rest `q` of a path be reached from a node with the token `k`, entered with the value `v`? */
  predicate Enters(k: Tok, q: Pattern, v: Value) {
    match k
    case Lit(_) => Arrives(q, v)
    case One => v != [] && Arrives(q, v[1..])
    case Glob => GlobReaches(q, v)
  }

  /** What is at or below a child is below its parent, through the child's token. */
  lemma RelThroughChild(t: Tree, n: nat, c: nat, m: nat)
    requires TreeOk(t) && n in t.nodes && c in t.nodes && t.nodes[c].parent == Some(n)
    ensures c != ROOT && n < c < t.next && t.path[c] == t.path[n] + [TokOf(t.nodes[c])]
    ensures Visible(t, c, m) ==> Visible(t, n, m) && Rel(t, n, m) == [TokOf(t.nodes[c])] + Rel(t, c, m)
    ensures Visible(t, n, m) && Rel(t, n, m) != [] && Rel(t, n, m)[0] == TokOf(t.nodes[c]) ==>
              Visible(t, c, m) && Rel(t, c, m) == Rel(t, n, m)[1..]
  {
    hide LinksOk, IndexOk, ShapeOk;
    ParentFacts(t, c);
    if Visible(t, n, m) && Rel(t, n, m) != [] && Rel(t, n, m)[0] == TokOf(t.nodes[c]) {
      var p, k := t.path[m], |t.path[n]|;
      assert p[..k + 1] == p[..k] + [p[k]];
    }
  }

  /** What lies strictly below `n` lies at or below one of its children. */
  lemma RelHasChild(t: Tree, n: nat, m: nat) returns (c: nat)
    requires TreeOk(t) && n in t.nodes && Visible(t, n, m) && Rel(t, n, m) != []
    ensures c in t.nodes && c != ROOT && IsChild(t.nodes, n, c, t.nodes[c].kind)
    ensures TokOf(t.nodes[c]) == Rel(t, n, m)[0]
  {
    c := ChildOnPath(t, n, m);
  }

  lemma {:induction false} LiteralVisits(t: Tree, n: nat, v: Value, m: nat)
    requires TreeOk(t) && n in t.nodes
    ensures m in ViaLiteral(t, n, v) <==>
              Visible(t, n, m) && Rel(t, n, m) != [] && Rel(t, n, m)[0].Lit? && Reaches(Rel(t, n, m), v)
    decreases |v|, t.next - n, 0
  {
    hide LinksOk, IndexOk, ShapeOk;
    if v != [] {
      IndexFindsChild(t, n, v[0]);
      if Key(n, v[0]) in t.index {
        var c := t.index[Key(n, v[0])];
        RelThroughChild(t, n, c, m);
        AtVisits(t, c, v[1..], m);
      }
      if Visible(t, n, m) && Rel(t, n, m) != [] && Rel(t, n, m)[0] == Lit(v[0]) {
        var c := RelHasChild(t, n, m);
        LiteralChildIsListed(t, n, c);
      }
    }
  }

  lemma LiteralChildIsListed(t: Tree, n: nat, c: nat)
    requires TreeOk(t) && n in t.nodes && IsChild(t.nodes, n, c, Token)
    ensures c in t.nodes[n].children
  {
  }

  lemma {:induction false} OneVisits(t: Tree, n: nat, v: Value, m: nat)
    requires TreeOk(t) && n in t.nodes
    ensures m in ViaOne(t, n, v) <==>
              Visible(t, n, m) && Rel(t, n, m) != [] && Rel(t, n, m)[0] == One && Reaches(Rel(t, n, m), v)
    decreases |v|, t.next - n, 0
  {
    if v != [] {
      if t.nodes[n].one.Some? {
        var c := t.nodes[n].one.value;
        assert IsChild(t.nodes, n, c, MatchOne);
        RelThroughChild(t, n, c, m);
        AtVisits(t, c, v, m);
      }
      if Visible(t, n, m) && Rel(t, n, m) != [] && Rel(t, n, m)[0] == One {
        var c := RelHasChild(t, n, m);
      }
    }
  }

  lemma {:induction false} GlobVisits(t: Tree, n: nat, v: Value, m: nat)
    requires TreeOk(t) && n in t.nodes
    ensures m in ViaGlob(t, n, v) <==>
              Visible(t, n, m) && Rel(t, n, m) != [] && Rel(t, n, m)[0] == Glob && Reaches(Rel(t, n, m), v)
    decreases |v|, t.next - n, 0
  {
    if t.nodes[n].glob.Some? {
      var c := t.nodes[n].glob.value;
      assert IsChild(t.nodes, n, c, MatchGlob);
      RelThroughChild(t, n, c, m);
      AtVisits(t, c, v, m);
    }
    if Visible(t, n, m) && Rel(t, n, m) != [] && Rel(t, n, m)[0] == Glob {
      var c := RelHasChild(t, n, m);
    }
  }

  lemma {:induction false} BelowVisits(t: Tree, n: nat, v: Value, m: nat)
    requires TreeOk(t) && n in t.nodes
    ensures m in Below(t, n, v) <==> Visible(t, n, m) && Reaches(Rel(t, n, m), v)
    decreases |v|, t.next - n, 1
  {
    hide LinksOk, IndexOk, ShapeOk;
    LiteralVisits(t, n, v, m);
    OneVisits(t, n, v, m);
    GlobVisits(t, n, v, m);
  }

  lemma {:induction false} AtVisits(t: Tree, n: nat, v: Value, m: nat)
    requires TreeOk(t) && n in t.nodes && n != ROOT && t.nodes[n].kind != Root
    ensures m in At(t, n, v) <==> Visible(t, n, m) && Enters(TokOf(t.nodes[n]), Rel(t, n, m), v)
    decreases |v|, t.next - n, 3
  {
    hide LinksOk, IndexOk;
    match t.nodes[n].kind {
      case Token =>
        BelowVisits(t, n, v, m);
        SelfOrBelow(t, n, m);
      case MatchOne =>
        if v != [] { BelowVisits(t, n, v[1..], m); SelfOrBelow(t, n, m); }
      case MatchGlob =>
        AtGlobVisits(t, n, v, m);
    }
  }

  lemma {:induction false} AtGlobVisits(t: Tree, n: nat, v: Value, m: nat)
    requires TreeOk(t) && n in t.nodes
    ensures m in AtGlob(t, n, v) <==> Visible(t, n, m) && GlobReaches(Rel(t, n, m), v)
    decreases |v|, t.next - n, 2
  {
    hide LinksOk, IndexOk;
    if v == [] {
      SelfOrBelow(t, n, m);
    } else {
      BelowVisits(t, n, v, m);
      AtGlobVisits(t, n, v[1..], m);
    }
  }

  /** The node itself is the only one with an empty path below it. */
  lemma SelfOrBelow(t: Tree, n: nat, m: nat)
    requires TreeOk(t) && n in t.nodes
    ensures Visible(t, n, m) && Rel(t, n, m) == [] ==> m == n
    ensures t.nodes[n].pattern.Some? ==> Visible(t, n, n) && Rel(t, n, n) == []
  {
    hide LinksOk, IndexOk;
    if Visible(t, n, m) && Rel(t, n, m) == [] { PathsAreDistinct(t, n, m); }
  }

  // ----- A search finds exactly what the naive matcher accepts -----

  predicate EndsInGlobPair(p: Pattern) {
    |p| >= 2 && p[|p| - 1] == Glob && p[|p| - 2] == Glob
  }

  /** What a search reaches is matched. */
  lemma {:induction false} ReachedIsMatched(q: Pattern, v: Value)
    ensures Reaches(q, v) ==> Matches(q, v)
    ensures Arrives(q, v) ==> Matches(q, v)
    ensures GlobReaches(q, v) ==> Matches([Glob] + q, v)
    decreases |v|, |q|
  {
    var g := [Glob] + q;
    assert g[1..] == q;
    if q != [] {
      if q[0] == Glob {
        ReachedIsMatched(q[1..], v);
        assert [Glob] + q[1..] == q;
      } else if v != [] {
        ReachedIsMatched(q[1..], v[1..]);
      }
    }
    if v != [] { ReachedIsMatched(q, v[1..]); }
  }

  /** What is matched is reached, unless the path ends in `#.#`. */
  lemma {:induction false} MatchedIsReached(q: Pattern, v: Value)
    requires !EndsInGlobPair(q) && Matches(q, v)
    ensures Arrives(q, v)
    decreases |v|, |q|
  {
    if q != [] {
      if q[0] == Glob {
        var r := q[1..];
        assert !EndsInGlobPair(r);
        if Matches(r, v) {
          if v == [] {
            if r != [] { AllGlobs(r); }
          } else {
            MatchedIsReached(r, v);
            if r == [] { EmptyGlobReaches(v); }
          }
        } else {
          MatchedIsReached(q, v[1..]);
        }
      } else {
        MatchedIsReached(q[1..], v[1..]);
      }
    }
  }

  lemma {:induction false} EmptyGlobReaches(v: Value)
    ensures GlobReaches([], v)
  {
    if v != [] { EmptyGlobReaches(v[1..]); }
  }

  /** A pattern that matches the empty value ends in `#`. */
  lemma {:induction false} AllGlobs(r: Pattern)
    requires r != [] && Matches(r, [])
    ensures r[|r| - 1] == Glob && r[0] == Glob
    ensures |r| >= 2 ==> EndsInGlobPair(r)
  {
    if |r| >= 2 {
      AllGlobs(r[1..]);
    }
  }

  /** A path that ends in `#.#` is missed on its shortest values. */
  lemma {:induction false} GlobPairMissesShortest(p: Pattern, x: string)
    requires EndsInGlobPair(p)
    ensures Matches(p, Filled(Spine(p), x))
    ensures !Reaches(p, Filled(Spine(p), x))
    decreases |p|
  {
    var v := Filled(Spine(p), x);
    ShortestMatches(p, v);
    if p[0] == Glob {
      var r := p[1..];
      if |p| == 2 {
        assert r == [Glob] && v == [];
      } else {
        GlobPairMissesShortest(r, x);
        assert Filled(Spine(r), x) == v;
        if v != [] && GlobReaches(r, v[1..]) {
          ReachedIsMatched(r, v[1..]);
          MatchIsLongEnough([Glob] + r, v[1..]);
        }
      }
    } else {
      GlobPairMissesShortest(p[1..], x);
      assert v[1..] == Filled(Spine(p[1..]), x);
    }
  }

  /** The exact condition: a stored path is found for all the values it matches if and only if it does not end in `#.#`. */
  lemma SearchMeaning(p: Pattern)
    requires p != []
    ensures (forall v :: Reaches(p, v) == Matches(p, v)) <==> !EndsInGlobPair(p)
  {
    if EndsInGlobPair(p) {
      GlobPairMissesShortest(p, "");
    } else {
      forall v ensures Reaches(p, v) == Matches(p, v) {
        ReachedIsMatched(p, v);
        if Matches(p, v) { MatchedIsReached(p, v); }
      }
    }
  }

  lemma VisitedIsReached(t: Tree, v: Value, m: nat)
    requires TreeOk(t) && ROOT in t.nodes
    ensures m in At(t, ROOT, v) <==> Visible(t, ROOT, m) && Reaches(t.path[m], v)
  {
    hide LinksOk, IndexOk;
    BelowVisits(t, ROOT, v, m);
  }

  /** A search that is not stopped visits exactly the stored patterns the naive matcher accepts. */
  lemma SearchIsExact(t: Tree, dict: map<Pattern, Entry>, v: Value)
    requires TreeOk(t) && Pruned(t.nodes) && SpellsOut(t.nodes, t.path, dict)
    requires forall p :: p in dict ==> !EndsInGlobPair(p)
    ensures ROOT in t.nodes
    ensures forall m :: m in At(t, ROOT, v) ==> m in t.path && t.path[m] in dict && Matches(t.path[m], v)
    ensures forall p :: p in dict && Matches(p, v) ==> exists m :: m in At(t, ROOT, v) && m in t.path && t.path[m] == p
  {
    hide LinksOk, IndexOk, ShapeOk, At;
    TreeHasRoot(t);
    forall m ensures m in At(t, ROOT, v) <==> Visible(t, ROOT, m) && Reaches(t.path[m], v) {
      VisitedIsReached(t, v, m);
    }
    forall m | m in At(t, ROOT, v) ensures m in t.path && t.path[m] in dict && Matches(t.path[m], v) {
      ReachedIsMatched(t.path[m], v);
    }
    forall p | p in dict && Matches(p, v) ensures exists m :: m in At(t, ROOT, v) && m in t.path && t.path[m] == p {
      var m :| m in t.nodes && m in t.path && t.nodes[m].pattern.Some? && t.path[m] == p;
      ParentFacts(t, m);
      SearchMeaning(p);
      assert Visible(t, ROOT, m) && Reaches(p, v);
      VisitedIsReached(t, v, m);
    }
  }

  lemma TreeHasRoot(t: Tree)
    requires TreeOk(t)
    ensures ROOT in t.nodes && ROOT in t.path && t.path[ROOT] == [] && t.nodes[ROOT].kind == Root
  {
  }

  // ----- The first visit is the best match -----

  /** Precedence of a token: a literal before `*` before `#`. */
  function Rank(k: Tok): nat {
    match k case Lit(_) => 0 case One => 1 case Glob => 2
  }

  /** The two paths share their first `k` tokens and part there. */
  predicate PartAt(r: Pattern, q: Pattern, k: nat) {
    k <= |r| && k <= |q| && r[..k] == q[..k] && (k == |r| || k == |q| || r[k] != q[k])
  }

  /** Where the two paths part, unless they share a `#`: `r` ends, or `r` goes on with a token of higher precedence. */
  ghost predicate Precedes(r: Pattern, q: Pattern) {
    forall k: nat :: PartAt(r, q, k) && Glob !in r[..k] ==> k == |r| || (k < |q| && Rank(r[k]) < Rank(q[k]))
  }

  lemma PrecedesCons(x: Tok, r: Pattern, q: Pattern)
    requires x == Glob || Precedes(r, q)
    ensures Precedes([x] + r, [x] + q)
  {
    var r', q' := [x] + r, [x] + q;
    forall k: nat | PartAt(r', q', k) && Glob !in r'[..k]
      ensures k == |r'| || (k < |q'| && Rank(r'[k]) < Rank(q'[k]))
    {
      assert k > 0 && r'[..k][0] == x;
      assert r'[..k] == [x] + r[..k - 1] && q'[..k] == [x] + q[..k - 1];
      assert r'[..k][1..] == r[..k - 1] && q'[..k][1..] == q[..k - 1];
      assert forall y :: y in r[..k - 1] ==> y in r'[..k];
      assert PartAt(r, q, k - 1);
    }
  }

  lemma PrecedesByRank(r: Pattern, q: Pattern)
    requires r != [] && q != [] && Rank(r[0]) < Rank(q[0])
    ensures Precedes(r, q)
  {
    assert forall k: nat :: 0 < k <= |r| ==> r[..k][0] == r[0];
    assert forall k: nat :: 0 < k <= |q| ==> q[..k][0] == q[0];
  }

  /** Below a child that is no `#` node, the order is the order below the child. */
  lemma PrecedesThroughChild(t: Tree, n: nat, c: nat, f: nat, m: nat)
    requires TreeOk(t) && n in t.nodes && c in t.nodes && t.nodes[c].parent == Some(n)
    requires Visible(t, c, f) && Visible(t, c, m)
    requires t.nodes[c].kind == MatchGlob || Precedes(Rel(t, c, f), Rel(t, c, m))
    ensures Visible(t, n, f) && Visible(t, n, m) && Precedes(Rel(t, n, f), Rel(t, n, m))
  {
    hide LinksOk, IndexOk, ShapeOk;
    ParentFacts(t, c);
    RelThroughChild(t, n, c, f);
    RelThroughChild(t, n, c, m);
    PrecedesCons(TokOf(t.nodes[c]), Rel(t, c, f), Rel(t, c, m));
  }

  lemma {:induction false} FirstAt(t: Tree, c: nat, v: Value, m: nat)
    requires TreeOk(t) && c in t.nodes && (t.nodes[c].kind == Token || t.nodes[c].kind == MatchOne) && m in At(t, c, v)
    ensures Visible(t, c, At(t, c, v)[0]) && Visible(t, c, m)
    ensures Precedes(Rel(t, c, At(t, c, v)[0]), Rel(t, c, m))
    decreases |v|, t.next - c, 3
  {
    hide LinksOk, IndexOk, ShapeOk, Below;
    ParentFacts(t, c);
    KindNotRoot(t, c);
    AtVisits(t, c, v, m);
    var f := At(t, c, v)[0];
    AtVisits(t, c, v, f);
    var w := if t.nodes[c].kind == Token then v else v[1..];
    SelfOrBelow(t, c, f);
    if Self(t, c, w) == [] {
      FirstBelow(t, c, w, m);
    }
  }

  lemma KindNotRoot(t: Tree, c: nat)
    requires TreeOk(t) && c in t.nodes && t.nodes[c].kind != Root
    ensures c != ROOT
  {
  }

  lemma {:induction false} FirstBelow(t: Tree, n: nat, v: Value, m: nat)
    requires TreeOk(t) && n in t.nodes && m in Below(t, n, v)
    ensures Visible(t, n, Below(t, n, v)[0]) && Visible(t, n, m)
    ensures Precedes(Rel(t, n, Below(t, n, v)[0]), Rel(t, n, m))
    decreases |v|, t.next - n, 1
  {
    hide LinksOk, IndexOk, ShapeOk;
    var f := Below(t, n, v)[0];
    LiteralVisits(t, n, v, m); OneVisits(t, n, v, m); GlobVisits(t, n, v, m);
    LiteralVisits(t, n, v, f); OneVisits(t, n, v, f); GlobVisits(t, n, v, f);
    if ViaLiteral(t, n, v) != [] {
      if m in ViaLiteral(t, n, v) { FirstViaLiteral(t, n, v, m); } else { PrecedesByRank(Rel(t, n, f), Rel(t, n, m)); }
    } else if ViaOne(t, n, v) != [] {
      if m in ViaOne(t, n, v) { FirstViaOne(t, n, v, m); } else { PrecedesByRank(Rel(t, n, f), Rel(t, n, m)); }
    } else {
      var r, q := Rel(t, n, f), Rel(t, n, m);
      assert r == [Glob] + r[1..] && q == [Glob] + q[1..];
      PrecedesCons(Glob, r[1..], q[1..]);
    }
  }

  lemma {:induction false} FirstViaLiteral(t: Tree, n: nat, v: Value, m: nat)
    requires TreeOk(t) && n in t.nodes && m in ViaLiteral(t, n, v)
    ensures Visible(t, n, ViaLiteral(t, n, v)[0]) && Visible(t, n, m)
    ensures Precedes(Rel(t, n, ViaLiteral(t, n, v)[0]), Rel(t, n, m))
    decreases |v|, t.next - n, 0
  {
    hide LinksOk, IndexOk, ShapeOk, At;
    IndexFindsChild(t, n, v[0]);
    var c := t.index[Key(n, v[0])];
    FirstAt(t, c, v[1..], m);
    PrecedesThroughChild(t, n, c, At(t, c, v[1..])[0], m);
  }

  lemma {:induction false} FirstViaOne(t: Tree, n: nat, v: Value, m: nat)
    requires TreeOk(t) && n in t.nodes && m in ViaOne(t, n, v)
    ensures Visible(t, n, ViaOne(t, n, v)[0]) && Visible(t, n, m)
    ensures Precedes(Rel(t, n, ViaOne(t, n, v)[0]), Rel(t, n, m))
    decreases |v|, t.next - n, 0
  {
    hide IndexOk, ShapeOk, At;
    var c := t.nodes[n].one.value;
    assert IsChild(t.nodes, n, c, MatchOne);
    ParentFacts(t, c);
    FirstAt(t, c, v, m);
    PrecedesThroughChild(t, n, c, At(t, c, v)[0], m);
  }

  /** The first node visited precedes every other. */
  lemma FirstVisitPrecedes(t: Tree, v: Value, m: nat)
    requires TreeOk(t) && ROOT in t.nodes && m in At(t, ROOT, v)
    ensures At(t, ROOT, v)[0] in t.path && m in t.path && Precedes(t.path[At(t, ROOT, v)[0]], t.path[m])
  {
    hide LinksOk, IndexOk, ShapeOk, Below, Precedes;
    TreeHasRoot(t);
    FirstBelow(t, ROOT, v, m);
    assert At(t, ROOT, v) == Below(t, ROOT, v);
  }

  /** The first pattern visited precedes every stored pattern that matches the value. */
  lemma FirstVisitIsBest(t: Tree, dict: map<Pattern, Entry>, v: Value, q: Pattern)
    requires TreeOk(t) && Pruned(t.nodes) && SpellsOut(t.nodes, t.path, dict)
    requires forall p :: p in dict ==> !EndsInGlobPair(p)
    requires q in dict && Matches(q, v)
    ensures ROOT in t.nodes && At(t, ROOT, v) != []
    ensures At(t, ROOT, v)[0] in t.path && t.path[At(t, ROOT, v)[0]] in dict && Matches(t.path[At(t, ROOT, v)[0]], v)
    ensures Precedes(t.path[At(t, ROOT, v)[0]], q)
  {
    hide LinksOk, IndexOk, ShapeOk, Pruned, SpellsOut, Below, Precedes;
    TreeHasRoot(t);
    SearchIsExact(t, dict, v);
    var m :| m in At(t, ROOT, v) && m in t.path && t.path[m] == q;
    FirstVisitPrecedes(t, v, m);
  }
}
