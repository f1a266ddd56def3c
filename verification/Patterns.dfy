/** Patterns as token lists: what a pattern means, the rewriting of `#.#` and `#.*`,
    and the proof that the rewritten form is a canonical representative of its meaning. */
module Patterns {

  /** One token of a pattern. */
  datatype Tok = Lit(text: string) | One | Glob

  type Pattern = seq<Tok>
  type Value = seq<string>

  /** The naive token-list matcher: `*` takes exactly one token, `#` takes zero or more. */
  predicate Matches(p: Pattern, v: Value)
    decreases |p| + |v|
  {
    if p == [] then v == []
    else match p[0]
      case Glob => Matches(p[1..], v) || (v != [] && Matches(p, v[1..]))
      case One => v != [] && Matches(p[1..], v[1..])
      case Lit(s) => v != [] && v[0] == s && Matches(p[1..], v[1..])
  }

  /** One left-to-right pass of the rewrite: `#.#` becomes `#` and `#.*` becomes `*.#`,
      looking again at the `#` that is left; any other token after a `#` is stepped over. */
  function Normalize(p: Pattern): Pattern
    decreases |p|
  {
    if |p| < 2 then p
    else if p[0] != Glob then [p[0]] + Normalize(p[1..])
    else if p[1] == Glob then Normalize(p[1..])
    else if p[1] == One then [One] + Normalize([Glob] + p[2..])
    else [Glob, p[1]] + Normalize(p[2..])
  }

  /** No `#` is followed by `#` or by `*`. */
  predicate NormalForm(p: Pattern) {
    forall i :: 0 <= i < |p| - 1 && p[i] == Glob ==> p[i + 1].Lit?
  }

  lemma {:induction false} TwoGlobs(p: Pattern, v: Value)
    ensures Matches([Glob, Glob] + p, v) == Matches([Glob] + p, v)
    decreases |v|
  {
    var gg, g := [Glob, Glob] + p, [Glob] + p;
    assert gg[1..] == g;
    if v != [] { TwoGlobs(p, v[1..]); }
  }

  lemma {:induction false} GlobOneSwap(p: Pattern, v: Value)
    ensures Matches([Glob, One] + p, v) == Matches([One, Glob] + p, v)
    decreases |v|
  {
    var go, og, o, g := [Glob, One] + p, [One, Glob] + p, [One] + p, [Glob] + p;
    assert go[1..] == o && og[1..] == g && o[1..] == p && g[1..] == p;
    if v != [] {
      GlobOneSwap(p, v[1..]);
      assert Matches(go, v) == (Matches(p, v[1..]) || Matches(og, v[1..]));
    }
  }

  /** Patterns with the same meaning keep the same meaning behind one more leading token. */
  lemma {:induction false} ConsCongruence(t: Tok, p: Pattern, q: Pattern, v: Value)
    requires forall w :: Matches(p, w) == Matches(q, w)
    ensures Matches([t] + p, v) == Matches([t] + q, v)
    decreases |v|
  {
    assert ([t] + p)[1..] == p && ([t] + q)[1..] == q;
    if t == Glob && v != [] { ConsCongruence(t, p, q, v[1..]); }
  }

  /** The rewrite keeps the set of matched values. */
  lemma {:induction false} NormalizeKeepsMeaning(p: Pattern, v: Value)
    ensures Matches(Normalize(p), v) == Matches(p, v)
    decreases |p|
  {
    hide Matches;
    if |p| < 2 {
    } else if p[0] != Glob {
      forall w { NormalizeKeepsMeaning(p[1..], w); }
      assert p == [p[0]] + p[1..];
      ConsCongruence(p[0], Normalize(p[1..]), p[1..], v);
    } else if p[1] == Glob {
      NormalizeKeepsMeaning(p[1..], v);
      TwoGlobs(p[2..], v);
      assert p == [Glob, Glob] + p[2..] && p[1..] == [Glob] + p[2..];
    } else if p[1] == One {
      var g := [Glob] + p[2..];
      forall w { NormalizeKeepsMeaning(g, w); }
      ConsCongruence(One, Normalize(g), g, v);
      GlobOneSwap(p[2..], v);
      assert p == [Glob, One] + p[2..] && [One] + g == [One, Glob] + p[2..];
    } else {
      forall w { NormalizeKeepsMeaning(p[2..], w); }
      forall w { ConsCongruence(p[1], Normalize(p[2..]), p[2..], w); }
      ConsCongruence(Glob, [p[1]] + Normalize(p[2..]), [p[1]] + p[2..], v);
      assert p == [Glob] + ([p[1]] + p[2..]);
      assert Normalize(p) == [Glob] + ([p[1]] + Normalize(p[2..]));
    }
  }

  /** One pass reaches the normal form. */
  lemma {:induction false} NormalizeReachesNormalForm(p: Pattern)
    ensures NormalForm(Normalize(p))
    ensures p != [] ==> Normalize(p) != []
    ensures p != [] && p[0].Lit? ==> Normalize(p)[0] == p[0]
    decreases |p|
  {
    if |p| < 2 {
    } else if p[0] != Glob {
      NormalizeReachesNormalForm(p[1..]);
    } else if p[1] == Glob {
      NormalizeReachesNormalForm(p[1..]);
    } else if p[1] == One {
      NormalizeReachesNormalForm([Glob] + p[2..]);
    } else {
      NormalizeReachesNormalForm(p[2..]);
    }
  }

  /** A pattern already in normal form is left alone. */
  lemma {:induction false} NormalFormIsFixed(p: Pattern)
    requires NormalForm(p)
    ensures Normalize(p) == p
    decreases |p|
  {
    if |p| < 2 {
    } else if p[0] != Glob {
      NormalFormIsFixed(p[1..]);
      assert p == [p[0]] + p[1..];
    } else {
      NormalFormIsFixed(p[2..]);
      assert p == [Glob, p[1]] + p[2..];
    }
  }

  // ----- The normal form is canonical -----

  /** The pattern without its `#` tokens: one entry per value token that must be there. */
  function Spine(p: Pattern): (s: Pattern)
    ensures |s| <= |p| && Glob !in s
  {
    if p == [] then []
    else if p[0] == Glob then Spine(p[1..])
    else [p[0]] + Spine(p[1..])
  }

  /** Is there a `#` just before spine position `j` (or at the end, for `j == |Spine(p)|`)? */
  predicate GlobAt(p: Pattern, j: nat) {
    p != [] &&
    if p[0] == Glob then j == 0 || GlobAt(p[1..], j)
    else j > 0 && GlobAt(p[1..], j - 1)
  }

  /** Token-by-token match of a pattern without `#`. */
  predicate Pointwise(s: Pattern, v: Value) {
    |s| == |v| && forall i :: 0 <= i < |s| ==> s[i] == One || s[i] == Lit(v[i])
  }

  function Drop(v: Value, j: nat): Value
    requires j < |v|
  {
    v[..j] + v[j + 1..]
  }

  function Insert(v: Value, j: nat, x: string): Value
    requires j <= |v|
  {
    v[..j] + [x] + v[j..]
  }

  lemma {:induction false} MatchIsLongEnough(p: Pattern, v: Value)
    requires Matches(p, v)
    ensures |v| >= |Spine(p)|
    decreases |p| + |v|
  {
    if p != [] {
      if p[0] == Glob {
        if Matches(p[1..], v) { MatchIsLongEnough(p[1..], v); } else { MatchIsLongEnough(p, v[1..]); }
      } else {
        MatchIsLongEnough(p[1..], v[1..]);
      }
    }
  }

  /** A value of the least length is matched exactly when it fits the spine. */
  lemma {:induction false} ShortestMatches(p: Pattern, v: Value)
    requires |v| == |Spine(p)|
    ensures Matches(p, v) <==> Pointwise(Spine(p), v)
    decreases |p|
  {
    if p != [] {
      if p[0] == Glob {
        ShortestMatches(p[1..], v);
        if v != [] && Matches(p, v[1..]) { MatchIsLongEnough(p, v[1..]); }
      } else {
        ShortestMatches(p[1..], v[1..]);
        var s, s' := Spine(p), Spine(p[1..]);
        assert s[1..] == s';
        if Matches(p, v) {
          forall i | 0 <= i < |s| ensures s[i] == One || s[i] == Lit(v[i]) {
            if i > 0 { assert s[i] == s'[i - 1] && v[i] == v[1..][i - 1]; }
          }
        }
        if Pointwise(s, v) {
          forall i | 0 <= i < |s'| ensures s'[i] == One || s'[i] == Lit(v[1..][i]) {
            assert s'[i] == s[i + 1] && v[1..][i] == v[i + 1];
          }
        }
      }
    }
  }

  /** A value one token longer is matched exactly when one `#` takes one token. */
  lemma {:induction false} OneLongerMatches(p: Pattern, v: Value)
    requires |v| == |Spine(p)| + 1
    ensures Matches(p, v) <==> exists j: nat :: j < |v| && GlobAt(p, j) && Pointwise(Spine(p), Drop(v, j))
    decreases |p|
  {
    if p == [] {
    } else if p[0] == Glob {
      assert GlobAt(p, 0) && Drop(v, 0) == v[1..];
      ShortestMatches(p, v[1..]);
      OneLongerMatches(p[1..], v);
      assert forall j: nat :: GlobAt(p, j) <==> j == 0 || GlobAt(p[1..], j);
    } else {
      var s, s', v' := Spine(p), Spine(p[1..]), v[1..];
      OneLongerMatches(p[1..], v');
      forall j: nat | j < |v'|
        ensures Drop(v, j + 1) == [v[0]] + Drop(v', j)
        ensures Pointwise(s, Drop(v, j + 1)) <==> (p[0] == One || p[0] == Lit(v[0])) && Pointwise(s', Drop(v', j))
      {
        assert Drop(v, j + 1) == [v[0]] + Drop(v', j);
        PointwiseCons(p[0], s', v[0], Drop(v', j));
      }
      if j: nat :| j < |v'| && GlobAt(p[1..], j) && Pointwise(s', Drop(v', j)) {
        assert GlobAt(p, j + 1);
      }
      if j: nat :| j < |v| && GlobAt(p, j) && Pointwise(s, Drop(v, j)) {
        assert j > 0 && GlobAt(p[1..], j - 1);
        assert Pointwise(s, Drop(v, (j - 1) + 1));
      }
    }
  }

  lemma PointwiseCons(t: Tok, s: Pattern, x: string, v: Value)
    ensures Pointwise([t] + s, [x] + v) <==> (t == One || t == Lit(x)) && Pointwise(s, v)
  {
    if Pointwise([t] + s, [x] + v) {
      assert ([t] + s)[0] == t && ([x] + v)[0] == x;
      forall i | 0 <= i < |s| ensures s[i] == One || s[i] == Lit(v[i]) {
        assert s[i] == ([t] + s)[i + 1] && v[i] == ([x] + v)[i + 1];
      }
    }
  }

  /** In normal form a `#` stands before a literal or at the end. */
  lemma {:induction false} GlobBeforeLiteral(p: Pattern, j: nat)
    requires NormalForm(p) && GlobAt(p, j)
    ensures j <= |Spine(p)|
    ensures j < |Spine(p)| ==> Spine(p)[j].Lit?
  {
    if p[0] == Glob {
      if |p| == 1 {
      } else {
        assert p[1].Lit?;
        if j > 0 { GlobBeforeLiteral(p[1..], j); }
      }
    } else {
      GlobBeforeLiteral(p[1..], j - 1);
    }
  }

  /** A normal form is determined by its spine and the places of its `#` tokens. */
  lemma {:induction false} SpineAndGlobsDetermine(p: Pattern, q: Pattern)
    requires NormalForm(p) && NormalForm(q) && Spine(p) == Spine(q)
    requires forall j: nat :: GlobAt(p, j) <==> GlobAt(q, j)
    ensures p == q
    decreases |p| + |q|
  {
    if p == [] || q == [] {
      if p != [] { GlobSomewhere(p); }
      if q != [] { GlobSomewhere(q); }
    } else {
      assert GlobAt(p, 0) <==> p[0] == Glob by { GlobFirst(p); }
      assert GlobAt(q, 0) <==> q[0] == Glob by { GlobFirst(q); }
      forall j: nat ensures GlobAt(p[1..], j) <==> GlobAt(q[1..], j) {
        if p[0] == Glob {
          if j == 0 {
            if |p| > 1 { GlobFirst(p[1..]); }
            if |q| > 1 { GlobFirst(q[1..]); }
          } else {
            assert GlobAt(p, j) <==> GlobAt(q, j);
          }
        } else {
          assert GlobAt(p, j + 1) <==> GlobAt(q, j + 1);
        }
      }
      assert Spine(p[1..]) == Spine(q[1..]) by {
        if p[0] != Glob { assert Spine(p)[1..] == Spine(p[1..]) && Spine(q)[1..] == Spine(q[1..]); }
      }
      if p[0] != Glob { assert p[0] == Spine(p)[0] && q[0] == Spine(q)[0]; }
      SpineAndGlobsDetermine(p[1..], q[1..]);
      assert p == [p[0]] + p[1..] && q == [q[0]] + q[1..];
    }
  }

  lemma GlobFirst(p: Pattern)
    requires p != [] && NormalForm(p)
    ensures GlobAt(p, 0) <==> p[0] == Glob
  {
  }

  /** A non-empty pattern with an empty spine has a `#` at place 0. */
  lemma {:induction false} GlobSomewhere(p: Pattern)
    requires p != [] && Spine(p) == []
    ensures GlobAt(p, 0)
  {
  }

  /** A text that is no literal of the pattern. The token alphabet is unbounded, so there always is one. */
  function Longest(p: Pattern): (n: nat)
    ensures forall i :: 0 <= i < |p| && p[i].Lit? ==> |p[i].text| <= n
  {
    if p == [] then 0
    else
      var m := Longest(p[1..]);
      assert forall i :: 1 <= i < |p| ==> p[i] == p[1..][i - 1];
      if p[0].Lit? && |p[0].text| > m then |p[0].text| else m
  }

  function Fresh(p: Pattern, q: Pattern): (s: string)
    ensures Lit(s) !in p && Lit(s) !in q
  {
    seq(Longest(p) + Longest(q) + 1, _ => 'x')
  }

  /** The least value of a spine: every `*` filled with `x`. */
  function Filled(s: Pattern, x: string): (v: Value)
    ensures |v| == |s|
    ensures forall i :: 0 <= i < |s| ==> v[i] == if s[i].Lit? then s[i].text else x
  {
    seq(|s|, i requires 0 <= i < |s| => if s[i].Lit? then s[i].text else x)
  }

  lemma {:induction false} SpineTokens(p: Pattern)
    ensures forall i :: 0 <= i < |Spine(p)| ==> Spine(p)[i] in p
  {
    if p != [] { SpineTokens(p[1..]); }
  }

  ghost predicate SameMeaning(p: Pattern, q: Pattern) {
    forall v :: Matches(p, v) == Matches(q, v)
  }

  lemma SpineLengthAgrees(p: Pattern, q: Pattern)
    requires SameMeaning(p, q)
    ensures |Spine(p)| <= |Spine(q)|
  {
    var w := Filled(Spine(q), "");
    ShortestMatches(q, w);
    assert Matches(p, w);
    MatchIsLongEnough(p, w);
  }

  lemma SpinesAgree(p: Pattern, q: Pattern)
    requires SameMeaning(p, q)
    ensures Spine(p) == Spine(q)
  {
    SpineLengthAgrees(p, q);
    SpineLengthAgrees(q, p);
    var x := Fresh(p, q);
    var s, t := Spine(p), Spine(q);
    var v, w := Filled(s, x), Filled(t, x);
    ShortestMatches(p, v); ShortestMatches(q, v);
    ShortestMatches(q, w); ShortestMatches(p, w);
    assert Matches(p, v) && Matches(q, w);
    SpineTokens(p); SpineTokens(q);
    forall i | 0 <= i < |s| ensures s[i] == t[i] {
      assert t[i] == One || t[i] == Lit(v[i]);
      assert s[i] == One || s[i] == Lit(w[i]);
    }
  }

  /** A `#` of `p` at place `i` forces a `#` of `q` at the same place. */
  lemma GlobsAgree(p: Pattern, q: Pattern, i: nat)
    requires NormalForm(p) && NormalForm(q) && SameMeaning(p, q)
    requires GlobAt(p, i)
    ensures GlobAt(q, i)
  {
    SpinesAgree(p, q);
    GlobBeforeLiteral(p, i);
    var s, x := Spine(p), Fresh(p, q);
    var w := Filled(s, x);
    var v := Insert(w, i, x);
    assert Drop(v, i) == w;
    OneLongerMatches(p, v);
    assert Matches(q, v);
    OneLongerMatches(q, v);
    var j: nat :| j < |v| && GlobAt(q, j) && Pointwise(s, Drop(v, j));
    GlobBeforeLiteral(q, j);
    SpineTokens(p);
    TakenTokenIsTheInserted(s, x, i, j);
  }

  /** Insert a fresh token before a literal (or at the end): the only place before a literal (or at the end)
      where a token can be taken out again so that the spine still fits is the same place. */
  lemma TakenTokenIsTheInserted(s: Pattern, x: string, i: nat, j: nat)
    requires i <= |s| && j <= |s| && Lit(x) !in s
    requires i < |s| ==> s[i].Lit?
    requires j < |s| ==> s[j].Lit?
    requires Pointwise(s, Drop(Insert(Filled(s, x), i, x), j))
    ensures i == j
  {
    var w := Filled(s, x);
    var r := Drop(Insert(w, i, x), j);
    if j < i {
      assert r[i - 1] == x;
      forall k | j <= k < i - 1 ensures r[k] == w[k + 1] {}
      LiteralShiftsAlong(s, x, w, r, i, j);
    }
  }

  /** If each token of a stretch also fits its right neighbour, a literal at the left end makes them all literals. */
  lemma {:induction false} LiteralShiftsAlong(s: Pattern, x: string, w: Value, r: Value, i: nat, j: nat)
    requires j < i <= |s| && s[j].Lit? && Lit(x) !in s
    requires w == Filled(s, x) && Pointwise(s, r)
    requires forall k :: j <= k < i - 1 ==> r[k] == w[k + 1]
    ensures s[i - 1].Lit?
    decreases i - j
  {
    if j < i - 1 {
      assert s[j] == Lit(w[j + 1]);
      LiteralShiftsAlong(s, x, w, r, i, j + 1);
    }
  }

  /** Canonicity: two patterns are rewritten to the same token list exactly when they match the same values. */
  lemma NormalizeIsCanonical(p: Pattern, q: Pattern)
    ensures Normalize(p) == Normalize(q) <==> SameMeaning(p, q)
  {
    var m, n := Normalize(p), Normalize(q);
    forall v ensures Matches(m, v) == Matches(p, v) && Matches(n, v) == Matches(q, v) {
      NormalizeKeepsMeaning(p, v);
      NormalizeKeepsMeaning(q, v);
    }
    if SameMeaning(p, q) {
      assert SameMeaning(m, n) && SameMeaning(n, m);
      NormalizeReachesNormalForm(p);
      NormalizeReachesNormalForm(q);
      SpinesAgree(m, n);
      forall j: nat ensures GlobAt(m, j) <==> GlobAt(n, j) {
        if GlobAt(m, j) { GlobsAgree(m, n, j); }
        if GlobAt(n, j) { GlobsAgree(n, m, j); }
      }
      SpineAndGlobsDetermine(m, n);
    } else {
      var v :| Matches(p, v) != Matches(q, v);
    }
  }
}
