/** The in-place rewriting of a pattern's text, proved to be the token-list rewrite, and what becomes of the text's
    separators. */
module Rewriting {
  import opened Patterns
  import opened Tokens
  import opened Spellings

  // ----- Rewriting the text in place -----

  /** The reached position starts a token: it is the first one, it follows a separator, or nothing is left. */
  ghost predicate TokenStart(ty: TreeType, s: string, term: nat, s0: nat, b: nat) {
    s0 <= b <= term <= |s| && (b == s0 || b == term || IsSep(ty, s[b - 1]))
  }

  /** What the rewriting loop keeps: rewriting what is left, behind what is done, gives the wanted result. */
  ghost predicate RewriteInv(ty: TreeType, s: string, t: TokenIter, s0: nat, goal: Pattern) {
    && ValidIter(ty, s, t)
    && TokenStart(ty, s, t.term, s0, t.begin)
    && (forall i :: 0 <= i < s0 ==> IsSep(ty, s[i]))
    && (s0 < t.term ==> !IsSep(ty, s[s0]))
    && ClassifyAll(ty, Split(ty, s[s0..t.begin])) + Normalize(ClassifyAll(ty, Rest(ty, s, t))) == goal
  }

  /** What the rewriting loop keeps of the separators: those done, and those that will be left of the rest. */
  ghost predicate SpellInv(ty: TreeType, s: string, t: TokenIter, s0: nat, goal: Spelling) {
    && ValidIter(ty, s, t) && s0 <= t.begin && s[..s0] == goal.lead
    && Seps(ty, s[s0..t.begin]) + SepsLeft(ClassifyAll(ty, Rest(ty, s, t)), Seps(ty, s[t.begin..t.term])) == goal.seps
  }

  /** A step over one token that stays where it is. */
  lemma StepOver(ty: TreeType, s: string, t: TokenIter, n: TokenIter, s0: nat, goal: Pattern)
    requires RewriteInv(ty, s, t, s0, goal) && !Done(t) && ValidIter(ty, s, n) && n.term == t.term
    requires n.begin == t.end + 1 || (t.end == t.term && n.begin == t.term)
    requires Rest(ty, s, t) == [s[t.begin..t.end]] + Rest(ty, s, n)
    requires Normalize(ClassifyAll(ty, Rest(ty, s, t))) ==
             [Classify(ty, s[t.begin..t.end])] + Normalize(ClassifyAll(ty, Rest(ty, s, n)))
    ensures RewriteInv(ty, s, n, s0, goal)
  {
    hide Normalize, Split, FirstSep, ClassifyAll, Classify;
    var tok := s[t.begin..t.end];
    var done := Split(ty, s[s0..t.begin]);
    var d, c, r := ClassifyAll(ty, done), Classify(ty, tok), Normalize(ClassifyAll(ty, Rest(ty, s, n)));
    DoneGrows(ty, s, t, n.begin, s0);
    ClassifySnoc(ty, done, tok);
    assert d + ([c] + r) == (d + [c]) + r;
  }

  lemma ClassifySnoc(ty: TreeType, ts: seq<string>, t: string)
    ensures ClassifyAll(ty, ts + [t]) == ClassifyAll(ty, ts) + [Classify(ty, t)]
  {
    ClassifyConcat(ty, ts, [t]);
    assert ClassifyAll(ty, [t]) == [Classify(ty, t)];
  }

  lemma DoneGrows(ty: TreeType, s: string, t: TokenIter, b: nat, s0: nat)
    requires ValidIter(ty, s, t) && !Done(t) && TokenStart(ty, s, t.term, s0, t.begin)
    requires (b == t.end + 1 <= t.term) || (b == t.end == t.term)
    ensures Split(ty, s[s0..b]) == Split(ty, s[s0..t.begin]) + [s[t.begin..t.end]]
    ensures b == t.end + 1 ==> IsSep(ty, s[t.end])
  {
    TokenIsClean(ty, s, t);
    hide ValidIter, FirstSep, Split, IsSep;
    SliceGlue(s, s0, t.begin, b);
    SplitSlice(ty, s, t.begin, t.end, b);
    SliceLast(s, s0, t.begin);
    SplitConcat(ty, s[s0..t.begin], s[t.begin..b]);
  }

  lemma SliceGlue(s: string, i: nat, j: nat, k: nat)
    requires i <= j <= k <= |s|
    ensures s[i..k] == s[i..j] + s[j..k]
  {
  }

  lemma SliceLast(s: string, i: nat, j: nat)
    requires i <= j <= |s|
    ensures i < j ==> s[i..j][|s[i..j]| - 1] == s[j - 1]
  {
  }

  lemma SplitSlice(ty: TreeType, s: string, i: nat, j: nat, b: nat)
    requires i <= j <= b <= |s| && Clean(ty, s[i..j]) && i < b
    requires b == j || (b == j + 1 && IsSep(ty, s[j]))
    ensures Split(ty, s[i..b]) == [s[i..j]]
  {
    hide Split, IsSep;
    var tok, more := s[i..j], s[i..b];
    if b > j { assert more[..|tok|] == tok && more[|tok|] == s[j]; }
    SplitOne(ty, more, tok);
  }

  lemma TokenIsClean(ty: TreeType, s: string, t: TokenIter)
    requires ValidIter(ty, s, t)
    ensures t.begin <= t.end <= t.term <= |s|
    ensures Clean(ty, s[t.begin..t.end])
    ensures t.end < t.term ==> IsSep(ty, s[t.end])
  {
    var tok, cur := s[t.begin..t.end], s[t.begin..t.term];
    assert forall i :: 0 <= i < |tok| ==> tok[i] == cur[i];
    if t.end < t.term { assert s[t.end] == cur[|tok|]; }
  }

  /** A token with or without the separator behind it is one token. */
  lemma SplitOne(ty: TreeType, s: string, tok: string)
    requires Clean(ty, tok)
    requires (s == tok && s != []) || (|s| == |tok| + 1 && s[..|tok|] == tok && IsSep(ty, s[|tok|]))
    ensures Split(ty, s) == [tok]
  {
    FirstSepIs(ty, s, |tok|);
    if |s| == |tok| + 1 { SplitAt(ty, s, |tok|); assert s[|tok| + 1..] == []; } else { assert s[..|tok|] == tok; }
  }

  /** The whole text is what is done and what is left. */
  lemma WholeText(ty: TreeType, s: string, t: TokenIter, s0: nat)
    requires ValidIter(ty, s, t) && TokenStart(ty, s, t.term, s0, t.begin)
    requires forall i :: 0 <= i < s0 ==> IsSep(ty, s[i])
    requires s0 < t.term ==> !IsSep(ty, s[s0])
    ensures PatternOf(ty, s[..t.term]) == ClassifyAll(ty, Split(ty, s[s0..t.begin])) + ClassifyAll(ty, Rest(ty, s, t))
  {
    var x, y := s[s0..t.begin], s[t.begin..t.term];
    SkipSepsIs(ty, s[..t.term], s0);
    assert s[..t.term][s0..] == x + y;
    if t.begin == t.term {
      assert x + y == x && Split(ty, y) == [];
    } else {
      if x != [] { assert x[|x| - 1] == s[t.begin - 1]; }
      SplitConcat(ty, x, y);
    }
    ClassifyConcat(ty, Split(ty, x), Split(ty, y));
  }

  /** `#.#` to `#`: the text from the second `#` on is moved over the first one. */
  lemma CollapseStep(ty: TreeType, s: string, s': string, t: TokenIter, n: TokenIter, t': TokenIter, s0: nat, goal: Pattern)
    requires RewriteInv(ty, s, t, s0, goal) && !Done(t) && ValidIter(ty, s, n) && n.term == t.term && !Done(n)
    requires n.begin == t.end + 1 && Rest(ty, s, t) == [s[t.begin..t.end]] + Rest(ty, s, n)
    requires s[t.begin..t.end] == "#" && s[n.begin..n.end] == "#"
    requires |s'| == |s| && s'[..t.begin] == s[..t.begin]
    requires t' == TokenIter(t.begin, t.end, t.begin + (n.term - n.begin))
    requires s'[t.begin..t'.term] == s[n.begin..n.term]
    ensures RewriteInv(ty, s', t', s0, goal)
  {
    var y := s[n.begin..n.term];
    assert t'.end == t'.begin + FirstSep(ty, y);
    assert s'[s0..t.begin] == s[s0..t.begin] by { assert s'[..t.begin][s0..] == s[..t.begin][s0..]; }
    assert Rest(ty, s', t') == Rest(ty, s, n);
    assert Normalize(ClassifyAll(ty, Rest(ty, s, t))) == Normalize(ClassifyAll(ty, Rest(ty, s, n))) by {
      TwoClassified(ty, s, t, n);
      var p := ClassifyAll(ty, Rest(ty, s, t));
      assert p[1..] == ClassifyAll(ty, Rest(ty, s, n));
    }
    KeepsStart(ty, s, s', t, t', s0);
  }

  lemma KeepsStart(ty: TreeType, s: string, s': string, t: TokenIter, t': TokenIter, s0: nat)
    requires t.begin == t'.begin < t'.term <= |s'| == |s| && t.begin < t.term <= |s|
    requires TokenStart(ty, s, t.term, s0, t.begin) && s'[..t.begin] == s[..t.begin]
    requires forall i :: 0 <= i < s0 ==> IsSep(ty, s[i])
    requires !IsSep(ty, s[s0]) && !IsSep(ty, s'[t.begin])
    ensures TokenStart(ty, s', t'.term, s0, t'.begin)
    ensures forall i :: 0 <= i < s0 ==> IsSep(ty, s'[i])
    ensures !IsSep(ty, s'[s0])
  {
    assert forall i :: 0 <= i < t.begin ==> s'[i] == s'[..t.begin][i] && s[i] == s[..t.begin][i];
  }

  /** The two tokens at the head of what is left. */
  lemma TwoClassified(ty: TreeType, s: string, t: TokenIter, n: TokenIter)
    requires ValidIter(ty, s, t) && ValidIter(ty, s, n) && !Done(n) && n.term == t.term
    requires Rest(ty, s, t) == [s[t.begin..t.end]] + Rest(ty, s, n)
    ensures |Rest(ty, s, t)| >= 2 && Rest(ty, s, t)[0] == s[t.begin..t.end] && Rest(ty, s, t)[1] == s[n.begin..n.end]
  {
    var y := s[n.begin..n.term];
    assert y[..FirstSep(ty, y)] == s[n.begin..n.end];
  }

  ghost predicate SwapSetting(ty: TreeType, s: string, s': string, t: TokenIter, n: TokenIter) {
    && ty != Mqtt && ValidIter(ty, s, t) && !Done(t) && ValidIter(ty, s, n) && n.term == t.term && !Done(n)
    && n.begin == t.end + 1 && Rest(ty, s, t) == [s[t.begin..t.end]] + Rest(ty, s, n)
    && s[t.begin..t.end] == "#" && s[n.begin..n.end] == "*"
    && s' == s[n.begin := '#'][t.begin := '*']
  }

  /** After the swap what is left starts with `#` in place of `*`. */
  lemma SwapAhead(ty: TreeType, s: string, s': string, t: TokenIter, n: TokenIter)
    requires SwapSetting(ty, s, s', t, n)
    ensures ValidIter(ty, s', n)
    ensures Rest(ty, s, n) != [] && Rest(ty, s, n)[0] == "*"
    ensures Rest(ty, s', n) == ["#"] + Rest(ty, s, n)[1..]
  {
    var y := s[n.begin..n.term];
    SwapChars(s, s', t.begin, n.term, t.begin);
    assert y[..FirstSep(ty, y)] == s[n.begin..n.end];
    hide Split, FirstSep;
    SwapHead(ty, y);
  }

  /** What the exchange of `s[b]` and `s[b + 2]` leaves alone, and what it changes. */
  lemma SwapChars(s: string, s': string, b: nat, term: nat, s0: nat)
    requires s0 <= b && b + 2 < term <= |s| && s' == s[b + 2 := '#'][b := '*']
    ensures |s'| == |s| && s'[b] == '*' && s'[b + 1] == s[b + 1] && s'[b..b + 1] == "*"
    ensures s'[b + 2..term] == s[b + 2..term][0 := '#']
    ensures s'[..b] == s[..b] && s'[s0..b] == s[s0..b]
  {
  }

  lemma SwapHead(ty: TreeType, y: string)
    requires ty != Mqtt && y != [] && y[..FirstSep(ty, y)] == "*"
    ensures FirstSep(ty, y[0 := '#']) == FirstSep(ty, y)
    ensures Split(ty, y) != [] && Split(ty, y)[0] == "*"
    ensures Split(ty, y[0 := '#']) == ["#"] + Split(ty, y)[1..]
  {
    assert |y[..FirstSep(ty, y)]| == 1;
    var y' := y[0 := '#'];
    FirstSepIs(ty, y', 1);
    assert y'[..1] == "#" && y[1..] == y'[1..];
    RetokenHead(ty, y, y');
  }

  lemma RewriteSwapped(ty: TreeType, ts: seq<string>)
    requires ty != Mqtt
    ensures Normalize(ClassifyAll(ty, ["#", "*"] + ts)) == [One] + Normalize(ClassifyAll(ty, ["#"] + ts))
  {
    var r := ClassifyAll(ty, ts);
    assert ClassifyAll(ty, ["#", "*"] + ts) == [Glob, One] + r;
    assert ClassifyAll(ty, ["#"] + ts) == [Glob] + r;
    assert ([Glob, One] + r)[2..] == r;
  }

  /** After the swap the place behind the `*` starts a token. */
  lemma SwapStarts(ty: TreeType, s: string, s': string, t: TokenIter, b: nat, s0: nat)
    requires ty != Mqtt && t.end == t.begin + 1 && b == t.end + 1 < t.term <= |s| == |s'| && IsSep(ty, s[t.end])
    requires TokenStart(ty, s, t.term, s0, t.begin)
    requires forall i :: 0 <= i < s0 ==> IsSep(ty, s[i])
    requires !IsSep(ty, s[s0])
    requires s'[..t.begin] == s[..t.begin] && s'[t.end] == s[t.end] && s'[t.begin] == '*'
    ensures ValidIter(ty, s', t)
    ensures TokenStart(ty, s', t.term, s0, t.begin) && TokenStart(ty, s', t.term, s0, b)
    ensures forall i :: 0 <= i < s0 ==> IsSep(ty, s'[i])
    ensures !IsSep(ty, s'[s0])
  {
    assert !IsSep(ty, '*');
    hide IsSep, FirstSep;
    StarToken(ty, s', t);
    KeepsStart(ty, s, s', t, t, s0);
  }

  /** After the swap what is done has grown by a `*`. */
  lemma SwapBehind(ty: TreeType, s: string, s': string, t: TokenIter, b: nat, s0: nat)
    requires t.end == t.begin + 1 && b == t.end + 1 < t.term <= |s| == |s'|
    requires ValidIter(ty, s', t) && TokenStart(ty, s', t.term, s0, t.begin)
    requires s'[s0..t.begin] == s[s0..t.begin] && s'[t.begin..t.end] == "*"
    ensures Split(ty, s'[s0..b]) == Split(ty, s[s0..t.begin]) + ["*"]
  {
    hide Split, IsSep, FirstSep;
    DoneGrows(ty, s', t, b, s0);
  }

  lemma StarToken(ty: TreeType, s: string, t: TokenIter)
    requires t.begin + 1 == t.end < t.term <= |s| && !IsSep(ty, s[t.begin]) && IsSep(ty, s[t.end])
    ensures ValidIter(ty, s, t)
  {
    hide IsSep;
    var x := s[t.begin..t.term];
    assert x[0] == s[t.begin] && x[1] == s[t.end];
    FirstSepIs(ty, x, 1);
  }

  /** `#.*` to `*.#`: the two characters trade places and the `#` is looked at again. */
  lemma SwapStep(ty: TreeType, s: string, s': string, t: TokenIter, n: TokenIter, s0: nat, goal: Pattern)
    requires RewriteInv(ty, s, t, s0, goal) && SwapSetting(ty, s, s', t, n)
    ensures RewriteInv(ty, s', n, s0, goal)
  {
    var d := ClassifyAll(ty, Split(ty, s[s0..t.begin]));
    SwapGoal(ty, s, s', t, n, d, goal);
    TokenIsClean(ty, s, t);
    assert |s[t.begin..t.end]| == 1;
    SwapChars(s, s', t.begin, n.term, s0);
    SwapStarts(ty, s, s', t, n.begin, s0);
    SwapBehind(ty, s, s', t, n.begin, s0);
    assert ClassifyAll(ty, Split(ty, s'[s0..n.begin])) == d + [One] by {
      ClassifyConcat(ty, Split(ty, s[s0..t.begin]), ["*"]);
      assert ClassifyAll(ty, ["*"]) == [One];
    }
  }

  lemma SwapGoal(ty: TreeType, s: string, s': string, t: TokenIter, n: TokenIter, d: Pattern, goal: Pattern)
    requires SwapSetting(ty, s, s', t, n) && d + Normalize(ClassifyAll(ty, Rest(ty, s, t))) == goal
    ensures ValidIter(ty, s', n)
    ensures (d + [One]) + Normalize(ClassifyAll(ty, Rest(ty, s', n))) == goal
  {
    hide Normalize, ClassifyAll, Split, FirstSep;
    SwapAhead(ty, s, s', t, n);
    var ts := Rest(ty, s, n)[1..];
    RewriteSwapped(ty, ts);
    assert Rest(ty, s, t) == ["#", "*"] + ts;
    var r := Normalize(ClassifyAll(ty, ["#"] + ts));
    assert d + ([One] + r) == (d + [One]) + r;
  }

  /** Changing the first token's text changes only the first token. */
  lemma RetokenHead(ty: TreeType, y: string, y': string)
    requires y != [] && |y'| == |y| && FirstSep(ty, y') == FirstSep(ty, y)
    requires y[FirstSep(ty, y)..] == y'[FirstSep(ty, y)..]
    ensures Split(ty, y') == [y'[..FirstSep(ty, y)]] + Split(ty, y)[1..]
    ensures Split(ty, y)[0] == y[..FirstSep(ty, y)]
  {
    var k := FirstSep(ty, y);
    if k < |y| {
      SplitAt(ty, y, k);
      SplitAt(ty, y', k);
      hide Split, FirstSep;
      assert y[k + 1..] == y[k..][1..] && y'[k + 1..] == y'[k..][1..];
    }
  }

  /** A text with `#.#` or `#.*` ahead is not in normal form. */
  lemma NotNormalYet(ty: TreeType, s: string, t: TokenIter, n: TokenIter, s0: nat)
    requires ValidIter(ty, s, t) && TokenStart(ty, s, t.term, s0, t.begin)
    requires forall i :: 0 <= i < s0 ==> IsSep(ty, s[i])
    requires s0 < t.term ==> !IsSep(ty, s[s0])
    requires ValidIter(ty, s, n) && !Done(n) && n.term == t.term
    requires Rest(ty, s, t) == [s[t.begin..t.end]] + Rest(ty, s, n)
    requires Classify(ty, s[t.begin..t.end]) == Glob && !Classify(ty, s[n.begin..n.end]).Lit?
    ensures !NormalForm(PatternOf(ty, s[..t.term]))
  {
    WholeText(ty, s, t, s0);
    TwoClassified(ty, s, t, n);
    var d, r, p := ClassifyAll(ty, Split(ty, s[s0..t.begin])), ClassifyAll(ty, Rest(ty, s, t)), PatternOf(ty, s[..t.term]);
    assert p[|d|] == r[0] && p[|d| + 1] == r[1];
  }

  /** Two steps past a `#` and the literal behind it. */
  lemma GlobThenLiteral(ty: TreeType, s: string, t: TokenIter, n: TokenIter, m: TokenIter, s0: nat, goal: Pattern)
    requires RewriteInv(ty, s, t, s0, goal) && !Done(t) && !Done(n)
    requires ValidIter(ty, s, n) && n.term == t.term && ValidIter(ty, s, m) && m.term == t.term
    requires n.begin == t.end + 1
    requires m.begin == n.end + 1 || (n.end == n.term && m.begin == n.term)
    requires Rest(ty, s, t) == [s[t.begin..t.end]] + Rest(ty, s, n)
    requires Rest(ty, s, n) == [s[n.begin..n.end]] + Rest(ty, s, m)
    requires Classify(ty, s[t.begin..t.end]) == Glob && Classify(ty, s[n.begin..n.end]).Lit?
    ensures RewriteInv(ty, s, m, s0, goal)
  {
    InvIsValid(ty, s, t, s0, goal);
    hide RewriteInv, Split, FirstSep, ClassifyAll, Classify;
    var l := Classify(ty, s[n.begin..n.end]);
    var r := ClassifyAll(ty, Rest(ty, s, m));
    ClassifyCons(ty, s[t.begin..t.end], Rest(ty, s, n));
    ClassifyCons(ty, s[n.begin..n.end], Rest(ty, s, m));
    GlobLiteralRewrite(l, r);
    StepOver(ty, s, t, n, s0, goal);
    StepOver(ty, s, n, m, s0, goal);
  }

  lemma InvIsValid(ty: TreeType, s: string, t: TokenIter, s0: nat, goal: Pattern)
    requires RewriteInv(ty, s, t, s0, goal)
    ensures ValidIter(ty, s, t)
  {
  }

  lemma GlobLiteralRewrite(l: Tok, r: Pattern)
    requires l.Lit?
    ensures Normalize([Glob] + ([l] + r)) == [Glob] + Normalize([l] + r)
    ensures Normalize([l] + r) == [l] + Normalize(r)
  {
    var q := [l] + r;
    var p := [Glob] + q;
    assert p[2..] == r && q[1..] == r && p[1] == l;
    if r != [] { assert Normalize(p) == [Glob, l] + Normalize(r); }
  }

  // ----- What becomes of the separators -----

  /** The separator behind the token at the head of the rest. */
  lemma HeadSeps(ty: TreeType, s: string, t: TokenIter)
    requires ValidIter(ty, s, t) && !Done(t)
    ensures t.end < t.term ==> Seps(ty, s[t.begin..t.term]) == [s[t.end]] + Seps(ty, s[t.end + 1..t.term])
    ensures t.end == t.term ==> Seps(ty, s[t.begin..t.term]) == []
  {
    hide FirstSep, Seps, IsSep;
    var x := s[t.begin..t.term];
    var k := t.end - t.begin;
    TokenIsClean(ty, s, t);
    assert x[..k] == s[t.begin..t.end];
    SepsAt(ty, x, k);
    if k < |x| {
      assert x[k] == s[t.end] && x[k + 1..] == s[t.end + 1..t.term];
    }
  }

  /** What is done grows by the token and its separator. */
  lemma DoneSeps(ty: TreeType, s: string, t: TokenIter, b: nat, s0: nat)
    requires ValidIter(ty, s, t) && !Done(t) && s0 <= t.begin
    requires (b == t.end + 1 <= t.term) || (b == t.end == t.term)
    ensures Seps(ty, s[s0..b]) == Seps(ty, s[s0..t.begin]) + if b == t.end + 1 then [s[t.end]] else []
  {
    hide FirstSep, Seps, IsSep;
    TokenIsClean(ty, s, t);
    var x, y := s[s0..t.begin], s[t.begin..b];
    assert s[s0..b] == x + y;
    SepsConcat(ty, x, y);
    assert y[..t.end - t.begin] == s[t.begin..t.end];
    SepsAt(ty, y, t.end - t.begin);
    EmptySeps(ty);
    if b == t.end + 1 {
      assert y[t.end - t.begin] == s[t.end] && y[t.end - t.begin + 1..] == [];
    }
  }

  lemma EmptySeps(ty: TreeType)
    ensures Seps(ty, []) == []
  {
  }

  lemma SepsStep(p: Pattern, z: string)
    requires p != []
    requires !(|p| > 1 && p[0] == Glob && !p[1].Lit?)
    ensures SepsLeft(p, z) == if z == [] then [] else [z[0]] + SepsLeft(p[1..], z[1..])
  {
    if |p| == 1 && z != [] {
      assert z == [z[0]] + z[1..];
    }
  }

  /** A step over a token that stays where it is. */
  lemma PlainSpells(ty: TreeType, s: string, t: TokenIter, n: TokenIter, s0: nat, goal: Spelling)
    requires SpellInv(ty, s, t, s0, goal) && !Done(t) && ValidIter(ty, s, n) && n.term == t.term
    requires n.begin == t.end + 1 || (t.end == t.term && n.begin == t.term)
    requires Rest(ty, s, t) == [s[t.begin..t.end]] + Rest(ty, s, n)
    requires var p := ClassifyAll(ty, Rest(ty, s, t)); !(|p| > 1 && p[0] == Glob && !p[1].Lit?)
    ensures SpellInv(ty, s, n, s0, goal)
  {
    hide FirstSep, Seps, IsSep, Split, SepsLeft, ClassifyAll, Classify;
    var z := Seps(ty, s[t.begin..t.term]);
    var p := ClassifyAll(ty, Rest(ty, s, t));
    var q := ClassifyAll(ty, Rest(ty, s, n));
    HeadSeps(ty, s, t);
    DoneSeps(ty, s, t, n.begin, s0);
    ClassifyCons(ty, s[t.begin..t.end], Rest(ty, s, n));
    assert p[1..] == q;
    SepsStep(p, z);
    EmptySeps(ty);
    var d := Seps(ty, s[s0..t.begin]);
    if z == [] {
      assert s[t.term..t.term] == [];
      NoneLeft(q);
    } else {
      var r := SepsLeft(q, Seps(ty, s[n.begin..n.term]));
      assert z[1..] == Seps(ty, s[n.begin..n.term]);
      assert d + ([z[0]] + r) == (d + [z[0]]) + r;
    }
  }

  lemma NoneLeft(p: Pattern)
    ensures SepsLeft(p, []) == []
  {
  }

  /** `#.#` to `#`: the separator between the two goes. */
  lemma CollapseSpells(ty: TreeType, s: string, s': string, t: TokenIter, n: TokenIter, t': TokenIter, s0: nat, goal: Spelling)
    requires SpellInv(ty, s, t, s0, goal) && !Done(t) && ValidIter(ty, s, n) && n.term == t.term && !Done(n)
    requires n.begin == t.end + 1 && Rest(ty, s, t) == [s[t.begin..t.end]] + Rest(ty, s, n)
    requires s[t.begin..t.end] == "#" && s[n.begin..n.end] == "#"
    requires |s'| == |s| && s'[..t.begin] == s[..t.begin] && ValidIter(ty, s', t')
    requires t'.begin == t.begin && t'.term == t.begin + (n.term - n.begin)
    requires s'[t.begin..t'.term] == s[n.begin..n.term]
    ensures SpellInv(ty, s', t', s0, goal)
  {
    HeadSeps(ty, s, t);
    TwoClassified(ty, s, t, n);
    var z, p := Seps(ty, s[t.begin..t.term]), ClassifyAll(ty, Rest(ty, s, t));
    assert p[0] == Glob && p[1] == Glob;
    ClassifyCons(ty, s[t.begin..t.end], Rest(ty, s, n));
    assert p[1..] == ClassifyAll(ty, Rest(ty, s, n));
    assert SepsLeft(p, z) == SepsLeft(p[1..], z[1..]);
    hide FirstSep, Seps, IsSep, Split, SepsLeft, ClassifyAll, Classify;
    assert s'[s0..t.begin] == s[s0..t.begin] by { assert s'[..t.begin][s0..] == s[..t.begin][s0..]; }
    assert s'[..s0] == s[..s0] by { assert s'[..t.begin][..s0] == s[..t.begin][..s0]; }
    assert Rest(ty, s', t') == Rest(ty, s, n);
  }

  lemma SepsSwapped(p: Pattern, r: Pattern, z: string)
    requires p == [Glob, One] + r && z != []
    ensures SepsLeft(p, z) == [z[0]] + SepsLeft([Glob] + r, z[1..])
  {
    assert p[2..] == r;
  }

  /** A character that is no separator can be changed for another. */
  lemma SepsOfChanged(ty: TreeType, y: string, c: char)
    requires y != [] && !IsSep(ty, y[0]) && !IsSep(ty, c)
    ensures Seps(ty, y[0 := c]) == Seps(ty, y)
  {
    assert y[0 := c][1..] == y[1..];
  }

  /** What the swap does to the characters. */
  lemma SwapFacts(ty: TreeType, s: string, s': string, t: TokenIter, n: TokenIter)
    requires SwapSetting(ty, s, s', t, n)
    ensures t.end == t.begin + 1 && t.end < t.term && IsSep(ty, s[t.end])
    ensures s' == s[t.begin + 2 := '#'][t.begin := '*'] && n.begin == t.begin + 2 && n.begin < n.term
    ensures !IsSep(ty, s[n.begin]) && !IsSep(ty, '*') && !IsSep(ty, '#')
  {
    TokenIsClean(ty, s, t);
    assert |s[t.begin..t.end]| == 1 && |s[n.begin..n.end]| == 1;
    assert s[n.begin] == s[n.begin..n.end][0];
  }

  lemma SwapSeps(ty: TreeType, s: string, s': string, t: TokenIter, n: TokenIter, s0: nat)
    requires SwapSetting(ty, s, s', t, n) && s0 <= t.begin
    ensures Seps(ty, s'[s0..n.begin]) == Seps(ty, s[s0..t.begin]) + [s[t.end]]
    ensures Seps(ty, s'[n.begin..n.term]) == Seps(ty, s[n.begin..n.term])
    ensures s'[..s0] == s[..s0]
  {
    SwapFacts(ty, s, s', t, n);
    hide FirstSep, Seps, IsSep, Split, SwapSetting;
    SwapChars(s, s', t.begin, n.term, s0);
    StarToken(ty, s', t);
    DoneSeps(ty, s', t, n.begin, s0);
    SepsOfChanged(ty, s[n.begin..n.term], '#');
    assert s'[..t.begin][..s0] == s[..t.begin][..s0];
  }

  lemma SwapRest(ty: TreeType, s: string, s': string, t: TokenIter, n: TokenIter) returns (r: Pattern)
    requires SwapSetting(ty, s, s', t, n)
    ensures ValidIter(ty, s', n)
    ensures ClassifyAll(ty, Rest(ty, s, t)) == [Glob, One] + r && ClassifyAll(ty, Rest(ty, s', n)) == [Glob] + r
  {
    SwapAhead(ty, s, s', t, n);
    var ts := Rest(ty, s, n)[1..];
    r := ClassifyAll(ty, ts);
    ClassifySwapped(ty, ts);
    hide FirstSep, Split, ClassifyAll;
    assert Rest(ty, s, t) == ["#", "*"] + ts;
  }

  /** `#.*` to `*.#`: the separators stay where they are. */
  lemma SwapSpells(ty: TreeType, s: string, s': string, t: TokenIter, n: TokenIter, s0: nat, goal: Spelling)
    requires SpellInv(ty, s, t, s0, goal) && SwapSetting(ty, s, s', t, n)
    ensures SpellInv(ty, s', n, s0, goal)
  {
    hide FirstSep, Seps, IsSep, Split, SepsLeft, ClassifyAll;
    SwapFacts(ty, s, s', t, n);
    SwapSeps(ty, s, s', t, n, s0);
    HeadSeps(ty, s, t);
    var r := SwapRest(ty, s, s', t, n);
    var z := Seps(ty, s[t.begin..t.term]);
    SepsSwapped([Glob, One] + r, r, z);
    var d, e := Seps(ty, s[s0..t.begin]), SepsLeft([Glob] + r, z[1..]);
    assert d + ([z[0]] + e) == (d + [z[0]]) + e;
  }

  lemma ClassifySwapped(ty: TreeType, ts: seq<string>)
    requires ty != Mqtt
    ensures ClassifyAll(ty, ["#", "*"] + ts) == [Glob, One] + ClassifyAll(ty, ts)
    ensures ClassifyAll(ty, ["#"] + ts) == [Glob] + ClassifyAll(ty, ts)
  {
  }

  /** At the end the text is spelled as wanted. */
  lemma SpelledAtEnd(ty: TreeType, s: string, t: TokenIter, s0: nat, p: Pattern, goal: Spelling)
    requires RewriteInv(ty, s, t, s0, p) && SpellInv(ty, s, t, s0, goal) && |Rest(ty, s, t)| < 2
    ensures SpellingOf(ty, s[..t.term]) == goal
  {
    var x := s[..t.term];
    assert forall i :: 0 <= i < t.term ==> x[i] == s[i];
    SkipSepsIs(ty, x, s0);
    hide FirstSep, Seps, IsSep, Split, SepsLeft, SkipSeps;
    ShortIsLeft(ClassifyAll(ty, Rest(ty, s, t)), Seps(ty, s[t.begin..t.term]));
    assert x[s0..] == s[s0..t.begin] + s[t.begin..t.term] && x[..s0] == s[..s0];
    SepsConcat(ty, s[s0..t.begin], s[t.begin..t.term]);
  }

  lemma ShortIsLeft(p: Pattern, z: string)
    requires |p| < 2
    ensures SepsLeft(p, z) == z
  {
  }

  lemma SpellStarts(ty: TreeType, s: string, t: TokenIter)
    requires ValidIter(ty, s, t) && t.begin == SkipSeps(ty, s[..t.term]) && Rest(ty, s, t) == TokensOf(ty, s[..t.term])
    requires ty != Mqtt
    ensures SpellInv(ty, s, t, t.begin, StoredSpelling(ty, s[..t.term]))
  {
    EmptySeps(ty);
    hide FirstSep, Seps, IsSep, Split, SepsLeft, SkipSeps, ClassifyAll;
    var x := s[..t.term];
    assert x[t.begin..] == s[t.begin..t.term] && x[..t.begin] == s[..t.begin] && s[t.begin..t.begin] == [];
  }

  /** One turn of the rewriting loop, at a token that is not the last `#`. */
  method RewriteTurn(ty: TreeType, a: array<char>, t: TokenIter, n: TokenIter, ghost s0: nat, ghost goal: Pattern,
                     ghost spelling: Spelling)
      returns (t': TokenIter, rewritten: bool)
    requires ty != Mqtt && RewriteInv(ty, a[..], t, s0, goal) && !Done(t)
    requires SpellInv(ty, a[..], t, s0, spelling)
    requires ValidIter(ty, a[..], n) && n.term == t.term
    requires n.begin == t.end + 1 || (t.end == t.term && n.begin == t.term)
    requires Rest(ty, a[..], t) == [a[..][t.begin..t.end]] + Rest(ty, a[..], n)
    requires Classify(ty, a[..][t.begin..t.end]) == Glob ==> !Done(n)
    modifies a
    ensures RewriteInv(ty, a[..], t', s0, goal) && SpellInv(ty, a[..], t', s0, spelling)
    ensures t'.term <= t.term && t'.term - t'.begin < t.term - t.begin
    ensures rewritten ==> !NormalForm(PatternOf(ty, old(a[..])[..t.term]))
    ensures !rewritten ==> t'.term == t.term && a[..] == old(a[..])
  {
    hide Normalize, Split, FirstSep, ClassifyAll, NormalForm, Seps, SepsLeft, SpellInv;
    ghost var s := a[..];
    rewritten := false;
    if Classify(ty, a[..][t.begin..t.end]) == Glob {
      var c := Classify(ty, a[..][n.begin..n.end]);
      if c.Lit? {
        t' := NextToken(ty, a[..], n);
        GlobThenLiteral(ty, s, t, n, t', s0, goal);
        GlobLiteralSpells(ty, s, t, n, t', s0, spelling);
      } else {
        NotNormalYet(ty, s, t, n, s0);
        rewritten := true;
        if c == Glob {
          var newTerm := MoveDown(a, n.begin, t.begin, t.term);
          t' := TokenIter(t.begin, t.end, newTerm);
          CollapseStep(ty, s, a[..], t, n, t', s0, goal);
          CollapseSpells(ty, s, a[..], t, n, t', s0, spelling);
        } else {
          a[n.begin] := MATCH_GLOB_CHAR;
          a[t.begin] := MatchOneChar(ty);
          t' := n;
          SwapStep(ty, s, a[..], t, n, s0, goal);
          SwapSpells(ty, s, a[..], t, n, s0, spelling);
        }
      }
    } else {
      t' := n;
      PlainStep(ty, s, t, n, s0, goal);
      PlainHead(ty, s, t, n);
      PlainSpells(ty, s, t, n, s0, spelling);
    }
  }

  lemma PlainHead(ty: TreeType, s: string, t: TokenIter, n: TokenIter)
    requires ValidIter(ty, s, t) && ValidIter(ty, s, n) && Rest(ty, s, t) == [s[t.begin..t.end]] + Rest(ty, s, n)
    requires Classify(ty, s[t.begin..t.end]) != Glob
    ensures ClassifyAll(ty, Rest(ty, s, t))[0] != Glob
  {
  }

  lemma GlobLiteralSpells(ty: TreeType, s: string, t: TokenIter, n: TokenIter, m: TokenIter, s0: nat, goal: Spelling)
    requires SpellInv(ty, s, t, s0, goal) && !Done(t) && !Done(n)
    requires ValidIter(ty, s, n) && n.term == t.term && ValidIter(ty, s, m) && m.term == t.term
    requires n.begin == t.end + 1
    requires m.begin == n.end + 1 || (n.end == n.term && m.begin == n.term)
    requires Rest(ty, s, t) == [s[t.begin..t.end]] + Rest(ty, s, n)
    requires Rest(ty, s, n) == [s[n.begin..n.end]] + Rest(ty, s, m)
    requires Classify(ty, s[n.begin..n.end]).Lit?
    ensures SpellInv(ty, s, m, s0, goal)
  {
    assert ClassifyAll(ty, Rest(ty, s, t))[1].Lit? && ClassifyAll(ty, Rest(ty, s, n))[0].Lit?;
    hide FirstSep, Seps, IsSep, Split, SepsLeft, SpellInv, ClassifyAll;
    PlainSpells(ty, s, t, n, s0, goal);
    PlainSpells(ty, s, n, m, s0, goal);
  }

  /** The in-place rewrite of a pattern's text. On return the text spells the rewritten pattern,
      and the result tells whether that differs from the pattern the text spelt before. */
  method NormalizePattern(ty: TreeType, a: array<char>, len: nat) returns (newLen: nat, modified: bool)
    requires len <= a.Length
    modifies a
    ensures newLen <= len
    ensures PatternOf(ty, a[..newLen]) == StoredPattern(ty, old(a[..len]))
    ensures SpellingOf(ty, a[..newLen]) == StoredSpelling(ty, old(a[..len]))
    ensures modified <==> StoredPattern(ty, old(a[..len])) != PatternOf(ty, old(a[..len]))
    ensures !modified ==> newLen == len && a[..] == old(a[..])
  {
    hide Normalize, Split, FirstSep, ClassifyAll, Classify, NormalForm, Seps, SepsLeft, SpellInv;
    newLen, modified := len, false;
    if ty == Mqtt { return; }
    ghost var orig := PatternOf(ty, a[..len]);
    ghost var goal := Normalize(orig);
    ghost var spelling := StoredSpelling(ty, a[..len]);
    NormalizeReachesNormalForm(orig);
    assert a[..][..len] == a[..len];
    var t := InitIter(ty, a[..], len);
    ghost var s0 := t.begin;
    StartRewrite(ty, a[..], t);
    SpellStarts(ty, a[..], t);
    while !Done(t)
      invariant RewriteInv(ty, a[..], t, s0, goal) && SpellInv(ty, a[..], t, s0, spelling)
      invariant t.term <= len
      invariant !modified ==> t.term == len && a[..] == old(a[..])
      invariant modified ==> !NormalForm(orig)
      decreases t.term - t.begin
    {
      var n := NextToken(ty, a[..], t);
      if Classify(ty, a[..][t.begin..t.end]) == Glob && Done(n) {
        LastGlob(ty, a[..], t, n);
        break;
      }
      var rewritten;
      t, rewritten := RewriteTurn(ty, a, t, n, s0, goal, spelling);
      modified := modified || rewritten;
    }
    newLen := t.term;
    WholeText(ty, a[..], t, s0);
    if Done(t) { NothingToRewrite(ty, a[..], t); }
    SpelledAtEnd(ty, a[..], t, s0, goal, spelling);
    assert a[..][..newLen] == a[..newLen];
  }

  lemma StartRewrite(ty: TreeType, s: string, t: TokenIter)
    requires ValidIter(ty, s, t) && t.begin == SkipSeps(ty, s[..t.term]) && Rest(ty, s, t) == TokensOf(ty, s[..t.term])
    ensures RewriteInv(ty, s, t, t.begin, Normalize(PatternOf(ty, s[..t.term])))
  {
    SkippedFacts(ty, s, t.term);
    assert s[t.begin..t.begin] == [] && ClassifyAll(ty, Split(ty, [])) == [];
    hide Normalize, FirstSep, Split, ClassifyAll, SkipSeps, IsSep;
  }

  lemma SkippedFacts(ty: TreeType, s: string, term: nat)
    requires term <= |s|
    ensures forall i :: 0 <= i < SkipSeps(ty, s[..term]) ==> IsSep(ty, s[i])
    ensures SkipSeps(ty, s[..term]) < term ==> !IsSep(ty, s[SkipSeps(ty, s[..term])])
  {
    var x := s[..term];
    assert forall i :: 0 <= i < term ==> x[i] == s[i];
  }

  lemma NothingToRewrite(ty: TreeType, s: string, t: TokenIter)
    requires ValidIter(ty, s, t) && Done(t)
    ensures Normalize(ClassifyAll(ty, Rest(ty, s, t))) == ClassifyAll(ty, Rest(ty, s, t)) && |Rest(ty, s, t)| < 2
  {
  }

  lemma LastGlob(ty: TreeType, s: string, t: TokenIter, n: TokenIter)
    requires ValidIter(ty, s, t) && ValidIter(ty, s, n) && Done(n)
    requires Rest(ty, s, t) == [s[t.begin..t.end]] + Rest(ty, s, n)
    ensures Normalize(ClassifyAll(ty, Rest(ty, s, t))) == ClassifyAll(ty, Rest(ty, s, t)) && |Rest(ty, s, t)| < 2
  {
    assert Rest(ty, s, n) == [];
  }

  lemma PlainStep(ty: TreeType, s: string, t: TokenIter, n: TokenIter, s0: nat, goal: Pattern)
    requires RewriteInv(ty, s, t, s0, goal) && !Done(t) && ValidIter(ty, s, n) && n.term == t.term
    requires n.begin == t.end + 1 || (t.end == t.term && n.begin == t.term)
    requires Rest(ty, s, t) == [s[t.begin..t.end]] + Rest(ty, s, n)
    requires Classify(ty, s[t.begin..t.end]) != Glob
    ensures RewriteInv(ty, s, n, s0, goal)
  {
    var p, r := ClassifyAll(ty, Rest(ty, s, t)), ClassifyAll(ty, Rest(ty, s, n));
    assert p == [p[0]] + r && p[1..] == r;
    StepOver(ty, s, t, n, s0, goal);
  }

  /** Copies `a[src..term]` down to `dest`, character by character. */
  method MoveDown(a: array<char>, from: nat, to: nat, term: nat) returns (newTerm: nat)
    requires to < from <= term <= a.Length
    modifies a
    ensures newTerm == to + (term - from)
    ensures a[..to] == old(a[..to])
    ensures a[to..newTerm] == old(a[from..term])
  {
    var src, dest := from, to;
    while src < term
      invariant from <= src <= term && dest == to + (src - from)
      invariant a[..to] == old(a[..to])
      invariant a[to..dest] == old(a[from..src])
      invariant a[src..] == old(a[src..])
    {
      a[dest] := a[src];
      src, dest := src + 1, dest + 1;
    }
    newTerm := dest;
  }
}
