/** How a text spells its tokens: the separators in front, between and behind them. Two texts with the same tokens
    are the same text exactly when they are spelled the same. */
module Spellings {
  import opened Patterns
  import opened Tokens

  /** The separators in front of the first token, and those behind it. */
  datatype Spelling = Spelling(lead: string, seps: string)

  /** The separators of a text. */
  function Seps(ty: TreeType, s: string): string {
    if s == [] then [] else (if IsSep(ty, s[0]) then [s[0]] else []) + Seps(ty, s[1..])
  }

  function SpellingOf(ty: TreeType, s: string): Spelling {
    var k := SkipSeps(ty, s);
    Spelling(s[..k], Seps(ty, s[k..]))
  }

  /** The separators left when the pattern is rewritten: with one of two `#` goes the separator between them. */
  function SepsLeft(p: Pattern, z: string): string
    decreases |p|
  {
    if |p| < 2 || z == [] then z
    else if p[0] == Glob && p[1] == Glob then SepsLeft(p[1..], z[1..])
    else if p[0] == Glob && p[1] == One then [z[0]] + SepsLeft([Glob] + p[2..], z[1..])
    else [z[0]] + SepsLeft(p[1..], z[1..])
  }

  /** How a pattern's text is spelled once it is stored: MQTT patterns are not rewritten. */
  function StoredSpelling(ty: TreeType, s: string): Spelling {
    var z := SpellingOf(ty, s);
    if ty == Mqtt then z else Spelling(z.lead, SepsLeft(PatternOf(ty, s), z.seps))
  }

  // ----- Separators -----

  lemma {:induction false} SepsConcat(ty: TreeType, x: string, y: string)
    ensures Seps(ty, x + y) == Seps(ty, x) + Seps(ty, y)
    decreases |x|
  {
    if x == [] {
      assert x + y == y;
    } else {
      SepsConcat(ty, x[1..], y);
      assert (x + y)[0] == x[0] && (x + y)[1..] == x[1..] + y;
      var first: string := if IsSep(ty, x[0]) then [x[0]] else [];
      assert Seps(ty, x) == first + Seps(ty, x[1..]);
      assert Seps(ty, x + y) == first + Seps(ty, x[1..] + y);
      hide Seps, IsSep;
      assert first + (Seps(ty, x[1..]) + Seps(ty, y)) == (first + Seps(ty, x[1..])) + Seps(ty, y);
    }
  }

  lemma {:induction false} SepsClean(ty: TreeType, x: string)
    requires Clean(ty, x)
    ensures Seps(ty, x) == []
    decreases |x|
  {
    if x != [] {
      assert Clean(ty, x[1..]);
      SepsClean(ty, x[1..]);
    }
  }

  /** The first separator, and those behind it. */
  lemma SepsAt(ty: TreeType, s: string, k: nat)
    requires k <= |s| && Clean(ty, s[..k]) && (k < |s| ==> IsSep(ty, s[k]))
    ensures Seps(ty, s) == if k < |s| then [s[k]] + Seps(ty, s[k + 1..]) else []
  {
    SepsClean(ty, s[..k]);
    SepsConcat(ty, s[..k], s[k..]);
    assert s == s[..k] + s[k..];
    if k < |s| {
      assert s[k..][1..] == s[k + 1..];
    }
  }

  // ----- A text is its tokens and their spelling -----

  lemma SplitWhole(ty: TreeType, s: string)
    ensures s != [] && FirstSep(ty, s) == |s| ==> Split(ty, s) == [s]
    ensures s == [] ==> Split(ty, s) == []
  {
    assert s[..|s|] == s;
  }

  /** A text is its first token, the separator behind it, and the rest. */
  lemma FrontOf(ty: TreeType, s: string)
    requires s != []
    ensures var k := FirstSep(ty, s);
      && k < |s| ==>
           && Split(ty, s) == [s[..k]] + Split(ty, s[k + 1..]) && Seps(ty, s) == [s[k]] + Seps(ty, s[k + 1..])
           && s == s[..k] + [s[k]] + s[k + 1..]
    ensures FirstSep(ty, s) == |s| ==> Split(ty, s) == [s] && Seps(ty, s) == []
  {
    hide Split, Seps, FirstSep, IsSep;
    var k := FirstSep(ty, s);
    FirstSepFacts(ty, s);
    SepsAt(ty, s, k);
    SplitWhole(ty, s);
    if k < |s| {
      SplitAt(ty, s, k);
    }
  }

  /** Tokens and separators behind the leading ones give the text. */
  lemma {:induction false} SplitAndSeps(ty: TreeType, s: string, t: string)
    requires Split(ty, s) == Split(ty, t) && Seps(ty, s) == Seps(ty, t)
    ensures s == t
    decreases |s|
  {
    if s != [] && t != [] {
      hide Split, Seps, FirstSep;
      FrontOf(ty, s);
      FrontOf(ty, t);
      var j, k := FirstSep(ty, s), FirstSep(ty, t);
      if j < |s| {
        assert |Seps(ty, t)| > 0;
        assert s[..j] == Split(ty, s)[0] && t[..k] == Split(ty, t)[0];
        assert s[j] == Seps(ty, s)[0] && t[k] == Seps(ty, t)[0];
        var x, y := s[j + 1..], t[k + 1..];
        assert Split(ty, x) == Split(ty, s)[1..] && Split(ty, y) == Split(ty, t)[1..];
        assert Seps(ty, x) == Seps(ty, s)[1..] && Seps(ty, y) == Seps(ty, t)[1..];
        SplitAndSeps(ty, x, y);
      } else {
        assert |Seps(ty, t)| == 0;
        assert s == Split(ty, s)[0] && t == Split(ty, t)[0];
      }
    }
  }

  /** Two texts are the same if and only if they have the same tokens, spelled the same way. */
  lemma TextIsSpelling(ty: TreeType, s: string, t: string)
    ensures s == t <==> TokensOf(ty, s) == TokensOf(ty, t) && SpellingOf(ty, s) == SpellingOf(ty, t)
  {
    var j, k := SkipSeps(ty, s), SkipSeps(ty, t);
    if TokensOf(ty, s) == TokensOf(ty, t) && SpellingOf(ty, s) == SpellingOf(ty, t) {
      hide Split, Seps;
      SplitAndSeps(ty, s[j..], t[k..]);
      assert s == s[..j] + s[j..] && t == t[..k] + t[k..];
    }
  }

  lemma {:induction false} ClassifyInjective(ty: TreeType, x: seq<string>, y: seq<string>)
    requires ClassifyAll(ty, x) == ClassifyAll(ty, y)
    ensures x == y
  {
    assert |x| == |ClassifyAll(ty, x)| == |y|;
    forall i | 0 <= i < |x| ensures x[i] == y[i] {
      assert Classify(ty, x[i]) == ClassifyAll(ty, x)[i] == ClassifyAll(ty, y)[i] == Classify(ty, y[i]);
    }
  }

  /** The same for texts of patterns. */
  lemma PatternTextIsSpelling(ty: TreeType, s: string, t: string)
    requires PatternOf(ty, s) == PatternOf(ty, t)
    ensures s == t <==> SpellingOf(ty, s) == SpellingOf(ty, t)
  {
    ClassifyInjective(ty, TokensOf(ty, s), TokensOf(ty, t));
    TextIsSpelling(ty, s, t);
  }

  // ----- Ways to spell a pattern -----

  /** A separator in front changes the spelling and not the pattern. */
  lemma LeadingSeparator(ty: TreeType, c: char, s: string)
    requires IsSep(ty, c)
    ensures StoredPattern(ty, [c] + s) == StoredPattern(ty, s)
    ensures StoredSpelling(ty, [c] + s).lead == [c] + StoredSpelling(ty, s).lead
  {
    var k := SkipSeps(ty, s);
    var t := [c] + s;
    assert forall i :: 0 <= i < k + 1 ==> IsSep(ty, t[i]);
    SkipSepsIs(ty, t, k + 1);
    assert t[k + 1..] == s[k..] && t[..k + 1] == [c] + s[..k];
  }

  lemma {:induction false} SplitTrailing(ty: TreeType, s: string, c: char)
    requires IsSep(ty, c) && s != [] && !IsSep(ty, s[|s| - 1])
    ensures Split(ty, s + [c]) == Split(ty, s)
    decreases |s|
  {
    hide Split, Seps, FirstSep, IsSep;
    var k := FirstSep(ty, s);
    FirstSepFacts(ty, s);
    FrontOf(ty, s);
    SplitWhole(ty, []);
    var t := s + [c];
    assert forall i :: 0 <= i < |s| ==> t[i] == s[i];
    FirstSepIs(ty, t, k);
    SplitAt(ty, t, k);
    assert t[..k] == s[..k];
    if k == |s| {
      assert t[..k] == s && t[k + 1..] == [];
    } else {
      assert t[k + 1..] == s[k + 1..] + [c];
      SplitTrailing(ty, s[k + 1..], c);
    }
  }

  /** So does one behind the last token. */
  lemma TrailingSeparator(ty: TreeType, s: string, c: char)
    requires IsSep(ty, c) && s != [] && !IsSep(ty, s[|s| - 1])
    ensures StoredPattern(ty, s + [c]) == StoredPattern(ty, s)
    ensures SpellingOf(ty, s + [c]) == SpellingOf(ty, s).(seps := SpellingOf(ty, s).seps + [c])
  {
    var k := SkipSeps(ty, s);
    var t := s + [c];
    assert k < |s|;
    SkipSepsIs(ty, t, k);
    assert t[k..] == s[k..] + [c] && t[..k] == s[..k];
    SplitTrailing(ty, s[k..], c);
    SepsConcat(ty, s[k..], [c]);
  }
}
