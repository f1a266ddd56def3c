/** Text of patterns and values, and the token iterator over a separated string. */
module Tokens {
  import opened Patterns

  datatype TreeType = Address | Amqp010 | Mqtt

  predicate IsSep(ty: TreeType, c: char) {
    match ty
    case Address => c == '.' || c == '/'
    case Amqp010 => c == '.'
    case Mqtt => c == '/'
  }

  function MatchOneChar(ty: TreeType): char {
    if ty == Mqtt then '+' else '*'
  }

  const MATCH_GLOB_CHAR: char := '#'

  /** The first position of a separator from `i` on, or the length of the text. */
  function SepFrom(ty: TreeType, s: string, i: nat): (k: nat)
    requires i <= |s|
    ensures i <= k <= |s|
    ensures forall j :: i <= j < k ==> !IsSep(ty, s[j])
    ensures k < |s| ==> IsSep(ty, s[k])
    decreases |s| - i
  {
    if i == |s| || IsSep(ty, s[i]) then i else SepFrom(ty, s, i + 1)
  }

  function FirstSep(ty: TreeType, s: string): (k: nat)
    ensures k <= |s|
  {
    SepFrom(ty, s, 0)
  }

  /** The first position from `i` on that holds no separator, or the length of the text. */
  function NonSepFrom(ty: TreeType, s: string, i: nat): (k: nat)
    requires i <= |s|
    ensures i <= k <= |s|
    ensures forall j :: i <= j < k ==> IsSep(ty, s[j])
    ensures k < |s| ==> !IsSep(ty, s[k])
    decreases |s| - i
  {
    if i == |s| || !IsSep(ty, s[i]) then i else NonSepFrom(ty, s, i + 1)
  }

  function SkipSeps(ty: TreeType, s: string): (k: nat)
    ensures k <= |s|
  {
    NonSepFrom(ty, s, 0)
  }

  /** Split at separators; a separator that ends the text starts no further token. */
  function Split(ty: TreeType, s: string): seq<string>
    decreases |s|
  {
    if s == [] then []
    else
      var k := FirstSep(ty, s);
      [s[..k]] + if k == |s| then [] else Split(ty, s[k + 1..])
  }

  /** The tokens of a text: leading separators are skipped, then the text is split. */
  function TokensOf(ty: TreeType, s: string): Value {
    Split(ty, s[SkipSeps(ty, s)..])
  }

  /** A one-character token that is a wildcard stands for that wildcard; every other token is a literal. */
  function Classify(ty: TreeType, t: string): Tok {
    if t == [MatchOneChar(ty)] then One
    else if t == [MATCH_GLOB_CHAR] then Glob
    else Lit(t)
  }

  function ClassifyAll(ty: TreeType, ts: seq<string>): (p: Pattern)
    ensures |p| == |ts|
    ensures forall i :: 0 <= i < |ts| ==> p[i] == Classify(ty, ts[i])
  {
    if ts == [] then [] else [Classify(ty, ts[0])] + ClassifyAll(ty, ts[1..])
  }

  /** The pattern a text spells. */
  function PatternOf(ty: TreeType, s: string): Pattern {
    ClassifyAll(ty, TokensOf(ty, s))
  }

  /** The pattern a text is stored under: MQTT patterns are not rewritten. */
  function StoredPattern(ty: TreeType, s: string): Pattern {
    if ty == Mqtt then PatternOf(ty, s) else Normalize(PatternOf(ty, s))
  }

  // ----- Splitting -----

  lemma FirstSepIs(ty: TreeType, s: string, k: nat)
    requires k <= |s|
    requires forall i :: 0 <= i < k ==> !IsSep(ty, s[i])
    requires k < |s| ==> IsSep(ty, s[k])
    ensures FirstSep(ty, s) == k
  {
  }

  lemma SkipSepsIs(ty: TreeType, s: string, k: nat)
    requires k <= |s|
    requires forall i :: 0 <= i < k ==> IsSep(ty, s[i])
    requires k < |s| ==> !IsSep(ty, s[k])
    ensures SkipSeps(ty, s) == k
  {
  }

  /** A text that ends with a separator can be split apart there. */
  lemma {:induction false} SplitConcat(ty: TreeType, x: string, y: string)
    requires x == [] || IsSep(ty, x[|x| - 1])
    ensures Split(ty, x + y) == Split(ty, x) + Split(ty, y)
    decreases |x|
  {
    if x == [] {
      assert x + y == y;
    } else {
      var k := FirstSep(ty, x);
      FirstSepFacts(ty, x);
      hide Split, FirstSep, IsSep;
      DropKeepsLast(x, k + 1);
      SplitConcat(ty, x[k + 1..], y);
      SplitAtConcat(ty, x, y, k);
      SplitAt(ty, x, k);
      ConsConcat(x[..k], Split(ty, x[k + 1..]), Split(ty, y));
    }
  }

  lemma DropKeepsLast(x: string, k: nat)
    requires k <= |x|
    ensures x[k..] != [] ==> x[k..][|x[k..]| - 1] == x[|x| - 1]
  {
  }

  lemma ConsConcat(h: string, x: seq<string>, y: seq<string>)
    ensures [h] + (x + y) == ([h] + x) + y
  {
  }

  lemma FirstSepFacts(ty: TreeType, s: string)
    ensures FirstSep(ty, s) <= |s|
    ensures forall i :: 0 <= i < FirstSep(ty, s) ==> !IsSep(ty, s[i])
    ensures FirstSep(ty, s) < |s| ==> IsSep(ty, s[FirstSep(ty, s)])
    ensures s != [] && IsSep(ty, s[|s| - 1]) ==> FirstSep(ty, s) < |s|
  {
  }

  lemma SplitAtConcat(ty: TreeType, x: string, y: string, k: nat)
    requires k < |x| && FirstSep(ty, x) == k
    ensures Split(ty, x + y) == [x[..k]] + Split(ty, x[k + 1..] + y)
  {
    FirstSepIs(ty, x + y, k);
    SplitAt(ty, x + y, k);
    assert (x + y)[..k] == x[..k];
    assert (x + y)[k + 1..] == x[k + 1..] + y;
  }

  lemma SplitAt(ty: TreeType, s: string, k: nat)
    requires k < |s| && FirstSep(ty, s) == k
    ensures Split(ty, s) == [s[..k]] + Split(ty, s[k + 1..])
  {
  }

  lemma ClassifyCons(ty: TreeType, t: string, ts: seq<string>)
    ensures ClassifyAll(ty, [t] + ts) == [Classify(ty, t)] + ClassifyAll(ty, ts)
  {
    assert ([t] + ts)[1..] == ts;
    hide Classify;
  }

  lemma {:induction false} ClassifyConcat(ty: TreeType, x: seq<string>, y: seq<string>)
    ensures ClassifyAll(ty, x + y) == ClassifyAll(ty, x) + ClassifyAll(ty, y)
  {
  }

  function Join(c: char, ts: seq<string>): string {
    if ts == [] then [] else if |ts| == 1 then ts[0] else ts[0] + [c] + Join(c, ts[1..])
  }

  /** A text without separators. */
  predicate Clean(ty: TreeType, t: string) {
    forall j :: 0 <= j < |t| ==> !IsSep(ty, t[j])
  }

  /** Splitting undoes joining, for tokens without separators of which the first and the last are not empty. */
  lemma TokensOfJoin(ty: TreeType, c: char, ts: seq<string>)
    requires IsSep(ty, c) && forall i :: 0 <= i < |ts| ==> Clean(ty, ts[i])
    requires ts != [] ==> ts[0] != [] && ts[|ts| - 1] != []
    ensures TokensOf(ty, Join(c, ts)) == ts
  {
    SplitJoin(ty, c, ts);
    var s := Join(c, ts);
    if ts != [] { assert s[0] == ts[0][0]; }
    SkipSepsIs(ty, s, 0);
    assert s[0..] == s;
  }

  lemma {:induction false} SplitJoin(ty: TreeType, c: char, ts: seq<string>)
    requires IsSep(ty, c) && forall i :: 0 <= i < |ts| ==> Clean(ty, ts[i])
    requires ts != [] ==> ts[|ts| - 1] != []
    ensures Split(ty, Join(c, ts)) == ts
  {
    if |ts| == 1 {
      FirstSepIs(ty, ts[0], |ts[0]|);
      assert ts[0][..|ts[0]|] == ts[0] && ts == [ts[0]];
    } else if |ts| > 1 {
      SplitJoin(ty, c, ts[1..]);
      hide Split, Clean, IsSep;
      SplitFirst(ty, ts[0], c, Join(c, ts[1..]));
      assert ts == [ts[0]] + ts[1..];
    }
  }

  lemma SplitFirst(ty: TreeType, t: string, c: char, r: string)
    requires Clean(ty, t) && IsSep(ty, c)
    ensures Split(ty, t + [c] + r) == [t] + Split(ty, r)
  {
    var s := t + [c] + r;
    FirstSepIs(ty, s, |t|);
    SplitAt(ty, s, |t|);
    hide Split;
    assert s[..|t|] == t && s[|t| + 1..] == r;
  }

  // ----- The token iterator -----

  /** The token at the head of the text, and the end of the text. */
  datatype TokenIter = TokenIter(begin: nat, end: nat, term: nat)

  ghost predicate ValidIter(ty: TreeType, s: string, t: TokenIter) {
    t.begin <= t.end <= t.term <= |s| && t.end == t.begin + FirstSep(ty, s[t.begin..t.term])
  }

  predicate Done(t: TokenIter) {
    t.begin == t.term
  }

  /** The tokens still to come. */
  ghost function Rest(ty: TreeType, s: string, t: TokenIter): Value
    requires ValidIter(ty, s, t)
  {
    Split(ty, s[t.begin..t.term])
  }

  /** `strpbrk` with the end of the text for "none". */
  method FindSep(ty: TreeType, s: string, begin: nat, term: nat) returns (end: nat)
    requires begin <= term <= |s|
    ensures ValidIter(ty, s, TokenIter(begin, end, term))
  {
    end := begin;
    while end < term && !IsSep(ty, s[end])
      invariant begin <= end <= term
      invariant forall i :: begin <= i < end ==> !IsSep(ty, s[i])
    {
      end := end + 1;
    }
    FirstSepIs(ty, s[begin..term], end - begin);
  }

  method InitIter(ty: TreeType, s: string, term: nat) returns (t: TokenIter)
    requires term <= |s|
    ensures ValidIter(ty, s, t) && t.term == term
    ensures t.begin == SkipSeps(ty, s[..term])
    ensures Rest(ty, s, t) == TokensOf(ty, s[..term])
  {
    var b := 0;
    while b < term && IsSep(ty, s[b])
      invariant b <= term
      invariant forall i :: 0 <= i < b ==> IsSep(ty, s[i])
    {
      b := b + 1;
    }
    SkipSepsIs(ty, s[..term], b);
    var e := FindSep(ty, s, b, term);
    t := TokenIter(b, e, term);
    assert s[..term][b..] == s[b..term];
  }

  /** Moving on drops exactly the head token. */
  method NextToken(ty: TreeType, s: string, t: TokenIter) returns (n: TokenIter)
    requires ValidIter(ty, s, t)
    ensures ValidIter(ty, s, n) && n.term == t.term
    ensures Done(t) ==> n == t
    ensures !Done(t) ==> t.begin < n.begin && (n.begin == t.end + 1 || (t.end == t.term && n.begin == t.term))
    ensures !Done(t) ==> Rest(ty, s, t) == [s[t.begin..t.end]] + Rest(ty, s, n)
  {
    if t.end == t.term {
      n := TokenIter(t.term, t.end, t.term);
    } else {
      var e := FindSep(ty, s, t.end + 1, t.term);
      n := TokenIter(t.end + 1, e, t.term);
    }
    if !Done(t) { HeadToken(ty, s, t, n.begin); }
  }

  lemma HeadToken(ty: TreeType, s: string, t: TokenIter, b: nat)
    requires ValidIter(ty, s, t) && !Done(t)
    requires b == if t.end == t.term then t.term else t.end + 1
    ensures Split(ty, s[t.begin..t.term]) == [s[t.begin..t.end]] + Split(ty, s[b..t.term])
  {
    var cur, k := s[t.begin..t.term], t.end - t.begin;
    assert cur[..k] == s[t.begin..t.end];
    if t.end < t.term {
      SplitAt(ty, cur, k);
      hide Split;
      assert cur[k + 1..] == s[b..t.term];
    }
  }

  /** The rewritten pattern of a text means what the text says; MQTT patterns are left as they are. */
  lemma StoredMeaning(ty: TreeType, s: string, v: Value)
    ensures Matches(StoredPattern(ty, s), v) == Matches(PatternOf(ty, s), v)
    ensures if ty == Mqtt then StoredPattern(ty, s) == PatternOf(ty, s) else NormalForm(StoredPattern(ty, s))
  {
    NormalizeKeepsMeaning(PatternOf(ty, s), v);
    NormalizeReachesNormalForm(PatternOf(ty, s));
  }

  /** The wildcards and separators of the three types of tree. */
  lemma Wildcards()
    ensures PatternOf(Address, "a.*/#") == [Lit("a"), One, Glob]
    ensures PatternOf(Amqp010, "a/+.*.#") == [Lit("a/+"), One, Glob]
    ensures PatternOf(Mqtt, "a.*/+/#") == [Lit("a.*"), One, Glob]
  {
    hide PatternOf;
    assert PatternOf(Address, "a.*/#") == [Lit("a"), One, Glob] by {
      ThreeTokens(Address, "a", '.', "*", '/', "#");
      assert "a" + ['.'] + ("*" + ['/'] + "#") == "a.*/#";
    }
    assert PatternOf(Amqp010, "a/+.*.#") == [Lit("a/+"), One, Glob] by {
      ThreeTokens(Amqp010, "a/+", '.', "*", '.', "#");
      assert "a/+" + ['.'] + ("*" + ['.'] + "#") == "a/+.*.#";
    }
    assert PatternOf(Mqtt, "a.*/+/#") == [Lit("a.*"), One, Glob] by {
      ThreeTokens(Mqtt, "a.*", '/', "+", '/', "#");
      assert "a.*" + ['/'] + ("+" + ['/'] + "#") == "a.*/+/#";
    }
  }

  lemma ThreeTokens(ty: TreeType, x: string, c: char, y: string, d: char, z: string)
    requires Clean(ty, x) && Clean(ty, y) && Clean(ty, z) && x != [] && z != [] && IsSep(ty, c) && IsSep(ty, d)
    ensures PatternOf(ty, x + [c] + (y + [d] + z)) == [Classify(ty, x), Classify(ty, y), Classify(ty, z)]
  {
    var s := x + [c] + (y + [d] + z);
    assert s[0] == x[0];
    SkipSepsIs(ty, s, 0);
    assert s[0..] == s;
    SplitFirst(ty, x, c, y + [d] + z);
    SplitFirst(ty, y, d, z);
    SplitJoin(ty, c, [z]);
    assert Join(c, [z]) == z;
    assert TokensOf(ty, s) == [x, y, z];
  }
}
