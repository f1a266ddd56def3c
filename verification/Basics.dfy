/** Octets, and lists without repetition. */
module Basics {

  type Octet = x: int | 0 <= x < 256

  function Min(a: nat, b: nat): nat {
    if a < b then a else b
  }

  ghost predicate Distinct<T>(s: seq<T>) {
    forall i, j :: 0 <= i < j < |s| ==> s[i] != s[j]
  }

  /** The list without `c`. */
  function Without<T(==,!new)>(s: seq<T>, c: T): (r: seq<T>)
    ensures forall x :: x in r <==> x in s && x != c
    ensures Distinct(s) ==> Distinct(r)
    ensures c !in s ==> r == s
  {
    if s == [] then []
    else
      var r := Without(s[1..], c);
      assert Distinct(s) ==> Distinct(s[1..]) && s[0] !in s[1..];
      assert s == [s[0]] + s[1..];
      if s[0] == c then r else [s[0]] + r
  }

  lemma SnocDistinct<T>(s: seq<T>, c: T)
    requires Distinct(s) && c !in s
    ensures Distinct(s + [c])
  {
  }
}
