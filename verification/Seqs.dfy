/** What several modules need to know about sequences. */
module Seqs {
  import opened Basics

  lemma Assoc<T>(a: seq<T>, b: seq<T>, c: seq<T>)
    ensures (a + b) + c == a + (b + c)
  {}

  /** Two adjacent stretches make up the whole one. */
  lemma Extend<T>(s: seq<T>, a: nat, b: nat, c: nat)
    requires a <= b <= c <= |s|
    ensures s[a..b] + s[b..c] == s[a..c]
  {}

  lemma SplitAt<T>(a: seq<T>, x: T, b: seq<T>)
    ensures var s := a + [x] + b; s[..|a|] == a && s[|a|] == x && s[|a| + 1..] == b
  {}

  /** std::string::find for a single character or byte. */
  function Find<T(==)>(s: seq<T>, x: T): (r: Option<nat>)
    ensures r.None? <==> x !in s
    ensures r.Some? ==> r.value < |s| && s[r.value] == x && x !in s[..r.value]
  {
    if s == [] then None
    else if s[0] == x then Some(0)
    else
      var r := Find(s[1..], x);
      if r.Some? then assert s[..r.value + 1] == [s[0]] + s[1..][..r.value]; Some(r.value + 1) else None
  }

  /** The first occurrence is found. */
  lemma {:induction false} FindAfter<T>(a: seq<T>, x: T, rest: seq<T>)
    requires x !in a
    ensures Find(a + [x] + rest, x) == Some(|a|)
  {
    var s := a + [x] + rest;
    if a == [] {
      assert s[0] == x;
    } else {
      FindAfter(a[1..], x, rest);
      assert s[0] == a[0] && s[1..] == a[1..] + [x] + rest;
    }
  }
}
