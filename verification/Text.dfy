/** Text helpers of the configuration loaders: trimming, searching, case folding. */
module Text {
  /** std::isspace in the C locale. */
  predicate IsSpace(c: char) {
    c == ' ' || c == '\t' || c == '\n' || c == 11 as char || c == 12 as char || c == '\r'
  }

  /** Those are the blank and the control characters 9 to 13. */
  lemma SpaceCodes(c: char)
    ensures IsSpace(c) <==> c as int == 32 || 9 <= c as int <= 13
  {}

  predicate AllSpace(s: string) {
    forall i :: 0 <= i < |s| ==> IsSpace(s[i])
  }

  predicate Trimmed(s: string) {
    s == "" || (!IsSpace(s[0]) && !IsSpace(s[|s| - 1]))
  }

  function TrimLeft(s: string): (r: string)
    ensures |r| <= |s|
  {
    if s != "" && IsSpace(s[0]) then TrimLeft(s[1..]) else s
  }

  function TrimRight(s: string): (r: string)
    ensures |r| <= |s|
  {
    if s != "" && IsSpace(s[|s| - 1]) then TrimRight(s[..|s| - 1]) else s
  }

  function Trim(s: string): (r: string)
    ensures |r| <= |s|
  {
    TrimRight(TrimLeft(s))
  }

  lemma {:induction false} TrimLeftSkips(a: string, t: string)
    requires AllSpace(a) && (t == "" || !IsSpace(t[0]))
    ensures TrimLeft(a + t) == t
  {
    if a == "" {
      assert a + t == t;
    } else {
      TrimLeftSkips(a[1..], t);
      assert (a + t)[0] == a[0] && (a + t)[1..] == a[1..] + t;
    }
  }

  lemma LastOfTwo(t: string, b: string)
    requires b != ""
    ensures t + b != "" && (t + b)[|t + b| - 1] == b[|b| - 1] && (t + b)[..|t + b| - 1] == t + b[..|b| - 1]
  {}

  lemma {:induction false} TrimRightSkips(t: string, b: string)
    requires AllSpace(b) && (t == "" || !IsSpace(t[|t| - 1]))
    ensures TrimRight(t + b) == t
  {
    if b == "" {
      assert t + b == t;
    } else {
      TrimRightSkips(t, b[..|b| - 1]);
      LastOfTwo(t, b);
    }
  }

  /** Trimming removes any surrounding whitespace and nothing else. */
  lemma TrimInverts(a: string, t: string, b: string)
    requires AllSpace(a) && Trimmed(t) && AllSpace(b)
    ensures Trim(a + t + b) == t
  {
    if t == "" {
      assert a + t + b == (a + b) + "";
      TrimLeftSkips(a + b, "");
    } else {
      assert a + t + b == a + (t + b);
      TrimLeftSkips(a, t + b);
      TrimRightSkips(t, b);
    }
  }

  lemma TrimDropsRight(t: string, b: string)
    requires Trimmed(t) && AllSpace(b)
    ensures Trim(t + b) == t
  {
    TrimInverts("", t, b);
    assert "" + t + b == t + b;
  }

  lemma TrimDropsLeft(a: string, t: string)
    requires AllSpace(a) && Trimmed(t)
    ensures Trim(a + t) == t
  {
    TrimInverts(a, t, "");
    assert a + t + "" == a + t;
  }

  lemma {:induction false} TrimLeftSplits(s: string) returns (a: string)
    ensures AllSpace(a) && s == a + TrimLeft(s)
    ensures TrimLeft(s) == "" || !IsSpace(TrimLeft(s)[0])
  {
    a := "";
    if s != "" && IsSpace(s[0]) {
      var rest := TrimLeftSplits(s[1..]);
      a := [s[0]] + rest;
    }
  }

  lemma {:induction false} TrimRightSplits(s: string) returns (b: string)
    ensures AllSpace(b) && s == TrimRight(s) + b
    ensures TrimRight(s) == "" || !IsSpace(TrimRight(s)[|TrimRight(s)| - 1])
  {
    b := "";
    if s != "" && IsSpace(s[|s| - 1]) {
      var rest := TrimRightSplits(s[..|s| - 1]);
      b := rest + [s[|s| - 1]];
    }
  }

  lemma {:induction false} TrimRightKeeps(s: string)
    requires s != "" && !IsSpace(s[0])
    ensures TrimRight(s) != "" && TrimRight(s)[0] == s[0]
    decreases |s|
  {
    if IsSpace(s[|s| - 1]) {
      TrimRightKeeps(s[..|s| - 1]);
    }
  }

  /** Every text is whitespace, its trimmed form, and whitespace. */
  lemma TrimSplits(s: string) returns (a: string, b: string)
    ensures AllSpace(a) && AllSpace(b) && Trimmed(Trim(s)) && s == a + Trim(s) + b
  {
    a := TrimLeftSplits(s);
    b := TrimRightSplits(TrimLeft(s));
    if Trim(s) != "" {
      assert TrimLeft(s)[0] == Trim(s)[0];
    }
  }

  /** std::tolower of a letter in the C locale. */
  function LowerChar(c: char): char {
    if 'A' <= c <= 'Z' then (c as int + 32) as char else c
  }

  function Lower(s: string): (r: string)
    ensures |r| == |s| && forall i :: 0 <= i < |s| ==> r[i] == LowerChar(s[i])
  {
    if s == "" then "" else [LowerChar(s[0])] + Lower(s[1..])
  }

  /** The same letter, or its capital, 32 places before it; anything but a letter is itself only. */
  predicate SameLetter(lower: char, c: char) {
    c == lower || ('a' <= lower <= 'z' && c as int + 32 == lower as int)
  }

  /** A text spells a lower-case word in any mixture of capitals and small letters. */
  predicate Spells(text: string, word: string) {
    |text| == |word| && forall i :: 0 <= i < |word| ==> SameLetter(word[i], text[i])
  }

  /** Folding finds exactly the words a text spells. */
  lemma LowerSpells(text: string, word: string)
    requires forall i :: 0 <= i < |word| ==> !('A' <= word[i] <= 'Z')
    ensures Lower(text) == word <==> Spells(text, word)
  {
    if Spells(text, word) {
      forall i | 0 <= i < |word|
        ensures Lower(text)[i] == word[i]
      {
        assert SameLetter(word[i], text[i]);
      }
    }
  }
}
