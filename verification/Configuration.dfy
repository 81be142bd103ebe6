/**
 The two configuration backends: KeyValueConfiguration keeps a map in memory,
 DatabaseConfiguration a table in a store. They read the same files and answer
 the same queries.
*/
module Configuration {
  import opened Basics
  import opened Seqs
  import opened Text
  import opened Integers
  import opened ConfigText
  import opened PersistentStore

  datatype LoadResult = Loaded | CannotOpen | Invalid(line: nat, error: LineError) | WriteFailed

  /** What the text of a file, or its absence, makes of a load, writes aside. */
  function Verdict(file: Option<string>): LoadResult {
    if file.None? then CannotOpen
    else match Parse(file.value, 0) case Accepted(_) => Loaded case Rejected(line, e) => Invalid(line, e)
  }

  /** The settings of an accepted file, in order. */
  function Settings(file: Option<string>): seq<Pair>
    requires Verdict(file).Loaded?
  {
    Parse(file.value, 0).pairs
  }

  /**
   Every file is lines of the four forms of ConfigText. It is refused for the
   first that is a mistake, by its number and kind, and loaded if none is.
  */
  lemma VerdictMeaning(ws: seq<Written>, lastNewline: bool, i: nat)
    requires forall j :: 0 <= j < |ws| ==> Proper(ws[j])
    requires i <= |ws| && (i < |ws| ==> Faulty(ws[i])) && forall j :: 0 <= j < i ==> !Faulty(ws[j])
    ensures Verdict(None) == CannotOpen
    ensures var file := Some(RenderAll(ws, lastNewline));
            if i == |ws| then Verdict(file) == Loaded && Settings(file) == PairsOf(ws)
            else Verdict(file) == Invalid(i + 1, if ws[i].NoKey? then EmptyKey else ExpectedKeyValue)
  {
    if i == |ws| {
      RenderedParses(ws, lastNewline, 0);
    } else {
      MistakeIsFound(ws, lastNewline, 0, i);
    }
  }

  // ----- What the getters answer -----

  function StringIn(t: Table, key: string, defaultValue: string): string {
    if key in t then t[key] else defaultValue
  }

  function IntIn(t: Table, key: string, defaultValue: int): int {
    if key in t && WholeInt(t[key]).Some? then WholeInt(t[key]).value else defaultValue
  }

  /** The four words for each truth value, in any case and with any surrounding whitespace. */
  function BoolOf(text: string): Option<bool> {
    var word := Lower(Trim(text));
    if word in {"true", "1", "yes", "on"} then Some(true)
    else if word in {"false", "0", "no", "off"} then Some(false)
    else None
  }

  function BoolIn(t: Table, key: string, defaultValue: bool): bool {
    if key in t && BoolOf(t[key]).Some? then BoolOf(t[key]).value else defaultValue
  }

  function BoolText(value: bool): string {
    if value then "true" else "false"
  }

  /** What setInt writes getInt reads, for every int and whatever else is stored. */
  lemma SetIntThenGet(t: Table, key: string, n: int, defaultValue: int)
    requires INT_MIN <= n <= INT_MAX
    ensures IntIn(t[key := ToString(n)], key, defaultValue) == n
  {
    IntRoundTrip(n);
  }

  lemma {:induction false} LowerKeeps(s: string)
    requires forall i :: 0 <= i < |s| ==> 'a' <= s[i] <= 'z'
    ensures Lower(s) == s
  {
    if s != "" {
      LowerKeeps(s[1..]);
    }
  }

  lemma WordIsKept(s: string)
    requires forall i :: 0 <= i < |s| ==> 'a' <= s[i] <= 'z'
    ensures Lower(Trim(s)) == s
  {
    TrimInverts("", s, "");
    assert "" + s + "" == s;
    LowerKeeps(s);
  }

  lemma BoolTextIsRead(b: bool)
    ensures BoolOf(BoolText(b)) == Some(b)
  {
    if b {
      WordIsKept("true");
    } else {
      WordIsKept("false");
      assert "false"[0] != "true"[0] && "false"[0] != "yes"[0] && "false"[0] != "on"[0] && "false"[0] != "1"[0];
    }
  }

  /** What setBool writes getBool reads. */
  lemma SetBoolThenGet(t: Table, key: string, b: bool, defaultValue: bool)
    ensures BoolIn(t[key := BoolText(b)], key, defaultValue) == b
  {
    BoolTextIsRead(b);
    assert t[key := BoolText(b)][key] == BoolText(b);
  }

  /** Case and surrounding whitespace never matter to getBool. */
  lemma BoolIgnoresDecoration(before: string, word: string, after: string, other: string)
    requires AllSpace(before) && AllSpace(after) && Trimmed(word) && Trimmed(other) && Lower(word) == Lower(other)
    ensures BoolOf(before + word + after) == BoolOf(other)
  {
    TrimInverts(before, word, after);
    TrimInverts("", other, "");
    assert "" + other + "" == other;
  }

  predicate TrueWord(word: string) {
    Spells(word, "true") || Spells(word, "1") || Spells(word, "yes") || Spells(word, "on")
  }

  predicate FalseWord(word: string) {
    Spells(word, "false") || Spells(word, "0") || Spells(word, "no") || Spells(word, "off")
  }

  /** Whitespace, one of the words for this truth value in any mixture of capitals, and whitespace. */
  ghost predicate MeansBool(text: string, b: bool) {
    exists before, word, after ::
      && text == before + word + after && AllSpace(before) && AllSpace(after)
      && (if b then TrueWord(word) else FalseWord(word))
  }

  lemma WordsFold(word: string)
    ensures Lower(word) in {"true", "1", "yes", "on"} <==> TrueWord(word)
    ensures Lower(word) in {"false", "0", "no", "off"} <==> FalseWord(word)
  {
    LowerSpells(word, "true");
    LowerSpells(word, "1");
    LowerSpells(word, "yes");
    LowerSpells(word, "on");
    LowerSpells(word, "false");
    LowerSpells(word, "0");
    LowerSpells(word, "no");
    LowerSpells(word, "off");
  }

  lemma SpelledIsTrimmed(word: string, lower: string)
    requires lower != "" && !IsSpace(lower[0]) && !IsSpace(lower[|lower| - 1])
    ensures Spells(word, lower) ==> Trimmed(word)
  {
    assert Spells(word, lower) ==>
        SameLetter(lower[0], word[0]) && SameLetter(lower[|lower| - 1], word[|lower| - 1]);
  }

  lemma WordsAreTrimmed(word: string)
    ensures TrueWord(word) || FalseWord(word) ==> Trimmed(word)
  {
    SpelledIsTrimmed(word, "true");
    SpelledIsTrimmed(word, "1");
    SpelledIsTrimmed(word, "yes");
    SpelledIsTrimmed(word, "on");
    SpelledIsTrimmed(word, "false");
    SpelledIsTrimmed(word, "0");
    SpelledIsTrimmed(word, "no");
    SpelledIsTrimmed(word, "off");
  }

  lemma NoWordIsBoth(word: string)
    requires word in {"false", "0", "no", "off"}
    ensures word !in {"true", "1", "yes", "on"}
  {
    assert word[0] == 'f' || word[0] == '0' || word[0] == 'n' || (|word| == 3 && word[0] == 'o');
  }

  /** getBool reads exactly the texts that spell one of the eight words, each as its truth value. */
  lemma BoolOfMeans(text: string, b: bool)
    ensures BoolOf(text) == Some(b) <==> MeansBool(text, b)
  {
    if BoolOf(text) == Some(b) {
      var before, after := TrimSplits(text);
      WordsFold(Trim(text));
    }
    forall before, word, after | text == before + word + after && AllSpace(before) && AllSpace(after)
        && (if b then TrueWord(word) else FalseWord(word))
      ensures BoolOf(text) == Some(b)
    {
      WordsAreTrimmed(word);
      TrimInverts(before, word, after);
      WordsFold(word);
      if !b {
        NoWordIsBoth(Lower(word));
      }
    }
  }

  /** The text is read as this number. */
  ghost predicate MeansInt(text: string, n: int) {
    INT_MIN <= n <= INT_MAX && exists space, sign, zeros :: Spelled(text, space, sign, zeros, n)
  }

  /**
   What all getters answer: the stored text, or what it means; the default
   exactly for a missing key and for a text that means nothing.
  */
  lemma GettersAnswer(t: Table, key: string, s: string, n: int, b: bool)
    ensures key in t ==> StringIn(t, key, s) == t[key]
    ensures key !in t ==> StringIn(t, key, s) == s && IntIn(t, key, n) == n && BoolIn(t, key, b) == b
    ensures key in t ==> forall v :: MeansInt(t[key], v) ==> IntIn(t, key, n) == v
    ensures key in t && (forall v :: !MeansInt(t[key], v)) ==> IntIn(t, key, n) == n
    ensures key in t ==> forall v :: MeansBool(t[key], v) ==> BoolIn(t, key, b) == v
    ensures key in t && !MeansBool(t[key], true) && !MeansBool(t[key], false) ==> BoolIn(t, key, b) == b
  {
    if key in t {
      forall v
        ensures WholeInt(t[key]) == Some(v) <==> MeansInt(t[key], v)
      {
        WholeIntSpelled(t[key], v);
      }
      BoolOfMeans(t[key], true);
      BoolOfMeans(t[key], false);
      assert WholeInt(t[key]).Some? ==> MeansInt(t[key], WholeInt(t[key]).value);
    }
  }

  /** What setInt and setBool store. */
  lemma StoredTexts(n: int, b: bool)
    ensures Spelled(ToString(n), "", if n < 0 then "-" else "", "", n)
    ensures BoolText(b) == (if b then "true" else "false") && MeansBool(BoolText(b), b)
  {
    ToStringSpelled(n);
    BoolTextIsRead(b);
    BoolOfMeans(BoolText(b), b);
  }

  // ----- One loop step against the parser -----

  /** A line that adds nothing, or adds one pair, moves the reading point past it. */
  lemma ReadsOn(text: string, pairs: seq<Pair>, rest: string, n: nat, more: seq<Pair>)
    requires Parse(text, 0) == Prepend(pairs, Parse(rest, n)) && rest != ""
    requires ParseLine(FirstLine(rest)).Skip? ==> more == []
    requires ParseLine(FirstLine(rest)).Entry? ==>
              more == [(ParseLine(FirstLine(rest)).key, ParseLine(FirstLine(rest)).value)]
    requires !ParseLine(FirstLine(rest)).Bad?
    ensures Parse(text, 0) == Prepend(pairs + more, Parse(AfterLine(rest), n + 1))
  {
    PrependTwice(pairs, more, Parse(AfterLine(rest), n + 1));
  }

  lemma PrependTwice(a: seq<Pair>, b: seq<Pair>, o: Outcome)
    ensures Prepend(a, Prepend(b, o)) == Prepend(a + b, o)
    ensures Prepend([], o) == o
  {
    if o.Accepted? {
      assert a + (b + o.pairs) == (a + b) + o.pairs && [] + o.pairs == o.pairs;
    }
  }

  class KeyValueConfiguration {
    var values: Table

    constructor ()
      ensures values == map[]
    {
      values := map[];
    }

    /** Success replaces everything by exactly the settings of the file; failure keeps what there was. */
    method LoadFromFile(file: Option<string>) returns (r: LoadResult)
      modifies this
      ensures r == Verdict(file)
      ensures values == if r.Loaded? then PutPairs(map[], Settings(file)) else old(values)
    {
      if file.None? {
        return CannotOpen;
      }
      var parsedValues: Table := map[];
      var rest := file.value;
      var lineNumber := 0;
      ghost var pairs: seq<Pair> := [];
      while rest != ""
        invariant Parse(file.value, 0) == Prepend(pairs, Parse(rest, lineNumber))
        invariant parsedValues == PutPairs(map[], pairs) && values == old(values)
        decreases |rest|
      {
        ghost var here, number := rest, lineNumber;
        var line := FirstLine(rest);
        rest := AfterLine(rest);
        lineNumber := lineNumber + 1;
        line := Trim(StripComment(line));
        if line == "" {
          ReadsOn(file.value, pairs, here, number, []);
          assert pairs + [] == pairs;
          continue;
        }
        var separator := Find(line, '=');
        if separator.None? {
          return Invalid(lineNumber, ExpectedKeyValue);
        }
        var key := Trim(line[..separator.value]);
        var value := Trim(line[separator.value + 1..]);
        if key == "" {
          return Invalid(lineNumber, EmptyKey);
        }
        ReadsOn(file.value, pairs, here, number, [(key, value)]);
        assert (pairs + [(key, value)])[..|pairs|] == pairs;
        pairs := pairs + [(key, value)];
        parsedValues := parsedValues[key := value];
      }
      assert Parse("", lineNumber) == Accepted([]) && pairs + [] == pairs;
      values := parsedValues;
      return Loaded;
    }

    method Has(key: string) returns (r: bool)
      ensures r <==> key in values
    {
      r := key in values;
    }

    method GetString(key: string, defaultValue: string) returns (r: string)
      ensures r == StringIn(values, key, defaultValue)
    {
      if key !in values {
        return defaultValue;
      }
      return values[key];
    }

    method GetInt(key: string, defaultValue: int) returns (r: int)
      ensures r == IntIn(values, key, defaultValue)
    {
      if key !in values {
        return defaultValue;
      }
      r := ReadInt(values[key], defaultValue);
    }

    method GetBool(key: string, defaultValue: bool) returns (r: bool)
      ensures r == BoolIn(values, key, defaultValue)
    {
      if key !in values {
        return defaultValue;
      }
      r := ReadBool(values[key], defaultValue);
    }
  }

  /** stoi with its exceptions caught, accepted only if it used up the text. */
  method ReadInt(text: string, defaultValue: int) returns (r: int)
    ensures forall v :: WholeInt(text) == Some(v) ==> r == v
    ensures WholeInt(text) == None ==> r == defaultValue
  {
    var parsed := Stoi(text);
    match parsed
    case InvalidArgument => return defaultValue;
    case OutOfRange => return defaultValue;
    case Parsed(value, count) => return if count == |text| then value else defaultValue;
  }

  method ReadBool(text: string, defaultValue: bool) returns (r: bool)
    ensures r == if BoolOf(text).Some? then BoolOf(text).value else defaultValue
  {
    var value := Lower(Trim(text));
    if value == "true" || value == "1" || value == "yes" || value == "on" {
      return true;
    }
    if value == "false" || value == "0" || value == "no" || value == "off" {
      return false;
    }
    return defaultValue;
  }

  class DatabaseConfiguration {
    const store: PersistentStore

    constructor (store: PersistentStore)
      ensures this.store == store
    {
      this.store := store;
    }

    /**
     Bad files are reported exactly as by the other backend and leave the store
     alone. An accepted file overlays the store with its settings in one
     transaction, or, if that fails, not at all; then no transaction stays open
     but one that its ROLLBACK could not end.
    */
    method LoadFromFile(file: Option<string>) returns (r: LoadResult)
      modifies store.db
      ensures !Verdict(file).Loaded? ==> r == Verdict(file) && unchanged(store.db)
      ensures Verdict(file).Loaded? ==> r.Loaded? || r.WriteFailed?
      ensures store.db.committed == if r.Loaded? then old(store.db.committed) + PutPairs(map[], Settings(file))
                else old(store.db.committed)
      ensures Verdict(file).Loaded? ==>
                var failure := FirstFailure(old(store.db.plan), |Settings(file)| + 2);
                && (r.Loaded? <==> old(store.db.open) && old(store.db.tx) == None && failure.None?)
                && (r.Loaded? ==> store.db.tx == None)
                && (old(store.db.tx) == None ==>
                      (store.db.tx.Some? <==> old(store.db.open) && LeftOpen(old(store.db.plan), failure)))
    {
      if file.None? {
        return CannotOpen;
      }
      var read := ReadSettings(file.value);
      if read.Rejected? {
        return Invalid(read.line, read.error);
      }
      r := Overlay(read.pairs);
    }

    /** The reading loop: the settings in order, or the first bad line. */
    method ReadSettings(text: string) returns (o: Outcome)
      ensures o == Parse(text, 0)
    {
      var values: seq<Pair> := [];
      var rest := text;
      var lineNumber := 0;
      while rest != ""
        invariant Parse(text, 0) == Prepend(values, Parse(rest, lineNumber))
        decreases |rest|
      {
        ghost var here, number := rest, lineNumber;
        var line := FirstLine(rest);
        rest := AfterLine(rest);
        lineNumber := lineNumber + 1;
        line := Trim(StripComment(line));
        if line == "" {
          ReadsOn(text, values, here, number, []);
          assert values + [] == values;
          continue;
        }
        var separator := Find(line, '=');
        if separator.None? {
          return Rejected(lineNumber, ExpectedKeyValue);
        }
        var key := Trim(line[..separator.value]);
        var value := Trim(line[separator.value + 1..]);
        if key == "" {
          return Rejected(lineNumber, EmptyKey);
        }
        ReadsOn(text, values, here, number, [(key, value)]);
        values := values + [(key, value)];
      }
      assert Parse("", lineNumber) == Accepted([]) && values + [] == values;
      return Accepted(values);
    }

    /** The settings read are written over the store. */
    method Overlay(values: seq<Pair>) returns (r: LoadResult)
      modifies store.db
      ensures r.Loaded? || r.WriteFailed?
      ensures store.db.committed == if r.Loaded? then old(store.db.committed) + PutPairs(map[], values)
                else old(store.db.committed)
      ensures var failure := FirstFailure(old(store.db.plan), |values| + 2);
              && (r.Loaded? <==> old(store.db.open) && old(store.db.tx) == None && failure.None?)
              && (r.Loaded? ==> store.db.tx == None)
              && (old(store.db.tx) == None ==>
                    (store.db.tx.Some? <==> old(store.db.open) && LeftOpen(old(store.db.plan), failure)))
    {
      PutPairsOverlay(store.db.committed, values);
      var ok := store.PutAll(values);
      return if ok then Loaded else WriteFailed;
    }

    method SetInt(key: string, value: int) returns (ok: bool)
      modifies store.db
      ensures ok <==> old(store.db.Next()).Works?
      ensures ok ==> store.db.View() == old(store.db.View())[key := ToString(value)]
      ensures !ok ==> store.db.committed == old(store.db.committed)
    {
      ok := store.Put(key, ToString(value));
    }

    method SetBool(key: string, value: bool) returns (ok: bool)
      modifies store.db
      ensures ok <==> old(store.db.Next()).Works?
      ensures ok ==> store.db.View() == old(store.db.View())[key := BoolText(value)]
      ensures !ok ==> store.db.committed == old(store.db.committed)
    {
      ok := store.Put(key, if value then "true" else "false");
    }

    /** The getters; A failing query reads like a missing key. */
    method GetString(key: string, defaultValue: string, query: Query) returns (r: string)
      ensures r == if query.Runs? && store.db.open then StringIn(store.db.View(), key, defaultValue) else defaultValue
    {
      var result := store.Get(key, query);
      return if result.Some? then result.value else defaultValue;
    }

    method GetInt(key: string, defaultValue: int, query: Query) returns (r: int)
      ensures r == if query.Runs? && store.db.open then IntIn(store.db.View(), key, defaultValue) else defaultValue
    {
      var result := store.Get(key, query);
      if result.None? {
        return defaultValue;
      }
      r := ReadInt(result.value, defaultValue);
    }

    method GetBool(key: string, defaultValue: bool, query: Query) returns (r: bool)
      ensures r == if query.Runs? && store.db.open then BoolIn(store.db.View(), key, defaultValue) else defaultValue
    {
      var result := store.Get(key, query);
      if result.None? {
        return defaultValue;
      }
      r := ReadBool(result.value, defaultValue);
    }
  }

  // ----- The two backends together -----

  /**
   Loading one file into both backends, the store starting out empty and its
   writes not failing: the same verdict, the same first bad line, and after a
   success the same contents, so that every getter gives the same answer.
  */
  method LoadBoth(memory: KeyValueConfiguration, database: DatabaseConfiguration, file: Option<string>)
    returns (a: LoadResult, b: LoadResult)
    requires database.store.db.open && database.store.db.tx == None && AllWork(database.store.db.plan)
    requires database.store.db.committed == map[]
    modifies memory, database.store.db
    ensures a == b == Verdict(file)
    ensures a.Loaded? ==> memory.values == PutPairs(map[], Settings(file))
    ensures a.Loaded? ==> database.store.db.committed == database.store.db.View() == memory.values
    ensures !a.Loaded? ==> memory.values == old(memory.values) && database.store.db.committed == map[]
  {
    a := memory.LoadFromFile(file);
    b := database.LoadFromFile(file);
    if b.Loaded? {
      assert map[] + PutPairs(map[], Settings(file)) == PutPairs(map[], Settings(file));
    }
  }

  /**
   Any way of writing a map down, with any decoration, loads back to exactly
   that map.
  */
  lemma WrittenMapLoads(m: Table, ws: seq<Written>, lastNewline: bool)
    requires forall i :: 0 <= i < |ws| ==> Proper(ws[i]) && !Faulty(ws[i])
    requires forall k, v :: k in m && m[k] == v <==> (k, v) in PairsOf(ws)
    ensures var file := Some(RenderAll(ws, lastNewline));
            Verdict(file) == Loaded && PutPairs(map[], Settings(file)) == m
  {
    RenderedParses(ws, lastNewline, 0);
    PutPairsOfMap(m, PairsOf(ws));
  }

  lemma PutPairsOfMap(m: Table, pairs: seq<Pair>)
    requires forall k, v :: k in m && m[k] == v <==> (k, v) in pairs
    ensures PutPairs(map[], pairs) == m
  {
    forall k
      ensures k in PutPairs(map[], pairs) <==> k in m
      ensures k in m ==> PutPairs(map[], pairs)[k] == m[k]
    {
      if k in m {
        var i := LastIndex(pairs, k, m[k]);
        LastPairWins(map[], pairs, i);
        assert (pairs[i].0, pairs[i].1) in pairs;
      } else {
        forall i | 0 <= i < |pairs|
          ensures pairs[i].0 != k
        {
          assert (pairs[i].0, pairs[i].1) in pairs;
        }
        OtherKeysKept(map[], pairs, k);
      }
    }
  }

  lemma {:induction false} LastIndex(pairs: seq<Pair>, k: string, v: string) returns (i: nat)
    requires (k, v) in pairs
    ensures i < |pairs| && pairs[i].0 == k && forall j :: i < j < |pairs| ==> pairs[j].0 != k
    decreases |pairs|
  {
    var n := |pairs| - 1;
    if pairs[n].0 == k {
      i := n;
    } else {
      i := LastIndex(pairs[..n], k, v);
    }
  }

  /** Every map of proper keys and values can be written down. */
  lemma {:induction false} EveryMapCanBeWritten(m: Table) returns (ws: seq<Written>)
    requires forall k :: k in m ==> ProperKey(k) && ProperValue(m[k])
    ensures forall i :: 0 <= i < |ws| ==> Proper(ws[i]) && !Faulty(ws[i])
    ensures forall k, v :: k in m && m[k] == v <==> (k, v) in PairsOf(ws)
    decreases |m|
  {
    if m == map[] {
      ws := [];
    } else {
      var k :| k in m;
      var rest := EveryMapCanBeWritten(m - {k});
      ws := [Setting("", k, "", "", m[k], "", "")] + rest;
      assert PairsOf(ws) == [(k, m[k])] + PairsOf(rest) by {
        assert ws[1..] == rest;
      }
    }
  }
}
