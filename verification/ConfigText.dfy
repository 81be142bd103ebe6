/**
 The line format both configuration loaders read: '#' starts a comment, blank
 lines are skipped, every other line is key=value with whitespace trimmed.
 Line numbers count from 1.
*/
module ConfigText {
  import opened Basics
  import opened Seqs
  import opened Text

  type Pair = (string, string)

  datatype LineError = ExpectedKeyValue | EmptyKey

  datatype Line = Skip | Entry(key: string, value: string) | Bad(error: LineError)

  datatype Outcome = Accepted(pairs: seq<Pair>) | Rejected(line: nat, error: LineError)

  function StripComment(line: string): string {
    var commentPosition := Find(line, '#');
    if commentPosition.Some? then line[..commentPosition.value] else line
  }

  /** One turn of the loaders' loops. */
  function ParseLine(raw: string): Line {
    var line := Trim(StripComment(raw));
    if line == "" then Skip
    else
      var separator := Find(line, '=');
      if separator.None? then Bad(ExpectedKeyValue)
      else
        var key := Trim(line[..separator.value]);
        var value := Trim(line[separator.value + 1..]);
        if key == "" then Bad(EmptyKey) else Entry(key, value)
  }

  /** std::getline on a nonempty rest: the text up to the next newline or the end. */
  function FirstLine(text: string): string {
    var end := Find(text, '\n');
    if end.Some? then text[..end.value] else text
  }

  function AfterLine(text: string): (rest: string)
    requires text != ""
    ensures |rest| < |text|
  {
    var end := Find(text, '\n');
    if end.Some? then text[end.value + 1..] else ""
  }

  function Prepend(pairs: seq<Pair>, o: Outcome): Outcome {
    if o.Accepted? then Accepted(pairs + o.pairs) else o
  }

  /** What the lines of a text, the first of them numbered n + 1, amount to: all pairs, or the first bad line. */
  function Parse(text: string, n: nat): Outcome
    decreases |text|
  {
    if text == "" then Accepted([])
    else
      match ParseLine(FirstLine(text))
      case Skip => Parse(AfterLine(text), n + 1)
      case Entry(k, v) => Prepend([(k, v)], Parse(AfterLine(text), n + 1))
      case Bad(e) => Rejected(n + 1, e)
  }

  /** The lines std::getline delivers; a final newline does not start another one. */
  function Lines(text: string): seq<string>
    decreases |text|
  {
    if text == "" then [] else [FirstLine(text)] + Lines(AfterLine(text))
  }

  function Terminated(lines: seq<string>): string {
    if lines == [] then "" else lines[0] + ['\n'] + Terminated(lines[1..])
  }

  lemma FirstLineEnds(text: string)
    requires text != ""
    ensures '\n' !in FirstLine(text)
    ensures text == FirstLine(text) + ['\n'] + AfterLine(text) || (text == FirstLine(text) && AfterLine(text) == "")
  {}

  lemma TerminatedFirst(lines: seq<string>)
    requires lines != []
    ensures Terminated(lines) == lines[0] + ['\n'] + Terminated(lines[1..])
  {}

  lemma TerminatedCons(first: string, rest: string, more: string, text: string)
    requires text == first + ['\n'] + rest && (more == rest || more == rest + ['\n'])
    ensures first + ['\n'] + more == text || first + ['\n'] + more == text + ['\n']
  {}

  /**
   The lines have no newline in them, and with a newline after each they are
   the text again, but for one the text may lack at its end.
  */
  lemma {:induction false} LinesMakeText(text: string)
    ensures forall i :: 0 <= i < |Lines(text)| ==> '\n' !in Lines(text)[i]
    ensures Terminated(Lines(text)) == text || Terminated(Lines(text)) == text + ['\n']
    decreases |text|
  {
    if text != "" {
      var rest := AfterLine(text);
      LinesCons(text);
      LinesMakeText(rest);
      FirstLineEnds(text);
      TerminatedFirst(Lines(text));
      if text == FirstLine(text) + ['\n'] + rest {
        TerminatedCons(FirstLine(text), rest, Terminated(Lines(rest)), text);
      } else {
        assert Terminated(Lines(rest)) == "" && text + ['\n'] + "" == text + ['\n'];
      }
    }
  }

  /** The settings on a list of lines, in order. */
  function SettingsOn(lines: seq<string>): seq<Pair> {
    if lines == [] then []
    else
      var l := ParseLine(lines[0]);
      (if l.Entry? then [(l.key, l.value)] else []) + SettingsOn(lines[1..])
  }

  lemma LinesCons(text: string)
    requires text != ""
    ensures Lines(text)[0] == FirstLine(text) && Lines(text)[1..] == Lines(AfterLine(text))
  {}

  lemma FirstLineCounts(text: string, n: nat)
    requires text != ""
    ensures var l, rest := ParseLine(FirstLine(text)), Parse(AfterLine(text), n + 1);
            match l
            case Skip => Parse(text, n) == rest
            case Entry(k, v) => Parse(text, n) == Prepend([(k, v)], rest)
            case Bad(e) => Parse(text, n) == Rejected(n + 1, e)
  {}

  /** A list of lines read one by one. */
  function ParseLines(lines: seq<string>, n: nat): Outcome {
    if lines == [] then Accepted([])
    else
      match ParseLine(lines[0])
      case Skip => ParseLines(lines[1..], n + 1)
      case Entry(k, v) => Prepend([(k, v)], ParseLines(lines[1..], n + 1))
      case Bad(e) => Rejected(n + 1, e)
  }

  lemma {:induction false} ParsedByLine(text: string, n: nat)
    ensures Parse(text, n) == ParseLines(Lines(text), n)
    decreases |text|
  {
    if text != "" {
      LinesCons(text);
      FirstLineCounts(text, n);
      ParsedByLine(AfterLine(text), n + 1);
    }
  }

  lemma {:induction false} GoodLines(lines: seq<string>, n: nat)
    requires forall i :: 0 <= i < |lines| ==> !ParseLine(lines[i]).Bad?
    ensures ParseLines(lines, n) == Accepted(SettingsOn(lines))
  {
    if lines != [] {
      GoodLines(lines[1..], n + 1);
    }
  }

  lemma {:induction false} FirstBadLine(lines: seq<string>, n: nat, i: nat)
    requires i < |lines| && ParseLine(lines[i]).Bad? && forall j :: 0 <= j < i ==> !ParseLine(lines[j]).Bad?
    ensures ParseLines(lines, n) == Rejected(n + i + 1, ParseLine(lines[i]).error)
  {
    if i > 0 {
      var more := lines[1..];
      assert more[i - 1] == lines[i];
      assert !ParseLine(lines[0]).Bad?;
      FirstBadLine(more, n + 1, i - 1);
    }
  }

  /** A text without bad lines is accepted, with the settings of its lines in order; */
  lemma AcceptedMeaning(text: string, n: nat)
    requires forall i :: 0 <= i < |Lines(text)| ==> !ParseLine(Lines(text)[i]).Bad?
    ensures Parse(text, n) == Accepted(SettingsOn(Lines(text)))
  {
    ParsedByLine(text, n);
    GoodLines(Lines(text), n);
  }

  /** any other is rejected for its first bad line, with that line's number and fault. */
  lemma RejectedMeaning(text: string, n: nat, i: nat)
    requires i < |Lines(text)| && ParseLine(Lines(text)[i]).Bad?
    requires forall j :: 0 <= j < i ==> !ParseLine(Lines(text)[j]).Bad?
    ensures Parse(text, n) == Rejected(n + i + 1, ParseLine(Lines(text)[i]).error)
  {
    ParsedByLine(text, n);
    FirstBadLine(Lines(text), n, i);
  }

  // ----- Rendering -----

  /** A line as someone may write it; the last two are mistakes. */
  datatype Written =
    | Blank(space: string, comment: string)
    | Setting(before: string, key: string, left: string, right: string, value: string, after: string, comment: string)
    | NoSeparator(before: string, body: string, after: string, comment: string)
    | NoKey(before: string, rest: string, comment: string)

  predicate Comment(s: string) {
    s == "" || (s[0] == '#' && '\n' !in s)
  }

  predicate Space(s: string) {
    AllSpace(s) && '\n' !in s
  }

  predicate ProperKey(k: string) {
    k != "" && Trimmed(k) && '#' !in k && '=' !in k && '\n' !in k
  }

  predicate ProperValue(v: string) {
    Trimmed(v) && '#' !in v && '\n' !in v
  }

  predicate Proper(w: Written) {
    match w
    case Blank(space, comment) => Space(space) && Comment(comment)
    case Setting(before, key, left, right, value, after, comment) =>
      Space(before) && ProperKey(key) && Space(left) && Space(right) && ProperValue(value) && Space(after)
          && Comment(comment)
    case NoSeparator(before, body, after, comment) =>
      Space(before) && ProperKey(body) && Space(after) && Comment(comment)
    case NoKey(before, rest, comment) => Space(before) && '#' !in rest && '\n' !in rest && Comment(comment)
  }

  predicate Faulty(w: Written) {
    w.NoSeparator? || w.NoKey?
  }

  /** The fault of a line that is a mistake. */
  function Fault(w: Written): LineError {
    if w.NoKey? then EmptyKey else ExpectedKeyValue
  }

  /** What such a line says. */
  function Meaning(w: Written): Line {
    match w
    case Blank(_, _) => Skip
    case Setting(_, key, _, _, value, _, _) => Entry(key, value)
    case NoSeparator(_, _, _, _) => Bad(ExpectedKeyValue)
    case NoKey(_, _, _) => Bad(EmptyKey)
  }

  function Render(w: Written): string {
    match w
    case Blank(space, comment) => space + comment
    case Setting(before, key, left, right, value, after, comment) =>
      before + (key + (left + ("=" + (right + (value + (after + comment))))))
    case NoSeparator(before, body, after, comment) => before + body + after + comment
    case NoKey(before, rest, comment) => before + (['='] + rest) + comment
  }

  function PairsOf(ws: seq<Written>): seq<Pair> {
    if ws == [] then []
    else LinePairs(ws[0]) + PairsOf(ws[1..])
  }

  /** A whole file; the last newline may be missing. */
  function RenderAll(ws: seq<Written>, lastNewline: bool): string {
    if ws == [] then ""
    else if |ws| == 1 && !lastNewline then Render(ws[0])
    else Render(ws[0]) + ['\n'] + RenderAll(ws[1..], lastNewline)
  }

  lemma StripAppended(body: string, comment: string)
    requires '#' !in body && Comment(comment)
    ensures StripComment(body + comment) == body
  {
    if comment != "" {
      assert body + comment == body + ['#'] + comment[1..];
      FindAfter(body, '#', comment[1..]);
    } else {
      assert body + comment == body;
    }
  }

  lemma NotInSpace(s: string, c: char)
    requires AllSpace(s) && !IsSpace(c)
    ensures c !in s
  {}

  /** A line of whitespace and a comment says nothing. */
  lemma BlankIsSkipped(space: string, comment: string)
    requires Space(space) && Comment(comment)
    ensures ParseLine(space + comment) == Skip
  {
    NotInSpace(space, '#');
    StripAppended(space, comment);
    TrimInverts(space, "", "");
    assert space + "" + "" == space;
  }

  /** What is left of a setting once comment and surrounding whitespace are gone. */
  function Core(key: string, left: string, right: string, value: string): string {
    key + left + ['='] + (if value == "" then "" else right + value)
  }

  lemma CoreIsTrimmed(key: string, left: string, right: string, value: string)
    requires ProperKey(key) && ProperValue(value)
    ensures Trimmed(Core(key, left, right, value))
  {
    var core := Core(key, left, right, value);
    assert core[0] == key[0];
    if value != "" {
      assert core[|core| - 1] == value[|value| - 1];
    }
  }

  lemma CoreParses(key: string, left: string, right: string, value: string)
    requires ProperKey(key) && Space(left) && Space(right) && ProperValue(value)
    ensures var core := Core(key, left, right, value);
            && Trimmed(core) && Find(core, '=') == Some(|key + left|)
            && Trim(core[..|key + left|]) == key && Trim(core[|key + left| + 1..]) == value
  {
    var tail := if value == "" then "" else right + value;
    CoreIsTrimmed(key, left, right, value);
    NotInSpace(left, '=');
    FindAfter(key + left, '=', tail);
    SplitAt(key + left, '=', tail);
    TrimDropsRight(key, left);
    if value != "" {
      TrimDropsLeft(right, value);
    }
  }

  lemma Regroup(before: string, key: string, left: string, right: string, value: string, after: string, comment: string)
    ensures before + (key + (left + ("=" + (right + (value + (after + comment))))))
         == (before + Core(key, left, right, value) + (if value == "" then right + after else after)) + comment
  {}

  /** A setting, however decorated, is read as exactly its key and value. */
  lemma SettingIsRead(w: Written)
    requires w.Setting? && Proper(w)
    ensures ParseLine(Render(w)) == Entry(w.key, w.value)
  {
    var Setting(before, key, left, right, value, after, comment) := w;
    var core := Core(key, left, right, value);
    var trail := if value == "" then right + after else after;
    var body := before + core + trail;
    NotInSpace(before, '#');
    NotInSpace(left, '#');
    NotInSpace(right, '#');
    NotInSpace(after, '#');
    Regroup(before, key, left, right, value, after, comment);
    StripAppended(body, comment);
    CoreParses(key, left, right, value);
    TrimInverts(before, core, trail);
  }

  lemma OneLine(w: Written)
    requires Proper(w)
    ensures '\n' !in Render(w)
  {}

  lemma LineSplits(line: string, rest: string)
    requires '\n' !in line
    ensures FirstLine(line + ['\n'] + rest) == line && AfterLine(line + ['\n'] + rest) == rest
  {
    FindAfter(line, '\n', rest);
  }

  /** What one line contributes in front of the rest. */
  function LinePairs(w: Written): seq<Pair> {
    if w.Setting? then [(w.key, w.value)] else []
  }

  /** Whatever surrounds it, text with neither '=' nor '#' is no setting. */
  lemma NoSeparatorIsBad(w: Written)
    requires w.NoSeparator? && Proper(w)
    ensures ParseLine(Render(w)) == Bad(ExpectedKeyValue)
  {
    var body := w.before + w.body + w.after;
    NotInSpace(w.before, '#');
    NotInSpace(w.after, '#');
    StripAppended(body, w.comment);
    TrimInverts(w.before, w.body, w.after);
  }

  /** Nor is anything that starts with '='. */
  lemma NoKeyIsBad(w: Written)
    requires w.NoKey? && Proper(w)
    ensures ParseLine(Render(w)) == Bad(EmptyKey)
  {
    var core := ['='] + w.rest;
    NotInSpace(w.before, '#');
    StripAppended(w.before + core, w.comment);
    TrimLeftSkips(w.before, core);
    TrimRightKeeps(core);
    var line := TrimRight(core);
    assert line[0] == '=' && line[..0] == "" && Trim("") == "";
  }

  /** Decoration does not change what a line says. */
  lemma WrittenIsRead(w: Written)
    requires Proper(w)
    ensures ParseLine(Render(w)) == Meaning(w)
  {
    match w
    case Setting(_, _, _, _, _, _, _) => SettingIsRead(w);
    case Blank(_, _) => BlankIsSkipped(w.space, w.comment);
    case NoSeparator(_, _, _, _) => NoSeparatorIsBad(w);
    case NoKey(_, _, _) => NoKeyIsBad(w);
  }

  lemma CommentSplits(raw: string)
    requires '\n' !in raw
    ensures var body := StripComment(raw);
            body <= raw && '#' !in body && Comment(raw[|body|..]) && body + raw[|body|..] == raw
  {}

  lemma StartsInSpace(space: string, rest: string)
    ensures AllSpace(space) && Trimmed(space + rest) ==> space == ""
  {
    assert space != "" ==> (space + rest)[0] == space[0];
  }

  /** Trimmed text begins with no whitespace. */
  lemma TrimmedStart(line: string, k: string, key: string, left: string, rest: string)
    requires Trimmed(line) && line == k + key + left + rest && AllSpace(k) && AllSpace(left) && k + key + left != ""
    ensures k == "" && key != ""
  {
    assert line == k + (key + (left + rest)) == (k + key + left) + rest;
    StartsInSpace(k, key + (left + rest));
    StartsInSpace(k + key + left, rest);
  }

  lemma NotInParts(a: string, b: string, d: string, c: char)
    requires c !in a + b + d
    ensures c !in a && c !in b && c !in d
  {
    var s := a + b + d;
    assert forall i :: 0 <= i < |a| ==> s[i] == a[i];
    assert forall i :: 0 <= i < |b| ==> s[|a| + i] == b[i];
    assert forall i :: 0 <= i < |d| ==> s[|a| + |b| + i] == d[i];
  }

  lemma PartsAreTrimmed(part: string) returns (a: string, b: string)
    requires '#' !in part && '\n' !in part
    ensures Space(a) && Space(b) && part == a + Trim(part) + b && ProperValue(Trim(part))
    ensures '=' !in part ==> '=' !in Trim(part)
  {
    a, b := TrimSplits(part);
    NotInParts(a, Trim(part), b, '#');
    NotInParts(a, Trim(part), b, '\n');
    if '=' !in part {
      NotInParts(a, Trim(part), b, '=');
    }
  }

  /** The text of a line that has a separator, taken apart. */
  lemma SettingOf(before: string, line: string, after: string, comment: string) returns (w: Written)
    requires Space(before) && Space(after) && Comment(comment)
    requires Trimmed(line) && '#' !in line && '\n' !in line && '=' in line
    ensures Proper(w) && Render(w) == before + line + after + comment
  {
    var p := Find(line, '=').value;
    var l, r := line[..p], line[p + 1..];
    assert line == l + ['='] + r;
    NotInParts(l, ['='], r, '#');
    NotInParts(l, ['='], r, '\n');
    if p == 0 {
      w := NoKey(before, r + after, comment);
      NotInSpace(after, '#');
      KeylessRenders(w, line, r, after);
    } else {
      w := KeyedSetting(before, l, r, after, comment);
    }
  }

  lemma KeyOf(l: string, r: string) returns (left: string)
    requires Trimmed(l + ['='] + r) && l != "" && '=' !in l && '#' !in l && '\n' !in l
    ensures Space(left) && l == Trim(l) + left && ProperKey(Trim(l))
  {
    var k;
    k, left := PartsAreTrimmed(l);
    TrimmedStart(l + ['='] + r, k, Trim(l), left, ['='] + r);
    assert "" + Trim(l) + left == Trim(l) + left;
  }

  lemma KeyedSetting(before: string, l: string, r: string, after: string, comment: string) returns (w: Written)
    requires Space(before) && Space(after) && Comment(comment) && Trimmed(l + ['='] + r)
    requires l != "" && '=' !in l && '#' !in l && '\n' !in l && '#' !in r && '\n' !in r
    ensures Proper(w) && Render(w) == before + (l + ['='] + r) + after + comment
  {
    var left := KeyOf(l, r);
    var right, v := PartsAreTrimmed(r);
    w := Setting(before, Trim(l), left, right, Trim(r), v + after, comment);
    SettingRenders(w, l, r, v, after);
  }

  lemma KeylessRenders(w: Written, line: string, r: string, after: string)
    requires w.NoKey? && w.rest == r + after && line == ['='] + r
    ensures Render(w) == w.before + line + after + w.comment
  {}

  lemma SettingRenders(w: Written, l: string, r: string, v: string, after: string)
    requires w.Setting? && w.after == v + after && l == w.key + w.left && r == w.right + w.value + v
    ensures Render(w) == w.before + (l + ['='] + r) + after + w.comment
  {}

  /** There are no other lines. */
  lemma EveryLineIsWritten(raw: string) returns (w: Written)
    requires '\n' !in raw
    ensures Proper(w) && Render(w) == raw
  {
    var body := StripComment(raw);
    var comment := raw[|body|..];
    CommentSplits(raw);
    var before, after := TrimSplits(body);
    var line := Trim(body);
    if line == "" {
      w := Blank(before + after, comment);
      assert body == before + after;
    } else if '=' in line {
      w := SettingOf(before, line, after, comment);
    } else {
      w := NoSeparator(before, line, after, comment);
    }
  }

  /** The loaders' line parser, said without its steps. */
  lemma ParseLineExact(raw: string, l: Line)
    requires '\n' !in raw
    ensures ParseLine(raw) == l <==> exists w :: Proper(w) && Render(w) == raw && Meaning(w) == l
  {
    var w := EveryLineIsWritten(raw);
    WrittenIsRead(w);
    forall w' | Proper(w') && Render(w') == raw
      ensures Meaning(w') == ParseLine(raw)
    {
      WrittenIsRead(w');
    }
  }

  lemma LineParses(w: Written, rest: string, n: nat)
    requires Proper(w)
    ensures Parse(Render(w) + ['\n'] + rest, n) ==
              if Faulty(w) then Rejected(n + 1, Fault(w)) else Prepend(LinePairs(w), Parse(rest, n + 1))
  {
    var text := Render(w) + ['\n'] + rest;
    OneLine(w);
    LineSplits(Render(w), rest);
    WrittenIsRead(w);
    FirstLineCounts(text, n);
    PrependNothing(Parse(rest, n + 1));
  }

  lemma PrependNothing(o: Outcome)
    ensures Prepend([], o) == o
  {
    if o.Accepted? {
      assert [] + o.pairs == o.pairs;
    }
  }

  lemma LastLineParses(w: Written, n: nat)
    requires Proper(w)
    ensures Parse(Render(w), n) == if Faulty(w) then Rejected(n + 1, Fault(w)) else Accepted(LinePairs(w))
  {
    OneLine(w);
    WrittenIsRead(w);
    var line := Render(w);
    if line != "" {
      assert FirstLine(line) == line && AfterLine(line) == "" && Parse("", n + 1) == Accepted([]);
      FirstLineCounts(line, n);
      assert LinePairs(w) + [] == LinePairs(w);
    }
  }

  /** What written lines come to: all their settings, or the first mistake. */
  function Meant(ws: seq<Written>, n: nat): Outcome {
    if ws == [] then Accepted([])
    else if Faulty(ws[0]) then Rejected(n + 1, Fault(ws[0]))
    else Prepend(LinePairs(ws[0]), Meant(ws[1..], n + 1))
  }

  lemma {:induction false} WrittenIsMeant(ws: seq<Written>, lastNewline: bool, n: nat)
    requires forall i :: 0 <= i < |ws| ==> Proper(ws[i])
    ensures Parse(RenderAll(ws, lastNewline), n) == Meant(ws, n)
    decreases |ws|
  {
    if ws != [] {
      if |ws| == 1 && !lastNewline {
        LastLineParses(ws[0], n);
        assert Meant(ws[1..], n + 1) == Accepted([]) && LinePairs(ws[0]) + [] == LinePairs(ws[0]);
      } else {
        WrittenIsMeant(ws[1..], lastNewline, n + 1);
        LineParses(ws[0], RenderAll(ws[1..], lastNewline), n);
      }
    }
  }

  lemma {:induction false} MistakeIsMeant(ws: seq<Written>, n: nat, i: nat)
    requires i < |ws| && Faulty(ws[i]) && forall j :: 0 <= j < i ==> !Faulty(ws[j])
    ensures Meant(ws, n) == Rejected(n + i + 1, Fault(ws[i]))
  {
    if i > 0 {
      MistakeIsMeant(ws[1..], n + 1, i - 1);
    }
  }

  lemma {:induction false} SettingsAreMeant(ws: seq<Written>, n: nat)
    requires forall i :: 0 <= i < |ws| ==> !Faulty(ws[i])
    ensures Meant(ws, n) == Accepted(PairsOf(ws))
  {
    if ws != [] {
      SettingsAreMeant(ws[1..], n + 1);
    }
  }

  /**
   Any file of proper settings, decorated with any whitespace, comments and
   blank lines, is accepted and yields exactly its settings in order.
  */
  lemma RenderedParses(ws: seq<Written>, lastNewline: bool, n: nat)
    requires forall i :: 0 <= i < |ws| ==> Proper(ws[i]) && !Faulty(ws[i])
    ensures Parse(RenderAll(ws, lastNewline), n) == Accepted(PairsOf(ws))
  {
    WrittenIsMeant(ws, lastNewline, n);
    SettingsAreMeant(ws, n);
  }

  /** A file with a mistake in it is rejected for the first one. */
  lemma MistakeIsFound(ws: seq<Written>, lastNewline: bool, n: nat, i: nat)
    requires forall j :: 0 <= j < |ws| ==> Proper(ws[j])
    requires i < |ws| && Faulty(ws[i]) && forall j :: 0 <= j < i ==> !Faulty(ws[j])
    ensures Parse(RenderAll(ws, lastNewline), n) == Rejected(n + i + 1, Fault(ws[i]))
  {
    WrittenIsMeant(ws, lastNewline, n);
    MistakeIsMeant(ws, n, i);
  }

  /** Every text is such a file. */
  lemma {:induction false} EveryTextIsWritten(text: string) returns (ws: seq<Written>, lastNewline: bool)
    ensures forall i :: 0 <= i < |ws| ==> Proper(ws[i])
    ensures RenderAll(ws, lastNewline) == text && (text != "" ==> ws != [])
    decreases |text|
  {
    ws, lastNewline := [], true;
    if text != "" {
      FirstLineEnds(text);
      var w := EveryLineIsWritten(FirstLine(text));
      if text == FirstLine(text) + ['\n'] + AfterLine(text) {
        var rest;
        rest, lastNewline := EveryTextIsWritten(AfterLine(text));
        if rest == [] {
          lastNewline := true;
        }
        ws := [w] + rest;
        assert ws[1..] == rest;
      } else {
        ws, lastNewline := [w], false;
      }
    }
  }
}
