/** std::to_string and std::stoi for the platform's 32-bit int. */
module Integers {
  import opened Basics
  import opened Text

  predicate IsDigit(c: char) {
    '0' <= c <= '9'
  }

  predicate AllDigits(s: string) {
    forall i :: 0 <= i < |s| ==> IsDigit(s[i])
  }

  function DigitsValue(s: string): (n: nat)
    requires AllDigits(s)
  {
    if s == "" then 0 else DigitsValue(s[..|s| - 1]) * 10 + (s[|s| - 1] as int - '0' as int)
  }

  /** Decimal digits without leading zeros. */
  function NatToString(n: nat): (s: string)
    ensures s != "" && AllDigits(s)
    decreases n
  {
    var last := [(n % 10 + '0' as int) as char];
    if n < 10 then last else NatToString(n / 10) + last
  }

  /** std::to_string. */
  function ToString(n: int): (s: string) {
    if n < 0 then "-" + NatToString(-n) else NatToString(n)
  }

  lemma {:induction false} DigitsRoundTrip(n: nat)
    ensures DigitsValue(NatToString(n)) == n
    decreases n
  {
    var last := [(n % 10 + '0' as int) as char];
    if n >= 10 {
      DigitsRoundTrip(n / 10);
      assert NatToString(n)[..|NatToString(n)| - 1] == NatToString(n / 10);
    } else {
      assert last[..0] == "";
    }
  }

  /** Different numbers have different decimal texts. */
  lemma ToStringInjective(a: nat, b: nat)
    requires ToString(a) == ToString(b)
    ensures a == b
  {
    DigitsRoundTrip(a);
    DigitsRoundTrip(b);
  }

  /** The longest run of digits at the front. */
  function DigitRun(s: string): (d: string)
    ensures |d| <= |s| && d == s[..|d|] && AllDigits(d)
    ensures |d| < |s| ==> !IsDigit(s[|d|])
  {
    if s == "" || !IsDigit(s[0]) then "" else [s[0]] + DigitRun(s[1..])
  }

  datatype Sign = NoSign | Plus | Minus

  function SignText(s: Sign): string {
    match s case NoSign => "" case Plus => "+" case Minus => "-"
  }

  function Signed(s: Sign, n: nat): int {
    if s.Minus? then 0 - n else n
  }

  function SignOf(t: string): Sign {
    if t != "" && t[0] == '-' then Minus else if t != "" && t[0] == '+' then Plus else NoSign
  }

  function AfterSign(t: string): (r: string)
    ensures t == SignText(SignOf(t)) + r
  {
    if SignOf(t).NoSign? then t else t[1..]
  }

  datatype StoiResult = Parsed(value: int, count: int) | InvalidArgument | OutOfRange

  /**
   strtol skips whitespace, takes one optional sign and the digits after it;
   stoi rejects what is no number or no int.
  */
  function Stoi(s: string): StoiResult {
    var rest := TrimLeft(s);
    var body := AfterSign(rest);
    var digits := DigitRun(body);
    var value := Signed(SignOf(rest), DigitsValue(digits));
    if digits == "" then InvalidArgument
    else if value < INT_MIN || value > INT_MAX then OutOfRange
    else Parsed(value, |s| - |body| + |digits|)
  }

  /** The conversion both getInt functions accept: an int that takes up the whole text. */
  function WholeInt(s: string): Option<int> {
    var r := Stoi(s);
    if r.Parsed? && r.count == |s| then Some(r.value) else None
  }

  /** The text is whitespace, an optional sign, and digits, and their value is an int. */
  ghost predicate Denotes(s: string, space: string, sign: Sign, digits: string, value: int) {
    && s == space + SignText(sign) + digits
    && AllSpace(space) && digits != "" && AllDigits(digits)
    && value == Signed(sign, DigitsValue(digits)) && INT_MIN <= value <= INT_MAX
  }

  lemma SignSplits(sign: Sign, digits: string)
    requires digits != "" && AllDigits(digits)
    ensures SignOf(SignText(sign) + digits) == sign && AfterSign(SignText(sign) + digits) == digits
  {}

  lemma DenotedIsRead(s: string, space: string, sign: Sign, digits: string, value: int)
    requires Denotes(s, space, sign, digits, value)
    ensures WholeInt(s) == Some(value)
  {
    var tail := SignText(sign) + digits;
    assert s == space + tail;
    assert !IsSpace(tail[0]);
    TrimLeftSkips(space, tail);
    SignSplits(sign, digits);
    DigitRunAll(digits);
    assert |s| - |digits| + |digits| == |s|;
  }

  lemma {:induction false} DigitRunAll(d: string)
    requires AllDigits(d)
    ensures DigitRun(d) == d
  {
    if d != "" {
      DigitRunAll(d[1..]);
    }
  }

  /** A text read as a whole splits into whitespace, sign and digits. */
  lemma ReadIsDenoted(s: string, value: int) returns (space: string, sign: Sign, digits: string)
    requires WholeInt(s) == Some(value)
    ensures Denotes(s, space, sign, digits, value)
  {
    space := TrimLeftSplits(s);
    var rest := TrimLeft(s);
    sign, digits := SignOf(rest), AfterSign(rest);
    assert |DigitRun(digits)| == |digits|;
    assert DigitRun(digits) == digits;
    assert s == space + SignText(sign) + digits by {
      assert s == space + (SignText(sign) + digits);
    }
  }

  /** getInt reads a number exactly from the texts of that form; every other text gives the default. */
  lemma WholeIntExact(s: string, value: int)
    ensures WholeInt(s) == Some(value) <==> exists space, sign, digits :: Denotes(s, space, sign, digits, value)
  {
    if WholeInt(s) == Some(value) {
      var space, sign, digits := ReadIsDenoted(s, value);
    }
    forall space, sign, digits | Denotes(s, space, sign, digits, value)
      ensures WholeInt(s) == Some(value)
    {
      DenotedIsRead(s, space, sign, digits, value);
    }
  }

  /** What to_string writes is read back unchanged, for every int. */
  lemma IntRoundTrip(n: int)
    requires INT_MIN <= n <= INT_MAX
    ensures WholeInt(ToString(n)) == Some(n)
  {
    ToStringSpelled(n);
    SpelledIsRead(ToString(n), "", if n < 0 then "-" else "", "", n);
  }

  // ----- The number texts, spelled out -----

  /** The digits, and what a further one does. */
  lemma DigitsMean(d: string, c: char)
    requires AllDigits(d) && IsDigit(c)
    ensures DigitsValue("") == 0 && DigitsValue(d + [c]) == 10 * DigitsValue(d) + DigitsValue([c])
    ensures DigitsValue("0") == 0 && DigitsValue("1") == 1 && DigitsValue("2") == 2 && DigitsValue("3") == 3
    ensures DigitsValue("4") == 4 && DigitsValue("5") == 5 && DigitsValue("6") == 6 && DigitsValue("7") == 7
    ensures DigitsValue("8") == 8 && DigitsValue("9") == 9
  {
    assert (d + [c])[..|d|] == d;
    OneDigit(c);
    OneDigit('0');
    OneDigit('1');
    OneDigit('2');
    OneDigit('3');
    OneDigit('4');
    OneDigit('5');
    OneDigit('6');
    OneDigit('7');
    OneDigit('8');
    OneDigit('9');
  }

  lemma OneDigit(c: char)
    requires IsDigit(c)
    ensures DigitsValue([c]) == c as int - '0' as int
  {
    assert [c][..0] == "";
  }

  predicate Zeros(s: string) {
    forall i :: 0 <= i < |s| ==> s[i] == '0'
  }

  lemma {:induction false} ZerosCount(zeros: string, d: string)
    requires Zeros(zeros) && AllDigits(d)
    ensures AllDigits(zeros + d) && DigitsValue(zeros + d) == DigitsValue(d)
    decreases |zeros| + |d|
  {
    if d != "" {
      ZerosCount(zeros, d[..|d| - 1]);
      assert (zeros + d)[..|zeros + d| - 1] == zeros + d[..|d| - 1];
    } else if zeros != "" {
      ZerosCount(zeros[..|zeros| - 1], "");
      assert zeros + "" == zeros && zeros[..|zeros| - 1] + "" == zeros[..|zeros| - 1];
    }
  }

  /** Digits are leading zeros and the number as to_string writes it. */
  lemma {:induction false} DigitsAreWritten(d: string) returns (zeros: string)
    requires d != "" && AllDigits(d)
    ensures Zeros(zeros) && d == zeros + NatToString(DigitsValue(d))
    decreases |d|
  {
    var front, c := d[..|d| - 1], d[|d| - 1];
    var k, v := c as int - '0' as int, DigitsValue(d);
    assert d == front + [c] && v == DigitsValue(front) * 10 + k;
    if front == "" {
      zeros := "";
    } else {
      zeros := DigitsAreWritten(front);
      if DigitsValue(front) == 0 {
        zeros := zeros + "0";
        assert NatToString(0) == "0";
      } else {
        assert v / 10 == DigitsValue(front) && v % 10 == k;
        assert NatToString(v) == NatToString(v / 10) + [c];
      }
    }
  }

  /** A leading zero is written for zero only. */
  lemma {:induction false} NoLeadingZero(n: nat)
    ensures NatToString(n)[0] == '0' <==> n == 0
    decreases n
  {
    if n >= 10 {
      NoLeadingZero(n / 10);
      assert NatToString(n)[0] == NatToString(n / 10)[0];
    }
  }

  /** How one may write a number: whitespace, "+", "-" or neither, zeros, and its digits. */
  ghost predicate Spelled(s: string, space: string, sign: string, zeros: string, value: int) {
    && AllSpace(space) && Zeros(zeros)
    && ((value >= 0 && (sign == "" || sign == "+")) || (value <= 0 && sign == "-"))
    && s == space + sign + (zeros + NatToString(if value < 0 then -value else value))
  }

  lemma SpelledIsRead(s: string, space: string, sign: string, zeros: string, value: int)
    requires Spelled(s, space, sign, zeros, value) && INT_MIN <= value <= INT_MAX
    ensures WholeInt(s) == Some(value)
  {
    var n := if value < 0 then -value else value;
    var kind := if sign == "-" then Minus else if sign == "+" then Plus else NoSign;
    DigitsRoundTrip(n);
    ZerosCount(zeros, NatToString(n));
    DenotedIsRead(s, space, kind, zeros + NatToString(n), value);
  }

  lemma ReadIsSpelled(s: string, value: int) returns (space: string, sign: string, zeros: string)
    requires WholeInt(s) == Some(value)
    ensures Spelled(s, space, sign, zeros, value) && INT_MIN <= value <= INT_MAX
  {
    var kind, digits;
    space, kind, digits := ReadIsDenoted(s, value);
    sign := SignText(kind);
    zeros := DigitsAreWritten(digits);
  }

  /** getInt reads exactly these texts, each as its value, as long as that is an int. */
  lemma WholeIntSpelled(s: string, value: int)
    ensures WholeInt(s) == Some(value) <==>
              INT_MIN <= value <= INT_MAX && exists space, sign, zeros :: Spelled(s, space, sign, zeros, value)
  {
    if WholeInt(s) == Some(value) {
      var space, sign, zeros := ReadIsSpelled(s, value);
    }
    forall space, sign, zeros | INT_MIN <= value <= INT_MAX && Spelled(s, space, sign, zeros, value)
      ensures WholeInt(s) == Some(value)
    {
      SpelledIsRead(s, space, sign, zeros, value);
    }
  }

  /** to_string writes the shortest of them. */
  lemma ToStringSpelled(n: int)
    ensures Spelled(ToString(n), "", if n < 0 then "-" else "", "", n)
    ensures ToString(n)[if n < 0 then 1 else 0] == '0' <==> n == 0
  {
    var d := NatToString(if n < 0 then -n else n);
    NoLeadingZero(if n < 0 then -n else n);
    Plain("-", d);
    Plain("", d);
  }

  lemma Plain(sign: string, d: string)
    ensures "" + sign + ("" + d) == "" + sign + d == sign + d && "" + d == d
  {}
}
