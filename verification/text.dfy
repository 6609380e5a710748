/** String helpers the two serialisers are built from: decimal rendering of
    integers, the subset of Python's `int(str)` the name parser relies on,
    `str.strip`, `str.lower`, and the comma-join used for printed lists. */
module Text {
  import opened Results

  predicate IsDigit(c: char) {
    '0' <= c <= '9'
  }

  predicate AllDigits(s: string) {
    forall i :: 0 <= i < |s| ==> IsDigit(s[i])
  }

  function DigitChar(d: nat): (c: char)
    requires d < 10
    ensures IsDigit(c) && (c as int) - ('0' as int) == d
  {
    (('0' as int) + d) as char
  }

  function DigitValue(c: char): nat {
    if IsDigit(c) then (c as int) - ('0' as int) else 0
  }

  /** Decimal digits of `n`, most significant first, without leading zeros. */
  function NatToString(n: nat): (s: string)
    ensures |s| > 0 && AllDigits(s)
    ensures s[0] == '0' ==> n == 0
  {
    if n < 10 then [DigitChar(n)] else NatToString(n / 10) + [DigitChar(n % 10)]
  }

  /** Python's `str(i)` for an integer. */
  function IntToString(i: int): (s: string)
    ensures |s| > 0
    ensures (s[0] == '-') <==> i < 0
  {
    if i < 0 then "-" + NatToString(-i) else NatToString(i)
  }

  /** The number a run of decimal digits denotes. */
  function DigitsValue(s: string): nat {
    if s == [] then 0 else 10 * DigitsValue(s[..|s| - 1]) + DigitValue(s[|s| - 1])
  }

  lemma {:induction false} DigitsValueOfNatToString(n: nat)
    ensures DigitsValue(NatToString(n)) == n
  {
    if n >= 10 {
      var s := NatToString(n);
      assert s[..|s| - 1] == NatToString(n / 10);
      DigitsValueOfNatToString(n / 10);
    }
  }

  // ---------------------------------------------------------------------
  // Python's str.strip() with no argument, restricted to ASCII whitespace.

  predicate IsSpace(c: char) {
    c == ' ' || c == '\t' || c == '\n' || c == '\r' || c == '\U{0B}' || c == '\U{0C}'
  }

  function TrimLeft(s: string): string {
    if s != [] && IsSpace(s[0]) then TrimLeft(s[1..]) else s
  }

  function TrimRight(s: string): string {
    if s != [] && IsSpace(s[|s| - 1]) then TrimRight(s[..|s| - 1]) else s
  }

  /** `lstrip` removes a run of leading blanks and nothing else. */
  lemma {:induction false} TrimLeftRemovesLeadingSpace(s: string)
    ensures var r := TrimLeft(s);
      && |r| <= |s| && r == s[|s| - |r|..]
      && (forall i :: 0 <= i < |s| - |r| ==> IsSpace(s[i]))
      && (r != [] ==> !IsSpace(r[0]))
  {
    if s != [] && IsSpace(s[0]) {
      var t := s[1..];
      TrimLeftRemovesLeadingSpace(t);
      var r := TrimLeft(t);
      assert TrimLeft(s) == r;
      assert t[|t| - |r|..] == s[|s| - |r|..];
      forall i | 0 <= i < |s| - |r| ensures IsSpace(s[i]) {
        if i > 0 { assert s[i] == t[i - 1]; }
      }
    }
  }

  /** `rstrip` removes a run of trailing blanks and nothing else. */
  lemma {:induction false} TrimRightRemovesTrailingSpace(s: string)
    ensures var r := TrimRight(s);
      && |r| <= |s| && r == s[..|r|]
      && (forall i :: |r| <= i < |s| ==> IsSpace(s[i]))
      && (r != [] ==> !IsSpace(r[|r| - 1]))
  {
    if s != [] && IsSpace(s[|s| - 1]) {
      var t := s[..|s| - 1];
      TrimRightRemovesTrailingSpace(t);
      var r := TrimRight(t);
      assert TrimRight(s) == r;
      assert t[..|r|] == s[..|r|];
      forall i | |r| <= i < |s| ensures IsSpace(s[i]) {
        if i < |s| - 1 { assert s[i] == t[i]; }
      }
    }
  }

  function Strip(s: string): string {
    TrimRight(TrimLeft(s))
  }

  lemma StripNoSpace(s: string)
    requires forall i :: 0 <= i < |s| ==> !IsSpace(s[i])
    ensures Strip(s) == s
  {
    if s != [] {
      assert TrimLeft(s) == s;
    }
  }

  // ---------------------------------------------------------------------
  // Python's int(str) in base 10, for ASCII input: surrounding whitespace,
  // an optional sign, then digits where a single underscore may separate two
  // digits.

  /** A well-formed digit run: digits and underscores, starting and ending
      with a digit, with no two underscores in a row. */
  predicate IsDigitRun(s: string) {
    && |s| > 0
    && IsDigit(s[0])
    && IsDigit(s[|s| - 1])
    && (forall i :: 0 <= i < |s| ==> IsDigit(s[i]) || s[i] == '_')
    && (forall i :: 0 <= i < |s| - 1 && s[i] == '_' ==> s[i + 1] != '_')
  }

  /** The same test as `IsDigitRun`, one character at a time. */
  predicate DigitRun(s: string)
    decreases |s|
  {
    && |s| > 0
    && IsDigit(s[0])
    && (|s| == 1 || (if s[1] == '_' then DigitRun(s[2..]) else DigitRun(s[1..])))
  }

  lemma RunAfterUnderscore(s: string)
    requires |s| > 2 && s[1] == '_'
    ensures IsDigitRun(s) <==> IsDigit(s[0]) && IsDigitRun(s[2..])
  {
    var t := s[2..];
    assert forall i :: 0 <= i < |t| ==> t[i] == s[i + 2];
    if IsDigit(s[0]) && IsDigitRun(t) {
      forall i | 0 <= i < |s| ensures IsDigit(s[i]) || s[i] == '_' {
        if i >= 2 { assert s[i] == t[i - 2]; }
      }
      forall i | 0 <= i < |s| - 1 && s[i] == '_' ensures s[i + 1] != '_' {
        if i >= 2 { assert s[i] == t[i - 2] && s[i + 1] == t[i - 1]; }
      }
    }
  }

  lemma RunAfterDigit(s: string)
    requires |s| > 1 && s[1] != '_'
    ensures IsDigitRun(s) <==> IsDigit(s[0]) && IsDigitRun(s[1..])
  {
    var t := s[1..];
    assert forall i :: 0 <= i < |t| ==> t[i] == s[i + 1];
    if IsDigit(s[0]) && IsDigitRun(t) {
      forall i | 0 <= i < |s| ensures IsDigit(s[i]) || s[i] == '_' {
        if i >= 1 { assert s[i] == t[i - 1]; }
      }
      forall i | 0 <= i < |s| - 1 && s[i] == '_' ensures s[i + 1] != '_' {
        if i >= 1 { assert s[i] == t[i - 1] && s[i + 1] == t[i]; }
      }
    }
  }

  /** The character-by-character test agrees with the definition. */
  lemma {:induction false} DigitRunIsDigitRun(s: string)
    ensures DigitRun(s) <==> IsDigitRun(s)
    decreases |s|
  {
    if |s| > 1 {
      if s[1] == '_' {
        if |s| == 2 {
          assert !IsDigit(s[|s| - 1]);
        } else {
          DigitRunIsDigitRun(s[2..]);
          RunAfterUnderscore(s);
        }
      } else {
        DigitRunIsDigitRun(s[1..]);
        RunAfterDigit(s);
      }
    }
  }

  function DropUnderscores(s: string): string {
    if s == [] then []
    else if s[0] == '_' then DropUnderscores(s[1..])
    else [s[0]] + DropUnderscores(s[1..])
  }

  lemma {:induction false} DropUnderscoresOfDigits(s: string)
    requires AllDigits(s)
    ensures DropUnderscores(s) == s
  {
    if s != [] {
      assert AllDigits(s[1..]) by {
        assert forall i :: 0 <= i < |s[1..]| ==> s[1..][i] == s[i + 1];
      }
      DropUnderscoresOfDigits(s[1..]);
      assert s == [s[0]] + s[1..];
    }
  }

  function ParseDigitRun(s: string): Option<nat> {
    if DigitRun(s) then Some(DigitsValue(DropUnderscores(s))) else None
  }

  /** `int(s)`: `None` stands for the `ValueError` Python raises. */
  function ParseInt(s: string): Option<int> {
    var t := Strip(s);
    if |t| > 0 && (t[0] == '+' || t[0] == '-') then
      match ParseDigitRun(t[1..])
      case None => None
      case Some(n) => var m: int := n; Some(if t[0] == '-' then -m else m)
    else
      match ParseDigitRun(t)
      case None => None
      case Some(n) => Some(n)
  }

  /** Exactly the strings of the form `[ws][sign]digit-run[ws]` parse. */
  lemma ParseIntAccepts(s: string)
    ensures ParseInt(s).Some? <==>
      (var t := Strip(s);
       IsDigitRun(t) || (|t| > 0 && (t[0] == '+' || t[0] == '-') && IsDigitRun(t[1..])))
  {
    var t := Strip(s);
    DigitRunIsDigitRun(t);
    if |t| > 0 {
      DigitRunIsDigitRun(t[1..]);
      if t[0] == '+' || t[0] == '-' {
        assert !IsDigitRun(t);
      }
    }
  }

  lemma ParseDigitsOfNatToString(n: nat)
    ensures ParseDigitRun(NatToString(n)) == Some(n)
  {
    var d := NatToString(n);
    DigitsValueOfNatToString(n);
    DropUnderscoresOfDigits(d);
    AllDigitsRun(d);
  }

  lemma {:induction false} AllDigitsRun(s: string)
    requires |s| > 0 && AllDigits(s)
    ensures DigitRun(s)
    decreases |s|
  {
    if |s| > 1 {
      assert s[1] != '_';
      assert AllDigits(s[1..]) by {
        assert forall i :: 0 <= i < |s[1..]| ==> s[1..][i] == s[i + 1];
      }
      AllDigitsRun(s[1..]);
    }
  }

  lemma ParseIntOfNegative(n: nat)
    requires n > 0
    ensures ParseInt("-" + NatToString(n)) == Some(-(n as int))
  {
    var d := NatToString(n);
    var s := "-" + d;
    ParseDigitsOfNatToString(n);
    forall k | 0 <= k < |s| ensures !IsSpace(s[k]) {
      if k > 0 { assert s[k] == d[k - 1]; }
    }
    StripNoSpace(s);
    assert s[1..] == d;
  }

  lemma ParseIntOfNatural(n: nat)
    ensures ParseInt(NatToString(n)) == Some(n)
  {
    var d := NatToString(n);
    ParseDigitsOfNatToString(n);
    assert forall k :: 0 <= k < |d| ==> IsDigit(d[k]);
    StripNoSpace(d);
    assert !(d[0] == '+' || d[0] == '-');
  }

  /** Parsing is the inverse of rendering: `int(str(i)) == i`. */
  lemma ParseIntOfIntToString(i: int)
    ensures ParseInt(IntToString(i)) == Some(i)
  {
    if i < 0 {
      ParseIntOfNegative(-i);
    } else {
      ParseIntOfNatural(i);
    }
  }

  // ---------------------------------------------------------------------
  // Prefixes, suffixes, joins.

  predicate StartsWith(s: string, p: string) {
    |p| <= |s| && s[..|p|] == p
  }

  predicate EndsWith(s: string, p: string) {
    |p| <= |s| && s[|s| - |p|..] == p
  }

  /** `sep.join(parts)`. */
  function Join(parts: seq<string>, sep: string): (r: string)
    ensures |parts| == 1 ==> r == parts[0]
  {
    if parts == [] then ""
    else if |parts| == 1 then parts[0]
    else parts[0] + sep + Join(parts[1..], sep)
  }

  /** Text wrapped in a pair of round, square or curly brackets. */
  function Paren(s: string): string {
    "(" + s + ")"
  }

  function Square(s: string): string {
    "[" + s + "]"
  }

  function Curly(s: string): string {
    "{" + s + "}"
  }

  /** How a printed Python list looks: `[a, b, c]`. */
  function Bracket(parts: seq<string>): string {
    Square(Join(parts, ", "))
  }

  /** Concatenation of a sequence of strings. */
  function Concat(parts: seq<string>): string {
    if parts == [] then "" else parts[0] + Concat(parts[1..])
  }

  lemma ConcatAppend(parts: seq<string>, last: string)
    ensures Concat(parts + [last]) == Concat(parts) + last
  {
    if parts != [] {
      assert (parts + [last])[1..] == parts[1..] + [last];
    }
  }

  // ---------------------------------------------------------------------
  // Python's str.lower(), restricted to ASCII letters.

  predicate IsUpper(c: char) {
    'A' <= c <= 'Z'
  }

  function LowerChar(c: char): (r: char)
    ensures !IsUpper(r)
    ensures !IsUpper(c) ==> r == c
  {
    if IsUpper(c) then ((c as int) + 32) as char else c
  }

  function Lower(s: string): (r: string)
    ensures |r| == |s|
    ensures forall i :: 0 <= i < |r| ==> r[i] == LowerChar(s[i])
  {
    if s == [] then [] else [LowerChar(s[0])] + Lower(s[1..])
  }
}
