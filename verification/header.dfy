/** The declaration lines of the text model read back: a parser for the
    two line shapes the header uses, and the proof that it recovers every
    declared variable from its line. */
module MiniZincHeader {
  import opened Results
  import opened Text
  import opened MiniZinc
  import MiniZincLayout

  /** Index of the first `c` in `s`, or `|s|` when there is none. */
  function Find(s: string, c: char): (k: nat)
    ensures k <= |s|
    ensures forall i :: 0 <= i < k ==> s[i] != c
    ensures k < |s| ==> s[k] == c
  {
    if s == [] then 0 else if s[0] == c then 0 else 1 + Find(s[1..], c)
  }

  lemma FindAfter(a: string, c: char, b: string)
    requires forall i :: 0 <= i < |a| ==> a[i] != c
    requires b != [] && b[0] == c
    ensures Find(a + b, c) == |a|
  {
    var k := Find(a + b, c);
    assert (a + b)[|a|] == c;
    assert forall i :: 0 <= i < |a| ==> (a + b)[i] == a[i];
  }

  function ParseNat(s: string): Option<nat> {
    match ParseInt(s)
    case Some(n) => if n >= 0 then Some(n) else None
    case None => None
  }

  /** `lo..hi: IV<id>` */
  function ParseIntBody(body: string): Option<Expr> {
    var p := Find(body, '.');
    if p + 2 > |body| || body[p..p + 2] != ".." then None
    else
      var rest := body[p + 2..];
      var q := Find(rest, ':');
      if q + 4 > |rest| || rest[q..q + 4] != ": IV" then None
      else
        ParseIntFields(body[..p], rest[..q], rest[q + 4..])
  }

  function ParseIntFields(lo: string, hi: string, id: string): Option<Expr> {
    match (ParseInt(lo), ParseInt(hi), ParseNat(id))
    case (Some(lb), Some(ub), Some(n)) => Some(IntVar(n, lb, ub))
    case _ => None
  }

  /** Reads one declaration line: `var bool: BV<id>;\n` or
      `var lo..hi: IV<id>;\n`. */
  function ParseDeclaration(line: string): Option<Expr> {
    if |line| < 6 || !EndsWith(line, ";\n") then None
    else if |line| >= 14 && StartsWith(line, "var bool: BV") then
      match ParseNat(line[12..|line| - 2])
      case Some(id) => Some(BoolVar(id))
      case None => None
    else if StartsWith(line, "var ") then ParseIntBody(line[4..|line| - 2])
    else None
  }

  lemma IntTextHasNoSeparators(i: int)
    ensures forall k :: 0 <= k < |IntToString(i)| ==> IntToString(i)[k] != '.' && IntToString(i)[k] != ':'
  {
    var s := IntToString(i);
    if i < 0 {
      forall k | 0 <= k < |s| ensures s[k] != '.' && s[k] != ':' {
        if k > 0 { assert s[k] == NatToString(-i)[k - 1]; }
      }
    }
  }

  lemma ParseNatOfNatToString(n: nat)
    ensures ParseNat(NatToString(n)) == Some(n)
  {
    ParseIntOfIntToString(n);
  }

  lemma SplitAtDots(lo: string, rest: string)
    requires forall k :: 0 <= k < |lo| ==> lo[k] != '.'
    ensures var body := lo + ".." + rest;
      && Find(body, '.') == |lo|
      && body[..|lo|] == lo && body[|lo|..|lo| + 2] == ".." && body[|lo| + 2..] == rest
  {
    var body := lo + ".." + rest;
    assert body == lo + (".." + rest);
    FindAfter(lo, '.', ".." + rest);
  }

  lemma SplitAtColon(hi: string, d: string)
    requires forall k :: 0 <= k < |hi| ==> hi[k] != ':'
    ensures var rest := hi + ": IV" + d;
      && Find(rest, ':') == |hi|
      && rest[..|hi|] == hi && rest[|hi|..|hi| + 4] == ": IV" && rest[|hi| + 4..] == d
  {
    var rest := hi + ": IV" + d;
    assert rest == hi + (": IV" + d);
    FindAfter(hi, ':', ": IV" + d);
  }

  lemma ParseIntBodyOfParts(lo: string, hi: string, d: string)
    requires forall k :: 0 <= k < |lo| ==> lo[k] != '.'
    requires forall k :: 0 <= k < |hi| ==> hi[k] != ':'
    ensures ParseIntBody(lo + ".." + hi + ": IV" + d) == ParseIntFields(lo, hi, d)
  {
    SplitAtColon(hi, d);
    SplitAtDots(lo, hi + ": IV" + d);
    assert lo + ".." + hi + ": IV" + d == lo + ".." + (hi + ": IV" + d);
  }

  lemma IntTextStart(i: int)
    ensures IntToString(i)[0] == '-' || IsDigit(IntToString(i)[0])
  {
  }

  lemma BoolLineReadsBack(id: nat)
    ensures ParseDeclaration("var bool: BV" + NatToString(id) + ";\n") == Some(BoolVar(id))
  {
    var d := NatToString(id);
    var line := "var bool: BV" + d + ";\n";
    assert line[..12] == "var bool: BV";
    assert line[|line| - 2..] == ";\n";
    assert line[12..|line| - 2] == d;
    ParseNatOfNatToString(id);
  }

  lemma IntLineOfParts(lo: string, hi: string, d: string, lb: int, ub: int, id: nat)
    requires |lo| > 0 && lo[0] != 'b'
    requires forall k :: 0 <= k < |lo| ==> lo[k] != '.'
    requires forall k :: 0 <= k < |hi| ==> hi[k] != ':'
    requires ParseInt(lo) == Some(lb) && ParseInt(hi) == Some(ub) && ParseNat(d) == Some(id)
    ensures ParseDeclaration("var " + lo + ".." + hi + ": IV" + d + ";\n") == Some(IntVar(id, lb, ub))
  {
    var body := lo + ".." + hi + ": IV" + d;
    var line := "var " + lo + ".." + hi + ": IV" + d + ";\n";
    assert line == "var " + body + ";\n";
    assert line[|line| - 2..] == ";\n";
    assert line[4..|line| - 2] == body;
    assert line[..4] == "var ";
    assert line[4] == lo[0];
    assert "var bool: BV"[4] == 'b';
    assert !StartsWith(line, "var bool: BV");
    ParseIntBodyOfParts(lo, hi, d);
  }

  lemma IntLineReadsBack(lb: int, ub: int, id: nat)
    ensures ParseDeclaration("var " + IntToString(lb) + ".." + IntToString(ub) + ": IV" + NatToString(id) + ";\n")
         == Some(IntVar(id, lb, ub))
  {
    IntTextStart(lb);
    IntTextHasNoSeparators(lb);
    IntTextHasNoSeparators(ub);
    ParseIntOfIntToString(lb);
    ParseIntOfIntToString(ub);
    ParseNatOfNatToString(id);
    IntLineOfParts(IntToString(lb), IntToString(ub), NatToString(id), lb, ub, id);
  }

  /** Every single-line declaration reads back as the variable it declares. */
  lemma ParseDeclarationOfDeclaration(v: Expr, h: Hierarchy)
    requires v.IntVar? || (v.BoolVar? && !h.boolVarIsIntVar)
    ensures ParseDeclaration(Declaration(v, h)) == Some(v)
  {
    MiniZincLayout.DeclarationLayout(v, h);
    if v.BoolVar? {
      BoolLineReadsBack(v.id);
    } else {
      IntLineReadsBack(v.lb, v.ub, v.id);
    }
  }
}
