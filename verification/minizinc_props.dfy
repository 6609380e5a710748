/** Properties of the MiniZinc printer that hold for every input: the
    shape of the `element` index, the bracket structure of all generated
    text, and how the top-level conjunction is split into items. */
module MiniZincProps {
  import opened Results
  import opened Text
  import opened Brackets
  import opened MiniZinc

  // ---------------------------------------------------------------------
  // The `+1` shift of an `element` index

  /** Whitespace before `t` keeps `t`'s own ending. */
  lemma NotPlusOneAfterSpace(p: string, t: string)
    requires |p| > 0 && p[|p| - 1] == ' '
    requires !EndsWith(t, "+1")
    ensures !EndsWith(p + t, "+1")
  {
    var s := p + t;
    if |t| >= 2 {
      assert s[|s| - 2..] == t[|t| - 2..];
    } else if |t| == 1 {
      assert s[|s| - 2] == ' ';
    } else {
      assert s == p;
      assert s[|s| - 1] == ' ';
    }
  }

  lemma NumeralNotPlusOne(p: string, n: nat)
    requires |p| > 0 && p[|p| - 1] != '+'
    ensures !EndsWith(p + NatToString(n), "+1")
  {
    var d := NatToString(n);
    var s := p + d;
    if |d| >= 2 {
      assert s[|s| - 2] == d[|d| - 2];
    } else {
      assert s[|s| - 2] == p[|p| - 1];
    }
  }

  /** Text closed by a bracket does not end in `+1`. */
  lemma ParenNotPlusOne(p: string, x: string)
    ensures !EndsWith(p + Paren(x), "+1")
  {
    var r := p + Paren(x);
    assert r[|r| - 1] == ')';
  }

  lemma SquareNotPlusOne(x: string)
    ensures !EndsWith(Square(x), "+1")
  {
    assert Square(x)[|Square(x)| - 1] == ']';
  }

  lemma WeightedSumNotPlusOne(weights: seq<int>, elemType: string, texts: seq<string>)
    ensures !EndsWith(WeightedSumText(weights, elemType, texts), "+1")
  {
    var p := "let " + Curly(WeightedSumDecls(Bracket(IntStrings(weights)), elemType, Square(Join(texts, ","))))
      + " in\n      sum" + Paren("i in 1.." + NatToString(|texts|)) + " ";
    ParenNotPlusOne(p, "w" + Square("i") + "*v" + Square("i"));
  }

  lemma ElementNotPlusOne(elemType: string, arr: string, idx: string, value: string)
    requires !EndsWith(value, "+1")
    ensures !EndsWith(ElementText(elemType, arr, idx, value), "+1")
  {
    var p := "\n    let " + Curly(" array" + Square("int") + " of var " + elemType + ": arr=" + arr + " ")
      + " in\n      arr" + Square(idx) + " = ";
    NotPlusOneAfterSpace(p, value);
  }

  /** No printed expression ends in `+1`: the text is closed by a bracket,
      by a numeral after a letter or digit, or by a child after a blank. */
  lemma {:induction false} NoTextEndsWithPlusOne(e: Expr, h: Hierarchy)
    requires Convert(e, h).Success?
    ensures !EndsWith(Convert(e, h).value, "+1")
    decreases e, 1
  {
    match e
    case BoolVar(_) => LeafNotPlusOne(e, h);
    case IntVar(_, _, _) => LeafNotPlusOne(e, h);
    case IntConst(_) => LeafNotPlusOne(e, h);
    case BoolConst(_) => LeafNotPlusOne(e, h);
    case MathOp(_, _, _) => InfixNotPlusOne(e, h);
    case Comparison(_, _, _) => InfixNotPlusOne(e, h);
    case Sum(_) => CollectionNotPlusOne(e, h);
    case WeightedSum(_, _) => CollectionNotPlusOne(e, h);
    case Array(_) => CollectionNotPlusOne(e, h);
    case BoolOp(name, es) =>
      var ts := ConvertAll(es, h).value;
      if |ts| == 2 {
        NoTextEndsWithPlusOne(es[1], h);
        NotPlusOneAfterSpace(ts[0] + " " + BinaryName(name) + " ", ts[1]);
      } else {
        ParenNotPlusOne(NaryName(name), Bracket(ts));
      }
    case Global(name, es) =>
      var ts := ConvertAll(es, h).value;
      if name == "element" {
        NoTextEndsWithPlusOne(es[2], h);
        ElementNotPlusOne(ArrayType(es[0].elems), ts[0], IndexText(es[1], ts[1], h), ts[2]);
      } else {
        ParenNotPlusOne(name, Join(ts, ", "));
      }
  }

  lemma LeafNotPlusOne(e: Expr, h: Hierarchy)
    requires e.BoolVar? || e.IntVar? || e.IntConst? || e.BoolConst?
    ensures !EndsWith(Convert(e, h).value, "+1")
  {
    var r := Convert(e, h).value;
    match e
    case BoolVar(id) => NumeralNotPlusOne("BV", id);
    case IntVar(id, _, _) => NumeralNotPlusOne("IV", id);
    case IntConst(v) =>
      if v < 0 {
        NumeralNotPlusOne("-", -v);
      } else {
        var d := NatToString(v);
        if |d| >= 2 {
          assert r[|r| - 2] == d[|d| - 2];
        }
      }
    case BoolConst(_) =>
  }

  lemma CollectionNotPlusOne(e: Expr, h: Hierarchy)
    requires e.Sum? || e.WeightedSum? || e.Array?
    requires Convert(e, h).Success?
    ensures !EndsWith(Convert(e, h).value, "+1")
  {
    var ts := ConvertAll(e.elems, h).value;
    match e
    case Sum(es) => ParenNotPlusOne("sum", Bracket(ts));
    case WeightedSum(ws, es) => WeightedSumNotPlusOne(ws, ArrayType(es), ts);
    case Array(es) => SquareNotPlusOne(Join(ts, ", "));
  }

  lemma InfixNotPlusOne(e: Expr, h: Hierarchy)
    requires e.MathOp? || e.Comparison?
    requires Convert(e, h).Success?
    ensures !EndsWith(Convert(e, h).value, "+1")
    decreases e, 0
  {
    var r := Convert(e, h).value;
    var lt := Convert(e.left, h).value;
    var rt := Convert(e.right, h).value;
    var p := Operand(e.left, lt) + " " + e.name + " ";
    assert r == p + Operand(e.right, rt);
    if !IsMathOrComparison(e.right) {
      NoTextEndsWithPlusOne(e.right, h);
      NotPlusOneAfterSpace(p, rt);
    } else {
      ParenNotPlusOne(p, rt);
    }
  }

  /** The printed index carries the `+1` suffix exactly when
      the index is an integer variable whose lower bound is 0. */
  lemma IndexShiftedExactlyWhenZeroBased(index: Expr, h: Hierarchy)
    requires Convert(index, h).Success?
    ensures EndsWith(IndexText(index, Convert(index, h).value, h), "+1") <==> ZeroBasedIndex(index, h)
  {
    var t := Convert(index, h).value;
    if ZeroBasedIndex(index, h) {
      assert (t + "+1")[|t + "+1"| - 2..] == "+1";
    } else {
      NoTextEndsWithPlusOne(index, h);
    }
  }

  // ---------------------------------------------------------------------
  // Bracket structure

  /** The operator and constraint names inside `e` contain no brackets. */
  predicate NamesPlain(e: Expr) {
    match e
    case MathOp(name, l, r) => Plain(name) && NamesPlain(l) && NamesPlain(r)
    case Comparison(name, l, r) => Plain(name) && NamesPlain(l) && NamesPlain(r)
    case Sum(es) => forall i :: 0 <= i < |es| ==> NamesPlain(es[i])
    case WeightedSum(_, es) => forall i :: 0 <= i < |es| ==> NamesPlain(es[i])
    case Array(es) => forall i :: 0 <= i < |es| ==> NamesPlain(es[i])
    case BoolOp(name, es) => Plain(name) && forall i :: 0 <= i < |es| ==> NamesPlain(es[i])
    case Global(name, es) => Plain(name) && forall i :: 0 <= i < |es| ==> NamesPlain(es[i])
    case _ => true
  }

  lemma Balanced3(a: string, b: string, c: string)
    requires Balanced(a) && Balanced(b) && Balanced(c)
    ensures Balanced(a + b + c)
  {
    BalancedConcat(a, b);
    BalancedConcat(a + b, c);
  }

  lemma Parens(a: string)
    requires Balanced(a)
    ensures Balanced(Paren(a))
  {
    BalancedWrap('(', a, ')');
  }

  lemma Squares(a: string)
    requires Balanced(a)
    ensures Balanced(Square(a))
  {
    BalancedWrap('[', a, ']');
  }

  lemma Braces(a: string)
    requires Balanced(a)
    ensures Balanced(Curly(a))
  {
    BalancedWrap('{', a, '}');
  }

  lemma SquareOfPlain(t: string)
    requires Plain(t)
    ensures Balanced(Square(t))
  {
    PlainBalanced(t);
    Squares(t);
  }

  lemma PlainThen(p: string, a: string)
    requires Plain(p) && Balanced(a)
    ensures Balanced(p + a)
  {
    PlainBalanced(p);
    BalancedConcat(p, a);
  }

  lemma ThenPlain(a: string, p: string)
    requires Balanced(a) && Plain(p)
    ensures Balanced(a + p)
  {
    PlainBalanced(p);
    BalancedConcat(a, p);
  }

  lemma NumeralPlain(n: nat)
    ensures Plain(NatToString(n))
  {
  }

  lemma IntegerPlain(i: int)
    ensures Plain(IntToString(i))
  {
    if i < 0 {
      NumeralPlain(-i);
      PlainConcat("-", NatToString(-i));
    } else {
      NumeralPlain(i);
    }
  }

  lemma {:induction false} JoinBalanced(parts: seq<string>, sep: string)
    requires forall i :: 0 <= i < |parts| ==> Balanced(parts[i])
    requires Plain(sep)
    ensures Balanced(Join(parts, sep))
    decreases |parts|
  {
    if parts == [] {
      PlainBalanced("");
    } else if |parts| > 1 {
      JoinBalanced(parts[1..], sep);
      PlainBalanced(sep);
      Balanced3(parts[0], sep, Join(parts[1..], sep));
    }
  }

  lemma BracketBalanced(parts: seq<string>)
    requires forall i :: 0 <= i < |parts| ==> Balanced(parts[i])
    ensures Balanced(Bracket(parts))
  {
    JoinBalanced(parts, ", ");
    Squares(Join(parts, ", "));
  }

  lemma OperandBalanced(child: Expr, t: string)
    requires Balanced(t)
    ensures Balanced(Operand(child, t))
  {
    if IsMathOrComparison(child) {
      Parens(t);
    }
  }

  /** The layout of a weighted sum's declarations, with the literal pieces
      as parameters. */
  lemma DeclsLayoutBalanced(a: string, sq: string, b: string, w: string, c: string,
                            d: string, t: string, e: string, v: string, f: string)
    requires Plain(a) && Plain(b) && Plain(c) && Plain(d) && Plain(t) && Plain(e) && Plain(f)
    requires Balanced(sq) && Balanced(w) && Balanced(v)
    ensures Balanced(a + sq + b + w + c + sq + d + t + e + v + f)
  {
    PlainThen(a, sq);
    ThenPlain(a + sq, b);
    BalancedConcat(a + sq + b, w);
    ThenPlain(a + sq + b + w, c);
    BalancedConcat(a + sq + b + w + c, sq);
    PlainConcat(d, t);
    PlainConcat(d + t, e);
    ThenPlain(a + sq + b + w + c + sq, d + t + e);
    assert a + sq + b + w + c + sq + (d + t + e) == a + sq + b + w + c + sq + d + t + e;
    BalancedConcat(a + sq + b + w + c + sq + d + t + e, v);
    ThenPlain(a + sq + b + w + c + sq + d + t + e + v, f);
  }

  lemma DeclsPiecesPlain()
    ensures Plain("\n      array") && Plain(" of int: w=") && Plain(",\n      array")
    ensures Plain(" of var ") && Plain(": v=") && Plain("\n    ")
  {
  }

  lemma WeightedSumDeclsBalanced(w: string, elemType: string, v: string)
    requires Balanced(w) && Plain(elemType) && Balanced(v)
    ensures Balanced(WeightedSumDecls(w, elemType, v))
  {
    SquareOfPlain("int");
    DeclsPiecesPlain();
    DeclsLayoutBalanced("\n      array", Square("int"), " of int: w=", w, ",\n      array", " of var ", elemType, ": v=", v, "\n    ");
  }

  /** Plain pieces alternating with balanced ones. */
  lemma AlternatingBalanced(a: string, x: string, b: string, y: string, c: string, z: string)
    requires Plain(a) && Plain(b) && Plain(c)
    requires Balanced(x) && Balanced(y) && Balanced(z)
    ensures Balanced(a + x + b + y + c + z)
  {
    PlainThen(a, x);
    ThenPlain(a + x, b);
    BalancedConcat(a + x + b, y);
    ThenPlain(a + x + b + y, c);
    BalancedConcat(a + x + b + y + c, z);
  }

  lemma TailPiecesPlain(n: nat)
    ensures Plain("let ") && Plain(" in\n      sum") && Plain(" ")
    ensures Plain("w") && Plain("*v") && Plain("i in 1.." + NatToString(n))
  {
    NumeralPlain(n);
    PlainConcat("i in 1..", NatToString(n));
  }

  /** `w[i]*v[i]` */
  lemma ProductBalanced()
    ensures Balanced("w" + Square("i") + "*v" + Square("i"))
  {
    SquareOfPlain("i");
    TailPiecesPlain(0);
    PlainThen("w", Square("i"));
    ThenPlain("w" + Square("i"), "*v");
    BalancedConcat("w" + Square("i") + "*v", Square("i"));
  }

  lemma WeightedSumBalanced(weights: seq<int>, elemType: string, texts: seq<string>)
    requires Plain(elemType)
    requires forall i :: 0 <= i < |texts| ==> Balanced(texts[i])
    ensures Balanced(WeightedSumText(weights, elemType, texts))
  {
    var ws := IntStrings(weights);
    forall i | 0 <= i < |ws| ensures Balanced(ws[i]) {
      IntegerPlain(weights[i]);
      PlainBalanced(ws[i]);
    }
    BracketBalanced(ws);
    JoinBalanced(texts, ",");
    Squares(Join(texts, ","));
    var decls := WeightedSumDecls(Bracket(ws), elemType, Square(Join(texts, ",")));
    WeightedSumDeclsBalanced(Bracket(ws), elemType, Square(Join(texts, ",")));
    Braces(decls);
    var range := "i in 1.." + NatToString(|texts|);
    TailPiecesPlain(|texts|);
    PlainBalanced(range);
    Parens(range);
    ProductBalanced();
    Parens("w" + Square("i") + "*v" + Square("i"));
    AlternatingBalanced("let ", Curly(decls), " in\n      sum", Paren(range), " ", Paren("w" + Square("i") + "*v" + Square("i")));
  }

  /** The layout of an `element`'s array declaration, with the literal
      pieces as parameters. */
  lemma ElementDeclLayoutBalanced(a: string, sq: string, b: string, t: string, c: string, arr: string, d: string)
    requires Plain(a) && Plain(b) && Plain(t) && Plain(c) && Plain(d)
    requires Balanced(sq) && Balanced(arr)
    ensures Balanced(a + sq + b + t + c + arr + d)
  {
    PlainThen(a, sq);
    PlainConcat(b, t);
    PlainConcat(b + t, c);
    ThenPlain(a + sq, b + t + c);
    assert a + sq + (b + t + c) == a + sq + b + t + c;
    BalancedConcat(a + sq + b + t + c, arr);
    ThenPlain(a + sq + b + t + c + arr, d);
  }

  lemma ElementPiecesPlain()
    ensures Plain(" array") && Plain(" of var ") && Plain(": arr=") && Plain(" ")
    ensures Plain("\n    let ") && Plain(" in\n      arr") && Plain(" = ")
  {
  }

  lemma ElementBalanced(elemType: string, arr: string, idx: string, value: string)
    requires Plain(elemType) && Balanced(arr) && Balanced(idx) && Balanced(value)
    ensures Balanced(ElementText(elemType, arr, idx, value))
  {
    SquareOfPlain("int");
    ElementPiecesPlain();
    var decl := " array" + Square("int") + " of var " + elemType + ": arr=" + arr + " ";
    ElementDeclLayoutBalanced(" array", Square("int"), " of var ", elemType, ": arr=", arr, " ");
    Braces(decl);
    Squares(idx);
    AlternatingBalanced("\n    let ", Curly(decl), " in\n      arr", Square(idx), " = ", value);
  }

  lemma ArrayTypePlain(es: seq<Expr>)
    ensures Plain(ArrayType(es))
  {
  }

  lemma IndexBalanced(index: Expr, t: string, h: Hierarchy)
    requires Balanced(t)
    ensures Balanced(IndexText(index, t, h))
  {
    if ZeroBasedIndex(index, h) {
      ThenPlain(t, "+1");
    }
  }

  lemma InfixBalanced(l: string, name: string, r: string)
    requires Balanced(l) && Plain(name) && Balanced(r)
    ensures Balanced(l + " " + name + " " + r)
  {
    PlainConcat(" ", name);
    PlainConcat(" " + name, " ");
    ThenPlain(l, " " + name + " ");
    assert l + (" " + name + " ") == l + " " + name + " ";
    BalancedConcat(l + " " + name + " ", r);
  }

  lemma CallBalanced(name: string, args: string)
    requires Plain(name) && Balanced(args)
    ensures Balanced(name + Paren(args))
  {
    Parens(args);
    PlainThen(name, Paren(args));
  }

  lemma ConnectivesPlain(name: string)
    requires Plain(name)
    ensures Plain(BinaryName(name)) && Plain(NaryName(name))
  {
  }

  /** Every printed expression is bracket-balanced, provided the operator
      and constraint names it carries contain no brackets. */
  lemma {:induction false} ConvertBalanced(e: Expr, h: Hierarchy)
    requires NamesPlain(e) && Convert(e, h).Success?
    ensures Balanced(Convert(e, h).value)
    decreases e, 1
  {
    var r := Convert(e, h).value;
    match e
    case BoolVar(id) =>
      NumeralPlain(id);
      PlainConcat("BV", NatToString(id));
      PlainBalanced(r);
    case IntVar(id, _, _) =>
      NumeralPlain(id);
      PlainConcat("IV", NatToString(id));
      PlainBalanced(r);
    case IntConst(v) =>
      IntegerPlain(v);
      PlainBalanced(r);
    case BoolConst(_) =>
      PlainBalanced(r);
    case MathOp(_, _, _) => InfixExprBalanced(e, h);
    case Comparison(_, _, _) => InfixExprBalanced(e, h);
    case _ => CompoundBalanced(e, h);
  }

  /** The cases that print their operands' list. */
  lemma CompoundBalanced(e: Expr, h: Hierarchy)
    requires e.Sum? || e.WeightedSum? || e.Array? || e.BoolOp? || e.Global?
    requires NamesPlain(e) && Convert(e, h).Success?
    ensures Balanced(Convert(e, h).value)
    decreases e, 0
  {
    ConvertAllBalanced(e.elems, h);
    match e
    case Sum(_) => CollectionBalanced(e, h);
    case WeightedSum(_, _) => CollectionBalanced(e, h);
    case Array(_) => CollectionBalanced(e, h);
    case BoolOp(name, es) => BoolOpBalanced(name, ConvertAll(es, h).value);
    case Global(name, es) => GlobalBalanced(name, es, h);
  }

  lemma CollectionBalanced(e: Expr, h: Hierarchy)
    requires e.Sum? || e.WeightedSum? || e.Array?
    requires Convert(e, h).Success?
    requires forall i :: 0 <= i < |e.elems| ==> Balanced(ConvertAll(e.elems, h).value[i])
    ensures Balanced(Convert(e, h).value)
  {
    var ts := ConvertAll(e.elems, h).value;
    match e
    case Sum(es) =>
      BracketBalanced(ts);
      CallBalanced("sum", Bracket(ts));
    case WeightedSum(ws, es) =>
      ArrayTypePlain(es);
      WeightedSumBalanced(ws, ArrayType(es), ts);
    case Array(es) =>
      BracketBalanced(ts);
  }

  lemma GlobalBalanced(name: string, es: seq<Expr>, h: Hierarchy)
    requires Plain(name) && Convert(Global(name, es), h).Success?
    requires forall i :: 0 <= i < |es| ==> Balanced(ConvertAll(es, h).value[i])
    ensures Balanced(Convert(Global(name, es), h).value)
  {
    var ts := ConvertAll(es, h).value;
    if name == "element" {
      ArrayTypePlain(es[0].elems);
      IndexBalanced(es[1], ts[1], h);
      ElementBalanced(ArrayType(es[0].elems), ts[0], IndexText(es[1], ts[1], h), ts[2]);
    } else {
      JoinBalanced(ts, ", ");
      CallBalanced(name, Join(ts, ", "));
    }
  }

  lemma InfixExprBalanced(e: Expr, h: Hierarchy)
    requires e.MathOp? || e.Comparison?
    requires NamesPlain(e) && Convert(e, h).Success?
    ensures Balanced(Convert(e, h).value)
    decreases e, 0
  {
    var lt := Convert(e.left, h).value;
    var rt := Convert(e.right, h).value;
    ConvertBalanced(e.left, h);
    ConvertBalanced(e.right, h);
    OperandBalanced(e.left, lt);
    OperandBalanced(e.right, rt);
    InfixBalanced(Operand(e.left, lt), e.name, Operand(e.right, rt));
  }

  lemma BoolOpBalanced(name: string, ts: seq<string>)
    requires Plain(name)
    requires forall i :: 0 <= i < |ts| ==> Balanced(ts[i])
    ensures Balanced(BoolOpText(name, ts))
  {
    ConnectivesPlain(name);
    if |ts| == 2 {
      InfixBalanced(ts[0], BinaryName(name), ts[1]);
    } else {
      BracketBalanced(ts);
      CallBalanced(NaryName(name), Bracket(ts));
    }
  }

  lemma {:induction false} ConvertAllBalanced(es: seq<Expr>, h: Hierarchy)
    requires forall i :: 0 <= i < |es| ==> NamesPlain(es[i])
    requires ConvertAll(es, h).Success?
    ensures forall i :: 0 <= i < |es| ==> Balanced(ConvertAll(es, h).value[i])
    decreases es, 0
  {
    forall i | 0 <= i < |es| ensures Balanced(ConvertAll(es, h).value[i]) {
      ConvertBalanced(es[i], h);
    }
  }

  // ---------------------------------------------------------------------
  // The whole text model is balanced

  lemma LowerPlain(s: string)
    requires Plain(s)
    ensures Plain(Lower(s))
  {
  }

  lemma BoolLinePlain(id: nat)
    ensures Plain("var bool: BV" + NatToString(id) + ";\n")
  {
    NumeralPlain(id);
    PlainConcat("var bool: BV", NatToString(id));
    PlainConcat("var bool: BV" + NatToString(id), ";\n");
  }

  lemma IntLinePlain(lb: int, ub: int, id: nat)
    ensures Plain("var " + IntToString(lb) + ".." + IntToString(ub) + ": IV" + NatToString(id) + ";\n")
  {
    var lo := IntToString(lb);
    var hi := IntToString(ub);
    IntegerPlain(lb);
    IntegerPlain(ub);
    NumeralPlain(id);
    PlainConcat("var ", lo);
    PlainConcat("var " + lo, "..");
    PlainConcat("var " + lo + "..", hi);
    PlainConcat("var " + lo + ".." + hi, ": IV");
    PlainConcat("var " + lo + ".." + hi + ": IV", NatToString(id));
    PlainConcat("var " + lo + ".." + hi + ": IV" + NatToString(id), ";\n");
  }

  lemma DeclarationPlain(v: Expr, h: Hierarchy)
    ensures Plain(Declaration(v, h))
  {
    var b := if v.BoolVar? then "var bool: BV" + NatToString(v.id) + ";\n" else "";
    var i := if IsIntVar(v, h) then
        "var " + IntToString(LowerBound(v, h)) + ".." + IntToString(UpperBound(v, h))
        + ": IV" + NatToString(v.id) + ";\n"
      else "";
    if v.BoolVar? {
      BoolLinePlain(v.id);
    }
    if IsIntVar(v, h) {
      IntLinePlain(LowerBound(v, h), UpperBound(v, h), v.id);
    }
    PlainConcat(b, i);
  }

  lemma {:induction false} DeclarationsPlain(vars: seq<Expr>, h: Hierarchy)
    ensures Plain(Declarations(vars, h))
    decreases |vars|
  {
    var ds := seq(|vars|, i requires 0 <= i < |vars| => Declaration(vars[i], h));
    if vars != [] {
      DeclarationsPlain(vars[1..], h);
      DeclarationPlain(vars[0], h);
      assert ds[1..] == seq(|vars[1..]|, i requires 0 <= i < |vars[1..]| => Declaration(vars[1..][i], h));
      PlainConcat(Declaration(vars[0], h), Declarations(vars[1..], h));
    }
  }

  lemma HeaderPlain()
    ensures Plain(Header)
  {
  }

  lemma ItemBalanced(t: string)
    requires Balanced(t)
    ensures Balanced(ConstraintItem(t))
  {
    PlainThen("constraint ", t);
    ThenPlain("constraint " + t, ";\n");
  }

  lemma {:induction false} ItemsBalanced(ts: seq<string>)
    requires forall i :: 0 <= i < |ts| ==> Balanced(ts[i])
    ensures Balanced(ConstraintItems(ts))
    decreases |ts|
  {
    if ts == [] {
      PlainBalanced("");
    } else {
      ItemsBalanced(ts[1..]);
      ItemBalanced(ts[0]);
      ConstraintItemsCons(ts);
      BalancedConcat(ConstraintItem(ts[0]), ConstraintItems(ts[1..]));
    }
  }

  lemma ConstraintsBalanced(cons: Option<Expr>, h: Hierarchy)
    requires cons.Some? ==> NamesPlain(cons.value)
    requires ConvertConstraints(cons, h).Success?
    ensures Balanced(ConvertConstraints(cons, h).value)
  {
    if cons.None? {
      PlainBalanced("");
    } else {
      var cs := Conjuncts(cons.value);
      ConvertAllBalanced(cs, h);
      var ts := ConvertAll(cs, h).value;
      ItemsBalanced(ts);
      ThenPlain(ConstraintItems(ts), "\n");
    }
  }

  lemma ObjectiveBalanced(obj: Option<ObjectiveSlot>, h: Hierarchy)
    requires obj.Some? ==> NamesPlain(obj.value.expr) && (obj.value.Objective? ==> Plain(obj.value.name))
    requires ConvertObjective(obj, h).Success?
    ensures Balanced(ConvertObjective(obj, h).value)
  {
    if obj.None? {
      PlainBalanced("solve satisfy;");
    } else {
      var name := obj.value.name;
      var t := Convert(obj.value.expr, h).value;
      ConvertBalanced(obj.value.expr, h);
      LowerPlain(name);
      PlainConcat("solve ", Lower(name));
      PlainConcat("solve " + Lower(name), " ");
      PlainThen("solve " + Lower(name) + " ", t);
      ThenPlain("solve " + Lower(name) + " " + t, ";");
    }
  }

  /** The operator, constraint and objective names of a model contain no
      brackets. */
  predicate ModelNamesPlain(m: TextModel) {
    && (m.constraints.Some? ==> NamesPlain(m.constraints.value))
    && (m.objective.Some? ==> NamesPlain(m.objective.value.expr))
    && (m.objective.Some? && m.objective.value.Objective? ==> Plain(m.objective.value.name))
  }

  /** Every bracket in a generated MiniZinc model is closed by its partner. */
  lemma ModelBalanced(vars: seq<Expr>, m: TextModel, h: Hierarchy)
    requires ModelNamesPlain(m)
    requires ConvertModel(vars, m, h).Success?
    ensures Balanced(ConvertModel(vars, m, h).value)
  {
    var cons := ConvertConstraints(m.constraints, h).value;
    var obj := ConvertObjective(m.objective, h).value;
    HeaderPlain();
    DeclarationsPlain(vars, h);
    PlainConcat(Header, Declarations(vars, h));
    PlainConcat(Header + Declarations(vars, h), "\n");
    ConstraintsBalanced(m.constraints, h);
    ObjectiveBalanced(m.objective, h);
    PlainThen(Header + Declarations(vars, h) + "\n", cons);
    BalancedConcat(Header + Declarations(vars, h) + "\n" + cons, obj);
  }
}
