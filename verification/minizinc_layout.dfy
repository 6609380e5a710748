/** The printed shape of each construct, stated against the flat format
    strings of the serialiser, and the item structure of the constraint
    block and the declaration header. */
module MiniZincLayout {
  import opened Results
  import opened Text
  import opened MiniZinc

  // ---------------------------------------------------------------------
  // Regrouping concatenations

  lemma RegroupElement(l0: string, o: string, l1: string, sq: string, l2: string, t: string, l3: string,
                       a: string, l4: string, c: string, l5: string, o2: string, i: string, c2: string,
                       l6: string, v: string)
    ensures l0 + (o + (l1 + sq + l2 + t + l3 + a + l4) + c) + l5 + (o2 + i + c2) + l6 + v
         == (l0 + o + l1 + sq + l2) + t + l3 + a + (l4 + c + l5 + o2) + i + (c2 + l6) + v
  {
  }

  /** `element` prints as a `let` array and an equation. */
  lemma ElementTextLayout(elemType: string, arr: string, idx: string, value: string)
    ensures ElementText(elemType, arr, idx, value)
      == "\n    let { array[int] of var " + elemType + ": arr=" + arr + " } in\n"
         + "      arr[" + idx + "] = " + value
  {
    RegroupElement("\n    let ", "{", " array", Square("int"), " of var ", elemType, ": arr=", arr, " ", "}",
                   " in\n      arr", "[", idx, "]", " = ", value);
    assert "\n    let " + "{" + " array" + Square("int") + " of var " == "\n    let { array[int] of var ";
    assert " " + "}" + " in\n      arr" + "[" == " } in\n" + "      arr[";
    assert "]" + " = " == "] = ";
    var x := "\n    let { array[int] of var " + elemType + ": arr=" + arr;
    assert x + " } in\n" + "      arr[" == x + (" } in\n" + "      arr[");
  }

  lemma RegroupDecls(a: string, sq: string, b: string, w: string, c: string, d: string,
                     t: string, e: string, v: string, f: string)
    ensures a + sq + b + w + c + sq + d + t + e + v + f == (a + sq + b) + w + (c + sq + d) + t + e + v + f
  {
  }

  lemma RegroupWeightedSum(l0: string, o: string, a: string, w: string, b: string, t: string, e: string,
                           o2: string, j: string, c2: string, f: string, c: string, s: string, o3: string,
                           r: string, n: string, c3: string, sp: string, p: string)
    ensures l0 + (o + (a + w + b + t + e + (o2 + j + c2) + f) + c) + s + (o3 + (r + n) + c3) + sp + p
         == (l0 + o + a) + w + b + t + (e + o2) + j + (c2 + f + c + s + o3 + r) + n + (c3 + sp + p)
  {
  }

  lemma WeightedSumDeclsLayout(w: string, elemType: string, v: string)
    ensures WeightedSumDecls(w, elemType, v)
      == "\n      array[int] of int: w=" + w + ",\n      array[int] of var " + elemType + ": v=" + v + "\n    "
  {
    RegroupDecls("\n      array", Square("int"), " of int: w=", w, ",\n      array", " of var ", elemType, ": v=", v, "\n    ");
    assert "\n      array" + Square("int") + " of int: w=" == "\n      array[int] of int: w=";
    assert ",\n      array" + Square("int") + " of var " == ",\n      array[int] of var ";
  }

  lemma WeightedSumHead()
    ensures "let " + "{" + "\n      array[int] of int: w=" == "let {\n      array[int] of int: w="
  {
  }

  lemma WeightedSumOperands()
    ensures ": v=" + "[" == ": v=["
  {
  }

  lemma WeightedSumRange()
    ensures "]" + "\n    " + "}" + " in\n      sum" + "(" + "i in 1.." == "]\n    } in\n" + "      sum(i in 1.."
  {
  }

  lemma WeightedSumProduct()
    ensures ")" + " " + Paren("w" + Square("i") + "*v" + Square("i")) == ") (w[i]*v[i])"
  {
  }

  lemma WeightedSumShell(w: string, elemType: string, j: string, n: string)
    ensures "let " + Curly(WeightedSumDecls(w, elemType, Square(j))) + " in\n      sum" + Paren("i in 1.." + n)
            + " " + Paren("w" + Square("i") + "*v" + Square("i"))
         == "let {\n      array[int] of int: w=" + w + ",\n      array[int] of var " + elemType + ": v=[" + j
            + "]\n    } in\n" + "      sum(i in 1.." + n + ") (w[i]*v[i])"
  {
    var a := "\n      array[int] of int: w=";
    var b := ",\n      array[int] of var ";
    WeightedSumDeclsLayout(w, elemType, Square(j));
    var p := Paren("w" + Square("i") + "*v" + Square("i"));
    RegroupWeightedSum("let ", "{", a, w, b, elemType, ": v=", "[", j, "]", "\n    ", "}", " in\n      sum", "(",
                       "i in 1..", n, ")", " ", p);
    WeightedSumHead();
    WeightedSumOperands();
    WeightedSumRange();
    WeightedSumProduct();
    var x := "let {\n      array[int] of int: w=" + w + ",\n      array[int] of var " + elemType + ": v=[" + j;
    assert x + "]\n    } in\n" + "      sum(i in 1.." == x + ("]\n    } in\n" + "      sum(i in 1..");
  }

  /** A weighted sum prints as a `let` block declaring the
      weights and the operands, then `sum(i in 1..n) (w[i]*v[i])`. */
  lemma WeightedSumTextLayout(weights: seq<int>, elemType: string, texts: seq<string>)
    ensures WeightedSumText(weights, elemType, texts)
      == "let {\n      array[int] of int: w=" + Bracket(IntStrings(weights))
         + ",\n      array[int] of var " + elemType + ": v=[" + Join(texts, ",") + "]\n    } in\n"
         + "      sum(i in 1.." + NatToString(|texts|) + ") (w[i]*v[i])"
  {
    WeightedSumShell(Bracket(IntStrings(weights)), elemType, Join(texts, ","), NatToString(|texts|));
  }

  // ---------------------------------------------------------------------
  // The other constructs, against their format strings

  /** `L op R`, with a child in parentheses exactly when it is
      itself an arithmetic operator or a comparison. */
  lemma InfixLayout(e: Expr, h: Hierarchy)
    requires e.MathOp? || e.Comparison?
    requires Convert(e, h).Success?
    ensures var lt := Convert(e.left, h).value;
            var rt := Convert(e.right, h).value;
            var l := if IsMathOrComparison(e.left) then "(" + lt + ")" else lt;
            var r := if IsMathOrComparison(e.right) then "(" + rt + ")" else rt;
            Convert(e, h).value == l + " " + e.name + " " + r
  {
  }

  /** `sum(...)` around the printed operand list. */
  lemma SumLayout(es: seq<Expr>, h: Hierarchy)
    requires Convert(Sum(es), h).Success?
    ensures Convert(Sum(es), h).value == "sum(" + Bracket(ConvertAll(es, h).value) + ")"
  {
  }

  lemma Regroup5(a: string, b: string, c: string, d: string, e: string)
    ensures a + b + c + d + e == a + (b + c + d) + e
  {
  }

  lemma CallText(f: string, args: string)
    ensures f + Paren(args) == f + "(" + args + ")"
  {
  }

  /** Two operands print infix, with `/\` for `and`, `\/` for
      `or` and any other operator under its own name. */
  lemma BinaryBoolOpLayout(name: string, es: seq<Expr>, h: Hierarchy)
    requires |es| == 2 && Convert(BoolOp(name, es), h).Success?
    ensures var ts := ConvertAll(es, h).value;
            var r := Convert(BoolOp(name, es), h).value;
            && (name == "and" ==> r == ts[0] + " /\\ " + ts[1])
            && (name == "or" ==> r == ts[0] + " \\/ " + ts[1])
            && (name != "and" && name != "or" ==> r == ts[0] + " " + name + " " + ts[1])
  {
    var ts := ConvertAll(es, h).value;
    Regroup5(ts[0], " ", BinaryName(name), " ", ts[1]);
    if name == "and" {
      assert " " + "/\\" + " " == " /\\ ";
    } else if name == "or" {
      assert " " + "\\/" + " " == " \\/ ";
    }
  }

  /** Any other operand count prints as a call of `forall`,
      `exists`, `xorall` or the operator's own name on the operand list. */
  lemma NaryBoolOpLayout(name: string, es: seq<Expr>, h: Hierarchy)
    requires |es| != 2 && Convert(BoolOp(name, es), h).Success?
    ensures var b := Bracket(ConvertAll(es, h).value);
            var r := Convert(BoolOp(name, es), h).value;
            && (name == "and" ==> r == "forall(" + b + ")")
            && (name == "or" ==> r == "exists(" + b + ")")
            && (name == "xor" ==> r == "xorall(" + b + ")")
            && (name != "and" && name != "or" && name != "xor" ==> r == name + "(" + b + ")")
  {
    var b := Bracket(ConvertAll(es, h).value);
    CallText(NaryName(name), b);
    if name == "and" {
      assert "forall" + "(" == "forall(";
    } else if name == "or" {
      assert "exists" + "(" == "exists(";
    } else if name == "xor" {
      assert "xorall" + "(" == "xorall(";
    }
  }

  /** Any global other than `element` prints as a call on
      its comma-separated arguments. */
  lemma GlobalLayout(name: string, es: seq<Expr>, h: Hierarchy)
    requires name != "element"
    requires Convert(Global(name, es), h).Success?
    ensures Convert(Global(name, es), h).value == name + "(" + Join(ConvertAll(es, h).value, ", ") + ")"
  {
  }

  // ---------------------------------------------------------------------
  // The constraint block

  /** One `constraint ...;` line per expression, in order. */
  function ItemsOf(es: seq<Expr>, h: Hierarchy): string
    requires forall i :: 0 <= i < |es| ==> ElementsWellFormed(es[i])
  {
    if es == [] then "" else "constraint " + Convert(es[0], h).value + ";\n" + ItemsOf(es[1..], h)
  }

  lemma {:induction false} ItemsOfConverted(es: seq<Expr>, h: Hierarchy)
    requires forall i :: 0 <= i < |es| ==> ElementsWellFormed(es[i])
    ensures ConstraintItems(ConvertAll(es, h).value) == ItemsOf(es, h)
    decreases |es|
  {
    var ts := ConvertAll(es, h).value;
    if es != [] {
      ItemsOfConverted(es[1..], h);
      ConstraintItemsCons(ts);
      assert ts[1..] == ConvertAll(es[1..], h).value;
    }
  }

  /** The block holds one item per conjunct of a top-level `and`, in order,
      and exactly one item for any other constraint; a blank line closes it. */
  lemma ConstraintsSplitConjunction(c: Expr, h: Hierarchy)
    requires ConvertConstraints(Some(c), h).Success?
    ensures IsConjunction(c) ==> ConvertConstraints(Some(c), h).value == ItemsOf(c.elems, h) + "\n"
    ensures !IsConjunction(c) ==>
      ConvertConstraints(Some(c), h).value == "constraint " + Convert(c, h).value + ";\n\n"
  {
    ItemsOfConverted(Conjuncts(c), h);
    if !IsConjunction(c) {
      ItemsOfOne(c, h);
    }
  }

  lemma ItemsOfOne(e: Expr, h: Hierarchy)
    requires ElementsWellFormed(e)
    ensures ItemsOf([e], h) == "constraint " + Convert(e, h).value + ";\n"
  {
    assert [e][1..] == [];
    assert ItemsOf([e], h) == "constraint " + Convert(e, h).value + ";\n" + "";
  }

  // ---------------------------------------------------------------------
  // The declaration header

  /** A boolean variable declares `BV<id>`, an integer
      variable declares `IV<id>` with its bounds, and one that is both
      declares both. */
  lemma DeclarationLayout(v: Expr, h: Hierarchy)
    ensures v.BoolVar? && !h.boolVarIsIntVar ==> Declaration(v, h) == "var bool: BV" + NatToString(v.id) + ";\n"
    ensures v.BoolVar? && h.boolVarIsIntVar ==>
      Declaration(v, h) == "var bool: BV" + NatToString(v.id) + ";\n" + "var 0..1: IV" + NatToString(v.id) + ";\n"
    ensures v.IntVar? ==>
      Declaration(v, h) == "var " + IntToString(v.lb) + ".." + IntToString(v.ub) + ": IV" + NatToString(v.id) + ";\n"
    ensures !v.BoolVar? && !v.IntVar? ==> Declaration(v, h) == ""
  {
    if v.BoolVar? && h.boolVarIsIntVar {
      assert IntToString(0) == "0" && IntToString(1) == "1";
    }
  }

  /** The header lists the variables' declarations in order. */
  lemma DeclarationsAppend(vars: seq<Expr>, v: Expr, h: Hierarchy)
    ensures Declarations(vars + [v], h) == Declarations(vars, h) + Declaration(v, h)
  {
    var ext := vars + [v];
    var ds := seq(|vars|, i requires 0 <= i < |vars| => Declaration(vars[i], h));
    var ds' := seq(|ext|, i requires 0 <= i < |ext| => Declaration(ext[i], h));
    assert ds' == ds + [Declaration(v, h)];
    ConcatAppend(ds, Declaration(v, h));
  }
}
