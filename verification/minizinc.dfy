/** The MiniZinc text serialiser of cppy/solver_interfaces/minizinc_text.py:
    a recursive printer from a closed expression datatype to MiniZinc
    concrete syntax, plus the declaration header, the constraint block and
    the solve item. Errors Python would raise become `Failure` values. */
module MiniZinc {
  import opened Results
  import opened Text

  datatype Expr =
    | BoolVar(id: nat)
    | IntVar(id: nat, lb: int, ub: int)
    | IntConst(value: int)
    | BoolConst(truth: bool)
      /** A binary `MathOperator`; `name` is its infix symbol. */
    | MathOp(name: string, left: Expr, right: Expr)
    | Comparison(name: string, left: Expr, right: Expr)
    | Sum(elems: seq<Expr>)
    | WeightedSum(weights: seq<int>, elems: seq<Expr>)
    | BoolOp(name: string, elems: seq<Expr>)
    | Global(name: string, elems: seq<Expr>)
      /** A one-dimensional array of expressions. */
    | Array(elems: seq<Expr>)

  /** The model's objective slot: an `Objective` or any other value. */
  datatype ObjectiveSlot = Objective(name: string, expr: Expr) | NotObjective(expr: Expr)

  /** What `convert` reads from a model. */
  datatype TextModel = TextModel(constraints: Option<Expr>, objective: Option<ObjectiveSlot>)

  datatype ConvertError =
      /** an `element` constraint whose first argument is not an array, or
          that has fewer than three arguments (a Python crash) */
    | MalformedElement
      /** "Only single objective supported by minizinc_text" */
    | UnsupportedObjective

  /** The part of the class hierarchy the printer tests that the source does
      not show: whether a boolean variable is also an `IntVarImpl`. */
  datatype Hierarchy = Hierarchy(boolVarIsIntVar: bool)

  predicate IsIntVar(e: Expr, h: Hierarchy) {
    e.IntVar? || (e.BoolVar? && h.boolVarIsIntVar)
  }

  function LowerBound(e: Expr, h: Hierarchy): int
    requires IsIntVar(e, h)
  {
    if e.IntVar? then e.lb else 0
  }

  function UpperBound(e: Expr, h: Hierarchy): int
    requires IsIntVar(e, h)
  {
    if e.IntVar? then e.ub else 1
  }

  /** An `element` index that MiniZinc's 1-based arrays need shifted. */
  predicate ZeroBasedIndex(e: Expr, h: Hierarchy) {
    IsIntVar(e, h) && LowerBound(e, h) == 0
  }

  /** A logical (Boolean-valued) expression. */
  predicate IsLogical(e: Expr) {
    e.BoolVar? || e.Comparison? || e.BoolOp? || e.Global?
  }

  predicate IsMathOrComparison(e: Expr) {
    e.MathOp? || e.Comparison?
  }

  /** Every `element` constraint inside `e` has an array as first argument
      and at least three arguments. */
  predicate ElementsWellFormed(e: Expr) {
    match e
    case MathOp(_, l, r) => ElementsWellFormed(l) && ElementsWellFormed(r)
    case Comparison(_, l, r) => ElementsWellFormed(l) && ElementsWellFormed(r)
    case Sum(es) => forall i :: 0 <= i < |es| ==> ElementsWellFormed(es[i])
    case WeightedSum(_, es) => forall i :: 0 <= i < |es| ==> ElementsWellFormed(es[i])
    case BoolOp(_, es) => forall i :: 0 <= i < |es| ==> ElementsWellFormed(es[i])
    case Array(es) => forall i :: 0 <= i < |es| ==> ElementsWellFormed(es[i])
    case Global(name, es) =>
      && (forall i :: 0 <= i < |es| ==> ElementsWellFormed(es[i]))
      && (name == "element" ==> |es| >= 3 && es[0].Array?)
    case _ => true
  }

  // ---------------------------------------------------------------------
  // Pieces of the printed text

  /** How a variable prints. */
  function VarName(e: Expr): string
    requires e.BoolVar? || e.IntVar?
  {
    if e.BoolVar? then "BV" + NatToString(e.id) else "IV" + NatToString(e.id)
  }

  /** The infix connective of a two-operand boolean operator. */
  function BinaryName(name: string): (r: string)
    ensures name == "and" ==> r == "/\\"
    ensures name == "or" ==> r == "\\/"
    ensures name != "and" && name != "or" ==> r == name
  {
    if name == "and" then "/\\" else if name == "or" then "\\/" else name
  }

  /** The aggregate of a boolean operator of any other arity. */
  function NaryName(name: string): (r: string)
    ensures name == "and" ==> r == "forall"
    ensures name == "or" ==> r == "exists"
    ensures name == "xor" ==> r == "xorall"
    ensures name != "and" && name != "or" && name != "xor" ==> r == name
  {
    if name == "and" then "forall" else if name == "xor" then "xorall" else if name == "or" then "exists" else name
  }

  /** An operand of an infix arithmetic operator or comparison. */
  function Operand(child: Expr, text: string): (r: string)
    ensures IsMathOrComparison(child) ==> r == Paren(text)
    ensures !IsMathOrComparison(child) ==> r == text
  {
    if IsMathOrComparison(child) then Paren(text) else text
  }

  /** The array element type: `bool` exactly when every element is logical. */
  function ArrayType(es: seq<Expr>): (r: string)
    ensures r == "bool" <==> forall i :: 0 <= i < |es| ==> IsLogical(es[i])
    ensures r == "int" <==> exists i :: 0 <= i < |es| && !IsLogical(es[i])
  {
    if forall i :: 0 <= i < |es| ==> IsLogical(es[i]) then "bool" else "int"
  }

  /** The index of an `element`, shifted for MiniZinc. */
  function IndexText(index: Expr, text: string, h: Hierarchy): string {
    if ZeroBasedIndex(index, h) then text + "+1" else text
  }

  /** An `element` constraint: a `let` block declaring the array with
      element type `elemType`, then the equation on the indexed entry. */
  function ElementText(elemType: string, arr: string, idx: string, value: string): string {
    "\n    let " + Curly(" array" + Square("int") + " of var " + elemType + ": arr=" + arr + " ")
    + " in\n      arr" + Square(idx) + " = " + value
  }

  /** A `let` block declaring the weights `w` and the operands
      `v`, then `sum(i in 1..n) (w[i]*v[i])`. */
  function WeightedSumText(weights: seq<int>, elemType: string, texts: seq<string>): string {
    "let " + Curly(WeightedSumDecls(Bracket(IntStrings(weights)), elemType, Square(Join(texts, ","))))
    + " in\n      sum" + Paren("i in 1.." + NatToString(|texts|)) + " " + Paren("w" + Square("i") + "*v" + Square("i"))
  }

  /** The two array declarations inside a weighted sum's `let { ... }`. */
  function WeightedSumDecls(w: string, elemType: string, v: string): string {
    "\n      array" + Square("int") + " of int: w=" + w
    + ",\n      array" + Square("int") + " of var " + elemType + ": v=" + v + "\n    "
  }

  function IntStrings(ws: seq<int>): (r: seq<string>)
    ensures |r| == |ws|
  {
    seq(|ws|, i requires 0 <= i < |ws| => IntToString(ws[i]))
  }

  function BoolOpText(name: string, texts: seq<string>): string {
    if |texts| == 2 then texts[0] + " " + BinaryName(name) + " " + texts[1]
    else NaryName(name) + Paren(Bracket(texts))
  }

  // ---------------------------------------------------------------------
  // Expressions

  function Convert(e: Expr, h: Hierarchy): (r: Result<string, ConvertError>)
    ensures r.Success? <==> ElementsWellFormed(e)
    ensures r.Failure? ==> r.error == MalformedElement
    decreases e, 1
  {
    if e.Array? then
      var ts :- ConvertAll(e.elems, h);
      Success(Bracket(ts))
    else if e.BoolVar? || e.IntVar? then
      Success(VarName(e))
    else if e.MathOp? || e.Comparison? then
      var lt :- Convert(e.left, h);
      var rt :- Convert(e.right, h);
      Success(Operand(e.left, lt) + " " + e.name + " " + Operand(e.right, rt))
    else if e.WeightedSum? then
      var ts :- ConvertAll(e.elems, h);
      Success(WeightedSumText(e.weights, ArrayType(e.elems), ts))
    else if e.Sum? then
      var ts :- ConvertAll(e.elems, h);
      Success("sum" + Paren(Bracket(ts)))
    else if e.BoolOp? then
      var ts :- ConvertAll(e.elems, h);
      Success(BoolOpText(e.name, ts))
    else if e.Global? then
      var ts :- ConvertAll(e.elems, h);
      if e.name == "element" then
        if |e.elems| >= 3 && e.elems[0].Array? then
          Success(ElementText(ArrayType(e.elems[0].elems), ts[0], IndexText(e.elems[1], ts[1], h), ts[2]))
        else Failure(MalformedElement)
      else Success(e.name + Paren(Join(ts, ", ")))
    else if e.IntConst? then
      Success(IntToString(e.value))
    else
      Success(if e.truth then "True" else "False")
  }

  /** Every element converted, in order; the first failure wins. */
  function ConvertAll(es: seq<Expr>, h: Hierarchy): (r: Result<seq<string>, ConvertError>)
    ensures r.Success? <==> forall i :: 0 <= i < |es| ==> Convert(es[i], h).Success?
    ensures r.Success? ==> |r.value| == |es|
    ensures r.Success? ==> forall i :: 0 <= i < |es| ==> r.value[i] == Convert(es[i], h).value
    ensures r.Failure? ==> r.error == MalformedElement
    decreases es, 0
  {
    if es == [] then Success([])
    else
      var t :- Convert(es[0], h);
      var ts :- ConvertAll(es[1..], h);
      Success([t] + ts)
  }

  // ---------------------------------------------------------------------
  // The constraint block

  predicate IsConjunction(c: Expr) {
    c.BoolOp? && c.name == "and"
  }

  /** The top-level grouping: a conjunction is split into its conjuncts. */
  function Conjuncts(c: Expr): seq<Expr> {
    if IsConjunction(c) then c.elems else [c]
  }

  function ConstraintItem(text: string): string {
    "constraint " + text + ";\n"
  }

  function ConstraintItems(texts: seq<string>): string {
    Concat(seq(|texts|, i requires 0 <= i < |texts| => ConstraintItem(texts[i])))
  }

  lemma ConstraintItemsCons(ts: seq<string>)
    requires ts != []
    ensures ConstraintItems(ts) == ConstraintItem(ts[0]) + ConstraintItems(ts[1..])
  {
    var items := seq(|ts|, i requires 0 <= i < |ts| => ConstraintItem(ts[i]));
    assert items[1..] == seq(|ts[1..]|, i requires 0 <= i < |ts[1..]| => ConstraintItem(ts[1..][i]));
  }

  function ConvertConstraints(cons: Option<Expr>, h: Hierarchy): (r: Result<string, ConvertError>)
    ensures cons.None? ==> r == Success("")
    ensures cons.Some? ==>
      (r.Success? <==> forall i :: 0 <= i < |Conjuncts(cons.value)| ==> ElementsWellFormed(Conjuncts(cons.value)[i]))
    ensures r.Failure? ==> r.error == MalformedElement
    ensures r.Success? && cons.Some? ==> EndsWith(r.value, "\n")
  {
    match cons
    case None => Success("")
    case Some(c) =>
      var ts :- ConvertAll(Conjuncts(c), h);
      var out := ConstraintItems(ts) + "\n";
      assert out[|out| - 1..] == "\n";
      Success(out)
  }

  // ---------------------------------------------------------------------
  // The solve item

  function ConvertObjective(obj: Option<ObjectiveSlot>, h: Hierarchy): (r: Result<string, ConvertError>)
    ensures obj.None? ==> r == Success("solve satisfy;")
    ensures obj.Some? && obj.value.NotObjective? ==> r == Failure(UnsupportedObjective)
    ensures obj.Some? && obj.value.Objective? ==>
      (r.Success? <==> Convert(obj.value.expr, h).Success?)
      && (r.Success? <==> ElementsWellFormed(obj.value.expr))
    ensures obj.Some? && obj.value.Objective? && r.Success? ==>
      r.value == "solve " + Lower(obj.value.name) + " " + Convert(obj.value.expr, h).value + ";"
    ensures obj.Some? && r.Success? ==>
      StartsWith(r.value, "solve " + Lower(obj.value.name) + " ") && EndsWith(r.value, ";")
  {
    match obj
    case None => Success("solve satisfy;")
    case Some(NotObjective(_)) => Failure(UnsupportedObjective)
    case Some(Objective(name, e)) =>
      var t :- Convert(e, h);
      var out := "solve " + Lower(name) + " " + t + ";";
      assert out[..|"solve " + Lower(name) + " "|] == "solve " + Lower(name) + " ";
      assert out[|out| - 1..] == ";";
      Success(out)
  }

  // ---------------------------------------------------------------------
  // The whole model

  const Header: string := "% Generated by CPpy\ninclude \"globals.mzn\";\n\n"

  /** Two independent tests, so a variable that is both a
      boolean and an integer variable gets two declarations. */
  function Declaration(v: Expr, h: Hierarchy): string {
    (if v.BoolVar? then "var bool: BV" + NatToString(v.id) + ";\n" else "")
    + (if IsIntVar(v, h) then
         "var " + IntToString(LowerBound(v, h)) + ".." + IntToString(UpperBound(v, h))
         + ": IV" + NatToString(v.id) + ";\n"
       else "")
  }

  function Declarations(vars: seq<Expr>, h: Hierarchy): string {
    Concat(seq(|vars|, i requires 0 <= i < |vars| => Declaration(vars[i], h)))
  }

  /** The whole text model for the variables `vars` (what `get_variables`
      returns) and the model `m`. */
  function ConvertModel(vars: seq<Expr>, m: TextModel, h: Hierarchy): (r: Result<string, ConvertError>)
    ensures r.Success? <==>
      ConvertConstraints(m.constraints, h).Success? && ConvertObjective(m.objective, h).Success?
    ensures r.Failure? && ConvertConstraints(m.constraints, h).Success? ==>
      r.error == ConvertObjective(m.objective, h).error
    ensures r.Failure? && ConvertConstraints(m.constraints, h).Failure? ==>
      r.error == ConvertConstraints(m.constraints, h).error
    ensures r.Success? ==>
      r.value == Header + Declarations(vars, h) + "\n"
                 + ConvertConstraints(m.constraints, h).value + ConvertObjective(m.objective, h).value
    ensures r.Success? ==>
      && StartsWith(r.value, Header + Declarations(vars, h) + "\n")
      && EndsWith(r.value, ConvertObjective(m.objective, h).value)
  {
    var cons :- ConvertConstraints(m.constraints, h);
    var obj :- ConvertObjective(m.objective, h);
    var head := Header + Declarations(vars, h) + "\n";
    var out := head + cons + obj;
    assert out[..|head|] == head;
    assert out[|out| - |obj|..] == obj;
    Success(out)
  }
}
