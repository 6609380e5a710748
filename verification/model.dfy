/** The `Model` container of cpmpy/model.py: an ordered list of constraints
    plus an optional objective with its direction. Expressions are abstract:
    all the container ever asks of one is whether it is an `Expression`,
    whether `is_bool()` holds of it, and whether it is an `NDVarArray`. Every
    operation returns a new model instead of mutating `self`. */
module CpModel {
  import opened Results
  import opened Text

  /** A value handed to the container. */
  datatype Expr =
      /** An `Expression` other than an array; `returnsBool` is `is_bool()`. */
    | Op(text: string, returnsBool: bool)
      /** A numpy array of variables: an `Expression` that is also a list. */
    | NDVarArray(elems: seq<Expr>)
      /** A plain Python value (for instance `True`), not an `Expression`. */
    | Value(text: string)

  /** One item of the constraint list: an expression or a Python list of them. */
  datatype Entry = Single(expr: Expr) | List(elems: seq<Expr>)

  datatype Model = Model(constraints: seq<Entry>, objective: Option<Expr>, isMin: Option<bool>)

  datatype Error =
      /** "constraints must be expressions that return a Boolean value" */
    | NonBooleanConstraint(culprit: Expr)
      /** "can not set both minimize and maximize" */
    | BothObjectives

  const Empty: Model := Model([], None, None)

  /** A stored objective always has a direction. A direction can outlive
      its objective: `minimize(None)` records the direction and no
      objective. */
  predicate WellFormed(m: Model) {
    m.objective.Some? ==> m.isMin.Some?
  }

  // ---------------------------------------------------------------------
  // Adding constraints

  /** A Python list or a numpy array. */
  predicate IsListLike(c: Entry) {
    c.List? || c.expr.NDVarArray?
  }

  function Items(c: Entry): seq<Expr>
    requires IsListLike(c)
  {
    if c.List? then c.elems else c.expr.elems
  }

  /** An `Expression` that does not return a Boolean. Arrays are exempt. */
  predicate NonBoolean(e: Expr) {
    e.Op? && !e.returnsBool
  }

  /** The expressions `__add__` type-checks: the items of a list, or the
      constraint itself. */
  function Checked(c: Entry): seq<Expr> {
    if IsListLike(c) then Items(c) else [c.expr]
  }

  predicate Accepted(c: Entry) {
    forall i :: 0 <= i < |Checked(c)| ==> !NonBoolean(Checked(c)[i])
  }

  predicate IsEmptyList(c: Entry) {
    IsListLike(c) && |Items(c)| == 0
  }

  /** The position of the first offending expression, if any. */
  function FirstNonBoolean(es: seq<Expr>): (r: Option<nat>)
    ensures r.Some? ==> r.value < |es| && NonBoolean(es[r.value])
    ensures r.Some? ==> forall j :: 0 <= j < r.value ==> !NonBoolean(es[j])
    ensures r.None? <==> forall j :: 0 <= j < |es| ==> !NonBoolean(es[j])
  {
    if es == [] then None
    else if NonBoolean(es[0]) then Some(0)
    else match FirstNonBoolean(es[1..])
      case None => None
      case Some(k) => Some(k + 1)
  }

  /** The entry `__add__` appends for a non-empty constraint: a one-element
      list is unpacked, anything else is kept as it is. */
  function Stored(c: Entry): Entry
    requires !IsEmptyList(c)
  {
    if IsListLike(c) && |Items(c)| == 1 then Single(Items(c)[0]) else c
  }

  /** Adding one constraint, or a list of them, to a model. */
  function Add(m: Model, c: Entry): (r: Result<Model, Error>)
    ensures r.Failure? <==> !Accepted(c)
    ensures r.Failure? ==> r.error.NonBooleanConstraint? && r.error.culprit in Checked(c) && NonBoolean(r.error.culprit)
    ensures r.Success? && IsEmptyList(c) ==> r.value == m
    ensures r.Success? && IsListLike(c) && |Items(c)| == 1 ==>
      r.value == m.(constraints := m.constraints + [Single(Items(c)[0])])
    ensures r.Success? && !(IsListLike(c) && |Items(c)| <= 1) ==>
      r.value == m.(constraints := m.constraints + [c])
  {
    match FirstNonBoolean(Checked(c))
    case Some(k) => Failure(NonBooleanConstraint(Checked(c)[k]))
    case None =>
      if IsEmptyList(c) then Success(m)
      else Success(m.(constraints := m.constraints + [Stored(c)]))
  }

  /** The entries a run of successful adds leaves behind, in order. */
  function StoredAll(cs: seq<Entry>): seq<Entry> {
    if cs == [] then []
    else (if IsEmptyList(cs[0]) then [] else [Stored(cs[0])]) + StoredAll(cs[1..])
  }

  /** Adding entries one at a time; the first rejected entry stops it. */
  function AddAll(m: Model, cs: seq<Entry>): (r: Result<Model, Error>)
    ensures r.Success? <==> forall i :: 0 <= i < |cs| ==> Accepted(cs[i])
    ensures r.Failure? ==> r.error.NonBooleanConstraint?
    ensures r.Success? ==>
      r.value == m.(constraints := m.constraints + StoredAll(cs))
    decreases |cs|
  {
    if cs == [] then Success(m)
    else
      var m1 :- Add(m, cs[0]);
      var r := AddAll(m1, cs[1..]);
      assert r.Success? ==> m1.constraints + StoredAll(cs[1..]) == m.constraints + StoredAll(cs);
      r
  }

  // ---------------------------------------------------------------------
  // Objective

  /** Records an objective and its direction; only the last call counts.
      The expression may be Python's `None`, which leaves the model without
      an objective but with a direction. */
  function SetObjective(m: Model, e: Option<Expr>, minimize: bool): (r: Model)
    ensures r.objective == e && r.isMin == Some(minimize)
    ensures r.constraints == m.constraints
    ensures WellFormed(r)
    ensures HasObjective(r) <==> e.Some?
  {
    m.(objective := e, isMin := Some(minimize))
  }

  function Minimize(m: Model, e: Option<Expr>): (r: Model)
    ensures r.objective == e && r.isMin == Some(true) && r.constraints == m.constraints
  {
    SetObjective(m, e, true)
  }

  function Maximize(m: Model, e: Option<Expr>): (r: Model)
    ensures r.objective == e && r.isMin == Some(false) && r.constraints == m.constraints
  {
    SetObjective(m, e, false)
  }

  predicate HasObjective(m: Model) {
    m.objective.Some?
  }

  /** A call of `minimize` or `maximize`. */
  datatype ObjectiveCall = MinimizeCall(e: Option<Expr>) | MaximizeCall(e: Option<Expr>)

  function Apply(m: Model, call: ObjectiveCall): Model {
    match call
    case MinimizeCall(e) => Minimize(m, e)
    case MaximizeCall(e) => Maximize(m, e)
  }

  function ApplyAll(m: Model, calls: seq<ObjectiveCall>): Model
    decreases |calls|
  {
    if calls == [] then m else ApplyAll(Apply(m, calls[0]), calls[1..])
  }

  /** "can be called multiple times, only the last one is stored". */
  lemma {:induction false} LastWriteWins(m: Model, calls: seq<ObjectiveCall>)
    requires |calls| > 0
    ensures ApplyAll(m, calls) == Apply(m, calls[|calls| - 1])
    decreases |calls|
  {
    if |calls| > 1 {
      LastWriteWins(Apply(m, calls[0]), calls[1..]);
    }
  }

  /** `has_objective()` after a run of setter calls reports whether the
      last call was given an expression rather than `None`. */
  lemma HasObjectiveAfterCalls(m: Model, calls: seq<ObjectiveCall>)
    requires |calls| > 0
    ensures HasObjective(ApplyAll(m, calls)) <==> calls[|calls| - 1].e.Some?
  {
    LastWriteWins(m, calls);
  }

  // ---------------------------------------------------------------------
  // Construction

  /** The constructor once its positional arguments have been reduced to
      the sequence it adds one by one. */
  function Construct(cs: seq<Entry>, minimize: Option<Expr>, maximize: Option<Expr>): (r: Result<Model, Error>)
    ensures r == Failure(BothObjectives) <==> minimize.Some? && maximize.Some?
    ensures !(minimize.Some? && maximize.Some?) ==>
      (r.Success? <==> forall i :: 0 <= i < |cs| ==> Accepted(cs[i]))
    ensures r.Success? ==> WellFormed(r.value) && r.value.constraints == StoredAll(cs)
    ensures r.Success? ==> r.value.objective == (if minimize.Some? then minimize else maximize)
    ensures r.Success? ==>
      r.value.isMin == (if minimize.Some? then Some(true) else if maximize.Some? then Some(false) else None)
  {
    if minimize.Some? && maximize.Some? then Failure(BothObjectives)
    else
      var m :- AddAll(Empty, cs);
      var m1 := if maximize.Some? then Maximize(m, maximize) else m;
      Success(if minimize.Some? then Minimize(m1, minimize) else m1)
  }

  /** Each expression as an entry of its own. */
  function Singles(es: seq<Expr>): seq<Entry> {
    seq(|es|, i requires 0 <= i < |es| => Single(es[i]))
  }

  /** The historical shortcut on the positional arguments: a lone list or
      array is taken apart, a lone expression is added as it is. */
  function Unpack(args: seq<Entry>): (r: seq<Entry>)
    ensures |args| != 1 ==> r == args
    ensures |args| == 1 && !IsListLike(args[0]) ==> r == args
    ensures |args| == 1 && IsListLike(args[0]) ==>
      |r| == |Items(args[0])| && forall i :: 0 <= i < |r| ==> r[i] == Single(Items(args[0])[i])
  {
    if |args| == 1 && IsListLike(args[0]) then Singles(Items(args[0])) else args
  }

  /** The constructor: positional arguments plus the two keywords. */
  function New(args: seq<Entry>, minimize: Option<Expr>, maximize: Option<Expr>): Result<Model, Error> {
    Construct(Unpack(args), minimize, maximize)
  }

  /** A lone list argument is treated as the argument list itself:
      `Model([a, b])` is `Model(a, b)`. The one exception is a list holding
      a single array, since `Model(arr)` takes the array apart as well. */
  lemma ListArgumentIsArguments(es: seq<Expr>, minimize: Option<Expr>, maximize: Option<Expr>)
    ensures New([List(es)], minimize, maximize) == Construct(Singles(es), minimize, maximize)
    ensures |es| != 1 || !es[0].NDVarArray? ==>
      New([List(es)], minimize, maximize) == New(Singles(es), minimize, maximize)
  {
    if |es| == 1 {
      assert Singles(es) == [Single(es[0])];
    }
  }

  // ---------------------------------------------------------------------
  // Printing

  /** The text of an expression; an array shows as a bracketed list. */
  function Show(e: Expr): string {
    match e
    case Op(text, _) => text
    case Value(text) => text
    case NDVarArray(es) => Bracket(seq(|es|, i requires 0 <= i < |es| => Show(es[i])))
  }

  function ShowEntry(c: Entry): string {
    match c
    case Single(e) => Show(e)
    case List(es) => Bracket(seq(|es|, i requires 0 <= i < |es| => Show(es[i])))
  }

  function ConstraintLines(cs: seq<Entry>): string {
    Concat(seq(|cs|, i requires 0 <= i < |cs| => "    " + ShowEntry(cs[i]) + "\n"))
  }

  /** The text after "Objective: ". Without an objective it is Python's `None`. */
  function ObjectiveText(m: Model): string {
    match m.objective
    case None => "None"
    case Some(e) => (if m.isMin == Some(true) then "minimize " else "maximize ") + Show(e)
  }

  /** The text representation of a model. */
  function Repr(m: Model): string {
    "Constraints:\n" + ConstraintLines(m.constraints) + "Objective: " + ObjectiveText(m)
  }

  lemma ConstraintLinesAppend(cs: seq<Entry>, c: Entry)
    ensures ConstraintLines(cs + [c]) == ConstraintLines(cs) + "    " + ShowEntry(c) + "\n"
  {
    var lines := seq(|cs|, i requires 0 <= i < |cs| => "    " + ShowEntry(cs[i]) + "\n");
    var ext := cs + [c];
    var lines' := seq(|ext|, i requires 0 <= i < |ext| => "    " + ShowEntry(ext[i]) + "\n");
    assert lines' == lines + ["    " + ShowEntry(c) + "\n"];
    ConcatAppend(lines, "    " + ShowEntry(c) + "\n");
  }

  /** Adding a constraint inserts exactly one line, `    <constraint>`, just
      before the objective line, and leaves the rest of the text alone. */
  lemma ReprAfterAdd(m: Model, c: Entry)
    requires Add(m, c).Success? && !IsEmptyList(c)
    ensures var head := "Constraints:\n" + ConstraintLines(m.constraints);
      var m' := Add(m, c).value;
      && Repr(m) == head + "Objective: " + ObjectiveText(m)
      && Repr(m') == head + "    " + ShowEntry(Stored(c)) + "\n" + "Objective: " + ObjectiveText(m)
  {
    var m' := Add(m, c).value;
    assert m' == m.(constraints := m.constraints + [Stored(c)]);
    assert ObjectiveText(m') == ObjectiveText(m);
    ConstraintLinesAppend(m.constraints, Stored(c));
    RegroupLine("Constraints:\n", ConstraintLines(m.constraints), "    ", ShowEntry(Stored(c)), "\n",
                "Objective: ", ObjectiveText(m));
  }

  lemma RegroupLine(h: string, cl: string, sp: string, se: string, nl: string, ob: string, ot: string)
    ensures h + (cl + sp + se + nl) + ob + ot == (h + cl) + sp + se + nl + ob + ot
  {
  }

  /** The objective line, per case. */
  lemma ObjectiveLine(m: Model)
    ensures !HasObjective(m) ==> "Objective: " + ObjectiveText(m) == "Objective: None"
    ensures HasObjective(m) && m.isMin == Some(true) ==>
      "Objective: " + ObjectiveText(m) == "Objective: minimize " + Show(m.objective.value)
    ensures HasObjective(m) && m.isMin != Some(true) ==>
      "Objective: " + ObjectiveText(m) == "Objective: maximize " + Show(m.objective.value)
  {
    match m.objective
    case None =>
    case Some(e) =>
      if m.isMin == Some(true) {
        assert "Objective: " + ("minimize " + Show(e)) == "Objective: " + "minimize " + Show(e);
      } else {
        assert "Objective: " + ("maximize " + Show(e)) == "Objective: " + "maximize " + Show(e);
      }
  }

  /** The last line names the direction and the objective, or says `None`. */
  lemma ReprObjectiveLine(m: Model)
    ensures !HasObjective(m) ==> EndsWith(Repr(m), "Objective: None")
    ensures HasObjective(m) && m.isMin == Some(true) ==>
      EndsWith(Repr(m), "Objective: minimize " + Show(m.objective.value))
    ensures HasObjective(m) && m.isMin != Some(true) ==>
      EndsWith(Repr(m), "Objective: maximize " + Show(m.objective.value))
  {
    var head := "Constraints:\n" + ConstraintLines(m.constraints);
    var tail := "Objective: " + ObjectiveText(m);
    assert Repr(m) == head + tail;
    EndsWithConcat(head, tail);
    ObjectiveLine(m);
  }

  lemma EndsWithConcat(a: string, b: string)
    ensures EndsWith(a + b, b)
  {
    assert (a + b)[|a + b| - |b|..] == b;
  }

  // ---------------------------------------------------------------------
  // Copying

  /** The copy as written: rebuild the model through the constructor,
      passing the constraint list as the lone positional argument, so every
      stored entry is added again by `__add__`. */
  function Copy(m: Model): (r: Result<Model, Error>)
    ensures r.Success? <==> forall i :: 0 <= i < |m.constraints| ==> Accepted(m.constraints[i])
    ensures r.Success? ==> r.value.constraints == StoredAll(m.constraints)
    ensures r.Success? ==> r.value.objective == m.objective
    ensures WellFormed(m) && r.Success? ==>
      r.value.isMin == (if HasObjective(m) then m.isMin else None)
  {
    if m.isMin == Some(true) then Construct(m.constraints, m.objective, None)
    else
      assert WellFormed(m) && m.objective.Some? ==> !m.isMin.value;
      Construct(m.constraints, None, m.objective)
  }

  /** An entry that `__add__` stores unchanged when it is added again. */
  predicate Reproducible(c: Entry) {
    Accepted(c) && !(IsListLike(c) && |Items(c)| <= 1)
  }

  lemma {:induction false} StoredAllOfReproducible(cs: seq<Entry>)
    requires forall i :: 0 <= i < |cs| ==> Reproducible(cs[i])
    ensures StoredAll(cs) == cs
  {
    if cs != [] {
      StoredAllOfReproducible(cs[1..]);
    }
  }

  /** A model whose entries are all stored unchanged by `+=` is copied
      exactly, except that a direction left without an objective is lost. */
  lemma CopyOfReproducibleModel(m: Model)
    requires WellFormed(m)
    requires forall i :: 0 <= i < |m.constraints| ==> Reproducible(m.constraints[i])
    ensures Copy(m) == Success(if HasObjective(m) then m else m.(isMin := None))
  {
    StoredAllOfReproducible(m.constraints);
  }

  /** Every entry `__add__` stores is reproducible, unless it was unpacked
      from a one-element list (or array) whose only item is an array. */
  lemma AddStoresReproducible(m: Model, c: Entry)
    requires Add(m, c).Success? && !IsEmptyList(c)
    requires !(IsListLike(c) && |Items(c)| == 1 && Items(c)[0].NDVarArray?)
    ensures Reproducible(Add(m, c).value.constraints[|m.constraints|])
  {
    if IsListLike(c) && |Items(c)| == 1 {
      assert Checked(Single(Items(c)[0])) == [Items(c)[0]];
    }
  }

  /** `m += [bv]` with `bv` a one-element boolean array stores the array;
      the copy stores the lone variable instead. */
  lemma CopyUnpacksSingletonArray()
    ensures var b := Op("b", true);
      var m := Add(Empty, List([NDVarArray([b])]));
      && m.Success?
      && m.value.constraints == [Single(NDVarArray([b]))]
      && Copy(m.value) == Success(Model([Single(b)], None, None))
  {
    var b := Op("b", true);
    var arr := Single(NDVarArray([b]));
    assert Checked(List([NDVarArray([b])])) == [NDVarArray([b])];
    var m := Add(Empty, List([NDVarArray([b])])).value;
    assert m.constraints == [arr];
    assert Checked(arr) == [b];
    assert Accepted(arr);
    assert Empty.constraints + [Single(b)] == [Single(b)];
    assert Add(Empty, arr) == Success(Model([Single(b)], None, None));
    assert AddAll(Empty, [arr]) == Success(Model([Single(b)], None, None));
  }

  /** `m += [a]` with `a` an empty array stores it; the copy drops it. */
  lemma CopyDropsEmptyArray()
    ensures var m := Add(Empty, List([NDVarArray([])]));
      && m.Success?
      && m.value.constraints == [Single(NDVarArray([]))]
      && Copy(m.value) == Success(Empty)
  {
    var arr := Single(NDVarArray([]));
    assert Checked(List([NDVarArray([])])) == [NDVarArray([])];
    var m := Add(Empty, List([NDVarArray([])])).value;
    assert m.constraints == [arr];
    assert IsEmptyList(arr) && Accepted(arr);
    assert Add(Empty, arr) == Success(Empty);
    assert AddAll(Empty, [arr]) == Success(Empty);
  }

  /** `m += [x]` with `x` an array of integer expressions is accepted,
      since arrays are exempt from the list check; the copy raises. */
  lemma CopyRejectsIntegerArray()
    ensures var x := Op("x", false);
      var m := Add(Empty, List([NDVarArray([x, x])]));
      && m.Success?
      && Copy(m.value) == Failure(NonBooleanConstraint(x))
  {
    var x := Op("x", false);
    assert Checked(List([NDVarArray([x, x])])) == [NDVarArray([x, x])];
    assert Checked(Single(NDVarArray([x, x]))) == [x, x];
  }

  /** The copy the documentation describes: a new list holding the same
      constraints, and the same objective set through the same setter. */
  function CopyFixed(m: Model): (r: Model)
    ensures WellFormed(m) ==> r == m
  {
    var base := Model(m.constraints, None, None);
    match m.isMin
    case None => base
    case Some(true) => Minimize(base, m.objective)
    case Some(false) => Maximize(base, m.objective)
  }
}
