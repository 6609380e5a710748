# cpmpy `Model` and the MiniZinc text serialiser, in Dafny

This project models two pieces of the cpmpy constraint-programming library.

1. The `Model` container of `cpmpy/model.py`. A model holds an ordered list of
   constraints and an optional objective with its direction. The project
   models the constructor, `+=` (`__add__`), `objective`, `minimize`,
   `maximize`, `has_objective`, `copy` and `__repr__`. It also models the
   loop in `from_file` that raises the `BV`/`IV` name counters past the
   names of a loaded model.
2. The MiniZinc text serialiser of `cppy/solver_interfaces/minizinc_text.py`.
   It turns an expression tree into MiniZinc concrete syntax, and a model
   into a header of variable declarations, a block of `constraint` items and
   a `solve` item (`convert`, `convert_constraints`, `convert_expression`,
   `convert_objective`).

Every operation is a pure function, or a method with a loop, over immutable
datatypes. Where Python mutates `self`, the Dafny function returns the new
model. Where Python raises, the result is a `Failure` value.

Modules:

- `Results` (`results.dfy`): `Option` and `Result`.
- `Text` (`text.dfy`): decimal printing and Python's `int()` on strings,
  stripping, joining, lower-casing and the list-display helpers.
- `CpModel` (`model.dfy`): the `Model` container.
- `NameCounters` (`counters.dfy`): the counter bump of `from_file`.
- `MiniZinc` (`minizinc.dfy`): the serialiser.
- `MiniZincLayout` (`minizinc_layout.dfy`): each construct's output, stated
  against the flat format strings of the source.
- `Brackets` and `MiniZincProps` (`brackets.dfy`, `minizinc_props.dfy`): a
  bracket matcher, plus the proof that every generated text is balanced and
  that the `+1` shift of an `element` index appears exactly when it should.
- `MiniZincHeader` (`header.dfy`): a parser for declaration lines. It acts as
  an independent partner of the declaration printer, and a round-trip lemma
  connects the two.

## Model

| member | source | states |
|---|---|---|
| CpModel.FirstNonBoolean | cpmpy/model.py:96-98 | finds the first element that is an `Expression`, is not Boolean and is not an array; `None` exactly when no element is like that |
| CpModel.Add | cpmpy/model.py:94-112 | fails exactly when a checked expression is non-Boolean, and names it; an empty list leaves the model unchanged; a one-element list stores its only item; anything else is appended as it is |
| CpModel.AddAll | cpmpy/model.py:71-76 | adding entries one by one succeeds iff every entry is accepted; on success the model gains exactly the stored form of each entry, in order |
| CpModel.Construct | cpmpy/model.py:60-82 | fails with "both objectives" iff both `minimize` and `maximize` are given; otherwise succeeds iff all constraints are accepted; the result holds the stored constraints and the given objective with the right direction |
| CpModel.Unpack | cpmpy/model.py:68-69 | a lone list or array argument is replaced by its items; any other argument sequence is kept |
| CpModel.ListArgumentIsArguments | cpmpy/model.py:68-76 | `Model([a, b, ...])` builds the same model, or raises the same error, as `Model(a, b, ...)`; the only exception is a list holding exactly one array |
| CpModel.SetObjective | cpmpy/model.py:115-126 | stores exactly the given expression, which may be `None`, and the given direction, and leaves the constraints alone; the model has an objective iff the expression is not `None` |
| CpModel.Minimize | cpmpy/model.py:131-137 | stores the expression (or `None`) with direction "minimise", constraints untouched |
| CpModel.Maximize | cpmpy/model.py:139-145 | stores the expression (or `None`) with direction "maximise", constraints untouched |
| CpModel.HasObjectiveAfterCalls | cpmpy/model.py:128-145 | after any non-empty sequence of setter calls, `has_objective()` holds iff the last call was given an expression rather than `None` |
| CpModel.LastWriteWins | cpmpy/model.py:123 | after any non-empty sequence of `minimize`/`maximize` calls, the model is what the last call alone would give |
| CpModel.ConstraintLinesAppend | cpmpy/model.py:227-229 | one more constraint adds exactly one indented line at the end of the constraint block |
| CpModel.ReprAfterAdd | cpmpy/model.py:226-239 | after a successful non-empty `+=`, the representation gains exactly one line holding the stored constraint, just before the objective line; all other text is unchanged |
| CpModel.ReprObjectiveLine | cpmpy/model.py:231-239 | the representation ends with `Objective: None`, `Objective: minimize <e>` or `Objective: maximize <e>`, according to the objective and its direction |
| CpModel.Copy | cpmpy/model.py:287-295 | the copy (as written) succeeds iff every stored entry is accepted again; it then holds the entries as `+=` stores them when re-added, keeps the objective, and keeps the direction exactly when there is an objective |
| CpModel.CopyOfReproducibleModel | cpmpy/model.py:287-295 | a well-formed model whose entries are all stored unchanged by `+=` is copied exactly, except that a direction left by `minimize(None)` is dropped |
| CpModel.AddStoresReproducible | cpmpy/model.py:100-111 | every entry `+=` stores can be re-added unchanged, unless it came from a one-item list whose item is an array |
| CpModel.CopyUnpacksSingletonArray | cpmpy/model.py:287-295 | `m += [bv]` with a one-element array stores the array, but the copy stores the lone variable |
| CpModel.CopyDropsEmptyArray | cpmpy/model.py:287-295 | `m += [a]` with an empty array stores it, but the copy drops it |
| CpModel.CopyRejectsIntegerArray | cpmpy/model.py:287-295 | `m += [x]` with an array of integer expressions is accepted, but the copy raises |
| CpModel.CopyFixed | cpmpy/model.py:288-291 | the documented copy: the same constraints and the same objective, equal to the original for every well-formed model |
| NameCounters.FromFileCounters | cpmpy/model.py:266-284 | each new counter is at least its old value, above every numeric suffix of a loaded name of its kind, and equal to the old value or to one such suffix plus one |
| NameCounters.BumpedStep | cpmpy/model.py:268-278 | one loop step keeps that property for the list extended by one name |
| NameCounters.FreshNamesDoNotClash | cpmpy/model.py:263-284 | no name the bumped counter hands out from then on (`BV<n>` or `IV<n>`, with n at least the counter) is among the loaded names |
| NameCounters.BoolNameLeavesIntCounter | cpmpy/model.py:269-276 | a name starting with `BV` never changes the integer counter (the `elif`) |
| Text.ParseIntAccepts | cpmpy/model.py:271 | `int()` on a string accepts exactly optional white space, an optional sign, and digits with single underscores between them |
| Text.ParseIntOfIntToString | cpmpy/model.py:271 | `int()` reads back every printed integer |
| Text.DigitRunIsDigitRun | cpmpy/model.py:271 | the character-by-character digit test agrees with the declarative description of a digit run |
| MiniZinc.BinaryName | cppy/solver_interfaces/minizinc_text.py:82-86 | a binary `and` prints as `/\`, `or` as `\/`, and any other name as itself |
| MiniZinc.NaryName | cppy/solver_interfaces/minizinc_text.py:89-92 | an n-ary `and` prints as `forall`, `or` as `exists`, `xor` as `xorall`, and any other name as itself |
| MiniZinc.Operand | cppy/solver_interfaces/minizinc_text.py:58-63 | a child is parenthesised iff it is a math operator or a comparison |
| MiniZinc.ArrayType | cppy/solver_interfaces/minizinc_text.py:69-71 | the element type is `bool` iff all elements are logical, and `int` iff some element is not |
| MiniZinc.Convert | cppy/solver_interfaces/minizinc_text.py:49-116 | conversion succeeds iff every `element` constraint inside has an array and at least three arguments; any failure is that error |
| MiniZinc.ConvertAll | cppy/solver_interfaces/minizinc_text.py:67 | converts the elements pointwise; succeeds iff every element converts |
| MiniZinc.ConvertConstraints | cppy/solver_interfaces/minizinc_text.py:31-47 | no constraints give the empty text; otherwise succeeds iff every conjunct is well formed, and the block ends with a newline |
| MiniZinc.ConvertObjective | cppy/solver_interfaces/minizinc_text.py:118-125 | no objective gives `solve satisfy;`; a non-`Objective` value fails with "only single objective"; otherwise it succeeds iff the objective expression converts, and the text is `solve <lower-cased name> <converted expression>;` |
| MiniZinc.ConvertModel | cppy/solver_interfaces/minizinc_text.py:17-29 | succeeds iff the constraints and the objective both convert, and a constraint error takes precedence; the text is the header, the declarations, a blank line, the constraint block and the solve item, in that order |
| MiniZincLayout.InfixLayout | cppy/solver_interfaces/minizinc_text.py:56-64 | a math or comparison node prints as `L op R`, each side wrapped in parentheses iff it is itself math or a comparison |
| MiniZincLayout.WeightedSumTextLayout | cppy/solver_interfaces/minizinc_text.py:66-74 | a weighted sum prints as the `let { w=..., v=... } in sum(i in 1..n) (w[i]*v[i])` text, with n the number of elements |
| MiniZincLayout.SumLayout | cppy/solver_interfaces/minizinc_text.py:75-77 | a sum prints as `sum(` + the list display of the converted elements + `)` |
| MiniZincLayout.BinaryBoolOpLayout | cppy/solver_interfaces/minizinc_text.py:79-86 | a two-element Boolean operator prints as `a /\ b`, `a \/ b` or `a <name> b` |
| MiniZincLayout.NaryBoolOpLayout | cppy/solver_interfaces/minizinc_text.py:88-92 | any other arity prints as `forall(`, `exists(`, `xorall(` or `<name>(` around the list display |
| MiniZincLayout.ElementTextLayout | cppy/solver_interfaces/minizinc_text.py:108-110 | an `element` prints as the `let { array[int] of var T: arr=... } in arr[idx] = value` text |
| MiniZincLayout.GlobalLayout | cppy/solver_interfaces/minizinc_text.py:112-113 | any global constraint other than `element` prints as `name(a1, a2, ...)` |
| MiniZincLayout.ItemsOfConverted | cppy/solver_interfaces/minizinc_text.py:44-46 | the item block equals the recursive reference definition, one `constraint ...;` line per expression, in order |
| MiniZincLayout.ConstraintsSplitConjunction | cppy/solver_interfaces/minizinc_text.py:35-47 | a top-level `and` becomes one item per conjunct; any other constraint becomes a single item; the block ends with an empty line |
| MiniZincLayout.DeclarationLayout | cppy/solver_interfaces/minizinc_text.py:20-24 | a Boolean variable is declared `var bool: BV<id>;`, an integer variable `var lb..ub: IV<id>;`, a Boolean variable that is also an integer variable gets both lines (bounds 0..1), and anything else gets none |
| MiniZincLayout.DeclarationsAppend | cppy/solver_interfaces/minizinc_text.py:20-24 | one more variable appends exactly its own declaration |
| MiniZincHeader.ParseDeclarationOfDeclaration | cppy/solver_interfaces/minizinc_text.py:21-24 | the declaration line of every variable parses back to that variable, lower and upper bounds included |
| MiniZincProps.IndexShiftedExactlyWhenZeroBased | cppy/solver_interfaces/minizinc_text.py:104-107 | the `element` index text ends in `+1` iff the index is an integer variable with lower bound 0 |
| MiniZincProps.NoTextEndsWithPlusOne | cppy/solver_interfaces/minizinc_text.py:49-116 | no converted expression ends in `+1`, so the suffix is present exactly when the shift was applied |
| MiniZincProps.ConvertBalanced | cppy/solver_interfaces/minizinc_text.py:49-116 | every converted expression has balanced `()`, `[]` and `{}`, provided operator names hold no brackets |
| MiniZincProps.ModelBalanced | cppy/solver_interfaces/minizinc_text.py:17-29 | the whole generated model text is balanced |

## Left out

- `solve`, `solveAll`, `status` and `objective_value` of `Model`: they hand the model to a solver.
- `MiniZincText.solve`: it only prints the converted text.
- `to_file`, the unpickling in `from_file`, the warning in `from_file`, and `deepcopy`. These are file I/O, a logging side effect and a Python deep copy. Of `from_file`, only the counter bump is modelled. The loaded names and the two current class counters are parameters.
- `get_variables` and `get_variables_model`: the variables of a model are a parameter of `ConvertModel` and of `FromFileCounters`.
- `cpmpy/transformations/__init__.py` holds only a module docstring.
- `Model` expressions are abstract. The model knows only the text they print, whether they are Boolean, and whether they are arrays.
- Python's `str` of a list or array is modelled as `[a, b, ...]` (`Text.Bracket`). The quoting Python's list `repr` adds around strings is not modelled.
- `int()`, `str.lower()` and `str.strip()` are modelled on ASCII only. Python's Unicode digits, case mappings and white space are not.
- A variable is assumed to print as `BV<id>` or `IV<id>`; the variable classes are not part of this model.
- The class hierarchy is unknown, in particular whether a Boolean variable is also an `IntVarImpl`. It is the parameter `Hierarchy`, which decides the `+1` shift and whether a Boolean variable gets a second declaration.
- Which expressions are `LogicalExpression`s is an assumption: Boolean variables, comparisons, Boolean operators and global constraints.
- `convert_expression` returns an array's `list(expr.flat)` without converting the elements; the model converts them.
- `Array` stands for a one-dimensional numpy array. Multi-dimensional arrays are not modelled: a nested `Array` prints nested, where Python's `.flat` would flatten it.
- Python lists inside expressions are not modelled. In particular, an `element` whose first argument is a Python list crashes in Python, and the model has no value for that input.
- An `element` whose first argument is not an array, or that has fewer than three arguments, crashes in Python. In the model it is the `MalformedElement` failure.
- CpModel.Construct: a failing `+=` inside the constructor raises, and no partial model is returned.
- MiniZincProps.ConvertBalanced: balance is proved only when operator and global-constraint names and objective names contain no bracket characters (`ModelNamesPlain`).
- MiniZincHeader.ParseDeclarationOfDeclaration: the round trip is stated for integer variables, and for Boolean variables that are not also integer variables. A Boolean variable that is also an integer variable prints two lines, and the parser reads a single line.

## Findings

| source | as written | input that shows it | evidently intended | confidence | as-written member | corrected member |
|---|---|---|---|---|---|---|
| cpmpy/model.py:287-295 | `copy` rebuilds the model by passing its constraint list to the constructor, so every stored entry goes through `__add__` again. An entry stored from `m += [arr]`, where `arr` is an array, is then taken apart. | `m += [a]` with `a` an array of one Boolean variable `b`: the model stores `a`, the copy stores `b`. With an empty array the copy drops it. With an array of integer expressions the copy raises. | a shallow copy with the same constraint list and the same objective (the docstring at lines 288-291) | not executed | CpModel.CopyUnpacksSingletonArray, CpModel.CopyDropsEmptyArray, CpModel.CopyRejectsIntegerArray | CpModel.CopyFixed |
