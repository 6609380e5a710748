/** The name-counter bump `Model.from_file` performs after unpickling a
    model. Variables created later are named
    `BV<n>` / `IV<n>` from two class counters; to keep those names from
    clashing with the loaded ones, each counter is raised past the largest
    numeric suffix among the loaded names. The unpickling, the variable
    collection and the warning are not modelled: the loaded names and the
    two current counters are parameters. */
module NameCounters {
  import opened Results
  import opened Text

  datatype Kind = BoolKind | IntKind

  function Prefix(k: Kind): string {
    match k
    case BoolKind => "BV"
    case IntKind => "IV"
  }

  /** The number a loaded name contributes to the counter of kind `k`:
      `int(name[2:])` when the name carries the kind's prefix. A name that
      starts with `BV` is only ever looked at as a boolean name (the `elif`). */
  function Counted(name: string, k: Kind): Option<int> {
    if StartsWith(name, "BV") then
      (if k == BoolKind then ParseInt(name[2..]) else None)
    else if StartsWith(name, "IV") then
      (if k == IntKind then ParseInt(name[2..]) else None)
    else None
  }

  /** `r` is the value the counter of kind `k` must have after loading
      `names` when it stood at `start`: at least `start`, above every numeric
      suffix, and no larger than needed. */
  ghost predicate Bumped(names: seq<string>, k: Kind, start: int, r: int) {
    && r >= start
    && Above(names, k, r)
    && Reached(names, k, start, r)
  }

  function Max(a: int, b: int): int {
    if a >= b then a else b
  }

  /** The counter after one more name: raised to the name's number plus one
      when that is larger. */
  function Step(r: int, name: string, k: Kind): int {
    match Counted(name, k)
    case Some(n) => Max(r, n + 1)
    case None => r
  }

  /** The bound half of `Bumped`: above every counted suffix. */
  predicate Above(names: seq<string>, k: Kind, r: int) {
    forall i :: 0 <= i < |names| && Counted(names[i], k).Some? ==> r >= Counted(names[i], k).value + 1
  }

  /** The tightness half of `Bumped`: `r` is `start` or one past a suffix. */
  ghost predicate Reached(names: seq<string>, k: Kind, start: int, r: int) {
    r == start || exists i :: 0 <= i < |names| && Counted(names[i], k) == Some(r - 1)
  }

  lemma AboveStep(names: seq<string>, name: string, k: Kind, r: int)
    requires Above(names, k, r)
    ensures Above(names + [name], k, Step(r, name, k))
  {
    var ext := names + [name];
    forall i | 0 <= i < |ext| && Counted(ext[i], k).Some?
      ensures Step(r, name, k) >= Counted(ext[i], k).value + 1
    {
      if i < |names| {
        assert ext[i] == names[i];
      }
    }
  }

  lemma ReachedStep(names: seq<string>, name: string, k: Kind, start: int, r: int)
    requires Reached(names, k, start, r)
    ensures Reached(names + [name], k, start, Step(r, name, k))
  {
    var ext := names + [name];
    var r' := Step(r, name, k);
    if r' != start {
      if r' == r {
        var i :| 0 <= i < |names| && Counted(names[i], k) == Some(r - 1);
        assert ext[i] == names[i];
      } else {
        assert ext[|names|] == name;
      }
    }
  }

  lemma {:induction false} BumpedStep(names: seq<string>, name: string, k: Kind, start: int, r: int)
    requires Bumped(names, k, start, r)
    ensures Bumped(names + [name], k, start, Step(r, name, k))
  {
    assert Above(names, k, r) && Reached(names, k, start, r);
    AboveStep(names, name, k, r);
    ReachedStep(names, name, k, start, r);
  }

  lemma {:induction false} BumpedFromZero(names: seq<string>, k: Kind, start: int, r: int)
    requires Bumped(names, k, 0, r) && start >= 0
    ensures Bumped(names, k, start, Max(start, r))
  {
  }

  lemma Advance(names: seq<string>, i: nat, k: Kind, r: int)
    requires i < |names| && Bumped(names[..i], k, 0, r)
    ensures Bumped(names[..i + 1], k, 0, Step(r, names[i], k))
  {
    assert names[..i + 1] == names[..i] + [names[i]];
    BumpedStep(names[..i], names[i], k, 0, r);
  }

  /** Scans the loaded names, then raises both class counters. */
  method FromFileCounters(names: seq<string>, boolCounter: nat, intCounter: nat)
    returns (newBool: nat, newInt: nat)
    ensures Bumped(names, BoolKind, boolCounter, newBool)
    ensures Bumped(names, IntKind, intCounter, newInt)
  {
    var bv: nat := 0;
    var iv: nat := 0;
    for i := 0 to |names|
      invariant Bumped(names[..i], BoolKind, 0, bv)
      invariant Bumped(names[..i], IntKind, 0, iv)
    {
      var name := names[i];
      ghost var prevBool, prevInt := bv, iv;
      Advance(names, i, BoolKind, bv);
      Advance(names, i, IntKind, iv);
      if StartsWith(name, "BV") {
        match ParseInt(name[2..]) {
          case Some(n) => bv := Max(bv, n + 1);
          case None =>
        }
      } else if StartsWith(name, "IV") {
        match ParseInt(name[2..]) {
          case Some(n) => iv := Max(iv, n + 1);
          case None =>
        }
      }
      assert bv == Step(prevBool, name, BoolKind) && iv == Step(prevInt, name, IntKind);
    }
    assert names[..|names|] == names;
    BumpedFromZero(names, BoolKind, boolCounter, bv);
    BumpedFromZero(names, IntKind, intCounter, iv);
    newBool := Max(boolCounter, bv);
    newInt := Max(intCounter, iv);
  }

  /** The point of the bump: once the counter has been raised, every name
      the variable constructors generate from it on is new. */
  lemma {:induction false} FreshNamesDoNotClash(names: seq<string>, k: Kind, start: int, r: int, n: nat)
    requires Bumped(names, k, start, r)
    requires n >= r
    ensures Prefix(k) + NatToString(n) !in names
  {
    var made := Prefix(k) + NatToString(n);
    ParseIntOfIntToString(n);
    assert made[..2] == Prefix(k) && made[2..] == IntToString(n);
    assert Counted(made, k) == Some(n);
  }

  /** A `BV` name never moves the integer counter, whatever its suffix. */
  lemma {:induction false} BoolNameLeavesIntCounter(names: seq<string>, name: string, start: int, r: int)
    requires StartsWith(name, "BV")
    ensures Bumped(names + [name], IntKind, start, r) <==> Bumped(names, IntKind, start, r)
  {
    var ext := names + [name];
    assert Counted(name, IntKind) == None;
    assert forall i :: 0 <= i < |names| ==> ext[i] == names[i];
    if Bumped(ext, IntKind, start, r) && r != start {
      var i :| 0 <= i < |ext| && Counted(ext[i], IntKind) == Some(r - 1);
      assert i < |names|;
    }
  }
}
