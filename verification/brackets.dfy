/** Bracket structure of generated text: a matcher over `(`, `[` and `{`
    that keeps the stack of brackets still open, and the lemmas that let a
    printer's output be shown balanced piece by piece. */
module Brackets {
  import opened Results

  predicate IsOpen(c: char) {
    c == '(' || c == '[' || c == '{'
  }

  predicate IsClose(c: char) {
    c == ')' || c == ']' || c == '}'
  }

  function Partner(c: char): char
    requires IsClose(c)
  {
    if c == ')' then '(' else if c == ']' then '[' else '{'
  }

  /** Text without any bracket character. */
  predicate Plain(s: string) {
    forall i :: 0 <= i < |s| ==> !IsOpen(s[i]) && !IsClose(s[i])
  }

  /** Runs the matcher over `s` starting from the open brackets `st`
      (innermost last); `None` when a closing bracket does not match. */
  function Scan(s: string, st: seq<char>): Option<seq<char>>
    decreases |s|
  {
    if s == [] then Some(st)
    else if IsOpen(s[0]) then Scan(s[1..], st + [s[0]])
    else if IsClose(s[0]) then
      if |st| > 0 && st[|st| - 1] == Partner(s[0]) then Scan(s[1..], st[..|st| - 1]) else None
    else Scan(s[1..], st)
  }

  /** Every bracket is closed by its partner, properly nested. */
  predicate Balanced(s: string) {
    Scan(s, []) == Some([])
  }

  lemma {:induction false} ScanConcat(a: string, b: string, st: seq<char>)
    ensures Scan(a + b, st) == (match Scan(a, st) case None => None case Some(t) => Scan(b, t))
    decreases |a|
  {
    if a == [] {
      assert a + b == b;
    } else {
      assert (a + b)[0] == a[0];
      assert (a + b)[1..] == a[1..] + b;
      if IsOpen(a[0]) {
        ScanConcat(a[1..], b, st + [a[0]]);
      } else if IsClose(a[0]) {
        if |st| > 0 && st[|st| - 1] == Partner(a[0]) {
          ScanConcat(a[1..], b, st[..|st| - 1]);
        }
      } else {
        ScanConcat(a[1..], b, st);
      }
    }
  }

  /** Brackets already open below the matcher's stack are never touched. */
  lemma {:induction false} ScanUnderStack(s: string, base: seq<char>, st: seq<char>, t: seq<char>)
    requires Scan(s, st) == Some(t)
    ensures Scan(s, base + st) == Some(base + t)
    decreases |s|
  {
    if s != [] {
      if IsOpen(s[0]) {
        assert (base + st) + [s[0]] == base + (st + [s[0]]);
        ScanUnderStack(s[1..], base, st + [s[0]], t);
      } else if IsClose(s[0]) {
        assert |st| > 0 && st[|st| - 1] == Partner(s[0]);
        assert (base + st)[..|base + st| - 1] == base + st[..|st| - 1];
        ScanUnderStack(s[1..], base, st[..|st| - 1], t);
      } else {
        ScanUnderStack(s[1..], base, st, t);
      }
    }
  }

  lemma BalancedFromAnyStack(s: string, st: seq<char>)
    requires Balanced(s)
    ensures Scan(s, st) == Some(st)
  {
    ScanUnderStack(s, st, [], []);
    assert st + [] == st;
  }

  lemma {:induction false} PlainKeepsStack(s: string, st: seq<char>)
    requires Plain(s)
    ensures Scan(s, st) == Some(st)
    decreases |s|
  {
    if s != [] {
      assert !IsOpen(s[0]) && !IsClose(s[0]);
      PlainKeepsStack(s[1..], st);
    }
  }

  lemma PlainBalanced(s: string)
    requires Plain(s)
    ensures Balanced(s)
  {
    PlainKeepsStack(s, []);
  }

  lemma BalancedConcat(a: string, b: string)
    requires Balanced(a) && Balanced(b)
    ensures Balanced(a + b)
  {
    ScanConcat(a, b, []);
  }

  lemma PlainConcat(a: string, b: string)
    requires Plain(a) && Plain(b)
    ensures Plain(a + b)
  {
    assert forall i :: 0 <= i < |a + b| ==> (a + b)[i] == (if i < |a| then a[i] else b[i - |a|]);
  }

  /** A balanced text wrapped in a matching pair stays balanced. */
  lemma BalancedWrap(open: char, a: string, close: char)
    requires IsClose(close) && open == Partner(close)
    requires Balanced(a)
    ensures Balanced([open] + a + [close])
  {
    ScanConcat([open] + a, [close], []);
    ScanConcat([open], a, []);
    assert [open][1..] == [];
    assert Scan([open], []) == Some([open]);
    BalancedFromAnyStack(a, [open]);
    assert [close][1..] == [];
    assert [open][..0] == [];
    assert Scan([close], [open]) == Some([]);
  }
}
