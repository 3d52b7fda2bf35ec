/** Where a bracketed group ends (scripts/host-operations.py, `balanced_end`). */
module SourceBrackets {
  import opened Common

  datatype Refusal = ExpectedDelimiter | MismatchedDelimiter | UnclosedDelimiter

  predicate Opens(c: char) {
    c == '(' || c == '[' || c == '{'
  }

  predicate Closes(c: char) {
    c == ')' || c == ']' || c == '}'
  }

  function CloserOf(c: char): (d: char)
    requires Opens(c)
    ensures Closes(d)
  {
    if c == '(' then ')' else if c == '[' then ']' else '}'
  }

  /** The brackets are the pairs of `"()[]{}"`: no character is both, and every closer closes one opener. */
  lemma BracketsArePaired(c: char)
    ensures Opens(c) || Closes(c) <==> c in "()[]{}"
    ensures !(Opens(c) && Closes(c))
    ensures Closes(c) <==> exists o | Opens(o) :: CloserOf(o) == c
    ensures Opens(c) <==> [c, if Opens(c) then CloserOf(c) else c] in ["()", "[]", "{}"]
    ensures forall o | Opens(o) && Opens(c) && CloserOf(o) == CloserOf(c) :: o == c
  {
    if Closes(c) {
      var o := if c == ')' then '(' else if c == ']' then '[' else '{';
      assert Opens(o) && CloserOf(o) == c;
    }
    if Opens(c) { assert [c, CloserOf(c)] == if c == '(' then "()" else if c == '[' then "[]" else "{}"; }
  }

  // ------------------------------------------------------------------ properly nested text

  /** An opener, properly nested text, and the matching closer. */
  ghost predicate Group(t: string)
    decreases |t|, 0
  {
    |t| >= 2 && Opens(t[0]) && t[|t| - 1] == CloserOf(t[0]) && Nested(t[1..|t| - 1])
  }

  /** Characters that are no brackets, and groups. */
  ghost predicate Nested(t: string)
    decreases |t|, 1
  {
    || t == []
    || (!Opens(t[0]) && !Closes(t[0]) && Nested(t[1..]))
    || exists k :: 2 <= k <= |t| && Group(t[..k]) && Nested(t[k..])
  }

  // ------------------------------------------------------------------ the stack

  /** The closers still expected, after one more character. */
  function Step(stack: string, c: char): Option<string> {
    if Opens(c) then Some(stack + [CloserOf(c)])
    else if !Closes(c) then Some(stack)
    else if stack != [] && c == Last(stack) then Some(stack[..|stack| - 1])
    else None
  }

  function Stack(t: string, stack: string): Option<string> {
    if t == [] then Some(stack)
    else
      match Stack(t[..|t| - 1], stack)
      case None => None
      case Some(before) => Step(before, Last(t))
  }

  lemma {:induction false} StackSplits(a: string, b: string, stack: string)
    ensures Stack(a + b, stack) == match Stack(a, stack) case None => None case Some(s) => Stack(b, s)
  {
    if b == [] {
      assert a + b == a;
    } else {
      StackSplits(a, b[..|b| - 1], stack);
      assert (a + b)[..|a + b| - 1] == a + b[..|b| - 1];
    }
  }

  lemma StackHead(c: char, rest: string, stack: string)
    ensures Stack([c] + rest, stack) == match Step(stack, c) case None => None case Some(s) => Stack(rest, s)
  {
    StackSplits([c], rest, stack);
    assert [c][..0] == [] && Stack([], stack) == Some(stack) && Last([c]) == c;
    assert Stack([c], stack) == Step(stack, c);
  }

  /** What lies below does not matter to text that never reaches it. */
  lemma {:induction false} StackFrames(t: string, below: string, stack: string)
    requires Stack(t, stack).Some?
    ensures Stack(t, below + stack) == Some(below + Stack(t, stack).value)
  {
    if t != [] {
      StackFrames(t[..|t| - 1], below, stack);
      StepFrames(Stack(t[..|t| - 1], stack).value, below, Last(t));
    }
  }

  lemma StepFrames(stack: string, below: string, c: char)
    requires Step(stack, c).Some?
    ensures Step(below + stack, c) == Some(below + Step(stack, c).value)
  {
    if Opens(c) {
      assert below + stack + [CloserOf(c)] == below + (stack + [CloserOf(c)]);
    } else if Closes(c) {
      assert (below + stack)[..|below + stack| - 1] == below + stack[..|stack| - 1];
    }
  }

  /** No prefix of the text, the text included, uses up the stack. */
  ghost predicate StaysOpen(t: string, stack: string) {
    forall k :: 0 <= k <= |t| ==> Open(t, stack, k)
  }

  predicate Open(t: string, stack: string, k: nat)
    requires k <= |t|
  {
    Stack(t[..k], stack).Some? && Stack(t[..k], stack).value != []
  }

  /** Text that never uses up a one-bracket stack runs the same without that bracket. */
  lemma {:induction false} StackUnframes(t: string, b: char)
    requires StaysOpen(t, [b])
    ensures Stack(t, []).Some? && Stack(t, [b]) == Some([b] + Stack(t, []).value)
  {
    if t == [] {
      assert [b] + [] == [b];
    } else {
      var init := t[..|t| - 1];
      forall k | 0 <= k <= |init| ensures Open(init, [b], k) {
        assert Open(t, [b], k) && init[..k] == t[..k];
      }
      StackUnframes(init, b);
      assert Open(t, [b], |t|) && t[..|t|] == t;
      StepUnframes(Stack(init, []).value, b, Last(t));
    }
  }

  lemma StepUnframes(stack: string, b: char, c: char)
    requires Step([b] + stack, c).Some? && Step([b] + stack, c).value != []
    ensures Step(stack, c).Some? && Step([b] + stack, c) == Some([b] + Step(stack, c).value)
  {
    if Opens(c) {
      assert [b] + stack + [CloserOf(c)] == [b] + (stack + [CloserOf(c)]);
    } else if Closes(c) {
      assert stack != [];
      assert ([b] + stack)[..|stack|] == [b] + stack[..|stack| - 1];
    }
  }

  // ------------------------------------------------------------------ the two agree

  /** The stack of an opener's text: the opener's closer first. */
  lemma AfterOpener(t: string, k: nat)
    requires 0 < k <= |t| && Opens(t[0])
    ensures Stack(t[..k], []) == Stack(t[1..k], [CloserOf(t[0])])
  {
    StackHead(t[0], t[1..k], []);
    assert [t[0]] + t[1..k] == t[..k];
    assert [] + [CloserOf(t[0])] == [CloserOf(t[0])];
  }

  /** The first end: the stack is used up here and at no earlier offset. */
  ghost predicate EndsAt(t: string, k: nat) {
    && 2 <= k <= |t| && Stack(t[..k], []) == Some([])
    && forall j :: 0 < j < k ==> Open(t, [], j)
  }

  lemma {:induction false} NestedRuns(t: string)
    requires Nested(t)
    ensures Stack(t, []) == Some([])
    decreases |t|, 1
  {
    if t == [] {
    } else if !Opens(t[0]) && !Closes(t[0]) && Nested(t[1..]) {
      NestedRuns(t[1..]);
      StackHead(t[0], t[1..], []);
      assert t == [t[0]] + t[1..];
    } else {
      var k :| 2 <= k <= |t| && Group(t[..k]) && Nested(t[k..]);
      GroupRuns(t[..k]);
      assert t[..k][..k] == t[..k];
      NestedRuns(t[k..]);
      StackSplits(t[..k], t[k..], []);
      assert t == t[..k] + t[k..];
    }
  }

  lemma {:induction false} GroupRuns(t: string)
    requires Group(t)
    ensures EndsAt(t, |t|)
    decreases |t|, 0
  {
    var n, b := |t|, CloserOf(t[0]);
    var inner := t[1..n - 1];
    NestedRuns(inner);
    forall j | 0 < j < n ensures Open(t, [], j) {
      AfterOpener(t, j);
      PrefixRuns(inner, j - 1);
      assert inner[..j - 1] == t[1..j];
      StackFrames(inner[..j - 1], [b], []);
      assert [b] + [] == [b];
    }
    AfterOpener(t, n - 1);
    StackFrames(inner, [b], []);
    assert [b] + [] == [b];
    assert t[..n] == t && t[..n - 1] == t[..|t| - 1] && Last(t) == b && Last([b]) == b && [b][..0] == [];
  }

  lemma PrefixRuns(t: string, k: nat)
    requires k <= |t| && Stack(t, []).Some?
    ensures Stack(t[..k], []).Some?
  {
    StackSplits(t[..k], t[k..], []);
    assert t == t[..k] + t[k..];
  }

  /** A text that ends at its first end is a group. */
  lemma {:induction false} EndIsGroup(t: string, k: nat)
    requires |t| > 0 && Opens(t[0]) && EndsAt(t, k)
    ensures Group(t[..k])
    decreases k, 1
  {
    var b := CloserOf(t[0]);
    var inner := t[1..k - 1];
    forall j | 0 <= j <= |inner| ensures Open(inner, [b], j) {
      assert Open(t, [], j + 1);
      AfterOpener(t, j + 1);
      assert inner[..j] == t[1..j + 1];
    }
    StackUnframes(inner, b);
    var left := Stack(inner, []).value;
    AfterOpener(t, k - 1);
    assert t[..k][..k - 1] == t[..k - 1] && Last(t[..k]) == t[k - 1];
    LastPop(left, b, t[k - 1]);
    RunsIsNested(inner);
    assert t[..k][1..k - 1] == inner;
  }

  lemma LastPop(left: string, b: char, c: char)
    requires Step([b] + left, c) == Some([])
    ensures left == [] && c == b
  {
  }

  lemma {:induction false} RunsIsNested(t: string)
    requires Stack(t, []) == Some([])
    ensures Nested(t)
    decreases |t|, 2
  {
    if t != [] {
      StackHead(t[0], t[1..], []);
      assert t == [t[0]] + t[1..];
      if Opens(t[0]) {
        OpenerIsOpen(t);
        var k := FirstEnd(t, 2);
        EndIsGroup(t, k);
        StackSplits(t[..k], t[k..], []);
        assert t == t[..k] + t[k..];
        RunsIsNested(t[k..]);
      } else {
        RunsIsNested(t[1..]);
      }
    }
  }

  lemma OpenerIsOpen(t: string)
    requires |t| > 0 && Opens(t[0])
    ensures Open(t, [], 1) && Stack(t[..1], []) == Some([CloserOf(t[0])])
  {
    AfterOpener(t, 1);
    assert t[1..1] == [];
  }

  /** Text that starts with an opener and ends with nothing open has a first end. */
  lemma {:induction false} FirstEnd(t: string, from: nat) returns (k: nat)
    requires |t| > 0 && Opens(t[0]) && Stack(t, []) == Some([]) && 2 <= from
    requires forall j :: 0 < j < from && j <= |t| ==> Open(t, [], j)
    ensures EndsAt(t, k)
    decreases |t| - from
  {
    assert t[..|t|] == t;
    assert !Open(t, [], |t|);
    PrefixRuns(t, from);
    if Stack(t[..from], []).value == [] {
      k := from;
    } else {
      k := FirstEnd(t, from + 1);
    }
  }

  lemma OpenInside(t: string, k: nat)
    requires Group(t) && 0 < k < |t|
    ensures Stack(t[..k], []) != Some([])
  {
    GroupRuns(t);
    assert Open(t, [], k);
  }

  lemma NotEmptiedIsNoGroup(t: string)
    requires Stack(t, []) != Some([])
    ensures !Group(t)
  {
    assert t[..|t|] == t;
    if Group(t) { GroupRuns(t); }
  }

  lemma BrokenStaysBroken(t: string, k: nat)
    requires k <= |t| && Stack(t[..k], []).None?
    ensures Stack(t, []).None?
  {
    if Stack(t, []).Some? { PrefixRuns(t, k); }
  }

  /** Groups at one offset end at one place. */
  lemma GroupEndsOnce(s: string, start: nat, e: nat, f: nat)
    requires start <= e <= f <= |s| && Group(s[start..e]) && Group(s[start..f])
    ensures e == f
  {
    var a, b := s[start..e], s[start..f];
    if e < f {
      assert b[..|a|] == a;
      OpenInside(b, |a|);
      NotEmptiedIsNoGroup(a);
    }
  }

  // ------------------------------------------------------------------ the matcher

  /** No group at `start` ends by `limit`. */
  ghost predicate NoGroupBy(s: string, start: nat, limit: nat) {
    forall e :: start <= e <= limit && e <= |s| ==> !Group(s[start..e])
  }

  /** With the stack open up to `i`, no group ends there or before. */
  lemma OpenHasNoGroup(s: string, start: nat, i: nat)
    requires start < i <= |s| && (forall j :: 0 < j <= i - start ==> Open(s[start..], [], j))
    ensures NoGroupBy(s, start, i)
  {
    forall e | start <= e <= i ensures !Group(s[start..e]) {
      var k := e - start;
      assert s[start..][..k] == s[start..e];
      if k > 0 {
        assert Open(s[start..], [], k);
        NotEmptiedIsNoGroup(s[start..e]);
      }
    }
  }

  /** Once a closer does not match, no group ends anywhere. */
  lemma BrokenHasNoGroup(s: string, start: nat, i: nat)
    requires start < i < |s| && (forall j :: 0 < j <= i - start ==> Open(s[start..], [], j))
    requires Stack(s[start..][..i - start + 1], []).None?
    ensures NoGroupBy(s, start, |s|) && Stack(s[start..], []).None?
  {
    OpenHasNoGroup(s, start, i);
    BrokenStaysBroken(s[start..], i - start + 1);
    forall e | i < e <= |s| ensures !Group(s[start..e]) {
      var t := s[start..e];
      assert t[..i + 1 - start] == s[start..][..i - start + 1];
      BrokenStaysBroken(t, i + 1 - start);
      NotEmptiedIsNoGroup(t);
    }
  }

  /** `balanced_end`: the end of the one group that starts at `start`, and a refusal exactly when there
      is none; a refusal says whether a bracket is missing, wrong, or still open at the end. */
  method BalancedEnd(s: string, start: nat) returns (r: Result<nat, Refusal>)
    ensures r.Ok? ==> start < r.value <= |s| && Group(s[start..r.value])
    ensures r.Err? ==> NoGroupBy(s, start, |s|)
    ensures r == Err(ExpectedDelimiter) <==> start >= |s| || !Opens(s[start])
    ensures r == Err(UnclosedDelimiter) ==> Stack(s[start..], []).Some? && Stack(s[start..], []).value != []
    ensures r == Err(MismatchedDelimiter) ==> Stack(s[start..], []).None?
  {
    if start >= |s| || !Opens(s[start]) {
      return Err(ExpectedDelimiter);
    }
    var stack := [CloserOf(s[start])];
    ghost var t := s[start..];
    OpenerIsOpen(t);
    for i := start + 1 to |s|
      invariant stack != [] && Stack(t[..i - start], []) == Some(stack)
      invariant forall j :: 0 < j <= i - start ==> Open(t, [], j)
    {
      ghost var n := i - start;
      assert t[..n + 1][..n] == t[..n] && Last(t[..n + 1]) == s[i];
      if Opens(s[i]) {
        stack := stack + [CloserOf(s[i])];
      } else if Closes(s[i]) {
        if s[i] != Last(stack) {
          BrokenHasNoGroup(s, start, i);
          return Err(MismatchedDelimiter);
        }
        stack := stack[..|stack| - 1];
        if stack == [] {
          EndIsGroup(t, n + 1);
          assert t[..n + 1] == s[start..i + 1];
          return Ok(i + 1);
        }
      }
    }
    assert t[..|s| - start] == t;
    OpenHasNoGroup(s, start, |s|);
    r := Err(UnclosedDelimiter);
  }
}
