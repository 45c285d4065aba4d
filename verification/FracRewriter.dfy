/** Rewriting \frac{X}{Y} to (X)/(Y), one occurrence at a time, from the left. */
module FracRewriter {
  import opened Options
  import opened RowOps

  const FRAC := "\\frac"

  predicate FracAt(s: string, i: nat) {
    i + 5 <= |s| && s[i..i + 5] == FRAC
  }

  /** The first occurrence of \frac. */
  function Find(s: string): (r: Option<nat>)
    ensures r.Some? ==> FracAt(s, r.value) && NoFracBefore(s, r.value)
    ensures r == None ==> NoFracBefore(s, |s|)
  {
    if s == "" then None
    else if FracAt(s, 0) then Some(0)
    else
      var r := Find(s[1..]);
      FindShifts(s, r);
      Shift(1, r)
  }

  predicate NoFracBefore(s: string, n: nat) {
    forall i :: 0 <= i < n ==> !FracAt(s, i)
  }

  function Shift(n: nat, r: Option<nat>): Option<nat> {
    if r.Some? then Some(n + r.value) else None
  }

  lemma FindShifts(s: string, r: Option<nat>)
    requires s != "" && !FracAt(s, 0)
    requires r.Some? ==> FracAt(s[1..], r.value) && NoFracBefore(s[1..], r.value)
    requires r == None ==> NoFracBefore(s[1..], |s| - 1)
    ensures r.Some? ==> FracAt(s, r.value + 1) && NoFracBefore(s, r.value + 1)
    ensures r == None ==> NoFracBefore(s, |s|)
  {
    forall i: nat | i > 0
      ensures FracAt(s, i) <==> FracAt(s[1..], i - 1)
    {
      if i + 5 <= |s| { assert s[i..i + 5] == s[1..][i - 1..i + 4]; }
    }
  }

  function Spaces(n: nat): string {
    seq(n, _ => ' ')
  }

  function LeadingSpaces(s: string): (r: nat)
    ensures r <= |s|
  {
    if s == "" || s[0] != ' ' then 0 else 1 + LeadingSpaces(s[1..])
  }

  /** Where the nesting depth first falls back to zero. */
  function Scan(s: string, depth: int): (r: Option<nat>)
    ensures r.Some? ==> r.value < |s|
  {
    if s == "" then None
    else if s[0] == '{' then Shift(1, Scan(s[1..], depth + 1))
    else if s[0] == '}' then if depth == 1 then Some(0) else Shift(1, Scan(s[1..], depth - 1))
    else Shift(1, Scan(s[1..], depth))
  }

  /** After optional spaces, a brace group: its content, and what follows. */
  function TakeGroup(s: string): (r: Option<(string, string)>)
    ensures r.Some? ==> |r.value.0| + |r.value.1| + 2 + LeadingSpaces(s) == |s|
  {
    var t := s[LeadingSpaces(s)..];
    if t == "" || t[0] != '{' then None
    else
      match Scan(t, 0)
      case None => None
      case Some(end) => if end == 0 then None else Some((t[1..end], t[end + 1..]))
  }

  /** One rewrite, or nothing where the first \frac is not followed by two groups. */
  function RewriteOnce(s: string): (r: Option<string>)
    ensures r.Some? ==> |r.value| + 4 <= |s|
  {
    match Find(s)
    case None => None
    case Some(idx) => RewriteFracAt(s, idx)
  }

  function RewriteFracAt(s: string, idx: nat): (r: Option<string>)
    requires idx + 5 <= |s|
    ensures r.Some? ==> |r.value| + 4 <= |s|
  {
    match TakeGroup(s[idx + 5..])
    case None => None
    case Some((numerator, after)) =>
      match TakeGroup(after)
      case None => None
      case Some((denominator, rest)) => Some(Quotient(s[..idx], numerator, denominator, rest))
  }

  /** The fraction as it is written in the end, and what stands around it. */
  function Quotient(before: string, numerator: string, denominator: string, rest: string): (r: string)
    ensures |r| == |before| + |numerator| + |denominator| + |rest| + 5
  {
    before + "(" + numerator + ")/(" + denominator + ")" + rest
  }

  function Convert(s: string): (r: string)
    decreases |s|
  {
    match RewriteOnce(s)
    case None => s
    case Some(t) => Convert(t)
  }

  // ---------------------------------------------------------------- the loops

  method SkipSpaces(s: string, start: nat) returns (i: nat)
    requires start <= |s|
    ensures i == start + LeadingSpaces(s[start..])
  {
    i := start;
    while i < |s| && s[i] == ' '
      invariant start <= i <= |s| && start + LeadingSpaces(s[start..]) == i + LeadingSpaces(s[i..])
    {
      assert s[i..][1..] == s[i + 1..];
      i := i + 1;
    }
  }

  /** Where the group that starts here ends, or None if it does not end. */
  method MatchGroup(s: string, start: nat) returns (end: Option<nat>)
    requires start < |s| && s[start] == '{'
    ensures end == Shift(start, Scan(s[start..], 0))
    ensures end.Some? ==> start < end.value < |s|
  {
    var depth := 0;
    var i := start;
    while i < |s|
      invariant start <= i <= |s| && depth >= 0 && (i > start ==> depth > 0)
      invariant Shift(start, Scan(s[start..], 0)) == Shift(i, Scan(s[i..], depth))
    {
      assert s[i..][1..] == s[i + 1..];
      if s[i] == '{' {
        depth := depth + 1;
      } else if s[i] == '}' {
        depth := depth - 1;
        if depth == 0 { return Some(i); }
      }
      i := i + 1;
    }
    return None;
  }

  /** After optional spaces, where the group starts and ends. */
  method GroupAt(s: string, from: nat) returns (r: Option<(nat, nat)>)
    requires from <= |s|
    ensures r == None ==> TakeGroup(s[from..]) == None
    ensures r.Some? ==>
      && from <= r.value.0 < r.value.1 < |s|
      && TakeGroup(s[from..]) == Some((s[r.value.0 + 1..r.value.1], s[r.value.1 + 1..]))
  {
    var start := SkipSpaces(s, from);
    SuffixOfSuffix(s, from, LeadingSpaces(s[from..]));
    if start >= |s| || s[start] != '{' { return None; }
    var end := MatchGroup(s, start);
    if end == None { return None; }
    SuffixOfSuffix(s, start, end.value - start + 1);
    assert s[start..][1..end.value - start] == s[start + 1..end.value];
    return Some((start, end.value));
  }

  lemma SuffixOfSuffix(s: string, i: nat, j: nat)
    requires i + j <= |s|
    ensures s[i..][j..] == s[i + j..]
  {
  }

  /** One turn of the loop, or None where it stops. */
  method Rewrite(expr: string) returns (r: Option<string>)
    ensures r == RewriteOnce(expr)
  {
    var found := Find(expr);
    if found == None { return None; }
    r := RewriteFrom(expr, found.value);
  }

  method RewriteFrom(expr: string, idx: nat) returns (r: Option<string>)
    requires idx + 5 <= |expr|
    ensures r == RewriteFracAt(expr, idx)
  {
    var first := GroupAt(expr, idx + 5);
    if first == None { return None; }
    var second := GroupAt(expr, first.value.1 + 1);
    if second == None { return None; }
    var numerator := expr[first.value.0 + 1..first.value.1];
    var denominator := expr[second.value.0 + 1..second.value.1];
    return Some(Quotient(expr[..idx], numerator, denominator, expr[second.value.1 + 1..]));
  }

  method ConvertFrac(input: string) returns (expr: string)
    ensures expr == Convert(input)
  {
    expr := input;
    var next := Rewrite(expr);
    while next.Some?
      invariant next == RewriteOnce(expr) && Convert(expr) == Convert(input)
      decreases |expr|
    {
      expr := next.value;
      next := Rewrite(expr);
    }
  }

  // ---------------------------------------------------------------- what it does to every string

  /** Nothing is left that a rewrite could apply to, the result is never longer, and rewriting it again does nothing. */
  lemma {:induction false} ConvertReachesAFixpoint(s: string)
    ensures RewriteOnce(Convert(s)) == None && |Convert(s)| <= |s| && Convert(Convert(s)) == Convert(s)
    decreases |s|
  {
    if RewriteOnce(s).Some? { ConvertReachesAFixpoint(RewriteOnce(s).value); }
  }

  // ---------------------------------------------------------------- which strings are rewritten

  /** Opening braces minus closing ones. */
  function Depth(s: string): int {
    if s == "" then 0 else (if s[0] == '{' then 1 else if s[0] == '}' then -1 else 0) + Depth(s[1..])
  }

  /** The closing brace at e takes the depth, begun at `depth`, from one to zero. */
  predicate EndsAt(s: string, depth: int, e: nat) {
    e < |s| && s[e] == '}' && depth + Depth(s[..e]) == 1
  }

  lemma EndsLater(s: string, depth: int, e: nat)
    requires s != "" && e > 0
    ensures EndsAt(s, depth, e) <==> EndsAt(s[1..], depth + Depth(s[..1]), e - 1)
  {
    if e < |s| {
      assert s[..e][0] == s[0] && s[..e][1..] == s[1..][..e - 1];
      assert s[..1][1..] == "" && Depth(s[..1][1..]) == 0;
    }
  }

  /** The scan finds the first such brace, if there is one. */
  lemma {:induction false} ScanExactly(s: string, depth: int)
    ensures match Scan(s, depth)
            case None => forall i :: 0 <= i < |s| ==> !EndsAt(s, depth, i)
            case Some(e) => EndsAt(s, depth, e) && forall i :: 0 <= i < e ==> !EndsAt(s, depth, i)
  {
    if s != "" {
      var d := Depth(s[..1]);
      assert s[..1][1..] == "" && Depth("") == 0;
      assert s[..0] == "";
      forall i | 0 < i < |s|
        ensures EndsAt(s, depth, i) <==> EndsAt(s[1..], depth + d, i - 1)
      {
        EndsLater(s, depth, i);
      }
      if !(s[0] == '}' && depth == 1) { ScanExactly(s[1..], depth + d); }
    }
  }

  /** Every closing brace has its opening one before it, and the other way round. */
  ghost predicate Balanced(x: string) {
    Depth(x) == 0 && forall i :: 0 <= i < |x| ==> Depth(x[..i]) >= 0
  }

  /** Within a group: the scan stops right behind a balanced content, and nowhere else. */
  lemma GroupEnds(x: string, rest: string)
    requires Balanced(x)
    ensures Scan(x + "}" + rest, 1) == Some(|x|)
  {
    var t := x + "}" + rest;
    assert t[..|x|] == x;
    forall i | 0 <= i < |x|
      ensures !EndsAt(t, 1, i)
    {
      assert t[..i] == x[..i];
      if x[i] == '}' {
        DepthOfMore(x, i);
        if i + 1 < |x| { assert Depth(x[..i + 1]) >= 0; } else { assert x[..i + 1] == x; }
      }
    }
    assert t[|x|] == '}' && EndsAt(t, 1, |x|);
    ScanExactly(t, 1);
  }

  lemma DepthOfMore(s: string, i: nat)
    requires i < |s|
    ensures Depth(s[..i + 1]) == Depth(s[..i]) + (if s[i] == '{' then 1 else if s[i] == '}' then -1 else 0)
  {
    assert s[..i + 1] == s[..i] + [s[i]];
    DepthOfJoin(s[..i], [s[i]]);
  }

  lemma {:induction false} DepthOfJoin(a: string, b: string)
    ensures Depth(a + b) == Depth(a) + Depth(b)
  {
    if a == "" {
      assert a + b == b;
    } else {
      assert (a + b)[1..] == a[1..] + b;
      DepthOfJoin(a[1..], b);
    }
  }

  lemma {:induction false} NeverBelow(s: string, e: nat, i: nat)
    requires i <= e <= |s| && forall k :: 0 <= k < e ==> !EndsAt(s, 1, k)
    ensures Depth(s[..i]) >= 0
  {
    if i > 0 {
      NeverBelow(s, e, i - 1);
      DepthOfMore(s, i - 1);
      assert !EndsAt(s, 1, i - 1);
    } else {
      assert s[..0] == "";
    }
  }

  lemma EndedIsBalanced(s: string, e: nat)
    requires Scan(s, 1) == Some(e)
    ensures e < |s| && s[e] == '}' && Balanced(s[..e]) && s == s[..e] + "}" + s[e + 1..]
  {
    ScanExactly(s, 1);
    EndsGroup(s, e);
    SplitAt(s, e);
  }

  lemma SplitAt(s: string, e: nat)
    requires e < |s|
    ensures s == s[..e] + [s[e]] + s[e + 1..]
  {
  }

  lemma EndsGroup(s: string, e: nat)
    requires EndsAt(s, 1, e) && forall k :: 0 <= k < e ==> !EndsAt(s, 1, k)
    ensures Balanced(s[..e])
  {
    forall i | 0 <= i < e
      ensures Depth(s[..e][..i]) >= 0
    {
      assert s[..e][..i] == s[..i];
      NeverBelow(s, e, i);
    }
  }

  lemma {:induction false} SpacesGoFirst(n: nat, t: string)
    requires t == "" || t[0] != ' '
    ensures LeadingSpaces(Spaces(n) + t) == n && (Spaces(n) + t)[n..] == t
  {
    if n == 0 {
      assert Spaces(0) + t == t;
    } else {
      assert Spaces(n) + t == [' '] + (Spaces(n - 1) + t);
      SpacesGoFirst(n - 1, t);
    }
  }

  lemma {:induction false} LeadingAreSpaces(s: string)
    ensures s[..LeadingSpaces(s)] == Spaces(LeadingSpaces(s))
    ensures LeadingSpaces(s) < |s| ==> s[LeadingSpaces(s)] != ' '
  {
    if s != "" && s[0] == ' ' {
      LeadingAreSpaces(s[1..]);
      assert s[..LeadingSpaces(s)] == [' '] + s[1..][..LeadingSpaces(s[1..])];
    }
  }

  /** A group behind some spaces, its content, and what follows. */
  ghost predicate IsGroup(s: string, n: nat, x: string, rest: string) {
    s == Spaces(n) + ("{" + (x + "}" + rest)) && Balanced(x)
  }

  lemma BalancedGroupIsTaken(s: string, n: nat, x: string, rest: string)
    requires IsGroup(s, n, x, rest)
    ensures TakeGroup(s) == Some((x, rest))
  {
    var t := "{" + (x + "}" + rest);
    SpacesGoFirst(n, t);
    GroupEnds(x, rest);
    ScanOverChar('{', x + "}" + rest, 0);
    assert t[1..|x| + 1] == x && t[|x| + 2..] == rest;
  }

  lemma TakenIsGroup(s: string) returns (n: nat)
    requires TakeGroup(s).Some?
    ensures IsGroup(s, n, TakeGroup(s).value.0, TakeGroup(s).value.1)
  {
    n := LeadingSpaces(s);
    LeadingAreSpaces(s);
    var t := s[n..];
    assert s == s[..n] + t && t == ['{'] + t[1..];
    ScanOverChar('{', t[1..], 0);
    var e := Scan(t[1..], 1).value;
    EndedIsBalanced(t[1..], e);
    assert t[1..e + 1] == t[1..][..e] && t[e + 2..] == t[1..][e + 1..];
  }

  /** The first \frac stands at idx and is followed by two groups. */
  ghost predicate IsFraction(s: string, idx: nat, n: nat, x: string, m: nat, y: string, rest: string) {
    && FracAt(s, idx) && NoFracBefore(s, idx)
    && exists after :: IsGroup(s[idx + 5..], n, x, after) && IsGroup(after, m, y, rest)
  }

  lemma FoundFirst(s: string, idx: nat)
    requires FracAt(s, idx) && NoFracBefore(s, idx)
    ensures Find(s) == Some(idx)
  {
  }

  /** A string is rewritten exactly if its first \frac is followed by two groups, and then that fraction is. */
  lemma FractionIsRewritten(s: string, idx: nat, n: nat, x: string, m: nat, y: string, rest: string)
    requires IsFraction(s, idx, n, x, m, y, rest)
    ensures RewriteOnce(s) == Some(s[..idx] + "(" + x + ")/(" + y + ")" + rest)
  {
    var after :| IsGroup(s[idx + 5..], n, x, after) && IsGroup(after, m, y, rest);
    FoundFirst(s, idx);
    BalancedGroupIsTaken(s[idx + 5..], n, x, after);
    BalancedGroupIsTaken(after, m, y, rest);
  }

  lemma RewrittenIsFraction(s: string) returns (idx: nat, n: nat, x: string, m: nat, y: string, rest: string)
    requires RewriteOnce(s).Some?
    ensures IsFraction(s, idx, n, x, m, y, rest)
  {
    idx := Find(s).value;
    n := TakenIsGroup(s[idx + 5..]);
    x := TakeGroup(s[idx + 5..]).value.0;
    var after := TakeGroup(s[idx + 5..]).value.1;
    m := TakenIsGroup(after);
    y, rest := TakeGroup(after).value.0, TakeGroup(after).value.1;
  }

  /** Any other string, one whose first \frac lacks a group among them, is returned unchanged. */
  lemma OthersAreUnchanged(s: string)
    requires forall idx, n, x, m, y, rest :: !IsFraction(s, idx, n, x, m, y, rest)
    ensures Convert(s) == s
  {
    if RewriteOnce(s).Some? {
      var idx, n, x, m, y, rest := RewrittenIsFraction(s);
    }
  }

  // ---------------------------------------------------------------- nested expressions

  /** Text, brace groups, fractions, and fractions already rewritten, each followed by the rest. */
  datatype Tree =
    | Nil
    | Text(text: string, rest: Tree)
    | Group(inner: Tree, rest: Tree)
    | Frac(sp1: nat, num: Tree, sp2: nat, den: Tree, rest: Tree)
    | Over(num: Tree, den: Tree, rest: Tree)

  /** The tree printed, followed by `after`. */
  function PrintThen(t: Tree, after: string): string {
    match t
    case Nil => after
    case Text(text, rest) => text + PrintThen(rest, after)
    case Group(inner, rest) => "{" + PrintThen(inner, "}" + PrintThen(rest, after))
    case Frac(sp1, num, sp2, den, rest) =>
      var d := "{" + PrintThen(den, "}" + PrintThen(rest, after));
      FRAC + (Spaces(sp1) + ("{" + PrintThen(num, "}" + (Spaces(sp2) + d))))
    case Over(num, den, rest) => "(" + PrintThen(num, ")/(" + PrintThen(den, ")" + PrintThen(rest, after)))
  }

  function FracThen(sp1: nat, num: Tree, sp2: nat, den: Tree, after: string): string {
    FRAC + (Spaces(sp1) + ("{" + PrintThen(num, "}" + (Spaces(sp2) + ("{" + PrintThen(den, "}" + after))))))
  }

  function OverThen(num: Tree, den: Tree, after: string): string {
    "(" + PrintThen(num, ")/(" + PrintThen(den, ")" + after))
  }

  function Print(t: Tree): string {
    PrintThen(t, "")
  }

  /** Texts hold no brace and no \frac, and no text follows a text. */
  predicate Well(t: Tree) {
    match t
    case Nil => true
    case Text(text, rest) => '{' !in text && '}' !in text && NoFracBefore(text, |text|) && !rest.Text? && Well(rest)
    case Group(inner, rest) => Well(inner) && Well(rest)
    case Frac(_, num, _, den, rest) => Well(num) && Well(den) && Well(rest)
    case Over(num, den, rest) => Well(num) && Well(den) && Well(rest)
  }

  function FracCount(t: Tree): nat {
    match t
    case Nil => 0
    case Text(_, rest) => FracCount(rest)
    case Group(inner, rest) => FracCount(inner) + FracCount(rest)
    case Frac(_, num, _, den, rest) => 1 + FracCount(num) + FracCount(den) + FracCount(rest)
    case Over(num, den, rest) => FracCount(num) + FracCount(den) + FracCount(rest)
  }

  /** Every fraction written as (N)/(D). */
  function Rewritten(t: Tree): Tree {
    match t
    case Nil => Nil
    case Text(text, rest) => Text(text, Rewritten(rest))
    case Group(inner, rest) => Group(Rewritten(inner), Rewritten(rest))
    case Frac(_, num, _, den, rest) => Over(Rewritten(num), Rewritten(den), Rewritten(rest))
    case Over(num, den, rest) => Over(Rewritten(num), Rewritten(den), Rewritten(rest))
  }

  /** The first fraction, in reading order, written as (N)/(D). */
  function StepTree(t: Tree): Tree
    requires FracCount(t) > 0
  {
    match t
    case Text(text, rest) => Text(text, StepTree(rest))
    case Group(inner, rest) =>
      if FracCount(inner) > 0 then Group(StepTree(inner), rest) else Group(inner, StepTree(rest))
    case Frac(_, num, _, den, rest) => Over(num, den, rest)
    case Over(num, den, rest) =>
      if FracCount(num) > 0 then Over(StepTree(num), den, rest)
      else if FracCount(den) > 0 then Over(num, StepTree(den), rest)
      else Over(num, den, StepTree(rest))
  }

  lemma {:induction false} StepTreeKeeps(t: Tree)
    requires FracCount(t) > 0 && Well(t)
    ensures FracCount(StepTree(t)) < FracCount(t) && Well(StepTree(t)) && Rewritten(StepTree(t)) == Rewritten(t)
    ensures StepTree(t).Text? == t.Text?
  {
    match t
    case Text(_, rest) => StepTreeKeeps(rest);
    case Group(inner, rest) => StepTreeKeeps(if FracCount(inner) > 0 then inner else rest);
    case Frac(_, _, _, _, _) =>
    case Over(num, den, rest) =>
      StepTreeKeeps(if FracCount(num) > 0 then num else if FracCount(den) > 0 then den else rest);
  }

  lemma {:induction false} NoFracIsRewritten(t: Tree)
    requires FracCount(t) == 0
    ensures Rewritten(t) == t
  {
    match t
    case Nil =>
    case Text(_, rest) => NoFracIsRewritten(rest);
    case Group(inner, rest) => NoFracIsRewritten(inner); NoFracIsRewritten(rest);
    case Over(num, den, rest) => NoFracIsRewritten(num); NoFracIsRewritten(den); NoFracIsRewritten(rest);
  }

  // ---------------------------------------------------------------- scanning over a tree

  lemma {:induction false} ScanOverText(s: string, after: string, depth: int)
    requires '{' !in s && '}' !in s
    ensures Scan(s + after, depth) == Shift(|s|, Scan(after, depth))
  {
    if s == "" {
      assert s + after == after;
    } else {
      ScanOverText(s[1..], after, depth);
      assert (s + after)[1..] == s[1..] + after;
    }
  }

  lemma ScanOverChar(c: char, after: string, depth: int)
    ensures Scan([c] + after, depth) == if c == '{' then Shift(1, Scan(after, depth + 1))
                                        else if c != '}' then Shift(1, Scan(after, depth))
                                        else if depth == 1 then Some(0) else Shift(1, Scan(after, depth - 1))
  {
    assert ([c] + after)[1..] == after;
  }

  /** Printing and then appending is printing with the appendix. */
  lemma {:induction false} PrintThenIsPrint(t: Tree, after: string)
    ensures PrintThen(t, after) == Print(t) + after
    decreases t, 0
  {
    match t
    case Nil =>
    case Text(text, rest) =>
      PrintThenIsPrint(rest, after);
      Regroup(text, Print(rest), after);
    case Group(inner, rest) =>
      PrintThenIsPrint(rest, after);
      WrapIsPrint("{", inner, "}", Print(rest), after);
    case Frac(sp1, num, sp2, den, rest) =>
      PrintThenIsPrint(rest, after);
      WrapIsPrint("{", den, "}", Print(rest), after);
      var d := "{" + PrintThen(den, "}" + Print(rest));
      Regroup(Spaces(sp2), d, after);
      WrapIsPrint("{", num, "}", Spaces(sp2) + d, after);
      var n := "{" + PrintThen(num, "}" + (Spaces(sp2) + d));
      Regroup(Spaces(sp1), n, after);
      Regroup(FRAC, Spaces(sp1) + n, after);
    case Over(num, den, rest) =>
      PrintThenIsPrint(rest, after);
      WrapIsPrint(")/(", den, ")", Print(rest), after);
      WrapIsPrint("(", num, "", ")/(" + PrintThen(den, ")" + Print(rest)), after);
      NothingFirst(")/(" + PrintThen(den, ")" + Print(rest)));
      NothingFirst(")/(" + PrintThen(den, ")" + PrintThen(rest, after)));
  }

  lemma NothingFirst(s: string)
    ensures "" + s == s
  {
  }

  lemma {:induction false} WrapIsPrint(before: string, t: Tree, close: string, tail: string, after: string)
    ensures before + PrintThen(t, close + (tail + after)) == (before + PrintThen(t, close + tail)) + after
    decreases t, 1
  {
    PrintThenIsPrint(t, close + (tail + after));
    PrintThenIsPrint(t, close + tail);
    Regroup(close, tail, after);
    Regroup(Print(t), close + tail, after);
    Regroup(before, Print(t) + (close + tail), after);
  }

  lemma PrintLength(t: Tree, after: string)
    ensures |PrintThen(t, after)| == |Print(t)| + |after|
  {
    PrintThenIsPrint(t, after);
  }

  /** A tree opens and closes the same braces: scanning passes over it. */
  lemma {:induction false} ScanOverTree(t: Tree, after: string, depth: int)
    requires depth >= 1 && Well(t)
    ensures Scan(PrintThen(t, after), depth) == Shift(|Print(t)|, Scan(after, depth))
    decreases t, 2
  {
    match t
    case Nil =>
    case Text(text, rest) =>
      ScanOverText(text, PrintThen(rest, after), depth);
      ScanOverTree(rest, after, depth);
    case Group(inner, rest) =>
      ScanOverTree(rest, after, depth);
      ScanOverGroup(inner, PrintThen(rest, after), depth);
      PrintLength(inner, "}" + Print(rest));
    case Frac(_, _, _, _, _) => ScanOverFrac(t, after, depth);
    case Over(_, _, _) => ScanOverOver(t, after, depth);
  }

  lemma {:induction false} ScanOverFrac(t: Tree, after: string, depth: int)
    requires t.Frac? && depth >= 1 && Well(t)
    ensures Scan(PrintThen(t, after), depth) == Shift(|Print(t)|, Scan(after, depth))
    decreases t, 1
  {
    var r := PrintThen(t.rest, after);
    var d := Spaces(t.sp2) + ("{" + PrintThen(t.den, "}" + r));
    ScanOverTree(t.rest, after, depth);
    ScanOverSpacedGroup(Spaces(t.sp2), t.den, r, depth);
    ScanOverSpacedGroup(Spaces(t.sp1), t.num, d, depth);
    ScanOverText(FRAC, Spaces(t.sp1) + ("{" + PrintThen(t.num, "}" + d)), depth);
    FracLength(t);
  }

  lemma {:induction false} ScanOverSpacedGroup(spaces: string, inner: Tree, after: string, depth: int)
    requires '{' !in spaces && '}' !in spaces && depth >= 1 && Well(inner)
    ensures Scan(spaces + ("{" + PrintThen(inner, "}" + after)), depth)
         == Shift(|spaces| + |Print(inner)| + 2, Scan(after, depth))
    decreases inner, 4
  {
    ScanOverGroup(inner, after, depth);
    ScanOverText(spaces, "{" + PrintThen(inner, "}" + after), depth);
  }

  lemma FracLength(t: Tree)
    requires t.Frac?
    ensures |Print(t)| == 9 + t.sp1 + t.sp2 + |Print(t.num)| + |Print(t.den)| + |Print(t.rest)|
  {
    PrintLength(t.den, "}" + Print(t.rest));
    PrintLength(t.num, "}" + (Spaces(t.sp2) + ("{" + PrintThen(t.den, "}" + Print(t.rest)))));
  }

  lemma {:induction false} ScanOverOver(t: Tree, after: string, depth: int)
    requires t.Over? && depth >= 1 && Well(t)
    ensures Scan(PrintThen(t, after), depth) == Shift(|Print(t)|, Scan(after, depth))
    decreases t, 1
  {
    var r := PrintThen(t.rest, after);
    var d := PrintThen(t.den, ")" + r);
    ScanOverWrapped(")", t.rest, after, depth);
    ScanOverWrapped(")/(", t.den, ")" + r, depth);
    ScanOverWrapped("(", t.num, ")/(" + d, depth);
    ThreeShifts(1 + |Print(t.num)|, 3 + |Print(t.den)|, 1 + |Print(t.rest)|, Scan(after, depth));
    OverLength(t);
  }

  lemma {:induction false} ScanOverWrapped(open: string, inner: Tree, after: string, depth: int)
    requires '{' !in open && '}' !in open && depth >= 1 && Well(inner)
    ensures Scan(open + PrintThen(inner, after), depth) == Shift(|open| + |Print(inner)|, Scan(after, depth))
    decreases inner, 3
  {
    ScanOverTree(inner, after, depth);
    ScanOverText(open, PrintThen(inner, after), depth);
  }

  lemma ThreeShifts(a: nat, b: nat, c: nat, at: Option<nat>)
    ensures Shift(a, Shift(b, Shift(c, at))) == Shift(a + b + c, at)
  {
  }

  lemma OverLength(t: Tree)
    requires t.Over?
    ensures |Print(t)| == 5 + |Print(t.num)| + |Print(t.den)| + |Print(t.rest)|
  {
    PrintLength(t.den, ")" + Print(t.rest));
    PrintLength(t.num, ")/(" + PrintThen(t.den, ")" + Print(t.rest)));
  }

  /** A group is scanned to its closing brace, and passed over inside another one. */
  lemma {:induction false} ScanOverGroup(inner: Tree, after: string, depth: int)
    requires depth >= 0 && Well(inner)
    ensures Scan("{" + PrintThen(inner, "}" + after), depth)
         == if depth == 0 then Some(|Print(inner)| + 1) else Shift(|Print(inner)| + 2, Scan(after, depth))
    decreases inner, 3
  {
    ScanOverChar('{', PrintThen(inner, "}" + after), depth);
    ScanOverTree(inner, "}" + after, depth + 1);
    ScanOverChar('}', after, depth + 1);
  }

  /** A group that was printed is taken apart again. */
  lemma GroupIsTaken(spaces: nat, inner: Tree, after: string)
    requires Well(inner)
    ensures TakeGroup(Spaces(spaces) + ("{" + PrintThen(inner, "}" + after))) == Some((Print(inner), after))
  {
    var t := "{" + PrintThen(inner, "}" + after);
    SpacesAreSkipped(spaces, t);
    ScanOverGroup(inner, after, 0);
    PrintThenIsPrint(inner, "}" + after);
    BetweenBraces(Print(inner), after);
  }

  lemma BetweenBraces(content: string, after: string)
    ensures var t, end := "{" + (content + ("}" + after)), |content| + 1;
            end < |t| && t[1..end] == content && t[end + 1..] == after
  {
  }

  lemma {:induction false} SpacesAreSkipped(n: nat, s: string)
    requires s != "" && s[0] != ' '
    ensures LeadingSpaces(Spaces(n) + s) == n && (Spaces(n) + s)[n..] == s
  {
    if n == 0 {
      assert Spaces(n) + s == s;
    } else {
      SpacesAreSkipped(n - 1, s);
      assert (Spaces(n) + s)[1..] == Spaces(n - 1) + s;
    }
  }

  // ---------------------------------------------------------------- finding the first fraction

  /** What follows a text cannot complete a \frac begun in the text. */
  predicate Safe(s: string) {
    s == "" || (s[0] != 'f' && s[0] != 'r' && s[0] != 'a' && s[0] != 'c')
  }

  lemma NoFracAcross(s: string, after: string)
    requires NoFracBefore(s, |s|) && Safe(after)
    ensures NoFracBefore(s + after, |s|)
  {
    forall i | 0 <= i < |s|
      ensures !FracAt(s + after, i)
    {
      if i + 5 <= |s| {
        assert !FracAt(s, i) && (s + after)[i..i + 5] == s[i..i + 5];
      } else if i + 5 <= |s + after| {
        assert (s + after)[i..i + 5][|s| - i] == after[0];
        assert FRAC[|s| - i] == 'f' || FRAC[|s| - i] == 'r' || FRAC[|s| - i] == 'a' || FRAC[|s| - i] == 'c';
      }
    }
  }

  lemma NoFracOn(s: string, n: nat, prefix: string)
    requires NoFracBefore(s, n) && NoFracBefore(prefix + s, |prefix|)
    ensures NoFracBefore(prefix + s, |prefix| + n)
  {
    forall i | |prefix| <= i < |prefix| + n
      ensures !FracAt(prefix + s, i)
    {
      assert !FracAt(s, i - |prefix|);
      if i + 5 <= |prefix + s| { assert (prefix + s)[i..i + 5] == s[i - |prefix|..i - |prefix| + 5]; }
    }
  }

  /** A prefix without a backslash starts no \frac. */
  lemma NoFracInPlain(prefix: string, s: string)
    requires '\\' !in prefix
    ensures NoFracBefore(prefix + s, |prefix|)
  {
    forall i | 0 <= i < |prefix|
      ensures !FracAt(prefix + s, i)
    {
      if i + 5 <= |prefix + s| { assert (prefix + s)[i..i + 5][0] == prefix[i]; }
    }
  }

  /** A tree without a fraction prints no \frac. */
  lemma {:induction false} NoFracPrinted(t: Tree, after: string)
    requires Well(t) && FracCount(t) == 0 && Safe(after)
    ensures NoFracBefore(PrintThen(t, after), |Print(t)|) && (!t.Text? ==> Safe(PrintThen(t, after)))
    decreases t, 0
  {
    match t
    case Nil =>
    case Text(text, rest) =>
      NoFracPrinted(rest, after);
      NoFracAcross(text, PrintThen(rest, after));
      NoFracOn(PrintThen(rest, after), |Print(rest)|, text);
    case Group(inner, rest) =>
      var r := PrintThen(rest, after);
      NoFracPrinted(rest, after);
      NoFracWrapped("{", inner, "}", r, |Print(rest)|);
      PrintLength(inner, "}" + Print(rest));
    case Over(num, den, rest) =>
      var r := PrintThen(rest, after);
      NoFracPrinted(rest, after);
      NoFracWrapped("", den, ")", r, |Print(rest)|);
      NothingFirst(PrintThen(den, ")" + r));
      NoFracWrapped("(", num, ")/(", PrintThen(den, ")" + r), |Print(den)| + 1 + |Print(rest)|);
      OverLength(t);
  }

  /** Plain text around a tree without a fraction prints no \frac either. */
  lemma {:induction false} NoFracWrapped(before: string, t: Tree, close: string, r: string, n: nat)
    requires Well(t) && FracCount(t) == 0 && NoFracBefore(r, n)
    requires '\\' !in before && '\\' !in close && close != "" && Safe(close)
    ensures NoFracBefore(before + PrintThen(t, close + r), |before| + |Print(t)| + |close| + n)
    decreases t, 1
  {
    NoFracInPlain(close, r);
    NoFracOn(r, n, close);
    NoFracPrinted(t, close + r);
    PrintThenIsPrint(t, close + r);
    NoFracOn(close + r, |close| + n, Print(t));
    NoFracInPlain(before, PrintThen(t, close + r));
    NoFracOn(PrintThen(t, close + r), |Print(t)| + |close| + n, before);
  }

  // ---------------------------------------------------------------- rewriting a printed tree

  /** Where the first fraction of a printed tree is: behind `before`, followed by `after`. */
  datatype Place = Place(before: string, sp1: nat, num: Tree, sp2: nat, den: Tree, after: string)

  ghost predicate IsFirstFrac(p: Place, printed: string, stepped: string) {
    && printed == p.before + FracThen(p.sp1, p.num, p.sp2, p.den, p.after)
    && stepped == p.before + OverThen(p.num, p.den, p.after)
    && NoFracBefore(printed, |p.before|) && Well(p.num) && Well(p.den)
  }

  /** Printing something without a \frac in front of it moves the place of the first fraction. */
  lemma PlaceBehind(prefix: string, p: Place, printed: string, stepped: string)
    requires IsFirstFrac(p, printed, stepped) && NoFracBefore(prefix + printed, |prefix|)
    ensures IsFirstFrac(p.(before := prefix + p.before), prefix + printed, prefix + stepped)
  {
    NoFracOn(printed, |p.before|, prefix);
    Regroup(prefix, p.before, FracThen(p.sp1, p.num, p.sp2, p.den, p.after));
    Regroup(prefix, p.before, OverThen(p.num, p.den, p.after));
  }

  lemma {:induction false} FirstFrac(t: Tree, after: string) returns (p: Place)
    requires Well(t) && FracCount(t) > 0
    ensures IsFirstFrac(p, PrintThen(t, after), PrintThen(StepTree(t), after))
    ensures !t.Text? ==> Safe(PrintThen(t, after))
    decreases t, 0
  {
    match t
    case Text(text, rest) =>
      p := FirstFrac(rest, after);
      NoFracAcross(text, PrintThen(rest, after));
      PlaceBehind(text, p, PrintThen(rest, after), PrintThen(StepTree(rest), after));
      p := p.(before := text + p.before);
    case Group(inner, rest) =>
      var r := PrintThen(rest, after);
      if FracCount(inner) > 0 {
        p := FirstFracIn("{", inner, "}" + r);
      } else {
        var q := FirstFrac(rest, after);
        p := FirstFracBehind("{", inner, "}", q, r, PrintThen(StepTree(rest), after));
      }
    case Frac(sp1, num, sp2, den, rest) =>
      p := Place("", sp1, num, sp2, den, PrintThen(rest, after));
      NothingFirst(PrintThen(t, after));
      NothingFirst(PrintThen(StepTree(t), after));
    case Over(num, den, rest) =>
      var r := PrintThen(rest, after);
      if FracCount(num) > 0 {
        p := FirstFracIn("(", num, ")/(" + PrintThen(den, ")" + r));
      } else if FracCount(den) > 0 {
        var q := FirstFrac(den, ")" + r);
        p := FirstFracBehind("(", num, ")/(", q, PrintThen(den, ")" + r), PrintThen(StepTree(den), ")" + r));
      } else {
        var r' := PrintThen(StepTree(rest), after);
        var q := FirstFrac(rest, after);
        var q' := FirstFracBehind("", den, ")", q, r, r');
        NothingFirst(PrintThen(den, ")" + r));
        NothingFirst(PrintThen(den, ")" + r'));
        p := FirstFracBehind("(", num, ")/(", q', PrintThen(den, ")" + r), PrintThen(den, ")" + r'));
      }
  }

  /** The first fraction is in the tree behind a bracket. */
  lemma {:induction false} FirstFracIn(open: string, t: Tree, after: string) returns (p: Place)
    requires Well(t) && FracCount(t) > 0 && '\\' !in open
    ensures IsFirstFrac(p, open + PrintThen(t, after), open + PrintThen(StepTree(t), after))
    decreases t, 1
  {
    var q := FirstFrac(t, after);
    NoFracInPlain(open, PrintThen(t, after));
    PlaceBehind(open, q, PrintThen(t, after), PrintThen(StepTree(t), after));
    p := q.(before := open + q.before);
  }

  /** The first fraction is behind a bracketed tree without one. */
  lemma FirstFracBehind(open: string, t: Tree, close: string, q: Place, r: string, r': string) returns (p: Place)
    requires Well(t) && FracCount(t) == 0 && '\\' !in open && '\\' !in close && close != "" && Safe(close)
    requires IsFirstFrac(q, r, r')
    ensures IsFirstFrac(p, open + PrintThen(t, close + r), open + PrintThen(t, close + r'))
  {
    NoFracInPlain(close, r);
    PlaceBehind(close, q, r, r');
    var q1 := q.(before := close + q.before);
    NoFracPrinted(t, close + r);
    PrintThenIsPrint(t, close + r);
    PrintThenIsPrint(t, close + r');
    PlaceBehind(Print(t), q1, close + r, close + r');
    var q2 := q1.(before := Print(t) + q1.before);
    NoFracInPlain(open, PrintThen(t, close + r));
    PlaceBehind(open, q2, PrintThen(t, close + r), PrintThen(t, close + r'));
    p := q2.(before := open + q2.before);
  }

  lemma FindIs(s: string, n: nat)
    requires FracAt(s, n) && NoFracBefore(s, n)
    ensures Find(s) == Some(n)
  {
  }

  /** A rewrite turns the first fraction of a printed tree into (N)/(D). */
  lemma RewriteIsStepTree(t: Tree)
    requires Well(t) && FracCount(t) > 0
    ensures RewriteOnce(Print(t)) == Some(Print(StepTree(t)))
  {
    var p := FirstFrac(t, "");
    RewriteAt(p, Print(t), Print(StepTree(t)));
  }

  lemma RewriteAt(p: Place, s: string, s': string)
    requires IsFirstFrac(p, s, s')
    ensures RewriteOnce(s) == Some(s')
  {
    var d := "{" + PrintThen(p.den, "}" + p.after);
    var behind := Spaces(p.sp1) + ("{" + PrintThen(p.num, "}" + (Spaces(p.sp2) + d)));
    BehindFrac(p.before, behind);
    FindIs(s, |p.before|);
    GroupIsTaken(p.sp1, p.num, Spaces(p.sp2) + d);
    GroupIsTaken(p.sp2, p.den, p.after);
    PrintThenIsPrint(p.num, ")/(" + PrintThen(p.den, ")" + p.after));
    PrintThenIsPrint(p.den, ")" + p.after);
    JoinOver(p.before, Print(p.num), Print(p.den), p.after);
  }

  lemma BehindFrac(before: string, behind: string)
    ensures var s := before + (FRAC + behind);
            FracAt(s, |before|) && s[..|before|] == before && s[|before| + 5..] == behind
  {
  }

  lemma JoinOver(a: string, n: string, d: string, b: string)
    ensures a + "(" + n + ")/(" + d + ")" + b == a + ("(" + (n + (")/(" + (d + (")" + b)))))
  {
  }

  /** The printed form of any nested expression is rewritten to the same expression printed with every fraction
      as (N)/(D), whatever the nesting. */
  lemma {:induction false} ConvertRewritesEveryFraction(t: Tree)
    requires Well(t)
    ensures Convert(Print(t)) == Print(Rewritten(t))
    decreases FracCount(t)
  {
    if FracCount(t) == 0 {
      NoFracIsRewritten(t);
      NoFracPrinted(t, "");
    } else {
      RewriteIsStepTree(t);
      StepTreeKeeps(t);
      ConvertRewritesEveryFraction(StepTree(t));
    }
  }
}
