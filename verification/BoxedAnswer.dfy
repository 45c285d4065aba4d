/** Extracting the answer from the last \boxed{...} of a solution. */
module BoxedAnswer {
  import opened Options
  import opened RowOps
  import opened FracRewriter

  const BOXED := "\\boxed"
  const FBOX := "\\fbox"

  predicate OccursAt(s: string, pattern: string, i: nat) {
    i + |pattern| <= |s| && s[i..i + |pattern|] == pattern
  }

  lemma OccursExactly(s: string, pattern: string, i: nat)
    ensures OccursAt(s, pattern, i) <==> exists before, after :: s == before + pattern + after && |before| == i
  {
    if OccursAt(s, pattern, i) {
      assert s == s[..i] + pattern + s[i + |pattern|..];
    }
    forall before, after: string | s == before + pattern + after && |before| == i
      ensures OccursAt(s, pattern, i)
    {
      assert (before + pattern + after)[i..i + |pattern|] == pattern;
    }
  }

  /** The last occurrence of a pattern. */
  function RFind(s: string, pattern: string): (r: Option<nat>)
    ensures r.Some? ==> OccursAt(s, pattern, r.value) && forall i :: r.value < i <= |s| ==> !OccursAt(s, pattern, i)
    ensures r == None ==> forall i :: 0 <= i <= |s| ==> !OccursAt(s, pattern, i)
  {
    RFindFrom(s, pattern, |s|)
  }

  function RFindFrom(s: string, pattern: string, i: nat): (r: Option<nat>)
    requires i <= |s|
    ensures r.Some? ==>
              && r.value <= i && OccursAt(s, pattern, r.value)
              && forall j :: r.value < j <= i ==> !OccursAt(s, pattern, j)
    ensures r == None ==> forall j :: 0 <= j <= i ==> !OccursAt(s, pattern, j)
  {
    if OccursAt(s, pattern, i) then Some(i) else if i == 0 then None else RFindFrom(s, pattern, i - 1)
  }

  /** From the box to the brace where the nesting depth falls back to zero. */
  function LastBoxed(s: string): Option<string> {
    var boxed := RFind(s, BOXED);
    var found := if boxed.Some? then boxed else RFind(s, FBOX);
    match found
    case None => None
    case Some(idx) =>
      match Scan(s[idx..], 0)
      case None => None
      case Some(end) => Some(s[idx..idx + end + 1])
  }

  function RemoveBoxed(s: Option<string>): Option<string> {
    if s.Some? && |s.value| > 7 && s.value[..7] == BOXED + "{" && s.value[|s.value| - 1] == '}'
    then Some(s.value[7..|s.value| - 1]) else None
  }

  function ExtractBoxedAnswer(s: string): Option<string> {
    RemoveBoxed(LastBoxed(s))
  }

  /** Where the nesting depth, counted from there on, falls back to zero. */
  method RightBrace(s: string, from: nat) returns (r: Option<nat>)
    requires from <= |s|
    ensures r == Shift(from, Scan(s[from..], 0))
  {
    var i, open := from, 0;
    while i < |s|
      invariant from <= i <= |s|
      invariant Shift(from, Scan(s[from..], 0)) == Shift(i, Scan(s[i..], open))
    {
      assert s[i..][1..] == s[i + 1..];
      if s[i] == '{' { open := open + 1; }
      if s[i] == '}' {
        open := open - 1;
        if open == 0 { return Some(i); }
      }
      i := i + 1;
    }
    return None;
  }

  method LastBoxedOnlyString(s: string) returns (r: Option<string>)
    ensures r == LastBoxed(s)
  {
    var idx := RFind(s, BOXED);
    if idx == None {
      idx := RFind(s, FBOX);
      if idx == None { return None; }
    }
    var end := RightBrace(s, idx.value);
    if end == None { return None; }
    return Some(s[idx.value..end.value + 1]);
  }

  /** No occurrence of the pattern after position `at`. */
  predicate NoneAfter(s: string, pattern: string, at: int) {
    forall i :: 0 <= i <= |s| && i > at ==> !OccursAt(s, pattern, i)
  }

  /** The box starts at the last \boxed or, if there is none, at the last \fbox; it goes up to the first brace that
      closes the depth opened from there on, and there is no box without such a brace. */
  lemma LastBoxedExactly(s: string, at: nat)
    requires || (OccursAt(s, BOXED, at) && NoneAfter(s, BOXED, at))
             || (NoneAfter(s, BOXED, -1) && OccursAt(s, FBOX, at) && NoneAfter(s, FBOX, at))
    ensures at <= |s|
    ensures match LastBoxed(s)
            case None => forall e :: 0 <= e < |s| - at ==> !EndsAt(s[at..], 0, e)
            case Some(box) =>
              && box != "" && box <= s[at..] && EndsAt(s[at..], 0, |box| - 1)
              && forall e :: 0 <= e < |box| - 1 ==> !EndsAt(s[at..], 0, e)
  {
    var boxed, fbox := RFind(s, BOXED), RFind(s, FBOX);
    assert if OccursAt(s, BOXED, at) && NoneAfter(s, BOXED, at) then boxed == Some(at)
           else boxed == None && fbox == Some(at);
    ScanExactly(s[at..], 0);
    if Scan(s[at..], 0).Some? {
      assert s[at..at + Scan(s[at..], 0).value + 1] == s[at..][..Scan(s[at..], 0).value + 1];
    }
  }

  lemma NoBoxAtAll(s: string)
    requires NoneAfter(s, BOXED, -1) && NoneAfter(s, FBOX, -1)
    ensures LastBoxed(s) == None
  {
  }

  /** An answer is extracted exactly when the text has a \boxed whose last occurrence is directly followed by a
      brace group that ends; a solution that only has an \fbox gives no answer, though the search looks for it. */
  lemma ExtractedExactly(s: string)
    ensures ExtractBoxedAnswer(s).Some? <==>
      var at := RFind(s, BOXED);
      at.Some? && at.value + 6 < |s| && s[at.value + 6] == '{' && Scan(s[at.value + 6..], 0).Some?
  {
    var at := RFind(s, BOXED);
    if at.Some? {
      BoxedPrefix(s, at.value);
    } else {
      var f := RFind(s, FBOX);
      if f.Some? && Scan(s[f.value..], 0).Some? {
        var t := s[f.value..f.value + Scan(s[f.value..], 0).value + 1];
        if |t| > 7 { assert t[1] == s[f.value..f.value + 5][1] == 'f'; }
      }
    }
  }

  /** The scan passes over \boxed itself. */
  lemma ScanBehindBoxed(s: string, at: nat)
    requires OccursAt(s, BOXED, at)
    ensures Scan(s[at..], 0) == Shift(6, Scan(s[at + 6..], 0))
  {
    assert s[at..] == BOXED + s[at + 6..];
    ScanOverText(BOXED, s[at + 6..], 0);
  }

  /** A box that begins with \boxed and a brace and ends with one has a content. */
  lemma GroupIsRemoved(s: string, at: nat, end: nat)
    requires OccursAt(s, BOXED, at) && at + 6 < at + end < |s| && s[at + 6] == '{' && s[at + end] == '}'
    ensures RemoveBoxed(Some(s[at..at + end + 1])).Some?
  {
    var t := s[at..at + end + 1];
    assert t[..6] == s[at..at + 6];
    assert t[6] == '{' && t[|t| - 1] == '}';
    assert t[..7] == t[..6] + [t[6]];
  }

  lemma BoxedPrefix(s: string, at: nat)
    requires RFind(s, BOXED) == Some(at)
    ensures RemoveBoxed(LastBoxed(s)).Some?
       <==> at + 6 < |s| && s[at + 6] == '{' && Scan(s[at + 6..], 0).Some?
  {
    ScanBehindBoxed(s, at);
    if at + 6 < |s| && s[at + 6] == '{' && Scan(s[at + 6..], 0).Some? {
      ScanEnds(s[at + 6..], 0);
      var end := Scan(s[at..], 0).value;
      assert s[at + end] == s[at + 6..][end - 6];
      GroupIsRemoved(s, at, end);
    }
    if RemoveBoxed(LastBoxed(s)).Some? {
      var t := LastBoxed(s).value;
      assert t[6] == t[..7][6] == '{' && t[6] == s[at + 6];
    }
  }

  lemma {:induction false} ScanEnds(s: string, depth: int)
    ensures Scan(s, depth).Some? ==> s[Scan(s, depth).value] == '}'
    ensures depth == 0 && s != "" && s[0] == '{' && Scan(s, depth).Some? ==> Scan(s, depth).value > 0
  {
    if s != "" {
      if s[0] == '{' {
        ScanEnds(s[1..], depth + 1);
      } else if s[0] == '}' {
        ScanEnds(s[1..], depth - 1);
      } else {
        ScanEnds(s[1..], depth);
      }
    }
  }

  /** The content of the last \boxed{...} is extracted whole, however deeply its braces nest. */
  lemma BoxedContentIsExtracted(before: string, content: Tree, after: string)
    requires Well(content)
    requires RFind(before + (BOXED + ("{" + (Print(content) + ("}" + after)))), BOXED) == Some(|before|)
    ensures ExtractBoxedAnswer(before + (BOXED + ("{" + (Print(content) + ("}" + after))))) == Some(Print(content))
  {
    var group := "{" + (Print(content) + ("}" + after));
    var s := before + (BOXED + group);
    var box := BOXED + ("{" + (Print(content) + "}"));
    ScanOverText(BOXED, group, 0);
    PrintThenIsPrint(content, "}" + after);
    ScanOverGroup(content, after, 0);
    BoxInText(Print(content), after);
    Inner(before, box, after, s);
    ContentIsRemoved(Print(content));
    BoxFound(s, |before|, box);
  }

  lemma BoxInText(content: string, after: string)
    ensures BOXED + ("{" + (content + ("}" + after))) == (BOXED + ("{" + (content + "}"))) + after
  {
    Regroup(content, "}", after);
    Regroup("{", content + "}", after);
    Regroup(BOXED, "{" + (content + "}"), after);
  }

  lemma BoxFound(s: string, at: nat, box: string)
    requires RFind(s, BOXED) == Some(at) && box != "" && Scan(s[at..], 0) == Some(|box| - 1)
    requires at + |box| <= |s| && s[at..at + |box|] == box
    ensures LastBoxed(s) == Some(box)
  {
  }

  lemma Inner(before: string, part: string, after: string, s: string)
    requires s == before + (part + after)
    ensures |before| + |part| <= |s| && s[|before|..|before| + |part|] == part && s[|before|..] == part + after
  {
  }

  lemma ContentIsRemoved(content: string)
    ensures RemoveBoxed(Some(BOXED + ("{" + (content + "}")))) == Some(content)
  {
    var t := BOXED + ("{" + (content + "}"));
    assert t[..7] == BOXED + "{";
    assert t[7..|t| - 1] == content;
  }
}
