/** The text of replay keys: uid, session and index joined by underscores, and split again from the right. */
module TrajectoryKeys {
  import opened Options
  import opened ReplayBuffer

  function Digit(d: nat): char
    requires d < 10
  {
    "0123456789"[d]
  }

  function Decimal(n: nat): (r: string)
    ensures |r| > 0 && '_' !in r
  {
    if n < 10 then [Digit(n)] else Decimal(n / 10) + [Digit(n % 10)]
  }

  function DigitValue(c: char): nat {
    if '0' <= c <= '9' then (c as int) - ('0' as int) else 0
  }

  /** int(...) of a decimal text. */
  function ParseDecimal(s: string): nat {
    if s == "" then 0 else 10 * ParseDecimal(s[..|s| - 1]) + DigitValue(s[|s| - 1])
  }

  lemma {:induction false} DecimalParses(n: nat)
    ensures ParseDecimal(Decimal(n)) == n
  {
    if n < 10 {
      assert [Digit(n)][..0] == "";
    } else {
      DecimalParses(n / 10);
      assert Decimal(n)[..|Decimal(n)| - 1] == Decimal(n / 10);
    }
  }

  function Text(k: Key): string {
    match k
    case PromptKey(uid) => uid
    case TrajectoryKey(uid, session, index) => uid + "_" + Decimal(session) + "_" + Decimal(index)
  }

  /** The last underscore, as an index, or the length if there is none. */
  function LastUnderscore(s: string): (r: nat)
    ensures r <= |s|
    ensures r < |s| ==> s[r] == '_' && forall i :: r < i < |s| ==> s[i] != '_'
    ensures r == |s| ==> '_' !in s
  {
    if s == "" then 0
    else if s[|s| - 1] == '_' then |s| - 1
    else
      var k := LastUnderscore(s[..|s| - 1]);
      if k == |s| - 1 then |s| else k
  }

  /** rsplit("_", 2) where it gives three fields. */
  function SplitKey(s: string): Option<(string, string, string)> {
    var b := LastUnderscore(s);
    if b == |s| then None
    else
      var a := LastUnderscore(s[..b]);
      if a == b then None else Some((s[..a], s[a + 1..b], s[b + 1..]))
  }

  lemma LastUnderscoreIs(s: string, n: nat)
    requires n < |s| && s[n] == '_' && forall i :: n < i < |s| ==> s[i] != '_'
    ensures LastUnderscore(s) == n
  {
  }

  lemma AfterUnderscore(head: string, tail: string, i: nat)
    requires |head| < i < |head + "_" + tail|
    ensures (head + "_" + tail)[i] in tail
  {
    assert (head + "_" + tail)[i] == tail[i - |head| - 1];
  }

  lemma LastUnderscoreBefore(head: string, tail: string)
    requires '_' !in tail
    ensures LastUnderscore(head + "_" + tail) == |head|
  {
    var s := head + "_" + tail;
    forall i | |head| < i < |s|
      ensures s[i] != '_'
    {
      AfterUnderscore(head, tail, i);
    }
    LastUnderscoreIs(s, |head|);
  }

  lemma SplitThree(a: string, b: string, c: string)
    requires '_' !in b && '_' !in c
    ensures SplitKey(a + "_" + b + "_" + c) == Some((a, b, c))
  {
    var head := a + "_" + b;
    var s := head + "_" + c;
    LastUnderscoreBefore(head, c);
    LastUnderscoreBefore(a, b);
    assert s[..|head|] == head && s[|head| + 1..] == c;
    assert s[..|a|] == a && s[|a| + 1..|head|] == b;
  }

  /** Splitting a trajectory key from the right gives back its three parts, whatever the uid contains. */
  lemma SplitKeyUndoesText(uid: string, session: nat, index: nat)
    ensures SplitKey(Text(TrajectoryKey(uid, session, index))) == Some((uid, Decimal(session), Decimal(index)))
    ensures ParseDecimal(Decimal(session)) == session && ParseDecimal(Decimal(index)) == index
  {
    SplitThree(uid, Decimal(session), Decimal(index));
    DecimalParses(session);
    DecimalParses(index);
  }

  /** Different keys have different texts, as long as uids contain no underscore. */
  lemma TextIsInjective(a: Key, b: Key)
    requires '_' !in a.uid && '_' !in b.uid && Text(a) == Text(b)
    ensures a == b
  {
    if a.TrajectoryKey? {
      SplitKeyUndoesText(a.uid, a.session, a.index);
      assert Text(a)[|a.uid|] == '_';
    }
    if b.TrajectoryKey? {
      SplitKeyUndoesText(b.uid, b.session, b.index);
      assert Text(b)[|b.uid|] == '_';
    }
  }
}
