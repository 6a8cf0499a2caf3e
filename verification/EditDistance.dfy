/**
 The edit distance that tolerates typing errors in entity names (kb-agent/cleaner.py):
 the dynamic-programming table computes the length of a shortest edit script, and that
 length is a metric.
 */
module EditDistance {

  // ----- Edit scripts: the independent definition -----

  /** One edit of a string at a position. */
  datatype Edit = Insert(at: nat, c: char) | Delete(at: nat) | Substitute(at: nat, c: char)

  predicate Applicable(e: Edit, s: string) {
    if e.Insert? then e.at <= |s| else e.at < |s|
  }

  function Apply(e: Edit, s: string): string
    requires Applicable(e, s)
  {
    match e
    case Insert(i, c) => s[..i] + [c] + s[i..]
    case Delete(i) => s[..i] + s[i + 1..]
    case Substitute(i, c) => s[i := c]
  }

  /** The edits, made one after the other, turn `a` into `b`. */
  predicate Transforms(script: seq<Edit>, a: string, b: string)
    decreases |script|
  {
    if script == [] then a == b
    else Applicable(script[0], a) && Transforms(script[1..], Apply(script[0], a), b)
  }

  // ----- The recurrence the table is filled by -----

  function Min3(x: nat, y: nat, z: nat): nat {
    var m := if x <= y then x else y;
    if m <= z then m else z
  }

  function Cost(x: char, y: char): nat {
    if x == y then 0 else 1
  }

  function Init(s: string): string
    requires s != ""
  {
    s[..|s| - 1]
  }

  function Last(s: string): char
    requires s != ""
  {
    s[|s| - 1]
  }

  function Distance(a: string, b: string): nat
    decreases |a| + |b|
  {
    if a == "" then |b|
    else if b == "" then |a|
    else Min3(Distance(Init(a), b) + 1, Distance(a, Init(b)) + 1,
              Distance(Init(a), Init(b)) + Cost(Last(a), Last(b)))
  }

  // ----- Metric -----

  lemma {:induction false} LengthBounds(a: string, b: string)
    ensures |a| - |b| <= Distance(a, b) && |b| - |a| <= Distance(a, b)
    ensures Distance(a, b) <= |a| || Distance(a, b) <= |b|
    decreases |a| + |b|
  {
    if a == "" || b == "" {
    } else {
      LengthBounds(Init(a), b);
      LengthBounds(a, Init(b));
      LengthBounds(Init(a), Init(b));
    }
  }

  /** The distance lies between the difference of the lengths and the longer length. */
  lemma {:induction false} BetweenLengths(a: string, b: string)
    ensures (if |a| >= |b| then |a| - |b| else |b| - |a|) <= Distance(a, b)
    ensures Distance(a, b) <= if |a| >= |b| then |a| else |b|
  {
    LengthBounds(a, b);
  }

  lemma EqualBySplit(a: string, b: string)
    requires a != "" && b != ""
    ensures a == b <==> Init(a) == Init(b) && Last(a) == Last(b)
  {
    SplitLast(a);
    SplitLast(b);
  }

  lemma {:induction false} ZeroIffEqual(a: string, b: string)
    ensures Distance(a, b) == 0 <==> a == b
    decreases |a|
  {
    if a == "" || b == "" {
    } else {
      ZeroIffEqual(Init(a), Init(b));
      EqualBySplit(a, b);
    }
  }

  lemma {:induction false} Symmetric(a: string, b: string)
    ensures Distance(a, b) == Distance(b, a)
    decreases |a| + |b|
  {
    if a == "" || b == "" {
    } else {
      Symmetric(Init(a), b);
      Symmetric(a, Init(b));
      Symmetric(Init(a), Init(b));
    }
  }

  lemma {:induction false} Triangle(a: string, b: string, c: string)
    ensures Distance(a, c) <= Distance(a, b) + Distance(b, c)
    decreases |a| + |b| + |c|
  {
    if a == "" || b == "" || c == "" {
      LengthBounds(a, b);
      LengthBounds(b, c);
      LengthBounds(a, c);
    } else {
      var a', b', c' := Init(a), Init(b), Init(c);
      if Distance(a, b) == Distance(a', b) + 1 {
        Triangle(a', b, c);
      } else if Distance(b, c) == Distance(b, c') + 1 {
        Triangle(a, b, c');
      } else if Distance(a, b) == Distance(a, b') + 1 && Distance(b, c) == Distance(b', c) + 1 {
        Triangle(a, b', c);
      } else if Distance(a, b) == Distance(a, b') + 1 {
        Triangle(a, b', c');
      } else if Distance(b, c) == Distance(b', c) + 1 {
        Triangle(a', b', c);
      } else {
        Triangle(a', b', c');
      }
    }
  }

  // ----- The distance is the length of a shortest script -----

  lemma SameEnd(x: string, y: string)
    requires x != "" && y != "" && Last(x) == Last(y)
    ensures Distance(x, y) <= Distance(Init(x), Init(y))
  {
  }

  lemma {:induction false} SameTail(a: string, b: string, tail: string)
    ensures Distance(a + tail, b + tail) <= Distance(a, b)
    decreases |tail|
  {
    if tail == "" {
      assert a + tail == a && b + tail == b;
    } else {
      SameTail(a, b, Init(tail));
      assert Init(a + tail) == a + Init(tail) && Init(b + tail) == b + Init(tail);
      SameEnd(a + tail, b + tail);
    }
  }

  /** Strings that differ at most in, or by, their last character are at most one apart. */
  lemma OneEnd(x: string, y: string)
    requires x != "" && (y == Init(x) || (y != "" && (x == Init(y) || Init(x) == Init(y))))
    ensures Distance(x, y) <= 1
  {
    ZeroIffEqual(x, x);
    ZeroIffEqual(y, y);
    ZeroIffEqual(Init(x), Init(x));
  }

  lemma OneEditBefore(x: string, y: string, tail: string)
    requires x != "" && (y == Init(x) || (y != "" && (x == Init(y) || Init(x) == Init(y))))
    ensures Distance(x + tail, y + tail) <= 1
  {
    OneEnd(x, y);
    SameTail(x, y, tail);
  }

  lemma OneEdit(e: Edit, s: string)
    requires Applicable(e, s)
    ensures Distance(s, Apply(e, s)) <= 1
  {
    var head, tail := s[..e.at], s[e.at..];
    assert s == head + tail;
    if e.Insert? {
      OneEditBefore(head + [e.c], head, tail);
      Symmetric(head + [e.c] + tail, head + tail);
    } else {
      assert s == s[..e.at + 1] + s[e.at + 1..] && Init(s[..e.at + 1]) == head;
      if e.Delete? {
        OneEditBefore(s[..e.at + 1], head, s[e.at + 1..]);
      } else {
        assert Apply(e, s) == head + [e.c] + s[e.at + 1..];
        OneEditBefore(s[..e.at + 1], head + [e.c], s[e.at + 1..]);
      }
    }
  }

  /** No script is shorter than the distance. */
  lemma {:induction false} NoShorterScript(script: seq<Edit>, a: string, b: string)
    requires Transforms(script, a, b)
    ensures Distance(a, b) <= |script|
    decreases |script|
  {
    if script == [] {
      ZeroIffEqual(a, b);
    } else {
      var next := Apply(script[0], a);
      OneEdit(script[0], a);
      NoShorterScript(script[1..], next, b);
      Triangle(a, next, b);
    }
  }

  lemma ApplyBefore(e: Edit, s: string, c: char)
    requires Applicable(e, s)
    ensures Applicable(e, s + [c]) && Apply(e, s + [c]) == Apply(e, s) + [c]
  {
  }

  /** A script also works with the same character behind both strings. */
  lemma {:induction false} ScriptBefore(script: seq<Edit>, a: string, b: string, c: char)
    requires Transforms(script, a, b)
    ensures Transforms(script, a + [c], b + [c])
    decreases |script|
  {
    if script == [] {
    } else {
      var next := Apply(script[0], a);
      ScriptBefore(script[1..], next, b, c);
      ApplyBefore(script[0], a, c);
    }
  }

  lemma {:induction false} ScriptThen(script: seq<Edit>, a: string, b: string, e: Edit)
    requires Transforms(script, a, b) && Applicable(e, b)
    ensures Transforms(script + [e], a, Apply(e, b))
    decreases |script|
  {
    if script == [] {
      assert (script + [e])[1..] == [];
    } else {
      ScriptThen(script[1..], Apply(script[0], a), b, e);
      assert (script + [e])[1..] == script[1..] + [e];
    }
  }

  lemma ThenAppend(script: seq<Edit>, a: string, b: string)
    requires b != "" && Transforms(script, a, Init(b))
    ensures Transforms(script + [Insert(|b| - 1, Last(b))], a, b)
  {
    ScriptThen(script, a, Init(b), Insert(|b| - 1, Last(b)));
    assert Apply(Insert(|b| - 1, Last(b)), Init(b)) == b;
  }

  function Retype(b: string): seq<Edit> {
    if b == "" then [] else Retype(Init(b)) + [Insert(|b| - 1, Last(b))]
  }

  function Erase(n: nat): seq<Edit> {
    if n == 0 then [] else [Delete(n - 1)] + Erase(n - 1)
  }

  /** A script that follows the table's choices. */
  function Script(a: string, b: string): seq<Edit>
    decreases |a| + |b|
  {
    if a == "" then Retype(b)
    else if b == "" then Erase(|a|)
    else if Distance(a, b) == Distance(Init(a), b) + 1 then [Delete(|a| - 1)] + Script(Init(a), b)
    else if Distance(a, b) == Distance(a, Init(b)) + 1 then Script(a, Init(b)) + [Insert(|b| - 1, Last(b))]
    else if Last(a) == Last(b) then Script(Init(a), Init(b))
    else Script(Init(a), Init(b)) + [Substitute(|b| - 1, Last(b))]
  }

  lemma {:induction false} RetypeWorks(b: string)
    ensures Transforms(Retype(b), "", b) && |Retype(b)| == |b|
  {
    if b == "" {
    } else {
      RetypeWorks(Init(b));
      ThenAppend(Retype(Init(b)), "", b);
    }
  }

  lemma {:induction false} EraseWorks(a: string)
    ensures Transforms(Erase(|a|), a, "") && |Erase(|a|)| == |a|
  {
    if a == "" {
    } else {
      EraseWorks(Init(a));
      assert Apply(Delete(|a| - 1), a) == Init(a);
      assert Erase(|a|)[1..] == Erase(|a| - 1);
    }
  }

  lemma SplitLast(s: string)
    requires s != ""
    ensures s == Init(s) + [Last(s)]
  {
  }

  lemma ReplaceLast(s: string, c: char, d: char)
    ensures Apply(Substitute(|s|, d), s + [c]) == s + [d]
  {
  }

  lemma ThenSubstitute(script: seq<Edit>, a: string, b: string)
    requires a != "" && b != "" && Transforms(script, Init(a), Init(b))
    ensures Last(a) == Last(b) ==> Transforms(script, a, b)
    ensures Transforms(script + [Substitute(|b| - 1, Last(b))], a, b)
  {
    SplitLast(a);
    SplitLast(b);
    ScriptBefore(script, Init(a), Init(b), Last(a));
    ReplaceLast(Init(b), Last(a), Last(b));
    ScriptThen(script, a, Init(b) + [Last(a)], Substitute(|b| - 1, Last(b)));
  }

  /** A script as short as the distance exists. */
  lemma {:induction false} ScriptWorks(a: string, b: string)
    ensures Transforms(Script(a, b), a, b) && |Script(a, b)| == Distance(a, b)
    decreases |a| + |b|
  {
    if a == "" {
      RetypeWorks(b);
    } else if b == "" {
      EraseWorks(a);
    } else if Distance(a, b) == Distance(Init(a), b) + 1 {
      ScriptWorks(Init(a), b);
      assert Apply(Delete(|a| - 1), a) == Init(a);
      assert Script(a, b)[1..] == Script(Init(a), b);
    } else if Distance(a, b) == Distance(a, Init(b)) + 1 {
      ScriptWorks(a, Init(b));
      ThenAppend(Script(a, Init(b)), a, b);
    } else {
      ScriptWorks(Init(a), Init(b));
      ThenSubstitute(Script(Init(a), Init(b)), a, b);
    }
  }

  // ----- The table -----

  /** What the table holds in row i, column j: the distance of the prefixes of these lengths. */
  ghost function Entry(a: string, b: string, i: nat, j: nat): nat
    requires i <= |a| && j <= |b|
  {
    Distance(a[..i], b[..j])
  }

  lemma Cell(a: string, b: string, i: nat, j: nat)
    requires 1 <= i <= |a| && 1 <= j <= |b|
    ensures Entry(a, b, i, j) ==
            Min3(Entry(a, b, i - 1, j) + 1, Entry(a, b, i, j - 1) + 1,
                 Entry(a, b, i - 1, j - 1) + Cost(a[i - 1], b[j - 1]))
  {
    assert Init(a[..i]) == a[..i - 1] && Init(b[..j]) == b[..j - 1];
  }

  /** The edit distance: the length of a shortest script of insertions, deletions and substitutions. */
  method Compute(a: string, b: string) returns (d: nat)
    ensures exists script :: Transforms(script, a, b) && |script| == d
    ensures forall script :: Transforms(script, a, b) ==> d <= |script|
  {
    d := FillTable(a, b);
    ScriptWorks(a, b);
    forall script | Transforms(script, a, b)
      ensures d <= |script|
    {
      NoShorterScript(script, a, b);
    }
  }

  method FillTable(a: string, b: string) returns (d: nat)
    ensures d == Distance(a, b)
  {
    var m, n := |a|, |b|;
    if m == 0 {
      return n;
    }
    if n == 0 {
      return m;
    }
    var dp := new nat[m + 1, n + 1]((i, j) => 0);
    for i := 0 to m + 1
      invariant forall k :: 0 <= k < i ==> dp[k, 0] == k
    {
      dp[i, 0] := i;
    }
    for j := 0 to n + 1
      invariant forall k :: 0 <= k <= m ==> dp[k, 0] == k
      invariant forall l :: 0 <= l < j ==> dp[0, l] == l
    {
      dp[0, j] := j;
    }
    for i := 1 to m + 1
      invariant forall k :: 0 <= k <= m ==> dp[k, 0] == Entry(a, b, k, 0)
      invariant forall k, l :: 0 <= k < i && 0 <= l <= n ==> dp[k, l] == Entry(a, b, k, l)
    {
      for j := 1 to n + 1
        invariant forall k :: 0 <= k <= m ==> dp[k, 0] == Entry(a, b, k, 0)
        invariant forall k, l :: 0 <= k < i && 0 <= l <= n ==> dp[k, l] == Entry(a, b, k, l)
        invariant forall l :: 0 <= l < j ==> dp[i, l] == Entry(a, b, i, l)
      {
        Cell(a, b, i, j);
        var cost := if a[i - 1] == b[j - 1] then 0 else 1;
        dp[i, j] := Min3(dp[i - 1, j] + 1, dp[i, j - 1] + 1, dp[i - 1, j - 1] + cost);
      }
    }
    assert a[..m] == a && b[..n] == b;
    d := dp[m, n];
  }
}
