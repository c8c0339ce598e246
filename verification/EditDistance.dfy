/** The Levenshtein table behind fuzzy completion, refined against edit scripts.

    A script is a sequence of single-character edits at arbitrary positions.  `Compute` fills the
    table the way the editor does; the rest of the module shows that the number it returns is the
    length of a shortest script, and derives the metric laws from that.
 */
module EditDistance {

  // ---------------------------------------------------------------- scripts

  datatype Edit = Insert(at: nat, c: char) | Delete(at: nat) | Substitute(at: nat, c: char)

  predicate Applies(e: Edit, s: string) {
    if e.Insert? then e.at <= |s| else e.at < |s|
  }

  function Apply(e: Edit, s: string): string
    requires Applies(e, s)
  {
    match e
    case Insert(k, c) => s[..k] + [c] + s[k..]
    case Delete(k) => s[..k] + s[k+1..]
    case Substitute(k, c) => s[k := c]
  }

  /** The edits of `script`, applied in order, turn `a` into `b`. */
  predicate Turns(script: seq<Edit>, a: string, b: string) {
    if script == [] then a == b
    else Applies(script[0], a) && Turns(script[1..], Apply(script[0], a), b)
  }

  // ---------------------------------------------------------------- the table's recurrence

  function Front(s: string): string
    requires s != []
  {
    s[..|s| - 1]
  }

  function Last(s: string): char
    requires s != []
  {
    s[|s| - 1]
  }

  function Min3(x: int, y: int, z: int): int {
    if x <= y && x <= z then x else if y <= z then y else z
  }

  /** One cell of the table, as a function of the two prefixes it stands for. */
  function Dist(a: string, b: string): nat
    decreases |a| + |b|
  {
    if a == [] then |b|
    else if b == [] then |a|
    else if Last(a) == Last(b) then Dist(Front(a), Front(b))
    else 1 + Min3(Dist(Front(a), Front(b)), Dist(Front(a), b), Dist(a, Front(b)))
  }

  /** The value that belongs in row `i`, column `j` of the table for `a` and `b`. */
  ghost function Cell(a: string, b: string, i: nat, j: nat): nat
    requires i <= |a| && j <= |b|
  {
    Dist(a[..i], b[..j])
  }

  lemma CellRule(a: string, b: string, i: nat, j: nat)
    requires 1 <= i <= |a| && 1 <= j <= |b|
    ensures Cell(a, b, i, j) == if a[i-1] == b[j-1] then Cell(a, b, i-1, j-1)
                                else 1 + Min3(Cell(a, b, i-1, j-1), Cell(a, b, i-1, j), Cell(a, b, i, j-1))
  {
    assert Front(a[..i]) == a[..i-1] && Front(b[..j]) == b[..j-1];
  }

  /** Rows up to (not including) `i` hold their final values, and so do the first `j` cells of row `i`. */
  ghost predicate Filled(dp: array2<nat>, a: string, b: string, i: nat, j: nat)
    reads dp
  {
    && dp.Length0 == |a| + 1 && dp.Length1 == |b| + 1
    && (forall r, c | 0 <= r < i && r <= |a| && 0 <= c <= |b| :: dp[r, c] == Cell(a, b, r, c))
    && (i <= |a| ==> forall c | 0 <= c < j && c <= |b| :: dp[i, c] == Cell(a, b, i, c))
    && (forall r | 0 <= r <= |a| :: dp[r, 0] == r)
  }

  method FillBorder(a: string, b: string) returns (dp: array2<nat>)
    ensures fresh(dp) && Filled(dp, a, b, 1, 1)
  {
    dp := new nat[|a| + 1, |b| + 1]((_, _) => 0);
    for i := 0 to |a| + 1
      invariant forall k | 0 <= k < i :: dp[k, 0] == k
    {
      dp[i, 0] := i;
    }
    for j := 0 to |b| + 1
      invariant forall k | 0 <= k <= |a| :: dp[k, 0] == k
      invariant forall k | 0 <= k < j :: dp[0, k] == k
    {
      dp[0, j] := j;
    }
  }

  method FillRow(dp: array2<nat>, a: string, b: string, i: nat)
    requires 1 <= i <= |a| && Filled(dp, a, b, i, 1)
    modifies dp
    ensures Filled(dp, a, b, i + 1, 1)
  {
    for j := 1 to |b| + 1
      invariant Filled(dp, a, b, i, j)
    {
      CellRule(a, b, i, j);
      dp[i, j] := if a[i-1] == b[j-1] then dp[i-1, j-1]
                  else 1 + Min3(dp[i-1, j-1], dp[i-1, j], dp[i, j-1]);
    }
  }

  /** The table filled in place, row by row. */
  method Compute(a: string, b: string) returns (d: nat)
    ensures d == Dist(a, b)
    ensures exists script :: Turns(script, a, b) && |script| == d
    ensures forall script :: Turns(script, a, b) ==> d <= |script|
  {
    var dp := FillBorder(a, b);
    for i := 1 to |a| + 1
      invariant fresh(dp) && Filled(dp, a, b, i, 1)
    {
      FillRow(dp, a, b, i);
    }
    d := dp[|a|, |b|];
    assert d == Cell(a, b, |a|, |b|);
    assert a[..|a|] == a && b[..|b|] == b;
    ShortestScript(a, b);
  }

  // ---------------------------------------------------------------- neighbouring cells

  lemma {:induction false} DistSwap(a: string, b: string)
    ensures Dist(a, b) == Dist(b, a)
    decreases |a| + |b|
  {
    if a != [] && b != [] {
      DistSwap(Front(a), Front(b));
      DistSwap(Front(a), b);
      DistSwap(a, Front(b));
    }
  }

  /** Cells next to each other differ by at most one; this is what makes the shortcut on equal
      characters optimal. */
  lemma {:induction false} Neighbours(a: string, b: string)
    ensures a != [] ==> -1 <= Dist(a, b) - Dist(Front(a), b) <= 1
    ensures b != [] ==> -1 <= Dist(a, b) - Dist(a, Front(b)) <= 1
    decreases |a| + |b|
  {
    if a != [] && b != [] {
      Neighbours(Front(a), b);
      Neighbours(a, Front(b));
    }
  }

  lemma DiagonalStep(a: string, b: string)
    requires a != [] && b != []
    ensures Dist(a, b) <= Dist(Front(a), Front(b)) + 1
  {
  }

  // ---------------------------------------------------------------- no script is shorter

  lemma {:induction false} LastSubstituted(z: string, p: char, q: char, b: string)
    ensures Dist(z + [p], b) <= Dist(z + [q], b) + 1
  {
    if b != [] {
      var x, y := z + [p], z + [q];
      assert Front(x) == z && Front(y) == z;
      LastSubstituted(z, p, q, Front(b));
      DiagonalStep(x, b);
      Neighbours(x, b);
    }
  }

  /** A shared last character keeps two strings within one of each other if their fronts are. */
  lemma {:induction false} LastKept(x: string, y: string, b: string)
    requires x != [] && y != [] && b != [] && Last(x) == Last(y)
    requires Dist(Front(x), b) <= Dist(Front(y), b) + 1
    requires Dist(Front(x), Front(b)) <= Dist(Front(y), Front(b)) + 1
    requires Dist(x, Front(b)) <= Dist(y, Front(b)) + 1
    ensures Dist(x, b) <= Dist(y, b) + 1
  {
  }

  lemma InnerEdit(e: Edit, x: string)
    requires x != [] && Applies(e, Front(x))
    ensures Applies(e, x) && Apply(e, x) != []
    ensures Last(Apply(e, x)) == Last(x) && Front(Apply(e, x)) == Apply(e, Front(x))
  {
    assert Apply(e, x) == Apply(e, Front(x)) + [Last(x)];
  }

  lemma FinalEdit(e: Edit, x: string, b: string)
    requires Applies(e, x) && (x == [] || !Applies(e, Front(x)))
    ensures Dist(x, b) <= Dist(Apply(e, x), b) + 1
  {
    var y := Apply(e, x);
    match e
    case Insert(_, _) =>
      assert Front(y) == x;
      Neighbours(y, b);
    case Delete(_) =>
      assert y == Front(x);
      Neighbours(x, b);
    case Substitute(_, c) =>
      assert x == Front(x) + [Last(x)] && y == Front(x) + [c];
      LastSubstituted(Front(x), Last(x), c, b);
  }

  /** One edit moves the distance to any fixed string by at most one. */
  lemma {:induction false} EditIsLipschitz(e: Edit, x: string, b: string)
    requires Applies(e, x)
    ensures Dist(x, b) <= Dist(Apply(e, x), b) + 1
    decreases |x| + |b|
  {
    if x == [] || !Applies(e, Front(x)) {
      FinalEdit(e, x, b);
    } else {
      InnerEdit(e, x);
      if b != [] {
        EditIsLipschitz(e, x, Front(b));
        EditIsLipschitz(e, Front(x), b);
        EditIsLipschitz(e, Front(x), Front(b));
        LastKept(x, Apply(e, x), b);
      }
    }
  }

  lemma {:induction false} NoShorterScript(script: seq<Edit>, a: string, b: string)
    requires Turns(script, a, b)
    ensures Dist(a, b) <= |script|
  {
    if script == [] {
      DistSelf(a);
    } else {
      EditIsLipschitz(script[0], a, b);
      NoShorterScript(script[1..], Apply(script[0], a), b);
    }
  }

  lemma {:induction false} DistSelf(a: string)
    ensures Dist(a, a) == 0
  {
    if a != [] {
      DistSelf(Front(a));
    }
  }

  // ---------------------------------------------------------------- a script that short exists

  lemma TurnsStep(e: Edit, rest: seq<Edit>, a: string, b: string)
    requires Applies(e, a) && Turns(rest, Apply(e, a), b)
    ensures Turns([e] + rest, a, b)
  {
    assert ([e] + rest)[1..] == rest;
  }

  lemma TurnsFirst(s: seq<Edit>, a: string, b: string)
    requires s != [] && Turns(s, a, b)
    ensures Applies(s[0], a) && Turns(s[1..], Apply(s[0], a), b)
  {
  }

  lemma FirstThenRest(s: seq<Edit>, t: seq<Edit>)
    requires s != []
    ensures [s[0]] + (s[1..] + t) == s + t
  {
  }

  lemma {:induction false} TurnsThen(s: seq<Edit>, t: seq<Edit>, a: string, b: string, c: string)
    requires Turns(s, a, b) && Turns(t, b, c)
    ensures Turns(s + t, a, c)
  {
    if s == [] {
      assert s + t == t;
    } else {
      TurnsFirst(s, a, b);
      var next := Apply(s[0], a);
      TurnsThen(s[1..], t, next, b, c);
      FirstThenRest(s, t);
      TurnsStep(s[0], s[1..] + t, a, c);
    }
  }

  /** A script for a prefix still works when one more character follows. */
  lemma {:induction false} TurnsBefore(s: seq<Edit>, a: string, b: string, c: char)
    requires Turns(s, a, b)
    ensures Turns(s, a + [c], b + [c])
  {
    if s != [] {
      assert Apply(s[0], a + [c]) == Apply(s[0], a) + [c];
      TurnsBefore(s[1..], Apply(s[0], a), b, c);
    }
  }

  lemma OneEdit(e: Edit, a: string)
    requires Applies(e, a)
    ensures Turns([e], a, Apply(e, a))
  {
    assert [e][1..] == [];
  }

  lemma InsertLast(t: seq<Edit>, a: string, b: string) returns (s: seq<Edit>)
    requires b != [] && Turns(t, a, Front(b))
    ensures Turns(s, a, b) && |s| == |t| + 1
  {
    var e := Insert(|b| - 1, Last(b));
    OneEdit(e, Front(b));
    assert Apply(e, Front(b)) == b;
    TurnsThen(t, [e], a, Front(b), b);
    s := t + [e];
  }

  lemma DeleteLast(t: seq<Edit>, a: string, b: string) returns (s: seq<Edit>)
    requires a != [] && Turns(t, Front(a), b)
    ensures Turns(s, a, b) && |s| == |t| + 1
  {
    var e := Delete(|a| - 1);
    assert Apply(e, a) == Front(a);
    TurnsStep(e, t, a, b);
    s := [e] + t;
  }

  lemma SubstituteLast(a: string, c: char)
    requires a != []
    ensures Apply(Substitute(|a| - 1, c), a) == Front(a) + [c]
  {
  }

  lemma KeepLast(t: seq<Edit>, a: string, b: string)
    requires a != [] && b != [] && Turns(t, Front(a), Front(b)) && Last(a) == Last(b)
    ensures Turns(t, a, b)
  {
    TurnsBefore(t, Front(a), Front(b), Last(b));
    assert Front(b) + [Last(b)] == b;
    assert Front(a) + [Last(b)] == a;
  }

  lemma ChangeLast(t: seq<Edit>, a: string, b: string)
    requires a != [] && b != [] && Turns(t, Front(a), Front(b))
    ensures Turns([Substitute(|a| - 1, Last(b))] + t, a, b)
  {
    TurnsBefore(t, Front(a), Front(b), Last(b));
    assert Front(b) + [Last(b)] == b;
    SubstituteLast(a, Last(b));
    TurnsStep(Substitute(|a| - 1, Last(b)), t, a, b);
  }

  lemma ReplaceLast(t: seq<Edit>, a: string, b: string) returns (s: seq<Edit>)
    requires a != [] && b != [] && Turns(t, Front(a), Front(b))
    ensures Turns(s, a, b) && |s| == if Last(a) == Last(b) then |t| else |t| + 1
  {
    if Last(a) == Last(b) {
      KeepLast(t, a, b);
      s := t;
    } else {
      ChangeLast(t, a, b);
      s := [Substitute(|a| - 1, Last(b))] + t;
    }
  }

  /** Rebuild a shortest script by walking the table backwards. */
  lemma {:induction false} Traceback(a: string, b: string) returns (s: seq<Edit>)
    ensures Turns(s, a, b) && |s| == Dist(a, b)
    decreases |a| + |b|
  {
    if a == [] && b == [] {
      s := [];
    } else if a == [] || (b != [] && Last(a) != Last(b) && Dist(a, b) == 1 + Dist(a, Front(b))) {
      s := Traceback(a, Front(b));
      s := InsertLast(s, a, b);
    } else if b == [] || (Last(a) != Last(b) && Dist(a, b) == 1 + Dist(Front(a), b)) {
      s := Traceback(Front(a), b);
      s := DeleteLast(s, a, b);
    } else {
      s := Traceback(Front(a), Front(b));
      s := ReplaceLast(s, a, b);
    }
  }

  /** The value in the last cell is the length of a shortest script. */
  lemma ShortestScript(a: string, b: string)
    ensures exists script :: Turns(script, a, b) && |script| == Dist(a, b)
    ensures forall script :: Turns(script, a, b) ==> Dist(a, b) <= |script|
  {
    var s := Traceback(a, b);
    forall script | Turns(script, a, b)
      ensures Dist(a, b) <= |script|
    {
      NoShorterScript(script, a, b);
    }
  }

  // ---------------------------------------------------------------- metric laws

  lemma {:induction false} DistMetric(a: string, b: string, c: string)
    ensures Dist(a, b) == 0 <==> a == b
    ensures Dist(a, b) == Dist(b, a)
    ensures Dist(a, c) <= Dist(a, b) + Dist(b, c)
  {
    DistSwap(a, b);
    DistSelf(a);
    var s := Traceback(a, b);
    var t := Traceback(b, c);
    TurnsThen(s, t, a, b, c);
    NoShorterScript(s + t, a, c);
  }

  lemma {:induction false} ScriptLength(script: seq<Edit>, a: string, b: string)
    requires Turns(script, a, b)
    ensures |a| <= |b| + |script| && |b| <= |a| + |script|
  {
    if script != [] {
      ScriptLength(script[1..], Apply(script[0], a), b);
    }
  }

  lemma {:induction false} DistBounds(a: string, b: string)
    ensures |a| <= |b| + Dist(a, b) && |b| <= |a| + Dist(a, b)
    ensures Dist(a, b) <= if |a| <= |b| then |b| else |a|
  {
    var s := Traceback(a, b);
    ScriptLength(s, a, b);
    DistAtMostLonger(a, b);
  }

  lemma {:induction false} DistAtMostLonger(a: string, b: string)
    ensures Dist(a, b) <= if |a| <= |b| then |b| else |a|
    decreases |a| + |b|
  {
    if a != [] && b != [] {
      DistAtMostLonger(Front(a), Front(b));
    }
  }
}
