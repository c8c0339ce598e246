/** Text handling shared by the file format: trimming, searching, splitting into lines. */
module Text {

  /** White space and line terminators as ECMAScript's `trim` removes them. */
  predicate IsSpace(c: char) {
    var u := c as int;
    || 0x09 <= u <= 0x0D || u == 0x20 || u == 0xA0 || u == 0x1680 || 0x2000 <= u <= 0x200A
    || u == 0x2028 || u == 0x2029 || u == 0x202F || u == 0x205F || u == 0x3000 || u == 0xFEFF
  }

  function TrimStart(s: string): string {
    if s != [] && IsSpace(s[0]) then TrimStart(s[1..]) else s
  }

  function TrimEnd(s: string): string {
    if s != [] && IsSpace(s[|s|-1]) then TrimEnd(s[..|s|-1]) else s
  }

  function Trim(s: string): string {
    TrimEnd(TrimStart(s))
  }

  predicate Trimmed(s: string) {
    s == [] || (!IsSpace(s[0]) && !IsSpace(s[|s|-1]))
  }

  /** Index of the first `c`, or the length when there is none. */
  function Find(s: string, c: char): (i: nat)
    ensures i <= |s| && c !in s[..i]
    ensures i < |s| ==> s[i] == c
    ensures i < |s| <==> c in s
  {
    if s == [] || s[0] == c then 0
    else
      var i := Find(s[1..], c) + 1;
      assert s[..i] == [s[0]] + s[1..][..i-1];
      i
  }

  lemma FindAt(s: string, c: char, i: nat)
    requires i < |s| && s[i] == c && c !in s[..i]
    ensures Find(s, c) == i
  {
    assert c in s && c !in s[..Find(s, c)];
  }

  lemma {:induction false} TrimEndFacts(s: string)
    ensures exists k: nat :: k <= |s| && TrimEnd(s) == s[..k]
    ensures TrimEnd(s) != [] ==> !IsSpace(TrimEnd(s)[|TrimEnd(s)|-1])
  {
    if s != [] && IsSpace(s[|s|-1]) {
      TrimEndFacts(s[..|s|-1]);
      var k: nat :| k <= |s| - 1 && TrimEnd(s[..|s|-1]) == s[..|s|-1][..k];
      assert s[..|s|-1][..k] == s[..k];
    } else {
      assert s == s[..|s|];
    }
  }

  lemma {:induction false} TrimStartFacts(s: string)
    ensures exists k: nat :: k <= |s| && TrimStart(s) == s[k..]
    ensures TrimStart(s) != [] ==> !IsSpace(TrimStart(s)[0])
  {
    if s != [] && IsSpace(s[0]) {
      TrimStartFacts(s[1..]);
      var k: nat :| k <= |s| - 1 && TrimStart(s[1..]) == s[1..][k..];
      assert s[1..][k..] == s[k+1..];
    } else {
      assert s == s[0..];
    }
  }

  /** Trimming yields a trimmed piece of the text and leaves trimmed text alone. */
  lemma TrimFacts(s: string)
    ensures Trimmed(Trim(s))
    ensures forall c | c in Trim(s) :: c in s
    ensures Trimmed(s) ==> Trim(s) == s
  {
    TrimStartFacts(s);
    TrimEndFacts(TrimStart(s));
  }

  lemma {:induction false} TrimStartAppend(s: string, c: char)
    requires IsSpace(c)
    ensures TrimStart(s + [c]) == if TrimStart(s) == [] then [] else TrimStart(s) + [c]
  {
    if s == [] {
      assert TrimStart([c][1..]) == [];
    } else if IsSpace(s[0]) {
      assert (s + [c])[1..] == s[1..] + [c];
      TrimStartAppend(s[1..], c);
    }
  }

  /** A space at either end makes no difference to trimming. */
  lemma TrimIgnoresSpace(s: string, c: char)
    requires IsSpace(c)
    ensures Trim([c] + s) == Trim(s)
    ensures Trim(s + [c]) == Trim(s)
  {
    assert ([c] + s)[1..] == s;
    TrimStartAppend(s, c);
    var t := TrimStart(s);
    assert (t + [c])[..|t|] == t;
  }

  // ---------------------------------------------------------------- lines

  function StripCR(s: string): string {
    if s != [] && s[|s|-1] == '\r' then s[..|s|-1] else s
  }

  predicate EndsInCR(s: string) {
    s != [] && s[|s|-1] == '\r'
  }

  /** Split at every line feed, taking one carriage return before it along. */
  function SplitLines(s: string): (lines: seq<string>)
    ensures lines != []
    decreases |s|
  {
    var i := Find(s, '\n');
    if i == |s| then [s] else [StripCR(s[..i])] + SplitLines(s[i+1..])
  }

  function Join(lines: seq<string>): string
    requires lines != []
  {
    if |lines| == 1 then lines[0] else lines[0] + "\n" + Join(lines[1..])
  }

  function StripAll(lines: seq<string>): (r: seq<string>)
    ensures |r| == |lines| && forall i | 0 <= i < |lines| :: r[i] == StripCR(lines[i])
  {
    if lines == [] then [] else [StripCR(lines[0])] + StripAll(lines[1..])
  }

  ghost predicate SingleLines(lines: seq<string>) {
    forall l | l in lines :: '\n' !in l
  }

  lemma {:induction false} SplitLinesAreSingle(s: string)
    ensures SingleLines(SplitLines(s))
    decreases |s|
  {
    var i := Find(s, '\n');
    if i < |s| {
      SplitLinesAreSingle(s[i+1..]);
    }
  }

  lemma {:induction false} SplitStep(s: string, i: nat)
    requires Find(s, '\n') == i < |s|
    ensures SplitLines(s) == [StripCR(s[..i])] + SplitLines(s[i+1..])
  {
  }


  lemma {:induction false} SplitAtBreak(s: string, i: nat, l: string, t: string)
    requires Find(s, '\n') == i < |s| && s[..i] == l && s[i+1..] == t
    ensures SplitLines(s) == [StripCR(l)] + SplitLines(t)
  {
    SplitStep(s, i);
  }

  lemma BreakParts(l: string, t: string, s: string)
    requires '\n' !in l && s == l + "\n" + t
    ensures Find(s, '\n') == |l| < |s| && s[..|l|] == l && s[|l|+1..] == t
  {
    assert s[..|l|] == l && s[|l|] == '\n' && s[|l|+1..] == t;
    FindAt(s, '\n', |l|);
  }

  lemma StripAtEnd(l: string, t: string)
    ensures StripCR(l + "\n" + t) == l + "\n" + StripCR(t)
  {
  }

  lemma SplitHead(l: string, t: string)
    requires '\n' !in l
    ensures SplitLines(l + "\n" + t) == [StripCR(l)] + SplitLines(t)
    ensures StripCR(l + "\n" + t) == l + "\n" + StripCR(t)
  {
    var s := l + "\n" + t;
    BreakParts(l, t, s);
    SplitAtBreak(s, |l|, l, t);
    StripAtEnd(l, t);
  }

  lemma SplitSingle(l: string)
    requires '\n' !in l
    ensures SplitLines(l) == [l]
  {
    assert Find(l, '\n') == |l|;
  }

  /** Splitting joined lines gives them back, less the carriage returns at their ends. */
  lemma {:induction false} SplitJoined(lines: seq<string>)
    requires lines != [] && SingleLines(lines)
    ensures SplitLines(StripCR(Join(lines))) == StripAll(lines)
  {
    var l, rest := lines[0], lines[1..];
    assert l in lines;
    if rest == [] {
      SplitSingle(StripCR(l));
    } else {
      var tail := Join(rest);
      assert Join(lines) == l + "\n" + tail;
      SplitJoined(rest);
      SplitHead(l, tail);
      SplitHead(l, StripCR(tail));
    }
  }

  // ---------------------------------------------------------------- white space

  /** The code points of ECMAScript's white space and line terminators. */
  const SPACES: seq<int> := [9, 10, 11, 12, 13, 32, 160, 5760, 8192, 8193, 8194, 8195, 8196, 8197, 8198, 8199, 8200, 8201,
                             8202, 8232, 8233, 8239, 8287, 12288, 65279]

  lemma SpacesAre(c: char)
    ensures IsSpace(c) <==> c as int in SPACES
  {
    var u, s := c as int, SPACES;
    assert s[0] == 9 && s[1] == 10 && s[2] == 11 && s[3] == 12 && s[4] == 13 && s[5] == 32 && s[6] == 160 && s[7] == 5760;
    assert s[8] == 8192 && s[9] == 8193 && s[10] == 8194 && s[11] == 8195 && s[12] == 8196 && s[13] == 8197 && s[14] == 8198;
    assert s[15] == 8199 && s[16] == 8200 && s[17] == 8201 && s[18] == 8202 && s[19] == 8232 && s[20] == 8233;
    assert s[21] == 8239 && s[22] == 8287 && s[23] == 12288 && s[24] == 65279;
  }
}
