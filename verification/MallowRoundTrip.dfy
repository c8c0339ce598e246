/** When printing and parsing a `.mallow` file undo each other: the exact conditions, both ways. */
module MallowRoundTrip {
  import opened Options
  import opened Text
  import opened MallowFile
  import Numbers

  // ---------------------------------------------------------------- finding the end of the block

  lemma ClosingInLine(l: string, t: string)
    requires '\n' !in l && l != []
    ensures Closing(l + t) <==> l == "\r" && DashedBreak(t)
  {
    assert (l + t)[1..] == l[1..] + t;
    if l[1..] == [] {
      assert l[1..] + t == t;
    }
  }

  /** A position further on in the text. */
  function Moved(r: Option<nat>, n: nat): Option<nat> {
    match r case None => None case Some(k) => Some(k + n)
  }

  lemma CloseStep(s: string)
    requires s != [] && !Closing(s)
    ensures FindClose(s) == Moved(FindClose(s[1..]), 1)
  {
  }

  lemma StripFirst(l: string)
    requires l != [] && l != "\r"
    ensures |StripCR(l)| == 1 + |StripCR(l[1..])|
  {
  }

  /** Scanning across one line that is followed by a line break. */
  lemma {:induction false} ScanLine(l: string, t: string)
    requires '\n' !in l && t != [] && t[0] == '\n'
    ensures FindClose(l + t) == if DashedBreak(t) then Some(|StripCR(l)|) else Moved(FindClose(t[1..]), |l| + 1)
  {
    if l == [] {
      assert l + t == t;
    } else {
      assert (l + t)[1..] == l[1..] + t;
      ClosingInLine(l, t);
      if l != "\r" || !DashedBreak(t) {
        CloseStep(l + t);
        ScanLine(l[1..], t);
        if l != "\r" {
          StripFirst(l);
        }
      }
    }
  }

  /** The first line after the first that starts with three dashes, or the number of lines. */
  function MarkerAfter(lines: seq<string>): (k: nat)
    requires lines != []
    ensures 1 <= k <= |lines|
    ensures forall i | 1 <= i < k :: !Dashes(lines[i])
    ensures k < |lines| ==> Dashes(lines[k])
  {
    if |lines| == 1 || Dashes(lines[1]) then 1 else 1 + MarkerAfter(lines[1..])
  }

  lemma DashesStartLine(l: string, t: string)
    requires '\n' !in l && t != [] && t[0] == '\n'
    ensures Dashes(l + t) <==> Dashes(l)
  {
  }

  lemma FirstOfJoin(lines: seq<string>, tail: string)
    requires lines != [] && SingleLines(lines) && tail != [] && tail[0] == '\n'
    ensures Dashes(Join(lines) + tail) <==> Dashes(lines[0])
  {
    assert lines[0] in lines;
    if |lines| == 1 {
      DashesStartLine(lines[0], tail);
    } else {
      var t := "\n" + Join(lines[1..]) + tail;
      assert Join(lines) + tail == lines[0] + t;
      DashesStartLine(lines[0], t);
    }
  }

  lemma ScanFirst(l: string, rest: seq<string>, tail: string)
    requires '\n' !in l && rest != [] && SingleLines(rest) && DashedBreak(tail)
    ensures FindClose(l + "\n" + Join(rest) + tail)
            == if Dashes(rest[0]) then Some(|StripCR(l)|)
               else Moved(FindClose(Join(rest) + tail), |l| + 1)
  {
    var t := "\n" + Join(rest) + tail;
    assert l + "\n" + Join(rest) + tail == l + t;
    assert t[1..] == Join(rest) + tail;
    FirstOfJoin(rest, tail);
    ScanLine(l, t);
  }

  lemma StripAfterBreak(l: string, t: string)
    ensures |StripCR(l + "\n" + t)| == |l| + 1 + |StripCR(t)|
  {
    var s := l + "\n" + t;
    assert t != [] ==> s[|s| - 1] == t[|t| - 1];
    assert t == [] ==> s[|s| - 1] == '\n';
  }

  lemma JoinInner(lines: seq<string>, k: nat)
    requires 2 <= k <= |lines|
    ensures Join(lines[..k]) == lines[0] + "\n" + Join(lines[1..][..k-1])
  {
    assert lines[..k][1..] == lines[1..][..k-1];
  }

  lemma FoundFurther(found: Option<nat>, l: string, inner: string)
    requires found == Some(|StripCR(inner)|)
    ensures Moved(found, |l| + 1) == Some(|StripCR(l + "\n" + inner)|)
  {
    StripAfterBreak(l, inner);
  }

  lemma ScanPast(l: string, rest: seq<string>, tail: string, inner: string)
    requires '\n' !in l && rest != [] && SingleLines(rest) && DashedBreak(tail) && !Dashes(rest[0])
    requires FindClose(Join(rest) + tail) == Some(|StripCR(inner)|)
    ensures FindClose(l + "\n" + Join(rest) + tail) == Some(|StripCR(l + "\n" + inner)|)
  {
    ScanFirst(l, rest, tail);
    FoundFurther(FindClose(Join(rest) + tail), l, inner);
  }

  /** The block found in joined lines ends before the first inner line of dashes. */
  lemma {:induction false} ScanLines(lines: seq<string>, tail: string)
    requires lines != [] && SingleLines(lines) && DashedBreak(tail)
    ensures FindClose(Join(lines) + tail) == Some(|StripCR(Join(lines[..MarkerAfter(lines)]))|)
  {
    var l, rest, k := lines[0], lines[1..], MarkerAfter(lines);
    assert l in lines;
    if rest == [] {
      assert lines[..k] == lines;
      ScanLine(l, tail);
    } else {
      assert Join(lines) == l + "\n" + Join(rest);
      if Dashes(rest[0]) {
        assert lines[..1] == [l];
        ScanFirst(l, rest, tail);
      } else {
        ScanLines(rest, tail);
        JoinInner(lines, k);
        ScanPast(l, rest, tail, Join(rest[..k-1]));
      }
    }
  }

  // ---------------------------------------------------------------- splitting what was printed

  lemma {:induction false} JoinAt(lines: seq<string>, k: nat)
    requires 1 <= k < |lines|
    ensures Join(lines) == Join(lines[..k]) + "\n" + Join(lines[k..])
  {
    var l, rest := lines[0], lines[1..];
    if k == 1 {
      assert lines[..1] == [l];
    } else {
      JoinAt(rest, k - 1);
      assert lines[..k][0] == l && lines[..k][1..] == rest[..k-1];
      assert lines[k..] == rest[k-1..];
      assert l + "\n" + (Join(rest[..k-1]) + "\n" + Join(lines[k..])) == (l + "\n" + Join(rest[..k-1])) + "\n" + Join(lines[k..]);
    }
  }

  /** What is left once the closing mark after `x` is recognised. */
  lemma SplitAtMark(x: string, y: string)
    requires DashedBreak(y) && FindClose(x + y) == Some(|StripCR(x)|)
    ensures SplitBody(x + y) == Some(Parts(StripCR(x), SkipBreak(y[4..])))
  {
    var k := |StripCR(x)|;
    assert (x + y)[..k] == StripCR(x);
    if EndsInCR(x) {
      assert (x + y)[k..] == "\r" + y;
      assert ("\r" + y)[5..] == y[4..];
    } else {
      assert (x + y)[k..] == y;
    }
  }

  lemma {:induction false} OpenFramed(lines: seq<string>, script: string)
    requires lines != []
    ensures Split(Framed(lines, script)) == SplitBody(Join(lines) + ("\n---\n" + script))
  {
    var body := Join(lines) + ("\n---\n" + script);
    var text := Framed(lines, script);
    assert text == "---\n" + body;
    assert text[4..] == body;
  }

  lemma TailShape(script: string)
    ensures DashedBreak("\n---\n" + script)
    ensures SkipBreak(("\n---\n" + script)[4..]) == script
  {
    var tail := "\n---\n" + script;
    assert tail[1..][0] == tail[1] && tail[1..][1] == tail[2] && tail[1..][2] == tail[3];
    assert tail[4..] == "\n" + script;
    assert ("\n" + script)[1..] == script;
  }

  /** The printed lines after the first one that a reader would take for the closing mark. */
  lemma MarkInBody(lines: seq<string>, tail: string) returns (y: string)
    requires lines != [] && SingleLines(lines) && DashedBreak(tail)
    ensures DashedBreak(y) && Join(lines) + tail == Join(lines[..MarkerAfter(lines)]) + y
    ensures MarkerAfter(lines) == |lines| ==> y == tail
    ensures MarkerAfter(lines) < |lines| ==> |y| >= |tail| + 4
  {
    var k := MarkerAfter(lines);
    if k == |lines| {
      y := tail;
      assert lines[..k] == lines;
    } else {
      JoinAt(lines, k);
      y := "\n" + Join(lines[k..]) + tail;
      assert y[1..] == Join(lines[k..]) + tail;
      FirstOfJoin(lines[k..], tail);
      DashesLength(lines[k..]);
    }
  }

  lemma DashesLength(lines: seq<string>)
    requires lines != [] && Dashes(lines[0])
    ensures |Join(lines)| >= 3
  {
  }

  lemma SplitFramedAt(lines: seq<string>, script: string) returns (rest: string)
    requires lines != [] && SingleLines(lines)
    ensures Split(Framed(lines, script)) == Some(Parts(StripCR(Join(lines[..MarkerAfter(lines)])), rest))
    ensures if MarkerAfter(lines) == |lines| then rest == script else |rest| > |script|
  {
    var tail := "\n---\n" + script;
    TailShape(script);
    OpenFramed(lines, script);
    var y := MarkInBody(lines, tail);
    ScanLines(lines, tail);
    SplitAtMark(Join(lines[..MarkerAfter(lines)]), y);
    rest := SkipBreak(y[4..]);
  }

  /** Reading back framed lines: the lines up to an inner line of dashes, without trailing carriage
      returns; the script comes back unless there is such an inner line. */
  lemma SplitFramed(lines: seq<string>, script: string)
    requires lines != [] && SingleLines(lines)
    ensures var k := MarkerAfter(lines);
            && Split(Framed(lines, script)).Some?
            && SplitLines(Split(Framed(lines, script)).value.frontmatter) == StripAll(lines[..k])
            && (if k == |lines| then Split(Framed(lines, script)).value.script == script
                else |Split(Framed(lines, script)).value.script| > |script|)
  {
    var rest := SplitFramedAt(lines, script);
    SplitJoined(lines[..MarkerAfter(lines)]);
  }

  // ---------------------------------------------------------------- reading printed settings

  /** A value that fits on its line and is not changed by trimming. */
  predicate Plain(v: string) {
    v != "" && Trimmed(v) && '\n' !in v
  }

  datatype Key = Symbol | Timeframe | Mode | Size | Atr | Reverse | Strength

  function Name(k: Key): string {
    match k
    case Symbol => "symbol"
    case Timeframe => "timeframe"
    case Mode => "size_mode"
    case Size => "size_value"
    case Atr => "atr_multiplier"
    case Reverse => "reverse_policy"
    case Strength => "strength_sizing"
  }

  /** Lower-case letters and underscores only. */
  predicate KeyShape(key: string) {
    key != "" && forall i | 0 <= i < |key| :: 'a' <= key[i] <= 'z' || key[i] == '_'
  }

  lemma NameShape(k: Key)
    ensures KeyShape(Name(k))
  {
  }

  lemma NamesDiffer(j: Key, k: Key)
    ensures Name(j) == Name(k) <==> j == k
  {
    if j != k && |Name(j)| == |Name(k)| {
      assert Name(j)[0] != Name(k)[0];
    }
  }

  lemma KeyLineShape(key: string, v: string)
    requires KeyShape(key) && Plain(v)
    ensures var l := KeyLine(key, v); '\n' !in l && !EndsInCR(l) && !Dashes(l)
  {
    var l := KeyLine(key, v);
    assert l[0] == key[0];
    assert l[|l|-1] == v[|v|-1];
  }

  lemma KeyLineColon(key: string, v: string)
    requires KeyShape(key)
    ensures var l := KeyLine(key, v); Find(l, ':') == |key| && l[..|key|] == key && l[|key|+1..] == [' '] + v
  {
    var l := KeyLine(key, v);
    assert l[..|key|] == key && l[|key|] == ':';
    FindAt(l, ':', |key|);
  }

  lemma KeyLineReads(key: string, v: string)
    requires KeyShape(key) && Plain(v)
    ensures var l := KeyLine(key, v); HasColon(l) && KeyOf(l) == key && ValueOf(l) == v
  {
    KeyLineColon(key, v);
    TrimIgnoresSpace(v, ' ');
    TrimFacts(v);
    TrimFacts(key);
  }

  /** A printed setting is found under its own name only. */
  lemma KeyedReads(k: Key, v: string, j: Key)
    requires Plain(v)
    ensures Keyed(KeyLine(Name(k), v), Name(j)) == if j == k then Some(v) else None
  {
    NameShape(k);
    KeyLineReads(Name(k), v);
    NamesDiffer(j, k);
  }

  /** What each of the seven readers finds in one printed setting. */
  lemma SegmentReads(k: Key, value: Option<string>)
    requires value.Some? ==> Plain(value.value)
    ensures var s := PrintedLine(Name(k), value);
            && LastSome(s, SymbolIn) == (if k.Symbol? then value else None)
            && LastSome(s, TimeframeIn) == (if k.Timeframe? then value else None)
            && LastSome(s, ReverseIn) == (if k.Reverse? then value else None)
            && LastSome(s, ModeIn) == (if k.Mode? && value.Some? then ReadMode(value.value) else None)
            && LastSome(s, SizeIn) == (if k.Size? && value.Some? then Numbers.Read(value.value) else None)
            && LastSome(s, AtrIn) == (if k.Atr? && value.Some? then Numbers.Read(value.value) else None)
            && LastSome(s, StrengthIn) == (if k.Strength? && value.Some? then Some(value.value == "true") else None)
  {
    if value.Some? {
      var l := KeyLine(Name(k), value.value);
      KeyedReads(k, value.value, Symbol);
      KeyedReads(k, value.value, Timeframe);
      KeyedReads(k, value.value, Reverse);
      KeyedReads(k, value.value, Mode);
      KeyedReads(k, value.value, Size);
      KeyedReads(k, value.value, Atr);
      KeyedReads(k, value.value, Strength);
      LastOfOne(l, SymbolIn);
      LastOfOne(l, TimeframeIn);
      LastOfOne(l, ReverseIn);
      LastOfOne(l, ModeIn);
      LastOfOne(l, SizeIn);
      LastOfOne(l, AtrIn);
      LastOfOne(l, StrengthIn);
    }
  }

  lemma LastOfOne<T>(l: string, g: string -> Option<T>)
    ensures LastSome([l], g) == g(l)
  {
    assert [l][1..] == [];
  }

  lemma {:induction false} LastSomeAppend<T>(xs: seq<string>, ys: seq<string>, g: string -> Option<T>)
    ensures LastSome(xs + ys, g) == if LastSome(ys, g).Some? then LastSome(ys, g) else LastSome(xs, g)
  {
    if xs == [] {
      assert xs + ys == ys;
    } else {
      assert (xs + ys)[1..] == xs[1..] + ys;
      LastSomeAppend(xs[1..], ys, g);
    }
  }

  ghost predicate PlainStrings(m: Metadata) {
    && (m.symbol.Some? ==> Plain(m.symbol.value))
    && (m.timeframe.Some? ==> Plain(m.timeframe.value))
    && (m.reversePolicy.Some? ==> Plain(m.reversePolicy.value))
  }

  lemma NumberIsPlain(n: Numbers.Value)
    ensures Plain(Numbers.Print(n))
  {
    var s := Numbers.Print(n);
    Numbers.PrintChars(n);
    assert s[0] in s && s[|s|-1] in s;
  }

  lemma ModeIsPlain(m: SizeMode)
    ensures Plain(ModeName(m))
  {
  }

  lemma ShownArePlain(m: Metadata)
    ensures ShowMode(m.sizeMode).Some? ==> Plain(ShowMode(m.sizeMode).value)
    ensures ShowNumber(m.sizeValue).Some? ==> Plain(ShowNumber(m.sizeValue).value)
    ensures ShowNumber(m.atrMultiplier).Some? ==> Plain(ShowNumber(m.atrMultiplier).value)
    ensures ShowBool(m.strengthSizing).Some? ==> Plain(ShowBool(m.strengthSizing).value)
  {
    if m.sizeMode.Some? {
      ModeIsPlain(m.sizeMode.value);
    }
    if m.sizeValue.Some? {
      NumberIsPlain(m.sizeValue.value);
    }
    if m.atrMultiplier.Some? {
      NumberIsPlain(m.atrMultiplier.value);
    }
  }

  lemma ModeRoundTrip(m: SizeMode)
    ensures ReadMode(ModeName(m)) == Some(m)
  {
  }

  function Shown(m: Metadata, k: Key): Option<string> {
    match k
    case Symbol => Truthy(m.symbol)
    case Timeframe => Truthy(m.timeframe)
    case Mode => ShowMode(m.sizeMode)
    case Size => ShowNumber(m.sizeValue)
    case Atr => ShowNumber(m.atrMultiplier)
    case Reverse => Truthy(m.reversePolicy)
    case Strength => ShowBool(m.strengthSizing)
  }

  function Segment(m: Metadata, k: Key): seq<string> {
    PrintedLine(Name(k), Shown(m, k))
  }

  /** A reader that only listens to one setting finds what that setting's line says. */
  lemma OnlySegment<T>(m: Metadata, k: Key, g: string -> Option<T>)
    requires forall j: Key | j != k :: LastSome(Segment(m, j), g) == None
    ensures LastSome(MetaLines(m), g) == LastSome(Segment(m, k), g)
  {
    var a, b, c := Segment(m, Symbol), Segment(m, Timeframe), Segment(m, Mode);
    var d, e, f := Segment(m, Size), Segment(m, Atr), Segment(m, Reverse);
    LastSomeAppend(a, b, g);
    LastSomeAppend(a + b, c, g);
    LastSomeAppend(a + b + c, d, g);
    LastSomeAppend(a + b + c + d, e, g);
    LastSomeAppend(a + b + c + d + e, f, g);
    LastSomeAppend(a + b + c + d + e + f, Segment(m, Strength), g);
  }

  lemma ShownIsPlain(m: Metadata, k: Key)
    requires PlainStrings(m) && Shown(m, k).Some?
    ensures Plain(Shown(m, k).value)
  {
    ShownArePlain(m);
  }

  lemma SegmentSays(m: Metadata, k: Key)
    requires PlainStrings(m)
    ensures var s, value := Segment(m, k), Shown(m, k);
            && LastSome(s, SymbolIn) == (if k.Symbol? then value else None)
            && LastSome(s, TimeframeIn) == (if k.Timeframe? then value else None)
            && LastSome(s, ReverseIn) == (if k.Reverse? then value else None)
            && LastSome(s, ModeIn) == (if k.Mode? then m.sizeMode else None)
            && LastSome(s, SizeIn) == (if k.Size? then m.sizeValue else None)
            && LastSome(s, AtrIn) == (if k.Atr? then m.atrMultiplier else None)
            && LastSome(s, StrengthIn) == (if k.Strength? then m.strengthSizing else None)
  {
    if Shown(m, k).Some? {
      ShownIsPlain(m, k);
    }
    ValuesReadBack(m);
    SegmentReads(k, Shown(m, k));
  }

  /** Reading the printed settings gives the settings. */
  lemma {:induction false} SettingsReadBack(m: Metadata)
    requires PlainStrings(m)
    ensures Interpret(MetaLines(m)) == m
  {
    forall k: Key {
      SegmentSays(m, k);
    }
    OnlySegment(m, Symbol, SymbolIn);
    OnlySegment(m, Timeframe, TimeframeIn);
    OnlySegment(m, Mode, ModeIn);
    OnlySegment(m, Size, SizeIn);
    OnlySegment(m, Atr, AtrIn);
    OnlySegment(m, Reverse, ReverseIn);
    OnlySegment(m, Strength, StrengthIn);
  }

  lemma ValuesReadBack(m: Metadata)
    ensures m.sizeMode.Some? ==> ReadMode(ShowMode(m.sizeMode).value) == m.sizeMode
    ensures m.sizeValue.Some? ==> Numbers.Read(ShowNumber(m.sizeValue).value) == m.sizeValue
    ensures m.atrMultiplier.Some? ==> Numbers.Read(ShowNumber(m.atrMultiplier).value) == m.atrMultiplier
    ensures m.strengthSizing.Some? ==> (ShowBool(m.strengthSizing).value == "true") == m.strengthSizing.value
  {
    if m.sizeMode.Some? {
      ModeRoundTrip(m.sizeMode.value);
    }
    if m.sizeValue.Some? {
      Numbers.ReadPrint(m.sizeValue.value);
    }
    if m.atrMultiplier.Some? {
      Numbers.ReadPrint(m.atrMultiplier.value);
    }
  }

  /** Printed settings are single lines, no closing marks, and never kept as extra lines. */
  predicate Tidy(l: string) {
    '\n' !in l && !EndsInCR(l) && !Dashes(l) && Recognised(l)
  }

  lemma SegmentTidy(k: Key, value: Option<string>)
    requires value.Some? ==> Plain(value.value)
    requires k.Mode? && value.Some? ==> ReadMode(value.value).Some?
    requires (k.Size? || k.Atr?) && value.Some? ==> Numbers.Read(value.value).Some?
    ensures forall l | l in PrintedLine(Name(k), value) :: Tidy(l)
  {
    if value.Some? {
      NameShape(k);
      KeyLineShape(Name(k), value.value);
      KeyLineReads(Name(k), value.value);
    }
  }

  ghost predicate All(lines: seq<string>, p: string -> bool) {
    forall l | l in lines :: p(l)
  }

  lemma AllAppend(a: seq<string>, b: seq<string>, p: string -> bool)
    requires All(a, p) && All(b, p)
    ensures All(a + b, p)
  {
  }

  lemma AllSeven(a: seq<string>, b: seq<string>, c: seq<string>, d: seq<string>, e: seq<string>, f: seq<string>,
                 g: seq<string>, p: string -> bool)
    requires All(a, p) && All(b, p) && All(c, p) && All(d, p) && All(e, p) && All(f, p) && All(g, p)
    ensures All(a + b + c + d + e + f + g, p)
  {
    AllAppend(a, b, p);
    AllAppend(a + b, c, p);
    AllAppend(a + b + c, d, p);
    AllAppend(a + b + c + d, e, p);
    AllAppend(a + b + c + d + e, f, p);
    AllAppend(a + b + c + d + e + f, g, p);
  }

  function Segments(m: Metadata): seq<string> {
    Segment(m, Symbol) + Segment(m, Timeframe) + Segment(m, Mode) + Segment(m, Size) + Segment(m, Atr)
    + Segment(m, Reverse) + Segment(m, Strength)
  }

  lemma TextSegments(m: Metadata)
    ensures Segment(m, Symbol) == PrintedLine("symbol", Truthy(m.symbol))
    ensures Segment(m, Timeframe) == PrintedLine("timeframe", Truthy(m.timeframe))
    ensures Segment(m, Reverse) == PrintedLine("reverse_policy", Truthy(m.reversePolicy))
  {
  }

  lemma OtherSegments(m: Metadata)
    ensures Segment(m, Mode) == PrintedLine("size_mode", ShowMode(m.sizeMode))
    ensures Segment(m, Size) == PrintedLine("size_value", ShowNumber(m.sizeValue))
    ensures Segment(m, Atr) == PrintedLine("atr_multiplier", ShowNumber(m.atrMultiplier))
    ensures Segment(m, Strength) == PrintedLine("strength_sizing", ShowBool(m.strengthSizing))
  {
  }

  lemma SevenEqual(a: seq<string>, b: seq<string>, c: seq<string>, d: seq<string>, e: seq<string>, f: seq<string>,
                   g: seq<string>, m: Metadata)
    requires a == Segment(m, Symbol) && b == Segment(m, Timeframe) && c == Segment(m, Mode) && d == Segment(m, Size)
    requires e == Segment(m, Atr) && f == Segment(m, Reverse) && g == Segment(m, Strength)
    ensures a + b + c + d + e + f + g == Segments(m)
  {
  }

  lemma MetaLinesAreSegments(m: Metadata)
    ensures MetaLines(m) == Segments(m)
  {
    TextSegments(m);
    OtherSegments(m);
    SevenEqual(PrintedLine("symbol", Truthy(m.symbol)), PrintedLine("timeframe", Truthy(m.timeframe)),
               PrintedLine("size_mode", ShowMode(m.sizeMode)), PrintedLine("size_value", ShowNumber(m.sizeValue)),
               PrintedLine("atr_multiplier", ShowNumber(m.atrMultiplier)),
               PrintedLine("reverse_policy", Truthy(m.reversePolicy)),
               PrintedLine("strength_sizing", ShowBool(m.strengthSizing)), m);
  }

  lemma SegmentIsTidy(m: Metadata, k: Key)
    requires PlainStrings(m)
    ensures All(Segment(m, k), Tidy)
  {
    if Shown(m, k).Some? {
      ShownIsPlain(m, k);
    }
    ValuesReadBack(m);
    SegmentTidy(k, Shown(m, k));
  }

  lemma SettingsAreTidy(m: Metadata)
    requires PlainStrings(m)
    ensures forall l | l in MetaLines(m) :: Tidy(l)
  {
    forall k: Key
      ensures All(Segment(m, k), Tidy)
    {
      SegmentIsTidy(m, k);
    }
    AllSeven(Segment(m, Symbol), Segment(m, Timeframe), Segment(m, Mode), Segment(m, Size), Segment(m, Atr),
             Segment(m, Reverse), Segment(m, Strength), Tidy);
    MetaLinesAreSegments(m);
  }
}
