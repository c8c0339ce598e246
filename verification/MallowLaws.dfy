/** The two round-trip laws of the `.mallow` format, each with the exact condition under which it holds. */
module MallowLaws {
  import opened Options
  import opened Text
  import opened MallowFile
  import opened MallowRoundTrip

  // ---------------------------------------------------------------- kept lines

  lemma KeptSetsNothing(l: string)
    requires Kept(l)
    ensures !Recognised(l)
  {
  }

  lemma RecognisedIsNotKept(l: string)
    requires Recognised(l)
    ensures !Kept(l)
  {
  }

  lemma SameFields(s: string)
    ensures HasColon(s + ['\r']) == HasColon(s) && Trim(s + ['\r']) == Trim(s)
    ensures HasColon(s) ==> KeyOf(s + ['\r']) == KeyOf(s) && ValueOf(s + ['\r']) == ValueOf(s)
  {
    TrimIgnoresSpace(s, '\r');
    if HasColon(s) {
      var i, l := Find(s, ':'), s + ['\r'];
      assert l[..i] == s[..i];
      FindAt(l, ':', i);
      assert l[i+1..] == s[i+1..] + ['\r'];
      TrimIgnoresSpace(s[i+1..], '\r');
    }
  }

  lemma SameReadings(l: string, l': string)
    requires HasColon(l) == HasColon(l') && Trim(l) == Trim(l')
    requires HasColon(l) ==> KeyOf(l) == KeyOf(l') && ValueOf(l) == ValueOf(l')
    ensures Recognised(l) == Recognised(l') && Kept(l) == Kept(l')
  {
  }

  /** A trailing carriage return does not change how a line is read. */
  lemma CarriageReturnIgnored(l: string)
    ensures Kept(StripCR(l)) == Kept(l)
    ensures Recognised(StripCR(l)) == Recognised(l)
  {
    if EndsInCR(l) {
      assert l == StripCR(l) + ['\r'];
      SameFields(StripCR(l));
      SameReadings(StripCR(l), l);
    }
  }

  lemma {:induction false} ExtrasOfKept(lines: seq<string>)
    requires forall l | l in lines :: Kept(l)
    ensures Extras(lines) == lines && Interpret(lines) == NO_METADATA
  {
    if lines != [] {
      assert lines[0] in lines;
      KeptSetsNothing(lines[0]);
      ExtrasOfKept(lines[1..]);
      assert lines == [lines[0]] + lines[1..];
    }
  }

  /** Reading printed settings followed by kept lines. */
  lemma ReadPrinted(m: Metadata, extra: seq<string>)
    requires PlainStrings(m) && forall l | l in extra :: Kept(l)
    ensures Interpret(MetaLines(m) + extra) == m
    ensures Extras(MetaLines(m) + extra) == extra
  {
    SettingsReadBack(m);
    SettingsAreTidy(m);
    forall l | l in MetaLines(m)
      ensures !Kept(l)
    {
      RecognisedIsNotKept(l);
    }
    NothingKept(MetaLines(m));
    ExtrasOfKept(extra);
    WhereAppend(MetaLines(m), extra, Kept);
    LastSomeAppend(MetaLines(m), extra, SymbolIn);
    LastSomeAppend(MetaLines(m), extra, TimeframeIn);
    LastSomeAppend(MetaLines(m), extra, ModeIn);
    LastSomeAppend(MetaLines(m), extra, SizeIn);
    LastSomeAppend(MetaLines(m), extra, AtrIn);
    LastSomeAppend(MetaLines(m), extra, ReverseIn);
    LastSomeAppend(MetaLines(m), extra, StrengthIn);
  }

  lemma NothingPrinted(m: Metadata)
    requires PlainStrings(m) && MetaLines(m) == []
    ensures m == NO_METADATA
  {
    SettingsReadBack(m);
  }

  // ---------------------------------------------------------------- what parsing produces

  lemma {:induction false} LastSomeIsSome<T>(lines: seq<string>, g: string -> Option<T>)
    ensures LastSome(lines, g).Some? ==> exists l | l in lines :: g(l) == LastSome(lines, g)
    ensures LastSome(lines, g).None? ==> forall l | l in lines :: g(l).None?
  {
    if lines != [] {
      LastSomeIsSome(lines[1..], g);
      assert lines[0] in lines;
      assert forall l | l in lines :: l == lines[0] || l in lines[1..];
    }
  }

  lemma KeyedIsPlain(l: string, key: string)
    requires '\n' !in l && Keyed(l, key).Some?
    ensures Plain(Keyed(l, key).value)
  {
    TrimFacts(l[Find(l, ':') + 1..]);
  }

  lemma {:induction false} ExtrasAreKept(lines: seq<string>)
    ensures forall l :: l in Extras(lines) <==> l in lines && Kept(l)
  {
    if lines != [] {
      ExtrasAreKept(lines[1..]);
      assert forall l :: l in lines <==> l == lines[0] || l in lines[1..];
    }
  }

  lemma {:induction false} NothingKept(lines: seq<string>)
    requires forall l | l in lines :: !Kept(l)
    ensures Extras(lines) == []
  {
    if lines != [] {
      assert lines[0] in lines;
      NothingKept(lines[1..]);
    }
  }

  /** Parsed values are non-empty, trimmed and on one line; parsed extra lines are lines the parser keeps. */
  lemma ParsedShape(text: string)
    ensures PlainStrings(Parse(text).metadata)
    ensures Parse(text).extra.Some? ==>
              && Parse(text).extra.value != []
              && forall l | l in Parse(text).extra.value :: '\n' !in l && Kept(l)
  {
    if Split(text).Some? {
      var lines := SplitLines(Split(text).value.frontmatter);
      SplitLinesAreSingle(Split(text).value.frontmatter);
      ExtrasAreKept(lines);
      LastSomeIsSome(lines, SymbolIn);
      LastSomeIsSome(lines, TimeframeIn);
      LastSomeIsSome(lines, ReverseIn);
      forall l | l in lines
        ensures SymbolIn(l).Some? ==> Plain(SymbolIn(l).value)
        ensures TimeframeIn(l).Some? ==> Plain(TimeframeIn(l).value)
        ensures ReverseIn(l).Some? ==> Plain(ReverseIn(l).value)
      {
        if SymbolIn(l).Some? {
          KeyedIsPlain(l, "symbol");
        }
        if TimeframeIn(l).Some? {
          KeyedIsPlain(l, "timeframe");
        }
        if ReverseIn(l).Some? {
          KeyedIsPlain(l, "reverse_policy");
        }
      }
    }
  }

  lemma SplitIsShorter(text: string)
    requires Split(text).Some?
    ensures |Split(text).value.script| < |text|
  {
    CloseIsThere(AfterOpening(text).value);
  }

  // ---------------------------------------------------------------- print, then parse

  /** An extra line that comes back where it was: one line without trailing carriage return that the
      parser keeps, and no closing mark unless it is the very first line printed. */
  ghost predicate ComesBack(f: File, i: nat)
    requires f.extra.Some? && i < |f.extra.value|
  {
    var l := f.extra.value[i];
    '\n' !in l && !EndsInCR(l) && Kept(l) && (Dashes(l) ==> i == 0 && MetaLines(f.metadata) == [])
  }

  ghost predicate Faithful(f: File) {
    && PlainStrings(f.metadata)
    && (f.extra.Some? ==> f.extra.value != [] && forall i | 0 <= i < |f.extra.value| :: ComesBack(f, i))
    && (Lines(f) == [] ==> Split(f.script).None?)
  }

  lemma StripNothing(lines: seq<string>)
    requires forall l | l in lines :: !EndsInCR(l)
    ensures StripAll(lines) == lines
  {
    assert forall i | 0 <= i < |lines| :: lines[i] in lines;
  }

  /** What a faithful file prints: single lines without trailing carriage returns, extra lines that are kept, and no
      line of dashes but the first. */
  lemma FaithfulLines(f: File)
    requires Faithful(f)
    ensures forall l | l in Lines(f) :: '\n' !in l && !EndsInCR(l)
    ensures forall l | l in ExtraLines(f) :: Kept(l)
    ensures Unmarked(Lines(f))
  {
    SettingsAreTidy(f.metadata);
    FaithfulExtras(f);
    FaithfulIsUnmarked(f);
  }

  lemma FaithfulExtras(f: File)
    requires Faithful(f)
    ensures forall l | l in ExtraLines(f) :: '\n' !in l && !EndsInCR(l) && Kept(l)
  {
    var extra := ExtraLines(f);
    forall l | l in extra
      ensures '\n' !in l && !EndsInCR(l) && Kept(l)
    {
      var i :| 0 <= i < |extra| && extra[i] == l;
      assert ComesBack(f, i);
    }
  }

  lemma UnmarkedTogether(meta: seq<string>, extra: seq<string>)
    requires forall l | l in meta :: !Dashes(l)
    requires forall i | 0 <= i < |extra| :: Dashes(extra[i]) ==> i == 0 && meta == []
    ensures Unmarked(meta + extra)
  {
  }

  lemma FaithfulIsUnmarked(f: File)
    requires Faithful(f)
    ensures Unmarked(Lines(f))
  {
    var extra := ExtraLines(f);
    SettingsAreTidy(f.metadata);
    forall i | 0 <= i < |extra|
      ensures Dashes(extra[i]) ==> i == 0 && MetaLines(f.metadata) == []
    {
      assert ComesBack(f, i);
    }
    UnmarkedTogether(MetaLines(f.metadata), extra);
  }

  lemma UnmarkedToEnd(lines: seq<string>)
    requires lines != [] && Unmarked(lines)
    ensures MarkerAfter(lines) == |lines|
  {
  }

  lemma FaithfulComesBack(f: File)
    requires Faithful(f)
    ensures Parse(Serialize(f)) == f
  {
    var m, extra, lines := f.metadata, ExtraLines(f), Lines(f);
    if lines == [] {
      NothingPrinted(m);
    } else {
      FaithfulLines(f);
      UnmarkedToEnd(lines);
      StripNothing(lines);
      assert lines[..|lines|] == lines;
      SplitFramed(lines, f.script);
      ReadPrinted(m, extra);
    }
  }

  lemma PrintedExtrasComeBack(f: File)
    requires Parse(Serialize(f)) == f && Lines(f) != [] && PlainStrings(f.metadata)
    requires forall l | l in ExtraLines(f) :: '\n' !in l && Kept(l)
    ensures MarkerAfter(Lines(f)) == |Lines(f)| && ExtraLines(f) == StripAll(ExtraLines(f))
  {
    var m, extra, lines := f.metadata, ExtraLines(f), Lines(f);
    SettingsAreTidy(m);
    SplitFramed(lines, f.script);
    assert MarkerAfter(lines) == |lines|;
    assert lines[..|lines|] == lines;
    StrippedExtras(m, extra);
  }

  lemma ComingBackIsFaithful(f: File)
    requires Parse(Serialize(f)) == f
    ensures Faithful(f)
  {
    ParsedShape(Serialize(f));
    if Lines(f) == [] {
      if Split(f.script).Some? {
        SplitIsShorter(f.script);
      }
    } else {
      PrintedExtrasComeBack(f);
      forall i | 0 <= i < |ExtraLines(f)|
        ensures ComesBack(f, i)
      {
        ExtraComesBack(f, i);
      }
    }
  }

  lemma ExtraComesBack(f: File, i: nat)
    requires f.extra.Some? && i < |f.extra.value|
    requires MarkerAfter(Lines(f)) == |Lines(f)| && f.extra.value == StripAll(f.extra.value)
    requires '\n' !in f.extra.value[i] && Kept(f.extra.value[i])
    ensures ComesBack(f, i)
  {
    var l := f.extra.value[i];
    assert Lines(f)[|MetaLines(f.metadata)| + i] == l;
    assert l == StripCR(l);
  }

  /** Extra lines read back from printed lines that may have lost a carriage return each. */
  lemma StrippedExtras(m: Metadata, extra: seq<string>)
    requires PlainStrings(m) && forall l | l in extra :: Kept(l)
    ensures Extras(StripAll(MetaLines(m) + extra)) == StripAll(extra)
  {
    SettingsAreTidy(m);
    var lines := MetaLines(m) + extra;
    StripNothing(MetaLines(m));
    StripAllAppend(MetaLines(m), extra);
    StrippedAreKept(extra);
    ReadPrinted(m, StripAll(extra));
  }

  lemma StripAllAppend(a: seq<string>, b: seq<string>)
    ensures StripAll(a + b) == StripAll(a) + StripAll(b)
  {
  }

  lemma StrippedAreKept(extra: seq<string>)
    requires forall l | l in extra :: Kept(l)
    ensures forall l | l in StripAll(extra) :: Kept(l)
  {
    forall l | l in StripAll(extra)
      ensures Kept(l)
    {
      var i :| 0 <= i < |extra| && StripAll(extra)[i] == l;
      assert extra[i] in extra;
      CarriageReturnIgnored(extra[i]);
    }
  }

  /** Printing then parsing gives the file back exactly when it is faithful. */
  lemma {:induction false} PrintParse(f: File)
    ensures Parse(Serialize(f)) == f <==> Faithful(f)
  {
    if Faithful(f) {
      FaithfulComesBack(f);
    }
    if Parse(Serialize(f)) == f {
      ComingBackIsFaithful(f);
    }
  }

  // ---------------------------------------------------------------- parse, print, parse

  lemma NextLineIsNoMarker(s: string, n: nat, k: nat)
    requires FindClose(s) == Some(k) && n < k && s[n] == '\n'
    ensures !Dashes(SplitLines(s[n+1..k])[0])
  {
    if Dashes(SplitLines(s[n+1..k])[0]) {
      FirstLineStarts(s[n+1..k]);
      assert s[n..][1..][..k-n-1] == s[n+1..k];
      assert DashedBreak(s[n..]);
      CloseIsFirst(s, n);
      assert false;
    }
  }

  predicate Unmarked(lines: seq<string>) {
    forall i | 1 <= i < |lines| :: !Dashes(lines[i])
  }

  lemma UnmarkedBefore(first: string, lines: seq<string>)
    requires lines != [] && !Dashes(lines[0]) && Unmarked(lines)
    ensures Unmarked([first] + lines)
  {
  }

  /** Only the first line of a block can start with three dashes: any other would have ended it. */
  lemma {:induction false} NoInnerMarker(s: string, k: nat)
    requires FindClose(s) == Some(k)
    ensures Unmarked(SplitLines(s[..k]))
    decreases |s|
  {
    var x := s[..k];
    var n := Find(x, '\n');
    if n < k {
      var rest := s[n+1..k];
      CloseAfter(s, n + 1);
      assert s[n+1..][..k-n-1] == rest;
      NoInnerMarker(s[n+1..], k - n - 1);
      NextLineIsNoMarker(s, n, k);
      assert x[n+1..] == rest;
      SplitStep(x, Find(x, '\n'));
      UnmarkedBefore(StripCR(x[..n]), SplitLines(rest));
    }
  }

  lemma FirstLineStarts(s: string)
    requires Dashes(SplitLines(s)[0])
    ensures Dashes(s)
  {
  }

  lemma {:induction false} CloseIsFirst(s: string, i: nat)
    requires i <= |s| && Closing(s[i..])
    ensures FindClose(s).Some? && FindClose(s).value <= i
  {
    if i > 0 {
      assert s[1..][i-1..] == s[i..];
      CloseIsFirst(s[1..], i - 1);
    }
  }

  lemma {:induction false} CloseAfter(s: string, i: nat)
    requires FindClose(s).Some? && i <= FindClose(s).value
    ensures FindClose(s[i..]) == Some(FindClose(s).value - i)
  {
    if i == 0 {
      assert s[0..] == s;
    } else {
      CloseStep(s);
      CloseAfter(s[1..], i - 1);
      assert s[1..][i-1..] == s[i..];
    }
  }

  /** Checkable on the text alone: no kept line ends in a carriage return, a first line of dashes is not
      kept beside settings, and a block that would vanish does not uncover another block. */
  ghost predicate Stable(text: string) {
    match Split(text)
    case None => true
    case Some(Parts(frontmatter, script)) => StableBlock(SplitLines(frontmatter), script)
  }

  ghost predicate StableBlock(lines: seq<string>, script: string)
    requires lines != []
  {
    && (forall l | l in lines && Kept(l) :: !EndsInCR(l))
    && (Dashes(lines[0]) && Kept(lines[0]) ==> forall l | l in lines :: !Recognised(l))
    && ((forall l | l in lines :: !Recognised(l) && !Kept(l)) ==> Split(script).None?)
  }

  lemma {:induction false} RecognisedIsPrinted(lines: seq<string>)
    requires SingleLines(lines)
    ensures MetaLines(Interpret(lines)) == [] <==> forall l | l in lines :: !Recognised(l)
  {
    LastSomeIsSome(lines, SymbolIn);
    LastSomeIsSome(lines, TimeframeIn);
    LastSomeIsSome(lines, ModeIn);
    LastSomeIsSome(lines, SizeIn);
    LastSomeIsSome(lines, AtrIn);
    LastSomeIsSome(lines, ReverseIn);
    LastSomeIsSome(lines, StrengthIn);
  }

  lemma {:induction false} BlockShape(text: string)
    requires Split(text).Some?
    ensures forall i | 1 <= i < |SplitLines(Split(text).value.frontmatter)| ::
              !Dashes(SplitLines(Split(text).value.frontmatter)[i])
  {
    var body := AfterOpening(text).value;
    NoInnerMarker(body, FindClose(body).value);
  }

  /** Among the kept lines only the first can be a line of dashes, and only if it opens the block. */
  lemma DashedExtra(lines: seq<string>, i: nat)
    requires lines != [] && (forall j | 1 <= j < |lines| :: !Dashes(lines[j]))
    requires i < |Extras(lines)| && Dashes(Extras(lines)[i])
    ensures i == 0 && Dashes(lines[0]) && Kept(lines[0])
  {
    ExtrasAreKept(lines[1..]);
    var inner := Extras(lines[1..]);
    forall k | 0 <= k < |inner|
      ensures !Dashes(inner[k])
    {
      assert inner[k] in inner;
      var j :| 0 <= j < |lines| - 1 && lines[1..][j] == inner[k];
    }
  }

  function BlockFile(lines: seq<string>, script: string): File {
    File(Interpret(lines), script, if Extras(lines) == [] then None else Some(Extras(lines)))
  }

  ghost predicate BlockLines(lines: seq<string>) {
    lines != [] && SingleLines(lines) && forall i | 1 <= i < |lines| :: !Dashes(lines[i])
  }

  lemma StableBlockIsFaithful(lines: seq<string>, script: string)
    requires BlockLines(lines) && StableBlock(lines, script)
    requires PlainStrings(Interpret(lines))
    ensures Faithful(BlockFile(lines, script))
  {
    var f, extra := BlockFile(lines, script), Extras(lines);
    RecognisedIsPrinted(lines);
    ExtrasAreKept(lines);
    forall i | 0 <= i < |extra|
      ensures ComesBack(f, i)
    {
      assert extra[i] in extra;
      if Dashes(extra[i]) {
        DashedExtra(lines, i);
      }
    }
    if Lines(f) == [] {
      assert forall l | l in lines :: Kept(l) ==> l in extra;
    }
  }

  lemma FaithfulBlockIsStable(lines: seq<string>, script: string)
    requires BlockLines(lines) && Faithful(BlockFile(lines, script))
    ensures StableBlock(lines, script)
  {
    var f, extra := BlockFile(lines, script), Extras(lines);
    RecognisedIsPrinted(lines);
    ExtrasAreKept(lines);
    forall l | l in lines && Kept(l)
      ensures !EndsInCR(l)
    {
      var i :| 0 <= i < |extra| && extra[i] == l;
      assert ComesBack(f, i);
    }
    if Dashes(lines[0]) && Kept(lines[0]) {
      assert extra[0] == lines[0];
      assert ComesBack(f, 0);
    }
    if forall l | l in lines :: !Recognised(l) && !Kept(l) {
      NothingKept(lines);
      assert Lines(f) == [];
    }
  }

  lemma StableIsFaithful(text: string)
    requires Split(text).Some?
    ensures Faithful(Parse(text)) <==> Stable(text)
  {
    var lines, script := SplitLines(Split(text).value.frontmatter), Split(text).value.script;
    ParsedShape(text);
    BlockShape(text);
    SplitLinesAreSingle(Split(text).value.frontmatter);
    assert Parse(text) == BlockFile(lines, script);
    if Stable(text) {
      StableBlockIsFaithful(lines, script);
    }
    if Faithful(Parse(text)) {
      FaithfulBlockIsStable(lines, script);
    }
  }

  /** Rewriting a file and reading it again changes nothing exactly when the text is stable. */
  lemma {:induction false} ParsePrintParse(text: string)
    ensures Parse(Serialize(Parse(text))) == Parse(text) <==> Stable(text)
  {
    PrintParse(Parse(text));
    if Split(text).Some? {
      StableIsFaithful(text);
    }
  }

  /** A sufficient condition in terms of the lines of the block alone. */
  lemma {:induction false} OrdinaryTextIsStable(text: string)
    requires Split(text).Some? ==>
               var lines := SplitLines(Split(text).value.frontmatter);
               && (forall l | l in lines :: !EndsInCR(l) && !Dashes(l))
               && ((exists l | l in lines :: Recognised(l) || Kept(l)) || Split(Split(text).value.script).None?)
    ensures Parse(Serialize(Parse(text))) == Parse(text)
  {
    ParsePrintParse(text);
  }

  /** Changing the settings of a file that would come back, or clearing them, gives a file that comes back exactly
      when no line of dashes ends up behind a setting, and no bare script is left that looks like a block. */
  lemma EditKeepsTheRest(f: File, m: Metadata)
    requires Faithful(f) && PlainStrings(m)
    ensures Parse(Serialize(f.(metadata := m))) == f.(metadata := m) <==>
              && (MetaLines(m) != [] && f.extra.Some? ==> !Dashes(f.extra.value[0]))
              && (MetaLines(m) == [] && f.extra.None? ==> Split(f.script).None?)
  {
    var g := f.(metadata := m);
    PrintParse(g);
    if f.extra.Some? {
      assert ComesBack(f, 0);
      forall i | 0 <= i < |g.extra.value| && (Dashes(g.extra.value[0]) ==> MetaLines(m) == [])
        ensures ComesBack(g, i)
      {
        assert ComesBack(f, i);
      }
      assert ComesBack(g, 0) <==> (Dashes(g.extra.value[0]) ==> MetaLines(m) == []);
    }
  }

  /** Three ways to lose information: a carriage return, a line of dashes moved behind a setting, and a
      vanishing block above a script that itself looks like a block. */
  lemma UnstableFiles()
    ensures !Faithful(File(NO_METADATA, "", Some(["note\r"])))
    ensures !Faithful(File(NO_METADATA.(symbol := Some("X")), "", Some(["---"])))
    ensures !Faithful(File(NO_METADATA, "---\n\n---\n", None))
  {
    assert !ComesBack(File(NO_METADATA, "", Some(["note\r"])), 0);
    DashesBehindSetting(NO_METADATA.(symbol := Some("X")));
    BareBlock();
  }

  lemma EmptyBlock(script: string)
    ensures Split("---\n\n---\n" + script) == Some(Parts("", script))
  {
    var text := "---\n\n---\n" + script;
    var body := "\n---\n" + script;
    assert text[4..] == body;
    TailShape(script);
    assert FindClose(body) == Some(0);
    assert body[0..] == body && body[..0] == "";
  }

  lemma EmptyBlockIsUnstable(text: string, script: string)
    requires Split(text) == Some(Parts("", script)) && Split(script).Some?
    ensures !Stable(text)
  {
    SplitSingle("");
    BlankLine();
  }

  lemma EmptyBlockVanishes(text: string, script: string)
    requires Split(text) == Some(Parts("", script)) && Split(script).Some?
    ensures Parse(Serialize(Parse(text))) != Parse(text)
  {
    EmptyBlockIsUnstable(text, script);
    ParsePrintParse(text);
  }

  /** An empty block above a script that is itself a block: reading, writing and reading again takes the script
      apart. */
  lemma {:induction false} VanishingBlock(script: string)
    requires Split(script).Some?
    ensures var text := "---\n\n---\n" + script; Parse(Serialize(Parse(text))) != Parse(text)
  {
    EmptyBlock(script);
    EmptyBlockVanishes("---\n\n---\n" + script, script);
  }

  lemma BlankLine()
    ensures !Recognised("") && !Kept("")
  {
    assert Find("", ':') == 0;
  }

  lemma {:induction false} UnstableText()
    ensures var text := "---\n\n---\n" + "---\n\n---\n"; Parse(Serialize(Parse(text))) != Parse(text)
  {
    BareBlock();
    VanishingBlock("---\n\n---\n");
  }

  lemma DashesBehindSetting(m: Metadata)
    requires m.symbol.Some? && m.symbol.value != ""
    ensures !Faithful(File(m, "", Some(["---"])))
  {
    var f := File(m, "", Some(["---"]));
    assert |MetaLines(m)| >= |PrintedLine("symbol", Truthy(m.symbol))| == 1;
    assert !ComesBack(f, 0);
  }

  lemma BareBlock()
    ensures Split("---\n\n---\n").Some?
  {
    var c := "---\n\n---\n";
    assert c[4..][1..][0] == c[5] && c[4..][1..][1] == c[6] && c[4..][1..][2] == c[7];
    assert Closing(c[4..]);
  }
}
