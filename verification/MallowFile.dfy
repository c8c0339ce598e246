/** The `.mallow` file: a script under an optional block of `key: value` lines.

    `Parse` and `Serialize` are the specifications; the methods at the end are the loops that compute
    them.  A line is interpreted on its own (`Keyed` and the seven `...In` functions); the value of a
    setting is that of the last line that sets it, and lines that set nothing are kept verbatim.
 */
module MallowFile {
  import opened Options
  import opened Text
  import Numbers

  datatype SizeMode = PercentEquity | QuoteQty | FixedQty | FixedFractional | Volatility

  function ModeName(m: SizeMode): string {
    match m
    case PercentEquity => "percent_equity"
    case QuoteQty => "quote_qty"
    case FixedQty => "fixed_qty"
    case FixedFractional => "fixed_fractional"
    case Volatility => "volatility"
  }

  function ReadMode(s: string): Option<SizeMode> {
    if s == "percent_equity" then Some(PercentEquity)
    else if s == "quote_qty" then Some(QuoteQty)
    else if s == "fixed_qty" then Some(FixedQty)
    else if s == "fixed_fractional" then Some(FixedFractional)
    else if s == "volatility" then Some(Volatility)
    else None
  }

  datatype Metadata = Metadata(
    symbol: Option<string>,
    timeframe: Option<string>,
    sizeMode: Option<SizeMode>,
    sizeValue: Option<Numbers.Value>,
    atrMultiplier: Option<Numbers.Value>,
    reversePolicy: Option<string>,
    strengthSizing: Option<bool>)

  const NO_METADATA := Metadata(None, None, None, None, None, None, None)

  datatype File = File(metadata: Metadata, script: string, extra: Option<seq<string>>)

  // ---------------------------------------------------------------- splitting off the block

  predicate Dashes(s: string) {
    |s| >= 3 && s[0] == '-' && s[1] == '-' && s[2] == '-'
  }

  /** A line feed followed by three dashes. */
  predicate DashedBreak(s: string) {
    s != [] && s[0] == '\n' && Dashes(s[1..])
  }

  /** A line break, with or without carriage return, followed by three dashes. */
  predicate Closing(s: string) {
    DashedBreak(s) || (s != [] && s[0] == '\r' && DashedBreak(s[1..]))
  }

  /** Where the block ends: the first closing mark, found lazily. */
  function FindClose(s: string): (r: Option<nat>)
    ensures r.Some? ==> r.value <= |s|
  {
    if Closing(s) then Some(0)
    else if s == [] then None
    else match FindClose(s[1..]) case None => None case Some(k) => Some(k + 1)
  }

  lemma {:induction false} CloseIsThere(s: string)
    requires FindClose(s).Some?
    ensures Closing(s[FindClose(s).value..])
  {
    if !Closing(s) {
      CloseIsThere(s[1..]);
      assert s[FindClose(s).value..] == s[1..][FindClose(s).value - 1..];
    } else {
      assert s[0..] == s;
    }
  }

  function SkipBreak(s: string): string {
    var t := if s != [] && s[0] == '\r' then s[1..] else s;
    if t != [] && t[0] == '\n' then t[1..] else t
  }

  function AfterOpening(text: string): Option<string> {
    if Dashes(text) && |text| > 3 && text[3] == '\n' then Some(text[4..])
    else if Dashes(text) && |text| > 4 && text[3] == '\r' && text[4] == '\n' then Some(text[5..])
    else None
  }

  datatype Parts = Parts(frontmatter: string, script: string)

  function SplitBody(body: string): Option<Parts> {
    match FindClose(body)
    case None => None
    case Some(k) =>
      CloseIsThere(body);
      var rest := body[k..];
      Some(Parts(body[..k], SkipBreak(if DashedBreak(rest) then rest[4..] else rest[5..])))
  }

  function Split(text: string): Option<Parts> {
    match AfterOpening(text) case None => None case Some(body) => SplitBody(body)
  }

  // ---------------------------------------------------------------- one line

  predicate HasColon(line: string) {
    Find(line, ':') < |line|
  }

  function KeyOf(line: string): string
    requires HasColon(line)
  {
    Trim(line[..Find(line, ':')])
  }

  function ValueOf(line: string): string
    requires HasColon(line)
  {
    Trim(line[Find(line, ':') + 1..])
  }

  /** The non-empty value the line gives to `key`, if it does. */
  function Keyed(line: string, key: string): Option<string> {
    if HasColon(line) && KeyOf(line) == key && ValueOf(line) != "" then Some(ValueOf(line)) else None
  }

  function SymbolIn(line: string): Option<string> { Keyed(line, "symbol") }
  function TimeframeIn(line: string): Option<string> { Keyed(line, "timeframe") }
  function ReverseIn(line: string): Option<string> { Keyed(line, "reverse_policy") }

  function ModeIn(line: string): Option<SizeMode> {
    match Keyed(line, "size_mode") case None => None case Some(v) => ReadMode(v)
  }

  function SizeIn(line: string): Option<Numbers.Value> {
    match Keyed(line, "size_value") case None => None case Some(v) => Numbers.Read(v)
  }

  function AtrIn(line: string): Option<Numbers.Value> {
    match Keyed(line, "atr_multiplier") case None => None case Some(v) => Numbers.Read(v)
  }

  function StrengthIn(line: string): Option<bool> {
    match Keyed(line, "strength_sizing") case None => None case Some(v) => Some(v == "true")
  }

  predicate Recognised(line: string) {
    || SymbolIn(line).Some? || TimeframeIn(line).Some? || ModeIn(line).Some? || SizeIn(line).Some?
    || AtrIn(line).Some? || ReverseIn(line).Some? || StrengthIn(line).Some?
  }

  /** Lines preserved verbatim: no colon and not blank, or a value but no known setting. */
  predicate Kept(line: string) {
    if HasColon(line) then ValueOf(line) != "" && !Recognised(line) else Trim(line) != ""
  }

  // ---------------------------------------------------------------- parsing

  /** What the last line that sets something sets. */
  function LastSome<T>(lines: seq<string>, g: string -> Option<T>): Option<T> {
    if lines == [] then None
    else
      var later := LastSome(lines[1..], g);
      if later.Some? then later else g(lines[0])
  }

  function Interpret(lines: seq<string>): Metadata {
    Metadata(LastSome(lines, SymbolIn), LastSome(lines, TimeframeIn), LastSome(lines, ModeIn), LastSome(lines, SizeIn),
             LastSome(lines, AtrIn), LastSome(lines, ReverseIn), LastSome(lines, StrengthIn))
  }

  function Where(lines: seq<string>, keep: string -> bool): seq<string> {
    if lines == [] then []
    else (if keep(lines[0]) then [lines[0]] else []) + Where(lines[1..], keep)
  }

  function Extras(lines: seq<string>): seq<string> {
    Where(lines, Kept)
  }

  function Parse(text: string): File {
    match Split(text)
    case None => File(NO_METADATA, text, None)
    case Some(Parts(frontmatter, script)) =>
      var lines := SplitLines(frontmatter);
      var extra := Extras(lines);
      File(Interpret(lines), script, if extra == [] then None else Some(extra))
  }

  // ---------------------------------------------------------------- printing

  function KeyLine(key: string, value: string): string {
    key + ": " + value
  }

  /** An empty string counts as absent. */
  function Truthy(s: Option<string>): Option<string> {
    if s == Some("") then None else s
  }

  function ShowNumber(n: Option<Numbers.Value>): Option<string> {
    match n case None => None case Some(i) => Some(Numbers.Print(i))
  }

  function ShowMode(m: Option<SizeMode>): Option<string> {
    match m case None => None case Some(v) => Some(ModeName(v))
  }

  function ShowBool(b: Option<bool>): Option<string> {
    match b case None => None case Some(v) => Some(if v then "true" else "false")
  }

  function PrintedLine(key: string, value: Option<string>): seq<string> {
    match value case None => [] case Some(v) => [KeyLine(key, v)]
  }

  /** The settings written, in their fixed order. */
  function MetaLines(m: Metadata): seq<string> {
    PrintedLine("symbol", Truthy(m.symbol)) + PrintedLine("timeframe", Truthy(m.timeframe))
    + PrintedLine("size_mode", ShowMode(m.sizeMode)) + PrintedLine("size_value", ShowNumber(m.sizeValue))
    + PrintedLine("atr_multiplier", ShowNumber(m.atrMultiplier)) + PrintedLine("reverse_policy", Truthy(m.reversePolicy))
    + PrintedLine("strength_sizing", ShowBool(m.strengthSizing))
  }

  function ExtraLines(f: File): seq<string> {
    match f.extra case None => [] case Some(e) => e
  }

  function Lines(f: File): seq<string> {
    MetaLines(f.metadata) + ExtraLines(f)
  }

  function Framed(lines: seq<string>, script: string): string
    requires lines != []
  {
    "---\n" + Join(lines) + "\n---\n" + script
  }

  function Serialize(f: File): string {
    if Lines(f) == [] then f.script else Framed(Lines(f), f.script)
  }

  // ---------------------------------------------------------------- the loops

  lemma {:induction false} LastSomeSnoc<T>(lines: seq<string>, l: string, g: string -> Option<T>)
    ensures LastSome(lines + [l], g) == if g(l).Some? then g(l) else LastSome(lines, g)
  {
    if lines == [] {
      assert ([] + [l])[1..] == [];
    } else {
      assert (lines + [l])[1..] == lines[1..] + [l];
      LastSomeSnoc(lines[1..], l, g);
    }
  }

  lemma {:induction false} WhereAppend(xs: seq<string>, ys: seq<string>, keep: string -> bool)
    ensures Where(xs + ys, keep) == Where(xs, keep) + Where(ys, keep)
  {
    if xs == [] {
      assert xs + ys == ys;
    } else {
      assert (xs + ys)[1..] == xs[1..] + ys;
      WhereAppend(xs[1..], ys, keep);
    }
  }

  /** What one more line does to the metadata and the kept lines. */
  function Absorb(m: Metadata, line: string): Metadata {
    Metadata(if SymbolIn(line).Some? then SymbolIn(line) else m.symbol,
             if TimeframeIn(line).Some? then TimeframeIn(line) else m.timeframe,
             if ModeIn(line).Some? then ModeIn(line) else m.sizeMode,
             if SizeIn(line).Some? then SizeIn(line) else m.sizeValue,
             if AtrIn(line).Some? then AtrIn(line) else m.atrMultiplier,
             if ReverseIn(line).Some? then ReverseIn(line) else m.reversePolicy,
             if StrengthIn(line).Some? then StrengthIn(line) else m.strengthSizing)
  }

  lemma InterpretSnoc(lines: seq<string>, l: string)
    ensures Interpret(lines + [l]) == Absorb(Interpret(lines), l)
    ensures Extras(lines + [l]) == Extras(lines) + if Kept(l) then [l] else []
  {
    LastSomeSnoc(lines, l, SymbolIn);
    LastSomeSnoc(lines, l, TimeframeIn);
    LastSomeSnoc(lines, l, ModeIn);
    LastSomeSnoc(lines, l, SizeIn);
    LastSomeSnoc(lines, l, AtrIn);
    LastSomeSnoc(lines, l, ReverseIn);
    LastSomeSnoc(lines, l, StrengthIn);
    WhereAppend(lines, [l], Kept);
    assert [l][1..] == [];
  }

  /** The dispatch on one line, branch by branch. */
  method ReadLine(metadata: Metadata, line: string) returns (m: Metadata, keep: bool)
    ensures m == Absorb(metadata, line)
    ensures keep == Kept(line)
  {
    m, keep := metadata, false;
    var idx := Find(line, ':');
    if idx == |line| {
      keep := Trim(line) != "";
      return;
    }
    var key, value := Trim(line[..idx]), Trim(line[idx+1..]);
    if value == "" {
      return;
    }
    if key == "symbol" {
      m := m.(symbol := Some(value));
    } else if key == "timeframe" {
      m := m.(timeframe := Some(value));
    } else if key == "size_mode" && ReadMode(value).Some? {
      m := m.(sizeMode := ReadMode(value));
    } else if key == "size_value" && Numbers.Read(value).Some? {
      m := m.(sizeValue := Numbers.Read(value));
    } else if key == "atr_multiplier" && Numbers.Read(value).Some? {
      m := m.(atrMultiplier := Numbers.Read(value));
    } else if key == "reverse_policy" {
      m := m.(reversePolicy := Some(value));
    } else if key == "strength_sizing" {
      m := m.(strengthSizing := Some(value == "true"));
    } else {
      keep := true;
    }
  }

  method ParseMallowFile(text: string) returns (f: File)
    ensures f == Parse(text)
  {
    var parts := Split(text);
    if parts.None? {
      return File(NO_METADATA, text, None);
    }
    var lines := SplitLines(parts.value.frontmatter);
    var metadata, extra := NO_METADATA, [];
    for i := 0 to |lines|
      invariant metadata == Interpret(lines[..i])
      invariant extra == Extras(lines[..i])
    {
      assert lines[..i+1] == lines[..i] + [lines[i]];
      InterpretSnoc(lines[..i], lines[i]);
      var keep;
      metadata, keep := ReadLine(metadata, lines[i]);
      if keep {
        extra := extra + [lines[i]];
      }
    }
    assert lines[..|lines|] == lines;
    f := File(metadata, parts.value.script, if extra == [] then None else Some(extra));
  }

  method Push(lines: seq<string>, key: string, value: Option<string>) returns (r: seq<string>)
    ensures r == lines + PrintedLine(key, value)
  {
    r := lines;
    if value.Some? {
      r := r + [KeyLine(key, value.value)];
    }
  }

  method WriteSettings(m: Metadata) returns (lines: seq<string>)
    ensures lines == MetaLines(m)
  {
    lines := Push([], "symbol", Truthy(m.symbol));
    lines := Push(lines, "timeframe", Truthy(m.timeframe));
    lines := Push(lines, "size_mode", ShowMode(m.sizeMode));
    lines := Push(lines, "size_value", ShowNumber(m.sizeValue));
    lines := Push(lines, "atr_multiplier", ShowNumber(m.atrMultiplier));
    lines := Push(lines, "reverse_policy", Truthy(m.reversePolicy));
    lines := Push(lines, "strength_sizing", ShowBool(m.strengthSizing));
  }

  method SerializeMallowFile(f: File) returns (text: string)
    ensures text == Serialize(f)
  {
    var lines := WriteSettings(f.metadata);
    if f.extra.Some? {
      lines := lines + f.extra.value;
    }
    assert lines == Lines(f);
    if lines == [] {
      return f.script;
    }
    return "---\n" + Join(lines) + "\n---\n" + f.script;
  }
}
