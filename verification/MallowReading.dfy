/** What a `.mallow` text says, line by line: where its block is, what each setting becomes, and which lines are kept
    for rewriting. */
module MallowReading {
  import opened Options
  import opened Text
  import opened StableSort
  import opened MallowFile
  import opened MallowLaws
  import Numbers

  // ---------------------------------------------------------------- the block

  predicate StartsWith(s: string, t: string) {
    t <= s
  }

  /** A closing mark begins here: a line break and three dashes. */
  predicate MarkHere(s: string) {
    StartsWith(s, "\n---") || StartsWith(s, "\r\n---")
  }

  /** At most one line break is taken away between the closing mark and the script, and as much of it as there is. */
  predicate TakesBreak(end: string, script: string) {
    || (end == "" && !StartsWith(script, "\r") && !StartsWith(script, "\n"))
    || (end == "\r" && !StartsWith(script, "\n"))
    || end == "\n" || end == "\r\n"
  }

  predicate Opens(open: string) {
    open == "---\n" || open == "---\r\n"
  }

  predicate Breaks(eol: string) {
    eol == "\n" || eol == "\r\n"
  }

  /** What follows a block: a line break, three dashes, what is left of that line's end, and the script. */
  function Tail(eol: string, end: string, script: string): string {
    eol + ("---" + (end + script))
  }

  ghost predicate IsBody(body: string, block: string, eol: string, end: string, script: string) {
    && Breaks(eol) && TakesBreak(end, script) && body == block + Tail(eol, end, script)
    && forall k :: 0 <= k < |block| ==> !MarkHere(body[k..])
  }

  /** The text is an opening mark, a block up to the first closing mark, and a script. */
  ghost predicate IsBlock(text: string, block: string, script: string) {
    exists open, body, eol, end :: Opens(open) && text == open + body && IsBody(body, block, eol, end, script)
  }

  lemma ClosingIsMark(s: string)
    ensures Closing(s) <==> MarkHere(s)
    ensures DashedBreak(s) <==> StartsWith(s, "\n---")
  {
  }

  lemma SkipBreakIs(s: string) returns (end: string)
    ensures s == end + SkipBreak(s) && TakesBreak(end, SkipBreak(s))
  {
    if s != [] && s[0] == '\r' {
      end := if |s| > 1 && s[1] == '\n' then "\r\n" else "\r";
    } else {
      end := if s != [] && s[0] == '\n' then "\n" else "";
    }
  }

  lemma SkipBreakOnce(end: string, script: string)
    requires TakesBreak(end, script)
    ensures SkipBreak(end + script) == script
  {
    assert end != "" ==> (end + script)[0] == end[0];
    assert end == "\r\n" ==> (end + script)[1..] == "\n" + script;
  }

  lemma AfterMark(rest: string) returns (eol: string, end: string)
    requires Closing(rest)
    ensures var script := SkipBreak(if DashedBreak(rest) then rest[4..] else rest[5..]);
            Breaks(eol) && TakesBreak(end, script) && rest == Tail(eol, end, script)
  {
    ClosingIsMark(rest);
    eol := if DashedBreak(rest) then "\n" else "\r\n";
    var after := if DashedBreak(rest) then rest[4..] else rest[5..];
    end := SkipBreakIs(after);
    assert rest == eol + ("---" + after);
  }

  lemma TailIsClosing(eol: string, end: string, script: string)
    requires Breaks(eol) && TakesBreak(end, script)
    ensures var rest := Tail(eol, end, script);
            Closing(rest) && SkipBreak(if DashedBreak(rest) then rest[4..] else rest[5..]) == script
  {
    var rest := Tail(eol, end, script);
    assert rest[|eol|..] == "---" + (end + script);
    assert rest[|eol| + 3..] == end + script;
    assert rest[0] == eol[0] && (|eol| == 2 ==> rest[1] == eol[1] && rest[1..] == "\n" + ("---" + (end + script)));
    SkipBreakOnce(end, script);
  }

  lemma MarksAreClosings(body: string, k: nat)
    requires k <= |body|
    ensures FindClose(body) == Some(k) <==> MarkHere(body[k..]) && forall j :: 0 <= j < k ==> !MarkHere(body[j..])
  {
    if FindClose(body).Some? {
      CloseIsThere(body);
      ClosingIsMark(body[FindClose(body).value..]);
    }
    forall j | 0 <= j <= k && MarkHere(body[j..])
      ensures FindClose(body).Some? && FindClose(body).value <= j
    {
      ClosingIsMark(body[j..]);
      CloseIsFirst(body, j);
    }
  }

  lemma SplitBodyAt(body: string, k: nat, rest: string)
    requires k <= |body| && FindClose(body) == Some(k) && rest == body[k..] && Closing(rest)
    ensures SplitBody(body) == Some(Parts(body[..k], SkipBreak(if DashedBreak(rest) then rest[4..] else rest[5..])))
  {
  }

  lemma SplitIsBody(body: string, block: string, script: string) returns (eol: string, end: string)
    requires SplitBody(body) == Some(Parts(block, script))
    ensures IsBody(body, block, eol, end, script)
  {
    var k := FindClose(body).value;
    CloseIsThere(body);
    SplitBodyAt(body, k, body[k..]);
    MarksAreClosings(body, k);
    eol, end := AfterMark(body[k..]);
    assert body == body[..k] + body[k..];
  }

  lemma BodyIsSplit(body: string, block: string, eol: string, end: string, script: string)
    requires IsBody(body, block, eol, end, script)
    ensures SplitBody(body) == Some(Parts(block, script))
  {
    var rest := Tail(eol, end, script);
    assert body[|block|..] == rest && body[..|block|] == block;
    TailIsClosing(eol, end, script);
    ClosingIsMark(rest);
    MarksAreClosings(body, |block|);
    SplitBodyAt(body, |block|, rest);
  }

  lemma OpeningIs(text: string, body: string)
    ensures AfterOpening(text) == Some(body) <==> exists open :: Opens(open) && text == open + body
  {
    if AfterOpening(text) == Some(body) {
      var open := if text[3] == '\n' then "---\n" else "---\r\n";
      assert Opens(open) && text == open + body;
    }
    if exists open :: Opens(open) && text == open + body {
      var open :| Opens(open) && text == open + body;
      assert text[|open|..] == body && text[..|open|] == open;
      assert forall i :: 0 <= i < |open| ==> text[i] == open[i];
    }
  }

  /** A text is split exactly as the pattern for it says. */
  lemma {:induction false} SplitIs(text: string, block: string, script: string)
    ensures Split(text) == Some(Parts(block, script)) <==> IsBlock(text, block, script)
  {
    if Split(text) == Some(Parts(block, script)) {
      var body := AfterOpening(text).value;
      OpeningIs(text, body);
      var open :| Opens(open) && text == open + body;
      var eol, end := SplitIsBody(body, block, script);
    }
    if IsBlock(text, block, script) {
      var open, body, eol, end :| Opens(open) && text == open + body && IsBody(body, block, eol, end, script);
      OpeningIs(text, body);
      BodyIsSplit(body, block, eol, end, script);
    }
  }

  // ---------------------------------------------------------------- one line

  /** The line has a colon, with this key before the first one and this value behind it. */
  ghost predicate Says(line: string, key: string, value: string) {
    exists i :: 0 <= i < |line| && line[i] == ':' && ':' !in line[..i] && Trim(line[..i]) == key && Trim(line[i+1..]) == value
  }

  lemma SaysThen(line: string, i: nat)
    requires i < |line| && line[i] == ':' && ':' !in line[..i]
    ensures HasColon(line) && KeyOf(line) == Trim(line[..i]) && ValueOf(line) == Trim(line[i+1..])
  {
    FindAt(line, ':', i);
  }

  lemma SaysIs(line: string, key: string, value: string)
    ensures Says(line, key, value) <==> HasColon(line) && KeyOf(line) == key && ValueOf(line) == value
    ensures HasColon(line) <==> ':' in line
  {
    if Says(line, key, value) {
      var i :| 0 <= i < |line| && line[i] == ':' && ':' !in line[..i] && Trim(line[..i]) == key && Trim(line[i+1..]) == value;
      SaysThen(line, i);
    }
    if HasColon(line) {
      SaysThen(line, Find(line, ':'));
    }
  }

  predicate NamesMode(value: string, mode: SizeMode) {
    match mode
    case PercentEquity => value == "percent_equity"
    case QuoteQty => value == "quote_qty"
    case FixedQty => value == "fixed_qty"
    case FixedFractional => value == "fixed_fractional"
    case Volatility => value == "volatility"
  }

  lemma ReadModeIs(value: string)
    ensures forall mode :: ReadMode(value) == Some(mode) <==> NamesMode(value, mode)
    ensures ReadMode(value) == None <==> forall mode :: !NamesMode(value, mode)
  {
    if ReadMode(value).Some? {
      assert NamesMode(value, ReadMode(value).value);
    } else {
      forall mode
        ensures !NamesMode(value, mode)
      {
        match mode
        case PercentEquity =>
        case QuoteQty =>
        case FixedQty =>
        case FixedFractional =>
        case Volatility =>
      }
    }
  }

  /** The key is one of the seven, and the value is one that its setting takes. */
  ghost predicate Sets(key: string, value: string) {
    || key == "symbol" || key == "timeframe" || key == "reverse_policy" || key == "strength_sizing"
    || (key == "size_mode" && exists mode :: NamesMode(value, mode))
    || ((key == "size_value" || key == "atr_multiplier") && Numbers.Read(value).Some?)
  }

  /** A line without colon that is not blank, or one with a value that sets nothing. */
  ghost predicate Survives(line: string) {
    || (':' !in line && Trim(line) != "")
    || exists key, value :: Says(line, key, value) && value != "" && !Sets(key, value)
  }

  lemma KeptSurvives(line: string)
    ensures Kept(line) <==> Survives(line)
  {
    if HasColon(line) {
      var key, value := KeyOf(line), ValueOf(line);
      SaysIs(line, key, value);
      ReadModeIs(value);
      assert Recognised(line) <==> value != "" && Sets(key, value);
      forall k, v | Says(line, k, v)
        ensures k == key && v == value
      {
        SaysIs(line, k, v);
      }
    } else {
      SaysIs(line, "", "");
      forall k, v
        ensures !Says(line, k, v)
      {
        SaysIs(line, k, v);
      }
    }
  }

  // ---------------------------------------------------------------- the lines kept

  lemma {:induction false} WherePicks(lines: seq<string>, keep: string -> bool) returns (at: seq<nat>)
    ensures Picks(lines, keep, at, Where(lines, keep))
  {
    at := [];
    if lines != [] {
      var n := |lines| - 1;
      at := WherePicks(lines[..n], keep);
      PickOneMore(lines[..n], keep, at, Where(lines[..n], keep), lines[n]);
      WhereAppend(lines[..n], [lines[n]], keep);
      assert lines[..n] + [lines[n]] == lines && [lines[n]][1..] == [];
      if keep(lines[n]) {
        at := at + [n];
      }
    }
  }

  /** The lines kept of a block are those that survive, each as often as it occurs and in order. */
  lemma {:induction false} KeptLinesAre(text: string, block: string, script: string) returns (at: seq<nat>)
    requires IsBlock(text, block, script)
    ensures var lines := SplitLines(block);
            && Climbing(at) && (forall i :: i in at <==> 0 <= i < |lines| && Survives(lines[i]))
            && At(lines, at, ExtraLines(Parse(text)))
    ensures Parse(text).extra == None <==> forall l :: l in SplitLines(block) ==> !Survives(l)
    ensures Parse(text).script == script
  {
    SplitIs(text, block, script);
    var lines := SplitLines(block);
    at := WherePicks(lines, Kept);
    forall i | 0 <= i < |lines|
      ensures Kept(lines[i]) <==> Survives(lines[i])
    {
      KeptSurvives(lines[i]);
    }
    if at != [] {
      assert at[0] in at && lines[at[0]] in lines;
    }
  }

  /** A text that is no block with a script is all script. */
  lemma {:induction false} NoBlock(text: string)
    requires forall block, script :: !IsBlock(text, block, script)
    ensures Parse(text) == File(NO_METADATA, text, None)
  {
    if Split(text).Some? {
      SplitIs(text, Split(text).value.frontmatter, Split(text).value.script);
    }
  }

  // ---------------------------------------------------------------- the settings

  /** The line gives the key a value that can be read. */
  ghost predicate Gives<T>(line: string, key: string, read: string -> Option<T>, value: string) {
    Says(line, key, value) && value != "" && read(value).Some?
  }

  /** No line from `p` on gives the key a value that can be read. */
  ghost predicate NoneGives<T>(lines: seq<string>, key: string, read: string -> Option<T>, p: nat) {
    forall q, value :: p <= q < |lines| ==> !Gives(lines[q], key, read, value)
  }

  /** The last line that gives the key a value that can be read decides; without one there is none. */
  ghost predicate LastDecides<T>(lines: seq<string>, key: string, read: string -> Option<T>, result: Option<T>) {
    match result
    case None => NoneGives(lines, key, read, 0)
    case Some(_) =>
      exists p: nat, value :: p < |lines| && Gives(lines[p], key, read, value) && read(value) == result
                              && NoneGives(lines, key, read, p + 1)
  }

  /** A reader for one key. */
  function ReadKey<T>(line: string, key: string, read: string -> Option<T>): Option<T> {
    match Keyed(line, key) case None => None case Some(value) => read(value)
  }

  lemma ReadKeyGives<T>(line: string, key: string, read: string -> Option<T>)
    ensures forall value :: Gives(line, key, read, value) ==> ReadKey(line, key, read) == read(value)
    ensures ReadKey(line, key, read).Some? ==> Keyed(line, key).Some? && Gives(line, key, read, Keyed(line, key).value)
  {
    forall value
      ensures Says(line, key, value) <==> HasColon(line) && KeyOf(line) == key && ValueOf(line) == value
    {
      SaysIs(line, key, value);
    }
  }

  lemma NoneGivesSnoc<T>(lines: seq<string>, line: string, key: string, read: string -> Option<T>, p: nat)
    requires NoneGives(lines, key, read, p) && ReadKey(line, key, read).None?
    ensures NoneGives(lines + [line], key, read, p)
  {
    ReadKeyGives(line, key, read);
    var all := lines + [line];
    assert forall q :: 0 <= q < |lines| ==> all[q] == lines[q];
  }

  lemma DecidesSnoc<T>(lines: seq<string>, line: string, key: string, read: string -> Option<T>, result: Option<T>)
    requires LastDecides(lines, key, read, result)
    ensures LastDecides(lines + [line], key, read, if ReadKey(line, key, read).Some? then ReadKey(line, key, read) else result)
  {
    var all := lines + [line];
    ReadKeyGives(line, key, read);
    if ReadKey(line, key, read).Some? {
      var value := Keyed(line, key).value;
      assert all[|lines|] == line && Gives(all[|lines|], key, read, value);
      assert NoneGives(all, key, read, |lines| + 1);
    } else if result.Some? {
      var p: nat, value :| p < |lines| && Gives(lines[p], key, read, value) && read(value) == result
                           && NoneGives(lines, key, read, p + 1);
      NoneGivesSnoc(lines, line, key, read, p + 1);
      assert all[p] == lines[p];
    } else {
      NoneGivesSnoc(lines, line, key, read, 0);
    }
  }

  lemma {:induction false} LastSomeDecides<T>(lines: seq<string>, key: string, read: string -> Option<T>, g: string -> Option<T>)
    requires forall line :: g(line) == ReadKey(line, key, read)
    ensures LastDecides(lines, key, read, LastSome(lines, g))
  {
    if lines != [] {
      var init, line := lines[..|lines|-1], lines[|lines|-1];
      assert lines == init + [line];
      LastSomeDecides(init, key, read, g);
      LastSomeSnoc(init, line, g);
      DecidesSnoc(init, line, key, read, LastSome(init, g));
    }
  }

  function AsText(): string -> Option<string> {
    (value: string) => Some(value)
  }

  function AsFlag(): string -> Option<bool> {
    (value: string) => Some(value == "true")
  }

  /** Each of the seven settings is what the last line for it says that says something it can be. */
  lemma {:induction false} SettingsAre(text: string, block: string, script: string)
    requires IsBlock(text, block, script)
    ensures var lines, m := SplitLines(block), Parse(text).metadata;
            && LastDecides(lines, "symbol", AsText(), m.symbol)
            && LastDecides(lines, "timeframe", AsText(), m.timeframe)
            && LastDecides(lines, "size_mode", ReadMode, m.sizeMode)
            && LastDecides(lines, "size_value", Numbers.Read, m.sizeValue)
            && LastDecides(lines, "atr_multiplier", Numbers.Read, m.atrMultiplier)
            && LastDecides(lines, "reverse_policy", AsText(), m.reversePolicy)
            && LastDecides(lines, "strength_sizing", AsFlag(), m.strengthSizing)
  {
    SplitIs(text, block, script);
    var lines := SplitLines(block);
    LastSomeDecides(lines, "symbol", AsText(), SymbolIn);
    LastSomeDecides(lines, "timeframe", AsText(), TimeframeIn);
    LastSomeDecides(lines, "size_mode", ReadMode, ModeIn);
    LastSomeDecides(lines, "size_value", Numbers.Read, SizeIn);
    LastSomeDecides(lines, "atr_multiplier", Numbers.Read, AtrIn);
    LastSomeDecides(lines, "reverse_policy", AsText(), ReverseIn);
    LastSomeDecides(lines, "strength_sizing", AsFlag(), StrengthIn);
  }

  // ---------------------------------------------------------------- what is written

  /** A line for a setting, or none. */
  ghost predicate WrittenAs(key: string, value: Option<string>, lines: seq<string>) {
    match value case None => lines == [] case Some(v) => lines == [key + (": " + v)]
  }

  lemma PrintedAs(key: string, value: Option<string>)
    ensures WrittenAs(key, value, PrintedLine(key, value))
  {
    if value.Some? {
      assert KeyLine(key, value.value) == key + (": " + value.value);
    }
  }

  /** The settings are written one per line in this order, those that are absent left out; an empty text counts as
      absent. */
  lemma WrittenSettings(m: Metadata) returns (parts: seq<seq<string>>)
    ensures |parts| == 7
            && MetaLines(m) == parts[0] + parts[1] + parts[2] + parts[3] + parts[4] + parts[5] + parts[6]
    ensures WrittenAs("symbol", if m.symbol == Some("") then None else m.symbol, parts[0])
    ensures WrittenAs("timeframe", if m.timeframe == Some("") then None else m.timeframe, parts[1])
    ensures m.sizeMode.None? ==> parts[2] == []
    ensures m.sizeMode.Some? ==> exists name :: NamesMode(name, m.sizeMode.value) && WrittenAs("size_mode", Some(name), parts[2])
    ensures WrittenAs("size_value", ShowNumber(m.sizeValue), parts[3])
    ensures WrittenAs("atr_multiplier", ShowNumber(m.atrMultiplier), parts[4])
    ensures WrittenAs("reverse_policy", if m.reversePolicy == Some("") then None else m.reversePolicy, parts[5])
    ensures m.strengthSizing.None? ==> parts[6] == []
    ensures m.strengthSizing.Some? ==> WrittenAs("strength_sizing", Some(if m.strengthSizing.value then "true" else "false"), parts[6])
  {
    parts := [PrintedLine("symbol", Truthy(m.symbol)), PrintedLine("timeframe", Truthy(m.timeframe)),
              PrintedLine("size_mode", ShowMode(m.sizeMode)), PrintedLine("size_value", ShowNumber(m.sizeValue)),
              PrintedLine("atr_multiplier", ShowNumber(m.atrMultiplier)),
              PrintedLine("reverse_policy", Truthy(m.reversePolicy)),
              PrintedLine("strength_sizing", ShowBool(m.strengthSizing))];
    PrintedAs("symbol", Truthy(m.symbol));
    PrintedAs("timeframe", Truthy(m.timeframe));
    PrintedAs("size_mode", ShowMode(m.sizeMode));
    PrintedAs("size_value", ShowNumber(m.sizeValue));
    PrintedAs("atr_multiplier", ShowNumber(m.atrMultiplier));
    PrintedAs("reverse_policy", Truthy(m.reversePolicy));
    PrintedAs("strength_sizing", ShowBool(m.strengthSizing));
    if m.sizeMode.Some? {
      assert NamesMode(ModeName(m.sizeMode.value), m.sizeMode.value);
    }
  }
}
