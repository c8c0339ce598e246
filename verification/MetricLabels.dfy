/** Label strings read back as a Prometheus server reads them: the text exposition format's pairs of a name and a quoted,
    escaped value. */
module MetricLabels {
  import opened Options
  import opened Metrics
  import Decimal
  import Text

  /** What a character after a backslash stands for. */
  function Unescaped(c: char): Option<char> {
    if c == 'n' then Some('\n') else if c == '\\' || c == '"' then Some(c) else None
  }

  /** A value up to its closing quote, and what follows. */
  function Unquote(s: string): (r: Option<(string, string)>)
    ensures r.Some? ==> |r.value.1| < |s|
  {
    if s == [] then None
    else if s[0] == '"' then Some(([], s[1..]))
    else
      var escaped := s[0] == '\\';
      if escaped && (|s| < 2 || Unescaped(s[1]).None?) then None
      else
        match Unquote(s[if escaped then 2 else 1..])
        case None => None
        case Some((value, rest)) => Some(([if escaped then Unescaped(s[1]).value else s[0]] + value, rest))
  }

  /** Pairs of names and values, separated by commas. */
  function ReadLabels(s: string): Option<seq<string>>
    decreases |s|
  {
    var i := Text.Find(s, '=');
    if i + 1 >= |s| || s[i + 1] != '"' then None
    else
      match Unquote(s[i + 2..])
      case None => None
      case Some((value, rest)) =>
        if rest == [] then Some([s[..i], value])
        else if rest[0] != ',' then None
        else
          match ReadLabels(rest[1..])
          case None => None
          case Some(more) => Some([s[..i], value] + more)
  }

  lemma UnquoteStep(c: char, x: string)
    ensures Unquote(EscapeChar(c) + x)
         == match Unquote(x) case None => None case Some((value, rest)) => Some(([c] + value, rest))
  {
    var s := EscapeChar(c) + x;
    if |EscapeChar(c)| == 2 {
      assert s[0] == '\\' && s[1] == EscapeChar(c)[1] && s[2..] == x;
    } else {
      assert s[0] == c && s[1..] == x;
    }
  }

  lemma {:induction false} UnquoteEscaped(v: string, x: string)
    ensures Unquote(Escape(v) + ['"'] + x) == Some((v, x))
  {
    if v == [] {
      assert Escape(v) + ['"'] + x == ['"'] + x;
    } else {
      UnquoteEscaped(v[1..], x);
      EscapeStep(v, x);
      UnquoteStep(v[0], Escape(v[1..]) + ['"'] + x);
      assert [v[0]] + v[1..] == v;
    }
  }

  lemma PairParts(name: string, v: string, x: string, s: string)
    requires '=' !in name && s == Pair(name, v) + x
    ensures Text.Find(s, '=') == |name| && |name| + 1 < |s| && s[|name| + 1] == '"' && s[..|name|] == name
    ensures Unquote(s[|name| + 2..]) == Some((v, x))
  {
    PairSplit(name, v, x);
    var tail := Escape(v) + ['"'] + x;
    assert s == name + ['=', '"'] + tail;
    assert s[|name|] == '=' && s[|name| + 1] == '"' && s[..|name|] == name && s[|name| + 2..] == tail;
    Text.FindAt(s, '=', |name|);
    UnquoteEscaped(v, x);
  }

  ghost predicate PlainNames(kv: seq<string>) {
    |kv| % 2 == 0 && forall i | 0 <= i < |kv| && i % 2 == 0 :: '=' !in kv[i]
  }

  lemma PlainNamesRest(kv: seq<string>)
    requires PlainNames(kv) && |kv| >= 2
    ensures PlainNames(kv[2..]) && '=' !in kv[0]
  {
    assert '=' !in kv[0];
    forall i | 0 <= i < |kv[2..]| && i % 2 == 0
      ensures '=' !in kv[2..][i]
    {
      assert '=' !in kv[i + 2];
    }
  }

  lemma ReadLast(s: string, name: string, value: string)
    requires '=' !in name && s == Pair(name, value)
    ensures ReadLabels(s) == Some([name, value])
  {
    assert s == Pair(name, value) + [];
    PairParts(name, value, [], s);
  }

  lemma ReadMore(s: string, name: string, value: string, tail: string, more: seq<string>)
    requires '=' !in name && s == Pair(name, value) + ([','] + tail) && ReadLabels(tail) == Some(more)
    ensures ReadLabels(s) == Some([name, value] + more)
  {
    PairParts(name, value, [','] + tail, s);
    assert ([','] + tail)[1..] == tail;
  }

  lemma LabelsStep(kv: seq<string>, rest: seq<string>)
    requires |kv| >= 2 && rest == kv[2..] && |kv| % 2 == 0
    ensures Labels(kv) == if rest == [] then Pair(kv[0], kv[1]) else Pair(kv[0], kv[1]) + ([','] + Labels(rest))
  {
    assert Labels(kv) == Pair(kv[0], kv[1]) + More(rest);
    assert Pair(kv[0], kv[1]) + [] == Pair(kv[0], kv[1]);
    assert rest != [] ==> |rest| >= 2;
  }

  /** A label string is read back as the names and values it was made of, whatever characters the values have. */
  lemma {:induction false} LabelsReadBack(kv: seq<string>)
    requires PlainNames(kv) && kv != []
    ensures ReadLabels(Labels(kv)) == Some(kv)
    decreases |kv|
  {
    var rest := kv[2..];
    PlainNamesRest(kv);
    LabelsStep(kv, rest);
    assert [kv[0], kv[1]] + rest == kv;
    if rest == [] {
      assert [kv[0], kv[1]] == kv;
      ReadLast(Labels(kv), kv[0], kv[1]);
    } else {
      LabelsReadBack(rest);
      ReadMore(Labels(kv), kv[0], kv[1], Labels(rest), rest);
    }
  }

  /** The keys of the two tables, as the server sees them. */
  lemma KeysReadBack(verb: string, route: string, status: int)
    ensures ReadLabels(RequestKey(verb, route, status))
         == Some(["method", verb, "route", route, "status", Decimal.Print(status)])
    ensures ReadLabels(RouteKey(route)) == Some(["route", route])
  {
    LabelsReadBack(["method", verb, "route", route, "status", Decimal.Print(status)]);
    LabelsReadBack(["route", route]);
  }
}
