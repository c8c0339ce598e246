/** Subjects as sequences of tokens, and how the broker matches them. */
module WsTokens {

  function Tokens(subject: string): (tokens: seq<string>)
    ensures tokens != []
  {
    if subject == "" then [""]
    else
      var rest := Tokens(subject[1..]);
      if subject[0] == '.' then [""] + rest else [[subject[0]] + rest[0]] + rest[1..]
  }

  function Dotted(tokens: seq<string>): string
    requires tokens != []
  {
    if |tokens| == 1 then tokens[0] else tokens[0] + "." + Dotted(tokens[1..])
  }

  /** How NATS matches a subject against a filter: `*` stands for one token, a final `>` for one or more. */
  predicate Accepts(filter: seq<string>, subject: seq<string>) {
    if filter == [] then subject == []
    else if filter == [">"] then subject != []
    else subject != [] && (filter[0] == "*" || filter[0] == subject[0]) && Accepts(filter[1..], subject[1..])
  }

  predicate Literal(tokens: seq<string>) {
    "*" !in tokens && ">" !in tokens
  }

  lemma {:induction false} OneToken(token: string)
    requires '.' !in token
    ensures Tokens(token) == [token]
  {
    if token != "" {
      OneToken(token[1..]);
      assert [token[0]] + token[1..] == token;
    }
  }

  lemma {:induction false} TokensAppend(a: string, b: string, s: string)
    requires s == a + "." + b
    ensures Tokens(s) == Tokens(a) + Tokens(b)
    decreases |a|
  {
    if a == "" {
      assert s[0] == '.' && s[1..] == b;
    } else {
      assert s[0] == a[0] && s[1..] == a[1..] + "." + b;
      TokensAppend(a[1..], b, s[1..]);
    }
  }

  lemma DottedGrows(c: char, tokens: seq<string>)
    requires tokens != []
    ensures Dotted([[c] + tokens[0]] + tokens[1..]) == [c] + Dotted(tokens)
  {
    var more := [[c] + tokens[0]] + tokens[1..];
    assert more[1..] == tokens[1..];
  }

  lemma {:induction false} DottedTokens(s: string)
    ensures Dotted(Tokens(s)) == s
  {
    if s != "" {
      var rest := Tokens(s[1..]);
      DottedTokens(s[1..]);
      assert s == [s[0]] + s[1..];
      if s[0] == '.' {
        assert ([""] + rest)[1..] == rest;
      } else {
        DottedGrows(s[0], rest);
      }
    }
  }

  lemma {:induction false} DottedAppend(a: seq<string>, b: seq<string>)
    requires a != [] && b != []
    ensures Dotted(a + b) == Dotted(a) + "." + Dotted(b)
  {
    assert (a + b)[1..] == a[1..] + b;
    if |a| > 1 {
      DottedAppend(a[1..], b);
      assert a[0] + "." + (Dotted(a[1..]) + "." + Dotted(b)) == (a[0] + "." + Dotted(a[1..])) + "." + Dotted(b);
    } else {
      assert a[1..] + b == b;
    }
  }

  lemma {:induction false} AcceptsLiteral(filter: seq<string>, subject: seq<string>)
    requires Literal(filter)
    ensures Accepts(filter, subject) <==> filter == subject
  {
    if filter != [] {
      assert filter == [filter[0]] + filter[1..];
      assert filter[0] in filter;
      if subject != [] {
        AcceptsLiteral(filter[1..], subject[1..]);
        assert subject == [subject[0]] + subject[1..];
      }
    }
  }

  lemma {:induction false} AcceptsDeep(filter: seq<string>, subject: seq<string>)
    requires Literal(filter)
    ensures Accepts(filter + [">"], subject) <==> filter < subject
  {
    if filter == [] {
      assert filter + [">"] == [">"];
    } else {
      assert (filter + [">"])[1..] == filter[1..] + [">"] && |filter + [">"]| > 1;
      assert filter[0] in filter && (filter + [">"])[0] == filter[0];
      if subject != [] {
        AcceptsDeep(filter[1..], subject[1..]);
        assert subject == [subject[0]] + subject[1..] && filter == [filter[0]] + filter[1..];
      }
    }
  }

  lemma TokensTell(s: string, t: string)
    requires Tokens(s) == Tokens(t)
    ensures s == t
  {
    DottedTokens(s);
    DottedTokens(t);
  }

  lemma LastNotEmpty(tokens: seq<string>)
    requires tokens != [] && tokens[0] != ""
    ensures Dotted(tokens) != ""
  {
  }

  lemma Longer(head: string, tail: string, subject: string)
    requires subject == head + "." + tail && tail != ""
    ensures head + "." < subject
  {
  }

  lemma GoesOn(head: string, subject: string)
    requires "" !in Tokens(subject) && Tokens(head) < Tokens(subject)
    ensures head + "." < subject
  {
    var h, s := Tokens(head), Tokens(subject);
    var rest := s[|h|..];
    DottedTokens(head);
    DottedTokens(subject);
    assert s == h + rest && rest[0] == s[|h|];
    DottedAppend(h, rest);
    LastNotEmpty(rest);
    Longer(head, Dotted(rest), subject);
  }

  lemma GoesOnInTokens(head: string, subject: string)
    requires head + "." < subject
    ensures Tokens(head) < Tokens(subject)
  {
    var rest := subject[|head| + 1..];
    assert subject == head + "." + rest;
    TokensAppend(head, rest, subject);
    DottedTokens(rest);
  }

  /** One subject goes on where the other ends, token by token, exactly when it does so letter by letter. */
  lemma TokensGoOn(head: string, subject: string)
    requires "" !in Tokens(subject)
    ensures Tokens(head) < Tokens(subject) <==> head + "." < subject
  {
    if Tokens(head) < Tokens(subject) {
      GoesOn(head, subject);
    }
    if head + "." < subject {
      GoesOnInTokens(head, subject);
    }
  }
}
