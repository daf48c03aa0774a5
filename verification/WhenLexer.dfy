// What the tokenizer of `when` conditions reads, said without its order of tests.
module WhenLexer {
  import opened Text
  import opened When
  import opened WhenGrammar

  ghost predicate AllSpace(s: string) {
    forall i :: 0 <= i < |s| ==> IsSpace(s[i])
  }

  function Spelling(t: Token): string {
    match t
    case Identifier(value) => value
    case NotToken => "!"
    case AndToken => "&&"
    case OrToken => "||"
    case LParen => "("
    case RParen => ")"
  }

  predicate NameChar(c: char) {
    'a' <= c <= 'z' || 'A' <= c <= 'Z' || '0' <= c <= '9' || c == '_' || c == '.' || c == '-'
  }

  // Names begin with a letter or an underscore.
  predicate IsName(s: string) {
    s != "" && (forall i :: 0 <= i < |s| ==> NameChar(s[i])) && !('0' <= s[0] <= '9') && s[0] != '.' && s[0] != '-'
  }

  // The rest of a text behind a token: a name does not go on there.
  predicate Ends(t: Token, rest: string) {
    t.Identifier? ==> IsName(t.value) && (rest == "" || !NameChar(rest[0]))
  }

  // The text consists of the tokens' spellings, with white space anywhere between them.
  ghost predicate Spells(s: string, ts: seq<Token>)
    decreases |ts|
  {
    if ts == [] then AllSpace(s)
    else exists gap, rest ::
      && s == gap + Spelling(ts[0]) + rest && AllSpace(gap) && Ends(ts[0], rest) && Spells(rest, ts[1..])
  }

  lemma {:induction false} SpaceIsSkipped(gap: string, s: string)
    requires AllSpace(gap)
    ensures Tokenize(gap + s) == Tokenize(s)
  {
    if gap == "" {
      assert gap + s == s;
    } else {
      assert (gap + s)[1..] == gap[1..] + s;
      SpaceIsSkipped(gap[1..], s);
    }
  }

  lemma {:induction false} RunOfName(name: string, rest: string)
    requires forall i :: 0 <= i < |name| ==> NameChar(name[i])
    requires rest == "" || !NameChar(rest[0])
    ensures IdentifierRun(name + rest) == |name|
  {
    if name == "" {
      assert name + rest == rest;
    } else {
      assert (name + rest)[1..] == name[1..] + rest;
      RunOfName(name[1..], rest);
    }
  }

  lemma TokenIsRead(t: Token, rest: string)
    requires Ends(t, rest)
    ensures Tokenize(Spelling(t) + rest) == Prepend([t], Tokenize(rest))
  {
    var s := Spelling(t) + rest;
    assert s[|Spelling(t)|..] == rest;
    if t.Identifier? {
      NameIsRead(t.value, rest);
    } else {
      assert s[0] == Spelling(t)[0];
      assert t.AndToken? || t.OrToken? ==> s[..2] == Spelling(t);
    }
  }

  lemma NameIsRead(name: string, rest: string)
    requires IsName(name) && (rest == "" || !NameChar(rest[0]))
    ensures Tokenize(name + rest) == Prepend([Identifier(name)], Tokenize(rest))
  {
    var s := name + rest;
    assert s[0] == name[0];
    RunOfName(name, rest);
    assert s[..|name|] == name && s[|name|..] == rest;
  }

  lemma {:induction false} SpelledIsTokenized(s: string, ts: seq<Token>)
    requires Spells(s, ts)
    ensures Tokenize(s) == Some(ts)
    decreases |ts|
  {
    if ts == [] {
      SpaceIsSkipped(s, "");
      assert s + "" == s;
    } else {
      var gap, rest :|
        s == gap + Spelling(ts[0]) + rest && AllSpace(gap) && Ends(ts[0], rest) && Spells(rest, ts[1..]);
      assert s == gap + (Spelling(ts[0]) + rest);
      SpaceIsSkipped(gap, Spelling(ts[0]) + rest);
      TokenIsRead(ts[0], rest);
      SpelledIsTokenized(rest, ts[1..]);
      assert [ts[0]] + ts[1..] == ts;
    }
  }

  // The token stands at the beginning of the text, and the tokenizer goes on behind it.
  ghost predicate Begins(s: string, t: Token) {
    var n := |Spelling(t)|;
    && 0 < n <= |s| && s[..n] == Spelling(t) && Ends(t, s[n..])
    && Tokenize(s) == Prepend([t], Tokenize(s[n..]))
  }

  // What one round of the tokenizer takes off.
  lemma FirstIsSpelled(s: string)
    requires s != "" && !IsSpace(s[0]) && Tokenize(s).Some?
    ensures exists t :: Begins(s, t)
  {
    if "&&" <= s {
      assert Begins(s, AndToken);
    } else if "||" <= s {
      assert Begins(s, OrToken);
    } else if s[0] == '!' {
      assert Begins(s, NotToken);
    } else if s[0] == '(' {
      assert Begins(s, LParen);
    } else if s[0] == ')' {
      assert Begins(s, RParen);
    } else {
      FirstIsName(s);
    }
  }

  lemma FirstIsName(s: string)
    requires s != "" && IsIdentifierStart(s[0]) && Tokenize(s).Some?
    requires !IsSpace(s[0]) && s[0] !in "&|!()"
    ensures exists t :: Begins(s, t)
  {
    var n := IdentifierRun(s);
    assert n > 0 && IsName(s[..n]);
    assert Begins(s, Identifier(s[..n]));
  }

  lemma {:induction false} TokenizedIsSpelled(s: string)
    requires Tokenize(s).Some?
    ensures Spells(s, Tokenize(s).value)
    decreases |s|
  {
    if s == "" {
    } else if IsSpace(s[0]) {
      TokenizedIsSpelled(s[1..]);
      SpaceInFront(s, Tokenize(s).value);
    } else {
      FirstIsSpelled(s);
      var t :| Begins(s, t);
      TokenizedIsSpelled(s[|Spelling(t)|..]);
      TokenInFront(s, t, Tokenize(s[|Spelling(t)|..]).value);
    }
  }

  lemma TokenInFront(s: string, t: Token, ts: seq<Token>)
    requires Begins(s, t) && Spells(s[|Spelling(t)|..], ts)
    ensures Spells(s, [t] + ts)
  {
    var rest := s[|Spelling(t)|..];
    assert ([t] + ts)[1..] == ts;
    assert s == "" + Spelling(t) + rest && AllSpace("");
  }

  lemma SpaceInFront(s: string, ts: seq<Token>)
    requires s != "" && IsSpace(s[0]) && Spells(s[1..], ts)
    ensures Spells(s, ts)
  {
    if ts != [] {
      var gap, rest :|
        s[1..] == gap + Spelling(ts[0]) + rest && AllSpace(gap) && Ends(ts[0], rest) && Spells(rest, ts[1..]);
      assert s == ([s[0]] + gap) + Spelling(ts[0]) + rest && AllSpace([s[0]] + gap);
    }
  }

  // The tokenizer reads exactly the texts that spell tokens with white space between them, and then those.
  lemma TokenizesIffSpells(s: string, ts: seq<Token>)
    ensures Tokenize(s) == Some(ts) <==> Spells(s, ts)
  {
    if Tokenize(s).Some? {
      TokenizedIsSpelled(s);
    }
    if Spells(s, ts) {
      SpelledIsTokenized(s, ts);
    }
  }

  // From text to tree: a condition is read exactly if it spells tokens that derive within the bounds, and
  // then as what they derive.
  lemma ConditionIsReadIff(text: string, node: Node)
    ensures ParseWhen(text) == Some(node) <==> exists ts, o :: Spells(text, ts) && Derives(o, ts, node)
  {
    forall ts ensures Tokenize(text) == Some(ts) <==> Spells(text, ts) {
      TokenizesIffSpells(text, ts);
    }
    forall ts ensures ParseTokens(ts) == Some(node) <==> exists o :: Derives(o, ts, node) {
      ParsesIffDerives(ts, node);
    }
    assert ParseTokens([]) == None;
  }
}
