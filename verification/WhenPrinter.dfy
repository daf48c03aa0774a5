// Printing a `when` tree and reading it back.
module WhenPrinter {
  import opened Text
  import opened When
  import opened WhenGrammar

  function Encode(node: Node): string {
    match node
    case Name(name) => name
    case Not(n) => "!(" + Encode(n) + ")"
    case And(left, right) => "(" + Encode(left) + " && " + Encode(right) + ")"
    case Or(left, right) => "(" + Encode(left) + " || " + Encode(right) + ")"
  }

  function Height(node: Node): nat {
    match node
    case Name(_) => 0
    case Not(n) => 1 + Height(n)
    case And(left, right) => 1 + if Height(left) < Height(right) then Height(right) else Height(left)
    case Or(left, right) => 1 + if Height(left) < Height(right) then Height(right) else Height(left)
  }

  predicate IsIdentifier(name: string) {
    name != "" && IsIdentifierStart(name[0]) && forall c :: c in name ==> IsIdentifierPart(c)
  }

  predicate Legal(node: Node) {
    match node
    case Name(name) => IsIdentifier(name)
    case Not(n) => Legal(n)
    case And(left, right) => Legal(left) && Legal(right)
    case Or(left, right) => Legal(left) && Legal(right)
  }

  // The derivation the printer spells: one pair of parentheses per interior node.
  function PrintedUnary(node: Node): UnaryExpr {
    match node
    case Name(name) => Unary(0, Ident(name))
    case Not(n) => Unary(1, Paren(Alone(PrintedUnary(n))))
    case And(left, right) => Unary(0, Paren(Pair(PrintedUnary(left), PrintedUnary(right))))
    case Or(left, right) => Unary(0, Paren(Either(PrintedUnary(left), PrintedUnary(right))))
  }

  function Alone(u: UnaryExpr): OrExpr {
    OrOne(AndOne(u))
  }

  lemma AloneIsItself(u: UnaryExpr, depth: nat)
    ensures OrYield(Alone(u)) == UnaryYield(u) && OrAst(Alone(u)) == UnaryAst(u)
    ensures OrFits(Alone(u), depth) == UnaryFits(u, depth)
  {
    var a := AndOne(u);
    assert AndYield(a) == UnaryYield(u) && AndAst(a) == UnaryAst(u) && AndFits(a, depth) == UnaryFits(u, depth);
  }

  function Pair(l: UnaryExpr, r: UnaryExpr): OrExpr {
    OrOne(AndMore(AndOne(l), r))
  }

  lemma PairIsBoth(l: UnaryExpr, r: UnaryExpr, depth: nat)
    ensures OrYield(Pair(l, r)) == UnaryYield(l) + [AndToken] + UnaryYield(r)
    ensures OrAst(Pair(l, r)) == And(UnaryAst(l), UnaryAst(r))
    ensures OrFits(Pair(l, r), depth) == (UnaryFits(l, depth) && UnaryFits(r, depth))
  {
    AloneIsItself(l, depth);
    var a := AndMore(AndOne(l), r);
    assert AndFits(a, depth) == (UnaryFits(l, depth) && UnaryFits(r, depth));
  }

  function Either(l: UnaryExpr, r: UnaryExpr): OrExpr {
    OrMore(Alone(l), AndOne(r))
  }

  lemma EitherIsBoth(l: UnaryExpr, r: UnaryExpr, depth: nat)
    ensures OrYield(Either(l, r)) == UnaryYield(l) + [OrToken] + UnaryYield(r)
    ensures OrAst(Either(l, r)) == Or(UnaryAst(l), UnaryAst(r))
    ensures OrFits(Either(l, r), depth) == (UnaryFits(l, depth) && UnaryFits(r, depth))
  {
    AloneIsItself(l, depth);
    var a := AndOne(r);
    assert AndYield(a) == UnaryYield(r) && AndAst(a) == UnaryAst(r) && AndFits(a, depth) == UnaryFits(r, depth);
  }

  lemma {:induction false} PrintedDenotes(node: Node)
    ensures UnaryAst(PrintedUnary(node)) == node
  {
    match node
    case Name(_) =>
    case Not(n) =>
      PrintedDenotes(n);
      AloneIsItself(PrintedUnary(n), 0);
      assert Negate(n, 1) == Negate(Not(n), 0);
    case And(left, right) =>
      PrintedDenotes(left);
      PrintedDenotes(right);
      PairIsBoth(PrintedUnary(left), PrintedUnary(right), 0);
    case Or(left, right) =>
      PrintedDenotes(left);
      PrintedDenotes(right);
      EitherIsBoth(PrintedUnary(left), PrintedUnary(right), 0);
  }

  lemma {:induction false} PrintedFits(node: Node, depth: nat)
    ensures UnaryFits(PrintedUnary(node), depth) <==> depth + Height(node) <= MAX_WHEN_EXPRESSION_DEPTH
  {
    match node
    case Name(_) =>
    case Not(n) =>
      PrintedFits(n, depth + 1);
      AloneIsItself(PrintedUnary(n), depth + 1);
    case And(left, right) =>
      PrintedFits(left, depth + 1);
      PrintedFits(right, depth + 1);
      PairIsBoth(PrintedUnary(left), PrintedUnary(right), depth + 1);
    case Or(left, right) =>
      PrintedFits(left, depth + 1);
      PrintedFits(right, depth + 1);
      EitherIsBoth(PrintedUnary(left), PrintedUnary(right), depth + 1);
  }

  // ---- The tokenizer reads the printed text as the tokens of that derivation ----

  lemma {:induction false} WholeRun(name: string, rest: string)
    requires forall c :: c in name ==> IsIdentifierPart(c)
    requires rest == "" || !IsIdentifierPart(rest[0])
    ensures IdentifierRun(name + rest) == |name|
  {
    if name != "" {
      assert (name + rest)[1..] == name[1..] + rest;
      assert name[0] in name;
      WholeRun(name[1..], rest);
    } else {
      assert name + rest == rest;
    }
  }

  lemma TokenizeName(name: string, rest: string)
    requires IsIdentifier(name)
    requires rest == "" || !IsIdentifierPart(rest[0])
    ensures Tokenize(name + rest) == Prepend([Identifier(name)], Tokenize(rest))
  {
    WholeRun(name, rest);
    var s := name + rest;
    assert s[0] == name[0];
    assert s[..|name|] == name && s[|name|..] == rest;
  }

  lemma TokenizeSymbol(s: string)
    requires s != "" && s[0] in "!()"
    ensures var token := if s[0] == '!' then NotToken else if s[0] == '(' then LParen else RParen;
            Tokenize(s) == Prepend([token], Tokenize(s[1..]))
  {
  }

  lemma TokenizeDoubled(s: string)
    requires "&&" <= s || "||" <= s
    ensures Tokenize(s) == Prepend([if "&&" <= s then AndToken else OrToken], Tokenize(s[2..]))
  {
  }

  lemma TokenizeSpace(s: string)
    requires s != "" && IsSpace(s[0])
    ensures Tokenize(s) == Tokenize(s[1..])
  {
  }

  lemma TokenizeOperator(op: string, rest: string)
    requires op == " && " || op == " || "
    ensures Tokenize(op + rest) == Prepend([if op == " && " then AndToken else OrToken], Tokenize(rest))
  {
    var s := op + rest;
    var t := op[1..] + rest;
    var u := [' '] + rest;
    assert s[1..] == t && t[2..] == u && u[1..] == rest;
    TokenizeSpace(s);
    TokenizeDoubled(t);
    TokenizeSpace(u);
  }

  // The tokens of the printed text.
  function PrintedTokens(node: Node): seq<Token> {
    match node
    case Name(name) => [Identifier(name)]
    case Not(n) => [NotToken] + ([LParen] + (PrintedTokens(n) + [RParen]))
    case And(l, r) => [LParen] + (PrintedTokens(l) + ([AndToken] + (PrintedTokens(r) + [RParen])))
    case Or(l, r) => [LParen] + (PrintedTokens(l) + ([OrToken] + (PrintedTokens(r) + [RParen])))
  }

  lemma ParenYield(nots: nat, o: OrExpr)
    ensures UnaryYield(Unary(nots, Paren(o))) == seq(nots, _ => NotToken) + ([LParen] + (OrYield(o) + [RParen]))
  {
    assert PrimaryYield(Paren(o)) == [LParen] + (OrYield(o) + [RParen]);
  }

  lemma {:induction false} PrintedYield(node: Node)
    ensures UnaryYield(PrintedUnary(node)) == PrintedTokens(node)
  {
    match node
    case Name(_) =>
    case Not(n) =>
      PrintedYield(n);
      NotYield(PrintedUnary(n));
    case And(l, r) =>
      PrintedYield(l);
      PrintedYield(r);
      PairYield(PrintedUnary(l), PrintedUnary(r));
    case Or(l, r) =>
      PrintedYield(l);
      PrintedYield(r);
      EitherYield(PrintedUnary(l), PrintedUnary(r));
  }

  lemma NotYield(u: UnaryExpr)
    ensures UnaryYield(Unary(1, Paren(Alone(u)))) == [NotToken] + ([LParen] + (UnaryYield(u) + [RParen]))
  {
    AloneIsItself(u, 0);
    ParenYield(1, Alone(u));
  }

  lemma PairYield(l: UnaryExpr, r: UnaryExpr)
    ensures UnaryYield(Unary(0, Paren(Pair(l, r))))
         == [LParen] + (UnaryYield(l) + ([AndToken] + (UnaryYield(r) + [RParen])))
  {
    PairIsBoth(l, r, 0);
    ParenYield(0, Pair(l, r));
  }

  lemma EitherYield(l: UnaryExpr, r: UnaryExpr)
    ensures UnaryYield(Unary(0, Paren(Either(l, r))))
         == [LParen] + (UnaryYield(l) + ([OrToken] + (UnaryYield(r) + [RParen])))
  {
    EitherIsBoth(l, r, 0);
    ParenYield(0, Either(l, r));
  }

  lemma {:induction false} TokenizePrinted(node: Node, rest: string)
    requires Legal(node)
    requires rest == "" || !IsIdentifierPart(rest[0])
    ensures Tokenize(Encode(node) + rest) == Prepend(PrintedTokens(node), Tokenize(rest))
    decreases node, 1
  {
    match node
    case Name(name) => TokenizeName(name, rest);
    case Not(n) => TokenizeNegation(node, n, rest);
    case And(left, right) => TokenizeBinary(node, left, right, " && ", rest);
    case Or(left, right) => TokenizeBinary(node, left, right, " || ", rest);
  }

  lemma {:induction false} TokenizeNegation(node: Node, n: Node, rest: string)
    requires n < node && Legal(n)
    ensures Tokenize("!(" + Encode(n) + ")" + rest)
         == Prepend([NotToken] + ([LParen] + (PrintedTokens(n) + [RParen])), Tokenize(rest))
    decreases node, 0
  {
    var inner := PrintedTokens(n);
    var close := [')'] + rest;
    var s := "!(" + Encode(n) + ")" + rest;
    var t := ['('] + (Encode(n) + close);
    assert s[1..] == t;
    assert t[1..] == Encode(n) + close;
    assert close[1..] == rest;
    TokenizeSymbol(s);
    TokenizeSymbol(t);
    TokenizePrinted(n, close);
    TokenizeSymbol(close);
    PrependTwice(inner, [RParen], Tokenize(rest));
    PrependTwice([LParen], inner + [RParen], Tokenize(rest));
    PrependTwice([NotToken], [LParen] + (inner + [RParen]), Tokenize(rest));
  }

  lemma {:induction false} TokenizeBinary(node: Node, left: Node, right: Node, op: string, rest: string)
    requires left < node && right < node && Legal(left) && Legal(right)
    requires op == " && " || op == " || "
    ensures var o := if op == " && " then AndToken else OrToken;
            Tokenize("(" + Encode(left) + op + Encode(right) + ")" + rest)
            == Prepend([LParen] + (PrintedTokens(left) + ([o] + (PrintedTokens(right) + [RParen]))), Tokenize(rest))
    decreases node, 0
  {
    var l, r := PrintedTokens(left), PrintedTokens(right);
    var o := [if op == " && " then AndToken else OrToken];
    var close := [')'] + rest;
    var tail := Encode(right) + close;
    var s := "(" + Encode(left) + op + Encode(right) + ")" + rest;
    assert s[1..] == Encode(left) + (op + tail);
    assert close[1..] == rest;
    TokenizeSymbol(s);
    TokenizePrinted(left, op + tail);
    TokenizeOperator(op, tail);
    TokenizePrinted(right, close);
    TokenizeSymbol(close);
    PrependTwice(r, [RParen], Tokenize(rest));
    PrependTwice(o, r + [RParen], Tokenize(rest));
    PrependTwice(l, o + (r + [RParen]), Tokenize(rest));
    PrependTwice([LParen], l + (o + (r + [RParen])), Tokenize(rest));
  }

  // ---- The round trip ----

  // A printed tree reads back as itself exactly up to the height the parser admits, and is rejected
  // beyond it.
  lemma RoundTripIffShallow(node: Node)
    requires Legal(node)
    ensures ParseWhen(Encode(node)) == if Height(node) <= MAX_WHEN_EXPRESSION_DEPTH then Some(node) else None
  {
    var u := PrintedUnary(node);
    assert Encode(node) + "" == Encode(node);
    TokenizePrinted(node, "");
    PrintedYield(node);
    AloneIsItself(u, 0);
    assert UnaryYield(u) + [] == UnaryYield(u);
    assert Tokenize(Encode(node)) == Some(OrYield(Alone(u)));
    assert OrYield(Alone(u)) != [];
    PrintedDenotes(node);
    PrintedFits(node, 0);
    assert OrYield(Alone(u)) + [] == OrYield(Alone(u));
    OrReads(Alone(u), 0, []);
  }

  // Within the bound, printing a condition and parsing it again changes its outcome in no context.
  lemma ReparsedMeansTheSame(node: Node, context: map<string, bool>)
    requires Legal(node) && Height(node) <= MAX_WHEN_EXPRESSION_DEPTH
    ensures ParseWhen(Encode(node)).Some?
    ensures Evaluate(ParseWhen(Encode(node)).value, context) == Evaluate(node, context)
  {
    RoundTripIffShallow(node);
  }

  // ---- What the parser itself produces ----

  lemma {:induction false} TokenNamesAreIdentifiers(s: string)
    requires Tokenize(s).Some?
    ensures forall t :: t in Tokenize(s).value && t.Identifier? ==> IsIdentifier(t.value)
    decreases |s|
  {
    if s == "" {
    } else {
      if IsSpace(s[0]) || s[0] in "!()" {
        TokenNamesAreIdentifiers(s[1..]);
      } else if "&&" <= s || "||" <= s {
        TokenNamesAreIdentifiers(s[2..]);
      } else {
        var n := IdentifierRun(s);
        TokenNamesAreIdentifiers(s[n..]);
        assert s[..n][0] == s[0];
      }
    }
  }

  ghost predicate NamesLegal(ts: seq<Token>) {
    forall t :: t in ts && t.Identifier? ==> IsIdentifier(t.value)
  }

  lemma {:induction false} NegateLegal(node: Node, times: nat)
    ensures Legal(Negate(node, times)) == Legal(node)
    decreases times
  {
    if times == 0 {
    } else {
      NegateLegal(Not(node), times - 1);
    }
  }

  lemma {:induction false} OrAstLegal(o: OrExpr)
    requires NamesLegal(OrYield(o))
    ensures Legal(OrAst(o))
    decreases o
  {
    match o
    case OrOne(a) => AndAstLegal(a);
    case OrMore(init, last) => OrAstLegal(init); AndAstLegal(last);
  }

  lemma {:induction false} AndAstLegal(a: AndExpr)
    requires NamesLegal(AndYield(a))
    ensures Legal(AndAst(a))
    decreases a
  {
    match a
    case AndOne(u) => UnaryAstLegal(u);
    case AndMore(init, last) => AndAstLegal(init); UnaryAstLegal(last);
  }

  lemma {:induction false} UnaryAstLegal(u: UnaryExpr)
    requires NamesLegal(UnaryYield(u))
    ensures Legal(UnaryAst(u))
    decreases u
  {
    NegateLegal(PrimaryAst(u.primary), u.nots);
    match u.primary
    case Ident(name) =>
      assert Identifier(name) in PrimaryYield(u.primary);
      assert Identifier(name) in UnaryYield(u);
    case Paren(inner) =>
      assert NamesLegal(OrYield(inner)) by {
        assert forall t :: t in OrYield(inner) ==> t in PrimaryYield(u.primary);
        assert forall t :: t in PrimaryYield(u.primary) ==> t in UnaryYield(u);
      }
      OrAstLegal(inner);
  }

  // Any condition that parses comes back from being printed exactly when its tree is shallow enough.
  lemma ParsedReparsesIffShallow(expression: string)
    requires ParseWhen(expression).Some?
    ensures var node := ParseWhen(expression).value;
            ParseWhen(Encode(node)) == Some(node) <==> Height(node) <= MAX_WHEN_EXPRESSION_DEPTH
  {
    ParsedConditionIsLegal(expression);
    RoundTripIffShallow(ParseWhen(expression).value);
  }

  lemma ParsedConditionIsLegal(expression: string)
    requires ParseWhen(expression).Some?
    ensures Legal(ParseWhen(expression).value)
  {
    var ts := Tokenize(expression).value;
    TokenNamesAreIdentifiers(expression);
    var o := OrDerives(ts, 0);
    assert OrYield(o) + [] == OrYield(o);
    OrAstLegal(o);
  }

  // Long chains do not: the parser bounds nesting but not the length of a chain, and the printer
  // nests once per operator.
  function Chain(name: string, n: nat): AndExpr {
    if n == 0 then AndOne(Unary(0, Ident(name))) else AndMore(Chain(name, n - 1), Unary(0, Ident(name)))
  }

  function ChainText(name: string, n: nat): string {
    if n == 0 then name else ChainText(name, n - 1) + ("&&" + name)
  }

  lemma LinkTokens(name: string, rest: string)
    requires IsIdentifier(name)
    requires rest == "" || !IsIdentifierPart(rest[0])
    ensures Tokenize("&&" + (name + rest)) == Prepend([AndToken, Identifier(name)], Tokenize(rest))
  {
    var s := "&&" + (name + rest);
    assert s[2..] == name + rest;
    TokenizeDoubled(s);
    TokenizeName(name, rest);
    PrependTwice([AndToken], [Identifier(name)], Tokenize(rest));
    assert [AndToken] + [Identifier(name)] == [AndToken, Identifier(name)];
  }

  lemma {:induction false} ChainTokens(name: string, n: nat, rest: string)
    requires IsIdentifier(name)
    requires rest == "" || !IsIdentifierPart(rest[0])
    ensures Tokenize(ChainText(name, n) + rest) == Prepend(AndYield(Chain(name, n)), Tokenize(rest))
  {
    if n == 0 {
      ChainStarts(name);
      TokenizeName(name, rest);
    } else {
      var more := "&&" + (name + rest);
      ChainGrows(name, n, rest);
      ChainTokens(name, n - 1, more);
      LinkTokens(name, rest);
      PrependTwice(AndYield(Chain(name, n - 1)), [AndToken, Identifier(name)], Tokenize(rest));
    }
  }

  lemma ChainStarts(name: string)
    ensures AndYield(Chain(name, 0)) == [Identifier(name)]
  {
    assert UnaryYield(Unary(0, Ident(name))) == [Identifier(name)];
  }

  lemma ChainGrows(name: string, n: nat, rest: string)
    requires n > 0
    ensures ChainText(name, n) + rest == ChainText(name, n - 1) + ("&&" + (name + rest))
    ensures AndYield(Chain(name, n)) == AndYield(Chain(name, n - 1)) + [AndToken, Identifier(name)]
  {
    assert UnaryYield(Unary(0, Ident(name))) == [Identifier(name)];
  }

  lemma {:induction false} ChainShape(name: string, n: nat)
    requires IsIdentifier(name)
    ensures AndFits(Chain(name, n), 0)
    ensures Height(AndAst(Chain(name, n))) == n && Legal(AndAst(Chain(name, n)))
  {
    assert UnaryAst(Unary(0, Ident(name))) == Name(name);
    if n == 0 {
    } else {
      ChainShape(name, n - 1);
    }
  }

  // Every chain of n operators parses, and comes back from being printed exactly while n is at most 64.
  lemma ChainReparsesIffShort(name: string, n: nat)
    requires IsIdentifier(name)
    ensures var node := AndAst(Chain(name, n));
            && ParseWhen(ChainText(name, n)) == Some(node)
            && (ParseWhen(Encode(node)) == Some(node) <==> n <= MAX_WHEN_EXPRESSION_DEPTH)
  {
    ChainReads(name, n);
    ChainShape(name, n);
    RoundTripIffShallow(AndAst(Chain(name, n)));
  }

  lemma ChainReads(name: string, n: nat)
    requires IsIdentifier(name)
    ensures ParseWhen(ChainText(name, n)) == Some(AndAst(Chain(name, n)))
  {
    var o := OrOne(Chain(name, n));
    ChainTokens(name, n, "");
    ChainShape(name, n);
    assert ChainText(name, n) + "" == ChainText(name, n);
    assert AndYield(Chain(name, n)) + [] == OrYield(o);
    OrReads(o, 0, []);
  }
}
