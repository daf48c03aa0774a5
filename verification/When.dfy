// The `when` language of keybinding rules: tokenizer, depth-bounded parser, printer, evaluator.
module When {
  import opened Text

  const MAX_WHEN_EXPRESSION_DEPTH: nat := 64

  datatype Token = Identifier(value: string) | NotToken | AndToken | OrToken | LParen | RParen

  datatype Node = Name(name: string) | Not(node: Node) | And(left: Node, right: Node) | Or(left: Node, right: Node)

  // ---- Tokenizer ----

  predicate IsIdentifierStart(c: char) {
    IsLetter(c) || c == '_'
  }

  predicate IsIdentifierPart(c: char) {
    IsLetter(c) || IsDigit(c) || c == '_' || c == '.' || c == '-'
  }

  // The length of the longest identifier-part run at the start.
  function IdentifierRun(s: string): (n: nat)
    ensures n <= |s|
    ensures forall i :: 0 <= i < n ==> IsIdentifierPart(s[i])
    ensures n < |s| ==> !IsIdentifierPart(s[n])
  {
    if s == "" || !IsIdentifierPart(s[0]) then 0 else 1 + IdentifierRun(s[1..])
  }

  function Prepend(ts: seq<Token>, r: Option<seq<Token>>): Option<seq<Token>> {
    match r
    case None => None
    case Some(rest) => Some(ts + rest)
  }

  function Tokenize(s: string): Option<seq<Token>>
    decreases |s|
  {
    if s == "" then Some([])
    else if IsSpace(s[0]) then Tokenize(s[1..])
    else if "&&" <= s then Prepend([AndToken], Tokenize(s[2..]))
    else if "||" <= s then Prepend([OrToken], Tokenize(s[2..]))
    else if s[0] == '!' then Prepend([NotToken], Tokenize(s[1..]))
    else if s[0] == '(' then Prepend([LParen], Tokenize(s[1..]))
    else if s[0] == ')' then Prepend([RParen], Tokenize(s[1..]))
    else if !IsIdentifierStart(s[0]) then None
    else
      var n := IdentifierRun(s);
      Prepend([Identifier(s[..n])], Tokenize(s[n..]))
  }

  lemma PrependTwice(xs: seq<Token>, ys: seq<Token>, r: Option<seq<Token>>)
    ensures Prepend(xs, Prepend(ys, r)) == Prepend(xs + ys, r)
  {
    if r.Some? {
      assert xs + (ys + r.value) == xs + ys + r.value;
    }
  }

  lemma PrependNothing(r: Option<seq<Token>>)
    ensures Prepend([], r) == r
  {
    if r.Some? {
      assert [] + r.value == r.value;
    }
  }

  method TokenizeWhenExpression(expression: string) returns (result: Option<seq<Token>>)
    ensures result == Tokenize(expression)
  {
    var tokens: seq<Token> := [];
    var index := 0;
    assert expression[0..] == expression;
    PrependNothing(Tokenize(expression));
    while index < |expression|
      invariant index <= |expression|
      invariant Tokenize(expression) == Prepend(tokens, Tokenize(expression[index..]))
    {
      var current := expression[index];
      ghost var rest := expression[index..];
      var found: seq<Token> := [];
      var step := 1;
      if IsSpace(current) {
        PrependNothing(Tokenize(rest[1..]));
      } else if "&&" <= expression[index..] {
        found, step := [AndToken], 2;
      } else if "||" <= expression[index..] {
        found, step := [OrToken], 2;
      } else if current == '!' {
        found := [NotToken];
      } else if current == '(' {
        found := [LParen];
      } else if current == ')' {
        found := [RParen];
      } else {
        if !IsIdentifierStart(current) {
          return None;
        }
        step := IdentifierRun(expression[index..]);
        found := [Identifier(expression[index..index + step])];
        assert rest[..step] == expression[index..index + step];
      }
      assert Tokenize(rest) == Prepend(found, Tokenize(rest[step..]));
      assert rest[step..] == expression[index + step..];
      PrependTwice(tokens, found, Tokenize(rest[step..]));
      tokens := tokens + found;
      index := index + step;
    }
    assert expression[index..] == "";
    assert tokens + [] == tokens;
    return Some(tokens);
  }

  // ---- Parser, on the tokens that are left ----

  type Parsed = Option<(Node, seq<Token>)>

  predicate Shorter(r: Parsed, ts: seq<Token>) {
    r.Some? ==> |r.value.1| < |ts|
  }

  function ParsePrimary(ts: seq<Token>, depth: nat): (r: Parsed)
    ensures Shorter(r, ts)
    decreases |ts|, 0
  {
    if depth > MAX_WHEN_EXPRESSION_DEPTH || ts == [] then None
    else match ts[0]
      case Identifier(value) => Some((Name(value), ts[1..]))
      case LParen =>
        var inner := ParseOr(ts[1..], depth + 1);
        if inner.None? || inner.value.1 == [] || inner.value.1[0] != RParen then None
        else Some((inner.value.0, inner.value.1[1..]))
      case _ => None
  }

  function LeadingNots(ts: seq<Token>): (n: nat)
    ensures n <= |ts|
    ensures forall i :: 0 <= i < n ==> ts[i] == NotToken
    ensures n < |ts| ==> ts[n] != NotToken
  {
    if ts == [] || ts[0] != NotToken then 0 else 1 + LeadingNots(ts[1..])
  }

  function Negate(node: Node, times: nat): Node
    decreases times
  {
    if times == 0 then node else Negate(Not(node), times - 1)
  }

  function ParseUnary(ts: seq<Token>, depth: nat): (r: Parsed)
    ensures Shorter(r, ts)
    decreases |ts|, 1
  {
    var nots := LeadingNots(ts);
    if nots > MAX_WHEN_EXPRESSION_DEPTH then None
    else match ParsePrimary(ts[nots..], depth)
      case None => None
      case Some((node, rest)) => Some((Negate(node, nots), rest))
  }

  function ParseAnd(ts: seq<Token>, depth: nat): (r: Parsed)
    ensures Shorter(r, ts)
    decreases |ts|, 3
  {
    match ParseUnary(ts, depth)
    case None => None
    case Some((left, rest)) => AndLoop(left, rest, depth)
  }

  function AndLoop(left: Node, ts: seq<Token>, depth: nat): (r: Parsed)
    ensures r.Some? ==> |r.value.1| <= |ts|
    decreases |ts|, 2
  {
    if ts == [] || ts[0] != AndToken then Some((left, ts))
    else match ParseUnary(ts[1..], depth)
      case None => None
      case Some((right, rest)) => AndLoop(And(left, right), rest, depth)
  }

  lemma AndLoopStep(left: Node, ts: seq<Token>, depth: nat)
    requires ts != [] && ts[0] == AndToken
    ensures var right := ParseUnary(ts[1..], depth);
            AndLoop(left, ts, depth)
            == if right.None? then None else AndLoop(And(left, right.value.0), right.value.1, depth)
  {
  }

  function ParseOr(ts: seq<Token>, depth: nat): (r: Parsed)
    ensures Shorter(r, ts)
    decreases |ts|, 5
  {
    match ParseAnd(ts, depth)
    case None => None
    case Some((left, rest)) => OrLoop(left, rest, depth)
  }

  function OrLoop(left: Node, ts: seq<Token>, depth: nat): (r: Parsed)
    ensures r.Some? ==> |r.value.1| <= |ts|
    decreases |ts|, 4
  {
    if ts == [] || ts[0] != OrToken then Some((left, ts))
    else match ParseAnd(ts[1..], depth)
      case None => None
      case Some((right, rest)) => OrLoop(Or(left, right), rest, depth)
  }

  lemma OrLoopStep(left: Node, ts: seq<Token>, depth: nat)
    requires ts != [] && ts[0] == OrToken
    ensures var right := ParseAnd(ts[1..], depth);
            OrLoop(left, ts, depth)
            == if right.None? then None else OrLoop(Or(left, right.value.0), right.value.1, depth)
  {
  }

  function ParseTokens(ts: seq<Token>): Option<Node> {
    match ParseOr(ts, 0)
    case None => None
    case Some((node, rest)) => if rest == [] then Some(node) else None
  }

  function ParseWhen(expression: string): Option<Node> {
    match Tokenize(expression)
    case None => None
    case Some(ts) => if ts == [] then None else ParseTokens(ts)
  }

  // ---- Evaluator ----

  // Reading a flag from the context object; absent flags are false, inherited names are not absent.
  function Flag(context: map<string, bool>, name: string): bool {
    if name in context then context[name] else name in INHERITED_NAMES
  }

  function Evaluate(node: Node, context: map<string, bool>): bool {
    match node
    case Name(name) => if name == "true" then true else if name == "false" then false else Flag(context, name)
    case Not(n) => !Evaluate(n, context)
    case And(left, right) => Evaluate(left, context) && Evaluate(right, context)
    case Or(left, right) => Evaluate(left, context) || Evaluate(right, context)
  }

  // The recursive-descent parser over a token list and a cursor into it. Every method advances the
  // cursor exactly past what the function of the same name consumes.
  class Parser {
    const tokens: seq<Token>
    var index: nat

    constructor (tokens: seq<Token>)
      ensures this.tokens == tokens && index == 0
    {
      this.tokens := tokens;
      index := 0;
    }

    ghost predicate Consumed(r: Option<Node>, parsed: Parsed)
      reads this
    {
      && index <= |tokens|
      && (match parsed
          case None => r.None?
          case Some((node, rest)) => r == Some(node) && tokens[index..] == rest)
    }

    method ParsePrimaryAt(depth: nat) returns (r: Option<Node>)
      requires index <= |tokens|
      modifies this
      ensures Consumed(r, ParsePrimary(tokens[old(index)..], depth))
      decreases |tokens| - index, 0
    {
      if depth > MAX_WHEN_EXPRESSION_DEPTH {
        return None;
      }
      if index == |tokens| {
        return None;
      }
      var token := tokens[index];
      assert tokens[index..][1..] == tokens[index + 1..];
      if token.Identifier? {
        index := index + 1;
        return Some(Name(token.value));
      }
      if token == LParen {
        index := index + 1;
        var inner := ParseOrAt(depth + 1);
        if inner.None? || index == |tokens| || tokens[index] != RParen {
          return None;
        }
        assert tokens[index..][1..] == tokens[index + 1..];
        index := index + 1;
        return inner;
      }
      return None;
    }

    method ParseUnaryAt(depth: nat) returns (r: Option<Node>)
      requires index <= |tokens|
      modifies this
      ensures Consumed(r, ParseUnary(tokens[old(index)..], depth))
      decreases |tokens| - index, 1
    {
      var notCount: nat := 0;
      ghost var start := tokens[index..];
      while index < |tokens| && tokens[index] == NotToken
        invariant index <= |tokens| && index == old(index) + notCount
        invariant LeadingNots(start) == notCount + LeadingNots(tokens[index..])
        invariant notCount <= MAX_WHEN_EXPRESSION_DEPTH
        decreases |tokens| - index
      {
        assert tokens[index..][1..] == tokens[index + 1..];
        index := index + 1;
        notCount := notCount + 1;
        if notCount > MAX_WHEN_EXPRESSION_DEPTH {
          return None;
        }
      }
      assert start[notCount..] == tokens[index..];
      var primary := ParsePrimaryAt(depth);
      if primary.None? {
        return None;
      }
      var node := primary.value;
      ghost var whole := Negate(node, notCount);
      while notCount > 0
        invariant Negate(node, notCount) == whole
      {
        node := Not(node);
        notCount := notCount - 1;
      }
      return Some(node);
    }

    method ParseAndAt(depth: nat) returns (r: Option<Node>)
      requires index <= |tokens|
      modifies this
      ensures Consumed(r, ParseAnd(tokens[old(index)..], depth))
      decreases |tokens| - index, 3
    {
      var first := ParseUnaryAt(depth);
      if first.None? {
        return None;
      }
      var left := first.value;
      ghost var whole := AndLoop(left, tokens[index..], depth);
      assert whole == ParseAnd(tokens[old(index)..], depth);
      while index < |tokens| && tokens[index] == AndToken
        invariant old(index) < index <= |tokens|
        invariant AndLoop(left, tokens[index..], depth) == whole
        decreases |tokens| - index
      {
        assert tokens[index..][1..] == tokens[index + 1..];
        ghost var parsed := ParseUnary(tokens[index + 1..], depth);
        AndLoopStep(left, tokens[index..], depth);
        index := index + 1;
        var right := ParseUnaryAt(depth);
        assert Consumed(right, parsed);
        if right.None? {
          return None;
        }
        left := And(left, right.value);
      }
      return Some(left);
    }

    method ParseOrAt(depth: nat) returns (r: Option<Node>)
      requires index <= |tokens|
      modifies this
      ensures Consumed(r, ParseOr(tokens[old(index)..], depth))
      decreases |tokens| - index, 5
    {
      var first := ParseAndAt(depth);
      if first.None? {
        return None;
      }
      var left := first.value;
      ghost var whole := OrLoop(left, tokens[index..], depth);
      assert whole == ParseOr(tokens[old(index)..], depth);
      while index < |tokens| && tokens[index] == OrToken
        invariant old(index) < index <= |tokens|
        invariant OrLoop(left, tokens[index..], depth) == whole
        decreases |tokens| - index
      {
        assert tokens[index..][1..] == tokens[index + 1..];
        index := index + 1;
        var right := ParseAndAt(depth);
        if right.None? {
          return None;
        }
        left := Or(left, right.value);
      }
      return Some(left);
    }
  }

  method ParseKeybindingWhenExpression(expression: string) returns (r: Option<Node>)
    ensures r == ParseWhen(expression)
  {
    var tokens := TokenizeWhenExpression(expression);
    if tokens.None? || tokens.value == [] {
      return None;
    }
    var parser := new Parser(tokens.value);
    assert tokens.value[0..] == tokens.value;
    var ast := parser.ParseOrAt(0);
    if ast.None? || parser.index != |tokens.value| {
      return None;
    }
    return ast;
  }
}
