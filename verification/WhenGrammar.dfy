// What the `when` parser accepts, by an independent definition: the derivations of the grammar
//   or    ::= or "||" and | and
//   and   ::= and "&&" unary | unary
//   unary ::= "!"* primary
//   primary ::= identifier | "(" or ")"
// with at most MAX_WHEN_EXPRESSION_DEPTH enclosing parentheses and as long a run of "!".
module WhenGrammar {
  import opened Text
  import opened When

  datatype OrExpr = OrOne(only: AndExpr) | OrMore(init: OrExpr, last: AndExpr)
  datatype AndExpr = AndOne(only: UnaryExpr) | AndMore(init: AndExpr, last: UnaryExpr)
  datatype UnaryExpr = Unary(nots: nat, primary: Primary)
  datatype Primary = Ident(name: string) | Paren(inner: OrExpr)

  // The tokens a derivation spells out.
  function OrYield(o: OrExpr): seq<Token> {
    match o
    case OrOne(a) => AndYield(a)
    case OrMore(init, last) => OrYield(init) + [OrToken] + AndYield(last)
  }

  function AndYield(a: AndExpr): seq<Token> {
    match a
    case AndOne(u) => UnaryYield(u)
    case AndMore(init, last) => AndYield(init) + [AndToken] + UnaryYield(last)
  }

  function UnaryYield(u: UnaryExpr): seq<Token> {
    seq(u.nots, _ => NotToken) + PrimaryYield(u.primary)
  }

  function PrimaryYield(p: Primary): seq<Token> {
    match p
    case Ident(name) => [Identifier(name)]
    case Paren(inner) => [LParen] + OrYield(inner) + [RParen]
  }

  // The depth bounds, `depth` parentheses being open around the derivation.
  predicate OrFits(o: OrExpr, depth: nat) {
    match o
    case OrOne(a) => AndFits(a, depth)
    case OrMore(init, last) => OrFits(init, depth) && AndFits(last, depth)
  }

  predicate AndFits(a: AndExpr, depth: nat) {
    match a
    case AndOne(u) => UnaryFits(u, depth)
    case AndMore(init, last) => AndFits(init, depth) && UnaryFits(last, depth)
  }

  predicate UnaryFits(u: UnaryExpr, depth: nat) {
    u.nots <= MAX_WHEN_EXPRESSION_DEPTH && PrimaryFits(u.primary, depth)
  }

  predicate PrimaryFits(p: Primary, depth: nat) {
    depth <= MAX_WHEN_EXPRESSION_DEPTH && (p.Paren? ==> OrFits(p.inner, depth + 1))
  }

  // The tree a derivation denotes.
  function OrAst(o: OrExpr): Node {
    match o
    case OrOne(a) => AndAst(a)
    case OrMore(init, last) => Or(OrAst(init), AndAst(last))
  }

  function AndAst(a: AndExpr): Node {
    match a
    case AndOne(u) => UnaryAst(u)
    case AndMore(init, last) => And(AndAst(init), UnaryAst(last))
  }

  function UnaryAst(u: UnaryExpr): Node {
    Negate(PrimaryAst(u.primary), u.nots)
  }

  function PrimaryAst(p: Primary): Node {
    match p
    case Ident(name) => Name(name)
    case Paren(inner) => OrAst(inner)
  }

  // ---- Completeness: the parser reads every derivation that fits, and only those ----

  function After(node: Node, rest: seq<Token>): Parsed {
    Some((node, rest))
  }

  lemma {:induction false} PrimaryReads(p: Primary, depth: nat, rest: seq<Token>)
    ensures ParsePrimary(PrimaryYield(p) + rest, depth)
         == if PrimaryFits(p, depth) then After(PrimaryAst(p), rest) else None
    decreases p, 0
  {
    var ts := PrimaryYield(p) + rest;
    match p
    case Ident(name) => assert ts[1..] == rest;
    case Paren(inner) =>
      assert ts[1..] == OrYield(inner) + ([RParen] + rest);
      if depth <= MAX_WHEN_EXPRESSION_DEPTH {
        OrReads(inner, depth + 1, [RParen] + rest);
        assert ([RParen] + rest)[1..] == rest;
      }
  }

  lemma {:induction false} NotsBefore(n: nat, ts: seq<Token>)
    requires ts != [] && ts[0] != NotToken
    ensures LeadingNots(seq(n, _ => NotToken) + ts) == n
  {
    var all := seq(n, _ => NotToken) + ts;
    if n > 0 {
      assert all[1..] == seq(n - 1, _ => NotToken) + ts;
      NotsBefore(n - 1, ts);
    } else {
      assert all == ts;
    }
  }

  lemma {:induction false} UnaryReads(u: UnaryExpr, depth: nat, rest: seq<Token>)
    ensures ParseUnary(UnaryYield(u) + rest, depth)
         == if UnaryFits(u, depth) then After(UnaryAst(u), rest) else None
    decreases u, 1
  {
    var ts := UnaryYield(u) + rest;
    var tail := PrimaryYield(u.primary) + rest;
    assert ts == seq(u.nots, _ => NotToken) + tail;
    NotsBefore(u.nots, tail);
    assert ts[u.nots..] == tail;
    PrimaryReads(u.primary, depth, rest);
  }

  // Reading a chain leaves the parser in its loop, with the chain's tree on the left.
  lemma {:induction false} AndReads(a: AndExpr, depth: nat, rest: seq<Token>)
    ensures ParseAnd(AndYield(a) + rest, depth)
         == if AndFits(a, depth) then AndLoop(AndAst(a), rest, depth) else None
    decreases a, 2
  {
    match a
    case AndOne(u) => UnaryReads(u, depth, rest);
    case AndMore(init, last) =>
      var rest' := [AndToken] + (UnaryYield(last) + rest);
      assert AndYield(a) + rest == AndYield(init) + rest';
      AndReads(init, depth, rest');
      assert rest'[1..] == UnaryYield(last) + rest;
      UnaryReads(last, depth, rest);
  }

  lemma {:induction false} OrLoopReads(o: OrExpr, depth: nat, rest: seq<Token>)
    requires rest == [] || rest[0] != AndToken
    ensures ParseOr(OrYield(o) + rest, depth)
         == if OrFits(o, depth) then OrLoop(OrAst(o), rest, depth) else None
    decreases o, 2
  {
    match o
    case OrOne(a) => AndReads(a, depth, rest);
    case OrMore(init, last) =>
      var rest' := [OrToken] + (AndYield(last) + rest);
      assert OrYield(o) + rest == OrYield(init) + rest';
      OrLoopReads(init, depth, rest');
      assert rest'[1..] == AndYield(last) + rest;
      AndReads(last, depth, rest);
  }

  lemma OrReads(o: OrExpr, depth: nat, rest: seq<Token>)
    requires rest == [] || (rest[0] != AndToken && rest[0] != OrToken)
    ensures ParseOr(OrYield(o) + rest, depth)
         == if OrFits(o, depth) then After(OrAst(o), rest) else None
    decreases o, 3
  {
    OrLoopReads(o, depth, rest);
  }

  // ---- Soundness: what the parser accepts has a derivation that fits ----

  lemma {:induction false} PrimaryDerives(ts: seq<Token>, depth: nat) returns (p: Primary)
    requires ParsePrimary(ts, depth).Some?
    ensures var r := ParsePrimary(ts, depth).value;
            PrimaryYield(p) + r.1 == ts && PrimaryFits(p, depth) && PrimaryAst(p) == r.0
    decreases |ts|, 0
  {
    if ts[0].Identifier? {
      p := Ident(ts[0].value);
    } else {
      var inner := OrDerives(ts[1..], depth + 1);
      p := Paren(inner);
      var after := ParseOr(ts[1..], depth + 1).value.1;
      assert after == [RParen] + after[1..];
      assert ts == [LParen] + ts[1..];
    }
  }

  lemma {:induction false} UnaryDerives(ts: seq<Token>, depth: nat) returns (u: UnaryExpr)
    requires ParseUnary(ts, depth).Some?
    ensures var r := ParseUnary(ts, depth).value;
            UnaryYield(u) + r.1 == ts && UnaryFits(u, depth) && UnaryAst(u) == r.0
    decreases |ts|, 1
  {
    var nots := LeadingNots(ts);
    var p := PrimaryDerives(ts[nots..], depth);
    u := Unary(nots, p);
    assert seq(nots, _ => NotToken) == ts[..nots];
  }

  lemma {:induction false} AndDerives(ts: seq<Token>, depth: nat) returns (a: AndExpr)
    requires ParseAnd(ts, depth).Some?
    ensures var r := ParseAnd(ts, depth).value;
            AndYield(a) + r.1 == ts && AndFits(a, depth) && AndAst(a) == r.0
    decreases |ts|, 3
  {
    var u := UnaryDerives(ts, depth);
    a := AndLoopDerives(AndOne(u), ParseUnary(ts, depth).value.1, depth);
  }

  lemma AndMoreYield(init: AndExpr, u: UnaryExpr, ts: seq<Token>, rest: seq<Token>)
    requires ts != [] && ts[0] == AndToken && UnaryYield(u) + rest == ts[1..]
    ensures AndYield(AndMore(init, u)) + rest == AndYield(init) + ts
  {
    assert ts == [AndToken] + (UnaryYield(u) + rest);
  }

  lemma OrMoreYield(init: OrExpr, a: AndExpr, ts: seq<Token>, rest: seq<Token>)
    requires ts != [] && ts[0] == OrToken && AndYield(a) + rest == ts[1..]
    ensures OrYield(OrMore(init, a)) + rest == OrYield(init) + ts
  {
    assert ts == [OrToken] + (AndYield(a) + rest);
  }

  lemma {:induction false} AndLoopDerives(init: AndExpr, ts: seq<Token>, depth: nat) returns (a: AndExpr)
    requires AndFits(init, depth) && AndLoop(AndAst(init), ts, depth).Some?
    ensures var r := AndLoop(AndAst(init), ts, depth).value;
            AndYield(a) + r.1 == AndYield(init) + ts && AndFits(a, depth) && AndAst(a) == r.0
    decreases |ts|, 2
  {
    if ts == [] || ts[0] != AndToken {
      a := init;
    } else {
      AndLoopStep(AndAst(init), ts, depth);
      var u := UnaryDerives(ts[1..], depth);
      var rest := ParseUnary(ts[1..], depth).value.1;
      AndMoreYield(init, u, ts, rest);
      a := AndLoopDerives(AndMore(init, u), rest, depth);
    }
  }

  lemma {:induction false} OrDerives(ts: seq<Token>, depth: nat) returns (o: OrExpr)
    requires ParseOr(ts, depth).Some?
    ensures var r := ParseOr(ts, depth).value;
            OrYield(o) + r.1 == ts && OrFits(o, depth) && OrAst(o) == r.0
    decreases |ts|, 5
  {
    var a := AndDerives(ts, depth);
    o := OrLoopDerives(OrOne(a), ParseAnd(ts, depth).value.1, depth);
  }

  lemma {:induction false} OrLoopDerives(init: OrExpr, ts: seq<Token>, depth: nat) returns (o: OrExpr)
    requires OrFits(init, depth) && OrLoop(OrAst(init), ts, depth).Some?
    ensures var r := OrLoop(OrAst(init), ts, depth).value;
            OrYield(o) + r.1 == OrYield(init) + ts && OrFits(o, depth) && OrAst(o) == r.0
    decreases |ts|, 4
  {
    if ts == [] || ts[0] != OrToken {
      o := init;
    } else {
      OrLoopStep(OrAst(init), ts, depth);
      var a := AndDerives(ts[1..], depth);
      var rest := ParseAnd(ts[1..], depth).value.1;
      OrMoreYield(init, a, ts, rest);
      o := OrLoopDerives(OrMore(init, a), rest, depth);
    }
  }

  // ---- The main result ----

  ghost predicate Derives(o: OrExpr, ts: seq<Token>, node: Node) {
    OrYield(o) == ts && OrFits(o, 0) && OrAst(o) == node
  }

  // The parser returns a tree exactly when the token list has a derivation within the bounds that
  // denotes it, so a token list denotes at most one tree.
  lemma ParsesIffDerives(ts: seq<Token>, node: Node)
    ensures ParseTokens(ts) == Some(node) <==> exists o :: Derives(o, ts, node)
  {
    if ParseTokens(ts) == Some(node) {
      var o := OrDerives(ts, 0);
      assert OrYield(o) + [] == OrYield(o);
      assert Derives(o, ts, node);
    }
    forall o | Derives(o, ts, node) ensures ParseTokens(ts) == Some(node) {
      assert OrYield(o) + [] == ts;
      OrReads(o, 0, []);
    }
  }

  // A derivation beyond the bounds is rejected, not truncated or re-read some other way.
  lemma TooDeepIsRejected(o: OrExpr)
    requires !OrFits(o, 0)
    ensures ParseTokens(OrYield(o)) == None
  {
    assert OrYield(o) + [] == OrYield(o);
    OrReads(o, 0, []);
  }
}
