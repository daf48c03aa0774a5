// The `when` grammar is unambiguous: a token list has at most one derivation, however deep.
module WhenUnambiguous {
  import opened When
  import opened WhenGrammar

  // ---- Lists of items with a separator ----

  function Tail<T>(sep: Token, items: seq<T>, spell: T -> seq<Token>): seq<Token> {
    if items == [] then [] else [sep] + (spell(items[0]) + Tail(sep, items[1..], spell))
  }

  function Spelled<T>(sep: Token, items: seq<T>, spell: T -> seq<Token>): seq<Token>
    requires items != []
  {
    spell(items[0]) + Tail(sep, items[1..], spell)
  }

  // An item can be told off the front of a token list, if what follows it is a possible end.
  ghost predicate TellsApart<T(!new)>(x: T, y: T, spell: T -> seq<Token>, ends: seq<Token> -> bool) {
    forall r, s :: ends(r) && ends(s) && spell(x) + r == spell(y) + s ==> x == y && r == s
  }

  predicate StartsWith(ts: seq<Token>, t: Token) {
    ts != [] && ts[0] == t
  }

  lemma {:induction false} ListUnique<T(!new)>(
    sep: Token, xs: seq<T>, ys: seq<T>, r: seq<Token>, s: seq<Token>, spell: T -> seq<Token>, ends: seq<Token> -> bool)
    requires xs != [] && ys != [] && Spelled(sep, xs, spell) + r == Spelled(sep, ys, spell) + s
    requires forall x, y :: x in xs && y in ys ==> TellsApart(x, y, spell, ends)
    requires forall t :: StartsWith(t, sep) ==> ends(t)
    requires ends(r) && ends(s) && !StartsWith(r, sep) && !StartsWith(s, sep)
    ensures xs == ys && r == s
    decreases |xs|
  {
    var rest, others := xs[1..], ys[1..];
    HeadsAgree(sep, xs, ys, r, s, spell, ends);
    TailEnds(sep, rest, r, spell);
    TailEnds(sep, others, s, spell);
    if rest != [] && others != [] {
      TailIsSpelled(sep, rest, r, spell);
      TailIsSpelled(sep, others, s, spell);
      assert forall x :: x in rest ==> x in xs;
      assert forall y :: y in others ==> y in ys;
      ListUnique(sep, rest, others, r, s, spell, ends);
    }
    assert xs == [xs[0]] + rest && ys == [ys[0]] + others;
  }

  lemma HeadsAgree<T(!new)>(
    sep: Token, xs: seq<T>, ys: seq<T>, r: seq<Token>, s: seq<Token>, spell: T -> seq<Token>, ends: seq<Token> -> bool)
    requires xs != [] && ys != [] && Spelled(sep, xs, spell) + r == Spelled(sep, ys, spell) + s
    requires TellsApart(xs[0], ys[0], spell, ends)
    requires forall t :: StartsWith(t, sep) ==> ends(t)
    requires ends(r) && ends(s)
    ensures xs[0] == ys[0] && Tail(sep, xs[1..], spell) + r == Tail(sep, ys[1..], spell) + s
  {
    var tail, other := Tail(sep, xs[1..], spell) + r, Tail(sep, ys[1..], spell) + s;
    assert spell(xs[0]) + tail == Spelled(sep, xs, spell) + r;
    assert spell(ys[0]) + other == Spelled(sep, ys, spell) + s;
    TailEnds(sep, xs[1..], r, spell);
    TailEnds(sep, ys[1..], s, spell);
  }

  lemma TailIsSpelled<T>(sep: Token, items: seq<T>, r: seq<Token>, spell: T -> seq<Token>)
    requires items != []
    ensures (Tail(sep, items, spell) + r)[1..] == Spelled(sep, items, spell) + r
  {
    var spelled := Spelled(sep, items, spell);
    assert Tail(sep, items, spell) + r == [sep] + (spelled + r);
  }

  lemma TailEnds<T>(sep: Token, items: seq<T>, r: seq<Token>, spell: T -> seq<Token>)
    ensures items == [] ==> Tail(sep, items, spell) + r == r
    ensures items != [] ==> StartsWith(Tail(sep, items, spell) + r, sep)
  {
  }

  lemma {:induction false} TailSnoc<T>(sep: Token, items: seq<T>, last: T, spell: T -> seq<Token>)
    ensures Tail(sep, items + [last], spell) == Tail(sep, items, spell) + ([sep] + spell(last))
  {
    if items == [] {
      assert items + [last] == [last] && [last][1..] == [];
      assert Tail(sep, [last], spell) == [sep] + (spell(last) + []);
    } else {
      assert (items + [last])[1..] == items[1..] + [last];
      TailSnoc(sep, items[1..], last, spell);
    }
  }

  lemma SpelledSnoc<T>(sep: Token, items: seq<T>, last: T, spell: T -> seq<Token>)
    requires items != []
    ensures Spelled(sep, items + [last], spell) == Spelled(sep, items, spell) + [sep] + spell(last)
  {
    assert (items + [last])[1..] == items[1..] + [last];
    TailSnoc(sep, items[1..], last, spell);
  }

  // ---- Derivations as lists ----

  function AndItems(a: AndExpr): (items: seq<UnaryExpr>)
    ensures items != []
  {
    match a
    case AndOne(u) => [u]
    case AndMore(init, last) => AndItems(init) + [last]
  }

  function OrItems(o: OrExpr): (items: seq<AndExpr>)
    ensures items != []
  {
    match o
    case OrOne(a) => [a]
    case OrMore(init, last) => OrItems(init) + [last]
  }

  lemma {:induction false} AndItemsSpell(a: AndExpr)
    ensures AndYield(a) == Spelled(AndToken, AndItems(a), UnaryYield)
    ensures forall u :: u in AndItems(a) ==> |UnaryYield(u)| <= |AndYield(a)|
  {
    match a
    case AndOne(u) =>
      assert [u][1..] == [];
    case AndMore(init, last) =>
      AndItemsSpell(init);
      SpelledSnoc(AndToken, AndItems(init), last, UnaryYield);
  }

  lemma {:induction false} OrItemsSpell(o: OrExpr)
    ensures OrYield(o) == Spelled(OrToken, OrItems(o), AndYield)
    ensures forall a :: a in OrItems(o) ==> |AndYield(a)| <= |OrYield(o)|
  {
    match o
    case OrOne(a) =>
      assert [a][1..] == [];
    case OrMore(init, last) =>
      OrItemsSpell(init);
      SpelledSnoc(OrToken, OrItems(init), last, AndYield);
  }

  lemma {:induction false} AndItemsDetermine(a: AndExpr, b: AndExpr)
    requires AndItems(a) == AndItems(b)
    ensures a == b
  {
    var n := |AndItems(a)| - 1;
    if a.AndMore? && b.AndMore? {
      assert AndItems(a)[..n] == AndItems(a.init) && AndItems(b)[..n] == AndItems(b.init);
      assert AndItems(a)[n] == a.last && AndItems(b)[n] == b.last;
      AndItemsDetermine(a.init, b.init);
    } else {
      assert a.AndOne? ==> |AndItems(a)| == 1;
      assert b.AndOne? ==> |AndItems(b)| == 1;
      assert AndItems(a)[0] == AndItems(b)[0];
    }
  }

  lemma {:induction false} OrItemsDetermine(o: OrExpr, p: OrExpr)
    requires OrItems(o) == OrItems(p)
    ensures o == p
  {
    var n := |OrItems(o)| - 1;
    if o.OrMore? && p.OrMore? {
      assert OrItems(o)[..n] == OrItems(o.init) && OrItems(p)[..n] == OrItems(p.init);
      assert OrItems(o)[n] == o.last && OrItems(p)[n] == p.last;
      OrItemsDetermine(o.init, p.init);
    } else {
      assert o.OrOne? ==> |OrItems(o)| == 1;
      assert p.OrOne? ==> |OrItems(p)| == 1;
      assert OrItems(o)[0] == OrItems(p)[0];
    }
  }

  // ---- Each level can be told off the front of a token list ----

  predicate AnyEnd(ts: seq<Token>) {
    true
  }

  predicate EndsAnd(ts: seq<Token>) {
    !StartsWith(ts, AndToken)
  }

  predicate EndsOr(ts: seq<Token>) {
    !StartsWith(ts, AndToken) && !StartsWith(ts, OrToken)
  }

  lemma {:induction false} PrimaryUnique(p: Primary, q: Primary, r: seq<Token>, s: seq<Token>)
    requires PrimaryYield(p) + r == PrimaryYield(q) + s
    ensures p == q && r == s
    decreases |PrimaryYield(p)|, 0
  {
    var ts := PrimaryYield(p) + r;
    assert ts[0] == PrimaryYield(p)[0] == PrimaryYield(q)[0];
    if p.Ident? {
      assert ts[1..] == r && ts[1..] == s;
    } else {
      var close := [RParen];
      assert ts[1..] == OrYield(p.inner) + (close + r) && ts[1..] == OrYield(q.inner) + (close + s);
      OrUnique(p.inner, q.inner, close + r, close + s);
      assert (close + r)[1..] == r && (close + s)[1..] == s;
    }
  }

  lemma {:induction false} UnaryUnique(u: UnaryExpr, v: UnaryExpr, r: seq<Token>, s: seq<Token>)
    requires UnaryYield(u) + r == UnaryYield(v) + s
    ensures u == v && r == s
    decreases |UnaryYield(u)|, 1
  {
    var ts := UnaryYield(u) + r;
    NotsEnd(u, r);
    NotsEnd(v, s);
    assert ts[u.nots..] == PrimaryYield(u.primary) + r && ts[v.nots..] == PrimaryYield(v.primary) + s;
    PrimaryUnique(u.primary, v.primary, r, s);
  }

  lemma NotsEnd(u: UnaryExpr, r: seq<Token>)
    ensures var ts := UnaryYield(u) + r;
            && u.nots < |ts| && ts[u.nots] != NotToken && ts[u.nots..] == PrimaryYield(u.primary) + r
            && forall i :: 0 <= i < u.nots ==> ts[i] == NotToken
  {
    var first := PrimaryYield(u.primary)[0];
    assert (UnaryYield(u) + r)[u.nots] == first;
  }

  lemma {:induction false} AndUnique(a: AndExpr, b: AndExpr, r: seq<Token>, s: seq<Token>)
    requires AndYield(a) + r == AndYield(b) + s && EndsAnd(r) && EndsAnd(s)
    ensures a == b && r == s
    decreases |AndYield(a)|, 2
  {
    AndItemsSpell(a);
    AndItemsSpell(b);
    forall u, v | u in AndItems(a) && v in AndItems(b) ensures TellsApart(u, v, UnaryYield, AnyEnd) {
      forall r', s' | UnaryYield(u) + r' == UnaryYield(v) + s' ensures u == v && r' == s' {
        UnaryUnique(u, v, r', s');
      }
    }
    ListUnique(AndToken, AndItems(a), AndItems(b), r, s, UnaryYield, AnyEnd);
    AndItemsDetermine(a, b);
  }

  lemma {:induction false} OrUnique(o: OrExpr, p: OrExpr, r: seq<Token>, s: seq<Token>)
    requires OrYield(o) + r == OrYield(p) + s && EndsOr(r) && EndsOr(s)
    ensures o == p && r == s
    decreases |OrYield(o)|, 3
  {
    OrItemsSpell(o);
    OrItemsSpell(p);
    forall a, b | a in OrItems(o) && b in OrItems(p) ensures TellsApart(a, b, AndYield, EndsAnd) {
      forall r', s' | EndsAnd(r') && EndsAnd(s') && AndYield(a) + r' == AndYield(b) + s' ensures a == b && r' == s' {
        AndUnique(a, b, r', s');
      }
    }
    ListUnique(OrToken, OrItems(o), OrItems(p), r, s, AndYield, EndsAnd);
    OrItemsDetermine(o, p);
  }

  // A token list has at most one derivation at all, within the depth bounds or not, and so denotes at
  // most one tree.
  lemma SpellingDeterminesDerivation(o: OrExpr, p: OrExpr)
    requires OrYield(o) == OrYield(p)
    ensures o == p
  {
    OrUnique(o, p, [], []);
  }
}
