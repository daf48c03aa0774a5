// What a `when` condition makes of flags that its context does not hold.
module WhenFlags {
  import opened Text
  import opened When

  // The evaluator with every absent flag false, as a reader of the conditions would expect.
  function EvaluateAbsentFalse(node: Node, context: map<string, bool>): bool {
    match node
    case Name(name) =>
      if name == "true" then true else if name == "false" then false else name in context && context[name]
    case Not(n) => !EvaluateAbsentFalse(n, context)
    case And(left, right) => EvaluateAbsentFalse(left, context) && EvaluateAbsentFalse(right, context)
    case Or(left, right) => EvaluateAbsentFalse(left, context) || EvaluateAbsentFalse(right, context)
  }

  function NamesOf(node: Node): set<string> {
    match node
    case Name(name) => {name}
    case Not(n) => NamesOf(n)
    case And(left, right) => NamesOf(left) + NamesOf(right)
    case Or(left, right) => NamesOf(left) + NamesOf(right)
  }

  // The context as the evaluator reads it: what it inherits, overridden by what it holds.
  function Inherit(context: map<string, bool>): map<string, bool> {
    (map name | name in INHERITED_NAMES :: true) + context
  }

  lemma LiteralsAreNotInherited()
    ensures "true" !in INHERITED_NAMES && "false" !in INHERITED_NAMES
  {
    assert "true"[0] == 't' && "false"[0] == 'f' && "toString"[1] == 'o' && "toLocaleString"[1] == 'o';
    assert forall name :: name in INHERITED_NAMES ==> |name| > 5;
  }

  // An absent flag evaluates to false exactly if no object inherits a member of its name.
  lemma AbsentFlagIsFalseIff(name: string, context: map<string, bool>)
    requires name !in context && name !in {"true", "false"}
    ensures !Evaluate(Name(name), context) <==> name !in INHERITED_NAMES
  {
  }

  lemma AbsentConstructorIsTrue(context: map<string, bool>)
    requires "constructor" !in context
    ensures Evaluate(Name("constructor"), context) && !EvaluateAbsentFalse(Name("constructor"), context)
  {
    assert "constructor"[0] == 'c';
    LiteralsAreNotInherited();
  }

  // For every condition, the evaluator takes absent flags for false once the inherited members are
  // put into the context.
  lemma {:induction false} EvaluatesInInherited(node: Node, context: map<string, bool>)
    ensures Evaluate(node, context) == EvaluateAbsentFalse(node, Inherit(context))
  {
    match node
    case Name(_) =>
    case Not(n) => EvaluatesInInherited(n, context);
    case And(left, right) => EvaluatesInInherited(left, context); EvaluatesInInherited(right, context);
    case Or(left, right) => EvaluatesInInherited(left, context); EvaluatesInInherited(right, context);
  }

  // A condition that names no inherited member outside the context takes absent flags for false.
  lemma {:induction false} AbsentFlagsAreFalse(node: Node, context: map<string, bool>)
    requires NamesOf(node) * INHERITED_NAMES <= context.Keys
    ensures Evaluate(node, context) == EvaluateAbsentFalse(node, context)
  {
    match node
    case Name(name) =>
      assert name in NamesOf(node);
      assert name in INHERITED_NAMES ==> name in NamesOf(node) * INHERITED_NAMES;
    case Not(n) => AbsentFlagsAreFalse(n, context);
    case And(left, right) =>
      PartsNameLess(NamesOf(left), NamesOf(right));
      AbsentFlagsAreFalse(left, context);
      AbsentFlagsAreFalse(right, context);
    case Or(left, right) =>
      PartsNameLess(NamesOf(left), NamesOf(right));
      AbsentFlagsAreFalse(left, context);
      AbsentFlagsAreFalse(right, context);
  }

  lemma PartsNameLess(xs: set<string>, ys: set<string>)
    ensures xs * INHERITED_NAMES <= (xs + ys) * INHERITED_NAMES
    ensures ys * INHERITED_NAMES <= (xs + ys) * INHERITED_NAMES
  {
  }

  ghost predicate TakesAbsentForFalse(node: Node, context: map<string, bool>) {
    Evaluate(node, context) == EvaluateAbsentFalse(node, context)
  }

  // Exactly: in a context every condition takes absent flags for false if and only if the context
  // itself holds every name that objects inherit.
  lemma AllAbsentFlagsAreFalseIff(context: map<string, bool>)
    ensures (forall node :: TakesAbsentForFalse(node, context)) <==> INHERITED_NAMES <= context.Keys
  {
    if INHERITED_NAMES <= context.Keys {
      forall node ensures TakesAbsentForFalse(node, context) {
        assert NamesOf(node) * INHERITED_NAMES <= INHERITED_NAMES;
        AbsentFlagsAreFalse(node, context);
      }
    } else {
      LiteralsAreNotInherited();
      var name :| name in INHERITED_NAMES && name !in context.Keys;
      assert !TakesAbsentForFalse(Name(name), context);
    }
  }
}
