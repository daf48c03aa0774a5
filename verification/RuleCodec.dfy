// Keybinding rules as the configuration holds them: reading one, writing one, and when a rule survives
// both.
module RuleCodec {
  import opened Text
  import opened When
  import opened WhenGrammar
  import opened WhenLexer
  import opened WhenPrinter
  import opened Shortcuts
  import opened Resolver

  const MAX_KEYBINDING_VALUE_LENGTH: nat := 64
  const MAX_KEYBINDING_WHEN_LENGTH: nat := 256

  function CompileRule(rule: Rule): Option<Binding> {
    var shortcut := ParseShortcut(rule.key);
    if shortcut.None? then None
    else
      match rule.when
      case None => Some(Binding(rule.command, shortcut.value, None))
      case Some(text) =>
        var node := ParseWhen(text);
        if node.None? then None else Some(Binding(rule.command, shortcut.value, node))
  }

  lemma {:induction false} TokenizableHasNoNul(s: string)
    requires Tokenize(s).Some?
    ensures '\0' !in s
    decreases |s|
  {
    if s == "" {
    } else {
      assert s == [s[0]] + s[1..];
      if IsSpace(s[0]) || s[0] in "!()" {
        TokenizableHasNoNul(s[1..]);
      } else if "&&" <= s || "||" <= s {
        assert s == s[..2] + s[2..] && s[1] == s[0];
        TokenizableHasNoNul(s[2..]);
      } else {
        var n := IdentifierRun(s);
        TokenizableHasNoNul(s[n..]);
        assert s == s[..n] + s[n..];
        assert '\0' !in s[..n];
      }
    }
  }

  // Two rules that load share a context exactly when they denote the same shortcut under the same
  // condition text; a condition text that loads cannot hold the separator of a context.
  lemma LoadedRulesShareContextIff(left: Rule, right: Rule)
    requires CompileRule(left).Some? && CompileRule(right).Some?
    ensures HasSameShortcutContext(left, right) <==>
            CompileRule(left).value.shortcut == CompileRule(right).value.shortcut && WhenText(left) == WhenText(right)
    ensures HasSameShortcutContext(left, right) && left.when.Some? && right.when.Some? ==>
            CompileRule(left).value.when == CompileRule(right).value.when
  {
    if left.when.Some? {
      TokenizableHasNoNul(left.when.value);
    }
    if right.when.Some? {
      TokenizableHasNoNul(right.when.value);
    }
    SameContextIffSameShortcut(left, right);
  }

  // ---- Reading and writing within the length bounds ----

  predicate FitsLength(text: string, max: nat) {
    1 <= |text| <= max
  }

  // The schema trims both texts and bounds their lengths before the rule is compiled.
  function DecodeRule(rule: Rule): Option<Binding> {
    var key := Trim(rule.key);
    if !FitsLength(key, MAX_KEYBINDING_VALUE_LENGTH) then None
    else
      match rule.when
      case None => CompileRule(Rule(key, rule.command, None))
      case Some(text) =>
        var trimmed := Trim(text);
        if !FitsLength(trimmed, MAX_KEYBINDING_WHEN_LENGTH) then None
        else CompileRule(Rule(key, rule.command, Some(trimmed)))
  }

  function EncodeRule(b: Binding): Option<Rule> {
    var key := EncodeShortcut(b.shortcut);
    if key.None? || !FitsLength(key.value, MAX_KEYBINDING_VALUE_LENGTH) then None
    else
      match b.when
      case None => Some(Rule(key.value, b.command, None))
      case Some(node) =>
        if !FitsLength(Encode(node), MAX_KEYBINDING_WHEN_LENGTH) then None
        else Some(Rule(key.value, b.command, Some(Encode(node))))
  }

  // The text, without the white space around it, is as long as the schema allows and spells tokens that
  // derive the condition within the bounds.
  ghost predicate Denotes(text: string, node: Node) {
    1 <= |Trim(text)| <= 256 && exists ts, o :: Spells(Trim(text), ts) && Derives(o, ts, node)
  }

  // The text, likewise, names one key and any modifiers, and no token of it is empty.
  ghost predicate Names(text: string, shortcut: Shortcut) {
    var tokens := ShortcutTokens(Trim(text));
    && 1 <= |Trim(text)| <= 64 && "" !in tokens && |KeyTokens(tokens)| == 1
    && shortcut == Meant(tokens, NormalizeKeyToken(KeyTokens(tokens)[0]))
  }

  // Which rules load, and as what.
  lemma LoadsIff(rule: Rule, b: Binding)
    ensures DecodeRule(rule) == Some(b) <==>
              && Names(rule.key, b.shortcut) && b.command == rule.command
              && (rule.when.None? ==> b.when.None?)
              && (rule.when.Some? ==> b.when.Some? && Denotes(rule.when.value, b.when.value))
  {
    ParsesIffOneKey(Trim(rule.key));
    if rule.when.Some? && b.when.Some? {
      ConditionIsReadIff(Trim(rule.when.value), b.when.value);
    }
  }

  // ---- Printed texts are trimmed ----

  lemma {:induction false} JoinIsTrimmed(parts: seq<string>)
    requires parts != [] && forall i :: 0 <= i < |parts| ==> parts[i] != "" && Trimmed(parts[i])
    ensures Join(parts, "+") != "" && Trimmed(Join(parts, "+")) && Join(parts, "+")[0] == parts[0][0]
  {
    if |parts| == 1 {
    } else {
      JoinIsTrimmed(parts[1..]);
      var rest := Join(parts[1..], "+");
      var whole := parts[0] + "+" + rest;
      assert whole[|whole| - 1] == rest[|rest| - 1];
    }
  }

  lemma ShortcutTextIsTrimmed(s: Shortcut)
    requires CanonicalKey(s.key)
    ensures EncodeShortcut(s).Some? && Trim(EncodeShortcut(s).value) == EncodeShortcut(s).value
    ensures EncodeShortcut(s).value != ""
  {
    KeyTokenIsClean(s.key);
    ModifiersAreClean(s);
    var parts := Modifiers(s) + [KeyToken(s.key)];
    assert forall i :: 0 <= i < |Modifiers(s)| ==> Modifiers(s)[i] in Modifiers(s);
    JoinIsTrimmed(parts);
    TrimOfTrimmed(EncodeShortcut(s).value);
  }

  lemma ConditionTextIsTrimmed(node: Node)
    requires Legal(node)
    ensures Encode(node) != "" && Trim(Encode(node)) == Encode(node)
  {
    var s := Encode(node);
    match node
    case Name(name) =>
      assert name[0] in name && name[|name| - 1] in name;
      TrimOfTrimmed(s);
    case _ =>
      assert s != "" && s[|s| - 1] == ')' && s[0] in "!(";
      TrimOfTrimmed(s);
  }

  // ---- Which rules survive ----

  // What a caller can check of a binding before writing it.
  ghost predicate Writable(b: Binding) {
    && EncodeShortcut(b.shortcut).Some? && |EncodeShortcut(b.shortcut).value| <= MAX_KEYBINDING_VALUE_LENGTH
    && (b.when.Some? ==> |Encode(b.when.value)| <= MAX_KEYBINDING_WHEN_LENGTH)
  }

  ghost predicate Shallow(b: Binding) {
    b.when.Some? ==> Height(b.when.value) <= MAX_WHEN_EXPRESSION_DEPTH
  }

  lemma LoadedBindingIsLegal(rule: Rule)
    requires DecodeRule(rule).Some?
    ensures var b := DecodeRule(rule).value;
            CanonicalKey(b.shortcut.key) && (b.when.Some? ==> Legal(b.when.value)) && b.command == rule.command
  {
    ParsedKeyIsCanonical(Trim(rule.key));
    if rule.when.Some? {
      ParsedConditionIsLegal(Trim(rule.when.value));
    }
  }

  lemma WrittenReadsBackIff(b: Binding)
    requires CanonicalKey(b.shortcut.key) && (b.when.Some? ==> Legal(b.when.value))
    ensures EncodeRule(b).Some? <==> Writable(b)
    ensures Writable(b) ==> DecodeRule(EncodeRule(b).value) == if Shallow(b) then Some(b) else None
  {
    ShortcutTextIsTrimmed(b.shortcut);
    CanonicalReparses(b.shortcut);
    if b.when.Some? {
      ConditionTextIsTrimmed(b.when.value);
      RoundTripIffShallow(b.when.value);
    }
  }

  // A rule that loads can be written exactly if its canonical key text has at most 64 characters and
  // its printed condition at most 256, and the written rule then loads as the same binding exactly if
  // its condition is also at most 64 high. Otherwise it does not load at all.
  lemma LoadedRuleSurvivesIff(rule: Rule)
    requires DecodeRule(rule).Some?
    ensures var b := DecodeRule(rule).value;
            && (EncodeRule(b).Some? <==> Writable(b))
            && (Writable(b) ==> DecodeRule(EncodeRule(b).value) == if Shallow(b) then Some(b) else None)
  {
    LoadedBindingIsLegal(rule);
    WrittenReadsBackIff(DecodeRule(rule).value);
  }

  // ---- Long chains ----

  lemma {:induction false} ChainLengths(name: string, n: nat)
    ensures |ChainText(name, n)| == |name| * (n + 1) + 2 * n
    ensures |Encode(AndAst(Chain(name, n)))| == |name| * (n + 1) + 6 * n
  {
    assert UnaryAst(Unary(0, Ident(name))) == Name(name);
    if n == 0 {
    } else {
      ChainLengths(name, n - 1);
      assert |name| * (n + 1) == |name| * n + |name|;
    }
  }

  lemma ChainTextIsTrimmed(name: string, n: nat)
    requires IsIdentifier(name)
    ensures Trim(ChainText(name, n)) == ChainText(name, n)
  {
    ChainEnds(name, n);
    assert name[0] in name && name[|name| - 1] in name;
    TrimOfTrimmed(ChainText(name, n));
  }

  lemma {:induction false} ChainEnds(name: string, n: nat)
    requires name != ""
    ensures var s := ChainText(name, n); s != "" && s[0] == name[0] && s[|s| - 1] == name[|name| - 1]
  {
    if n == 0 {
    } else {
      ChainEnds(name, n - 1);
    }
  }

  // A flat chain of n operators over one name loads exactly while its own text is short enough, and
  // survives exactly while its printed text is: one level per operator is what it loses by.
  lemma ChainSurvivesIffShort(key: string, command: string, name: string, n: nat)
    requires CanonicalKey(key) && key != " " && |key| <= MAX_KEYBINDING_VALUE_LENGTH && IsIdentifier(name)
    ensures var rule := Rule(key, command, Some(ChainText(name, n)));
            var loaded := DecodeRule(rule);
            && (loaded.Some? <==> |name| * (n + 1) + 2 * n <= MAX_KEYBINDING_WHEN_LENGTH)
            && (loaded.Some? ==> (EncodeRule(loaded.value).Some? && DecodeRule(EncodeRule(loaded.value).value) == loaded
                                  <==> |name| * (n + 1) + 6 * n <= MAX_KEYBINDING_WHEN_LENGTH))
  {
    var rule := Rule(key, command, Some(ChainText(name, n)));
    BareKeyEncodes(key);
    ShortcutTextIsTrimmed(NO_FLAGS.(key := key));
    ChainTextIsTrimmed(name, n);
    ChainLengths(name, n);
    ChainReads(name, n);
    ChainShape(name, n);
    if DecodeRule(rule).Some? {
      LoadedRuleSurvivesIff(rule);
    }
  }
}
