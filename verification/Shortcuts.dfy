// Shortcut strings such as "mod+shift+k": parsing them and printing them canonically.
module Shortcuts {
  import opened Text

  datatype Shortcut = Shortcut(key: string, metaKey: bool, ctrlKey: bool, shiftKey: bool, altKey: bool, modKey: bool)

  datatype Rule = Rule(key: string, command: string, when: Option<string>)

  const MODIFIER_NAMES: set<string> := {"cmd", "meta", "ctrl", "control", "shift", "alt", "option", "mod"}

  function NormalizeKeyToken(token: string): string {
    if token == "space" then " " else if token == "esc" then "escape" else token
  }

  function TrimAll(parts: seq<string>): (r: seq<string>)
    ensures |r| == |parts| && forall i :: 0 <= i < |r| ==> r[i] == Trim(parts[i])
  {
    seq(|parts|, i requires 0 <= i < |parts| => Trim(parts[i]))
  }

  function DropTrailingEmpty(tokens: seq<string>): (r: seq<string>)
    ensures r <= tokens
    ensures r != [] ==> r[|r| - 1] != ""
    ensures forall i :: |r| <= i < |tokens| ==> tokens[i] == ""
    decreases |tokens|
  {
    if tokens != [] && tokens[|tokens| - 1] == "" then DropTrailingEmpty(tokens[..|tokens| - 1]) else tokens
  }

  // The tokens of a shortcut string; trailing empty ones stand for the plus key.
  function ShortcutTokens(value: string): seq<string> {
    var raw := TrimAll(Split(ToLower(value), '+'));
    var kept := DropTrailingEmpty(raw);
    if |kept| < |raw| then kept + ["+"] else kept
  }

  // Reads tokens one by one: modifiers set flags, and exactly one token is the key.
  function ReadTokens(tokens: seq<string>, key: Option<string>, flags: Shortcut): Option<Shortcut> {
    if tokens == [] then
      if key.None? then None else Some(flags.(key := key.value))
    else
      var token, rest := tokens[0], tokens[1..];
      if token == "cmd" || token == "meta" then ReadTokens(rest, key, flags.(metaKey := true))
      else if token == "ctrl" || token == "control" then ReadTokens(rest, key, flags.(ctrlKey := true))
      else if token == "shift" then ReadTokens(rest, key, flags.(shiftKey := true))
      else if token == "alt" || token == "option" then ReadTokens(rest, key, flags.(altKey := true))
      else if token == "mod" then ReadTokens(rest, key, flags.(modKey := true))
      else if key.Some? then None
      else ReadTokens(rest, Some(NormalizeKeyToken(token)), flags)
  }

  const NO_FLAGS := Shortcut("", false, false, false, false, false)

  function ParseShortcut(value: string): Option<Shortcut> {
    var tokens := ShortcutTokens(value);
    if "" in tokens then None else ReadTokens(tokens, None, NO_FLAGS)
  }

  method ParseKeybindingShortcut(value: string) returns (result: Option<Shortcut>)
    ensures result == ParseShortcut(value)
  {
    var tokens := TokensOf(value);
    if "" in tokens {
      return None;
    }
    var key: Option<string> := None;
    var metaKey, ctrlKey, shiftKey, altKey, modKey := false, false, false, false, false;
    var i := 0;
    while i < |tokens|
      invariant i <= |tokens|
      invariant ReadTokens(tokens, None, NO_FLAGS)
             == ReadTokens(tokens[i..], key, Shortcut("", metaKey, ctrlKey, shiftKey, altKey, modKey))
    {
      var token := tokens[i];
      assert tokens[i..][1..] == tokens[i + 1..];
      if token == "cmd" || token == "meta" {
        metaKey := true;
      } else if token == "ctrl" || token == "control" {
        ctrlKey := true;
      } else if token == "shift" {
        shiftKey := true;
      } else if token == "alt" || token == "option" {
        altKey := true;
      } else if token == "mod" {
        modKey := true;
      } else {
        if key.Some? {
          return None;
        }
        key := Some(NormalizeKeyToken(token));
      }
      i := i + 1;
    }
    if key.None? {
      return None;
    }
    return Some(Shortcut(key.value, metaKey, ctrlKey, shiftKey, altKey, modKey));
  }

  method TokensOf(value: string) returns (tokens: seq<string>)
    ensures tokens == ShortcutTokens(value)
  {
    var rawTokens := TrimAll(Split(ToLower(value), '+'));
    tokens := rawTokens;
    var trailingEmptyCount := 0;
    while |tokens| > 0 && tokens[|tokens| - 1] == ""
      invariant DropTrailingEmpty(tokens) == DropTrailingEmpty(rawTokens)
      invariant tokens <= rawTokens && trailingEmptyCount == |rawTokens| - |tokens|
    {
      trailingEmptyCount := trailingEmptyCount + 1;
      tokens := tokens[..|tokens| - 1];
    }
    if trailingEmptyCount > 0 {
      tokens := tokens + ["+"];
    }
  }

  function When(present: bool, name: string): seq<string> {
    if present then [name] else []
  }

  function Modifiers(s: Shortcut): seq<string> {
    When(s.modKey, "mod") +
        (When(s.metaKey, "meta") + (When(s.ctrlKey, "ctrl") + (When(s.altKey, "alt") + When(s.shiftKey, "shift"))))
  }

  function KeyToken(key: string): string {
    if key == " " then "space" else key
  }

  function EncodeShortcut(s: Shortcut): Option<string> {
    if s.key == "" then None
    else if s.key != "+" && '+' in s.key then None
    else Some(Join(Modifiers(s) + [KeyToken(s.key)], "+"))
  }

  // Every shortcut prints whose key is not empty and cannot be taken for several tokens.
  lemma PrintsIff(s: Shortcut)
    ensures EncodeShortcut(s).Some? <==>
              s.key == "+" || (s.key != "" && forall i :: 0 <= i < |s.key| ==> s.key[i] != '+')
  {
  }

  // Modifiers print in one order, before the key.
  lemma AllModifiersPrint(key: string)
    requires key != "" && key != " " && '+' !in key
    ensures EncodeShortcut(Shortcut(key, true, true, true, true, true)) ==
              Some(Join(["mod", "meta", "ctrl", "alt", "shift", key], "+"))
  {
    assert Modifiers(Shortcut(key, true, true, true, true, true)) + [key] ==
           ["mod", "meta", "ctrl", "alt", "shift", key];
  }

  // ---- The keys a parsed shortcut can hold ----

  predicate PlainKey(key: string) {
    key != "" && '+' !in key && IsLower(key) && key !in MODIFIER_NAMES
  }

  ghost predicate CanonicalKey(key: string) {
    key == "+" || key == " " || (PlainKey(key) && Trimmed(key) && key != "space" && key != "esc")
  }

  ghost predicate CleanToken(t: string) {
    t == "+" || (Trimmed(t) && IsLower(t) && '+' !in t)
  }

  lemma TokensAreClean(value: string)
    ensures forall t :: t in ShortcutTokens(value) ==> CleanToken(t)
  {
    var parts := Split(ToLower(value), '+');
    var raw := TrimAll(parts);
    SplitPartsAreClean(ToLower(value), '+');
    forall i | 0 <= i < |parts| ensures CleanToken(raw[i]) {
      assert parts[i] in parts;
      TrimIsTrimmed(parts[i]);
    }
    forall t | t in ShortcutTokens(value) ensures CleanToken(t) {
      if t != "+" {
        var i :| 0 <= i < |ShortcutTokens(value)| && ShortcutTokens(value)[i] == t;
        assert t == raw[i];
      }
    }
  }

  lemma {:induction false} KeyIsSomeToken(tokens: seq<string>, key: Option<string>, flags: Shortcut)
    requires ReadTokens(tokens, key, flags).Some?
    ensures var k := ReadTokens(tokens, key, flags).value.key;
            key == Some(k) || exists t :: t in tokens && t !in MODIFIER_NAMES && k == NormalizeKeyToken(t)
  {
    if tokens == [] {
    } else {
      var token, rest := tokens[0], tokens[1..];
      assert token in tokens && forall t :: t in rest ==> t in tokens;
      if token == "cmd" || token == "meta" { KeyIsSomeToken(rest, key, flags.(metaKey := true)); }
      else if token == "ctrl" || token == "control" { KeyIsSomeToken(rest, key, flags.(ctrlKey := true)); }
      else if token == "shift" { KeyIsSomeToken(rest, key, flags.(shiftKey := true)); }
      else if token == "alt" || token == "option" { KeyIsSomeToken(rest, key, flags.(altKey := true)); }
      else if token == "mod" { KeyIsSomeToken(rest, key, flags.(modKey := true)); }
      else { KeyIsSomeToken(rest, Some(NormalizeKeyToken(token)), flags); }
    }
  }

  lemma ParsedKeyIsCanonical(value: string)
    requires ParseShortcut(value).Some?
    ensures CanonicalKey(ParseShortcut(value).value.key)
  {
    var tokens := ShortcutTokens(value);
    TokensAreClean(value);
    KeyIsSomeToken(tokens, None, NO_FLAGS);
    var t :| t in tokens && t !in MODIFIER_NAMES && ParseShortcut(value).value.key == NormalizeKeyToken(t);
    NormalizedIsCanonical(t);
  }

  lemma NormalizedIsCanonical(t: string)
    requires CleanToken(t) && t != "" && t !in MODIFIER_NAMES
    ensures CanonicalKey(NormalizeKeyToken(t))
  {
    var e := "escape";
    assert PlainKey(e) && Trimmed(e) && e != "space" && e != "esc";
  }

  // ---- What a list of tokens means ----

  function KeyTokens(tokens: seq<string>): seq<string> {
    if tokens == [] then []
    else (if tokens[0] in MODIFIER_NAMES then [] else [tokens[0]]) + KeyTokens(tokens[1..])
  }

  // The shortcut for a key, with the modifiers that occur among the tokens under any of their names.
  function Meant(tokens: seq<string>, key: string): Shortcut {
    Shortcut(key,
             "cmd" in tokens || "meta" in tokens,
             "ctrl" in tokens || "control" in tokens,
             "shift" in tokens,
             "alt" in tokens || "option" in tokens,
             "mod" in tokens)
  }

  function Joined(a: Shortcut, b: Shortcut): Shortcut {
    Shortcut(b.key, a.metaKey || b.metaKey, a.ctrlKey || b.ctrlKey, a.shiftKey || b.shiftKey, a.altKey || b.altKey,
             a.modKey || b.modKey)
  }

  // Flags are collected from all tokens, and there is one key, the one already found or a token.
  ghost predicate ReadsAs(tokens: seq<string>, key: Option<string>, flags: Shortcut) {
    var keys := KeyTokens(tokens);
    ReadTokens(tokens, key, flags) ==
      if key.Some? && keys == [] then Some(Joined(flags, Meant(tokens, key.value)))
      else if key.None? && |keys| == 1 then Some(Joined(flags, Meant(tokens, NormalizeKeyToken(keys[0]))))
      else None
  }

  lemma MeantOfCons(tokens: seq<string>, key: string)
    requires tokens != []
    ensures Meant(tokens, key) == Joined(Meant([tokens[0]], key), Meant(tokens[1..], key))
  {
    assert tokens == [tokens[0]] + tokens[1..];
  }

  lemma ModifierIsRead(tokens: seq<string>, key: Option<string>, flags: Shortcut)
    requires tokens != [] && tokens[0] in MODIFIER_NAMES
    ensures ReadTokens(tokens, key, flags) == ReadTokens(tokens[1..], key, Joined(flags, Meant([tokens[0]], flags.key)))
  {
  }

  lemma JoinedAll(a: Shortcut, b: Shortcut, c: Shortcut)
    ensures Joined(Joined(a, b), c) == Joined(a, Joined(b, c))
  {
  }

  lemma {:induction false} TokensAreRead(tokens: seq<string>, key: Option<string>, flags: Shortcut)
    ensures ReadsAs(tokens, key, flags)
    decreases |tokens|
  {
    if tokens == [] {
    } else if tokens[0] in MODIFIER_NAMES {
      ModifierReads(tokens, key, flags);
    } else {
      KeyReads(tokens, key, flags);
    }
  }

  lemma {:induction false} ModifierReads(tokens: seq<string>, key: Option<string>, flags: Shortcut)
    requires tokens != [] && tokens[0] in MODIFIER_NAMES
    ensures ReadsAs(tokens, key, flags)
    decreases |tokens|, 0
  {
    var first, rest := Meant([tokens[0]], flags.key), tokens[1..];
    var keys := KeyTokens(rest);
    ModifierIsRead(tokens, key, flags);
    TokensAreRead(rest, key, Joined(flags, first));
    assert KeyTokens(tokens) == keys;
    var k := if key.Some? then key.value else if keys != [] then NormalizeKeyToken(keys[0]) else "";
    MeantOfCons(tokens, k);
    JoinedAll(flags, first, Meant(rest, k));
  }

  lemma {:induction false} KeyReads(tokens: seq<string>, key: Option<string>, flags: Shortcut)
    requires tokens != [] && tokens[0] !in MODIFIER_NAMES
    ensures ReadsAs(tokens, key, flags)
    decreases |tokens|, 0
  {
    var token, rest := tokens[0], tokens[1..];
    assert KeyTokens(tokens) == [token] + KeyTokens(rest);
    if key.None? {
      KeyIsRead(tokens, flags);
      TokensAreRead(rest, Some(NormalizeKeyToken(token)), flags);
      MeantOfCons(tokens, NormalizeKeyToken(token));
      KeyMeansNoFlag(token, NormalizeKeyToken(token));
    }
  }

  lemma KeyIsRead(tokens: seq<string>, flags: Shortcut)
    requires tokens != [] && tokens[0] !in MODIFIER_NAMES
    ensures ReadTokens(tokens, None, flags) == ReadTokens(tokens[1..], Some(NormalizeKeyToken(tokens[0])), flags)
  {
  }

  lemma KeyMeansNoFlag(token: string, key: string)
    requires token !in MODIFIER_NAMES
    ensures Meant([token], key) == Shortcut(key, false, false, false, false, false)
  {
  }

  // A shortcut parses exactly if no token is empty and one of them is no modifier, and then means that key
  // with all the modifiers named.
  lemma ParsesIffOneKey(value: string)
    ensures var tokens := ShortcutTokens(value);
            var keys := KeyTokens(tokens);
            ParseShortcut(value) ==
              if "" !in tokens && |keys| == 1 then Some(Meant(tokens, NormalizeKeyToken(keys[0]))) else None
  {
    TokensAreRead(ShortcutTokens(value), None, NO_FLAGS);
  }

  // ---- Reading a canonical spelling back ----

  lemma ReadModifier(present: bool, name: string, rest: seq<string>, flags: Shortcut)
    requires name in {"mod", "meta", "ctrl", "alt", "shift"}
    ensures ReadTokens(When(present, name) + rest, None, flags)
         == ReadTokens(rest, None, if !present then flags
                                   else if name == "mod" then flags.(modKey := true)
                                   else if name == "meta" then flags.(metaKey := true)
                                   else if name == "ctrl" then flags.(ctrlKey := true)
                                   else if name == "alt" then flags.(altKey := true)
                                   else flags.(shiftKey := true))
  {
    if present {
      assert ([name] + rest)[1..] == rest;
    } else {
      assert [] + rest == rest;
    }
  }

  lemma ReadCanonical(s: Shortcut, token: string)
    requires token !in MODIFIER_NAMES && NormalizeKeyToken(token) == s.key
    ensures ReadTokens(Modifiers(s) + [token], None, NO_FLAGS) == Some(s)
  {
    var shift := When(s.shiftKey, "shift") + [token];
    var alt := When(s.altKey, "alt") + shift;
    var ctrl := When(s.ctrlKey, "ctrl") + alt;
    var meta := When(s.metaKey, "meta") + ctrl;
    var f0 := NO_FLAGS;
    var f1 := f0.(modKey := s.modKey);
    var f2 := f1.(metaKey := s.metaKey);
    var f3 := f2.(ctrlKey := s.ctrlKey);
    var f4 := f3.(altKey := s.altKey);
    var f5 := f4.(shiftKey := s.shiftKey);
    assert Modifiers(s) + [token] == When(s.modKey, "mod") + meta;
    ReadModifier(s.modKey, "mod", meta, f0);
    ReadModifier(s.metaKey, "meta", ctrl, f1);
    ReadModifier(s.ctrlKey, "ctrl", alt, f2);
    ReadModifier(s.altKey, "alt", shift, f3);
    ReadModifier(s.shiftKey, "shift", [token], f4);
    ReadKey(token, f5);
  }

  lemma ReadKey(token: string, flags: Shortcut)
    requires token !in MODIFIER_NAMES
    ensures ReadTokens([token], None, flags) == Some(flags.(key := NormalizeKeyToken(token)))
  {
    assert [token][1..] == [];
  }

  lemma ModifiersAreClean(s: Shortcut)
    ensures forall m :: m in Modifiers(s) ==> CleanPart(m) && m != ""
  {
    forall m | m in Modifiers(s) ensures CleanPart(m) && m != "" {
      NameIsClean(m);
    }
  }

  ghost predicate CleanPart(p: string) {
    '+' !in p && IsLower(p) && Trimmed(p)
  }

  lemma NameIsClean(m: string)
    requires m in {"mod", "meta", "ctrl", "alt", "shift", "space"}
    ensures CleanPart(m) && m != ""
  {
  }

  lemma {:induction false} JoinIsLower(parts: seq<string>)
    requires forall p :: p in parts ==> IsLower(p)
    ensures IsLower(Join(parts, "+"))
  {
    if parts == [] {
    } else {
      assert parts[0] in parts;
      if |parts| > 1 {
        JoinIsLower(parts[1..]);
        assert IsLower(parts[0] + "+");
      }
    }
  }

  // The plus key leaves an empty part on either side of it.
  lemma {:induction false} JoinPlusKey(mods: seq<string>)
    ensures Join(mods + ["+"], "+") == Join(mods + ["", ""], "+")
  {
    if mods == [] {
      assert mods + ["+"] == ["+"];
      assert mods + ["", ""] == ["", ""];
      assert ["", ""][1..] == [""];
    } else {
      assert (mods + ["+"])[1..] == mods[1..] + ["+"];
      assert (mods + ["", ""])[1..] == mods[1..] + ["", ""];
      JoinPlusKey(mods[1..]);
    }
  }

  // The raw tokens of a joined list of clean parts are those parts.
  lemma RawTokensOfJoin(parts: seq<string>)
    requires parts != [] && forall p :: p in parts ==> CleanPart(p)
    ensures TrimAll(Split(ToLower(Join(parts, "+")), '+')) == parts
  {
    JoinIsLower(parts);
    LowerOfLower(Join(parts, "+"));
    SplitOfJoin(parts, '+');
    forall i | 0 <= i < |parts| ensures Trim(parts[i]) == parts[i] {
      assert parts[i] in parts;
      TrimOfTrimmed(parts[i]);
    }
  }

  lemma TokensOfJoin(mods: seq<string>, token: string)
    requires forall m :: m in mods ==> CleanPart(m) && m != ""
    requires token == "+" || (CleanPart(token) && token != "")
    ensures ShortcutTokens(Join(mods + [token], "+")) == mods + [token]
  {
    if token == "+" {
      JoinPlusKey(mods);
      RawTokensOfJoin(mods + ["", ""]);
      DropTwoEmpty(mods);
    } else {
      RawTokensOfJoin(mods + [token]);
    }
  }

  lemma ParseOfJoin(mods: seq<string>, token: string)
    requires forall m :: m in mods ==> CleanPart(m) && m != ""
    requires token == "+" || (CleanPart(token) && token != "")
    ensures ParseShortcut(Join(mods + [token], "+")) == ReadTokens(mods + [token], None, NO_FLAGS)
  {
    TokensOfJoin(mods, token);
    assert "" !in mods + [token];
  }

  lemma DropTwoEmpty(mods: seq<string>)
    requires "" !in mods
    ensures DropTrailingEmpty(mods + ["", ""]) == mods
  {
    assert (mods + ["", ""])[..|mods| + 1] == mods + [""];
    assert (mods + [""])[..|mods|] == mods;
    assert mods != [] ==> mods[|mods| - 1] in mods;
  }

  lemma CanonicalReparses(s: Shortcut)
    requires CanonicalKey(s.key)
    ensures EncodeShortcut(s).Some? && ParseShortcut(EncodeShortcut(s).value) == Some(s)
  {
    KeyTokenIsClean(s.key);
    ModifiersAreClean(s);
    ParseOfJoin(Modifiers(s), KeyToken(s.key));
    ReadCanonical(s, KeyToken(s.key));
  }

  lemma KeyTokenIsClean(key: string)
    requires CanonicalKey(key)
    ensures key != "" && (key == "+" || '+' !in key)
    ensures var t := KeyToken(key);
            && t !in MODIFIER_NAMES && NormalizeKeyToken(t) == key && t != ""
            && (t == "+" || CleanPart(t))
  {
    NameIsClean("space");
  }

  // A shortcut survives printing and parsing exactly when it is one that parsing can produce.
  lemma CanonicalIffReparses(s: Shortcut)
    ensures CanonicalKey(s.key) <==>
            EncodeShortcut(s).Some? && ParseShortcut(EncodeShortcut(s).value) == Some(s)
  {
    if CanonicalKey(s.key) {
      CanonicalReparses(s);
    }
    if EncodeShortcut(s).Some? && ParseShortcut(EncodeShortcut(s).value) == Some(s) {
      ParsedKeyIsCanonical(EncodeShortcut(s).value);
    }
  }

  // Whatever spelling a shortcut was written in, its canonical spelling denotes the same shortcut.
  lemma ParsedShortcutRoundTrips(value: string)
    requires ParseShortcut(value).Some?
    ensures var s := ParseShortcut(value).value;
            EncodeShortcut(s).Some? && ParseShortcut(EncodeShortcut(s).value) == Some(s)
  {
    ParsedKeyIsCanonical(value);
    CanonicalIffReparses(ParseShortcut(value).value);
  }

  // ---- Which rules share a shortcut context ----

  function WhenText(rule: Rule): string {
    match rule.when
    case None => ""
    case Some(text) => text
  }

  function ShortcutContext(rule: Rule): Option<string> {
    var parsed := ParseShortcut(rule.key);
    if parsed.None? then None
    else
      var encoded := EncodeShortcut(parsed.value);
      if encoded.None? then None else Some(encoded.value + ("\0" + WhenText(rule)))
  }

  predicate HasSameShortcutContext(left: Rule, right: Rule) {
    ShortcutContext(left).Some? && ShortcutContext(right).Some? && ShortcutContext(left) == ShortcutContext(right)
  }

  // As long as no condition text holds a NUL, two rules share a context exactly when they denote
  // the same shortcut under the same condition text, however the shortcut is spelled.
  lemma SameContextIffSameShortcut(left: Rule, right: Rule)
    requires '\0' !in WhenText(left) && '\0' !in WhenText(right)
    ensures HasSameShortcutContext(left, right) <==>
            && ParseShortcut(left.key).Some?
            && ParseShortcut(left.key) == ParseShortcut(right.key)
            && WhenText(left) == WhenText(right)
  {
    var l, r := ParseShortcut(left.key), ParseShortcut(right.key);
    if l.Some? && r.Some? {
      ParsedKeyIsCanonical(left.key);
      ParsedKeyIsCanonical(right.key);
      ContextsAreInjective(l.value, r.value, WhenText(left), WhenText(right));
    }
  }

  // One key text goes on behind a NUL with what the other condition text begins with.
  ghost predicate Shifted(key: string, when: string, otherKey: string, otherWhen: string) {
    exists x :: key == otherKey + ("\0" + x) && otherWhen == x + ("\0" + when)
  }

  lemma JoinedIff(key: string, when: string, otherKey: string, otherWhen: string)
    ensures key + ("\0" + when) == otherKey + ("\0" + otherWhen) <==>
            || (key == otherKey && when == otherWhen)
            || Shifted(key, when, otherKey, otherWhen)
            || Shifted(otherKey, otherWhen, key, when)
  {
    if key + ("\0" + when) == otherKey + ("\0" + otherWhen) {
      if |key| > |otherKey| {
        LongerKeyIsShifted(key, when, otherKey, otherWhen);
      } else if |key| < |otherKey| {
        LongerKeyIsShifted(otherKey, otherWhen, key, when);
      } else {
        var s := key + ("\0" + when);
        assert s[..|key|] == key && s[..|key|] == otherKey;
        assert s[|key| + 1..] == when && s[|key| + 1..] == otherWhen;
      }
    }
    if Shifted(key, when, otherKey, otherWhen) {
      var x :| key == otherKey + ("\0" + x) && otherWhen == x + ("\0" + when);
      CutsAgree(otherKey, x, when);
    }
    if Shifted(otherKey, otherWhen, key, when) {
      var x :| otherKey == key + ("\0" + x) && when == x + ("\0" + otherWhen);
      CutsAgree(key, x, otherWhen);
    }
  }

  lemma LongerKeyIsShifted(key: string, when: string, otherKey: string, otherWhen: string)
    requires key + ("\0" + when) == otherKey + ("\0" + otherWhen) && |key| > |otherKey|
    ensures Shifted(key, when, otherKey, otherWhen)
  {
    var s, n := key + ("\0" + when), |otherKey|;
    var x := key[n + 1..];
    assert s[..n] == otherKey && s[n] == '\0' && key[..n] == s[..n] && key[n] == s[n];
    assert key == key[..n] + ([key[n]] + x);
    assert s[n + 1..] == otherWhen && s[n + 1..] == x + ("\0" + when);
  }

  ghost function KeyText(s: Shortcut): string {
    if EncodeShortcut(s).Some? then EncodeShortcut(s).value else ""
  }

  lemma ContextOfRule(rule: Rule)
    requires ParseShortcut(rule.key).Some?
    ensures ShortcutContext(rule) == Some(KeyText(ParseShortcut(rule.key).value) + ("\0" + WhenText(rule)))
  {
    ParsedShortcutRoundTrips(rule.key);
  }

  lemma KeyTextDeterminesShortcut(l: string, r: string)
    requires ParseShortcut(l).Some? && ParseShortcut(r).Some?
    requires KeyText(ParseShortcut(l).value) == KeyText(ParseShortcut(r).value)
    ensures ParseShortcut(l) == ParseShortcut(r)
  {
    ParsedShortcutRoundTrips(l);
    ParsedShortcutRoundTrips(r);
  }

  // For all rules: two share a context exactly when both keys parse and either they denote the same
  // shortcut under the same condition text, or one printed key holds a NUL and goes on with the
  // beginning of the other's condition.
  lemma SameContextIff(left: Rule, right: Rule)
    ensures HasSameShortcutContext(left, right) <==>
            && ParseShortcut(left.key).Some? && ParseShortcut(right.key).Some?
            && SameOrShifted(ParseShortcut(left.key).value, WhenText(left), ParseShortcut(right.key).value,
                  WhenText(right))
  {
    if ParseShortcut(left.key).Some? && ParseShortcut(right.key).Some? {
      ContextOfRule(left);
      ContextOfRule(right);
      var l, r := ParseShortcut(left.key).value, ParseShortcut(right.key).value;
      JoinedIff(KeyText(l), WhenText(left), KeyText(r), WhenText(right));
      if KeyText(l) == KeyText(r) {
        KeyTextDeterminesShortcut(left.key, right.key);
      }
    }
  }

  ghost predicate SameOrShifted(l: Shortcut, when: string, r: Shortcut, otherWhen: string) {
    || (l == r && when == otherWhen)
    || Shifted(KeyText(l), when, KeyText(r), otherWhen)
    || Shifted(KeyText(r), otherWhen, KeyText(l), when)
  }

  lemma ContextsAreInjective(l: Shortcut, r: Shortcut, x: string, y: string)
    requires CanonicalKey(l.key) && CanonicalKey(r.key) && '\0' !in x && '\0' !in y
    ensures EncodeShortcut(l).Some? && EncodeShortcut(r).Some?
    ensures EncodeShortcut(l).value + ("\0" + x) == EncodeShortcut(r).value + ("\0" + y) <==> l == r && x == y
  {
    CanonicalReparses(l);
    CanonicalReparses(r);
    var a, b := EncodeShortcut(l).value, EncodeShortcut(r).value;
    if a + ("\0" + x) == b + ("\0" + y) {
      CutAtLast(a, b, x, y, '\0');
    }
  }

  // With a NUL in a condition text, different shortcuts can share a context.
  lemma NulConfusesContexts(a: string, b: string, c: string)
    requires PlainKey(a) && Trimmed(a) && a != "space" && a != "esc"
    requires IsLower(b) && '+' !in b && Trimmed(b)
    ensures var left := Rule(a + ("\0" + b), "x", Some(c));
            var right := Rule(a, "x", Some(b + ("\0" + c)));
            HasSameShortcutContext(left, right) && ParseShortcut(left.key) != ParseShortcut(right.key)
  {
    var longKey := a + ("\0" + b);
    NulKeyIsCanonical(a, b);
    BareKeyContext(longKey, "x", Some(c));
    BareKeyContext(a, "x", Some(b + ("\0" + c)));
    CutsAgree(a, b, c);
    assert |longKey| != |a|;
  }

  lemma CutsAgree(a: string, b: string, c: string)
    ensures (a + ("\0" + b)) + ("\0" + c) == a + ("\0" + (b + ("\0" + c)))
  {
  }

  lemma BareKeyContext(key: string, command: string, when: Option<string>)
    requires CanonicalKey(key) && key != " "
    ensures var rule := Rule(key, command, when);
            ShortcutContext(rule) == Some(key + ("\0" + WhenText(rule)))
    ensures ParseShortcut(key) == Some(NO_FLAGS.(key := key))
  {
    BareKeyEncodes(key);
  }

  // A key without modifiers is its own spelling.
  lemma BareKeyEncodes(key: string)
    requires CanonicalKey(key) && key != " "
    ensures ParseShortcut(key) == Some(NO_FLAGS.(key := key))
    ensures EncodeShortcut(NO_FLAGS.(key := key)) == Some(key)
  {
    var s := NO_FLAGS.(key := key);
    assert Modifiers(s) + [key] == [key];
    CanonicalReparses(s);
  }

  lemma NulKeyIsCanonical(a: string, b: string)
    requires PlainKey(a) && Trimmed(a)
    requires IsLower(b) && '+' !in b && Trimmed(b)
    ensures CanonicalKey(a + ("\0" + b)) && |a + ("\0" + b)| > |a| && a + ("\0" + b) != " "
  {
    var key := a + ("\0" + b);
    assert key[|a|] == '\0';
    assert '\0' in key;
    assert forall name :: name in MODIFIER_NAMES ==> '\0' !in name;
    assert '\0' !in "space" && '\0' !in "esc";
  }
}
