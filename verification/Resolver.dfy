// Which command a key press runs, and which shortcut is shown for a command.
module Resolver {
  import opened Text
  import opened When
  import opened Shortcuts

  datatype Binding = Binding(command: string, shortcut: Shortcut, when: Option<Node>)

  datatype KeyEvent = KeyEvent(
    key: string, code: Option<string>, metaKey: bool, ctrlKey: bool, shiftKey: bool, altKey: bool)

  const MAX_KEYBINDINGS_COUNT: nat := 256

  const EVENT_CODE_KEY_ALIASES: map<string, string> := map[
    "BracketLeft" := "[", "BracketRight" := "]", "Digit0" := "0", "Digit1" := "1", "Digit2" := "2",
    "Digit3" := "3", "Digit4" := "4", "Digit5" := "5", "Digit6" := "6", "Digit7" := "7",
    "Digit8" := "8", "Digit9" := "9"]

  function NormalizeEventKey(key: string): string {
    var normalized := ToLower(key);
    if normalized == "esc" then "escape" else normalized
  }

  function EventKeys(e: KeyEvent): set<string> {
    {NormalizeEventKey(e.key)} +
    if e.code.Some? && e.code.value in EVENT_CODE_KEY_ALIASES then {EVENT_CODE_KEY_ALIASES[e.code.value]} else {}
  }

  function ExpectedMeta(s: Shortcut, mac: bool): bool {
    s.metaKey || (s.modKey && mac)
  }

  function ExpectedCtrl(s: Shortcut, mac: bool): bool {
    s.ctrlKey || (s.modKey && !mac)
  }

  predicate MatchesModifiers(e: KeyEvent, s: Shortcut, mac: bool) {
    && e.metaKey == ExpectedMeta(s, mac)
    && e.ctrlKey == ExpectedCtrl(s, mac)
    && e.shiftKey == s.shiftKey
    && e.altKey == s.altKey
  }

  predicate Matches(e: KeyEvent, s: Shortcut, mac: bool) {
    MatchesModifiers(e, s, mac) && s.key in EventKeys(e)
  }

  predicate Active(b: Binding, context: map<string, bool>) {
    b.when.Some? ==> Evaluate(b.when.value, context)
  }

  function Tag(present: bool, name: string): string {
    if present then name else ""
  }

  function ConflictParts(s: Shortcut, mac: bool): seq<string> {
    [s.key,
     Tag(ExpectedMeta(s, mac), "meta"),
     Tag(ExpectedCtrl(s, mac), "ctrl"),
     Tag(s.shiftKey, "shift"),
     Tag(s.altKey, "alt")]
  }

  function ConflictKey(s: Shortcut, mac: bool): string {
    Join(ConflictParts(s, mac), "|")
  }

  // The last active binding that matches wins.
  function Resolve(bindings: seq<Binding>, e: KeyEvent, mac: bool, context: map<string, bool>): Option<string>
    decreases |bindings|
  {
    if bindings == [] then None
    else
      var last := bindings[|bindings| - 1];
      if Active(last, context) && Matches(e, last.shortcut, mac) then Some(last.command)
      else Resolve(bindings[..|bindings| - 1], e, mac, context)
  }

  method ResolveShortcutCommand(e: KeyEvent, bindings: seq<Binding>, mac: bool, context: map<string, bool>)
    returns (command: Option<string>)
    ensures command == Resolve(bindings, e, mac, context)
  {
    var index := |bindings|;
    assert bindings[..index] == bindings;
    while index > 0
      invariant 0 <= index <= |bindings|
      invariant Resolve(bindings, e, mac, context) == Resolve(bindings[..index], e, mac, context)
    {
      index := index - 1;
      var binding := bindings[index];
      assert bindings[..index + 1][..index] == bindings[..index];
      if !Active(binding, context) {
        continue;
      }
      if !Matches(e, binding.shortcut, mac) {
        continue;
      }
      return Some(binding.command);
    }
    return None;
  }

  // The last active binding of a command whose shortcut no later active binding has claimed.
  function Effective(
      bindings: seq<Binding>, command: string, claimed: set<string>, mac: bool, context: map<string, bool>)
    : Option<Shortcut>
    decreases |bindings|
  {
    if bindings == [] then None
    else
      var last, init := bindings[|bindings| - 1], bindings[..|bindings| - 1];
      var key := ConflictKey(last.shortcut, mac);
      if !Active(last, context) || key in claimed then Effective(init, command, claimed, mac, context)
      else if last.command == command then Some(last.shortcut)
      else Effective(init, command, claimed + {key}, mac, context)
  }

  function EffectiveShortcut(
      bindings: seq<Binding>, command: string, mac: bool, context: map<string, bool>): Option<Shortcut>
  {
    Effective(bindings, command, {}, mac, context)
  }

  method FindEffectiveShortcutForCommand(bindings: seq<Binding>, command: string, mac: bool, context: map<string, bool>)
    returns (shortcut: Option<Shortcut>)
    ensures shortcut == EffectiveShortcut(bindings, command, mac, context)
  {
    var claimed: set<string> := {};
    var index := |bindings|;
    assert bindings[..index] == bindings;
    while index > 0
      invariant 0 <= index <= |bindings|
      invariant EffectiveShortcut(bindings, command, mac, context)
             == Effective(bindings[..index], command, claimed, mac, context)
    {
      index := index - 1;
      var binding := bindings[index];
      assert bindings[..index + 1][..index] == bindings[..index];
      if !Active(binding, context) {
        continue;
      }
      var conflictKey := ConflictKey(binding.shortcut, mac);
      if conflictKey in claimed {
        continue;
      }
      claimed := claimed + {conflictKey};
      if binding.command == command {
        return Some(binding.shortcut);
      }
    }
    return None;
  }

  // ---- What a press matches ----

  // The platform's modifier is Command on a Mac and Control elsewhere, and nothing else is held.
  lemma ModIsThePlatformKey(e: KeyEvent, s: Shortcut, mac: bool)
    requires s.modKey && !s.metaKey && !s.ctrlKey
    ensures Matches(e, s, mac) <==>
              && (if mac then e.metaKey && !e.ctrlKey else e.ctrlKey && !e.metaKey)
              && (e.shiftKey <==> s.shiftKey) && (e.altKey <==> s.altKey)
              && s.key in EventKeys(e)
  {
  }

  // An event without a physical key matches a shortcut as the parser leaves it exactly if it holds the
  // modifiers the shortcut asks for on this platform and its key, in lower case, is the shortcut's; "esc" is
  // the escape key.
  lemma MatchesIff(e: KeyEvent, s: Shortcut, mac: bool)
    requires e.code.None? && CanonicalKey(s.key)
    ensures Matches(e, s, mac) <==>
              && (e.metaKey <==> s.metaKey || (mac && s.modKey)) && (e.ctrlKey <==> s.ctrlKey || (!mac && s.modKey))
              && (e.shiftKey <==> s.shiftKey) && (e.altKey <==> s.altKey)
              && (ToLower(e.key) == s.key || (ToLower(e.key) == "esc" && s.key == "escape"))
  {
  }

  // A bracket or a shifted digit is found under its own character, whatever character it produces.
  lemma BracketKeysMatch(key: string, s: Shortcut, mac: bool)
    requires s.key == "[" || s.key == "]"
    ensures var code := if s.key == "[" then "BracketLeft" else "BracketRight";
            Matches(Press(s, mac).(key := key, code := Some(code)), s, mac)
  {
    assert "BracketLeft" in EVENT_CODE_KEY_ALIASES && EVENT_CODE_KEY_ALIASES["BracketLeft"] == "[";
    assert "BracketRight" in EVENT_CODE_KEY_ALIASES && EVENT_CODE_KEY_ALIASES["BracketRight"] == "]";
  }

  lemma DigitKeysMatch(key: string, digit: char, s: Shortcut, mac: bool)
    requires IsDigit(digit) && s.key == [digit]
    ensures Matches(Press(s, mac).(key := key, code := Some("Digit" + [digit])), s, mac)
  {
    var code := "Digit" + [digit];
    assert |code| == 6 && code[5] == digit;
    assert
      || code == "Digit0" || code == "Digit1" || code == "Digit2" || code == "Digit3" || code == "Digit4"
      || code == "Digit5" || code == "Digit6" || code == "Digit7" || code == "Digit8" || code == "Digit9";
    assert code in EVENT_CODE_KEY_ALIASES && EVENT_CODE_KEY_ALIASES[code] == [digit];
  }

  // ---- Conflict keys ----

  ghost predicate SameEffect(a: Shortcut, b: Shortcut, mac: bool) {
    && a.key == b.key && ExpectedMeta(a, mac) == ExpectedMeta(b, mac) && ExpectedCtrl(a, mac) == ExpectedCtrl(b, mac)
    && a.shiftKey == b.shiftKey && a.altKey == b.altKey
  }

  // The joined string identifies the key and the effective modifiers, even for a key that contains
  // the separator.
  lemma ConflictKeyIsInjective(a: Shortcut, b: Shortcut, mac: bool)
    ensures ConflictKey(a, mac) == ConflictKey(b, mac) <==> SameEffect(a, b, mac)
  {
    var x, y := ConflictParts(a, mac), ConflictParts(b, mac);
    TagsHaveNoSeparator();
    if ConflictKey(a, mac) == ConflictKey(b, mac) {
      JoinInjective(x, y, '|');
      assert x[1] == y[1] && x[2] == y[2] && x[3] == y[3] && x[4] == y[4] && x[0] == y[0];
    }
    if SameEffect(a, b, mac) {
      assert x == y;
    }
  }

  lemma TagsHaveNoSeparator()
    ensures forall present, name :: name in {"meta", "ctrl", "shift", "alt"} ==> '|' !in Tag(present, name)
    ensures forall p, q, name :: name != "" && Tag(p, name) == Tag(q, name) ==> p == q
  {
  }

  // ---- The two resolvers agree ----

  // Pressing a shortcut: its key, with the modifiers it expects on this platform.
  function Press(s: Shortcut, mac: bool): KeyEvent {
    KeyEvent(s.key, None, ExpectedMeta(s, mac), ExpectedCtrl(s, mac), s.shiftKey, s.altKey)
  }

  lemma PressMatchesIffSameConflictKey(s: Shortcut, t: Shortcut, mac: bool)
    requires NormalizeEventKey(s.key) == s.key
    ensures Matches(Press(s, mac), t, mac) <==> ConflictKey(s, mac) == ConflictKey(t, mac)
  {
    ConflictKeyIsInjective(s, t, mac);
  }

  lemma {:induction false} EffectiveAvoidsClaims(
      bindings: seq<Binding>, command: string, claimed: set<string>, mac: bool, context: map<string, bool>)
    requires Effective(bindings, command, claimed, mac, context).Some?
    requires var s := Effective(bindings, command, claimed, mac, context).value; NormalizeEventKey(s.key) == s.key
    ensures var s := Effective(bindings, command, claimed, mac, context).value;
            && ConflictKey(s, mac) !in claimed
            && Resolve(bindings, Press(s, mac), mac, context) == Some(command)
    decreases |bindings|
  {
    var s := Effective(bindings, command, claimed, mac, context).value;
    var last, init := bindings[|bindings| - 1], bindings[..|bindings| - 1];
    var key := ConflictKey(last.shortcut, mac);
    PressMatchesIffSameConflictKey(s, last.shortcut, mac);
    if !Active(last, context) || key in claimed {
      EffectiveAvoidsClaims(init, command, claimed, mac, context);
    } else if last.command != command {
      EffectiveAvoidsClaims(init, command, claimed + {key}, mac, context);
    }
  }

  // The shortcut shown for a command, when pressed, runs that command.
  lemma ShownShortcutRunsCommand(bindings: seq<Binding>, command: string, mac: bool, context: map<string, bool>)
    requires EffectiveShortcut(bindings, command, mac, context).Some?
    requires var s := EffectiveShortcut(bindings, command, mac, context).value; NormalizeEventKey(s.key) == s.key
    ensures var s := EffectiveShortcut(bindings, command, mac, context).value;
            Resolve(bindings, Press(s, mac), mac, context) == Some(command)
  {
    EffectiveAvoidsClaims(bindings, command, {}, mac, context);
  }

  ghost predicate NoClaimMatches(claimed: set<string>, e: KeyEvent, mac: bool) {
    forall s: Shortcut :: ConflictKey(s, mac) in claimed ==> !Matches(e, s, mac)
  }

  lemma {:induction false} ResolvedIsEffective(
      bindings: seq<Binding>, e: KeyEvent, claimed: set<string>, mac: bool, context: map<string, bool>)
    requires Resolve(bindings, e, mac, context).Some? && NoClaimMatches(claimed, e, mac)
    ensures Effective(bindings, Resolve(bindings, e, mac, context).value, claimed, mac, context).Some?
    decreases |bindings|
  {
    var last, init := bindings[|bindings| - 1], bindings[..|bindings| - 1];
    var key := ConflictKey(last.shortcut, mac);
    if !Active(last, context) || (key in claimed && !Matches(e, last.shortcut, mac)) {
      ResolvedIsEffective(init, e, claimed, mac, context);
    } else if !Matches(e, last.shortcut, mac) {
      forall s: Shortcut | ConflictKey(s, mac) in claimed + {key} ensures !Matches(e, s, mac) {
        ConflictKeyIsInjective(s, last.shortcut, mac);
      }
      ResolvedIsEffective(init, e, claimed + {key}, mac, context);
    }
  }

  // Any command that some key press runs has a shortcut to show.
  lemma RunnableCommandHasShortcut(bindings: seq<Binding>, e: KeyEvent, mac: bool, context: map<string, bool>)
    requires Resolve(bindings, e, mac, context).Some?
    ensures EffectiveShortcut(bindings, Resolve(bindings, e, mac, context).value, mac, context).Some?
  {
    ResolvedIsEffective(bindings, e, {}, mac, context);
  }

  // Keys as the shortcut parser produces them.
  ghost predicate KeysNormalized(bindings: seq<Binding>) {
    forall b :: b in bindings ==> CanonicalKey(b.shortcut.key)
  }

  lemma CanonicalKeysAreEventKeys(key: string)
    requires CanonicalKey(key)
    ensures NormalizeEventKey(key) == key
  {
    LowerOfLower(key);
  }

  lemma {:induction false} EffectiveIsBound(
      bindings: seq<Binding>, command: string, claimed: set<string>, mac: bool, context: map<string, bool>)
    requires Effective(bindings, command, claimed, mac, context).Some?
    ensures var shortcut := Effective(bindings, command, claimed, mac, context).value;
            exists b :: b in bindings && b.command == command && b.shortcut == shortcut
    decreases |bindings|
  {
    var last, init := bindings[|bindings| - 1], bindings[..|bindings| - 1];
    var key := ConflictKey(last.shortcut, mac);
    assert last in bindings && forall b :: b in init ==> b in bindings;
    if !Active(last, context) || key in claimed {
      EffectiveIsBound(init, command, claimed, mac, context);
    } else if last.command != command {
      EffectiveIsBound(init, command, claimed + {key}, mac, context);
    }
  }

  // For parser-made bindings, a command has a shortcut to show exactly when some key press runs it.
  lemma ShownIffRunnable(bindings: seq<Binding>, command: string, mac: bool, context: map<string, bool>)
    requires KeysNormalized(bindings)
    ensures EffectiveShortcut(bindings, command, mac, context).Some?
            <==> exists e :: Resolve(bindings, e, mac, context) == Some(command)
  {
    if EffectiveShortcut(bindings, command, mac, context).Some? {
      var s := EffectiveShortcut(bindings, command, mac, context).value;
      EffectiveIsBound(bindings, command, {}, mac, context);
      CanonicalKeysAreEventKeys(s.key);
      ShownShortcutRunsCommand(bindings, command, mac, context);
      assert Resolve(bindings, Press(s, mac), mac, context) == Some(command);
    }
    forall e | Resolve(bindings, e, mac, context) == Some(command)
      ensures EffectiveShortcut(bindings, command, mac, context).Some?
    {
      RunnableCommandHasShortcut(bindings, e, mac, context);
    }
  }

  // ---- Which binding answers ----

  // The press matches, and the condition, if there is one, holds.
  ghost predicate Answers(b: Binding, e: KeyEvent, mac: bool, context: map<string, bool>) {
    Matches(e, b.shortcut, mac) && (b.when == None || Evaluate(b.when.value, context))
  }

  ghost predicate AnswersLast(
    bindings: seq<Binding>, i: int, e: KeyEvent, mac: bool, context: map<string, bool>)
  {
    && 0 <= i < |bindings| && Answers(bindings[i], e, mac, context)
    && forall j :: i < j < |bindings| ==> !Answers(bindings[j], e, mac, context)
  }

  // A press runs the command of the last binding that answers it.
  lemma {:induction false} LastAnswerRuns(
    bindings: seq<Binding>, i: int, e: KeyEvent, mac: bool, context: map<string, bool>)
    requires AnswersLast(bindings, i, e, mac, context)
    ensures Resolve(bindings, e, mac, context) == Some(bindings[i].command)
    decreases |bindings|
  {
    var n := |bindings| - 1;
    if i < n {
      assert !Answers(bindings[n], e, mac, context);
      LastAnswerRuns(bindings[..n], i, e, mac, context);
    }
  }

  // It runs nothing exactly if none does.
  lemma {:induction false} NoAnswerRunsNothing(
    bindings: seq<Binding>, e: KeyEvent, mac: bool, context: map<string, bool>)
    ensures Resolve(bindings, e, mac, context) == None <==>
              forall b :: b in bindings ==> !Answers(b, e, mac, context)
    decreases |bindings|
  {
    if bindings == [] {
    } else {
      var n := |bindings| - 1;
      NoAnswerRunsNothing(bindings[..n], e, mac, context);
      assert Answers(bindings[n], e, mac, context) <==>
             Active(bindings[n], context) && Matches(e, bindings[n].shortcut, mac);
      assert forall b :: b in bindings <==> b in bindings[..n] || b == bindings[n];
    }
  }

  // ---- Merging custom bindings with the defaults ----

  function Retained(defaults: seq<Binding>, overridden: set<string>): seq<Binding>
    decreases |defaults|
  {
    if defaults == [] then []
    else
      var last, init := defaults[|defaults| - 1], Retained(defaults[..|defaults| - 1], overridden);
      if last.command in overridden then init else init + [last]
  }

  function MergeWithDefaults(defaults: seq<Binding>, custom: seq<Binding>): seq<Binding> {
    if custom == [] then defaults
    else
      Recent(Retained(defaults, Overridden(custom)) + custom)
  }

  function Overridden(custom: seq<Binding>): set<string> {
    set b | b in custom :: b.command
  }

  // The last 256 of the bindings.
  function Recent(bindings: seq<Binding>): (recent: seq<Binding>)
    ensures |recent| <= MAX_KEYBINDINGS_COUNT && |recent| <= |bindings|
    ensures recent == bindings[|bindings| - |recent|..]
  {
    bindings[if |bindings| <= MAX_KEYBINDINGS_COUNT then 0 else |bindings| - MAX_KEYBINDINGS_COUNT..]
  }

  lemma {:induction false} ResolveConcat(
      xs: seq<Binding>, ys: seq<Binding>, e: KeyEvent, mac: bool, context: map<string, bool>)
    ensures Resolve(xs + ys, e, mac, context)
         == if Resolve(ys, e, mac, context).Some? then Resolve(ys, e, mac, context) else Resolve(xs, e, mac, context)
    decreases |ys|
  {
    if ys == [] {
      assert xs + ys == xs;
    } else {
      assert (xs + ys)[..|xs + ys| - 1] == xs + ys[..|ys| - 1];
      ResolveConcat(xs, ys[..|ys| - 1], e, mac, context);
    }
  }

  lemma {:induction false} ResolveIsBound(bindings: seq<Binding>, e: KeyEvent, mac: bool, context: map<string, bool>)
    requires Resolve(bindings, e, mac, context).Some?
    ensures exists b :: b in bindings && b.command == Resolve(bindings, e, mac, context).value
    decreases |bindings|
  {
    var last, init := bindings[|bindings| - 1], bindings[..|bindings| - 1];
    assert last in bindings && forall b :: b in init ==> b in bindings;
    if !(Active(last, context) && Matches(e, last.shortcut, mac)) {
      ResolveIsBound(init, e, mac, context);
    }
  }

  lemma {:induction false} RetainedIsNotOverridden(defaults: seq<Binding>, overridden: set<string>)
    ensures forall b :: b in Retained(defaults, overridden) <==> b in defaults && b.command !in overridden
    decreases |defaults|
  {
    if defaults == [] {
    } else {
      RetainedIsNotOverridden(defaults[..|defaults| - 1], overridden);
      assert defaults == defaults[..|defaults| - 1] + [defaults[|defaults| - 1]];
    }
  }

  // The bindings at the given places, in the order of the places.
  function Pick(bindings: seq<Binding>, places: seq<nat>): (picked: seq<Binding>)
    requires forall i :: i in places ==> i < |bindings|
    ensures |picked| == |places|
  {
    seq(|places|, k requires 0 <= k < |places| => assert places[k] in places; bindings[places[k]])
  }

  // The places of the defaults whose commands no custom binding has, each once and in order.
  ghost predicate UnboundPlaces(defaults: seq<Binding>, custom: seq<Binding>, places: seq<nat>) {
    && (forall i: nat :: i in places <==>
          i < |defaults| && forall c :: c in custom ==> c.command != defaults[i].command)
    && (forall k, l :: 0 <= k < l < |places| ==> places[k] < places[l])
  }

  lemma {:induction false} RetainedIsPicked(defaults: seq<Binding>, custom: seq<Binding>) returns (places: seq<nat>)
    ensures UnboundPlaces(defaults, custom, places)
    ensures Retained(defaults, Overridden(custom)) == Pick(defaults, places)
    decreases |defaults|
  {
    if defaults == [] {
      places := [];
    } else {
      var n := |defaults| - 1;
      var overridden := Overridden(custom);
      places := RetainedIsPicked(defaults[..n], custom);
      assert Pick(defaults[..n], places) == Pick(defaults, places);
      UnboundExtends(defaults, custom, places);
      if defaults[n].command !in overridden {
        assert Pick(defaults, places + [n]) == Pick(defaults, places) + [defaults[n]];
        places := places + [n];
      }
    }
  }

  lemma UnboundExtends(defaults: seq<Binding>, custom: seq<Binding>, places: seq<nat>)
    requires defaults != [] && UnboundPlaces(defaults[..|defaults| - 1], custom, places)
    ensures var n: nat := |defaults| - 1;
            var bound := exists c :: c in custom && c.command == defaults[n].command;
            UnboundPlaces(defaults, custom, if bound then places else places + [n])
  {
    var n: nat := |defaults| - 1;
    var init := defaults[..n];
    assert forall i: nat :: i < n ==> init[i] == defaults[i];
    assert forall i: nat :: i in places + [n] <==> i in places || i == n;
    assert forall k :: 0 <= k < |places| ==> places[k] in places;
  }

  // Without custom bindings the merge is the defaults. In any case it is exactly the defaults that no custom
  // binding overrides, each as often and in the order it had, and then the custom bindings; of more than 256
  // with custom ones among them it is the last 256.
  lemma MergeIsUnboundAndCustom(defaults: seq<Binding>, custom: seq<Binding>) returns (places: seq<nat>)
    ensures UnboundPlaces(defaults, custom, places)
    ensures var full := Pick(defaults, places) + custom;
            MergeWithDefaults(defaults, custom) ==
              if custom == [] || |full| <= MAX_KEYBINDINGS_COUNT then full else full[|full| - MAX_KEYBINDINGS_COUNT..]
    ensures custom == [] ==> MergeWithDefaults(defaults, custom) == defaults
  {
    places := RetainedIsPicked(defaults, custom);
    if custom == [] {
      NothingOverridden(defaults);
      assert Overridden(custom) == {};
      assert Pick(defaults, places) + custom == defaults;
    }
  }

  lemma {:induction false} NothingOverridden(defaults: seq<Binding>)
    ensures Retained(defaults, {}) == defaults
    decreases |defaults|
  {
    if defaults == [] {
    } else {
      NothingOverridden(defaults[..|defaults| - 1]);
    }
  }

  // The position of the binding that wins, or -1 if none matches.
  function WinnerIndex(bindings: seq<Binding>, e: KeyEvent, mac: bool, context: map<string, bool>): (i: int)
    ensures -1 <= i < |bindings|
    decreases |bindings|
  {
    if bindings == [] then -1
    else
      var n := |bindings| - 1;
      if Active(bindings[n], context) && Matches(e, bindings[n].shortcut, mac) then n
      else WinnerIndex(bindings[..n], e, mac, context)
  }

  lemma {:induction false} WinnerIsResolved(bindings: seq<Binding>, e: KeyEvent, mac: bool, context: map<string, bool>)
    ensures var i := WinnerIndex(bindings, e, mac, context);
            Resolve(bindings, e, mac, context) == if i < 0 then None else Some(bindings[i].command)
    decreases |bindings|
  {
    if bindings == [] {
    } else {
      WinnerIsResolved(bindings[..|bindings| - 1], e, mac, context);
    }
  }

  // The last k bindings resolve like all of them, if the winner is among them, and otherwise to nothing.
  lemma {:induction false} RecentResolve(
    bindings: seq<Binding>, k: nat, e: KeyEvent, mac: bool, context: map<string, bool>)
    requires k <= |bindings|
    ensures var recent := bindings[|bindings| - k..];
            Resolve(recent, e, mac, context)
            == (if WinnerIndex(bindings, e, mac, context) >= |bindings| - k then Resolve(bindings, e, mac, context)
                else None)
    decreases |bindings|
  {
    if k == 0 {
    } else {
      var n := |bindings| - 1;
      var recent := bindings[|bindings| - k..];
      assert recent[..k - 1] == bindings[..n][n - (k - 1)..];
      RecentResolve(bindings[..n], k - 1, e, mac, context);
    }
  }

  // A merge keeps the recent custom bindings, behind defaults whose commands are not bound by any.
  lemma MergeKeepsRecent(defaults: seq<Binding>, custom: seq<Binding>) returns (kept: seq<Binding>)
    ensures MergeWithDefaults(defaults, custom) == kept + Recent(custom)
    ensures custom != [] ==> |kept| + |Recent(custom)| <= MAX_KEYBINDINGS_COUNT
    ensures forall b, c :: b in kept && c in custom ==> b in defaults && b.command != c.command
  {
    var overridden := Overridden(custom);
    var retained := Retained(defaults, overridden);
    RetainedIsNotOverridden(defaults, overridden);
    if custom == [] {
      kept := defaults;
    } else {
      kept := FrontOfLast(retained, custom);
    }
  }

  // The last 256 of two lists are the recent ones of the second behind some of the first.
  lemma FrontOfLast(xs: seq<Binding>, ys: seq<Binding>) returns (front: seq<Binding>)
    ensures Recent(xs + ys) == front + Recent(ys)
    ensures |front| + |Recent(ys)| <= MAX_KEYBINDINGS_COUNT && forall b :: b in front ==> b in xs
  {
    var n := |xs| + |ys|;
    if n <= MAX_KEYBINDINGS_COUNT {
      front := xs;
    } else if |ys| <= MAX_KEYBINDINGS_COUNT {
      front := xs[n - MAX_KEYBINDINGS_COUNT..];
    } else {
      front := [];
    }
  }

  // However many custom bindings and defaults there are: a press that the custom bindings resolve does
  // the same after the merge if and only if the binding that wins is among the last 256 of them, and a
  // command that the user bound at all never runs through a default binding.
  lemma CustomBindingsTakePrecedence(
    defaults: seq<Binding>, custom: seq<Binding>, e: KeyEvent, mac: bool, context: map<string, bool>)
    ensures var merged := MergeWithDefaults(defaults, custom);
            var mine, winner := Resolve(custom, e, mac, context), WinnerIndex(custom, e, mac, context);
            var result := Resolve(merged, e, mac, context);
            && (custom != [] ==> |merged| <= MAX_KEYBINDINGS_COUNT)
            && (mine.Some? ==> (result == mine <==> winner >= |custom| - MAX_KEYBINDINGS_COUNT))
            && (|custom| >= MAX_KEYBINDINGS_COUNT ==> result == Resolve(Recent(custom), e, mac, context))
            && (result.Some? && (exists b :: b in custom && b.command == result.value) ==> result == mine)
  {
    if custom != [] {
      var kept := MergeKeepsRecent(defaults, custom);
      MergedPrecedence(MergeWithDefaults(defaults, custom), kept, custom, e, mac, context);
    }
  }

  lemma MergedPrecedence(
    merged: seq<Binding>, kept: seq<Binding>, custom: seq<Binding>, e: KeyEvent, mac: bool, context: map<string, bool>)
    requires custom != [] && merged == kept + Recent(custom)
    requires |kept| + |Recent(custom)| <= MAX_KEYBINDINGS_COUNT
    requires forall b, c :: b in kept && c in custom ==> b.command != c.command
    ensures var mine, winner := Resolve(custom, e, mac, context), WinnerIndex(custom, e, mac, context);
            var result := Resolve(merged, e, mac, context);
            && |merged| <= MAX_KEYBINDINGS_COUNT
            && (mine.Some? ==> (result == mine <==> winner >= |custom| - MAX_KEYBINDINGS_COUNT))
            && (|custom| >= MAX_KEYBINDINGS_COUNT ==> result == Resolve(Recent(custom), e, mac, context))
            && (result.Some? && (exists b :: b in custom && b.command == result.value) ==> result == mine)
  {
    if |custom| >= MAX_KEYBINDINGS_COUNT {
      assert kept == [];
    }
    PrecedenceBehind(kept, custom, e, mac, context);
  }

  lemma PrecedenceBehind(kept: seq<Binding>, custom: seq<Binding>, e: KeyEvent, mac: bool, context: map<string, bool>)
    requires forall b, c :: b in kept && c in custom ==> b.command != c.command
    requires |custom| > MAX_KEYBINDINGS_COUNT ==> kept == []
    ensures var mine, winner := Resolve(custom, e, mac, context), WinnerIndex(custom, e, mac, context);
            var result := Resolve(kept + Recent(custom), e, mac, context);
            && (mine.Some? ==> (result == mine <==> winner >= |custom| - MAX_KEYBINDINGS_COUNT))
            && (kept == [] ==> result == Resolve(Recent(custom), e, mac, context))
            && (result.Some? && (exists b :: b in custom && b.command == result.value) ==> result == mine)
  {
    var recent := Recent(custom);
    ResolveConcat(kept, recent, e, mac, context);
    RecentResolve(custom, |recent|, e, mac, context);
    WinnerIsResolved(custom, e, mac, context);
    if Resolve(kept, e, mac, context).Some? {
      ResolveIsBound(kept, e, mac, context);
    }
  }

  // A press that only the first of 257 custom bindings answers is answered by none after the merge.
  lemma FirstOf257IsLost(
    defaults: seq<Binding>, first: Binding, others: seq<Binding>, e: KeyEvent, mac: bool, context: map<string, bool>)
    requires |others| == MAX_KEYBINDINGS_COUNT && Resolve(others, e, mac, context).None?
    requires Active(first, context) && Matches(e, first.shortcut, mac)
    ensures Resolve([first] + others, e, mac, context) == Some(first.command)
    ensures Resolve(MergeWithDefaults(defaults, [first] + others), e, mac, context) == None
  {
    var custom := [first] + others;
    ResolveConcat([first], others, e, mac, context);
    assert [first][..0] == [] && Resolve([first], e, mac, context) == Some(first.command);
    var kept := MergeKeepsRecent(defaults, custom);
    assert Recent(custom) == others && kept == [];
    assert [] + others == others;
  }

  // A press that no custom binding answers does what the default bindings made it do, if no custom binding
  // has the default's command, unless that default is cut off because it is not among the last 256 of all.
  lemma UnboundDefaultStillRuns(
    defaults: seq<Binding>, custom: seq<Binding>, e: KeyEvent, mac: bool, context: map<string, bool>)
    requires Resolve(custom, e, mac, context).None? && Resolve(defaults, e, mac, context).Some?
    requires forall c :: c in custom ==> c.command != Resolve(defaults, e, mac, context).value
    ensures var kept := Retained(defaults, Overridden(custom));
            var result := Resolve(MergeWithDefaults(defaults, custom), e, mac, context);
            result == Resolve(defaults, e, mac, context) <==>
              custom == [] || WinnerIndex(kept, e, mac, context) + MAX_KEYBINDINGS_COUNT >= |kept| + |custom|
  {
    RetainedResolves(defaults, Overridden(custom), e, mac, context);
    CutResolves(Retained(defaults, Overridden(custom)), custom, e, mac, context);
  }

  // The last 256 of two lists, when the second does not answer.
  lemma CutResolves(kept: seq<Binding>, custom: seq<Binding>, e: KeyEvent, mac: bool, context: map<string, bool>)
    requires Resolve(custom, e, mac, context).None? && Resolve(kept, e, mac, context).Some?
    ensures var full, winner := kept + custom, WinnerIndex(kept, e, mac, context);
            Resolve(Recent(full), e, mac, context) == Resolve(kept, e, mac, context) <==>
              winner + MAX_KEYBINDINGS_COUNT >= |full|
  {
    ResolveConcat(kept, custom, e, mac, context);
    WinnerBefore(kept, custom, e, mac, context);
    RecentAnswers(kept + custom, e, mac, context);
  }

  lemma RecentAnswers(full: seq<Binding>, e: KeyEvent, mac: bool, context: map<string, bool>)
    requires Resolve(full, e, mac, context).Some?
    ensures Resolve(Recent(full), e, mac, context) == Resolve(full, e, mac, context) <==>
              WinnerIndex(full, e, mac, context) + MAX_KEYBINDINGS_COUNT >= |full|
  {
    WinnerExists(full, e, mac, context);
    LatestAnswer(full, |Recent(full)|, e, mac, context);
  }

  lemma WinnerExists(full: seq<Binding>, e: KeyEvent, mac: bool, context: map<string, bool>)
    requires Resolve(full, e, mac, context).Some?
    ensures WinnerIndex(full, e, mac, context) >= 0
  {
    WinnerIsResolved(full, e, mac, context);
  }

  lemma LatestAnswer(full: seq<Binding>, k: nat, e: KeyEvent, mac: bool, context: map<string, bool>)
    requires k <= |full| && Resolve(full, e, mac, context).Some?
    ensures Resolve(full[|full| - k..], e, mac, context) == Resolve(full, e, mac, context) <==>
              WinnerIndex(full, e, mac, context) + k >= |full|
  {
    RecentResolve(full, k, e, mac, context);
  }

  // Taking out bindings of other commands does not change which command a press runs.
  lemma {:induction false} RetainedResolves(
    defaults: seq<Binding>, overridden: set<string>, e: KeyEvent, mac: bool, context: map<string, bool>)
    requires var r := Resolve(defaults, e, mac, context); r.Some? && r.value !in overridden
    ensures Resolve(Retained(defaults, overridden), e, mac, context) == Resolve(defaults, e, mac, context)
    ensures WinnerIndex(Retained(defaults, overridden), e, mac, context) >= 0
    decreases |defaults|
  {
    var n := |defaults| - 1;
    var init := Retained(defaults[..n], overridden);
    if !(Active(defaults[n], context) && Matches(e, defaults[n].shortcut, mac)) {
      RetainedResolves(defaults[..n], overridden, e, mac, context);
    }
    assert (init + [defaults[n]])[..|init|] == init;
  }

  lemma {:induction false} WinnerBefore(
    xs: seq<Binding>, ys: seq<Binding>, e: KeyEvent, mac: bool, context: map<string, bool>)
    requires Resolve(ys, e, mac, context).None?
    ensures WinnerIndex(xs + ys, e, mac, context) == WinnerIndex(xs, e, mac, context)
    decreases |ys|
  {
    if ys == [] {
      assert xs + ys == xs;
    } else {
      assert (xs + ys)[..|xs + ys| - 1] == xs + ys[..|ys| - 1];
      WinnerBefore(xs, ys[..|ys| - 1], e, mac, context);
    }
  }
}
