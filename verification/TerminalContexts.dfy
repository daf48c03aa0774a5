// Terminal selections attached to a draft: normalization and de-duplication.
module TerminalContexts {
  import opened Text
  import opened Decimal

  datatype ContextDraft = ContextDraft(
    id: string, threadId: string, createdAt: string,
    terminalId: string, terminalLabel: string,
    lineStart: int, lineEnd: int, text: string)

  // Stands in a prompt for an attached context.
  const PLACEHOLDER: char := '\U{FFFC}'

  function CountPlaceholders(prompt: string): nat {
    if prompt == "" then 0 else (if prompt[0] == PLACEHOLDER then 1 else 0) + CountPlaceholders(prompt[1..])
  }

  const CRLF := "\r\n"

  function ReplaceCrLf(s: string): string {
    if s == "" then ""
    else if CRLF <= s then "\n" + ReplaceCrLf(s[2..])
    else [s[0]] + ReplaceCrLf(s[1..])
  }

  function DropLeadingNewlines(s: string): string {
    if s != "" && s[0] == '\n' then DropLeadingNewlines(s[1..]) else s
  }

  function DropTrailingNewlines(s: string): string {
    if s != "" && s[|s| - 1] == '\n' then DropTrailingNewlines(s[..|s| - 1]) else s
  }

  function NormalizeText(text: string): string {
    DropTrailingNewlines(DropLeadingNewlines(ReplaceCrLf(text)))
  }

  function Max(a: int, b: int): int {
    if a < b then b else a
  }

  function Normalize(threadId: string, c: ContextDraft): Option<ContextDraft> {
    var terminalId := Trim(c.terminalId);
    var terminalLabel := Trim(c.terminalLabel);
    if terminalId == "" || terminalLabel == "" then None
    else
      var lineStart := Max(1, c.lineStart);
      Some(c.(threadId := threadId, terminalId := terminalId, terminalLabel := terminalLabel,
              lineStart := lineStart, lineEnd := Max(lineStart, c.lineEnd), text := NormalizeText(c.text)))
  }

  ghost predicate WellFormed(c: ContextDraft) {
    && c.terminalId != "" && Trimmed(c.terminalId)
    && c.terminalLabel != "" && Trimmed(c.terminalLabel)
    && 1 <= c.lineStart <= c.lineEnd
  }

  function DedupKey(c: ContextDraft): string {
    c.terminalId + ("\0" + LineText(c.lineStart)) + ("\0" + LineText(c.lineEnd))
  }

  function LineText(line: int): string {
    if line < 0 then "-" + NatToString(-line) else NatToString(line)
  }

  // Whether a normalized context may join those already accepted.
  predicate Fresh(accepted: seq<ContextDraft>, c: ContextDraft) {
    forall a :: a in accepted ==> a.id != c.id && DedupKey(a) != DedupKey(c)
  }

  // Goes through `contexts` in order, adding to `accepted` each one that normalizes and is fresh.
  function Accept(threadId: string, accepted: seq<ContextDraft>, contexts: seq<ContextDraft>): (r: seq<ContextDraft>)
    ensures accepted <= r
    decreases |contexts|
  {
    if contexts == [] then accepted
    else
      var n := Normalize(threadId, contexts[0]);
      var accepted' := if n.Some? && Fresh(accepted, n.value) then accepted + [n.value] else accepted;
      Accept(threadId, accepted', contexts[1..])
  }

  function NormalizeAll(threadId: string, contexts: seq<ContextDraft>): seq<ContextDraft> {
    Accept(threadId, [], contexts)
  }

  ghost function IdsOf(cs: seq<ContextDraft>): set<string> {
    set c | c in cs :: c.id
  }

  ghost function KeysOf(cs: seq<ContextDraft>): set<string> {
    set c | c in cs :: DedupKey(c)
  }

  lemma FreshBySets(accepted: seq<ContextDraft>, c: ContextDraft)
    ensures Fresh(accepted, c) <==> c.id !in IdsOf(accepted) && DedupKey(c) !in KeysOf(accepted)
    ensures IdsOf(accepted + [c]) == IdsOf(accepted) + {c.id}
    ensures KeysOf(accepted + [c]) == KeysOf(accepted) + {DedupKey(c)}
  {
    assert forall a :: a in accepted + [c] <==> a in accepted || a == c;
  }

  method NormalizeTerminalContextsForThread(threadId: string, contexts: seq<ContextDraft>)
    returns (normalized: seq<ContextDraft>)
    ensures normalized == NormalizeAll(threadId, contexts)
  {
    var existingIds: set<string> := {};
    var existingDedupKeys: set<string> := {};
    normalized := [];
    assert contexts[0..] == contexts;
    for i := 0 to |contexts|
      invariant Accept(threadId, normalized, contexts[i..]) == NormalizeAll(threadId, contexts)
      invariant existingIds == IdsOf(normalized)
      invariant existingDedupKeys == KeysOf(normalized)
    {
      assert contexts[i..][1..] == contexts[i + 1..];
      var context := Normalize(threadId, contexts[i]);
      if context.None? {
        continue;
      }
      var dedupKey := DedupKey(context.value);
      FreshBySets(normalized, context.value);
      if context.value.id in existingIds || dedupKey in existingDedupKeys {
        continue;
      }
      normalized := normalized + [context.value];
      existingIds := existingIds + {context.value.id};
      existingDedupKeys := existingDedupKeys + {dedupKey};
    }
  }

  // ---- What is stored ----

  ghost predicate Distinct(cs: seq<ContextDraft>) {
    forall i, j :: 0 <= i < j < |cs| ==> cs[i].id != cs[j].id && DedupKey(cs[i]) != DedupKey(cs[j])
  }

  ghost predicate Stored(cs: seq<ContextDraft>) {
    Distinct(cs) && forall c :: c in cs ==> WellFormed(c)
  }

  lemma NormalizedIsWellFormed(threadId: string, c: ContextDraft)
    requires Normalize(threadId, c).Some?
    ensures WellFormed(Normalize(threadId, c).value)
  {
    TrimIsTrimmed(c.terminalId);
    TrimIsTrimmed(c.terminalLabel);
  }

  // A context is refused exactly if its terminal or its label is blank; otherwise its lines are moved up as
  // little as they can be.
  lemma NormalizedIsNearest(threadId: string, c: ContextDraft)
    ensures var n := Normalize(threadId, c);
            && (n.None? <==> Trim(c.terminalId) == "" || Trim(c.terminalLabel) == "")
            && (n.Some? ==>
                  && n.value.id == c.id && n.value.threadId == threadId && n.value.createdAt == c.createdAt
                  && WellFormed(n.value) && n.value.lineStart >= c.lineStart && n.value.lineEnd >= c.lineEnd
                  && (n.value.lineStart == c.lineStart || n.value.lineStart == 1)
                  && (n.value.lineEnd == c.lineEnd || n.value.lineEnd == n.value.lineStart))
  {
    if Normalize(threadId, c).Some? {
      NormalizedIsWellFormed(threadId, c);
    }
  }

  // Two contexts that cannot be stored together: they share an id, or terminal and lines.
  predicate Clash(a: ContextDraft, b: ContextDraft) {
    a.id == b.id || (a.terminalId == b.terminalId && a.lineStart == b.lineStart && a.lineEnd == b.lineEnd)
  }

  predicate Below(places: seq<nat>, n: nat) {
    forall k :: 0 <= k < |places| ==> places[k] < n
  }

  // The contexts at the given places, normalized, as far as they normalize.
  function NormalizedAt(threadId: string, contexts: seq<ContextDraft>, places: seq<nat>): seq<ContextDraft>
    requires Below(places, |contexts|)
  {
    if places == [] then []
    else
      var n := |places| - 1;
      var last := Normalize(threadId, contexts[places[n]]);
      NormalizedAt(threadId, contexts, places[..n]) + if last.Some? then [last.value] else []
  }

  // The places that are taken on: those of contexts that normalize and clash neither with what is stored
  // nor with one at an earlier place taken on.
  ghost predicate TakenOn(threadId: string, stored: seq<ContextDraft>, contexts: seq<ContextDraft>, places: seq<nat>) {
    && (forall k, l :: 0 <= k < l < |places| ==> places[k] < places[l])
    && Below(places, |contexts|)
    && (forall i :: 0 <= i < |contexts| ==>
          (i in places <==> TakesOn(threadId, stored, contexts, places, i)))
  }

  ghost predicate TakesOn(
    threadId: string, stored: seq<ContextDraft>, contexts: seq<ContextDraft>, places: seq<nat>, i: nat)
    requires i < |contexts| && Below(places, |contexts|)
  {
    var n := Normalize(threadId, contexts[i]);
    && n.Some?
    && (forall c :: c in stored ==> !Clash(c, n.value))
    && (forall k :: 0 <= k < |places| && places[k] < i ==>
          var earlier := Normalize(threadId, contexts[places[k]]); earlier.Some? ==> !Clash(earlier.value, n.value))
  }

  // Exactly those are accepted, in order, behind what is stored.
  lemma {:induction false} AcceptTakesOn(threadId: string, stored: seq<ContextDraft>, contexts: seq<ContextDraft>)
    returns (places: seq<nat>)
    ensures TakenOn(threadId, stored, contexts, places)
    ensures Accept(threadId, stored, contexts) == stored + NormalizedAt(threadId, contexts, places)
    decreases |contexts|
  {
    if contexts == [] {
      places := [];
    } else {
      var n := |contexts| - 1;
      var before := AcceptTakesOn(threadId, stored, contexts[..n]);
      places := if TakesOn(threadId, stored, contexts, before, n) then before + [n] else before;
      TakenOnExtends(threadId, stored, contexts, before, places);
      AcceptExtends(threadId, stored, contexts, before);
    }
  }

  lemma AcceptExtends(threadId: string, stored: seq<ContextDraft>, contexts: seq<ContextDraft>, before: seq<nat>)
    requires contexts != [] && Below(before, |contexts| - 1)
    requires var init := contexts[..|contexts| - 1];
             Accept(threadId, stored, init) == stored + NormalizedAt(threadId, init, before)
    ensures var n: nat := |contexts| - 1;
            var places := if TakesOn(threadId, stored, contexts, before, n) then before + [n] else before;
            Accept(threadId, stored, contexts) == stored + NormalizedAt(threadId, contexts, places)
  {
    var n: nat := |contexts| - 1;
    AcceptOneMore(threadId, stored, contexts, before);
    if TakesOn(threadId, stored, contexts, before, n) {
      NormalizedAtSnoc(threadId, contexts, before, n);
      Reassociate(stored, NormalizedAt(threadId, contexts, before), [Normalize(threadId, contexts[n]).value]);
    }
  }

  lemma AcceptOneMore(threadId: string, stored: seq<ContextDraft>, contexts: seq<ContextDraft>, before: seq<nat>)
    requires contexts != [] && Below(before, |contexts| - 1)
    requires var init := contexts[..|contexts| - 1];
             Accept(threadId, stored, init) == stored + NormalizedAt(threadId, init, before)
    ensures var n: nat := |contexts| - 1;
            var taken := stored + NormalizedAt(threadId, contexts, before);
            Accept(threadId, stored, contexts) ==
              if TakesOn(threadId, stored, contexts, before, n) then taken + [Normalize(threadId, contexts[n]).value]
              else taken
  {
    var n: nat := |contexts| - 1;
    assert contexts[..n] + [contexts[n]] == contexts;
    AcceptSnoc(threadId, stored, contexts[..n], contexts[n]);
    NormalizedAtPrefix(threadId, contexts, n, before);
    TakesOnOne(threadId, stored, contexts, before);
  }

  lemma Reassociate(xs: seq<ContextDraft>, ys: seq<ContextDraft>, zs: seq<ContextDraft>)
    ensures xs + ys + zs == xs + (ys + zs)
  {
  }

  lemma NormalizedAtSnoc(threadId: string, contexts: seq<ContextDraft>, before: seq<nat>, n: nat)
    requires Below(before, |contexts|) && n < |contexts|
    ensures var last := Normalize(threadId, contexts[n]);
            NormalizedAt(threadId, contexts, before + [n]) ==
            NormalizedAt(threadId, contexts, before) + if last.Some? then [last.value] else []
  {
    assert (before + [n])[..|before|] == before;
  }

  lemma TakesOnOne(threadId: string, stored: seq<ContextDraft>, contexts: seq<ContextDraft>, before: seq<nat>)
    requires contexts != [] && Below(before, |contexts| - 1)
    ensures var n: nat := |contexts| - 1;
            var taken := stored + NormalizedAt(threadId, contexts, before);
            WithOne(threadId, taken, contexts[n]) ==
              if TakesOn(threadId, stored, contexts, before, n) then taken + [Normalize(threadId, contexts[n]).value]
              else taken
  {
    if Normalize(threadId, contexts[|contexts| - 1]).Some? {
      FreshOrClash(threadId, stored, contexts, before);
    }
  }

  lemma TakenOnExtends(
    threadId: string, stored: seq<ContextDraft>, contexts: seq<ContextDraft>, before: seq<nat>, places: seq<nat>)
    requires contexts != [] && TakenOn(threadId, stored, contexts[..|contexts| - 1], before)
    requires var n: nat := |contexts| - 1;
             places == if TakesOn(threadId, stored, contexts, before, n) then before + [n] else before
    ensures TakenOn(threadId, stored, contexts, places)
  {
    forall i | 0 <= i < |contexts| ensures i in places <==> TakesOn(threadId, stored, contexts, places, i) {
      PlaceExtends(threadId, stored, contexts, before, places, i);
    }
  }

  lemma PlaceExtends(
    threadId: string, stored: seq<ContextDraft>, contexts: seq<ContextDraft>,
    before: seq<nat>, places: seq<nat>, i: nat)
    requires i < |contexts| && Below(before, |contexts| - 1)
    requires i < |contexts| - 1 ==> (i in before <==> TakesOn(threadId, stored, contexts[..|contexts| - 1], before, i))
    requires var n: nat := |contexts| - 1;
             places == if TakesOn(threadId, stored, contexts, before, n) then before + [n] else before
    ensures Below(places, |contexts|) && (i in places <==> TakesOn(threadId, stored, contexts, places, i))
  {
    assert Below(before, |contexts|);
    SameTaking(threadId, stored, contexts, before, places, i);
    assert |contexts| - 1 !in before;
  }

  // Whether a place is taken on depends on what is before it.
  lemma SameTaking(
    threadId: string, stored: seq<ContextDraft>, contexts: seq<ContextDraft>,
    before: seq<nat>, places: seq<nat>, i: nat)
    requires i < |contexts| && Below(before, |contexts| - 1)
    requires places == before || places == before + [|contexts| - 1]
    ensures TakesOn(threadId, stored, contexts, before, i) <==> TakesOn(threadId, stored, contexts, places, i)
    ensures i < |contexts| - 1 ==>
              (TakesOn(threadId, stored, contexts[..|contexts| - 1], before, i) <==>
               TakesOn(threadId, stored, contexts, before, i))
  {
    assert forall k :: 0 <= k < |before| ==> places[k] == before[k];
  }

  function WithOne(threadId: string, accepted: seq<ContextDraft>, c: ContextDraft): seq<ContextDraft> {
    var n := Normalize(threadId, c);
    if n.Some? && Fresh(accepted, n.value) then accepted + [n.value] else accepted
  }

  lemma {:induction false} AcceptSnoc(
    threadId: string, stored: seq<ContextDraft>, init: seq<ContextDraft>, c: ContextDraft)
    ensures Accept(threadId, stored, init + [c]) == WithOne(threadId, Accept(threadId, stored, init), c)
    decreases |init|
  {
    if init == [] {
      assert init + [c] == [c] && [c][1..] == [];
    } else {
      assert (init + [c])[0] == init[0] && (init + [c])[1..] == init[1..] + [c];
      AcceptSnoc(threadId, WithOne(threadId, stored, init[0]), init[1..], c);
    }
  }

  lemma {:induction false} NormalizedAtPrefix(
    threadId: string, contexts: seq<ContextDraft>, n: nat, places: seq<nat>)
    requires n <= |contexts| && Below(places, n)
    ensures NormalizedAt(threadId, contexts[..n], places) == NormalizedAt(threadId, contexts, places)
    decreases |places|
  {
    if places != [] {
      NormalizedAtPrefix(threadId, contexts, n, places[..|places| - 1]);
    }
  }

  lemma {:induction false} NormalizedAtMembers(threadId: string, contexts: seq<ContextDraft>, places: seq<nat>)
    requires Below(places, |contexts|)
    ensures forall c :: c in NormalizedAt(threadId, contexts, places) <==>
                          exists k :: 0 <= k < |places| && Normalize(threadId, contexts[places[k]]) == Some(c)
    decreases |places|
  {
    if places != [] {
      var n := |places| - 1;
      NormalizedAtMembers(threadId, contexts, places[..n]);
    }
  }

  lemma FreshOrClash(threadId: string, stored: seq<ContextDraft>, contexts: seq<ContextDraft>, places: seq<nat>)
    requires contexts != [] && Below(places, |contexts| - 1)
    requires Normalize(threadId, contexts[|contexts| - 1]).Some?
    ensures var taken, n := stored + NormalizedAt(threadId, contexts, places), |contexts| - 1;
            Fresh(taken, Normalize(threadId, contexts[n]).value) <==> TakesOn(threadId, stored, contexts, places, n)
  {
    var c := Normalize(threadId, contexts[|contexts| - 1]).value;
    NormalizedAtMembers(threadId, contexts, places);
    forall a: ContextDraft ensures Clash(a, c) <==> a.id == c.id || DedupKey(a) == DedupKey(c) {
      DedupKeyIsInjective(a, c);
    }
  }

  lemma {:induction false} AcceptKeepsStored(threadId: string, accepted: seq<ContextDraft>, contexts: seq<ContextDraft>)
    requires Stored(accepted)
    ensures Stored(Accept(threadId, accepted, contexts))
    decreases |contexts|
  {
    if contexts == [] {
    } else {
      var n := Normalize(threadId, contexts[0]);
      if n.Some? && Fresh(accepted, n.value) {
        NormalizedIsWellFormed(threadId, contexts[0]);
        assert forall i :: 0 <= i < |accepted| ==> accepted[i] in accepted;
        AcceptKeepsStored(threadId, accepted + [n.value], contexts[1..]);
      } else {
        AcceptKeepsStored(threadId, accepted, contexts[1..]);
      }
    }
  }

  // The key distinguishes exactly terminal and line range, whatever characters the terminal id has.
  lemma DedupKeyIsInjective(a: ContextDraft, b: ContextDraft)
    ensures DedupKey(a) == DedupKey(b) <==>
        a.terminalId == b.terminalId && a.lineStart == b.lineStart && a.lineEnd == b.lineEnd
  {
    if DedupKey(a) == DedupKey(b) {
      LineTextHasNoNul(a.lineEnd);
      LineTextHasNoNul(b.lineEnd);
      LineTextHasNoNul(a.lineStart);
      LineTextHasNoNul(b.lineStart);
      CutAtLast(a.terminalId + ("\0" + LineText(a.lineStart)), b.terminalId + ("\0" + LineText(b.lineStart)),
                LineText(a.lineEnd), LineText(b.lineEnd), '\0');
      CutAtLast(a.terminalId, b.terminalId, LineText(a.lineStart), LineText(b.lineStart), '\0');
      LineTextIsInjective(a.lineStart, b.lineStart);
      LineTextIsInjective(a.lineEnd, b.lineEnd);
    }
  }

  lemma LineTextHasNoNul(line: int)
    ensures '\0' !in LineText(line)
  {
  }

  lemma LineTextIsInjective(x: int, y: int)
    requires LineText(x) == LineText(y)
    ensures x == y
  {
    SignIsVisible(x);
    SignIsVisible(y);
    if x < 0 && y < 0 {
      assert LineText(x)[1..] == NatToString(-x) && LineText(y)[1..] == NatToString(-y);
      PrintingIsInjective(-x, -y);
    } else if x >= 0 && y >= 0 {
      PrintingIsInjective(x, y);
    }
  }

  lemma SignIsVisible(x: int)
    ensures LineText(x) != "" && (LineText(x)[0] == '-' <==> x < 0)
  {
  }

  // ---- Adding to what is stored ----

  // Equal except for the owning thread and the text.
  ghost predicate SameIdentity(a: ContextDraft, b: ContextDraft) {
    a == b.(threadId := a.threadId, text := a.text)
  }

  ghost predicate SamePrefix(xs: seq<ContextDraft>, ys: seq<ContextDraft>) {
    |xs| <= |ys| && forall i :: 0 <= i < |xs| ==> SameIdentity(xs[i], ys[i])
  }

  lemma RenormalizeKeepsIdentity(threadId: string, c: ContextDraft)
    requires WellFormed(c)
    ensures Normalize(threadId, c).Some? && SameIdentity(c, Normalize(threadId, c).value)
  {
    TrimOfTrimmed(c.terminalId);
    TrimOfTrimmed(c.terminalLabel);
  }

  // A stored context, renormalized, clashes with none of those stored before it.
  lemma RenormalizedIsFresh(threadId: string, done: seq<ContextDraft>, kept: seq<ContextDraft>, c: ContextDraft)
    requires Stored(done + [c]) && |kept| == |done| && SamePrefix(done, kept)
    ensures Normalize(threadId, c).Some? && SameIdentity(c, Normalize(threadId, c).value)
    ensures Fresh(kept, Normalize(threadId, c).value)
  {
    assert c in done + [c];
    RenormalizeKeepsIdentity(threadId, c);
    forall a | a in kept ensures a.id != c.id && DedupKey(a) != DedupKey(c) {
      var i :| 0 <= i < |kept| && kept[i] == a;
      assert SameIdentity(done[i], a);
      assert (done + [c])[i] == done[i] && (done + [c])[|done|] == c;
    }
  }

  // Renormalizing stored contexts accepts every one of them, in place.
  lemma {:induction false} RenormalizeStored(threadId: string, done: seq<ContextDraft>, kept: seq<ContextDraft>,
                                             left: seq<ContextDraft>, more: seq<ContextDraft>)
    returns (all: seq<ContextDraft>)
    requires Stored(done + left)
    requires |kept| == |done| && SamePrefix(done, kept)
    ensures |all| == |done + left| && SamePrefix(done + left, all)
    ensures Accept(threadId, kept, left + more) == Accept(threadId, all, more)
    decreases |left|
  {
    if left == [] {
      assert done + left == done && left + more == more;
      all := kept;
    } else {
      var c := left[0];
      assert (done + [c]) + left[1..] == done + left;
      StoredPrefix(done + [c], left[1..]);
      RenormalizedIsFresh(threadId, done, kept, c);
      assert (left + more)[0] == c && (left + more)[1..] == left[1..] + more;
      all := RenormalizeStored(threadId, done + [c], kept + [Normalize(threadId, c).value], left[1..], more);
    }
  }

  lemma StoredPrefix(xs: seq<ContextDraft>, ys: seq<ContextDraft>)
    requires Stored(xs + ys)
    ensures Stored(xs)
  {
    assert forall i :: 0 <= i < |xs| ==> (xs + ys)[i] == xs[i];
    assert forall c :: c in xs ==> c in xs + ys;
  }

  // The new contexts a draft takes on: in order, those that normalize and clash with nothing kept.
  function AcceptedNew(threadId: string, existing: seq<ContextDraft>, more: seq<ContextDraft>): seq<ContextDraft> {
    Accept(threadId, existing, more)[|existing|..]
  }

  // Acceptance looks only at identities, so it selects the same new contexts after either prefix.
  lemma {:induction false} AcceptIgnoresText(threadId: string, xs: seq<ContextDraft>, ys: seq<ContextDraft>,
                                             tail: seq<ContextDraft>, more: seq<ContextDraft>)
    requires |xs| == |ys| && SamePrefix(xs, ys)
    ensures |Accept(threadId, xs + tail, more)| >= |xs| && |Accept(threadId, ys + tail, more)| >= |ys|
    ensures Accept(threadId, xs + tail, more)[|xs|..] == Accept(threadId, ys + tail, more)[|ys|..]
    decreases |more|
  {
    if more == [] {
    } else {
      var n := Normalize(threadId, more[0]);
      if n.Some? {
        assert Fresh(xs + tail, n.value) == Fresh(ys + tail, n.value) by {
          FreshIgnoresText(xs, ys, tail, n.value);
          FreshIgnoresText(ys, xs, tail, n.value);
        }
        if Fresh(xs + tail, n.value) {
          assert (xs + tail) + [n.value] == xs + (tail + [n.value]);
          assert (ys + tail) + [n.value] == ys + (tail + [n.value]);
          AcceptIgnoresText(threadId, xs, ys, tail + [n.value], more[1..]);
        } else {
          AcceptIgnoresText(threadId, xs, ys, tail, more[1..]);
        }
      } else {
        AcceptIgnoresText(threadId, xs, ys, tail, more[1..]);
      }
    }
  }

  lemma FreshIgnoresText(xs: seq<ContextDraft>, ys: seq<ContextDraft>, tail: seq<ContextDraft>, c: ContextDraft)
    requires |xs| == |ys| && SamePrefix(xs, ys)
    ensures Fresh(xs + tail, c) ==> Fresh(ys + tail, c)
  {
    if Fresh(xs + tail, c) {
      forall a | a in ys + tail ensures a.id != c.id && DedupKey(a) != DedupKey(c) {
        if a in ys {
          var i :| 0 <= i < |ys| && ys[i] == a;
          assert xs[i] in xs + tail;
        }
      }
    }
  }

  // Normalizing stored contexts together with new ones and dropping as many as were stored leaves
  // exactly the accepted new ones.
  lemma SliceSelectsAcceptedNew(threadId: string, existing: seq<ContextDraft>, more: seq<ContextDraft>)
    requires Stored(existing)
    ensures var all := NormalizeAll(threadId, existing + more);
            && |existing| <= |all|
            && SamePrefix(existing, all)
            && all[|existing|..] == AcceptedNew(threadId, existing, more)
            && Stored(existing + all[|existing|..])
  {
    SliceIsAcceptedNew(threadId, existing, more);
    AcceptKeepsStored(threadId, existing, more);
    assert existing + AcceptedNew(threadId, existing, more) == Accept(threadId, existing, more);
  }

  lemma SliceIsAcceptedNew(threadId: string, existing: seq<ContextDraft>, more: seq<ContextDraft>)
    requires Stored(existing)
    ensures var all := NormalizeAll(threadId, existing + more);
            && |existing| <= |all| && SamePrefix(existing, all)
            && all[|existing|..] == AcceptedNew(threadId, existing, more)
  {
    assert [] + existing == existing;
    var kept := RenormalizeStored(threadId, [], [], existing, more);
    AcceptOntoSameIdentities(threadId, existing, kept, more);
  }

  lemma AcceptOntoSameIdentities(
    threadId: string, existing: seq<ContextDraft>, kept: seq<ContextDraft>, more: seq<ContextDraft>)
    requires |kept| == |existing| && SamePrefix(existing, kept)
    ensures var all := Accept(threadId, kept, more);
            && |existing| <= |all| && SamePrefix(existing, all)
            && all[|existing|..] == AcceptedNew(threadId, existing, more)
  {
    assert existing + [] == existing && kept + [] == kept;
    AcceptIgnoresText(threadId, existing, kept, [], more);
  }

  // Identities survive renormalizing, but texts need not: one round turns CR CR LF into CR LF, and a
  // second round shortens it again.
  ghost predicate HasCrLf(s: string) {
    exists i :: 0 <= i < |s| - 1 && s[i] == '\r' && s[i + 1] == '\n'
  }

  lemma {:induction false} ReplaceIsIdentityIff(s: string)
    ensures |ReplaceCrLf(s)| <= |s|
    ensures ReplaceCrLf(s) == s <==> !HasCrLf(s)
    ensures HasCrLf(s) ==> |ReplaceCrLf(s)| < |s|
  {
    if s == "" {
    } else if CRLF <= s {
      ReplaceIsIdentityIff(s[2..]);
      assert s[0] == '\r' && s[1] == '\n';
    } else {
      ReplaceIsIdentityIff(s[1..]);
      if HasCrLf(s) {
        var i :| 0 <= i < |s| - 1 && s[i] == '\r' && s[i + 1] == '\n';
        assert i != 0;
        assert s[1..][i - 1] == '\r' && s[1..][i] == '\n';
      }
      if HasCrLf(s[1..]) {
        var i :| 0 <= i < |s[1..]| - 1 && s[1..][i] == '\r' && s[1..][i + 1] == '\n';
        assert s[i + 1] == '\r' && s[i + 2] == '\n';
      }
      assert s == [s[0]] + s[1..];
    }
  }

  ghost predicate NoEdgeNewlines(s: string) {
    s != "" ==> s[0] != '\n' && s[|s| - 1] != '\n'
  }

  lemma {:induction false} DropLeadingEdge(s: string)
    ensures DropLeadingNewlines(s) != "" ==> DropLeadingNewlines(s)[0] != '\n'
    ensures |DropLeadingNewlines(s)| <= |s|
  {
    if s != "" && s[0] == '\n' {
      DropLeadingEdge(s[1..]);
    }
  }

  lemma {:induction false} DropTrailingEdge(s: string)
    ensures DropTrailingNewlines(s) <= s
    ensures DropTrailingNewlines(s) != "" ==> DropTrailingNewlines(s)[|DropTrailingNewlines(s)| - 1] != '\n'
    decreases |s|
  {
    if s != "" && s[|s| - 1] == '\n' {
      DropTrailingEdge(s[..|s| - 1]);
    }
  }

  // The character at j is neither a line feed nor the carriage return of a CR LF.
  ghost predicate KeptAt(text: string, j: nat) {
    j < |text| && text[j] != '\n' && !(j + 1 < |text| && text[j] == '\r' && text[j + 1] == '\n')
  }

  ghost predicate HasKept(text: string) {
    exists j: nat :: KeptAt(text, j)
  }

  // A CR CR LF starts at i and the text does not just end in line breaks after it.
  ghost predicate DoubledAt(text: string, i: nat) {
    i + 3 <= |text| && text[i] == '\r' && text[i + 1] == '\r' && text[i + 2] == '\n' && HasKept(text[i + 3..])
  }

  ghost predicate NeedsTwoRounds(text: string) {
    exists i: nat :: DoubledAt(text, i)
  }

  ghost predicate HasContent(s: string) {
    exists q :: 0 <= q < |s| && s[q] != '\n'
  }

  // A CR LF at p with something other than line feeds behind it.
  ghost predicate SpanAt(s: string, p: nat) {
    p + 2 <= |s| && s[p] == '\r' && s[p + 1] == '\n' && HasContent(s[p + 2..])
  }

  ghost predicate Spans(s: string) {
    exists p: nat :: SpanAt(s, p)
  }

  lemma ContentCons(c: char, s: string)
    ensures HasContent([c] + s) <==> c != '\n' || HasContent(s)
  {
    var t := [c] + s;
    if HasContent(s) {
      var q :| 0 <= q < |s| && s[q] != '\n';
      assert t[q + 1] != '\n';
    }
    if HasContent(t) && c == '\n' {
      var q :| 0 <= q < |t| && t[q] != '\n';
      assert s[q - 1] != '\n';
    }
    assert t[0] == c;
  }

  lemma KeptCons(c: char, s: string)
    ensures HasKept([c] + s) <==> KeptAt([c] + s, 0) || HasKept(s)
  {
    var t := [c] + s;
    forall j: nat ensures KeptAt(t, j + 1) == KeptAt(s, j) {
    }
    if HasKept(t) && !KeptAt(t, 0) {
      var j: nat :| KeptAt(t, j);
      assert KeptAt(s, j - 1);
    }
    if HasKept(s) {
      var j: nat :| KeptAt(s, j);
      assert KeptAt(t, j + 1);
    }
  }

  lemma SpanCons(c: char, s: string)
    ensures Spans([c] + s) <==> SpanAt([c] + s, 0) || Spans(s)
  {
    var t := [c] + s;
    if Spans(t) && !SpanAt(t, 0) {
      var p: nat :| SpanAt(t, p);
      SpanShift(c, s, p - 1);
      assert SpanAt(s, p - 1);
    }
    if Spans(s) {
      var p: nat :| SpanAt(s, p);
      SpanShift(c, s, p);
      assert SpanAt(t, p + 1);
    }
  }

  lemma SpanShift(c: char, s: string, p: nat)
    ensures SpanAt([c] + s, p + 1) == SpanAt(s, p)
  {
    if p + 2 <= |s| {
      assert ([c] + s)[p + 1 + 2..] == s[p + 2..];
    }
  }

  lemma DoubledCons(c: char, s: string)
    ensures NeedsTwoRounds([c] + s) <==> DoubledAt([c] + s, 0) || NeedsTwoRounds(s)
  {
    var t := [c] + s;
    if NeedsTwoRounds(t) && !DoubledAt(t, 0) {
      var i: nat :| DoubledAt(t, i);
      DoubledShift(c, s, i - 1);
      assert DoubledAt(s, i - 1);
    }
    if NeedsTwoRounds(s) {
      var i: nat :| DoubledAt(s, i);
      DoubledShift(c, s, i);
      assert DoubledAt(t, i + 1);
    }
  }

  lemma DoubledShift(c: char, s: string, i: nat)
    ensures DoubledAt([c] + s, i + 1) == DoubledAt(s, i)
  {
    if i + 3 <= |s| {
      assert ([c] + s)[i + 1 + 3..] == s[i + 3..];
    }
  }

  lemma {:induction false} ReplacingKeepsContent(s: string)
    ensures HasContent(ReplaceCrLf(s)) <==> HasKept(s)
  {
    if s == "" {
    } else if CRLF <= s {
      ReplacingKeepsContent(s[2..]);
      ContentCons('\n', ReplaceCrLf(s[2..]));
      assert s[1..] == ['\n'] + s[2..] && s == ['\r'] + s[1..];
      KeptCons('\n', s[2..]);
      KeptCons('\r', s[1..]);
    } else {
      ReplacingKeepsContent(s[1..]);
      ContentCons(s[0], ReplaceCrLf(s[1..]));
      assert s == [s[0]] + s[1..];
      KeptCons(s[0], s[1..]);
    }
  }

  lemma {:induction false} ReplacingLeavesCrLfIff(s: string)
    ensures Spans(ReplaceCrLf(s)) <==> NeedsTwoRounds(s)
  {
    if s == "" {
    } else if CRLF <= s {
      ReplacingLeavesCrLfIff(s[2..]);
      SpanCons('\n', ReplaceCrLf(s[2..]));
      assert s[1..] == ['\n'] + s[2..] && s == ['\r'] + s[1..];
      DoubledCons('\n', s[2..]);
      DoubledCons('\r', s[1..]);
    } else {
      var rest := s[1..];
      ReplacingLeavesCrLfIff(rest);
      SpanCons(s[0], ReplaceCrLf(rest));
      assert s == [s[0]] + rest;
      DoubledCons(s[0], rest);
      LineFeedInFront(s);
    }
  }

  // A CR LF comes about at the front exactly where a CR stands before a CR LF.
  lemma LineFeedInFront(s: string)
    requires s != "" && !(CRLF <= s)
    ensures SpanAt([s[0]] + ReplaceCrLf(s[1..]), 0) <==> DoubledAt(s, 0)
  {
    var rest := s[1..];
    var r := [s[0]] + ReplaceCrLf(rest);
    if CRLF <= rest {
      assert rest[0] == '\r' && rest[1] == '\n' && rest[2..] == s[3..];
      assert r[2..] == ReplaceCrLf(rest[2..]);
      ReplacingKeepsContent(rest[2..]);
    } else if rest != "" {
      assert r[1] == rest[0];
      assert DoubledAt(s, 0) ==> CRLF <= rest;
    }
  }

  lemma {:induction false} DroppingLeadingKeepsSpans(s: string)
    ensures Spans(DropLeadingNewlines(s)) <==> Spans(s)
  {
    if s == "" || s[0] != '\n' {
    } else {
      DroppingLeadingKeepsSpans(s[1..]);
      assert s == [s[0]] + s[1..];
      SpanCons(s[0], s[1..]);
    }
  }

  lemma {:induction false} DroppingTrailingLeavesSpans(s: string)
    ensures HasCrLf(DropTrailingNewlines(s)) <==> Spans(s)
    decreases |s|
  {
    if s == "" {
    } else if s[|s| - 1] != '\n' {
      EndedByContent(s);
    } else {
      var init := s[..|s| - 1];
      DroppingTrailingLeavesSpans(init);
      forall p: nat ensures SpanAt(s, p) == SpanAt(init, p) {
        LastLineFeedIsNoContent(s, p);
      }
    }
  }

  lemma EndedByContent(s: string)
    requires s != "" && s[|s| - 1] != '\n'
    ensures HasCrLf(s) <==> Spans(s)
  {
    if HasCrLf(s) {
      var i: nat :| i < |s| - 1 && s[i] == '\r' && s[i + 1] == '\n';
      assert s[i + 2..][|s| - i - 3] == s[|s| - 1];
      assert SpanAt(s, i);
    }
  }

  lemma LastLineFeedIsNoContent(s: string, p: nat)
    requires s != "" && s[|s| - 1] == '\n'
    ensures SpanAt(s, p) == SpanAt(s[..|s| - 1], p)
  {
    var init := s[..|s| - 1];
    if p + 2 <= |init| {
      var tail, all := init[p + 2..], s[p + 2..];
      assert |all| == |tail| + 1 && forall q :: 0 <= q < |tail| ==> all[q] == tail[q];
      assert all[|tail|] == '\n';
    } else if p + 2 == |s| {
      assert s[p + 2..] == "";
    }
  }

  // Normalizing a text again changes nothing, unless the text holds a CR CR LF that does not belong to
  // its trailing line breaks; then it always changes something.
  lemma NormalizingTextIsStableIff(text: string)
    ensures NormalizeText(NormalizeText(text)) == NormalizeText(text) <==> !NeedsTwoRounds(text)
  {
    var once := NormalizeText(text);
    DropLeadingEdge(ReplaceCrLf(text));
    DropTrailingEdge(DropLeadingNewlines(ReplaceCrLf(text)));
    assert NoEdgeNewlines(once);
    ReplaceIsIdentityIff(once);
    DropLeadingEdge(ReplaceCrLf(once));
    DropTrailingEdge(DropLeadingNewlines(ReplaceCrLf(once)));
    ReplacingLeavesCrLfIff(text);
    DroppingLeadingKeepsSpans(ReplaceCrLf(text));
    DroppingTrailingLeavesSpans(DropLeadingNewlines(ReplaceCrLf(text)));
  }

  lemma NormalizingTextIsNotStable()
    ensures NormalizeText("a\r\r\nb") == "a\r\nb"
    ensures NormalizeText("a\r\nb") == "a\nb"
  {
    var b := "b";
    assert ReplaceCrLf(b) == b;
    var crlf := "\r\nb";
    assert crlf[2..] == b;
    assert ReplaceCrLf(crlf) == "\nb";
    var crcrlf := "\r\r\nb";
    assert crcrlf[1..] == crlf;
    assert ReplaceCrLf(crcrlf) == "\r\nb";
    assert ("a" + crlf)[1..] == crlf && ("a" + crcrlf)[1..] == crcrlf;
    assert ReplaceCrLf("a" + crlf) == "a\nb";
    assert ReplaceCrLf("a" + crcrlf) == "a\r\nb";
  }
}
