// Splitting a composer prompt into text, mentions, skills and terminal contexts.
module ComposerSegments {
  import opened Text
  import opened TerminalContexts

  datatype Segment =
    | TextSegment(text: string)
    | MentionSegment(path: string)
    | SkillSegment(name: string)
    | TerminalSegment(context: Option<ContextDraft>)

  // ---- Inline tokens: "@path" and "$skill", delimited by white space ----

  datatype Kind = Mention | Skill

  datatype Match = Match(kind: Kind, start: nat, end: nat)

  function Sigil(kind: Kind): char {
    match kind
    case Mention => '@'
    case Skill => '$'
  }

  predicate MayStart(kind: Kind, c: char) {
    match kind
    case Mention => !IsSpace(c) && c != '@'
    case Skill => IsLetter(c)
  }

  predicate MayContinue(kind: Kind, c: char) {
    match kind
    case Mention => !IsSpace(c) && c != '@'
    case Skill => IsLetter(c) || IsDigit(c) || c == ':' || c == '_' || c == '-'
  }

  // The end of the longest run of token characters from i.
  function RunEnd(kind: Kind, text: string, i: nat): (end: nat)
    requires i <= |text|
    ensures i <= end <= |text|
    ensures forall k :: i <= k < end ==> MayContinue(kind, text[k])
    ensures end < |text| ==> !MayContinue(kind, text[end])
    decreases |text| - i
  {
    if i == |text| || !MayContinue(kind, text[i]) then i else RunEnd(kind, text, i + 1)
  }

  // Matches sigil, name and the white space that must follow. The name is taken greedily; giving
  // characters back never helps, since none of them is white space.
  function TokenEnd(kind: Kind, text: string, start: nat): Option<nat> {
    if start + 1 < |text| && text[start] == Sigil(kind) && MayStart(kind, text[start + 1]) then
      var end := RunEnd(kind, text, start + 1);
      if end < |text| && IsSpace(text[end]) then Some(end) else None
    else None
  }

  // One attempt of the regular expression at index i: at the start of the text, or after a
  // white-space character consumed at i.
  function MatchAt(kind: Kind, text: string, i: nat): Option<Match>
    requires i < |text|
  {
    if i == 0 && TokenEnd(kind, text, 0).Some? then Some(Match(kind, 0, TokenEnd(kind, text, 0).value))
    else if IsSpace(text[i]) && TokenEnd(kind, text, i + 1).Some? then
      Some(Match(kind, i + 1, TokenEnd(kind, text, i + 1).value))
    else None
  }

  // All matches from index i on, left to right, each search resuming where the last match ended.
  function Scan(kind: Kind, text: string, i: nat): seq<Match>
    requires i <= |text|
    decreases |text| - i
  {
    if i == |text| then []
    else
      match MatchAt(kind, text, i)
      case None => Scan(kind, text, i + 1)
      case Some(m) => [m] + Scan(kind, text, m.end)
  }

  function SortByStart(ms: seq<Match>): seq<Match> {
    if ms == [] then [] else InsertByStart(ms[0], SortByStart(ms[1..]))
  }

  function InsertByStart(m: Match, sorted: seq<Match>): seq<Match> {
    if sorted == [] || m.start <= sorted[0].start then [m] + sorted
    else [sorted[0]] + InsertByStart(m, sorted[1..])
  }

  function CollectMatches(text: string): seq<Match> {
    SortByStart(Scan(Mention, text, 0) + Scan(Skill, text, 0))
  }

  // ---- Splitting ----

  function TokenSegment(text: string, m: Match): Segment
    requires m.start < m.end <= |text|
  {
    var value := text[m.start + 1..m.end];
    match m.kind
    case Mention => MentionSegment(value)
    case Skill => SkillSegment(value)
  }

  function TextPart(text: string): seq<Segment> {
    if text == "" then [] else [TextSegment(text)]
  }

  ghost predicate InText(text: string, ms: seq<Match>) {
    forall m :: m in ms ==> m.start < m.end <= |text|
  }

  function SplitFrom(text: string, cursor: nat, ms: seq<Match>): seq<Segment>
    requires cursor <= |text| && InText(text, ms)
    decreases |ms|
  {
    if ms == [] then TextPart(text[cursor..])
    else if ms[0].start < cursor then SplitFrom(text, cursor, ms[1..])
    else TextPart(text[cursor..ms[0].start]) + [TokenSegment(text, ms[0])] + SplitFrom(text, ms[0].end, ms[1..])
  }

  // ---- An independent description of inline tokens ----

  // text[s..e] is a token: it begins the text or follows white space, and white space follows it.
  ghost predicate IsToken(kind: Kind, text: string, s: nat, e: nat) {
    && s + 1 < e < |text|
    && (s == 0 || IsSpace(text[s - 1]))
    && text[s] == Sigil(kind) && MayStart(kind, text[s + 1])
    && (forall k :: s < k < e ==> MayContinue(kind, text[k]))
    && IsSpace(text[e])
  }

  lemma TokenEndIffToken(kind: Kind, text: string, s: nat, e: nat)
    requires s == 0 || (s <= |text| && IsSpace(text[s - 1]))
    ensures TokenEnd(kind, text, s) == Some(e) <==> IsToken(kind, text, s, e)
  {
    if IsToken(kind, text, s, e) {
      var end := RunEnd(kind, text, s + 1);
      assert !MayContinue(kind, text[e]);
      assert end == e;
    }
  }

  // A later token starts beyond the white space that ends an earlier one, whatever their kinds.
  lemma TokensAreSeparate(kind: Kind, text: string, s: nat, e: nat, kind': Kind, s': nat, e': nat)
    requires IsToken(kind, text, s, e) && IsToken(kind', text, s', e')
    ensures s < s' ==> e < s'
    ensures s == s' ==> kind == kind' && e == e'
  {
    if s < s' {
      assert IsSpace(text[s' - 1]);
      assert forall k :: s <= k < e ==> !IsSpace(text[k]);
    } else if s == s' {
      TokenEndIffToken(kind, text, s, e);
      TokenEndIffToken(kind', text, s', e');
    }
  }

  ghost predicate Separate(ms: seq<Match>) {
    forall i, j :: 0 <= i < j < |ms| ==> ms[i].end < ms[j].start
  }

  // A scan finds, in order, exactly the tokens that lie ahead of it.
  lemma {:induction false} ScanFindsTokens(kind: Kind, text: string, i: nat)
    requires i <= |text|
    ensures forall m :: m in Scan(kind, text, i) <==> Ahead(kind, text, i, m)
    decreases |text| - i
  {
    if i < |text| {
      match MatchAt(kind, text, i)
      case None =>
        NoTokenHere(kind, text, i);
        ScanFindsTokens(kind, text, i + 1);
      case Some(found) =>
        TokenHere(kind, text, i);
        ScanFindsTokens(kind, text, found.end);
    }
  }

  ghost predicate Ahead(kind: Kind, text: string, i: nat, m: Match) {
    m.kind == kind && (m.start > i || m.start == i == 0) && IsToken(kind, text, m.start, m.end)
  }

  lemma NoTokenHere(kind: Kind, text: string, i: nat)
    requires i < |text| && MatchAt(kind, text, i).None?
    ensures forall m :: Ahead(kind, text, i, m) <==> Ahead(kind, text, i + 1, m)
  {
    forall m | Ahead(kind, text, i, m) ensures m.start > i + 1 {
      if m.start <= i + 1 {
        TokenEndIffToken(kind, text, m.start, m.end);
      }
    }
  }

  lemma TokenHere(kind: Kind, text: string, i: nat)
    requires i < |text| && MatchAt(kind, text, i).Some?
    ensures var found := MatchAt(kind, text, i).value;
            && i < found.end <= |text|
            && forall m :: Ahead(kind, text, i, m) <==> m == found || Ahead(kind, text, found.end, m)
  {
    var found := MatchAt(kind, text, i).value;
    TokenEndIffToken(kind, text, found.start, found.end);
    forall m | Ahead(kind, text, i, m) ensures m == found || m.start > found.end {
      TokensAreSeparate(kind, text, found.start, found.end, kind, m.start, m.end);
      TokensAreSeparate(kind, text, m.start, m.end, kind, found.start, found.end);
    }
  }

  lemma {:induction false} InsertKeepsMembers(m: Match, ms: seq<Match>)
    ensures forall x :: x in InsertByStart(m, ms) <==> x == m || x in ms
    ensures multiset(InsertByStart(m, ms)) == multiset{m} + multiset(ms)
  {
    if ms == [] {
    } else {
      assert ms == [ms[0]] + ms[1..];
      if m.start > ms[0].start {
        InsertKeepsMembers(m, ms[1..]);
      }
    }
  }

  ghost predicate Ordered(ms: seq<Match>) {
    forall i, j :: 0 <= i < j < |ms| ==> ms[i].start <= ms[j].start
  }

  lemma {:induction false} InsertKeepsOrdered(m: Match, ms: seq<Match>)
    requires Ordered(ms)
    ensures Ordered(InsertByStart(m, ms))
  {
    if ms != [] && m.start > ms[0].start {
      InsertKeepsOrdered(m, ms[1..]);
      InsertKeepsMembers(m, ms[1..]);
      var t := InsertByStart(m, ms[1..]);
      forall i | 0 <= i < |t| ensures ms[0].start <= t[i].start {
        assert t[i] in t;
      }
    }
  }

  lemma {:induction false} SortIsOrdered(ms: seq<Match>)
    ensures Ordered(SortByStart(ms))
    ensures forall x :: x in SortByStart(ms) <==> x in ms
    ensures multiset(SortByStart(ms)) == multiset(ms)
  {
    if ms == [] {
    } else {
      SortIsOrdered(ms[1..]);
      InsertKeepsOrdered(ms[0], SortByStart(ms[1..]));
      InsertKeepsMembers(ms[0], SortByStart(ms[1..]));
      assert ms == [ms[0]] + ms[1..];
    }
  }

  lemma {:induction false} ScanHasNoRepeats(kind: Kind, text: string, i: nat)
    requires i <= |text|
    ensures forall m :: multiset(Scan(kind, text, i))[m] <= 1
    decreases |text| - i
  {
    if i < |text| {
      match MatchAt(kind, text, i)
      case None => ScanHasNoRepeats(kind, text, i + 1);
      case Some(found) =>
        TokenEndIffToken(kind, text, found.start, found.end);
        ScanHasNoRepeats(kind, text, found.end);
        ScanFindsTokens(kind, text, found.end);
        assert found !in Scan(kind, text, found.end);
    }
  }

  lemma CollectHasNoRepeats(text: string)
    ensures forall m :: m in CollectMatches(text) <==> IsToken(m.kind, text, m.start, m.end)
    ensures forall m :: multiset(CollectMatches(text))[m] <= 1
    ensures Ordered(CollectMatches(text))
  {
    var mentions, skills := Scan(Mention, text, 0), Scan(Skill, text, 0);
    ScanFindsTokens(Mention, text, 0);
    ScanFindsTokens(Skill, text, 0);
    ScanHasNoRepeats(Mention, text, 0);
    ScanHasNoRepeats(Skill, text, 0);
    SortIsOrdered(mentions + skills);
    forall m ensures multiset(CollectMatches(text))[m] <= 1 {
      assert multiset(CollectMatches(text))[m] == multiset(mentions)[m] + multiset(skills)[m];
      assert m.kind == Mention ==> m !in skills;
      assert m.kind == Skill ==> m !in mentions;
    }
  }

  // The collected matches are exactly the tokens of the text, in order and clear of one another, so
  // the splitter never has to skip one.
  lemma CollectFindsTokens(text: string)
    ensures forall m :: m in CollectMatches(text) <==> IsToken(m.kind, text, m.start, m.end)
    ensures Separate(CollectMatches(text))
  {
    var ms := CollectMatches(text);
    CollectHasNoRepeats(text);
    forall i, j | 0 <= i < j < |ms| ensures ms[i].end < ms[j].start {
      var a, b := ms[i], ms[j];
      assert a in ms && b in ms;
      TokensAreSeparate(a.kind, text, a.start, a.end, b.kind, b.start, b.end);
      if a.start == b.start {
        RepeatedTwice(ms, i, j);
      }
    }
  }

  lemma RepeatedTwice(ms: seq<Match>, i: nat, j: nat)
    requires i < j < |ms| && ms[i] == ms[j]
    ensures multiset(ms)[ms[i]] >= 2
  {
    assert ms == ms[..j] + [ms[j]] + ms[j + 1..];
    assert ms[..j][i] == ms[i];
    assert ms[i] in ms[..j];
  }

  // Which names can be written behind "@" and behind "$".
  predicate IsWritable(kind: Kind, name: string) {
    && name != ""
    && match kind
       case Mention => forall i :: 0 <= i < |name| ==> !IsSpace(name[i]) && name[i] != '@'
       case Skill =>
         && ('a' <= name[0] <= 'z' || 'A' <= name[0] <= 'Z')
         && forall i :: 0 <= i < |name| ==>
              'a' <= name[i] <= 'z' || 'A' <= name[i] <= 'Z' || '0' <= name[i] <= '9' || name[i] in ":_-"
  }

  // A name that is written into a prompt is found as a mention or a skill exactly if it can be written, begins
  // the prompt or follows white space, and white space follows it.
  lemma WrittenNameIsFoundIff(kind: Kind, before: string, name: string, after: string)
    ensures var text := before + (if kind == Mention then "@" else "$") + name + after;
            Match(kind, |before|, |before| + 1 + |name|) in CollectMatches(text) <==>
              && IsWritable(kind, name)
              && (before == "" || IsSpace(before[|before| - 1]))
              && after != "" && IsSpace(after[0])
  {
    var sigil := if kind == Mention then "@" else "$";
    var text := before + sigil + name + after;
    TextAround(before, sigil, name, after);
    TokenOfName(kind, text, |before|, name);
    CollectedIffToken(text, Match(kind, |before|, |before| + 1 + |name|));
  }

  lemma CollectedIffToken(text: string, m: Match)
    ensures m in CollectMatches(text) <==> IsToken(m.kind, text, m.start, m.end)
  {
    CollectFindsTokens(text);
  }

  ghost predicate Follows(text: string, at: nat, name: string) {
    at + |name| <= |text| && forall i :: 0 <= i < |name| ==> text[at + i] == name[i]
  }

  lemma TokenOfName(kind: Kind, text: string, s: nat, name: string)
    requires Follows(text, s + 1, name)
    ensures var e := s + 1 + |name|;
            IsToken(kind, text, s, e) <==>
              && text[s] == Sigil(kind) && IsWritable(kind, name) && (s == 0 || IsSpace(text[s - 1]))
              && e < |text| && IsSpace(text[e])
  {
    if IsToken(kind, text, s, s + 1 + |name|) {
      forall i | 0 <= i < |name| ensures MayContinue(kind, name[i]) {
        assert MayContinue(kind, text[s + 1 + i]);
      }
    }
    if IsWritable(kind, name) {
      forall k | s < k < s + 1 + |name| ensures MayContinue(kind, text[k]) {
        assert text[k] == name[k - s - 1];
      }
    }
  }

  lemma TextAround(before: string, sigil: string, name: string, after: string)
    requires |sigil| == 1
    ensures var text := before + sigil + name + after;
            && text[|before|] == sigil[0]
            && (before != "" ==> text[|before| - 1] == before[|before| - 1])
            && Follows(text, |before| + 1, name)
            && (after != "" ==> text[|before| + 1 + |name|] == after[0])
  {
  }

  function SplitText(text: string): seq<Segment> {
    CollectFindsTokens(text);
    SplitFrom(text, 0, CollectMatches(text))
  }

  // Splits the prompt at its placeholders and pairs the k-th with the k-th context.
  function SplitPrompt(prompt: string, contexts: seq<ContextDraft>, k: nat): seq<Segment>
    decreases |prompt|
  {
    var i := PlaceholderIndex(prompt);
    if i == |prompt| then SplitText(prompt)
    else
      SplitText(prompt[..i]) + [TerminalSegment(ContextAt(contexts, k))] + SplitPrompt(prompt[i + 1..], contexts, k + 1)
  }

  function SplitWhole(prompt: string, contexts: seq<ContextDraft>): seq<Segment> {
    SplitPrompt(prompt, contexts, 0)
  }

  function ContextAt(contexts: seq<ContextDraft>, k: nat): Option<ContextDraft> {
    if k < |contexts| then Some(contexts[k]) else None
  }

  function PlaceholderIndex(prompt: string): (i: nat)
    ensures i <= |prompt| && PLACEHOLDER !in prompt[..i]
    ensures i < |prompt| ==> prompt[i] == PLACEHOLDER
  {
    if prompt == "" || prompt[0] == PLACEHOLDER then 0
    else
      var i := 1 + PlaceholderIndex(prompt[1..]);
      assert prompt[..i] == [prompt[0]] + prompt[1..][..i - 1];
      i
  }

  // ---- The loops ----

  // Appends text, so that it joins a text segment at the end.
  function Pushed(segments: seq<Segment>, text: string): seq<Segment> {
    var n := |segments| - 1;
    if text == "" then segments
    else if segments != [] && segments[n].TextSegment? then segments[..n] + [TextSegment(segments[n].text + text)]
    else segments + [TextSegment(text)]
  }

  method PushTextSegment(segments: seq<Segment>, text: string) returns (r: seq<Segment>)
    ensures r == Pushed(segments, text)
  {
    if text == "" {
      return segments;
    }
    if |segments| > 0 && segments[|segments| - 1].TextSegment? {
      return segments[..|segments| - 1] + [TextSegment(segments[|segments| - 1].text + text)];
    }
    return segments + [TextSegment(text)];
  }

  lemma PushedBehindToken(segments: seq<Segment>, text: string)
    requires segments != [] ==> !segments[|segments| - 1].TextSegment?
    ensures Pushed(segments, text) == segments + TextPart(text)
  {
  }

  lemma SplitTextIsSplitFrom(text: string)
    ensures InText(text, CollectMatches(text))
    ensures SplitText(text) == SplitFrom(text, 0, CollectMatches(text))
  {
    CollectFindsTokens(text);
  }

  lemma SplitFromStep(text: string, cursor: nat, ms: seq<Match>, i: nat, segments: seq<Segment>)
    requires cursor <= |text| && InText(text, ms) && i < |ms|
    ensures InText(text, ms[i..]) && InText(text, ms[i + 1..]) && ms[i].start < ms[i].end <= |text|
    ensures ms[i].start < cursor ==> SplitFrom(text, cursor, ms[i..]) == SplitFrom(text, cursor, ms[i + 1..])
    ensures ms[i].start >= cursor ==>
              segments + SplitFrom(text, cursor, ms[i..])
              == (segments + TextPart(text[cursor..ms[i].start]) + [TokenSegment(text, ms[i])]) +
                  SplitFrom(text, ms[i].end, ms[i + 1..])
  {
    assert ms[i] in ms;
    assert ms[i..][1..] == ms[i + 1..];
  }

  method SplitPromptTextIntoComposerSegments(text: string) returns (segments: seq<Segment>)
    ensures segments == SplitText(text)
  {
    SplitTextIsSplitFrom(text);
    var matches := CollectMatches(text);
    assert matches[0..] == matches;
    segments := [];
    var cursor: nat := 0;
    ghost var whole := SplitFrom(text, 0, matches);
    for i := 0 to |matches|
      invariant cursor <= |text|
      invariant InText(text, matches[i..]) && segments + SplitFrom(text, cursor, matches[i..]) == whole
      invariant segments != [] ==> !segments[|segments| - 1].TextSegment?
    {
      var m := matches[i];
      SplitFromStep(text, cursor, matches, i, segments);
      if m.start < cursor {
        continue;
      }
      PushedBehindToken(segments, text[cursor..m.start]);
      if m.start > cursor {
        segments := PushTextSegment(segments, text[cursor..m.start]);
      }
      segments := segments + [TokenSegment(text, m)];
      cursor := m.end;
    }
    PushedBehindToken(segments, text[cursor..]);
    if cursor < |text| {
      segments := PushTextSegment(segments, text[cursor..]);
    }
  }

  ghost predicate NoPlaceholder(prompt: string, from: nat, to: nat)
    requires to <= |prompt|
  {
    forall j :: from <= j < to ==> prompt[j] != PLACEHOLDER
  }

  // What the loop over the prompt still has to produce at an index, with text pending from `from`.
  function SplitOnward(prompt: string, from: nat, index: nat, contexts: seq<ContextDraft>, k: nat): seq<Segment>
    requires from <= index <= |prompt|
    decreases |prompt| - index
  {
    if index == |prompt| then SplitText(prompt[from..])
    else if prompt[index] != PLACEHOLDER then SplitOnward(prompt, from, index + 1, contexts, k)
    else
      SplitText(prompt[from..index]) + [TerminalSegment(ContextAt(contexts, k))]
      + SplitOnward(prompt, index + 1, index + 1, contexts, k + 1)
  }

  lemma {:induction false} SplitOnwardIsSplit(
      prompt: string, from: nat, index: nat, contexts: seq<ContextDraft>, k: nat)
    requires from <= index <= |prompt| && NoPlaceholder(prompt, from, index)
    ensures SplitOnward(prompt, from, index, contexts, k) == SplitPrompt(prompt[from..], contexts, k)
    decreases |prompt| - index
  {
    if index == |prompt| {
      SplitWithoutPlaceholder(prompt[from..], contexts, k);
    } else if prompt[index] != PLACEHOLDER {
      SplitOnwardIsSplit(prompt, from, index + 1, contexts, k);
    } else {
      SplitOnwardIsSplit(prompt, index + 1, index + 1, contexts, k + 1);
      var rest := SplitOnward(prompt, index + 1, index + 1, contexts, k + 1);
      SplitAtPlaceholder(prompt, from, index, contexts, k, rest);
    }
  }

  method SplitPromptIntoComposerSegments(prompt: string, contexts: seq<ContextDraft>) returns (segments: seq<Segment>)
    ensures segments == SplitWhole(prompt, contexts)
  {
    SplitOnwardIsSplit(prompt, 0, 0, contexts, 0);
    assert prompt[0..] == prompt;
    segments := SplitSlices(prompt, contexts);
  }

  method SplitSlices(prompt: string, contexts: seq<ContextDraft>) returns (segments: seq<Segment>)
    ensures segments == SplitOnward(prompt, 0, 0, contexts, 0)
  {
    segments := [];
    var terminalContextIndex: nat := 0;
    var textCursor: nat := 0;
    for index := 0 to |prompt|
      invariant textCursor <= index
      invariant segments + SplitOnward(prompt, textCursor, index, contexts, terminalContextIndex)
             == SplitOnward(prompt, 0, 0, contexts, 0)
    {
      if prompt[index] != PLACEHOLDER {
        continue;
      }
      var slice := SplitPromptTextIntoComposerSegments(prompt[textCursor..index]);
      segments := segments + (slice + [TerminalSegment(ContextAt(contexts, terminalContextIndex))]);
      terminalContextIndex := terminalContextIndex + 1;
      textCursor := index + 1;
    }
    var last := SplitPromptTextIntoComposerSegments(prompt[textCursor..]);
    segments := segments + last;
  }

  lemma SplitAtPlaceholder(
    prompt: string, from: nat, index: nat, contexts: seq<ContextDraft>, k: nat, rest: seq<Segment>)
    requires from <= index < |prompt| && prompt[index] == PLACEHOLDER && NoPlaceholder(prompt, from, index)
    requires rest == SplitPrompt(prompt[index + 1..], contexts, k + 1)
    ensures SplitPrompt(prompt[from..], contexts, k)
         == SplitText(prompt[from..index]) + [TerminalSegment(ContextAt(contexts, k))] + rest
  {
    PlaceholderIndexFrom(prompt, from, index);
    SlicesAround(prompt, from, index);
    SplitAtIndex(prompt[from..], index - from, contexts, k);
  }

  lemma SlicesAround(prompt: string, from: nat, index: nat)
    requires from <= index < |prompt|
    ensures prompt[from..][..index - from] == prompt[from..index]
    ensures prompt[from..][index - from + 1..] == prompt[index + 1..]
  {
  }

  lemma SplitAtIndex(text: string, i: nat, contexts: seq<ContextDraft>, k: nat)
    requires i < |text| && PlaceholderIndex(text) == i
    ensures SplitPrompt(text, contexts, k)
         == SplitText(text[..i]) + [TerminalSegment(ContextAt(contexts, k))] +
             SplitPrompt(text[i + 1..], contexts, k + 1)
  {
  }

  lemma PlaceholderIndexFrom(prompt: string, from: nat, index: nat)
    requires from <= index <= |prompt| && NoPlaceholder(prompt, from, index)
    requires index < |prompt| ==> prompt[index] == PLACEHOLDER
    ensures PlaceholderIndex(prompt[from..]) == index - from
  {
    PlaceholderIndexIs(prompt[from..], index - from);
  }

  lemma SplitWithoutPlaceholder(text: string, contexts: seq<ContextDraft>, k: nat)
    requires PLACEHOLDER !in text
    ensures SplitPrompt(text, contexts, k) == SplitText(text)
  {
    assert text[..|text|] == text;
    PlaceholderIndexIs(text, |text|);
  }

  lemma PlaceholderIndexIs(s: string, i: nat)
    requires i <= |s| && PLACEHOLDER !in s[..i]
    requires i < |s| ==> s[i] == PLACEHOLDER
    ensures PlaceholderIndex(s) == i
  {
    var p := PlaceholderIndex(s);
    assert forall j :: 0 <= j < i ==> s[j] == s[..i][j];
    assert forall j :: 0 <= j < p ==> s[j] == s[..p][j];
  }

  // ---- Lossless ----

  function Render(segment: Segment): string {
    match segment
    case TextSegment(text) => text
    case MentionSegment(path) => "@" + path
    case SkillSegment(name) => "$" + name
    case TerminalSegment(_) => [PLACEHOLDER]
  }

  function RenderAll(segments: seq<Segment>): string {
    if segments == [] then "" else Render(segments[0]) + RenderAll(segments[1..])
  }

  lemma {:induction false} RenderConcat(xs: seq<Segment>, ys: seq<Segment>)
    ensures RenderAll(xs + ys) == RenderAll(xs) + RenderAll(ys)
  {
    if xs == [] {
      assert xs + ys == ys;
    } else {
      assert (xs + ys)[0] == xs[0] && (xs + ys)[1..] == xs[1..] + ys;
      RenderConcat(xs[1..], ys);
    }
  }

  lemma RenderTextPart(text: string)
    ensures RenderAll(TextPart(text)) == text
  {
    if text != "" {
      assert TextPart(text)[1..] == [];
    }
  }

  // Pushing keeps text segments nonempty, free of placeholders and apart from each other...
  lemma PushingKeepsGood(segments: seq<Segment>, text: string)
    requires GoodText(segments) && PLACEHOLDER !in text
    ensures GoodText(Pushed(segments, text))
  {
    var r, n := Pushed(segments, text), |segments| - 1;
    forall i | 0 <= i < |r| && r[i].TextSegment? ensures r[i].text != "" && PLACEHOLDER !in r[i].text {
      assert i < |segments| ==> segments[i] in segments;
    }
  }

  // ... and adds exactly the text to what is rendered.
  lemma PushingAddsText(segments: seq<Segment>, text: string)
    ensures RenderAll(Pushed(segments, text)) == RenderAll(segments) + text
    ensures TerminalsOf(Pushed(segments, text)) == TerminalsOf(segments)
  {
    var n := |segments| - 1;
    if text == "" {
    } else if segments != [] && segments[n].TextSegment? {
      assert segments == segments[..n] + [segments[n]];
      LastTextGrows(segments[..n], segments[n].text, text);
    } else {
      AppendedRenders(segments, TextSegment(text));
    }
  }

  lemma LastTextGrows(before: seq<Segment>, last: string, text: string)
    ensures RenderAll(before + [TextSegment(last + text)]) == RenderAll(before + [TextSegment(last)]) + text
    ensures TerminalsOf(before + [TextSegment(last + text)]) == TerminalsOf(before + [TextSegment(last)])
  {
    AppendedRenders(before, TextSegment(last));
    AppendedRenders(before, TextSegment(last + text));
    ConcatAssociates(RenderAll(before), last, text);
  }

  lemma ConcatAssociates(a: string, b: string, c: string)
    ensures a + (b + c) == (a + b) + c
  {
  }

  lemma AppendedRenders(segments: seq<Segment>, last: Segment)
    ensures RenderAll(segments + [last]) == RenderAll(segments) + Render(last)
    ensures last.TextSegment? ==> TerminalsOf(segments + [last]) == TerminalsOf(segments)
  {
    RenderConcat(segments, [last]);
    TerminalsConcat(segments, [last]);
    assert [last][1..] == [];
  }

  ghost predicate TokensOf(text: string, ms: seq<Match>) {
    forall m :: m in ms ==> IsToken(m.kind, text, m.start, m.end)
  }

  lemma {:induction false} SplitFromIsLossless(text: string, cursor: nat, ms: seq<Match>)
    requires cursor <= |text| && TokensOf(text, ms)
    ensures InText(text, ms) && RenderAll(SplitFrom(text, cursor, ms)) == text[cursor..]
    decreases |ms|
  {
    if ms == [] {
      RenderTextPart(text[cursor..]);
    } else {
      var m := ms[0];
      assert m in ms;
      if m.start < cursor {
        SplitFromIsLossless(text, cursor, ms[1..]);
      } else {
        RenderTextPart(text[cursor..m.start]);
        SplitFromIsLossless(text, m.end, ms[1..]);
        TokenRendersItself(text, m);
        RenderAround(TextPart(text[cursor..m.start]), TokenSegment(text, m), SplitFrom(text, m.end, ms[1..]));
        ThreeSlices(text, cursor, m.start, m.end);
      }
    }
  }

  lemma ThreeSlices(text: string, a: nat, b: nat, c: nat)
    requires a <= b <= c <= |text|
    ensures text[a..] == text[a..b] + text[b..c] + text[c..]
  {
  }

  lemma TokenRendersItself(text: string, m: Match)
    requires IsToken(m.kind, text, m.start, m.end)
    ensures Render(TokenSegment(text, m)) == text[m.start..m.end]
  {
  }

  lemma RenderAround(before: seq<Segment>, middle: Segment, rest: seq<Segment>)
    ensures RenderAll(before + [middle] + rest) == RenderAll(before) + Render(middle) + RenderAll(rest)
  {
    RenderConcat(before + [middle], rest);
    RenderConcat(before, [middle]);
    assert [middle][1..] == [];
    assert RenderAll([middle]) == Render(middle);
  }

  lemma SplitTextIsLossless(text: string)
    ensures RenderAll(SplitText(text)) == text
  {
    CollectFindsTokens(text);
    SplitFromIsLossless(text, 0, CollectMatches(text));
  }

  // Rendering the segments of a prompt gives back the prompt.
  lemma {:induction false} SplitIsLossless(prompt: string, contexts: seq<ContextDraft>, k: nat)
    ensures RenderAll(SplitPrompt(prompt, contexts, k)) == prompt
    decreases |prompt|
  {
    var i := PlaceholderIndex(prompt);
    if i == |prompt| {
      SplitTextIsLossless(prompt);
    } else {
      SplitTextIsLossless(prompt[..i]);
      SplitIsLossless(prompt[i + 1..], contexts, k + 1);
      RenderAround(SplitText(prompt[..i]), TerminalSegment(ContextAt(contexts, k)),
          SplitPrompt(prompt[i + 1..], contexts, k + 1));
      ThreeSlices(prompt, 0, i, i + 1);
      assert prompt[i..i + 1] == [PLACEHOLDER];
    }
  }

  // ---- Shape ----

  ghost predicate GoodText(segments: seq<Segment>) {
    && (forall s :: s in segments && s.TextSegment? ==> s.text != "" && PLACEHOLDER !in s.text)
    && (forall i :: 0 <= i < |segments| - 1 ==> !(segments[i].TextSegment? && segments[i + 1].TextSegment?))
  }

  lemma {:induction false} SplitFromIsGood(text: string, cursor: nat, ms: seq<Match>)
    requires cursor <= |text| && InText(text, ms) && PLACEHOLDER !in text
    ensures GoodText(SplitFrom(text, cursor, ms))
    ensures forall s :: s in SplitFrom(text, cursor, ms) ==> !s.TerminalSegment?
    decreases |ms|
  {
    if ms == [] {
    } else {
      assert ms[0] in ms;
      if ms[0].start < cursor {
        SplitFromIsGood(text, cursor, ms[1..]);
      } else {
        SplitFromIsGood(text, ms[0].end, ms[1..]);
      }
    }
  }

  function TerminalsOf(segments: seq<Segment>): seq<Option<ContextDraft>> {
    if segments == [] then []
    else (if segments[0].TerminalSegment? then [segments[0].context] else []) + TerminalsOf(segments[1..])
  }

  lemma {:induction false} NoTerminals(segments: seq<Segment>)
    requires forall s :: s in segments ==> !s.TerminalSegment?
    ensures TerminalsOf(segments) == []
  {
    if segments == [] {
    } else {
      assert segments[0] in segments;
      NoTerminals(segments[1..]);
    }
  }

  lemma {:induction false} TerminalsConcat(xs: seq<Segment>, ys: seq<Segment>)
    ensures TerminalsOf(xs + ys) == TerminalsOf(xs) + TerminalsOf(ys)
  {
    if xs == [] {
      assert xs + ys == ys;
    } else {
      assert (xs + ys)[0] == xs[0] && (xs + ys)[1..] == xs[1..] + ys;
      TerminalsConcat(xs[1..], ys);
    }
  }

  lemma {:induction false} CountThrough(prompt: string, i: nat)
    requires i <= |prompt| && PLACEHOLDER !in prompt[..i]
    ensures CountPlaceholders(prompt) == CountPlaceholders(prompt[i..])
  {
    if i == 0 {
    } else {
      assert prompt[..i][0] == prompt[0];
      assert prompt[1..][..i - 1] == prompt[..i][1..];
      CountThrough(prompt[1..], i - 1);
      assert prompt[1..][i - 1..] == prompt[i..];
    }
  }

  // No text segment is empty, holds a placeholder or touches another one, and the k-th placeholder
  // carries the k-th context, or none when there are too few.
  lemma {:induction false} SplitHasGoodShape(prompt: string, contexts: seq<ContextDraft>, k: nat)
    ensures var segments := SplitPrompt(prompt, contexts, k);
            && GoodText(segments)
            && TerminalsOf(segments) == ContextsFrom(contexts, k, CountPlaceholders(prompt))
    decreases |prompt|
  {
    var i := PlaceholderIndex(prompt);
    SplitTextIsGood(prompt[..i]);
    CountThrough(prompt, i);
    if i == |prompt| {
      assert prompt[..i] == prompt;
    } else {
      SplitHasGoodShape(prompt[i + 1..], contexts, k + 1);
      assert prompt[i..][1..] == prompt[i + 1..];
      var before, middle := SplitText(prompt[..i]), TerminalSegment(ContextAt(contexts, k));
      var rest := SplitPrompt(prompt[i + 1..], contexts, k + 1);
      GoodAround(before, middle, rest);
      TerminalsAround(before, middle, rest);
      ContextsShift(contexts, k, CountPlaceholders(prompt[i + 1..]));
    }
  }

  function ContextsFrom(contexts: seq<ContextDraft>, k: nat, count: nat): seq<Option<ContextDraft>> {
    seq(count, j requires 0 <= j => ContextAt(contexts, k + j))
  }

  lemma ContextsShift(contexts: seq<ContextDraft>, k: nat, count: nat)
    ensures ContextsFrom(contexts, k, count + 1) == [ContextAt(contexts, k)] + ContextsFrom(contexts, k + 1, count)
  {
  }

  lemma SplitTextIsGood(text: string)
    requires PLACEHOLDER !in text
    ensures GoodText(SplitText(text)) && TerminalsOf(SplitText(text)) == []
  {
    CollectFindsTokens(text);
    SplitFromIsGood(text, 0, CollectMatches(text));
    NoTerminals(SplitText(text));
  }

  lemma TerminalsAround(before: seq<Segment>, middle: Segment, rest: seq<Segment>)
    requires TerminalsOf(before) == [] && middle.TerminalSegment?
    ensures TerminalsOf(before + [middle] + rest) == [middle.context] + TerminalsOf(rest)
  {
    TerminalsConcat(before + [middle], rest);
    TerminalsConcat(before, [middle]);
    assert [middle][1..] == [];
  }

  lemma GoodAround(before: seq<Segment>, middle: Segment, rest: seq<Segment>)
    requires GoodText(before) && GoodText(rest) && !middle.TextSegment?
    ensures GoodText(before + [middle] + rest)
  {
    var all := before + [middle] + rest;
    assert forall s :: s in all <==> s in before || s == middle || s in rest;
    var n := |before|;
    forall i | 0 <= i < |all| - 1 ensures !(all[i].TextSegment? && all[i + 1].TextSegment?) {
      if i < n - 1 {
        assert all[i] == before[i] && all[i + 1] == before[i + 1];
      } else if i > n {
        assert all[i] == rest[i - n - 1] && all[i + 1] == rest[i - n];
      }
    }
  }
}
