// Two cursors into a composer prompt: the expanded one counts characters, the collapsed one counts
// every inline token as one.
module ComposerCursor {
  import opened Text
  import opened TerminalContexts
  import opened ComposerSegments

  datatype CursorInput = NotFinite | At(cursor: int)

  function ClampTo(length: nat, input: CursorInput): (c: nat)
    ensures c <= length
  {
    match input
    case NotFinite => length
    case At(c) => if c < 0 then 0 else if c > length then length else c
  }

  predicate IsInlineToken(s: Segment) {
    !s.TextSegment?
  }

  function CollapsedLength(s: Segment): nat {
    if s.TextSegment? then |s.text| else 1
  }

  function ExpandedLength(s: Segment): nat {
    match s
    case TextSegment(text) => |text|
    case MentionSegment(path) => |path| + 1
    case SkillSegment(name) => |name| + 1
    case TerminalSegment(_) => 1
  }

  function CollapsedTotal(segments: seq<Segment>): nat {
    if segments == [] then 0 else CollapsedLength(segments[0]) + CollapsedTotal(segments[1..])
  }

  function ExpandedTotal(segments: seq<Segment>): nat {
    if segments == [] then 0 else ExpandedLength(segments[0]) + ExpandedTotal(segments[1..])
  }

  // Both walks as recursion over the segments that are left.
  function Expand(segments: seq<Segment>, remaining: nat): nat {
    if segments == [] then 0
    else
      var s := segments[0];
      if IsInlineToken(s) then
        if remaining <= 1 then (if remaining == 0 then 0 else ExpandedLength(s))
        else ExpandedLength(s) + Expand(segments[1..], remaining - 1)
      else if remaining <= |s.text| then remaining
      else |s.text| + Expand(segments[1..], remaining - |s.text|)
  }

  function Collapse(segments: seq<Segment>, remaining: nat): nat {
    if segments == [] then 0
    else
      var s := segments[0];
      if IsInlineToken(s) then
        if remaining == 0 then 0
        else if remaining <= ExpandedLength(s) then 1
        else 1 + Collapse(segments[1..], remaining - ExpandedLength(s))
      else if remaining <= |s.text| then remaining
      else |s.text| + Collapse(segments[1..], remaining - |s.text|)
  }

  function SegmentsOf(text: string): seq<Segment> {
    SplitPrompt(text, [], 0)
  }

  function ExpandCursor(text: string, input: CursorInput): nat {
    var c := ClampTo(|text|, input);
    if SegmentsOf(text) == [] then c else Expand(SegmentsOf(text), c)
  }

  function CollapseCursor(text: string, input: CursorInput): nat {
    var c := ClampTo(|text|, input);
    if SegmentsOf(text) == [] then c else Collapse(SegmentsOf(text), c)
  }

  function ClampCollapsed(text: string, input: CursorInput): nat {
    ClampTo(CollapsedTotal(SegmentsOf(text)), input)
  }

  method ExpandCollapsedComposerCursor(text: string, input: CursorInput) returns (r: nat)
    ensures r == ExpandCursor(text, input)
  {
    var collapsedCursor := ClampTo(|text|, input);
    var segments := SplitPromptIntoComposerSegments(text, []);
    if |segments| == 0 {
      return collapsedCursor;
    }
    r := WalkExpanding(segments, collapsedCursor);
  }

  method WalkExpanding(segments: seq<Segment>, collapsedCursor: nat) returns (r: nat)
    ensures r == Expand(segments, collapsedCursor)
  {
    var remaining: nat := collapsedCursor;
    var expandedCursor: nat := 0;
    assert segments[0..] == segments;
    for i := 0 to |segments|
      invariant expandedCursor + Expand(segments[i..], remaining) == Expand(segments, collapsedCursor)
    {
      var s := segments[i];
      assert segments[i..][1..] == segments[i + 1..];
      if s.MentionSegment? || s.SkillSegment? {
        var expandedLength := ExpandedLength(s);
        if remaining <= 1 {
          return expandedCursor + if remaining == 0 then 0 else expandedLength;
        }
        remaining := remaining - 1;
        expandedCursor := expandedCursor + expandedLength;
        continue;
      }
      if s.TerminalSegment? {
        if remaining <= 1 {
          return expandedCursor + remaining;
        }
        remaining := remaining - 1;
        expandedCursor := expandedCursor + 1;
        continue;
      }
      if remaining <= |s.text| {
        return expandedCursor + remaining;
      }
      remaining := remaining - |s.text|;
      expandedCursor := expandedCursor + |s.text|;
    }
    return expandedCursor;
  }

  method CollapseExpandedComposerCursor(text: string, input: CursorInput) returns (r: nat)
    ensures r == CollapseCursor(text, input)
  {
    var expandedCursor := ClampTo(|text|, input);
    var segments := SplitPromptIntoComposerSegments(text, []);
    if |segments| == 0 {
      return expandedCursor;
    }
    r := WalkCollapsing(segments, expandedCursor);
  }

  method WalkCollapsing(segments: seq<Segment>, expandedCursor: nat) returns (r: nat)
    ensures r == Collapse(segments, expandedCursor)
  {
    var remaining: nat := expandedCursor;
    var collapsedCursor: nat := 0;
    assert segments[0..] == segments;
    for i := 0 to |segments|
      invariant collapsedCursor + Collapse(segments[i..], remaining) == Collapse(segments, expandedCursor)
    {
      var s := segments[i];
      assert segments[i..][1..] == segments[i + 1..];
      if s.MentionSegment? || s.SkillSegment? {
        var expandedLength := ExpandedLength(s);
        if remaining == 0 {
          return collapsedCursor;
        }
        if remaining <= expandedLength {
          return collapsedCursor + 1;
        }
        remaining := remaining - expandedLength;
        collapsedCursor := collapsedCursor + 1;
        continue;
      }
      if s.TerminalSegment? {
        if remaining <= 1 {
          return collapsedCursor + remaining;
        }
        remaining := remaining - 1;
        collapsedCursor := collapsedCursor + 1;
        continue;
      }
      if remaining <= |s.text| {
        return collapsedCursor + remaining;
      }
      remaining := remaining - |s.text|;
      collapsedCursor := collapsedCursor + |s.text|;
    }
    return collapsedCursor;
  }

  // ---- The two maps on segments ----

  lemma {:induction false} ExpandBounds(segments: seq<Segment>, c: nat)
    ensures Expand(segments, c) <= ExpandedTotal(segments)
    ensures c >= CollapsedTotal(segments) ==> Expand(segments, c) == ExpandedTotal(segments)
  {
    if segments == [] {
    } else {
      var used := CollapsedLength(segments[0]);
      if c > used {
        ExpandBounds(segments[1..], c - used);
      } else {
        ExpandBounds(segments[1..], 0);
      }
    }
  }

  // Collapsing and expanding form a Galois connection.
  lemma {:induction false} SegmentsGalois(segments: seq<Segment>, e: nat, c: nat)
    requires e <= ExpandedTotal(segments)
    ensures Collapse(segments, e) <= c <==> e <= Expand(segments, c)
  {
    if segments == [] {
    } else {
      var s := segments[0];
      var wide, narrow := ExpandedLength(s), CollapsedLength(s);
      if e > wide && c > narrow {
        SegmentsGalois(segments[1..], e - wide, c - narrow);
      } else if e > wide {
        SegmentsGalois(segments[1..], e - wide, 0);
      }
    }
  }

  lemma {:induction false} SegmentsRoundTrip(segments: seq<Segment>, c: nat)
    ensures Collapse(segments, Expand(segments, c))
         == if c < CollapsedTotal(segments) then c else CollapsedTotal(segments)
  {
    if segments == [] {
    } else if c <= CollapsedLength(segments[0]) {
      RoundTripInFirst(segments, c);
    } else {
      SegmentsRoundTrip(segments[1..], c - CollapsedLength(segments[0]));
      RoundTripBeyondFirst(segments, c);
    }
  }

  lemma RoundTripInFirst(segments: seq<Segment>, c: nat)
    requires segments != [] && c <= CollapsedLength(segments[0])
    ensures Collapse(segments, Expand(segments, c)) == c <= CollapsedTotal(segments)
  {
  }

  lemma RoundTripBeyondFirst(segments: seq<Segment>, c: nat)
    requires segments != [] && c > CollapsedLength(segments[0])
    ensures var narrow := CollapsedLength(segments[0]);
            Collapse(segments, Expand(segments, c))
            == narrow + Collapse(segments[1..], Expand(segments[1..], c - narrow))
  {
    if Expand(segments[1..], c - CollapsedLength(segments[0])) == 0 {
      CollapseZero(segments[1..]);
    }
  }

  lemma CollapseZero(segments: seq<Segment>)
    ensures Collapse(segments, 0) == 0
  {
  }

  // Strictly inside an inline token.
  ghost predicate Interior(segments: seq<Segment>, e: nat) {
    segments != [] &&
    var s := segments[0];
    if e < ExpandedLength(s) then IsInlineToken(s) && e > 0
    else Interior(segments[1..], e - ExpandedLength(s))
  }

  // r is the least position at or after e that is not inside a token.
  ghost predicate RoundsUp(segments: seq<Segment>, e: nat, r: nat) {
    && e <= r <= ExpandedTotal(segments) && !Interior(segments, r)
    && (forall x :: e <= x < r ==> Interior(segments, x))
  }

  lemma {:induction false} SegmentsRoundUp(segments: seq<Segment>, e: nat)
    requires e <= ExpandedTotal(segments)
    ensures RoundsUp(segments, e, Expand(segments, Collapse(segments, e)))
  {
    if segments == [] {
    } else {
      NotInteriorAtStart(segments[1..]);
      if e > ExpandedLength(segments[0]) {
        SegmentsRoundUp(segments[1..], e - ExpandedLength(segments[0]));
        RoundUpBeyondFirst(segments, e);
      } else {
        RoundUpInFirst(segments, e);
      }
    }
  }

  lemma RoundUpBeyondFirst(segments: seq<Segment>, e: nat)
    requires segments != [] && ExpandedLength(segments[0]) < e <= ExpandedTotal(segments)
    requires var rest, e' := segments[1..], e - ExpandedLength(segments[0]);
             RoundsUp(rest, e', Expand(rest, Collapse(rest, e')))
    ensures RoundsUp(segments, e, Expand(segments, Collapse(segments, e)))
  {
    var wide := ExpandedLength(segments[0]);
    var r' := Expand(segments[1..], Collapse(segments[1..], e - wide));
    WalksBeyondFirst(segments, e);
    forall x | e <= x < wide + r' ensures Interior(segments, x) {
      assert Interior(segments[1..], x - wide);
    }
  }

  lemma WalksBeyondFirst(segments: seq<Segment>, e: nat)
    requires segments != [] && ExpandedLength(segments[0]) < e <= ExpandedTotal(segments)
    ensures var rest, wide := segments[1..], ExpandedLength(segments[0]);
            Expand(segments, Collapse(segments, e)) == wide + Expand(rest, Collapse(rest, e - wide))
  {
    CollapsePositive(segments[1..], e - ExpandedLength(segments[0]));
  }

  lemma RoundUpInFirst(segments: seq<Segment>, e: nat)
    requires segments != [] && e <= ExpandedLength(segments[0]) && !Interior(segments[1..], 0)
    ensures var r := Expand(segments, Collapse(segments, e));
            && e <= r <= ExpandedTotal(segments) && !Interior(segments, r)
            && (forall x :: e <= x < r ==> Interior(segments, x))
  {
  }

  lemma NotInteriorAtStart(segments: seq<Segment>)
    ensures !Interior(segments, 0)
    decreases |segments|
  {
    if segments != [] && ExpandedLength(segments[0]) == 0 {
      NotInteriorAtStart(segments[1..]);
    }
  }

  lemma {:induction false} CollapsePositive(segments: seq<Segment>, e: nat)
    requires 0 < e <= ExpandedTotal(segments)
    ensures Collapse(segments, e) > 0
  {
    if segments != [] && ExpandedLength(segments[0]) == 0 {
      CollapsePositive(segments[1..], e);
    }
  }

  // ---- The two maps on prompts ----

  lemma {:induction false} RenderedLength(segments: seq<Segment>)
    ensures |RenderAll(segments)| == ExpandedTotal(segments)
    ensures segments == [] ==> RenderAll(segments) == ""
  {
    if segments == [] {
    } else {
      RenderedLength(segments[1..]);
    }
  }

  lemma {:induction false} CollapsedIsShorter(segments: seq<Segment>)
    ensures CollapsedTotal(segments) <= ExpandedTotal(segments)
  {
    if segments == [] {
    } else {
      CollapsedIsShorter(segments[1..]);
    }
  }

  // The segments of a prompt account for every character of it, so no walk runs off its end.
  lemma SegmentsCoverPrompt(text: string)
    ensures ExpandedTotal(SegmentsOf(text)) == |text|
    ensures CollapsedTotal(SegmentsOf(text)) <= |text|
  {
    SplitIsLossless(text, [], 0);
    RenderedLength(SegmentsOf(text));
    CollapsedIsShorter(SegmentsOf(text));
  }

  // For every prompt: collapse(e) <= c exactly when e <= expand(c).
  lemma CursorGalois(text: string, e: nat, c: nat)
    requires e <= |text| && c <= |text|
    ensures CollapseCursor(text, At(e)) <= c <==> e <= ExpandCursor(text, At(c))
  {
    SegmentsCoverPrompt(text);
    SegmentsGalois(SegmentsOf(text), e, c);
  }

  // Expanding and collapsing again only clamps a collapsed cursor to the collapsed length, for any
  // input at all.
  lemma CollapseOfExpandClamps(text: string, input: CursorInput)
    ensures CollapseCursor(text, At(ExpandCursor(text, input))) == ClampCollapsed(text, input)
  {
    var c := ClampTo(|text|, input);
    SegmentsCoverPrompt(text);
    ExpandBounds(SegmentsOf(text), c);
    SegmentsRoundTrip(SegmentsOf(text), c);
  }

  lemma CursorsAreMonotone(text: string, a: nat, b: nat)
    requires a <= b <= |text|
    ensures ExpandCursor(text, At(a)) <= ExpandCursor(text, At(b)) <= |text|
    ensures CollapseCursor(text, At(a)) <= CollapseCursor(text, At(b)) <= |text|
  {
    SegmentsCoverPrompt(text);
    var segments := SegmentsOf(text);
    ExpandBounds(segments, a);
    ExpandBounds(segments, b);
    SegmentsGalois(segments, Expand(segments, a), a);
    SegmentsGalois(segments, Expand(segments, a), b);
    SegmentsGalois(segments, b, Collapse(segments, b));
    SegmentsGalois(segments, a, Collapse(segments, b));
    ExpandBounds(segments, CollapsedTotal(segments));
    SegmentsGalois(segments, b, CollapsedTotal(segments));
  }

  // Collapsing an expanded cursor and expanding it again moves it to the nearest position at or
  // after it that is not inside a token.
  lemma ExpandOfCollapseRoundsUp(text: string, e: nat)
    requires e <= |text|
    ensures var r := ExpandCursor(text, At(CollapseCursor(text, At(e))));
            && e <= r <= |text| && !Interior(SegmentsOf(text), r)
            && (forall x :: e <= x < r ==> Interior(SegmentsOf(text), x))
  {
    CursorsAreMonotone(text, e, e);
    SegmentsCoverPrompt(text);
    SegmentsRoundUp(SegmentsOf(text), e);
  }

  // ---- Adjacency ----

  datatype Direction = Left | Right

  // Whether an inline token ends (Left) or begins (Right) at the collapsed cursor.
  predicate Adjacent(segments: seq<Segment>, cursor: int, direction: Direction) {
    segments != [] &&
    (|| (IsInlineToken(segments[0]) && cursor == (if direction == Left then 1 else 0))
     || Adjacent(segments[1..], cursor - CollapsedLength(segments[0]), direction))
  }

  method IsCollapsedCursorAdjacentToInlineToken(
      text: string, input: CursorInput, direction: Direction) returns (r: bool)
    ensures r == Adjacent(SegmentsOf(text), ClampCollapsed(text, input), direction)
  {
    var segments := SplitPromptIntoComposerSegments(text, []);
    r := IsAdjacentToInlineToken(segments, ClampTo(CollapsedTotal(segments), input), direction);
  }

  method IsAdjacentToInlineToken(segments: seq<Segment>, cursor: nat, direction: Direction) returns (r: bool)
    ensures r == Adjacent(segments, cursor, direction)
  {
    if !exists s :: s in segments && IsInlineToken(s) {
      NoTokenNoAdjacency(segments, cursor, direction);
      return false;
    }
    var collapsedOffset: nat := 0;
    assert segments[0..] == segments;
    for i := 0 to |segments|
      invariant Adjacent(segments[i..], cursor - collapsedOffset, direction) == Adjacent(segments, cursor, direction)
    {
      assert segments[i..][1..] == segments[i + 1..];
      if IsInlineToken(segments[i]) {
        if direction == Left && cursor == collapsedOffset + 1 {
          return true;
        }
        if direction == Right && cursor == collapsedOffset {
          return true;
        }
      }
      collapsedOffset := collapsedOffset + CollapsedLength(segments[i]);
    }
    return false;
  }

  lemma {:induction false} NoTokenNoAdjacency(segments: seq<Segment>, cursor: int, direction: Direction)
    requires forall s :: s in segments ==> !IsInlineToken(s)
    ensures !Adjacent(segments, cursor, direction)
  {
    if segments == [] {
    } else {
      assert segments[0] in segments;
      NoTokenNoAdjacency(segments[1..], cursor - CollapsedLength(segments[0]), direction);
    }
  }

  // The segment holding the c-th collapsed unit.
  function UnitAt(segments: seq<Segment>, c: nat): Segment
    requires c < CollapsedTotal(segments)
  {
    if c < CollapsedLength(segments[0]) then segments[0] else UnitAt(segments[1..], c - CollapsedLength(segments[0]))
  }

  lemma {:induction false} NotAdjacentBefore(segments: seq<Segment>, cursor: int, direction: Direction)
    requires cursor < (if direction == Left then 1 else 0)
    ensures !Adjacent(segments, cursor, direction)
  {
    if segments == [] {
    } else {
      NotAdjacentBefore(segments[1..], cursor - CollapsedLength(segments[0]), direction);
    }
  }

  // A token lies to the right of cursor c exactly when one lies to the left of c + 1: when unit c is
  // a token. The expanded cursor then jumps over the whole token, and otherwise moves by one.
  lemma {:induction false} AdjacencyIsTheTokenBetween(segments: seq<Segment>, c: nat)
    requires c < CollapsedTotal(segments)
    ensures Adjacent(segments, c, Right) <==> IsInlineToken(UnitAt(segments, c))
    ensures Adjacent(segments, c + 1, Left) <==> IsInlineToken(UnitAt(segments, c))
    ensures Expand(segments, c + 1) - Expand(segments, c)
            == if IsInlineToken(UnitAt(segments, c)) then ExpandedLength(UnitAt(segments, c)) else 1
  {
    var narrow := CollapsedLength(segments[0]);
    if c < narrow {
      NotAdjacentBefore(segments[1..], c - narrow, Right);
      NotAdjacentBefore(segments[1..], c + 1 - narrow, Left);
    } else {
      AdjacencyIsTheTokenBetween(segments[1..], c - narrow);
    }
  }

  // ---- The ends ----

  lemma {:induction false} WholeText(segments: seq<Segment>)
    ensures Collapse(segments, ExpandedTotal(segments)) == CollapsedTotal(segments)
  {
    if segments == [] {
    } else {
      WholeText(segments[1..]);
      if ExpandedTotal(segments[1..]) == 0 {
        EmptyRest(segments[1..]);
      }
    }
  }

  lemma {:induction false} EmptyRest(segments: seq<Segment>)
    requires ExpandedTotal(segments) == 0
    ensures CollapsedTotal(segments) == 0
  {
    if segments == [] {
    } else {
      EmptyRest(segments[1..]);
    }
  }

  // A cursor that is no number, or lies beyond the text, stands at its end, and one before it at its
  // beginning.
  lemma CursorsAtTheEnds(text: string, input: CursorInput)
    requires input.At? ==> input.cursor <= 0 || input.cursor >= |text|
    ensures ExpandCursor(text, input) == if input.At? && input.cursor <= 0 then 0 else |text|
    ensures CollapseCursor(text, input) ==
              if input.At? && input.cursor <= 0 then 0 else CollapsedTotal(SegmentsOf(text))
  {
    SegmentsCoverPrompt(text);
    var segments := SegmentsOf(text);
    ExpandBounds(segments, |text|);
    WholeText(segments);
    if segments != [] {
      assert Expand(segments, 0) == 0 && Collapse(segments, 0) == 0;
    }
  }
}
