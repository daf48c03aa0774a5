// Packing as much of a conversation as fits in front of the latest prompt, newest messages first.
module HistoryBootstrap {
  import opened Text
  import opened Decimal

  datatype Role = User | Assistant | System

  datatype Attachment = Image(name: string) | Other(name: string)

  datatype Message = Message(role: Role, text: string, attachments: seq<Attachment>)

  datatype BootstrapInput = BootstrapInput(text: string, includedCount: nat, omittedCount: nat, truncated: bool)

  const PREAMBLE := "Continue this conversation using the transcript context below. The final section is the latest user request to answer now."
  const TRANSCRIPT_HEADER := "Transcript context:"
  const LATEST_PROMPT_HEADER := "Latest user request (answer this now):"
  const OMITTED_SUFFIX := " earlier message(s) omitted to stay within input limits.]"

  function OmittedSummary(count: nat): string {
    "[" + NatToString(count) + OMITTED_SUFFIX
  }

  function RoleLabel(message: Message): string {
    if message.role == Assistant then "ASSISTANT" else "USER"
  }

  function ImageNames(attachments: seq<Attachment>): seq<string> {
    if attachments == [] then []
    else (if attachments[0].Image? then [attachments[0].name] else []) + ImageNames(attachments[1..])
  }

  function AttachmentSummary(message: Message): Option<string> {
    var names := ImageNames(message.attachments);
    if names == [] then None
    else
      var shown := if |names| <= 3 then names else names[..3];
      var extra := |names| - |shown|;
      Some("[Attached image" + (if |names| == 1 then "" else "s") + ": " + Join(shown, ", ")
           + (if extra > 0 then " (+" + NatToString(extra) + " more)" else "") + "]")
  }

  function MessageBlock(message: Message): string {
    var attachments := AttachmentSummary(message);
    RoleLabel(message) + ":\n" +
    if message.text != "" && attachments.Some? then message.text + "\n" + attachments.value
    else if message.text != "" then message.text
    else if attachments.Some? then attachments.value
    else "(empty message)"
  }

  // What surrounds the transcript body.
  datatype Frame = Frame(before: string, after: string)

  function FrameFor(prompt: string): Frame {
    Frame(PREAMBLE + "\n\n" + TRANSCRIPT_HEADER + "\n", "\n\n" + LATEST_PROMPT_HEADER + "\n" + prompt)
  }

  function Finalize(body: string, frame: Frame, maxChars: nat): Option<string> {
    var text := frame.before + body + frame.after;
    if |text| <= maxChars then Some(text) else None
  }

  function BlocksOf(messages: seq<Message>): (blocks: seq<string>)
    ensures |blocks| == |messages|
  {
    seq(|messages|, i requires 0 <= i < |messages| => MessageBlock(messages[i]))
  }

  const BLANK_LINE := "\n\n"

  function TranscriptBody(kept: seq<string>, omittedCount: nat): string {
    if omittedCount > 0 then
      if |kept| > 0 then OmittedSummary(omittedCount) + BLANK_LINE + Join(kept, BLANK_LINE)
      else OmittedSummary(omittedCount)
    else Join(kept, BLANK_LINE)
  }

  // The transcript holding the k newest blocks, with a notice for the older ones.
  function Body(blocks: seq<string>, k: nat): string
    requires k <= |blocks|
  {
    TranscriptBody(blocks[|blocks| - k..], |blocks| - k)
  }

  predicate Fits(blocks: seq<string>, k: nat, frame: Frame, budget: nat)
    requires k <= |blocks|
  {
    Finalize(Body(blocks, k), frame, budget).Some?
  }

  function Fitting(blocks: seq<string>, frame: Frame, budget: nat): nat -> bool {
    (k: nat) => k <= |blocks| && Fits(blocks, k, frame, budget)
  }

  // Takes one more of n blocks as long as the result fits.
  function TakeWhileFits(n: nat, k: nat, fits: nat -> bool): (r: nat)
    requires k <= n
    ensures k <= r <= n
    decreases n - k
  {
    if k < n && fits(k + 1) then TakeWhileFits(n, k + 1, fits) else k
  }

  function Greedy(blocks: seq<string>, frame: Frame, budget: nat): (r: nat)
    ensures r <= |blocks|
  {
    TakeWhileFits(|blocks|, 0, Fitting(blocks, frame, budget))
  }

  function Budget(maxChars: Option<int>): (b: nat)
    ensures b >= 1
  {
    match maxChars
    case None => 1
    case Some(n) => if n < 1 then 1 else n
  }

  function PromptOnly(prompt: string, budget: nat): string {
    if |prompt| <= budget then prompt else prompt[..budget]
  }

  // Drops the oldest of the kept blocks while the result does not fit; `total` counts all blocks.
  function Shrink(kept: seq<string>, total: nat, frame: Frame, prompt: string, budget: nat): BootstrapInput
    requires |kept| <= total
  {
    var packed := Finalize(TranscriptBody(kept, total - |kept|), frame, budget);
    if packed.Some? then
      BootstrapInput(packed.value, |kept|, total - |kept|,
          total - |kept| > 0 || |prompt| != |PromptOnly(prompt, budget)|)
    else if kept == [] then BootstrapInput(PromptOnly(prompt, budget), 0, total, true)
    else Shrink(kept[1..], total, frame, prompt, budget)
  }

  function Pack(blocks: seq<string>, frame: Frame, prompt: string, budget: nat): BootstrapInput {
    if blocks == [] then
      BootstrapInput(PromptOnly(prompt, budget), 0, 0, |PromptOnly(prompt, budget)| != |prompt|)
    else
      Shrink(blocks[|blocks| - Greedy(blocks, frame, budget)..], |blocks|, frame, prompt, budget)
  }

  // maxChars is None when it is not finite.
  function Bootstrap(messages: seq<Message>, prompt: string, maxChars: Option<int>): BootstrapInput {
    Pack(BlocksOf(messages), FrameFor(prompt), prompt, Budget(maxChars))
  }

  function Reversed(s: seq<string>): (r: seq<string>)
    ensures |r| == |s| && forall i :: 0 <= i < |s| ==> r[i] == s[|s| - 1 - i]
  {
    seq(|s|, i requires 0 <= i < |s| => s[|s| - 1 - i])
  }

  method BuildBootstrapInput(previousMessages: seq<Message>, latestPrompt: string, maxChars: Option<int>)
    returns (result: BootstrapInput)
    ensures result == Bootstrap(previousMessages, latestPrompt, maxChars)
  {
    var budget := Budget(maxChars);
    var promptOnly := PromptOnly(latestPrompt, budget);
    if |previousMessages| == 0 {
      return BootstrapInput(promptOnly, 0, 0, |promptOnly| != |latestPrompt|);
    }
    var newestFirstBlocks := NewestFirst(previousMessages);
    result := PackNewestFirst(
      newestFirstBlocks, BlocksOf(previousMessages), FrameFor(latestPrompt), latestPrompt, budget);
  }

  // Include a contiguous run of the newest blocks, then drop from its old end until it fits.
  method PackNewestFirst(
      newestFirstBlocks: seq<string>, ghost blocks: seq<string>, frame: Frame, prompt: string, budget: nat)
    returns (result: BootstrapInput)
    requires blocks != [] && newestFirstBlocks == Reversed(blocks)
    ensures result == Pack(blocks, frame, prompt, budget)
  {
    var included := TakeNewest(newestFirstBlocks, blocks, frame, budget);
    result := DropUntilFits(Reversed(included), |newestFirstBlocks|, frame, prompt, budget);
  }

  method NewestFirst(messages: seq<Message>) returns (newestFirstBlocks: seq<string>)
    ensures newestFirstBlocks == Reversed(BlocksOf(messages))
  {
    newestFirstBlocks := [];
    var index := |messages|;
    while index > 0
      invariant 0 <= index <= |messages|
      invariant newestFirstBlocks == Reversed(BlocksOf(messages)[index..])
    {
      index := index - 1;
      newestFirstBlocks := newestFirstBlocks + [MessageBlock(messages[index])];
    }
    assert BlocksOf(messages)[0..] == BlocksOf(messages);
  }

  // The first loop: a contiguous run of the newest blocks, stopping at the first that does not fit.
  method TakeNewest(newestFirstBlocks: seq<string>, ghost blocks: seq<string>, frame: Frame, budget: nat)
    returns (included: seq<string>)
    requires newestFirstBlocks == Reversed(blocks)
    ensures |included| == Greedy(blocks, frame, budget)
    ensures Reversed(included) == blocks[|blocks| - |included|..]
  {
    included := [];
    ghost var fits := Fitting(blocks, frame, budget);
    for i := 0 to |newestFirstBlocks|
      invariant |included| == i && Reversed(included) == blocks[|blocks| - i..]
      invariant TakeWhileFits(|blocks|, 0, fits) == TakeWhileFits(|blocks|, i, fits)
    {
      var next := included + [newestFirstBlocks[i]];
      var chronological := Reversed(next);
      NextChronological(included, newestFirstBlocks[i], blocks);
      var omittedCount := |newestFirstBlocks| - |chronological|;
      var finalized := Finalize(TranscriptBody(chronological, omittedCount), frame, budget);
      assert fits(i + 1) == finalized.Some?;
      if finalized.None? {
        break;
      }
      included := next;
    }
  }

  lemma NextChronological(included: seq<string>, block: string, blocks: seq<string>)
    requires |included| < |blocks| && Reversed(included) == blocks[|blocks| - |included|..]
    requires block == blocks[|blocks| - 1 - |included|]
    ensures Reversed(included + [block]) == blocks[|blocks| - (|included| + 1)..]
  {
    assert Reversed(included + [block]) == [block] + Reversed(included);
  }

  // The second loop: drops the oldest block until the rest fits.
  method DropUntilFits(included: seq<string>, total: nat, frame: Frame, prompt: string, budget: nat)
    returns (result: BootstrapInput)
    requires |included| <= total
    ensures result == Shrink(included, total, frame, prompt, budget)
  {
    var promptOnly := PromptOnly(prompt, budget);
    var includedChronological := included;
    while true
      invariant |includedChronological| <= total
      invariant Shrink(included, total, frame, prompt, budget) ==
          Shrink(includedChronological, total, frame, prompt, budget)
      decreases |includedChronological|
    {
      var omittedCount := total - |includedChronological|;
      var finalized := Finalize(TranscriptBody(includedChronological, omittedCount), frame, budget);
      if finalized.Some? {
        return BootstrapInput(finalized.value, |includedChronological|, omittedCount,
                              omittedCount > 0 || |prompt| != |promptOnly|);
      }
      if |includedChronological| == 0 {
        return BootstrapInput(promptOnly, 0, total, true);
      }
      includedChronological := includedChronological[1..];
    }
  }

  // ---- What the loops guarantee ----

  // For every conversation, prompt and limit: the result fits, every message is counted once, and
  // when a transcript is sent it is the newest messages in order, one more of which would not fit.
  lemma PackIsWithinBudget(blocks: seq<string>, frame: Frame, prompt: string, budget: nat)
    ensures var r := Pack(blocks, frame, prompt, budget);
            && |r.text| <= budget
            && r.includedCount + r.omittedCount == |blocks|
            && (r.includedCount > 0 ==> r.text == frame.before + Body(blocks, r.includedCount) + frame.after)
            && (r.includedCount < |blocks| ==> !Fits(blocks, r.includedCount + 1, frame, budget))
            && (!r.truncated ==> r.omittedCount == 0 && |prompt| <= budget)
  {
    if blocks != [] {
      var g := Greedy(blocks, frame, budget);
      GreedyStopsAtFirstMisfit(blocks, frame, budget);
      FirstLookReturns(blocks[|blocks| - g..], |blocks|, frame, prompt, budget);
    }
  }

  lemma {:induction false} TakingStopsAtFirstMisfit(n: nat, k: nat, fits: nat -> bool)
    requires k <= n
    ensures var r := TakeWhileFits(n, k, fits);
            && (forall j :: k < j <= r ==> fits(j))
            && (r < n ==> !fits(r + 1))
    decreases n - k
  {
    if k < n && fits(k + 1) {
      TakingStopsAtFirstMisfit(n, k + 1, fits);
    }
  }

  lemma GreedyStopsAtFirstMisfit(blocks: seq<string>, frame: Frame, budget: nat)
    ensures var g := Greedy(blocks, frame, budget);
            && (g > 0 ==> Fits(blocks, g, frame, budget))
            && (g < |blocks| ==> !Fits(blocks, g + 1, frame, budget))
  {
    var fits := Fitting(blocks, frame, budget);
    TakingStopsAtFirstMisfit(|blocks|, 0, fits);
    var g := Greedy(blocks, frame, budget);
    assert g > 0 ==> fits(g);
  }

  // The second loop returns at its first look if its blocks fit or there are none.
  lemma FirstLookReturns(kept: seq<string>, total: nat, frame: Frame, prompt: string, budget: nat)
    requires |kept| <= total
    requires kept == [] || Finalize(TranscriptBody(kept, total - |kept|), frame, budget).Some?
    ensures var r := Shrink(kept, total, frame, prompt, budget);
            && r.includedCount == |kept| && r.omittedCount == total - |kept|
            && |r.text| <= budget
            && (kept != [] ==> r.text == frame.before + TranscriptBody(kept, total - |kept|) + frame.after)
            && (!r.truncated ==> total == |kept| && |prompt| <= budget)
  {
  }

  lemma BootstrapIsWithinBudget(messages: seq<Message>, prompt: string, maxChars: Option<int>)
    ensures var r := Bootstrap(messages, prompt, maxChars);
            var blocks := BlocksOf(messages);
            && |r.text| <= Budget(maxChars)
            && r.includedCount + r.omittedCount == |messages|
            && (r.includedCount > 0 ==>
                  r.text == FrameFor(prompt).before + Body(blocks, r.includedCount) + FrameFor(prompt).after)
            && (r.includedCount < |messages| ==> !Fits(blocks, r.includedCount + 1, FrameFor(prompt), Budget(maxChars)))
            && (!r.truncated ==> r.omittedCount == 0 && |prompt| <= Budget(maxChars))
  {
    PackIsWithinBudget(BlocksOf(messages), FrameFor(prompt), prompt, Budget(maxChars));
  }

  // The second loop never drops a block: what the first one took is what is sent.
  lemma ShrinkingNeverHappens(blocks: seq<string>, frame: Frame, prompt: string, budget: nat)
    requires blocks != []
    ensures Pack(blocks, frame, prompt, budget).includedCount == Greedy(blocks, frame, budget)
  {
    var g := Greedy(blocks, frame, budget);
    GreedyStopsAtFirstMisfit(blocks, frame, budget);
    FirstLookReturns(blocks[|blocks| - g..], |blocks|, frame, prompt, budget);
  }

  // ---- When greedy is best ----

  lemma {:induction false} OneMoreDigitAtMost(n: nat)
    ensures |NatToString(n + 1)| <= |NatToString(n)| + 1
  {
    if n >= 9 {
      if n % 10 == 9 {
        assert (n + 1) / 10 == n / 10 + 1;
        OneMoreDigitAtMost(n / 10);
      } else {
        assert (n + 1) / 10 == n / 10;
      }
    }
  }

  lemma NoticeGrowsByOneAtMost(n: nat)
    ensures |OmittedSummary(n + 1)| <= |OmittedSummary(n)| + 1
  {
    OneMoreDigitAtMost(n);
  }

  // With at least one older message left out either way, taking one more makes the body longer.
  lemma BodyGrows(blocks: seq<string>, k: nat)
    requires k + 1 < |blocks|
    ensures |Body(blocks, k)| < |Body(blocks, k + 1)|
  {
    var at := |blocks| - k - 1;
    var more := blocks[at..];
    NoticeGrowsByOneAtMost(at);
    assert more[1..] == blocks[at + 1..];
    assert k > 0 ==> Join(more, BLANK_LINE) == more[0] + BLANK_LINE + Join(more[1..], BLANK_LINE);
  }

  lemma {:induction false} FitsDownward(blocks: seq<string>, j: nat, k: nat, frame: Frame, budget: nat)
    requires j <= k < |blocks| && Fits(blocks, k, frame, budget)
    ensures Fits(blocks, j, frame, budget)
    decreases k - j
  {
    if j < k {
      BodyGrows(blocks, k - 1);
      FitsDownward(blocks, j, k - 1, frame, budget);
    }
  }

  // Taking while it fits finds the largest fit, when fitting is inherited downwards below n, except
  // when n itself fits and n - 1 does not.
  lemma TakingIsLargestIff(n: nat, fits: nat -> bool)
    requires forall j, k :: 1 <= j <= k < n && fits(k) ==> fits(j)
    ensures (forall k :: TakeWhileFits(n, 0, fits) < k <= n ==> !fits(k)) <==> !(n >= 2 && fits(n) && !fits(n - 1))
  {
    TakingStopsAtFirstMisfit(n, 0, fits);
    var r := TakeWhileFits(n, 0, fits);
    assert n >= 2 && r == n ==> fits(n - 1);
  }

  // Greedy packing is the largest packing that fits, except in exactly one situation: the whole
  // conversation fits but all of it save the oldest message does not, because leaving that message
  // out costs a notice longer than the message.
  lemma GreedyIsLargestIff(blocks: seq<string>, frame: Frame, budget: nat)
    ensures (forall k :: Greedy(blocks, frame, budget) < k <= |blocks| ==> !Fits(blocks, k, frame, budget))
            <==> !(|blocks| >= 2 && Fits(blocks, |blocks|, frame, budget) && !Fits(blocks, |blocks| - 1, frame, budget))
  {
    var n, fits := |blocks|, Fitting(blocks, frame, budget);
    forall j, k | 1 <= j <= k < n && fits(k) ensures fits(j) {
      FitsDownward(blocks, j, k, frame, budget);
    }
    TakingIsLargestIff(n, fits);
    assert forall k: nat :: k <= n ==> fits(k) == Fits(blocks, k, frame, budget);
  }

  // That situation arises for every conversation whose oldest block is shorter than the notice: with
  // the whole text as the limit, greedy leaves messages out although all of them would fit.
  lemma ShortOldestMessageIsLeftOut(blocks: seq<string>, frame: Frame)
    requires |blocks| >= 2 && |blocks[0]| < |OmittedSummary(1)|
    ensures var budget := |frame.before + Body(blocks, |blocks|) + frame.after|;
            Fits(blocks, |blocks|, frame, budget) && Greedy(blocks, frame, budget) < |blocks|
  {
    var n := |blocks|;
    var budget := |frame.before + Body(blocks, n) + frame.after|;
    var fits := Fitting(blocks, frame, budget);
    assert !fits(n - 1);
    TakingStopsAtFirstMisfit(n, 0, fits);
  }

  // ---- What is sent ----

  ghost predicate StandsAt(s: string, t: string, i: nat) {
    i + |t| <= |s| && s[i..i + |t|] == t
  }

  ghost predicate Contains(s: string, t: string) {
    exists i: nat :: StandsAt(s, t, i)
  }

  lemma ContainsInner(before: string, t: string, after: string)
    ensures Contains(before + t + after, t)
  {
    assert StandsAt(before + t + after, t, |before|);
  }

  lemma ContainsThrough(s: string, t: string, u: string)
    requires Contains(s, t) && Contains(t, u)
    ensures Contains(s, u)
  {
    var i: nat :| StandsAt(s, t, i);
    var j: nat :| StandsAt(t, u, j);
    SliceOfSlice(s, i, i + |t|, j, j + |u|);
    assert StandsAt(s, u, i + j);
  }

  lemma SliceOfSlice(s: string, i: nat, end: nat, j: nat, k: nat)
    requires i <= end <= |s| && j <= k <= end - i
    ensures s[i..end][j..k] == s[i + j..i + k]
  {
    assert forall m :: 0 <= m < k - j ==> s[i..end][j..k][m] == s[i + j..i + k][m];
  }

  lemma {:induction false} JoinContains(parts: seq<string>, sep: string, i: nat)
    requires i < |parts|
    ensures Contains(Join(parts, sep), parts[i])
  {
    if |parts| == 1 {
      assert Join(parts, sep) == "" + parts[0] + "";
      ContainsInner("", parts[0], "");
    } else if i == 0 {
      assert Join(parts, sep) == "" + parts[0] + (sep + Join(parts[1..], sep));
      ContainsInner("", parts[0], sep + Join(parts[1..], sep));
    } else {
      JoinContains(parts[1..], sep, i - 1);
      assert Join(parts, sep) == (parts[0] + sep) + Join(parts[1..], sep) + "";
      ContainsInner(parts[0] + sep, Join(parts[1..], sep), "");
      ContainsThrough(Join(parts, sep), Join(parts[1..], sep), parts[i]);
    }
  }

  // The result is the prompt alone, cut to the limit, if there is nothing before it or if not even the notice
  // fits with it; otherwise it is a transcript with the prompt whole. It counts as truncated exactly if a
  // message or a part of the prompt is missing.
  lemma SentTextIsExact(messages: seq<Message>, prompt: string, maxChars: Option<int>)
    ensures var r, budget := Bootstrap(messages, prompt, maxChars), Budget(maxChars);
            var blocks, frame := BlocksOf(messages), FrameFor(prompt);
            && r.includedCount <= |messages|
            && (r.text == if messages == [] || !Fits(blocks, r.includedCount, frame, budget) then
                            prompt[..if |prompt| <= budget then |prompt| else budget]
                          else frame.before + Body(blocks, r.includedCount) + frame.after)
            && (r.truncated <==> r.omittedCount > 0 || |prompt| > budget)
  {
    PackIsExact(BlocksOf(messages), FrameFor(prompt), prompt, Budget(maxChars));
  }

  lemma PackIsExact(blocks: seq<string>, frame: Frame, prompt: string, budget: nat)
    requires |frame.after| >= |prompt|
    ensures var r := Pack(blocks, frame, prompt, budget);
            && r.includedCount <= |blocks|
            && (r.text == if blocks == [] || !Fits(blocks, r.includedCount, frame, budget) then
                            prompt[..if |prompt| <= budget then |prompt| else budget]
                          else frame.before + Body(blocks, r.includedCount) + frame.after)
            && (r.truncated <==> r.omittedCount > 0 || |prompt| > budget)
  {
    if blocks != [] {
      var g := Greedy(blocks, frame, budget);
      GreedyStopsAtFirstMisfit(blocks, frame, budget);
      FirstLookIsExact(blocks[|blocks| - g..], |blocks|, frame, prompt, budget);
    }
  }

  lemma FirstLookIsExact(kept: seq<string>, total: nat, frame: Frame, prompt: string, budget: nat)
    requires |kept| <= total && total > 0 && |frame.after| >= |prompt|
    requires kept == [] || Finalize(TranscriptBody(kept, total - |kept|), frame, budget).Some?
    ensures var r := Shrink(kept, total, frame, prompt, budget);
            var fits := Finalize(TranscriptBody(kept, total - |kept|), frame, budget);
            && r.includedCount == |kept|
            && (r.text == if fits.Some? then fits.value else prompt[..if |prompt| <= budget then |prompt| else budget])
            && (r.truncated <==> r.omittedCount > 0 || |prompt| > budget)
  {
  }

  // The limit is the one given, if it is finite and positive.
  lemma BudgetIsTheLimit(maxChars: Option<int>)
    ensures maxChars.Some? && maxChars.value >= 1 ==> Budget(maxChars) == maxChars.value
    ensures !(maxChars.Some? && maxChars.value >= 1) ==> Budget(maxChars) == 1
  {
  }

  // A block names its author and holds the message's text and the names of its first three images, and it
  // says that it is empty only if there is neither.
  lemma BlockHoldsMessage(message: Message, i: nat)
    ensures var block, images := MessageBlock(message), ImageNames(message.attachments);
            && (if message.role == Assistant then "ASSISTANT:\n" else "USER:\n") <= block
            && Contains(block, message.text)
            && (i < |images| && i < 3 ==> Contains(block, images[i]))
            && (|images| > 3 ==> Contains(block, NatToString(|images| - 3)))
            && (message.text == "" && images == [] ==> Contains(block, "(empty message)"))
  {
    var heading := RoleLabel(message) + ":\n";
    var images := ImageNames(message.attachments);
    var block := MessageBlock(message);
    assert block[..|heading|] == heading;
    if message.text != "" {
      TextIsInBlock(message, heading);
    } else {
      assert StandsAt(block, "", 0);
    }
    if images != [] {
      SummaryIsInBlock(message, heading);
      SummaryHoldsNames(message, i);
      if i < |images| && i < 3 {
        ContainsThrough(block, AttachmentSummary(message).value, images[i]);
      }
      if |images| > 3 {
        ContainsThrough(block, AttachmentSummary(message).value, NatToString(|images| - 3));
      }
    } else if message.text == "" {
      assert block == heading + "(empty message)" + "";
      ContainsInner(heading, "(empty message)", "");
    }
  }

  lemma TextIsInBlock(message: Message, heading: string)
    requires heading == RoleLabel(message) + ":\n" && message.text != ""
    ensures Contains(MessageBlock(message), message.text)
  {
    var summary := AttachmentSummary(message);
    var after := if summary.Some? then "\n" + summary.value else "";
    assert MessageBlock(message) == heading + message.text + after;
    ContainsInner(heading, message.text, after);
  }

  lemma SummaryIsInBlock(message: Message, heading: string)
    requires heading == RoleLabel(message) + ":\n" && ImageNames(message.attachments) != []
    ensures Contains(MessageBlock(message), AttachmentSummary(message).value)
  {
    var summary := AttachmentSummary(message).value;
    var before := if message.text != "" then heading + message.text + "\n" else heading;
    assert MessageBlock(message) == before + summary + "";
    ContainsInner(before, summary, "");
  }

  lemma SummaryHoldsNames(message: Message, i: nat)
    requires ImageNames(message.attachments) != []
    ensures var summary, images := AttachmentSummary(message).value, ImageNames(message.attachments);
            && (i < |images| && i < 3 ==> Contains(summary, images[i]))
            && (|images| > 3 ==> Contains(summary, NatToString(|images| - 3)))
  {
    var summary, images := AttachmentSummary(message).value, ImageNames(message.attachments);
    var shown := if |images| <= 3 then images else images[..3];
    var names := Join(shown, ", ");
    var before := "[Attached image" + (if |images| == 1 then "" else "s") + ": ";
    var more := if |images| > 3 then " (+" + NatToString(|images| - 3) + " more)" else "";
    assert summary == before + names + (more + "]");
    ContainsInner(before, names, more + "]");
    if i < |images| && i < 3 {
      JoinContains(shown, ", ", i);
      ContainsThrough(summary, names, images[i]);
    }
    if |images| > 3 {
      var count := NatToString(|images| - 3);
      assert summary == (before + names + " (+") + count + " more)]";
      ContainsInner(before + names + " (+", count, " more)]");
    }
  }

  // Every message that counts as included can be read in what is sent, and so can the whole prompt, last.
  lemma IncludedMessagesAreSent(messages: seq<Message>, prompt: string, maxChars: Option<int>, i: nat)
    requires |messages| - Bootstrap(messages, prompt, maxChars).includedCount <= i < |messages|
    ensures var text := Bootstrap(messages, prompt, maxChars).text;
            && |prompt| <= |text| && StandsAt(text, PREAMBLE, 0)
            && Contains(text, MessageBlock(messages[i])) && Contains(text, messages[i].text)
            && StandsAt(text, prompt, |text| - |prompt|)
  {
    var k := Bootstrap(messages, prompt, maxChars).includedCount;
    BootstrapIsWithinBudget(messages, prompt, maxChars);
    BlockIsSent(messages, prompt, k, i, Bootstrap(messages, prompt, maxChars).text);
  }

  lemma BlockIsSent(messages: seq<Message>, prompt: string, k: nat, i: nat, text: string)
    requires |messages| - k <= i < |messages| && k <= |messages|
    requires text == FrameFor(prompt).before + Body(BlocksOf(messages), k) + FrameFor(prompt).after
    ensures |prompt| <= |text| && StandsAt(text, prompt, |text| - |prompt|) && StandsAt(text, PREAMBLE, 0)
    ensures Contains(text, MessageBlock(messages[i])) && Contains(text, messages[i].text)
  {
    var blocks := BlocksOf(messages);
    BodyHoldsBlock(blocks, k, i);
    TextHoldsBody(Body(blocks, k), prompt, blocks[i]);
    BlockHoldsMessage(messages[i], 0);
    ContainsThrough(text, blocks[i], messages[i].text);
  }

  lemma BodyHoldsBlock(blocks: seq<string>, k: nat, i: nat)
    requires |blocks| - k <= i < |blocks| && k <= |blocks|
    ensures Contains(Body(blocks, k), blocks[i])
  {
    var kept := blocks[|blocks| - k..];
    JoinContains(kept, BLANK_LINE, i - (|blocks| - k));
    BodyHoldsKept(kept, |blocks| - k);
    ContainsThrough(Body(blocks, k), Join(kept, BLANK_LINE), blocks[i]);
  }

  lemma TextHoldsBody(body: string, prompt: string, block: string)
    requires Contains(body, block)
    ensures var text := FrameFor(prompt).before + body + FrameFor(prompt).after;
            && Contains(text, block) && |prompt| <= |text| && StandsAt(text, prompt, |text| - |prompt|)
            && StandsAt(text, PREAMBLE, 0)
  {
    ContainsInner(FrameFor(prompt).before, body, FrameFor(prompt).after);
    ContainsThrough(FrameFor(prompt).before + body + FrameFor(prompt).after, body, block);
  }

  lemma BodyHoldsKept(kept: seq<string>, omittedCount: nat)
    requires kept != []
    ensures Contains(TranscriptBody(kept, omittedCount), Join(kept, BLANK_LINE))
    ensures omittedCount > 0 ==> Contains(TranscriptBody(kept, omittedCount), NatToString(omittedCount))
  {
    var all := Join(kept, BLANK_LINE);
    if omittedCount > 0 {
      NoticeHoldsCount(omittedCount);
      ContainsParts(OmittedSummary(omittedCount), BLANK_LINE, all);
      ContainsThrough(TranscriptBody(kept, omittedCount), OmittedSummary(omittedCount), NatToString(omittedCount));
    } else {
      assert StandsAt(all, all, 0);
    }
  }

  lemma NoticeHoldsCount(omittedCount: nat)
    ensures Contains(OmittedSummary(omittedCount), NatToString(omittedCount))
  {
    ContainsInner("[", NatToString(omittedCount), OMITTED_SUFFIX);
  }

  lemma ContainsParts(first: string, sep: string, last: string)
    ensures Contains(first + sep + last, first) && Contains(first + sep + last, last)
  {
    var all := first + sep + last;
    assert StandsAt(all, first, 0);
    assert StandsAt(all, last, |first| + |sep|);
  }
}
