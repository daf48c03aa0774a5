# Verified models of the application's protocol, language and editor core

The application runs coding agents behind a web client. This project models, in Dafny, the five places
where its behaviour depends on whole runs or unbounded inputs, and proves what each is for.

1. **Event replication.** The server numbers domain events in an append-only log. A subscription merges
   a replay stream with a live stream, drops duplicates and holds early events (`Resequencer`). The
   client's coordinator classifies events and admits one recovery at a time (`Recovery`,
   `CoordinatorRuns`), decides about retries (`ReplayRetry`), and is driven by the connection, which
   buffers, flushes, replays and takes snapshots. `Replication` is the whole system as a transition
   system over a lossy, repeating, reordering channel; its main theorem is that the client's store is
   always the fold of a prefix of the server's log. `Pipeline` puts the resequencer and the opening and
   ending of streams inside the system, so that the order of deliveries is proved and not assumed, and
   `Progress` proves exactly how far an answered client gets, replays being limited reads
   (`EventStore`).
2. **The keybinding language.** Tokenizer, depth-bounded parser, evaluator (`When`), what the tokenizer
   reads (`WhenLexer`), the grammar the parser accepts (`WhenGrammar`), the printer (`WhenPrinter`),
   absent flags (`WhenFlags`), the shortcut codec (`Shortcuts`), the two last-rule-wins resolvers with
   the merge of defaults (`Resolver`), and whole rules within the schema's lengths (`RuleCodec`).
3. **The composer.** Splitting a prompt into segments (`ComposerSegments`), the two cursor maps
   (`ComposerCursor`), terminal-context normalization (`TerminalContexts`), the draft store as a value
   (`DraftStore`, and `DraftActions` for what each action does to a draft) and as the object with its
   three maps (`DraftStoreObject`).
4. **Server protocol state.** One app-server session as a JSON-RPC 2.0 peer with pending tables,
   timeouts and stop (`CodexPeer`), what becomes of every request (`CodexReplies`), and the startup
   command gate (`CommandGate`).
5. **Text codecs with bounds.** The macOS update manifest (`Manifest`, `ManifestAcceptance`,
   `ManifestRoundTrip`, `ManifestMerge`) with the reading and printing of doubles (`Doubles`,
   `Rounding`), and the budgeted transcript packer (`HistoryBootstrap`).

`Text`, `Decimal` and `Events` hold what several of these share. Where the source loops or updates
fields, a method or class does the same and is proved equal to a specification function; the lemmas are
about that function. Clocks, random ids and channel behaviour are parameters or steps.

## What is assumed of the server

The replication theorems assume of the server's answers that a snapshot at sequence n is the fold of the
first n log entries by the same reducer that the client applies, that it is no older than what the
client had observed when it asked, and that a replay is a stretch of the log from where the client
asked. For progress, requests are answered and nothing is asked for from outside: a snapshot with
everything the log holds at that moment, a replay with one read, which the server limits to 1,000
events.

## What turned out not to hold

Each of these is stated as a concrete failing input or a family of them, together with the exact
condition under which the property does hold.

- A batch that carries one event twice applies it twice (`Recovery.DuplicateInBatchAppliedTwice`): only
  events at or below the present position are filtered. A flush is right exactly when the next event is
  buffered at most once (`Replication.FlushSafeIffSingleCopy`); behind the resequencer it always is.
- A snapshot older than the client rewinds the store but not the position
  (`Replication.StaleSnapshotRewinds`); installing one is right exactly if it is not older
  (`Replication.SnapshotSafeIffFresh`).
- A client whose stream ends before it received an event is not told to recover when the stream opens
  again, and stays behind until the next event (`Progress.BootstrappedClientStaysBehind`); so does one
  that misses an event between its hook and the new stream (`Progress.EventBetweenHookAndOpenIsMissed`).
- A client that was away for more than 1,000 events replays 1,000 of them and asks for no more, as nothing
  it observed is ahead (`Progress.LongAbsenceIsNotMadeUp`). A client up to date with all it knew catches up
  by itself exactly if one read covers what it missed (`Progress.SettledClientCatchesUpIff`); where any
  client rests is `Progress.ReopenedClientRestsAt`. The next event repairs all three cases
  (`Progress.DeliveryReaches`).
- A connection whose snapshot fails does not ask for another by itself: until it is asked to, it defers every
  event it receives and stays where it is (`Progress.DeliveryReaches`). A client has or awaits a snapshot
  exactly if it asked for one and none failed since (`Replication.RunIsStartedIff`); failed replays are no
  such case (`Replication.FailedReplayAwaitsSnapshot`).
- The printer of `when` conditions adds a parenthesis and up to six characters per operator, while the
  parser bounds only parentheses and the schema bounds the text. A rule that loads survives being
  encoded and loaded again exactly if its printed texts fit and its tree is at most 64 high
  (`RuleCodec.LoadedRuleSurvivesIff`). `a&&a&&...` loads up to 85 operators and survives up to 36.
- A flag named like a member that every JavaScript object inherits (`constructor`, say) evaluates to true
  in a `when` condition if the context does not hold it (`WhenFlags.AbsentConstructorIsTrue`). All
  conditions take absent flags for false exactly in the contexts that hold every inherited name
  themselves (`WhenFlags.AllAbsentFlagsAreFalseIff`).
- An extra of such a name merges from the first manifest but not from the second
  (`ManifestMerge.InheritedNameIsOneSided`, and `ManifestMerge.SwappedMergeIff` for when order matters).
- Custom keybindings take precedence only while they are among the last 256
  (`Resolver.CustomBindingsTakePrecedence`): a longer file loses its first rules in the merge
  (`Resolver.FirstOf257IsLost`).
- Normalizing a terminal context's text is not idempotent: `"a\r\r\nb"` needs two rounds. It is stable
  exactly for texts without a CR CR LF that has something other than line breaks behind it
  (`TerminalContexts.NormalizingTextIsStableIff`).
- The transcript packer stops at the first block that does not fit. It therefore misses the one case
  where the whole conversation would fit because the omission notice disappears
  (`HistoryBootstrap.GreedyIsLargestIff`).
- A request that cannot be written is rejected at once but stays in the pending table until its timer,
  its response or a stop settles it a second time; the promise keeps its first outcome. A request settles
  exactly once if and only if it could be written (`CodexPeer.RequestsSettleOnceIffWritten`).
- A manifest whose version looks like a number or a boolean is refused when read back, because the
  version is printed without quotes; so are URLs and hashes that do not read as themselves. A number of
  10^21 or more, or below 10^-6, is printed with an exponent and read back as a string
  (`ManifestRoundTrip.LargeNumberIsNotPlain`). Everything else survives
  (`ManifestRoundTrip.SurvivesIffPlain`).

A remark on a bare function: rule texts that hold a NUL can share a shortcut context without sharing a
shortcut (`Shortcuts.SameContextIff`). The server compares only rules that loaded, and those cannot
(`RuleCodec.LoadedRulesShareContextIff`).

## Model

| member | source | states |
|---|---|---|
| Resequencer.Subscription.Accept | apps/server/src/ws.ts:1836-1864 | accepting one event drops it if old or held, else releases the run that starts at the next sequence; output and state as `Step` |
| Resequencer.FeedDelivers | apps/server/src/ws.ts:1829-1866 | after any arrivals the output is exactly the maximal contiguous run after the starting sequence within what arrived, once each and in order, and what is held lies beyond it |
| Resequencer.InterleavingIrrelevant | apps/server/src/ws.ts:1819-1822 | two interleavings of replay and live streams with the same sequences give the same output and state |
| Resequencer.SubscriptionReceivesLog | apps/server/src/ws.ts:1807-1868 | the output is always a slice of the log from the snapshot's sequence, and the whole rest of the log exactly when every later sequence arrived |
| Resequencer.OutputOnlyGrows | apps/server/src/ws.ts:1831-1866 | further arrivals only append to what was emitted |
| Recovery.Coordinator.ClassifyDomainEvent | apps/web/src/orchestrationRecovery.ts:124-138 | verdict and new state of classifying one live event |
| Recovery.Coordinator.MarkEventBatchApplied | apps/web/src/orchestrationRecovery.ts:140-151 | returns the newer events sorted by sequence and moves both sequences to the last of them |
| Recovery.Coordinator.BeginSnapshotRecovery | apps/web/src/orchestrationRecovery.ts:153-164 | starts only when idle; otherwise remembers that a replay is needed |
| Recovery.Coordinator.CompleteSnapshotRecovery | apps/web/src/orchestrationRecovery.ts:166-172 | position becomes the maximum, bootstrapped, idle; answers whether a replay is needed |
| Recovery.Coordinator.FailSnapshotRecovery | apps/web/src/orchestrationRecovery.ts:174-176 | back to idle, nothing else changes |
| Recovery.Coordinator.BeginReplayRecovery | apps/web/src/orchestrationRecovery.ts:178-191 | starts only when bootstrapped and idle, noting where it starts |
| Recovery.Coordinator.CompleteReplayRecovery | apps/web/src/orchestrationRecovery.ts:193-203 | reports progress since the start and whether another replay is needed |
| Recovery.Coordinator.FailReplayRecovery | apps/web/src/orchestrationRecovery.ts:205-209 | idle and no longer bootstrapped |
| Recovery.Coordinator.ResolveReplayNeedAfterRecovery | apps/web/src/orchestrationRecovery.ts:107-117 | a replay is needed if one was asked for meanwhile or something observed is not applied |
| Recovery.SortedIsSorted | apps/web/src/orchestrationRecovery.ts:141-143 | sorting by sequence keeps exactly the same events, in order |
| Recovery.BatchAppliesNextSlice | apps/web/src/orchestrationRecovery.ts:140-151 | a batch of log events applies exactly the next slice of the log if and only if, beyond the position, it has no repeats and no gap |
| Recovery.DuplicateInBatchAppliedTwice | apps/web/src/orchestrationRecovery.ts:140-151 | a batch with one event twice applies it twice |
| CoordinatorRuns.RunsStayOrdered | apps/web/src/orchestrationRecovery.ts:88-211 | under any calls in any order the latest sequence never exceeds the highest observed one, never goes back, and no sequence is invented |
| CoordinatorRuns.RecoveriesAreExclusive | apps/web/src/orchestrationRecovery.ts:107-203 | after any calls, a recovery starts exactly when none is in flight (and a replay only when bootstrapped), a refusal makes the running one ask for another, and "no replay needed" is answered exactly when nothing observed is unapplied and nothing was asked for |
| CoordinatorRuns.UnappliedEventIsAskedFor | apps/web/src/orchestrationRecovery.ts:124-138 | after any calls, a live event is old, the next one, one that leaves a gap or one that comes too early, exactly as its sequence and the running recovery say; if it is not old and not applied, the recovery that ends next asks for another replay whatever was applied meanwhile |
| CoordinatorRuns.RoundsArePlausible | apps/web/src/orchestrationRecovery.ts:193-203 | the finished replays of any run report non-decreasing sequences, and progress only if the latest sequence moved |
| CoordinatorRuns.RunsRetryBoundedly | apps/web/src/environments/runtime/connection.ts:178-212 | in any run with sequences up to N, the driver's unbroken retrying ends after at most 2N(m+1)+m replays, and m more for each replay that fails and makes it forget its tracker, m being the retry limit |
| ReplayRetry.RetryUsesPotential | apps/web/src/orchestrationRecovery.ts:39-86 | every granted retry lowers a measure made of the distance of both sequences to the bound and the retries left at this frontier |
| ReplayRetry.RetriesAreBounded | apps/web/src/orchestrationRecovery.ts:39-86 | a chain of granted retries is no longer than that measure |
| ReplayRetry.BackoffDoubles | apps/web/src/orchestrationRecovery.ts:62-85 | k replays without progress at one frontier are all retried exactly if k is at most the limit, and then wait base·(2^k − 1) in total |
| ReplayRetry.NewFrontierStartsOver | apps/web/src/orchestrationRecovery.ts:62-84 | at a frontier where nothing was tried, any number of rounds is decided as if there had been none before |
| ReplayRetry.ProgressForgetsAttempts | apps/web/src/orchestrationRecovery.ts:46-60 | a replay that brought something is followed at once and one that was enough is not; either way the attempts are forgotten |
| Replication.StepKeepsInv | apps/web/src/environments/runtime/connection.ts:111-298 | every delivery, flush, resubscription, timer, snapshot, replay, failure or append keeps: the store is the fold of the log up to the position, one recovery in flight, nothing observed forgotten |
| Replication.StepNeverGoesBack | apps/web/src/orchestrationRecovery.ts:140-172 | no step moves the client's position backwards |
| Replication.EarlyEventIsOwed | apps/web/src/orchestrationRecovery.ts:124-138 | in every reachable state, an event that comes while it cannot be applied is observed and a replay is owed for it, nothing else changing |
| Replication.FailedReplayAwaitsSnapshot | apps/web/src/environments/runtime/connection.ts:178-186 | in every reachable state, a replay that fails for good is followed at once by a snapshot, awaited with everything observed as its floor |
| Replication.SnapshotIsInstalled | apps/web/src/environments/runtime/connection.ts:224-241 | a snapshot that arrives is the position and the store, and is followed by a replay exactly if one was asked for meanwhile or something beyond it was observed |
| Replication.FailedSnapshotIsForgotten | apps/web/src/environments/runtime/connection.ts:242-245 | a snapshot that fails leaves the client as it was before it asked, free to ask again |
| Replication.StepKeepsStarted | apps/web/src/environments/runtime/connection.ts:62-83 | a client has or awaits a snapshot after a step exactly if it did before and no snapshot failed, or it asked for one |
| Replication.RunIsStartedIff | apps/web/src/environments/runtime/connection.ts:62-83 | at every moment of a run the client has or awaits a snapshot exactly if it asked for one and none failed since, whatever became of replays |
| Replication.OnlyUnfinishedReplayGivesUp | apps/web/src/environments/runtime/connection.ts:192-222 | the driver gives up only when a replay ends that is the fourth in vain |
| Replication.RunsReplicate | apps/web/src/environments/runtime/connection.ts:111-298 | in every run over a channel that loses and reorders events, repeating none that still waits in the buffer, the client's store is the fold of the server log up to its latest sequence |
| Replication.ResequencedRunsReplicate | apps/server/src/ws.ts:1829-1866 | the same with no assumption on buffers when deliveries on a subscription ascend |
| Pipeline.PipedRunsReplicate | apps/server/src/ws.ts:1807-1868 | end to end, for every log the server has when the client starts: with events reaching each subscription's resequencer in any order and number, what it emits travelling in order, streams ending and opening again at any time (after the hook if an event was ever received) and starting at any snapshot, the client's store is always the fold of a log prefix |
| Pipeline.PipeStepIsSound | apps/web/src/rpc/wsTransport.ts:109-150 | every arrival, delivery, end of a stream, hook, opening or client step keeps that, with what is in transit continuing the log right behind the last delivery and nothing buffered when a stream may open |
| Pipeline.PipedClientIsStartedIff | apps/web/src/environments/runtime/connection.ts:62-83 | over every run with streams: the client has or awaits a snapshot exactly if it asked for one and none failed since |
| EventStore.ReadFromSequence | apps/server/src/persistence/Layers/OrchestrationEventStore.ts:208-260 | reading page after page gives the events above a sequence up to the limit, in order |
| Progress.ReplayIsFollowedUp | apps/web/src/environments/runtime/connection.ts:162-222 | however much a replay brings: the client is done if nothing more was observed or asked for, replays again at once if it got further, waits on a timer if fewer than three in a row at that frontier brought nothing, and gives up at the next |
| Progress.AnswerKeepsRest | apps/web/src/environments/runtime/connection.ts:158-246 | when requests are answered, each replay with one limited read, and nothing is asked for from outside, every answer keeps where the client will come to rest and lessens what is left to do |
| Progress.AnsweredClientComesToRest | apps/web/src/environments/runtime/connection.ts:158-246 | from any reachable state such a client comes to rest, exactly at the place computed from its position, buffer, running recovery and timers, with the log up to there applied, and bootstrapped exactly if it had or awaited a snapshot |
| Progress.ConnectedClientIsServed | apps/web/src/environments/runtime/connection.ts:158-306 | in every run of a connection that asked for a snapshot and lost none since, replays failing as they may, the answered client comes to rest bootstrapped, with the log up to its resting place applied |
| Progress.ReachIsRounds | apps/server/src/persistence/Layers/OrchestrationEventStore.ts:208-212 | repeated reads end after the least number of whole reads that reaches the target, or at the end of the log |
| Progress.ReopenedClientRestsAt | apps/web/src/rpc/wsTransport.ts:124-150 | liveness: once a stream has ended and is opened again and requests are answered, but no event comes, the client rests where the hook takes it if it had received an event before, and otherwise where it would have rested anyway |
| Progress.QuietClientCatchesUp | apps/web/src/rpc/wsTransport.ts:124-150 | from rest at L that is the end of the log or L + k reads, for the least k of at least one that reaches everything observed, and so the whole log exactly if k reads cover the rest of it |
| Progress.SettledClientCatchesUpIff | apps/web/src/rpc/wsTransport.ts:124-150 | a client that has applied all it observed catches up with the whole log by itself exactly if one read covers what it missed |
| Progress.HookMovesRest | apps/web/src/environments/runtime/connection.ts:290-297 | where the hook takes a client in any reachable state: to the end of a snapshot that is due, one read beyond a running replay, or one read beyond what it holds, and on until everything observed is reached; a client without a snapshot only keeps what it has buffered |
| Progress.NextDeliveryRestsAt | apps/web/src/environments/runtime/connection.ts:276-288 | where the next event takes a client at rest: nowhere if it has it, to the event if it is the one missing, and otherwise as many reads on as reach the event |
| Progress.DeliveryReaches | apps/web/src/environments/runtime/connection.ts:276-288 | in every reachable state, a client that has or awaits a snapshot and receives an event comes to hold the log at least up to it, however many reads that takes; any other does not move |
| Progress.FullStreamCatchesUpIff | apps/server/src/ws.ts:1807-1868 | a stream opened at n that is fed everything after n in any order and delivers all of it leaves an answered client with the whole log exactly if n is below the log's end and the client had or awaited a snapshot, or it would have come to hold the whole log anyway |
| Progress.LongAbsenceIsNotMadeUp | apps/server/src/persistence/Layers/OrchestrationEventStore.ts:64 | a client that missed one event more than a read of 1,000 returns rests one event behind after its stream is opened again |
| Progress.BootstrappedClientStaysBehind | apps/web/src/rpc/wsTransport.ts:125-140 | a run in which a client that received no event on its first stream never learns of one added before the second stream starts |
| Progress.EventBetweenHookAndOpenIsMissed | apps/web/src/rpc/wsTransport.ts:130-150 | an event added between the answered hook and the snapshot of the new stream is missed by a client that was up to date, until another event comes |
| Replication.SettledClientIsCurrent | apps/web/src/orchestrationRecovery.ts:107-117 | a client with nothing running, buffered or given up holds the fold of everything it ever observed |
| Replication.FlushSafeIffSingleCopy | apps/web/src/environments/runtime/connection.ts:111-123 | a flush keeps the store equal to the log exactly when the next event is buffered at most once |
| Replication.SnapshotSafeIffFresh | apps/web/src/environments/runtime/connection.ts:232-241 | applying a snapshot keeps the store equal to the log exactly when it is not older than the client's position |
| Replication.StaleSnapshotRewinds | apps/web/src/environments/runtime/connection.ts:232-241 | every older one cuts the store back to its own prefix and leaves the position where it was |
| When.TokenizeWhenExpression | apps/server/src/keybindings.ts:147-194 | the scanning loop yields the tokens of the whole text or fails |
| WhenLexer.TokenizesIffSpells | apps/server/src/keybindings.ts:147-194 | a text is tokenized exactly if it consists of the spellings of tokens with white space anywhere between them, names ending where no name goes on, and then as those tokens |
| When.Parser.ParsePrimaryAt | apps/server/src/keybindings.ts:201-225 | consumes exactly what the specification parser consumes, with the same result |
| When.Parser.ParseUnaryAt | apps/server/src/keybindings.ts:227-246 | the same for runs of `!`, at most 64 |
| When.Parser.ParseAndAt | apps/server/src/keybindings.ts:248-260 | the same for left-associative `&&` |
| When.Parser.ParseOrAt | apps/server/src/keybindings.ts:262-274 | the same for the left-associative or operator |
| When.ParseKeybindingWhenExpression | apps/server/src/keybindings.ts:196-280 | succeeds only if every token was consumed |
| WhenGrammar.ParsesIffDerives | apps/server/src/keybindings.ts:196-280 | the parser returns a tree exactly when the tokens derive from the or/and/unary/primary grammar within the depth bounds, and then that derivation's tree |
| WhenGrammar.TooDeepIsRejected | apps/server/src/keybindings.ts:202-204 | a derivation that nests too deeply or negates too often is rejected |
| WhenLexer.ConditionIsReadIff | apps/server/src/keybindings.ts:147-280 | from text to tree: a condition is read exactly if it spells tokens that derive a tree within the bounds, and then as that tree |
| WhenUnambiguous.SpellingDeterminesDerivation | apps/server/src/keybindings.ts:201-274 | the grammar is unambiguous: one token list, at most one derivation, within the depth bounds or not |
| WhenPrinter.TokenizePrinted | apps/server/src/keybindings.ts:393-404 | printing and tokenizing gives the fully parenthesized token list |
| WhenPrinter.RoundTripIffShallow | apps/server/src/keybindings.ts:393-404 | parsing a printed tree gives the tree back exactly if its height is at most 64, and fails otherwise |
| WhenPrinter.ParsedReparsesIffShallow | apps/server/src/keybindings.ts:196-280 | any condition that parses comes back from print and parse exactly if its tree is at most 64 high |
| WhenPrinter.ChainReparsesIffShort | apps/server/src/keybindings.ts:248-260 | a flat chain of n `&&` always parses, and comes back from print and parse exactly up to n = 64 |
| RuleCodec.LoadsIff | packages/contracts/src/keybindings.ts:57-70 | a rule loads as a binding exactly if its trimmed key has 1 to 64 characters and names that shortcut, and its trimmed condition, if any, has 1 to 256 and spells a derivation of that tree |
| RuleCodec.LoadedRuleSurvivesIff | apps/server/src/keybindings.ts:315-351 | a rule that loads within the schema's lengths can be encoded exactly if its canonical key has at most 64 characters and its printed condition at most 256, and then loads again as the same binding exactly if the condition is at most 64 high |
| RuleCodec.WrittenReadsBackIff | packages/contracts/src/keybindings.ts:57-70 | the same for every binding with a canonical key and legal condition names |
| RuleCodec.ChainSurvivesIffShort | packages/contracts/src/keybindings.ts:62-70 | a chain of n operators over one name of length l loads exactly if l(n + 1) + 2n is at most 256 and survives exactly if l(n + 1) + 6n is |
| WhenPrinter.ReparsedMeansTheSame | apps/web/src/keybindings.ts:109-122 | within the bound a printed and parsed condition evaluates the same in every context |
| WhenFlags.AbsentFlagIsFalseIff | apps/web/src/keybindings.ts:109-115 | a flag that the context lacks evaluates to false exactly if objects inherit no member of its name |
| WhenFlags.AbsentConstructorIsTrue | apps/web/src/keybindings.ts:115 | `constructor`, absent from the context, evaluates to true |
| WhenFlags.EvaluatesInInherited | apps/web/src/keybindings.ts:109-122 | every condition evaluates as if absent flags were false in the context extended by the inherited members |
| WhenFlags.AbsentFlagsAreFalse | apps/web/src/keybindings.ts:109-122 | a condition that names no inherited member outside the context takes absent flags for false |
| WhenFlags.AllAbsentFlagsAreFalseIff | apps/web/src/keybindings.ts:109-122 | all conditions do so in a context exactly if it holds every inherited name itself |
| Shortcuts.ParseKeybindingShortcut | apps/server/src/keybindings.ts:83-145 | the token loop: modifiers set flags, exactly one key |
| Shortcuts.TokensOf | apps/server/src/keybindings.ts:84-99 | lower-casing, splitting at `+`, trimming, and reading a trailing empty part as the plus key |
| Shortcuts.ParsesIffOneKey | apps/server/src/keybindings.ts:83-145 | a shortcut parses exactly if none of its tokens is empty and exactly one is no modifier, and then means that key with every modifier named under any of its names |
| Shortcuts.PrintsIff | apps/server/src/keybindings.ts:387-390 | a shortcut prints exactly if its key is not empty and cannot be taken for several tokens |
| Shortcuts.AllModifiersPrint | apps/server/src/keybindings.ts:380-390 | modifiers print in one order before the key |
| Shortcuts.ParsedKeyIsCanonical | apps/server/src/keybindings.ts:76-81 | a parsed key is lower-case, trimmed and normalized |
| Shortcuts.CanonicalIffReparses | apps/server/src/keybindings.ts:380-391 | a shortcut prints and parses back to itself exactly if its key is canonical |
| Shortcuts.ParsedShortcutRoundTrips | apps/server/src/keybindings.ts:380-391 | every shortcut that parses prints, and parses back to itself, plus and space keys included |
| Shortcuts.SameContextIff | apps/server/src/keybindings.ts:365-378 | for all rules: two share a context exactly if they denote the same shortcut under the same condition text, or one printed key holds a NUL and goes on with the beginning of the other's condition |
| Shortcuts.NulConfusesContexts | apps/server/src/keybindings.ts:365-371 | the second case occurs: a family of rule texts that share a context and denote different shortcuts |
| RuleCodec.LoadedRulesShareContextIff | apps/server/src/keybindings.ts:282-300 | for rules that compile, sharing a context means the same shortcut and condition, without further assumption |
| Resolver.ResolveShortcutCommand | apps/web/src/keybindings.ts:183-199 | the backward loop finds the last rule that matches the event and whose condition holds |
| Resolver.FindEffectiveShortcutForCommand | apps/web/src/keybindings.ts:146-172 | the backward loop with claimed keys finds the last unclaimed shortcut of the command |
| Resolver.LastAnswerRuns | apps/web/src/keybindings.ts:183-199 | a press runs the command of the last binding whose shortcut matches and whose condition, if any, holds |
| Resolver.NoAnswerRunsNothing | apps/web/src/keybindings.ts:183-199 | a press runs nothing exactly if there is no such binding |
| Resolver.MatchesIff | apps/web/src/keybindings.ts:55-95 | for keys as the parser leaves them: an event without a physical key matches exactly if it holds the modifiers asked for on the platform and its key in lower case is the shortcut's, "esc" being escape |
| Resolver.ModIsThePlatformKey | apps/web/src/keybindings.ts:72-86 | the platform modifier is Command alone on a Mac and Control alone elsewhere |
| Resolver.DigitKeysMatch | apps/web/src/keybindings.ts:61-70 | a physical digit key matches under its digit whatever character it produces |
| Resolver.BracketKeysMatch | apps/web/src/keybindings.ts:61-70 | so does a bracket key |
| Resolver.ConflictKeyIsInjective | apps/web/src/keybindings.ts:132-144 | two shortcuts have one conflict key exactly if they have the same key and effective modifiers |
| Resolver.PressMatchesIffSameConflictKey | apps/web/src/keybindings.ts:72-95 | pressing a shortcut matches another exactly if their conflict keys agree |
| Resolver.ShownShortcutRunsCommand | apps/web/src/keybindings.ts:146-199 | the shortcut shown for a command, when pressed, runs that command |
| Resolver.RunnableCommandHasShortcut | apps/web/src/keybindings.ts:146-199 | a command that some event runs has a shortcut to show |
| Resolver.ShownIffRunnable | apps/web/src/keybindings.ts:146-199 | with keys as the parser leaves them, a shortcut is shown exactly for the commands that some event runs |
| Resolver.MergeKeepsRecent | apps/server/src/keybindings.ts:450-467 | a merge is the last custom rules, at most 256, behind defaults for commands that no custom rule binds |
| Resolver.MergeIsUnboundAndCustom | apps/server/src/keybindings.ts:450-467 | for every list of custom rules, the empty one included: the merge is the defaults whose commands no custom rule binds, each as often and in the order it had, then the custom rules, cut to the last 256 if there are custom rules; without any it is all the defaults |
| Resolver.UnboundDefaultStillRuns | apps/server/src/keybindings.ts:450-467 | a press that no custom rule answers runs the default command it ran before, if no custom rule binds that command, exactly unless the default that runs it is cut off |
| Resolver.CustomBindingsTakePrecedence | apps/server/src/keybindings.ts:450-467 | for any number of rules: a press that the custom rules resolve does the same after the merge exactly if the winning rule is among the last 256, and a command bound by a custom rule never runs through a default |
| Resolver.FirstOf257IsLost | apps/server/src/keybindings.ts:455-466 | with 257 custom rules, a press that only the first of them answers is answered by none after the merge |
| ComposerSegments.PushingAddsText | apps/web/src/composer-editor-mentions.ts:31-39 | pushing text, in either branch, adds exactly that text to what the segments render and touches no terminal context |
| ComposerSegments.PushingKeepsGood | apps/web/src/composer-editor-mentions.ts:31-39 | pushing keeps text segments nonempty, free of placeholders and never next to each other |
| ComposerSegments.SplitPromptTextIntoComposerSegments | apps/web/src/composer-editor-mentions.ts:163-194 | the loop over matches yields the specified segments |
| ComposerSegments.SplitPromptIntoComposerSegments | apps/web/src/composer-editor-mentions.ts:233-258 | the loop over placeholders pairs the k-th with the k-th context |
| ComposerSegments.CollectFindsTokens | apps/web/src/composer-editor-mentions.ts:55-83 | the matches are exactly the mentions and skills by a declarative definition, in order and apart |
| ComposerSegments.WrittenNameIsFoundIff | apps/web/src/composer-editor-mentions.ts:24-25 | a name written into any prompt behind "@" or "$" is found exactly if its characters are allowed there, it begins the prompt or follows white space, and white space follows it |
| ComposerSegments.TokensAreSeparate | apps/web/src/composer-editor-mentions.ts:24-25 | two different tokens never overlap nor touch |
| ComposerSegments.SplitIsLossless | apps/web/src/composer-editor-mentions.ts:233-258 | rendering the segments gives the prompt back |
| ComposerSegments.SplitHasGoodShape | apps/web/src/composer-editor-mentions.ts:233-258 | no text segment is empty or holds a placeholder, no two are adjacent within a stretch of text, and the placeholders pair with the contexts in order |
| ComposerCursor.ExpandCollapsedComposerCursor | apps/web/src/composer-logic.ts:45-92 | the walking loop computes the expanded cursor |
| ComposerCursor.CollapseExpandedComposerCursor | apps/web/src/composer-logic.ts:133-186 | the walking loop computes the collapsed cursor |
| ComposerCursor.IsCollapsedCursorAdjacentToInlineToken | apps/web/src/composer-logic.ts:188-214 | the loop decides adjacency on the clamped cursor |
| ComposerCursor.SegmentsCoverPrompt | apps/web/src/composer-logic.ts:94-131 | expanded lengths add up to the prompt's length, collapsed ones to no more |
| ComposerCursor.CursorGalois | apps/web/src/composer-logic.ts:45-186 | collapse(e) ≤ c exactly if e ≤ expand(c) |
| ComposerCursor.CursorsAtTheEnds | apps/web/src/composer-logic.ts:45-186 | a cursor that is no number or lies beyond the text stands at its end, and one before it at its beginning, in both maps |
| ComposerCursor.CollapseOfExpandClamps | apps/web/src/composer-logic.ts:126-186 | collapsing an expanded cursor is clamping it, for every input |
| ComposerCursor.CursorsAreMonotone | apps/web/src/composer-logic.ts:45-186 | both maps are monotone and stay within the text |
| ComposerCursor.ExpandOfCollapseRoundsUp | apps/web/src/composer-logic.ts:45-186 | collapse then expand gives the least position at or after the cursor that is not inside a token |
| ComposerCursor.AdjacencyIsTheTokenBetween | apps/web/src/composer-logic.ts:188-214 | adjacency on either side says exactly whether the unit between two cursor positions is a token, which is the stretch that expanding skips |
| TerminalContexts.NormalizeTerminalContextsForThread | apps/web/src/composerDraftStore.ts:513-536 | the loop with its two sets keeps the first context of each id and of each range |
| TerminalContexts.DedupKeyIsInjective | apps/web/src/composerDraftStore.ts:487-489 | equal keys mean the same terminal and the same lines |
| TerminalContexts.AcceptKeepsStored | apps/web/src/composerDraftStore.ts:491-536 | accepted contexts are well formed, with distinct ids and distinct ranges |
| TerminalContexts.AcceptTakesOn | apps/web/src/composerDraftStore.ts:513-536 | the contexts taken on are, in order, exactly those that normalize and share neither an id nor terminal and lines with what is stored or with one taken on before |
| TerminalContexts.NormalizedIsNearest | apps/web/src/composerDraftStore.ts:491-511 | a context is refused exactly if its terminal or label is blank, and otherwise its lines are moved up as little as they can be |
| TerminalContexts.SliceSelectsAcceptedNew | apps/web/src/composerDraftStore.ts:2789-2818 | normalizing stored plus new contexts keeps all stored ones as the prefix, and the slice after it is exactly the accepted new ones |
| TerminalContexts.NormalizingTextIsStableIff | apps/web/src/lib/terminalContext.ts:42-44 | normalizing again changes nothing exactly if the text holds no CR CR LF with something other than line breaks behind it |
| TerminalContexts.NormalizingTextIsNotStable | apps/web/src/lib/terminalContext.ts:42-44 | an input for which it does change |
| DraftStore.AssignLogicalProjectDraftMapping | apps/web/src/composerDraftStore.ts:1057-1078 | the new mapping, and whether another key of the draft was removed |
| DraftStore.StepKeepsConsistent | apps/web/src/composerDraftStore.ts:1174-1347 | every action keeps the project map injective, mapped drafts present with their project key, and unmapped drafts promoted |
| DraftStore.RunsStayConsistent | apps/web/src/composerDraftStore.ts:2091-2331 | so does every sequence of actions from an empty store |
| DraftStore.UnpromotedHasOneProject | apps/web/src/composerDraftStore.ts:1174-1262 | an unpromoted draft is reachable under exactly its own project key |
| DraftStore.UpsertTouchesOnlyTwoDrafts | apps/web/src/composerDraftStore.ts:1174-1262 | setting a project's draft evicts exactly the unpromoted draft it replaces; every other draft keeps session and content |
| DraftStore.UpsertThenLookup | apps/web/src/composerDraftStore.ts:2029-2044 | looking up the project finds the draft just set unless it is promoted; other projects find what they did unless they lost this draft |
| DraftStore.UpsertIsIdempotent | apps/web/src/composerDraftStore.ts:1090-1262 | setting the same draft again, even later, changes nothing |
| DraftStore.RunsKeepContextsStored | apps/web/src/composerDraftStore.ts:2386-2411 | in every reachable store the contexts of a draft have distinct ids, distinct ranges and normalized lines |
| DraftStore.AddAppendsAccepted | apps/web/src/composerDraftStore.ts:2789-2818 | in every reachable store, adding contexts appends exactly the accepted new ones |
| DraftStore.EveryContextHasPlaceholder | apps/web/src/lib/terminalContext.ts:289-308 | padding gives at least one placeholder per context, in front of the unchanged prompt |
| DraftActions.RemovalIsExact | apps/web/src/composerDraftStore.ts:1320-1347 | clearing a draft always, finalizing it exactly if it is promoted and clearing it for a project exactly if it belongs to it takes it out of all three maps and leaves every other entry as it was; otherwise nothing changes |
| DraftActions.ProjectLosesRemovedDraft | apps/web/src/composerDraftStore.ts:2029-2044 | a project whose draft is removed finds none, and every other finds what it found |
| DraftActions.PromotedIsFinalized | apps/web/src/composerDraftStore.ts:2270-2308 | a promoted draft is found by no project and is removed by finalizing it, nothing else changing |
| DraftActions.SetContextMoves | apps/web/src/composerDraftStore.ts:2161-2239 | what is set sticks, a branch and a worktree go with the project, everything else about the session stays, and nothing happens to other drafts |
| DraftActions.SettingMoves | apps/web/src/composerDraftStore.ts:1090-1262 | setting a project's draft moves an existing one in the same way, begins a new one with the defaults, and does nothing without a project key or draft |
| DraftActions.MovesAgree | apps/web/src/composerDraftStore.ts:1090-2239 | both ways of moving a draft leave the same session, unless an empty date is given |
| DraftActions.PutReadsBack | apps/web/src/composerDraftStore.ts:2371-2384 | a content that is put is read back, and is kept exactly if it is not empty |
| DraftActions.PromptIsRewritten | apps/web/src/composerDraftStore.ts:2366-2385 | setting a prompt changes that and nothing else |
| DraftActions.ContextsAreRewritten | apps/web/src/composerDraftStore.ts:2386-2411 | setting contexts replaces them by those taken on and puts the missing placeholders before the prompt |
| DraftActions.AddedContextsAreRewritten | apps/web/src/composerDraftStore.ts:2789-2818 | adding contexts does that behind those stored, and nothing if none is taken on |
| DraftActions.InsertedContextIsRewritten | apps/web/src/composerDraftStore.ts:2738-2777 | inserting puts one normalized context at the index or the nearest end, and nothing if it clashes |
| DraftActions.RemovedContextIsRewritten | apps/web/src/composerDraftStore.ts:2819-2843 | removing a context takes out exactly that one |
| DraftActions.ClearedContextsAreRewritten | apps/web/src/composerDraftStore.ts:2844-2865 | clearing takes out all of them |
| DraftStoreObject.ComposerDraftStore.ResolveKey | apps/web/src/composerDraftStore.ts:1001-1026 | the key a target stands for: its own content first, then the first session in insertion order with its identity |
| DraftStoreObject.FirstSuchIsFirst | apps/web/src/composerDraftStore.ts:1013-1020 | that search finds a session that passes the test with none before it, or none passes |
| DraftStoreObject.NewSessionIsLast | apps/web/src/composerDraftStore.ts:1230-1252 | the sessions that stay keep their order and a new one comes behind them |
| DraftStoreObject.ComposerDraftStore.TargetsStandFor | apps/web/src/composerDraftStore.ts:1001-1040 | a thread stands for its own content or for a session with its identity, or else for itself; a draft for itself; contexts belong to the thread in question |
| DraftStoreObject.ComposerDraftStore.SetLogicalProjectDraftThreadId | apps/web/src/composerDraftStore.ts:2091-2152 | updates the three maps as the specification says, or returns early when nothing would change |
| DraftStoreObject.ComposerDraftStore.SetDraftThreadContext | apps/web/src/composerDraftStore.ts:2161-2239 | changes one session's context |
| DraftStoreObject.ComposerDraftStore.ClearProjectDraftThreadId | apps/web/src/composerDraftStore.ts:2240-2252 | removes the first draft of the project in insertion order (`DraftActions.RemovalIsExact` says from where), or nothing if there is none |
| DraftStoreObject.ComposerDraftStore.ClearProjectDraftThreadById | apps/web/src/composerDraftStore.ts:2253-2269 | removes the target's draft if it belongs to the project |
| DraftStoreObject.ComposerDraftStore.MarkDraftThreadPromoting | apps/web/src/composerDraftStore.ts:2270-2295 | marks one session as promoted |
| DraftStoreObject.ComposerDraftStore.FinalizePromotedDraftThread | apps/web/src/composerDraftStore.ts:2296-2308 | removes a promoted draft everywhere |
| DraftStoreObject.ComposerDraftStore.ClearDraftThread | apps/web/src/composerDraftStore.ts:2309-2331 | removes a draft everywhere |
| DraftStoreObject.ComposerDraftStore.SetTerminalContexts | apps/web/src/composerDraftStore.ts:2386-2411 | if the target has a key and a thread, stores the normalized contexts and pads the prompt, and otherwise changes nothing |
| DraftStoreObject.ComposerDraftStore.AddTerminalContexts | apps/web/src/composerDraftStore.ts:2789-2818 | if the target has a key and a thread, stores the accepted new contexts after the old ones, and otherwise changes nothing |
| DraftStoreObject.ComposerDraftStore.InsertTerminalContext | apps/web/src/composerDraftStore.ts:2738-2777 | inserts one context at the bounded index and answers true exactly if the target has a key and a thread and the context normalizes and is no duplicate |
| DraftStoreObject.UnchangedUpsert | apps/web/src/composerDraftStore.ts:1174-1262 | the early return is taken only when nothing would change |
| CodexPeer.CodexSession.Send | apps/server/src/codexAppServerManager.ts:1215-1244 | takes the next id, enters the pending table, arms the timer, writes |
| CodexPeer.CodexSession.OnResponse | apps/server/src/codexAppServerManager.ts:1197-1213 | settles the request named by the id's text, or does nothing |
| CodexPeer.CodexSession.OnTimer | apps/server/src/codexAppServerManager.ts:1225-1228 | removes and rejects the request |
| CodexPeer.CodexSession.OnServerRequest | apps/server/src/codexAppServerManager.ts:1130-1195 | parks an approval or a user-input request, and refuses any other at once |
| CodexPeer.CodexSession.Respond | apps/server/src/codexAppServerManager.ts:823-859 | answers a parked approval with its own JSON-RPC id and forgets it |
| CodexPeer.CodexSession.RespondInput | apps/server/src/codexAppServerManager.ts:861-896 | the same for user input |
| CodexPeer.CodexSession.Stop | apps/server/src/codexAppServerManager.ts:898-926 | rejects everything pending and clears all tables |
| CodexPeer.CodexSession.RejectPending | apps/server/src/codexAppServerManager.ts:906-909 | the loop clears each timer and rejects each request once |
| CodexPeer.StepKeepsOutgoing | apps/server/src/codexAppServerManager.ts:1197-1244 | every step keeps: unsettled requests are pending under their own key with an armed timer, and calls made and due add up |
| CodexPeer.StepKeepsIncoming | apps/server/src/codexAppServerManager.ts:823-1195 | every step keeps: parked requests are unanswered and distinct, request ids written ascend, replies name different requests |
| CodexPeer.RunsStaySound | apps/server/src/codexAppServerManager.ts:823-1244 | both hold in every interleaving of sends, responses, timeouts, requests, answers, exit and stop |
| CodexPeer.RequestsAreAccounted | apps/server/src/codexAppServerManager.ts:1215-1244 | calls made to a request and the one still to come add up to one if it was written and two if not; an unsettled request is pending under its own id with its timer armed |
| CodexPeer.RequestsSettleOnceIffWritten | apps/server/src/codexAppServerManager.ts:1215-1252 | over every run: no two sends use one id, and once a sent request has left the tables it has received exactly one settling call if and only if its send found the channel writable |
| CodexPeer.StopLeavesNothingPending | apps/server/src/codexAppServerManager.ts:898-912 | after a stop every request is settled, no first outcome has changed and no timer is armed |
| CodexPeer.ResponseSettlesItsRequest | apps/server/src/codexAppServerManager.ts:1197-1213 | a response settles its request whether the id comes back as a number or as its text, with the result or with the error under the method asked for, and one that names no pending request changes nothing |
| CodexPeer.FailedWriteSettlesTwice | apps/server/src/codexAppServerManager.ts:1236-1252 | a request that could not be written is settled again by its timer |
| CodexPeer.AnsweredAtMostOnce | apps/server/src/codexAppServerManager.ts:823-896 | every reply carries the id of the request it answers, no request is answered twice, and none still waits |
| CodexReplies.EveryRequestHasOneFate | apps/server/src/codexAppServerManager.ts:823-1195 | in every run, every request that came in waits for the user, has been answered, or was dropped by a stop or because its answer could not be written; exactly one of these |
| CodexReplies.ParkedAfter | apps/server/src/codexAppServerManager.ts:823-1195 | a request waits after a step exactly if the step parked it, or it waited and was neither dropped nor answered |
| CodexReplies.WrittenAfter | apps/server/src/codexAppServerManager.ts:823-1252 | each step writes exactly one message or none: the request sent, or one reply with the id of the request it answers and what the user said |
| CodexReplies.AnswerReachesItsRequest | apps/server/src/codexAppServerManager.ts:823-896 | the answer to a waiting request on an open session appends exactly one reply, with that request's id and the answer, if the channel is writable, and the request waits no longer |
| CodexReplies.RequestCanBeAnswered | apps/server/src/codexAppServerManager.ts:823-1195 | an approval request that comes in can be decided and a user-input request answered, and the reply carries the id it came with |
| CodexReplies.OpenAfter | apps/server/src/codexAppServerManager.ts:898-955 | a session is open until it is stopped or exits, and a closed one answers nothing |
| CodexReplies.EntryAfter | apps/server/src/codexAppServerManager.ts:1215-1244 | what is pending under a key was entered by the send that took its id, with the method asked for, and never changes |
| CodexReplies.SettledAfter | apps/server/src/codexAppServerManager.ts:898-1244 | each step settles a request by exactly the call it makes, response, error, timeout or stop, or not at all |
| CommandGate.RunsStaySafe | apps/server/src/serverRuntimeStartup.ts:75-122 | in every interleaving: nothing starts before readiness, queued commands run one at a time in queue order, each starts and settles once |
| CommandGate.FailedStartupRunsNothing | apps/server/src/serverRuntimeStartup.ts:96-109 | after a startup failure no command has run and every result is that failure |
| CommandGate.ResultsAreFinal | apps/server/src/serverRuntimeStartup.ts:75-78 | no step changes a result already given |
| CommandGate.OutcomeIsWhatWasGiven | apps/server/src/serverRuntimeStartup.ts:75-122 | in every run, what a command's caller gets is exactly what the command's own effect ended with, or the startup failure it met |
| CommandGate.StartedAfter | apps/server/src/serverRuntimeStartup.ts:101-119 | an effect is started exactly by the worker that holds its command once the gate is open, or at once for a command that comes when the server is ready |
| CommandGate.DecisionSettlesAll | apps/server/src/serverRuntimeStartup.ts:85-122 | once the server is ready or failed, one step decides the gate and then everything queued is settled in order, after a failure with that failure and with nothing started |
| CommandGate.WorkerIsNeverStuck | apps/server/src/serverRuntimeStartup.ts:85-88 | once the latch is decided the worker can always move, and each move lessens the work |
| CommandGate.EverythingQueuedIsSettled | apps/server/src/serverRuntimeStartup.ts:85-119 | draining settles every queued command in queue order, whatever the commands return |
| CommandGate.LateOfferIsSettled | apps/server/src/serverRuntimeStartup.ts:103-119 | a command that saw "pending" but is queued after the gate opened is still settled |
| CommandGate.CommandGate.EnqueueCommand | apps/server/src/serverRuntimeStartup.ts:101-109 | reads the readiness: run now, fail now, or go on to the queue |
| CommandGate.CommandGate.OfferCommand | apps/server/src/serverRuntimeStartup.ts:111-119 | a command that saw "pending" joins the end of the queue, whatever happened since |
| CommandGate.CommandGate.SignalCommandReady | apps/server/src/serverRuntimeStartup.ts:92-93 | sets the readiness and nothing else, so the race before the latch is a state of its own |
| CommandGate.CommandGate.CompleteCommandReady | apps/server/src/serverRuntimeStartup.ts:94 | opens the latch |
| CommandGate.CommandGate.FailCommandReady | apps/server/src/serverRuntimeStartup.ts:96-98 | sets the readiness to the error and nothing else |
| CommandGate.CommandGate.CompleteCommandFailed | apps/server/src/serverRuntimeStartup.ts:99 | fails the latch with that error |
| CommandGate.CommandGate.TakeCommand | apps/server/src/serverRuntimeStartup.ts:85-87 | the idle worker takes the head of the queue |
| CommandGate.CommandGate.RunCommand | apps/server/src/serverRuntimeStartup.ts:113-116 | once the latch is decided the held command starts, or settles with the startup failure without starting |
| CommandGate.CommandGate.SettleQueuedCommand | apps/server/src/serverRuntimeStartup.ts:75-78 | stores the result of the command at the worker |
| HistoryBootstrap.BuildBootstrapInput | apps/web/src/historyBootstrap.ts:60-139 | the two loops compute the specified result |
| HistoryBootstrap.TakeNewest | apps/web/src/historyBootstrap.ts:93-107 | the growing loop keeps a chronological suffix and stops at the first misfit |
| HistoryBootstrap.DropUntilFits | apps/web/src/historyBootstrap.ts:109-138 | the shrinking loop |
| HistoryBootstrap.BootstrapIsWithinBudget | apps/web/src/historyBootstrap.ts:51-139 | the text is within the budget, counts add up, the transcript is the suffix of the included messages, one more older block would not fit, and nothing is silently cut |
| HistoryBootstrap.SentTextIsExact | apps/web/src/historyBootstrap.ts:65-138 | the text is the prompt cut to the limit if there is nothing before it or not even the notice fits, and otherwise the transcript with the whole prompt; it counts as truncated exactly if a message or part of the prompt is missing |
| HistoryBootstrap.BudgetIsTheLimit | apps/web/src/historyBootstrap.ts:65-66 | the limit is the one given if it is finite and positive, and one otherwise |
| HistoryBootstrap.BlockHoldsMessage | apps/web/src/historyBootstrap.ts:17-49 | a block names its author and holds the message's text, the names of its first three images and the number of the others |
| HistoryBootstrap.IncludedMessagesAreSent | apps/web/src/historyBootstrap.ts:51-107 | every message that counts as included can be read in what is sent, and the whole prompt comes last |
| HistoryBootstrap.ShrinkingNeverHappens | apps/web/src/historyBootstrap.ts:109-138 | the second loop returns at its first look |
| HistoryBootstrap.GreedyIsLargestIff | apps/web/src/historyBootstrap.ts:93-107 | the suffix is the longest that fits unless the whole conversation fits while all but the oldest message does not |
| HistoryBootstrap.ShortOldestMessageIsLeftOut | apps/web/src/historyBootstrap.ts:93-107 | whenever the oldest block is shorter than the notice, some budget makes the packer leave it out needlessly |
| Manifest.ParseMacUpdateManifest | scripts/merge-mac-update-manifests.ts:70-183 | the line loop computes the specified manifest or error |
| ManifestAcceptance.AcceptsIff | scripts/merge-mac-update-manifests.ts:70-183 | for every text, whoever wrote it: it is accepted exactly if every line is supported, hashes and sizes stand under a URL line, every record has both, version and date are strings wherever they occur and not empty at last, and there is a file; what is read is then the last version, date, hash, size and extra of each, `path` and `sha512` entries apart; and otherwise the error names a fault the text has |
| ManifestAcceptance.QuotedFieldIsRead | scripts/merge-mac-update-manifests.ts:26-31 | a quoted URL or hash is read as what was quoted |
| ManifestRoundTrip.UrlLineIsRead | scripts/merge-mac-update-manifests.ts:84-91 | whatever follows the prefix of a URL line on one line is its URL, trimmed and unquoted, and a blank one makes the line unsupported |
| ManifestRoundTrip.SizeTextIsRead | scripts/merge-mac-update-manifests.ts:104-113 | whatever follows the prefix of a size line is a size exactly if it is digits but for white space |
| ManifestRoundTrip.EntryTextIsRead | scripts/merge-mac-update-manifests.ts:127-135 | whatever follows a key and a colon is the value of that key, trimmed, unless it is blank |
| Manifest.SerializeMacUpdateManifest | scripts/merge-mac-update-manifests.ts:245-265 | the pushing loops compute the specified text |
| Manifest.CombineExtras | scripts/merge-mac-update-manifests.ts:185-202 | in whatever order the keys come, the loop gives the union or reports a conflict |
| Manifest.MergeFilesByUrl | scripts/merge-mac-update-manifests.ts:214-223 | filling the insertion-ordered map gives the merged list or reports a conflict |
| Manifest.MergeMacUpdateManifests | scripts/merge-mac-update-manifests.ts:204-232 | the whole merge, with its errors in the source's order |
| Doubles.RoundedIsNumber | scripts/merge-mac-update-manifests.ts:63-65 | reading a decimal as the nearest double and writing the decimal found for that double is idempotent |
| Rounding.NearestDoubleIsNearest | scripts/merge-mac-update-manifests.ts:63-65 | the double read for any decimal is the nearest one, within half a unit in its last place and even in a tie, with 53 bits unless its exponent is the least; and it is out of range only if the number it rounds to is |
| Doubles.NumberReadsBackIff | scripts/merge-mac-update-manifests.ts:63-65 | a number that was read is printed as a numeral exactly if it is zero or at least 10^-6 and below 10^21, and that numeral then reads as the same number |
| Doubles.PrintsDigitsIff | scripts/merge-mac-update-manifests.ts:106-115 | a number is printed as digits alone exactly if it is a whole number below 10^21 and not negative, and those digits read as it |
| Doubles.Ten21IsNumber | scripts/merge-mac-update-manifests.ts:63-65 | 10^21 is a number, and the decimal found for it has the single digit 1 |
| ManifestRoundTrip.ScalarReadsBack | scripts/merge-mac-update-manifests.ts:57-68 | every scalar the parser can yield reads back from its printed form with its type, quotes included, but a number printed with an exponent reads back as a string |
| ManifestRoundTrip.ParseOfSerialize | scripts/merge-mac-update-manifests.ts:245-265 | what reading a printed manifest gives, exactly, including when it fails |
| ManifestRoundTrip.SurvivesIffPlain | scripts/merge-mac-update-manifests.ts:70-265 | a manifest comes back unchanged exactly if its version and every URL and hash read as themselves, every size is printed as digits and no extra with an exponent |
| ManifestRoundTrip.PlainVersionIff | scripts/merge-mac-update-manifests.ts:57-68 | a version reads as itself exactly if it is trimmed, unquoted, no boolean and no numeral |
| ManifestRoundTrip.PlainFieldIff | scripts/merge-mac-update-manifests.ts:26-31 | a URL or hash reads as itself exactly if it is nonempty, trimmed and does not both start and end with a quote |
| ManifestRoundTrip.ParsedIsLegal | scripts/merge-mac-update-manifests.ts:70-183 | whatever the parser accepts has files, single-line fields, legal keys and canonical scalars |
| ManifestRoundTrip.RewriteIsLosslessIff | scripts/merge-mac-update-manifests.ts:267-285 | a manifest file that was accepted can be rewritten without loss exactly if what was read is plain |
| ManifestRoundTrip.QuotedVersionIsNotPlain | scripts/merge-mac-update-manifests.ts:57-68 | a version quoted in the file read is refused when printed bare |
| ManifestRoundTrip.LargeNumberIsNotPlain | scripts/merge-mac-update-manifests.ts:57-68 | an extra of 10^21 is read as a number, printed as 1e+21 and read back as a string |
| ManifestMerge.MergeFilesIff | scripts/merge-mac-update-manifests.ts:214-223 | merging files succeeds exactly if no URL has two contents, and then holds each file once with distinct URLs, earlier ones first |
| ManifestMerge.MergesIffCompatible | scripts/merge-mac-update-manifests.ts:204-232 | a merge succeeds exactly for compatible manifests and is then their union with the later date |
| ManifestMerge.MergeWithItselfIff | scripts/merge-mac-update-manifests.ts:204-232 | merging a manifest with itself gives it back exactly if its URLs are distinct |
| ManifestMerge.MergeAbsorbs | scripts/merge-mac-update-manifests.ts:204-232 | merging a merge with either part again changes nothing |
| ManifestMerge.SwappedMergeIff | scripts/merge-mac-update-manifests.ts:185-232 | the other order merges too exactly if no extra found only in the first has an inherited name, and then gives the same but for file order |
| ManifestMerge.InheritedNameIsOneSided | scripts/merge-mac-update-manifests.ts:192-197 | an extra named `constructor` merges from the first file and not from the second |
| ManifestMerge.MergeStaysLegal | scripts/merge-mac-update-manifests.ts:204-232 | a merge of what the parser yields is again such, and stays plain |
| ManifestMerge.MergedFileReadsBack | scripts/merge-mac-update-manifests.ts:267-285 | end to end: the written merge of two files reads back as the merge exactly if both were plain |
| ManifestMerge.SerializeIgnoresOrder | scripts/merge-mac-update-manifests.ts:254-260 | the printed text does not depend on the order in which extras are held |

## Left out

- DraftStoreObject.ComposerDraftStore.ResolveKey: iterates sessions in insertion order; JavaScript would put keys that are array indices first.
- RuleCodec.WrittenReadsBackIff: does not model the schema's own check of a compiled shortcut's key (trimmed, 1 to 64 characters); the space key is held as one blank, so if that check looks for trimmed text, no rule for the space key loads, while the model loads and writes it.
- RuleCodec.LoadedRuleSurvivesIff: likewise for the space key.
- RuleCodec.LoadsIff: likewise for the space key.
- Doubles.RoundedIsNumber: does not say that the decimal found has the fewest digits of all that read as the double, or that 17 digits always suffice; where they would not, the decimal read is kept. No theorem about manifests depends on either.
- The schema's list of commands; a rule's command is any string.
- The sign of a zero in a manifest.
- The conversion of user-input answers to the app-server's form; a reply holds what the user said.
- Setting the prompt and removing or clearing terminal contexts are actions of the store's value (`DraftStore.Apply`) and have no method on the store object.
- Manifest.ParseMacUpdateManifest: errors carry their kind, not message, path or line number.
- Strings are sequences of characters: a character outside the basic plane counts and compares as one, where the source sees two UTF-16 code units. Non-ASCII lower-casing and locale order are not modelled.
- Cursors are integers or not finite; fractional cursor inputs are not modelled.
- Sticky model selection, model options, images, attachments, previews, browser storage and migration in the composer store.
- Clocks, random ids and process state enter as parameters; timers are steps that may happen while armed.
- Transport retries inside one snapshot or replay request, and disposal of a connection, are part of a request succeeding or failing.
- Event payload construction, process spawning, output parsing and the map of several sessions in the app-server manager; one session is modelled.
- Interruption of waiting callers and signalling the gate more than once.
- Watching, caching and writing the keybindings file; labels and the hard-coded terminal and diff shortcuts of the web client.
- SQL behind the event log, git, workspace calls and authentication streams in the server's socket layer.
- Draft ids and keys that collide with inherited object members in the composer store.
