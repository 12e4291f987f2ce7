# semidown: the streaming chunker and its orchestrator, in Dafny

semidown turns a markdown document that arrives in arbitrary text fragments
into a sequence of blocks, each re-rendered as its text grows and finished
once its content is known to be complete. This project models its two state
machines and proves what they promise.

- `MarkdownStreamChunker` (lib/chunker.ts) buffers the text and cuts it at
  blank-line markers (`"\n\n"`). While a triple-backtick fence is open, it
  glues segments together by fence parity. It numbers blocks
  `prefix + counter` and emits `block-start`, `block-update`, `block-end`,
  `block-remains` and `end` to its listeners. It can withhold the unfinished
  link at the end of the pending text (`getSafeData`).
- `SemidownCore` (lib/semidown-core.ts) subscribes to the chunker. It keeps
  its lifecycle state and a table of per-block bookkeeping
  (`updateCounter`, `ended`, `complete`). It drives a renderer, emits
  `block-create`, `block-update`, `block-complete` and `end`, and decides
  when a block is finished and when the stream has ended.

Modules, one per file:

- `Wrappers`: `Option` and `Result`.
- `Text`: `indexOf`, `lastIndexOf`, the global match count of a fence, and the
  decimal rendering of the block counter.
- `Listeners`: the listener lists that both classes keep: `on`, `off` and the
  calls `emit` makes.
- `ChunkerSpec`: the chunker's operations as functions from its state (buffer,
  current block id, next block number) to a new state and the events it emits.
- `ChunkerTrace`: the event protocol every chunker trace follows, the invariant
  between public calls, and what `write` and `end` leave behind.
- `Chunker`: the class `MarkdownStreamChunker`. Its fields are updated in place
  by the methods of the source, including the `while (true)` cutting loop of
  `write`. Each method is proved to move the fields exactly as the matching
  `ChunkerSpec` function says. Every listener call is logged in `calls`, and
  every emitted event in the ghost `trace`.
- `CoreSpec`: the orchestrator's handlers as functions on its bookkeeping, and
  the invariant they keep:
  - each block's counter equals the number of its updates in flight;
  - every update in flight has its block's entry;
  - the open block has a live entry;
  - `end` fires at most once, and only when nothing is left.

  It also holds the rules for finishing a block and for ending the stream.
- `Core`: the class `SemidownCore`, proved against `CoreSpec`. The `await` in
  `onBlockUpdate` splits that handler in two atomic steps:
  - `OnBlockUpdate`: the guard and `++updateCounter`;
  - `SettleUpdate`: everything after the conversion and the render resolve.

  `SettleUpdate` is called by the environment with the converted html, for
  any update in flight and in any order. So every interleaving of
  conversions with later chunker events is covered.

Three behaviours of the code are worth stating, because the model keeps them
as they are:

- The code has no state check after the `await` of `onBlockUpdate`
  (lib/semidown-core.ts:123-140). So after `destroy`, a conversion still in
  flight goes on settling. It still calls `renderer.updateBlock`, emits
  `block-update` and may finish its block. `SettleFinishIff` holds in every
  state.
- A block is finished only once an update flagged complete has settled
  (lib/semidown-core.ts:128-139, 155). When the stream ends inside an unclosed
  fence, the chunker flags both the last update and the end of the last block
  incomplete (`EndStreamEvents`). A block with no complete mark and no
  complete update in flight stays so: it keeps its entry and `end` is never
  emitted (`SettleKeepsStuck`, `ReceiveKeepsStuck`). These lemmas prove that
  this state persists. They do not prove that every earlier update of that
  block was incomplete too.
- Fence matches are counted left to right without overlap, as `String.match`
  with a global pattern does. Four backticks in a row count as one fence.

## Model

| member | source | states |
|---|---|---|
| Text.IndexOf | lib/chunker.ts:45 | `indexOf("\n\n")`: -1 exactly when the marker does not occur, otherwise the first index where it occurs |
| Text.LastIndexOf | lib/chunker.ts:101-110 | `lastIndexOf(c)`: the last index holding `c`, or -1 when there is none |
| Text.FenceCount | lib/chunker.ts:172 | reference definition of the number of global matches of the fence pattern: a left-to-right scan that resumes after each match; its properties are `FenceCountFinds` and `FenceCountConcat` |
| Text.FenceCountFinds | lib/chunker.ts:171-174 | the fence match count is positive exactly when `indexOf` finds a fence |
| Text.FenceCountConcat | lib/chunker.ts:171-174 | fence counts add up across a joint that no fence can straddle |
| Text.Decimal | lib/chunker.ts:151 | the `${n}` rendering of the counter is a non-empty string of decimal digits |
| Text.DecimalRoundTrip | lib/chunker.ts:151 | the counter's decimal rendering in the block id reads back as the counter |
| Text.PrefixedDecimalInjective | lib/chunker.ts:151 | distinct counters behind the same prefix give distinct block ids |
| Listeners.Deliver | lib/chunker.ts:142-147 | `emit` makes one call per registered listener |
| Listeners.DeliverIndex | lib/chunker.ts:142-147 | the i-th call goes to the i-th registered listener, with the emitted payload |
| Listeners.DeliverSnoc | lib/chunker.ts:134-136 | a listener added with `on` is called after all earlier ones |
| Listeners.Off | lib/chunker.ts:138-140 | `off` removes every registration of the callback and keeps every other listener, with its multiplicity |
| Listeners.OffConcat | lib/chunker.ts:138-140 | `off` keeps the order of the listeners it does not remove |
| Listeners.OffAbsent | lib/chunker.ts:138-140 | removing a callback that is not registered changes nothing |
| Listeners.OnThenOff | lib/chunker.ts:134-140 | `on` then `off` of a new callback restores the list |
| ChunkerSpec.MakeOptions | lib/chunker.ts:30-33 | an unset prefix is `"block-"` and unset link withholding is off |
| ChunkerSpec.HasBalancedFences | lib/chunker.ts:171-174 | reference definition of `hasBalancedFences`: an even fence count; its properties are `BalancedFences` and `BalanceConcat` |
| ChunkerSpec.BalancedFences | lib/chunker.ts:171-174 | a text without a fence is balanced; a text with exactly one fence is not, and holds a fence |
| ChunkerSpec.BalanceConcat | lib/chunker.ts:63-80 | a fence span glued from pieces at joints no fence straddles is balanced exactly when the pieces agree in balance |
| ChunkerSpec.StartStep | lib/chunker.ts:149-154 | reference definition of `emitStart` on the chunker state; its contract is `StartStepOpens` |
| ChunkerSpec.StartStepOpens | lib/chunker.ts:149-154 | afterwards a block is open and the buffer is unchanged; a block is started only when none was open, with id `prefix + counter`, and the counter moves past it |
| ChunkerSpec.UpdateStep | lib/chunker.ts:156-159 | reference definition of `emitUpdate`; its contract is `UpdateStepReports` |
| ChunkerSpec.UpdateStepReports | lib/chunker.ts:156-159 | the last event updates the open block with the given content and flag, preceded by a start exactly when no block was open |
| ChunkerSpec.EndStep | lib/chunker.ts:165-169 | reference definition of `emitEnd`; its contract is `EndStepCloses` |
| ChunkerSpec.EndStepCloses | lib/chunker.ts:165-169 | afterwards no block is open; the open block, if any, is ended with the flag, and nothing else changes |
| ChunkerSpec.SegmentStep | lib/chunker.ts:61-85 | reference definition of one iteration of the loop of `write`; its contract is `SegmentStepReports` |
| ChunkerSpec.SegmentStepReports | lib/chunker.ts:61-85 | the segment is reported as an update of its content with its flag; a block stays open exactly while a fence span is, and otherwise it is ended with the update's flag |
| ChunkerSpec.ScanAdvances | lib/chunker.ts:44-86 | the loop of `write` never moves the block counter back |
| ChunkerSpec.RemainsStep | lib/chunker.ts:88-97 | reference definition of the tail of `write`; its contract is `ChunkerTrace.RemainsReports` |
| ChunkerSpec.WriteStep | lib/chunker.ts:38-98 | reference definition of `write` on the chunker state; its contracts are `WriteAdvances`, `WriteWithoutMarker`, `ChunkerTrace.WriteKeeps`, `ChunkerTrace.WriteLeavesRest` and `ChunkerTrace.WriteQuiet` |
| ChunkerSpec.WriteAdvances | lib/chunker.ts:38-98 | `write` never moves the block counter back |
| ChunkerSpec.WriteWithoutMarker | lib/chunker.ts:44-97 | a text with no blank line ends no block and no stream: it stays whole in the buffer under an open block and is reported by `block-remains`; an empty text changes nothing |
| ChunkerSpec.FlushStep | lib/chunker.ts:125-130 | reference definition of the flush in `end`; its contract is `FlushStepCloses` |
| ChunkerSpec.FlushStepCloses | lib/chunker.ts:125-130 | the buffer is emptied; a non-empty one becomes its block's last update and its end, both flagged with its fence balance, leaving no block open; an empty one changes nothing |
| ChunkerSpec.EndStreamStep | lib/chunker.ts:124-132 | reference definition of `end`; its contracts are `ChunkerTrace.EndStreamEvents` and `ChunkerTrace.EndStreamKeeps` |
| ChunkerSpec.ScanPartsSnoc | lib/chunker.ts:44-86 | one more segment cut by the loop is one more segment step after the others |
| ChunkerSpec.SafeData | lib/chunker.ts:100-118 | `getSafeData` returns a prefix of its input: the input itself when it has no `[`, otherwise either all of it or the text before the last `[` |
| ChunkerSpec.SplitBlankJoins | lib/chunker.ts:44-58 | the text the loop consumes is its segments, each followed by a marker, then the kept rest |
| ChunkerSpec.SplitBlankClean | lib/chunker.ts:44-58 | no segment holds a marker or ends in a newline, and the kept rest holds no marker |
| ChunkerSpec.SplitJoinRoundTrip | lib/chunker.ts:44-58 | cutting the joined segments and rest gives back exactly those segments and rest |
| ChunkerSpec.FirstPartClean | lib/chunker.ts:45-48 | the text before the first marker is a clean segment |
| ChunkerSpec.FirstPartNoMarker | lib/chunker.ts:45-48 | the text before the first marker holds no marker |
| ChunkerSpec.FirstPartOpenEnd | lib/chunker.ts:45-48 | the text before the first marker does not end with a newline |
| ChunkerSpec.CutAdvance | lib/chunker.ts:45-58 | one cut of the loop takes the next segment still to come and leaves the cuts of the rest |
| ChunkerSpec.SplitBlankStep | lib/chunker.ts:45-58 | cutting is the segment before the first marker followed by the cuts of what follows it |
| ChunkerSpec.IndexAfterCleanPart | lib/chunker.ts:45 | after a clean segment and its marker, `indexOf` finds that marker |
| ChunkerSpec.SafeDataWithholdsText | lib/chunker.ts:101-105 | text with no `]` after its last `[` is cut before that `[`, whatever brackets come earlier |
| ChunkerSpec.SafeDataWithholdsBareBrackets | lib/chunker.ts:101-105 | text ending in `]` is cut before its last `[`, whatever `]` lie between them |
| ChunkerSpec.SafeDataWithholdsDestination | lib/chunker.ts:101-113 | a link whose destination is still open is cut before its `[`, whatever `]` its text holds |
| ChunkerSpec.SafeDataShowsFinishedLink | lib/chunker.ts:100-117 | a finished link at the end is shown whole, whatever `]` its text holds |
| ChunkerSpec.SafeDataShowsAfterClosedBracket | lib/chunker.ts:100-117 | a closed `[…]` followed by more text is shown whole unless that text is exactly an open destination (a `(` right after the `]`, with no later `(` or `)`); with `SafeDataWithholdsText`, `SafeDataWithholdsBareBrackets` and `SafeDataWithholdsDestination` this covers every position of the last `[`, so `getSafeData` cuts exactly in the link shapes those three name |
| ChunkerTrace.Snoc | lib/chunker.ts:149-169 | one more event: the protocol holds iff it held before and the event is allowed, and the open block and start count move accordingly |
| ChunkerTrace.TracksStart | lib/chunker.ts:149-154 | `emitStart` keeps the protocol and leaves a block open |
| ChunkerTrace.TracksUpdate | lib/chunker.ts:156-159 | `emitUpdate` keeps the protocol, and its last event updates the open block with the given content and flag |
| ChunkerTrace.TracksEnd | lib/chunker.ts:165-169 | `emitEnd` right after an update with the same flag keeps the protocol and leaves no block open |
| ChunkerTrace.SegmentFences | lib/chunker.ts:63-80 | an open fence span always has an odd fence count, and a segment that ends a block reports the fence balance of its content |
| ChunkerTrace.SegmentKeeps | lib/chunker.ts:61-85 | one iteration of the loop keeps the protocol |
| ChunkerTrace.ScanKeeps | lib/chunker.ts:44-86 | the loop of `write` keeps the protocol |
| ChunkerTrace.ScanShape | lib/chunker.ts:44-86 | after the loop an open span has an odd fence count, and a block is open exactly while a span is |
| ChunkerTrace.ScanEndsComplete | lib/chunker.ts:67-85 | every block end the loop emits is flagged complete |
| ChunkerTrace.RemainsKeeps | lib/chunker.ts:92-97 | a non-empty tail is buffered whole under an open block; an empty one changes nothing |
| ChunkerTrace.TailKeeps | lib/chunker.ts:88-97 | the tail of `write` keeps the protocol, and a non-empty buffer has an open block |
| ChunkerTrace.WriteQuiet | lib/chunker.ts:38-98 | `write` never emits the stream end |
| ChunkerTrace.FlushQuiet | lib/chunker.ts:125-130 | the flush at the start of `end` emits no stream end |
| ChunkerTrace.WriteKeeps | lib/chunker.ts:38-98 | `write` keeps the protocol, and the buffer is empty iff no block is open |
| ChunkerTrace.EndStreamKeeps | lib/chunker.ts:124-132 | `end` keeps the protocol and leaves the buffer empty with no block open |
| ChunkerTrace.WriteLeavesRest | lib/chunker.ts:40-93 | `write` buffers the text after the last marker, behind any open span; with no span open that text holds no marker and follows the consumed segments |
| ChunkerTrace.RemainsReports | lib/chunker.ts:92-97 | a non-empty tail is buffered whole and reported by an update flagged incomplete, withheld only if configured, then by `block-remains` carrying the whole tail |
| ChunkerTrace.EndStreamEvents | lib/chunker.ts:124-132 | `end` with an empty buffer emits only `end`; otherwise one update of the whole buffer and one block end, both flagged with its fence balance, then `end` |
| ChunkerTrace.TraceOkPrefix | lib/chunker.ts:149-169 | every prefix of a chunker trace follows the protocol |
| ChunkerTrace.OpenHasStart | lib/chunker.ts:149-169 | the open block was started and has not ended since |
| ChunkerTrace.StartCountMonotone | lib/chunker.ts:151 | the block counter never decreases, and rises at each start |
| ChunkerTrace.StartNumbered | lib/chunker.ts:149-154 | the n-th block started gets id `prefix + n` |
| ChunkerTrace.StartIdsDistinct | lib/chunker.ts:149-154 | two starts never carry the same id |
| ChunkerTrace.FollowsStart | lib/chunker.ts:156-169 | every update and end concerns a block started earlier and not ended since |
| ChunkerTrace.NoUpdateAfterEnd | lib/chunker.ts:156-169 | no block receives an update after its end |
| ChunkerTrace.EndReportsBalance | lib/chunker.ts:124-131 | a block end directly follows an update of the same block with the same flag, and that flag is the update content's fence balance |
| Chunker.MarkdownStreamChunker.constructor | lib/chunker.ts:30-33 | a new chunker: empty buffer, no block open, counter 1, no listeners, options with their defaults |
| Chunker.MarkdownStreamChunker.On | lib/chunker.ts:134-136 | appends the callback to the event's list; nothing else changes |
| Chunker.MarkdownStreamChunker.Off | lib/chunker.ts:138-140 | filters the callback out of the event's list; nothing else changes |
| Chunker.MarkdownStreamChunker.Emit | lib/chunker.ts:142-147 | calls the event's listeners in registration order and records the event |
| Chunker.MarkdownStreamChunker.EmitStart | lib/chunker.ts:149-154 | opens a block with the next numbered id unless one is open |
| Chunker.MarkdownStreamChunker.EmitUpdate | lib/chunker.ts:156-159 | `emitStart`, then an update of the open block |
| Chunker.MarkdownStreamChunker.EmitRemains | lib/chunker.ts:161-163 | reports the tail for the open block |
| Chunker.MarkdownStreamChunker.EmitEnd | lib/chunker.ts:165-169 | no-op without an open block; otherwise ends it and clears the id |
| Chunker.MarkdownStreamChunker.WriteSegment | lib/chunker.ts:61-85 | one iteration of the loop: fields, events and `fencedData` as the segment step says |
| Chunker.MarkdownStreamChunker.CutBlocks | lib/chunker.ts:44-86 | the `while (true)` loop: the segments it cuts are the blank-line cuts of the text, processed in order, and it leaves their rest |
| Chunker.MarkdownStreamChunker.WriteRemains | lib/chunker.ts:92-97 | buffers and reports a non-empty tail |
| Chunker.MarkdownStreamChunker.Write | lib/chunker.ts:38-98 | `write`: fields, trace and listener calls as the write step says; the protocol invariant is kept |
| Chunker.MarkdownStreamChunker.Flush | lib/chunker.ts:125-130 | flushes a non-empty buffer as the last update and end of its block |
| Chunker.MarkdownStreamChunker.FlushBlock | lib/chunker.ts:126-129 | the flush of a non-empty buffer |
| Chunker.MarkdownStreamChunker.End | lib/chunker.ts:124-132 | `end`: flush, then the stream end; the protocol invariant is kept |
| CoreSpec.ReactHooked | lib/semidown-core.ts:104-110 | with `hookup`'s subscriptions, running the handlers over the chunker's listener calls is receiving its events one by one |
| CoreSpec.HookedCalls | lib/semidown-core.ts:104-110 | each chunker event but `block-remains` reaches exactly its one handler |
| CoreSpec.StartInv | lib/semidown-core.ts:104-110 | the invariant holds right after construction |
| CoreSpec.CheckEndStep | lib/semidown-core.ts:167-171 | reference definition of `checkEnd`; its contracts are `CheckEndFires` and `EndFiresIff` |
| CoreSpec.CheckEndFires | lib/semidown-core.ts:167-171 | `checkEnd` changes no state and emits `end`, once, exactly when idle with an empty table |
| CoreSpec.FinishStep | lib/semidown-core.ts:143-149 | reference definition of `finishBlock`; its contracts are `FinishDrops` and `EndFiresIff` |
| CoreSpec.FinishDrops | lib/semidown-core.ts:143-149 | `block-complete` comes first, exactly the block's entry is dropped, and the lifecycle state and the updates in flight stay |
| CoreSpec.BlockStartStep | lib/semidown-core.ts:112-117 | reference definition of `onBlockStart`; its contracts are `BlockStartCreates` and `StartKeeps` |
| CoreSpec.BlockStartCreates | lib/semidown-core.ts:112-117 | while processing: the renderer block is created, a fresh entry is put, every other entry stays, and `block-create` is emitted; otherwise nothing happens |
| CoreSpec.BeginUpdateStep | lib/semidown-core.ts:119-122 | reference definition of `onBlockUpdate` up to its first `await`; its contracts are `BeginUpdateCounts` and `UpdateKeeps` |
| CoreSpec.BeginUpdateCounts | lib/semidown-core.ts:119-122 | nothing is emitted or rendered; while processing and with an entry, exactly that block's counter rises by one and the update is queued; otherwise nothing changes |
| CoreSpec.SettleStep | lib/semidown-core.ts:123-140 | reference definition of `onBlockUpdate` after its `await`s; its contracts are `SettleFinishIff`, `SettledKeeps` and `SettleKeeps` |
| CoreSpec.BlockEndStep | lib/semidown-core.ts:151-160 | reference definition of `onBlockEnd`; its contracts are `BlockEndFinishIff`, `BlockEndKeeps` and `InertUnlessProcessing` |
| CoreSpec.EndEventStep | lib/semidown-core.ts:162-165 | reference definition of `onEnd`; its contracts are `EndEventKeeps` and `EndFiresIff` |
| CoreSpec.TraceStep | lib/chunker.ts:149-169 | the chunker's next event is one the orchestrator admits: a start only with no block open and a never-used id, updates and ends of the open block, the stream end with none open |
| CoreSpec.StartKeeps | lib/semidown-core.ts:112-117 | `onBlockStart` never overwrites an entry and keeps the invariant |
| CoreSpec.UpdateKeeps | lib/semidown-core.ts:119-122 | the begin step of `onBlockUpdate` finds its block's entry and keeps the invariant |
| CoreSpec.BlockEndKeeps | lib/semidown-core.ts:151-160 | `onBlockEnd` finds its block's entry, so the source's dereference never throws, and keeps the invariant |
| CoreSpec.EndEventKeeps | lib/semidown-core.ts:162-165 | `onEnd` goes idle and keeps the invariant |
| CoreSpec.ReceiveKeeps | lib/semidown-core.ts:112-165 | any event the chunker may emit next keeps the invariant |
| CoreSpec.ReceiveAllKeeps | lib/semidown-core.ts:49-60 | the events of one chunker `write` or `end` keep the invariant; still processing after `write`, idle after `end` |
| CoreSpec.WriteReacted | lib/semidown-core.ts:49-53 | the subscribed handlers, run over the listener calls of one chunker `write`, receive its events in order, keep the invariant and leave the core processing |
| CoreSpec.EndReacted | lib/semidown-core.ts:56-60 | the same for the chunker's `end`, which leaves the core idle |
| CoreSpec.FinishKeeps | lib/semidown-core.ts:143-149 | finishing a block with no update in flight keeps the invariant |
| CoreSpec.SettledKeeps | lib/semidown-core.ts:122-126 | a settling update's block has its entry with a counter of at least 1, so counters never go negative |
| CoreSpec.SettleKeeps | lib/semidown-core.ts:119-141 | the settle step finds its block's entry and keeps the invariant |
| CoreSpec.PhaseKeeps | lib/semidown-core.ts:77-97 | `pause`, `resume` and `destroy` keep the invariant |
| CoreSpec.InertUnlessProcessing | lib/semidown-core.ts:112-165 | outside `processing`, start, update and block-end change nothing; `onEnd` still goes idle |
| CoreSpec.SettleFinishIff | lib/semidown-core.ts:123-140 | a settled update is rendered and shown; its block finishes iff it was the block's last update in flight, the block has ended, and the block or this update is complete; otherwise the complete mark is added |
| CoreSpec.BlockEndFinishIff | lib/semidown-core.ts:151-160 | `onBlockEnd` finalizes on the renderer; the block finishes at once iff it is complete with no update in flight, otherwise it is marked ended |
| CoreSpec.EndFiresIff | lib/semidown-core.ts:143-171 | `end` is emitted by `onEnd` iff no block is left, and by `finishBlock` iff the state is idle and the finished block was the last |
| CoreSpec.EndDrained | lib/semidown-core.ts:167-171 | once `end` is emitted no entry and no update in flight remain |
| CoreSpec.SettleKeepsStuck | lib/semidown-core.ts:128-140 | a block with no complete update never finishes, and no settle emits `end` meanwhile |
| CoreSpec.ReceiveKeepsStuck | lib/semidown-core.ts:151-165 | once processing is over, chunker events neither finish an incomplete block nor emit `end` |
| Core.New | lib/semidown-core.ts:33-46 | throws "Either targetElement or renderer must be provided." iff neither is given; otherwise a valid new core, processing |
| Core.HookedBuilt | lib/semidown-core.ts:104-110 | the four subscriptions of `hookup` give one handler per event but `block-remains` |
| Core.HookedRemoved | lib/semidown-core.ts:92-96 | the four removals of `destroy` leave the chunker with no listener |
| Core.SemidownCore.constructor | lib/semidown-core.ts:33-46 | a core hooked to a fresh chunker, processing, with an empty table |
| Core.SemidownCore.Hookup | lib/semidown-core.ts:104-110 | goes processing and subscribes the four handlers |
| Core.SemidownCore.Write | lib/semidown-core.ts:49-53 | forwards to the chunker only while processing, otherwise changes nothing; the handlers react to its events and the invariant is kept |
| Core.SemidownCore.End | lib/semidown-core.ts:56-60 | forwards to the chunker only while processing, otherwise changes nothing; afterwards the core is idle and the invariant is kept |
| Core.SemidownCore.Dispatch | lib/chunker.ts:142-147 | the subscribed handlers run over a run of the chunker's listener calls, in order |
| Core.SemidownCore.HandleCall | lib/semidown-core.ts:104-110 | one call of a subscribed handler with its payload |
| Core.SemidownCore.OnBlockStart | lib/semidown-core.ts:112-117 | creates the renderer block, puts a fresh entry and emits `block-create` while processing |
| Core.SemidownCore.OnBlockUpdate | lib/semidown-core.ts:119-122 | while processing and with an entry, counts the update and starts its conversion |
| Core.SemidownCore.SettleUpdate | lib/semidown-core.ts:123-141 | settling any update in flight keeps the invariant and does what the settle step says |
| Core.SemidownCore.Settle | lib/semidown-core.ts:126-140 | decrements the counter, emits `block-update` with the html, and finishes or marks the block |
| Core.SemidownCore.FinishBlock | lib/semidown-core.ts:143-149 | emits `block-complete`, drops the entry, then checks for the end |
| Core.SemidownCore.OnBlockEnd | lib/semidown-core.ts:151-160 | finalizes on the renderer, then finishes the block or marks it ended |
| Core.SemidownCore.OnEnd | lib/semidown-core.ts:162-165 | goes idle and checks for the end |
| Core.SemidownCore.CheckEnd | lib/semidown-core.ts:167-171 | emits `end` when idle with an empty table |
| Core.SemidownCore.Emit | lib/semidown-core.ts:70-75 | calls the event's listeners in registration order and records the event |
| Core.SemidownCore.On | lib/semidown-core.ts:62-64 | appends the listener to the event's list |
| Core.SemidownCore.Off | lib/semidown-core.ts:66-68 | filters the listener out of the event's list |
| Core.SemidownCore.Pause | lib/semidown-core.ts:77-81 | processing becomes paused; every other state stays |
| Core.SemidownCore.Resume | lib/semidown-core.ts:83-87 | paused becomes processing; every other state stays |
| Core.SemidownCore.Destroy | lib/semidown-core.ts:89-97 | destroyed from any state, the renderer cleared, all four chunker subscriptions removed |
| Core.SemidownCore.Unhook | lib/semidown-core.ts:93-96 | the four `chunker.off` calls leave the chunker with no listener |
| Core.SemidownCore.GetState | lib/semidown-core.ts:99-101 | returns the lifecycle state |

## Left out

- The parser and the renderer are external collaborators (marked, shiki, the DOM). The html of a conversion is the `html` argument of `SettleUpdate`. The renderer calls are recorded in `renders`, in the order the code makes them.
- Promise scheduling is left out. The `await` of `onBlockUpdate` is the split between `OnBlockUpdate` and `SettleUpdate`, and the environment picks which update settles next. A parse or render that rejects leaves its update unsettled forever, which is the same as never calling `SettleUpdate` for it. The two awaits of one update, `parse` and `updateBlock`, settle together in one step.
- Core.SemidownCore.constructor: a chunker passed in the options is not modelled. The core always builds its own chunker with the default options, as it does when none is given.
- Core.New: the options become two flags saying whether a target element and a renderer are given. The parser and the html target element are not modelled.
- Listener re-entrancy is left out. A listener that calls back into `write`, `end`, `destroy`, `pause`, `resume`, `on` or `off` while an event is being emitted is not modelled. For example, a core `block-update` listener that calls `pause` makes the next `onBlockEnd` do nothing, so that block keeps its entry for good. Listeners are opaque values of a type with equality, and the model records each call made to them.
- `renders` and `calls` are separate logs. The order between a renderer call and an event emitted in the same handler is not recorded.
- Core.SemidownCore.OnBlockEnd: without an entry the source throws after finalizing the block. The model only records the finalize call. `BlockEndKeeps` shows that the case never arises.
- Core.SemidownCore.OnBlockUpdate: without an entry the source's increment throws inside the async handler and only rejects its promise. The model changes nothing.
- That cutting gives the same blocks however the text is fragmented is not proved; the intermediate updates differ with the fragmentation.
- The block counter is an unbounded `nat`. The source's counter is a double: it loses increments past 2^53 and renders in exponent notation from 1e21. `Text.Decimal`, `Text.DecimalRoundTrip`, `Text.PrefixedDecimalInjective` and `ChunkerTrace.StartIdsDistinct` hold for the unbounded counter only.
- Chunker.MarkdownStreamChunker.EmitRemains: `emitRemains` is public in the source. Called from outside `write` with no block open, it emits `block-remains` with a null block id. The protocol rule that `block-remains` carries an id holds only for the call inside `write`, which is the only call the model makes.
- Finalizing each block exactly once on the renderer is not stated as a lemma. Each block end reaches `onBlockEnd` once (`StartIdsDistinct`, `NoUpdateAfterEnd`), but a lemma counting the finalize calls per block is not part of the model.
