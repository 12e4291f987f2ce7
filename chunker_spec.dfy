/**
 * The block chunker of lib/chunker.ts as pure functions on its state.
 *
 * `ChunkerState` holds the three fields a chunker updates (buffer, current
 * block id, next block number); every operation maps a state to a new state
 * and the events it emits, in order. The class in module Chunker is proved to
 * behave exactly as these functions say, and the lemmas below say what they mean.
 */
module ChunkerSpec {
  import opened Wrappers
  import opened Text

  const BlankLine: string := "\n\n"

  /** Construction options; unset options take the defaults `"block-"` and `false`. */
  datatype Options = Options(blockIdPrefix: string, withholdIncompleteLinks: bool)

  function MakeOptions(blockIdPrefix: Option<string>, withholdIncompleteLinks: Option<bool>): (o: Options)
    ensures blockIdPrefix.Some? ==> o.blockIdPrefix == blockIdPrefix.value
    ensures blockIdPrefix.None? ==> o.blockIdPrefix == "block-"
    ensures o.withholdIncompleteLinks == (withholdIncompleteLinks == Some(true))
  {
    Options(
      if blockIdPrefix.Some? then blockIdPrefix.value else "block-",
      if withholdIncompleteLinks.Some? then withholdIncompleteLinks.value else false)
  }

  /** The payloads of the five chunker events. */
  datatype ChunkerEvent =
    | BlockStart(blockId: string)
    | BlockUpdate(blockId: string, content: string, isComplete: bool)
    | BlockEnd(blockId: string, isComplete: bool)
    | BlockRemains(remainsOf: Option<string>, content: string)
    | End

  datatype EventName = BlockStartName | BlockUpdateName | BlockEndName | BlockRemainsName | EndName

  function NameOf(e: ChunkerEvent): EventName
  {
    match e
    case BlockStart(_) => BlockStartName
    case BlockUpdate(_, _, _) => BlockUpdateName
    case BlockEnd(_, _) => BlockEndName
    case BlockRemains(_, _) => BlockRemainsName
    case End => EndName
  }

  datatype ChunkerState = ChunkerState(buffer: string, currentBlockId: Option<string>, nextBlockId: nat)

  const Initial: ChunkerState := ChunkerState("", None, 1)

  /** A new state together with the events emitted on the way to it. */
  datatype Step = Step(state: ChunkerState, events: seq<ChunkerEvent>)

  /** `${blockIdPrefix}${n}` */
  function BlockId(o: Options, n: nat): string
  {
    o.blockIdPrefix + Decimal(n)
  }

  /** `hasBalancedFences`: an even number of ``` matches. */
  predicate HasBalancedFences(content: string)
  {
    FenceCount(content) % 2 == 0
  }

  /** A text without a fence is balanced; a text with exactly one fence is not. */
  lemma BalancedFences(content: string)
    ensures IndexOf(content, Fence) == -1 ==> HasBalancedFences(content)
    ensures FenceCount(content) == 1 ==> !HasBalancedFences(content) && IndexOf(content, Fence) >= 0
  {
    FenceCountFinds(content);
  }

  /**
   * Gluing two texts at a joint no fence straddles: the result is balanced
   * exactly when both pieces are, or neither is.
   */
  lemma BalanceConcat(a: string, b: string)
    requires EndsClear(a) || StartsClear(b)
    ensures HasBalancedFences(a + b) <==> (HasBalancedFences(a) <==> HasBalancedFences(b))
  {
    FenceCountConcat(a, b);
  }

  // ---------------------------------------------------------------------------
  // The emit helpers
  // ---------------------------------------------------------------------------

  /** `emitStart`: open a block with the next id unless one is current. */
  function StartStep(o: Options, s: ChunkerState): Step
  {
    if s.currentBlockId.None? then
      var id := BlockId(o, s.nextBlockId);
      Step(s.(currentBlockId := Some(id), nextBlockId := s.nextBlockId + 1), [BlockStart(id)])
    else
      Step(s, [])
  }

  /** `emitUpdate`: `emitStart`, then an update for the current block. */
  function UpdateStep(o: Options, s: ChunkerState, content: string, isComplete: bool): Step
  {
    var st := StartStep(o, s);
    Step(st.state, st.events + [BlockUpdate(st.state.currentBlockId.value, content, isComplete)])
  }

  /** `emitEnd`: nothing without a current block; otherwise end it and clear the id. */
  function EndStep(s: ChunkerState, isComplete: bool): Step
  {
    if s.currentBlockId.None? then Step(s, [])
    else Step(s.(currentBlockId := None), [BlockEnd(s.currentBlockId.value, isComplete)])
  }

  /**
   * `emitStart` leaves a block open and the buffer alone; it starts a block
   * only when none is open, numbered by the counter, which moves past it.
   */
  lemma StartStepOpens(o: Options, s: ChunkerState)
    ensures var r := StartStep(o, s);
      r.state.currentBlockId.Some? && r.state.buffer == s.buffer
      && (s.currentBlockId.Some? ==> r.state == s && r.events == [])
      && r.state.nextBlockId == s.nextBlockId + |r.events|
      && (forall e :: e in r.events ==> e == BlockStart(BlockId(o, s.nextBlockId)) && r.state.currentBlockId == Some(e.blockId))
  {
  }

  /**
   * `emitUpdate` reports the content and flag for the open block, after a
   * start exactly when no block was open.
   */
  lemma UpdateStepReports(o: Options, s: ChunkerState, content: string, isComplete: bool)
    ensures var r := UpdateStep(o, s, content, isComplete);
      r.state.currentBlockId.Some? && r.state.buffer == s.buffer
      && (s.currentBlockId.Some? ==> r.state == s)
      && 1 <= |r.events| <= 2
      && r.events[|r.events| - 1] == BlockUpdate(r.state.currentBlockId.value, content, isComplete)
      && (|r.events| == 2 <==> s.currentBlockId.None?)
  {
  }

  /** `emitEnd` leaves no block open, and ends the one that was open, if any. */
  lemma EndStepCloses(s: ChunkerState, isComplete: bool)
    ensures var r := EndStep(s, isComplete);
      r.state.currentBlockId.None? && r.state.buffer == s.buffer && r.state.nextBlockId == s.nextBlockId
      && r.events == (if s.currentBlockId.Some? then [BlockEnd(s.currentBlockId.value, isComplete)] else [])
  {
  }

  // ---------------------------------------------------------------------------
  // write
  // ---------------------------------------------------------------------------

  /** The text before each blank-line marker, and the text after the last one consumed. */
  datatype Split = Split(parts: seq<string>, rest: string)

  /** Repeated `indexOf("\n\n")` and slicing, as the loop of `write` does it. */
  function SplitBlank(data: string): Split
    decreases |data|
  {
    var idx := IndexOf(data, BlankLine);
    if idx == -1 then Split([], data)
    else
      var tail := SplitBlank(data[idx + 2..]);
      Split([data[..idx]] + tail.parts, tail.rest)
  }

  /** The state of the loop of `write`: chunker fields, the `fencedData` local, events so far. */
  datatype Scan = Scan(state: ChunkerState, fenced: Option<string>, events: seq<ChunkerEvent>)

  /**
   * The content one segment reports: the segment itself, or, inside a fence
   * span, the whole span so far including this segment and its marker.
   */
  function SegmentContent(fenced: Option<string>, part: string): string
  {
    if fenced.Some? then fenced.value + part + BlankLine else part
  }

  /** Complete: balanced outside a span, or unbalanced inside one (closing it). */
  function SegmentComplete(fenced: Option<string>, part: string): bool
  {
    if HasBalancedFences(part) then fenced.None? else fenced.Some?
  }

  /** `fencedData` after a segment: an unbalanced segment opens or closes the span. */
  function NextFenced(fenced: Option<string>, part: string): Option<string>
  {
    if HasBalancedFences(part) then
      (if fenced.Some? then Some(SegmentContent(fenced, part)) else None)
    else if fenced.None? then Some(part + BlankLine)
    else None
  }

  /** One iteration of the loop of `write`, for the segment `part`. */
  function SegmentStep(o: Options, s: ChunkerState, fenced: Option<string>, part: string): Scan
  {
    var isComplete := SegmentComplete(fenced, part);
    var u := UpdateStep(o, s, SegmentContent(fenced, part), isComplete);
    var fenced' := NextFenced(fenced, part);
    var e := if fenced'.None? then EndStep(u.state, isComplete) else Step(u.state, []);
    Scan(e.state, fenced', u.events + e.events)
  }

  /**
   * One segment is reported as an update of its content; a block is open
   * afterwards exactly while a fence span is, and when none is, the block was
   * ended with the update's flag.
   */
  lemma SegmentStepReports(o: Options, s: ChunkerState, fenced: Option<string>, part: string)
    ensures var h := SegmentStep(o, s, fenced, part);
      h.state.buffer == s.buffer && h.state.nextBlockId >= s.nextBlockId && |h.events| >= 1
      && (h.fenced.Some? <==> h.state.currentBlockId.Some?)
      && (h.fenced.Some? ==>
            h.events[|h.events| - 1] == BlockUpdate(h.state.currentBlockId.value, SegmentContent(fenced, part), SegmentComplete(fenced, part)))
      && (h.fenced.None? ==>
            |h.events| >= 2 && h.events[|h.events| - 1].BlockEnd?
            && h.events[|h.events| - 1].isComplete == SegmentComplete(fenced, part)
            && h.events[|h.events| - 2]
               == BlockUpdate(h.events[|h.events| - 1].blockId, SegmentContent(fenced, part), SegmentComplete(fenced, part)))
  {
    UpdateStepReports(o, s, SegmentContent(fenced, part), SegmentComplete(fenced, part));
  }

  /** All iterations of the loop of `write`, one per segment. */
  function ScanParts(o: Options, s: ChunkerState, fenced: Option<string>, parts: seq<string>): Scan
    decreases |parts|
  {
    if parts == [] then Scan(s, fenced, [])
    else
      var h := SegmentStep(o, s, fenced, parts[0]);
      var t := ScanParts(o, h.state, h.fenced, parts[1..]);
      Scan(t.state, t.fenced, h.events + t.events)
  }

  /** One more segment at the end of the loop is one more `SegmentStep`. */
  lemma {:induction false} ScanPartsSnoc(o: Options, s: ChunkerState, f: Option<string>, ps: seq<string>, p: string)
    ensures var r := ScanParts(o, s, f, ps);
      var h := SegmentStep(o, r.state, r.fenced, p);
      ScanParts(o, s, f, ps + [p]) == Scan(h.state, h.fenced, r.events + h.events)
    decreases |ps|
  {
    if ps == [] {
      assert [] + [p] == [p];
      assert [p][1..] == [];
    } else {
      var h0 := SegmentStep(o, s, f, ps[0]);
      assert (ps + [p])[0] == ps[0];
      assert (ps + [p])[1..] == ps[1..] + [p];
      ScanPartsSnoc(o, h0.state, h0.fenced, ps[1..], p);
      var r := ScanParts(o, h0.state, h0.fenced, ps[1..]);
      var h := SegmentStep(o, r.state, r.fenced, p);
      assert h0.events + (r.events + h.events) == (h0.events + r.events) + h.events;
    }
  }

  /** The second half of `write`: keep a non-empty tail in the buffer and report it. */
  function RemainsStep(o: Options, s: ChunkerState, data: string): Step
  {
    if |data| > 0 then
      var content := if o.withholdIncompleteLinks then SafeData(data) else data;
      var u := UpdateStep(o, s.(buffer := data), content, false);
      Step(u.state, u.events + [BlockRemains(u.state.currentBlockId, data)])
    else
      Step(s, [])
  }

  /** What `write(chunk)` does once the loop is over: the open span goes back in front of the rest. */
  function TailStep(o: Options, scan: Scan, rest: string): Step
  {
    var data := if scan.fenced.Some? then scan.fenced.value + rest else rest;
    var r := RemainsStep(o, scan.state, data);
    Step(r.state, scan.events + r.events)
  }

  /** `write(chunk)` */
  function WriteStep(o: Options, s: ChunkerState, chunk: string): Step
  {
    var split := SplitBlank(s.buffer + chunk);
    TailStep(o, ScanParts(o, s.(buffer := ""), None, split.parts), split.rest)
  }

  /** The loop of `write` never moves the block counter back. */
  lemma {:induction false} ScanAdvances(o: Options, s: ChunkerState, f: Option<string>, parts: seq<string>)
    ensures ScanParts(o, s, f, parts).state.nextBlockId >= s.nextBlockId
    decreases |parts|
  {
    if parts != [] {
      var h := SegmentStep(o, s, f, parts[0]);
      SegmentStepReports(o, s, f, parts[0]);
      ScanAdvances(o, h.state, h.fenced, parts[1..]);
    }
  }

  /** `write` never moves the block counter back. */
  lemma WriteAdvances(o: Options, s: ChunkerState, chunk: string)
    ensures WriteStep(o, s, chunk).state.nextBlockId >= s.nextBlockId
  {
    var split := SplitBlank(s.buffer + chunk);
    var scan := ScanParts(o, s.(buffer := ""), None, split.parts);
    ScanAdvances(o, s.(buffer := ""), None, split.parts);
    var data := if scan.fenced.Some? then scan.fenced.value + split.rest else split.rest;
    StartStepOpens(o, scan.state.(buffer := data));
  }

  /**
   * A text with no blank line in it ends no block: the whole text stays in
   * the buffer under an open block and is reported by `block-remains`; an
   * empty text changes nothing.
   */
  lemma WriteWithoutMarker(o: Options, s: ChunkerState, chunk: string)
    requires IndexOf(s.buffer + chunk, BlankLine) == -1
    ensures var r := WriteStep(o, s, chunk);
      (forall e :: e in r.events ==> !e.BlockEnd? && !e.End?)
      && (|s.buffer + chunk| == 0 ==> r == Step(s, []))
      && (|s.buffer + chunk| > 0 ==>
            r.state.buffer == s.buffer + chunk && r.state.currentBlockId.Some? && |r.events| >= 2
            && r.events[|r.events| - 1] == BlockRemains(r.state.currentBlockId, s.buffer + chunk))
  {
    var data := s.buffer + chunk;
    assert SplitBlank(data) == Split([], data);
    if |data| > 0 {
      var u := UpdateStep(o, s.(buffer := data), if o.withholdIncompleteLinks then SafeData(data) else data, false);
      UpdateStepReports(o, s.(buffer := data), if o.withholdIncompleteLinks then SafeData(data) else data, false);
      StartStepOpens(o, s.(buffer := data));
      assert WriteStep(o, s, chunk).events == u.events + [BlockRemains(u.state.currentBlockId, data)];
    } else {
      assert s.(buffer := "") == s;
    }
  }

  /**
   * `getSafeData`: the text to show for a pending tail, cut before the last
   * `[` when it starts a link or image whose text or destination is unfinished.
   */
  function SafeData(data: string): (r: string)
    ensures r <= data
    ensures LastIndexOf(data, '[') == -1 ==> r == data
    ensures r == data || r == data[..LastIndexOf(data, '[')]
  {
    var openingBracket := LastIndexOf(data, '[');
    if openingBracket >= 0 then
      var closingBracket := LastIndexOf(data, ']');
      if closingBracket < 0 || closingBracket < openingBracket || closingBracket == |data| - 1 then
        data[..openingBracket]
      else
        var openingParenthesis := LastIndexOf(data, '(');
        if openingParenthesis >= 0 && openingParenthesis - 1 == closingBracket
           && LastIndexOf(data, ')') < openingParenthesis
        then data[..openingBracket]
        else data
    else data
  }

  // ---------------------------------------------------------------------------
  // end
  // ---------------------------------------------------------------------------

  /** The first half of `end()`: a non-empty buffer becomes the block's last update and its end. */
  function FlushStep(o: Options, s: ChunkerState): Step
  {
    if |s.buffer| > 0 then
      var isComplete := HasBalancedFences(s.buffer);
      var u := UpdateStep(o, s, s.buffer, isComplete);
      var e := EndStep(u.state.(buffer := ""), isComplete);
      Step(e.state, u.events + e.events)
    else
      Step(s, [])
  }

  /**
   * The flush empties the buffer. A non-empty buffer becomes the last update
   * of its block and its end, both flagged with the buffer's fence balance,
   * and no block is left open; an empty buffer changes nothing.
   */
  lemma FlushStepCloses(o: Options, s: ChunkerState)
    ensures var r := FlushStep(o, s);
      r.state.buffer == "" && r.state.nextBlockId >= s.nextBlockId
      && (|s.buffer| == 0 ==> r == Step(s, []))
      && (|s.buffer| > 0 ==>
            r.state.currentBlockId.None? && |r.events| >= 2
            && r.events[|r.events| - 1].BlockEnd?
            && r.events[|r.events| - 1].isComplete == HasBalancedFences(s.buffer)
            && r.events[|r.events| - 2] == BlockUpdate(r.events[|r.events| - 1].blockId, s.buffer, HasBalancedFences(s.buffer)))
  {
    if |s.buffer| > 0 {
      var c := HasBalancedFences(s.buffer);
      UpdateStepReports(o, s, s.buffer, c);
      var u := UpdateStep(o, s, s.buffer, c);
      StartStepOpens(o, s);
      EndStepCloses(u.state.(buffer := ""), c);
    }
  }

  /** `end()`: flush the pending block, then the stream end. */
  function EndStreamStep(o: Options, s: ChunkerState): Step
  {
    var f := FlushStep(o, s);
    Step(f.state, f.events + [End])
  }

  // ---------------------------------------------------------------------------
  // Cutting at blank lines
  // ---------------------------------------------------------------------------

  /** A text with no blank-line marker in it. */
  predicate NoBlankLine(s: string)
  {
    IndexOf(s, BlankLine) == -1
  }

  /** A segment as the loop cuts it: no marker inside, and no newline at its end. */
  predicate CleanPart(p: string)
  {
    NoBlankLine(p) && (p == [] || p[|p| - 1] != '\n')
  }

  /** The text the segments came from: each followed by its marker. */
  function JoinParts(parts: seq<string>): string
  {
    if parts == [] then "" else parts[0] + BlankLine + JoinParts(parts[1..])
  }

  /**
   * The loop of `write` consumes the buffered text as segments, each followed
   * by a marker, and keeps a rest with no marker in it.
   */
  lemma {:induction false} SplitBlankJoins(data: string)
    ensures data == JoinParts(SplitBlank(data).parts) + SplitBlank(data).rest
    decreases |data|
  {
    var idx := IndexOf(data, BlankLine);
    if idx != -1 {
      var part := data[..idx];
      var tail := data[idx + 2..];
      SplitBlankJoins(tail);
      var sp := SplitBlank(tail);
      assert SplitBlank(data) == Split([part] + sp.parts, sp.rest);
      assert data[idx..idx + 2] == BlankLine;
      SliceAround(data, idx, idx + 2);
      JoinPartsCons(part, sp.parts);
      ConcatAssoc(part + BlankLine, JoinParts(sp.parts), sp.rest);
    } else {
      assert JoinParts([]) + data == data;
    }
  }

  /** The segments are clean and the kept rest holds no marker. */
  lemma {:induction false} SplitBlankClean(data: string)
    ensures NoBlankLine(SplitBlank(data).rest)
    ensures forall i :: 0 <= i < |SplitBlank(data).parts| ==> CleanPart(SplitBlank(data).parts[i])
    decreases |data|
  {
    var idx := IndexOf(data, BlankLine);
    if idx != -1 {
      var part := data[..idx];
      var tail := data[idx + 2..];
      FirstPartClean(data, idx);
      SplitBlankClean(tail);
      var sp := SplitBlank(tail);
      var parts := [part] + sp.parts;
      assert SplitBlank(data) == Split(parts, sp.rest);
      forall i | 0 <= i < |parts| ensures CleanPart(parts[i]) {
        if i > 0 {
          assert parts[i] == sp.parts[i - 1];
        }
      }
    }
  }

  lemma SliceAround(s: string, i: nat, j: nat)
    requires i <= j <= |s|
    ensures s == s[..i] + s[i..j] + s[j..]
  {
  }

  lemma ConcatAssoc(a: string, b: string, c: string)
    ensures (a + b) + c == a + (b + c)
  {
  }

  lemma JoinPartsCons(p: string, ps: seq<string>)
    ensures JoinParts([p] + ps) == p + BlankLine + JoinParts(ps)
  {
    assert ([p] + ps)[1..] == ps;
  }

  /** The text before the first marker is a clean segment. */
  lemma FirstPartClean(data: string, idx: int)
    requires idx == IndexOf(data, BlankLine) && idx != -1
    ensures CleanPart(data[..idx])
  {
    FirstPartNoMarker(data, idx);
    if idx > 0 {
      FirstPartOpenEnd(data, idx);
    }
  }

  /** The text before the first marker holds no marker. */
  lemma FirstPartNoMarker(data: string, idx: int)
    requires idx == IndexOf(data, BlankLine) && idx != -1
    ensures NoBlankLine(data[..idx])
  {
    var part := data[..idx];
    forall j | 0 <= j && j + 2 <= |part| ensures !OccursAt(part, BlankLine, j) {
      assert part[j..j + 2] == data[j..j + 2];
      assert !OccursAt(data, BlankLine, j);
    }
  }

  /** The text before the first marker does not end in a newline, or the marker would start earlier. */
  lemma FirstPartOpenEnd(data: string, idx: int)
    requires idx == IndexOf(data, BlankLine) && idx > 0
    ensures data[idx - 1] != '\n'
  {
    assert data[idx..idx + 2][0] == data[idx] == '\n';
    assert data[idx - 1..idx + 1] == [data[idx - 1], data[idx]];
    assert !OccursAt(data, BlankLine, idx - 1);
  }

  /** One cut of the loop of `write`: the segment before the marker is the next part still to come. */
  lemma CutAdvance(data: string, idx: int, done: seq<string>, todo: seq<string>, rest: string)
    requires SplitBlank(data) == Split(todo, rest)
    requires idx == IndexOf(data, BlankLine) && idx != -1
    ensures todo != [] && todo[0] == data[..idx]
    ensures SplitBlank(data[idx + 2..]) == Split(todo[1..], rest)
    ensures (done + [todo[0]]) + todo[1..] == done + todo
  {
    SplitBlankStep(data, idx);
    assert todo == [todo[0]] + todo[1..];
  }

  /** One step of cutting: the segment before the first marker, then the cuts of what follows it. */
  lemma SplitBlankStep(data: string, idx: int)
    requires idx == IndexOf(data, BlankLine) && idx != -1
    ensures SplitBlank(data).parts == [data[..idx]] + SplitBlank(data[idx + 2..]).parts
    ensures SplitBlank(data).rest == SplitBlank(data[idx + 2..]).rest
  {
  }

  /** After a clean segment and its marker, the next marker is that one. */
  lemma IndexAfterCleanPart(p: string, x: string)
    requires CleanPart(p)
    ensures IndexOf(p + BlankLine + x, BlankLine) == |p|
  {
    var d := p + BlankLine + x;
    assert OccursAt(d, BlankLine, |p|) by {
      assert d[|p|..|p| + 2] == BlankLine;
    }
    forall j | 0 <= j < |p| ensures !OccursAt(d, BlankLine, j) {
      if j + 2 <= |p| {
        assert d[j..j + 2] == p[j..j + 2];
        assert !OccursAt(p, BlankLine, j);
      } else {
        assert j == |p| - 1 && d[j..j + 2][0] == p[j];
      }
    }
  }

  /** Cutting undoes joining: the segments and the rest come back unchanged. */
  lemma {:induction false} SplitJoinRoundTrip(parts: seq<string>, rest: string)
    requires forall i :: 0 <= i < |parts| ==> CleanPart(parts[i])
    requires NoBlankLine(rest)
    ensures SplitBlank(JoinParts(parts) + rest) == Split(parts, rest)
    decreases |parts|
  {
    if parts == [] {
      assert JoinParts(parts) + rest == rest;
    } else {
      var p := parts[0];
      var x := JoinParts(parts[1..]) + rest;
      assert JoinParts(parts) + rest == p + BlankLine + x;
      IndexAfterCleanPart(p, x);
      assert (p + BlankLine + x)[..|p|] == p;
      assert (p + BlankLine + x)[|p| + 2..] == x;
      SplitJoinRoundTrip(parts[1..], rest);
      assert [p] + parts[1..] == parts;
    }
  }

  // ---------------------------------------------------------------------------
  // Withholding unfinished links
  // ---------------------------------------------------------------------------

  /**
   * A link whose text is still open is cut before its bracket: no `]` follows
   * the last `[` (the text before it may hold any brackets).
   */
  lemma SafeDataWithholdsText(a: string, b: string)
    requires '[' !in b && ']' !in b
    ensures SafeData(a + "[" + b) == a
  {
    var d := a + "[" + b;
    assert d[|a|] == '[';
    assert forall j :: |a| < j < |d| ==> d[j] == b[j - |a| - 1];
    assert LastIndexOf(d, '[') == |a|;
    assert d[..|a|] == a;
  }

  /**
   * A text ending in `]` after its last `[` is cut before that `[`, whatever
   * else lies between: the destination has not started.
   */
  lemma SafeDataWithholdsBareBrackets(a: string, b: string)
    requires '[' !in b
    ensures SafeData(a + "[" + b + "]") == a
  {
    var d := a + "[" + b + "]";
    assert d[|a|] == '[';
    assert forall j :: |a| < j < |d| - 1 ==> d[j] == b[j - |a| - 1];
    assert LastIndexOf(d, '[') == |a|;
    assert LastIndexOf(d, ']') == |d| - 1;
    assert d[..|a|] == a;
  }

  /** A link whose destination is still open is cut before its bracket. */
  lemma SafeDataWithholdsDestination(a: string, b: string, c: string)
    requires '[' !in b
    requires '[' !in c && ']' !in c && '(' !in c && ')' !in c
    ensures SafeData(a + "[" + b + "](" + c) == a
  {
    var d := a + "[" + b + "](" + c;
    var cb := |a| + 1 + |b|;
    assert d[|a|] == '[' && d[cb] == ']' && d[cb + 1] == '(';
    assert forall j :: |a| < j < cb ==> d[j] == b[j - |a| - 1];
    assert forall j :: cb + 1 < j < |d| ==> d[j] == c[j - cb - 2];
    assert LastIndexOf(d, '[') == |a|;
    assert LastIndexOf(d, ']') == cb;
    assert LastIndexOf(d, '(') == cb + 1;
    assert d[..|a|] == a;
  }

  /** Once the destination is closed, the whole text is shown. */
  lemma SafeDataShowsFinishedLink(a: string, b: string, c: string)
    requires '[' !in b
    requires '[' !in c && ']' !in c && '(' !in c && ')' !in c
    ensures SafeData(a + "[" + b + "](" + c + ")") == a + "[" + b + "](" + c + ")"
  {
    var d := a + "[" + b + "](" + c + ")";
    var cb := |a| + 1 + |b|;
    assert d[|a|] == '[' && d[cb] == ']' && d[cb + 1] == '(' && d[|d| - 1] == ')';
    assert forall j :: |a| < j < cb ==> d[j] == b[j - |a| - 1];
    assert forall j :: cb + 1 < j < |d| - 1 ==> d[j] == c[j - cb - 2];
    assert LastIndexOf(d, '[') == |a|;
    assert LastIndexOf(d, ']') == cb;
    assert LastIndexOf(d, '(') == cb + 1;
    assert LastIndexOf(d, ')') == |d| - 1;
  }

  /**
   * A closed bracket followed by more text is shown whole unless that text
   * is exactly an open destination: a `(` right after the `]` with no later
   * `(` or `)`. With the three `SafeDataWithholds` lemmas, this settles
   * every position of the last `[`.
   */
  lemma SafeDataShowsAfterClosedBracket(a: string, b: string, x: string)
    requires '[' !in b
    requires '[' !in x && ']' !in x && x != ""
    requires x[0] != '(' || '(' in x[1..] || ')' in x[1..]
    ensures SafeData(a + "[" + b + "]" + x) == a + "[" + b + "]" + x
  {
    var d := a + "[" + b + "]" + x;
    var cb := |a| + 1 + |b|;
    assert d[|a|] == '[' && d[cb] == ']';
    assert forall j :: |a| < j < cb ==> d[j] == b[j - |a| - 1];
    assert forall j :: cb < j < |d| ==> d[j] == x[j - cb - 1];
    assert LastIndexOf(d, '[') == |a|;
    assert LastIndexOf(d, ']') == cb;
    var op := LastIndexOf(d, '(');
    if op == cb + 1 {
      // no later `(`, so the hypothesis leaves a later `)`
      assert forall k :: 1 <= k < |x| ==> x[k] == d[cb + 1 + k] != '(';
      assert x[0] == '(' && '(' !in x[1..];
      var k :| 1 <= k < |x| && x[k] == ')';
      assert d[cb + 1 + k] == ')';
      assert LastIndexOf(d, ')') >= cb + 1 + k;
    }
  }
}
