/**
 * The event protocol of the chunker and the invariant its state keeps.
 *
 * A trace is the sequence of every event a chunker has emitted. `TraceOk`
 * says, event by event, what may be appended to a trace: a block starts only
 * when none is open and gets the next numbered id; updates, remains and ends
 * concern the open block; an end directly follows an update of the same block
 * carrying the same flag, and that flag says whether the update's content has
 * balanced fences; the stream end comes with no block open.
 */
module ChunkerTrace {
  import opened Wrappers
  import opened Text
  import opened ChunkerSpec

  /** The block open after `t`: the id of the last start not followed by an end. */
  function Open(t: seq<ChunkerEvent>): Option<string>
  {
    if t == [] then None
    else
      match t[|t| - 1]
      case BlockStart(id) => Some(id)
      case BlockEnd(_, _) => None
      case _ => Open(t[..|t| - 1])
  }

  /** The number of blocks started in `t`. */
  function StartCount(t: seq<ChunkerEvent>): nat
  {
    if t == [] then 0
    else StartCount(t[..|t| - 1]) + (if t[|t| - 1].BlockStart? then 1 else 0)
  }

  /** The last event of `t` is an update of block `id` flagged `c`, and `c` is its fence balance. */
  predicate LastIsUpdate(t: seq<ChunkerEvent>, id: string, c: bool)
  {
    |t| > 0 && t[|t| - 1].BlockUpdate? && t[|t| - 1].blockId == id
    && t[|t| - 1].isComplete == c && c == HasBalancedFences(t[|t| - 1].content)
  }

  /** `e` may follow `t`. */
  predicate EventOk(o: Options, t: seq<ChunkerEvent>, e: ChunkerEvent)
  {
    match e
    case BlockStart(id) => Open(t).None? && id == BlockId(o, StartCount(t) + 1)
    case BlockUpdate(id, _, _) => Open(t) == Some(id)
    case BlockEnd(id, c) => Open(t) == Some(id) && LastIsUpdate(t, id, c)
    case BlockRemains(r, _) => r.Some? && Open(t) == r
    case End => Open(t).None?
  }

  predicate TraceOk(o: Options, t: seq<ChunkerEvent>)
  {
    t == [] || (TraceOk(o, t[..|t| - 1]) && EventOk(o, t[..|t| - 1], t[|t| - 1]))
  }

  /** The block fields of `s` are those `t` leads to. */
  predicate Tracks(o: Options, s: ChunkerState, t: seq<ChunkerEvent>)
  {
    TraceOk(o, t) && s.currentBlockId == Open(t) && s.nextBlockId == StartCount(t) + 1
  }

  /** The invariant between public calls: also, the buffer is empty iff no block is open. */
  predicate ChunkerInv(o: Options, s: ChunkerState, t: seq<ChunkerEvent>)
  {
    Tracks(o, s, t) && (s.buffer == "" <==> s.currentBlockId.None?)
  }

  /** An open fence span: text ending in a newline, with an odd number of fences. */
  predicate FencedOk(f: Option<string>)
  {
    f.Some? ==> |f.value| > 0 && f.value[|f.value| - 1] == '\n' && FenceCount(f.value) % 2 == 1
  }

  // ---------------------------------------------------------------------------
  // Appending events
  // ---------------------------------------------------------------------------

  lemma Snoc(o: Options, t: seq<ChunkerEvent>, e: ChunkerEvent)
    ensures (t + [e])[..|t|] == t
    ensures TraceOk(o, t + [e]) <==> TraceOk(o, t) && EventOk(o, t, e)
    ensures StartCount(t + [e]) == StartCount(t) + (if e.BlockStart? then 1 else 0)
    ensures Open(t + [e]) == (match e
                              case BlockStart(id) => Some(id)
                              case BlockEnd(_, _) => None
                              case _ => Open(t))
  {
    assert (t + [e])[..|t|] == t;
  }

  lemma TracksStart(o: Options, s: ChunkerState, t: seq<ChunkerEvent>)
    requires Tracks(o, s, t)
    ensures Tracks(o, StartStep(o, s).state, t + StartStep(o, s).events)
    ensures StartStep(o, s).state.currentBlockId.Some?
    ensures StartStep(o, s).state.buffer == s.buffer
  {
    if s.currentBlockId.None? {
      Snoc(o, t, BlockStart(BlockId(o, s.nextBlockId)));
    } else {
      assert t + [] == t;
    }
  }

  lemma TracksUpdate(o: Options, s: ChunkerState, t: seq<ChunkerEvent>, content: string, c: bool)
    requires Tracks(o, s, t)
    ensures var u := UpdateStep(o, s, content, c);
      Tracks(o, u.state, t + u.events) && u.state.currentBlockId.Some? && u.state.buffer == s.buffer
      && (t + u.events)[|t + u.events| - 1] == BlockUpdate(u.state.currentBlockId.value, content, c)
  {
    var st := StartStep(o, s);
    TracksStart(o, s, t);
    var e := BlockUpdate(st.state.currentBlockId.value, content, c);
    Snoc(o, t + st.events, e);
    assert t + st.events + [e] == t + (st.events + [e]);
  }

  lemma TracksEnd(o: Options, s: ChunkerState, t: seq<ChunkerEvent>, c: bool)
    requires Tracks(o, s, t)
    requires s.currentBlockId.Some? ==> LastIsUpdate(t, s.currentBlockId.value, c)
    ensures Tracks(o, EndStep(s, c).state, t + EndStep(s, c).events)
    ensures EndStep(s, c).state.currentBlockId.None?
    ensures EndStep(s, c).state.buffer == s.buffer
  {
    if s.currentBlockId.Some? {
      Snoc(o, t, BlockEnd(s.currentBlockId.value, c));
    } else {
      assert t + [] == t;
    }
  }

  // ---------------------------------------------------------------------------
  // write keeps the invariant
  // ---------------------------------------------------------------------------

  /**
   * The fence bookkeeping of one segment: an open span stays a text with an
   * odd fence count, and when the segment ends the block, the flag it reports
   * is the fence balance of the content it reports.
   */
  lemma SegmentFences(f: Option<string>, part: string)
    requires FencedOk(f)
    ensures FencedOk(NextFenced(f, part))
    ensures NextFenced(f, part).None? ==> SegmentComplete(f, part) && HasBalancedFences(SegmentContent(f, part))
  {
    var p := FenceCount(part);
    if f.None? {
      if p % 2 == 1 {
        var seed := part + BlankLine;
        FenceCountConcat(part, BlankLine);
        assert seed[|seed| - 1] == '\n';
        assert NextFenced(f, part) == Some(seed);
      }
    } else {
      var x := f.value + part;
      var y := x + BlankLine;
      FenceCountConcat(f.value, part);
      FenceCountConcat(x, BlankLine);
      assert FenceCount(y) == FenceCount(f.value) + p;
      assert y == SegmentContent(f, part);
      if p % 2 == 0 {
        assert y[|y| - 1] == '\n';
        assert NextFenced(f, part) == Some(y);
      } else {
        assert FenceCount(y) % 2 == 0;
        assert NextFenced(f, part) == None;
      }
    }
  }

  /** One segment keeps the protocol. */
  lemma SegmentKeeps(o: Options, s: ChunkerState, f: Option<string>, part: string, t: seq<ChunkerEvent>)
    requires Tracks(o, s, t) && FencedOk(f)
    ensures Tracks(o, SegmentStep(o, s, f, part).state, t + SegmentStep(o, s, f, part).events)
  {
    var h := SegmentStep(o, s, f, part);
    SegmentFences(f, part);
    var c := SegmentComplete(f, part);
    var content := SegmentContent(f, part);
    var u := UpdateStep(o, s, content, c);
    TracksUpdate(o, s, t, content, c);
    if h.fenced.None? {
      TracksEnd(o, u.state, t + u.events, c);
      assert t + u.events + EndStep(u.state, c).events == t + h.events;
    } else {
      assert h.events == u.events;
    }
  }

  /** The loop of `write` keeps the protocol. */
  lemma {:induction false} ScanKeeps(o: Options, s: ChunkerState, f: Option<string>, parts: seq<string>, t: seq<ChunkerEvent>)
    requires Tracks(o, s, t) && FencedOk(f)
    ensures Tracks(o, ScanParts(o, s, f, parts).state, t + ScanParts(o, s, f, parts).events)
    decreases |parts|
  {
    if parts != [] {
      var h := SegmentStep(o, s, f, parts[0]);
      SegmentKeeps(o, s, f, parts[0], t);
      SegmentFences(f, parts[0]);
      var t1 := t + h.events;
      ScanKeeps(o, h.state, h.fenced, parts[1..], t1);
      var r := ScanParts(o, h.state, h.fenced, parts[1..]);
      assert ScanParts(o, s, f, parts) == Scan(r.state, r.fenced, h.events + r.events);
      assert t1 + r.events == t + (h.events + r.events);
    } else {
      assert t + [] == t;
    }
  }

  /**
   * After the loop of `write` an open span is a text with an odd fence count,
   * a block is open exactly while a span is (once a segment was cut), and the
   * buffer field is untouched.
   */
  lemma {:induction false} ScanShape(o: Options, s: ChunkerState, f: Option<string>, parts: seq<string>)
    requires FencedOk(f)
    ensures var r := ScanParts(o, s, f, parts);
      FencedOk(r.fenced) && r.state.buffer == s.buffer
      && (parts != [] ==> (r.fenced.Some? <==> r.state.currentBlockId.Some?))
      && (parts == [] ==> r == Scan(s, f, []))
    decreases |parts|
  {
    if parts != [] {
      var h := SegmentStep(o, s, f, parts[0]);
      SegmentFences(f, parts[0]);
      SegmentStepReports(o, s, f, parts[0]);
      ScanShape(o, h.state, h.fenced, parts[1..]);
    }
  }

  /** Every block end emitted by the loop of `write` is flagged complete. */
  lemma {:induction false} ScanEndsComplete(o: Options, s: ChunkerState, f: Option<string>, parts: seq<string>)
    requires FencedOk(f)
    ensures forall e :: e in ScanParts(o, s, f, parts).events && e.BlockEnd? ==> e.isComplete
    decreases |parts|
  {
    if parts != [] {
      var h := SegmentStep(o, s, f, parts[0]);
      SegmentFences(f, parts[0]);
      ScanEndsComplete(o, h.state, h.fenced, parts[1..]);
    }
  }

  lemma SplitEmpty(data: string)
    ensures SplitBlank(data).parts == [] ==> SplitBlank(data).rest == data
  {
  }

  /** Keeping a non-empty tail opens a block if none is, and reports the tail. */
  lemma RemainsKeeps(o: Options, s: ChunkerState, data: string, t: seq<ChunkerEvent>)
    requires Tracks(o, s, t)
    ensures var r := RemainsStep(o, s, data);
      Tracks(o, r.state, t + r.events)
      && (|data| > 0 ==> r.state.buffer == data && r.state.currentBlockId.Some?)
      && (|data| == 0 ==> r.state == s)
  {
    if |data| > 0 {
      var content := if o.withholdIncompleteLinks then SafeData(data) else data;
      var u := UpdateStep(o, s.(buffer := data), content, false);
      TracksUpdate(o, s.(buffer := data), t, content, false);
      var rem := BlockRemains(u.state.currentBlockId, data);
      Snoc(o, t + u.events, rem);
      assert t + u.events + [rem] == t + (u.events + [rem]);
    } else {
      assert t + [] == t;
    }
  }

  /** The tail of `write`, after a loop that kept the protocol. */
  lemma TailKeeps(o: Options, scan: Scan, rest: string, t: seq<ChunkerEvent>)
    requires Tracks(o, scan.state, t + scan.events) && scan.state.buffer == ""
    ensures var w := TailStep(o, scan, rest);
      Tracks(o, w.state, t + w.events)
      && (|w.state.buffer| > 0 ==> w.state.currentBlockId.Some?)
      && (w.state.buffer == "" ==> w.state == scan.state)
  {
    var data := if scan.fenced.Some? then scan.fenced.value + rest else rest;
    var r := RemainsStep(o, scan.state, data);
    RemainsKeeps(o, scan.state, data, t + scan.events);
    assert t + scan.events + r.events == t + (scan.events + r.events);
  }

  /** No stream end among `evs`. */
  predicate Quiet(evs: seq<ChunkerEvent>)
  {
    forall i :: 0 <= i < |evs| ==> !evs[i].End?
  }

  lemma QuietConcat(a: seq<ChunkerEvent>, b: seq<ChunkerEvent>)
    requires Quiet(a) && Quiet(b)
    ensures Quiet(a + b)
  {
    forall i | 0 <= i < |a + b| ensures !(a + b)[i].End? {
      if i >= |a| {
        assert (a + b)[i] == b[i - |a|];
      }
    }
  }

  /** The block events of one segment are no stream end. */
  lemma SegmentQuiet(o: Options, s: ChunkerState, f: Option<string>, part: string)
    ensures Quiet(SegmentStep(o, s, f, part).events)
  {
    var isComplete := SegmentComplete(f, part);
    var u := UpdateStep(o, s, SegmentContent(f, part), isComplete);
    var f' := NextFenced(f, part);
    var e := if f'.None? then EndStep(u.state, isComplete) else Step(u.state, []);
    QuietConcat(StartStep(o, s).events, [u.events[|u.events| - 1]]);
    assert u.events == StartStep(o, s).events + [u.events[|u.events| - 1]];
    QuietConcat(u.events, e.events);
  }

  lemma {:induction false} ScanQuiet(o: Options, s: ChunkerState, f: Option<string>, parts: seq<string>)
    ensures Quiet(ScanParts(o, s, f, parts).events)
    decreases |parts|
  {
    if parts != [] {
      var h := SegmentStep(o, s, f, parts[0]);
      SegmentQuiet(o, s, f, parts[0]);
      ScanQuiet(o, h.state, h.fenced, parts[1..]);
      QuietConcat(h.events, ScanParts(o, h.state, h.fenced, parts[1..]).events);
    }
  }

  /** `write` never emits the stream end. */
  lemma WriteQuiet(o: Options, s: ChunkerState, chunk: string)
    ensures Quiet(WriteStep(o, s, chunk).events)
  {
    var split := SplitBlank(s.buffer + chunk);
    var scan := ScanParts(o, s.(buffer := ""), None, split.parts);
    ScanQuiet(o, s.(buffer := ""), None, split.parts);
    var data := if scan.fenced.Some? then scan.fenced.value + split.rest else split.rest;
    var r := RemainsStep(o, scan.state, data);
    if |data| > 0 {
      var content := if o.withholdIncompleteLinks then SafeData(data) else data;
      var u := UpdateStep(o, scan.state.(buffer := data), content, false);
      QuietConcat(StartStep(o, scan.state.(buffer := data)).events, [u.events[|u.events| - 1]]);
      assert u.events == StartStep(o, scan.state.(buffer := data)).events + [u.events[|u.events| - 1]];
      QuietConcat(u.events, [BlockRemains(u.state.currentBlockId, data)]);
    }
    QuietConcat(scan.events, r.events);
  }

  /** The flush that `end` starts with emits no stream end either. */
  lemma FlushQuiet(o: Options, s: ChunkerState)
    ensures Quiet(FlushStep(o, s).events)
  {
    if |s.buffer| > 0 {
      var c := HasBalancedFences(s.buffer);
      var u := UpdateStep(o, s, s.buffer, c);
      var e := EndStep(u.state.(buffer := ""), c);
      QuietConcat(StartStep(o, s).events, [u.events[|u.events| - 1]]);
      assert u.events == StartStep(o, s).events + [u.events[|u.events| - 1]];
      QuietConcat(u.events, e.events);
    }
  }

  /** `write` keeps the protocol and the buffer/open-block correspondence. */
  lemma WriteKeeps(o: Options, s: ChunkerState, t: seq<ChunkerEvent>, chunk: string)
    requires ChunkerInv(o, s, t)
    ensures ChunkerInv(o, WriteStep(o, s, chunk).state, t + WriteStep(o, s, chunk).events)
  {
    var split := SplitBlank(s.buffer + chunk);
    var s0 := s.(buffer := "");
    var scan := ScanParts(o, s0, None, split.parts);
    ScanKeeps(o, s0, None, split.parts, t);
    ScanShape(o, s0, None, split.parts);
    SplitEmpty(s.buffer + chunk);
    TailKeeps(o, scan, split.rest, t);
  }

  /** `end` keeps the protocol and leaves no block open and the buffer empty. */
  lemma EndStreamKeeps(o: Options, s: ChunkerState, t: seq<ChunkerEvent>)
    requires ChunkerInv(o, s, t)
    ensures ChunkerInv(o, EndStreamStep(o, s).state, t + EndStreamStep(o, s).events)
    ensures EndStreamStep(o, s).state.buffer == "" && EndStreamStep(o, s).state.currentBlockId.None?
  {
    if |s.buffer| > 0 {
      var c := HasBalancedFences(s.buffer);
      var u := UpdateStep(o, s, s.buffer, c);
      TracksUpdate(o, s, t, s.buffer, c);
      var e := EndStep(u.state.(buffer := ""), c);
      TracksEnd(o, u.state.(buffer := ""), t + u.events, c);
      Snoc(o, t + u.events + e.events, End);
      assert t + u.events + e.events + [End] == t + (u.events + e.events + [End]);
    } else {
      Snoc(o, t, End);
    }
  }

  /**
   * What `write` leaves in the buffer: the text after the last marker, with
   * the open fence span, if any, in front of it. So when no span is open the
   * buffer is the suffix of the old buffer and the chunk after their last
   * marker, holds no marker, and the segments consumed before it are the
   * texts between markers.
   */
  lemma WriteLeavesRest(o: Options, s: ChunkerState, chunk: string)
    ensures var split := SplitBlank(s.buffer + chunk);
      var scan := ScanParts(o, s.(buffer := ""), None, split.parts);
      var w := WriteStep(o, s, chunk);
      && w.state.buffer == (if scan.fenced.Some? then scan.fenced.value + split.rest else split.rest)
      && (scan.fenced.None? ==>
            NoBlankLine(w.state.buffer) && s.buffer + chunk == JoinParts(split.parts) + w.state.buffer)
  {
    var split := SplitBlank(s.buffer + chunk);
    ScanShape(o, s.(buffer := ""), None, split.parts);
    SplitBlankJoins(s.buffer + chunk);
    SplitBlankClean(s.buffer + chunk);
  }

  /**
   * The tail of `write`: for a non-empty tail, the buffer keeps all of it,
   * the last two events are an update flagged incomplete (of the withheld
   * copy when links are withheld) and a `block-remains` with the whole
   * tail; an empty tail changes nothing.
   */
  lemma RemainsReports(o: Options, s: ChunkerState, data: string)
    ensures var r := RemainsStep(o, s, data);
      && (|data| == 0 ==> r == Step(s, []))
      && (|data| > 0 ==>
            && r.state.buffer == data && r.state.currentBlockId.Some? && |r.events| >= 2
            && r.events[|r.events| - 2]
               == BlockUpdate(r.state.currentBlockId.value, if o.withholdIncompleteLinks then SafeData(data) else data, false)
            && r.events[|r.events| - 1] == BlockRemains(r.state.currentBlockId, data))
  {
  }

  /**
   * `end`: with an empty buffer only the stream end; otherwise one update
   * with the whole buffer and one block end, both flagged with its fence
   * balance, then the stream end; the buffer is left empty.
   */
  lemma EndStreamEvents(o: Options, s: ChunkerState, t: seq<ChunkerEvent>)
    requires ChunkerInv(o, s, t)
    ensures var r := EndStreamStep(o, s);
      var c := HasBalancedFences(s.buffer);
      && r.state.buffer == "" && r.state.currentBlockId.None?
      && (s.buffer == "" ==> r.events == [End])
      && (s.buffer != "" ==> r.events == [BlockUpdate(s.currentBlockId.value, s.buffer, c),
                                          BlockEnd(s.currentBlockId.value, c), End])
  {
  }

  // ---------------------------------------------------------------------------
  // What every chunker trace satisfies
  // ---------------------------------------------------------------------------

  /** Every prefix of a good trace is good, and the next event was allowed after it. */
  lemma {:induction false} TraceOkPrefix(o: Options, t: seq<ChunkerEvent>, k: nat)
    requires TraceOk(o, t) && k <= |t|
    ensures TraceOk(o, t[..k])
    ensures k < |t| ==> EventOk(o, t[..k], t[k])
    decreases |t|
  {
    if k < |t| {
      var init := t[..|t| - 1];
      if k < |t| - 1 {
        TraceOkPrefix(o, init, k);
        assert init[..k] == t[..k];
      } else {
        assert init == t[..k];
      }
    } else {
      assert t[..k] == t;
    }
  }

  /** The open block was started by a start event that no end followed. */
  lemma {:induction false} OpenHasStart(t: seq<ChunkerEvent>)
    requires Open(t).Some?
    ensures exists i :: 0 <= i < |t| && t[i] == BlockStart(Open(t).value)
                        && forall k :: i < k < |t| ==> !t[k].BlockEnd?
  {
    var init := t[..|t| - 1];
    var e := t[|t| - 1];
    if !e.BlockStart? {
      OpenHasStart(init);
      var i :| 0 <= i < |init| && init[i] == BlockStart(Open(init).value)
                && forall k :: i < k < |init| ==> !init[k].BlockEnd?;
      assert t[i] == init[i];
      assert forall k :: i < k < |t| ==> !t[k].BlockEnd? by {
        forall k | i < k < |t| ensures !t[k].BlockEnd? {
          if k < |init| { assert t[k] == init[k]; }
        }
      }
    }
  }

  /** Starts never decrease along a trace. */
  lemma {:induction false} StartCountMonotone(t: seq<ChunkerEvent>, i: nat, j: nat)
    requires i <= j <= |t|
    ensures StartCount(t[..i]) <= StartCount(t[..j])
    ensures i < j && t[i].BlockStart? ==> StartCount(t[..i]) < StartCount(t[..j])
    decreases j - i
  {
    if i < j {
      StartCountMonotone(t, i + 1, j);
      assert t[..i + 1][..i] == t[..i];
    }
  }

  /** The `n`-th block started in a trace gets id `prefix + n`. */
  lemma StartNumbered(o: Options, t: seq<ChunkerEvent>, i: nat)
    requires TraceOk(o, t) && i < |t| && t[i].BlockStart?
    ensures t[i].blockId == BlockId(o, StartCount(t[..i]) + 1)
  {
    TraceOkPrefix(o, t, i);
  }

  /** Block ids are never reused: two starts in a trace carry different ids. */
  lemma StartIdsDistinct(o: Options, t: seq<ChunkerEvent>, i: nat, j: nat)
    requires TraceOk(o, t) && i < j < |t|
    requires t[i].BlockStart? && t[j].BlockStart?
    ensures t[i].blockId != t[j].blockId
  {
    StartNumbered(o, t, i);
    StartNumbered(o, t, j);
    StartCountMonotone(t, i, j);
    PrefixedDecimalInjective(o.blockIdPrefix, StartCount(t[..i]) + 1, StartCount(t[..j]) + 1);
  }

  /** Every update and end concerns a block started earlier and not ended since. */
  lemma FollowsStart(o: Options, t: seq<ChunkerEvent>, j: nat)
    requires TraceOk(o, t) && j < |t|
    requires t[j].BlockUpdate? || t[j].BlockEnd?
    ensures exists i :: 0 <= i < j && t[i] == BlockStart(t[j].blockId)
                        && forall k :: i < k < j ==> !t[k].BlockEnd?
  {
    TraceOkPrefix(o, t, j);
    var pre := t[..j];
    OpenHasStart(pre);
    var i :| 0 <= i < |pre| && pre[i] == BlockStart(Open(pre).value)
              && forall k :: i < k < |pre| ==> !pre[k].BlockEnd?;
    assert t[i] == pre[i];
    assert forall k :: i < k < j ==> t[k] == pre[k];
  }

  /** No block receives an update after its end. */
  lemma NoUpdateAfterEnd(o: Options, t: seq<ChunkerEvent>, i: nat, j: nat)
    requires TraceOk(o, t) && i < j < |t|
    requires t[i].BlockEnd? && t[j].BlockUpdate?
    ensures t[j].blockId != t[i].blockId
  {
    FollowsStart(o, t, j);
    var sj :| 0 <= sj < j && t[sj] == BlockStart(t[j].blockId)
               && forall k :: sj < k < j ==> !t[k].BlockEnd?;
    FollowsStart(o, t, i);
    var si :| 0 <= si < i && t[si] == BlockStart(t[i].blockId)
               && forall k :: si < k < i ==> !t[k].BlockEnd?;
    assert i < sj;
    StartIdsDistinct(o, t, si, sj);
  }

  /**
   * Fence parity: a block end directly follows an update of the same block
   * with the same flag, and the flag says whether that update's content has
   * an even number of fences.
   */
  lemma EndReportsBalance(o: Options, t: seq<ChunkerEvent>, i: nat)
    requires TraceOk(o, t) && i < |t| && t[i].BlockEnd?
    ensures i > 0 && t[i - 1].BlockUpdate? && t[i - 1].blockId == t[i].blockId
    ensures t[i - 1].isComplete == t[i].isComplete
    ensures t[i].isComplete == HasBalancedFences(t[i - 1].content)
  {
    TraceOkPrefix(o, t, i);
    assert t[..i][i - 1] == t[i - 1];
  }
}
