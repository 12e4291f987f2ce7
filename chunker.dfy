/**
 * `MarkdownStreamChunker` of lib/chunker.ts as a class.
 *
 * The fields are those of the source: the options, the pending `buffer`, the
 * next block number, the current block id and the listener lists. Two further
 * fields record what the chunker does to the outside world: `calls`, every
 * listener invocation in order, and the ghost `trace`, every event emitted.
 * Each method is proved to move the fields exactly as the matching function of
 * ChunkerSpec says, and to keep `Valid`, which carries the event protocol of
 * ChunkerTrace.
 */
module Chunker {
  import opened Wrappers
  import opened Text
  import opened Listeners
  import opened ChunkerSpec
  import opened ChunkerTrace

  /** Every event name has a (possibly empty) listener list. */
  predicate AllNames<L>(ls: map<EventName, seq<L>>)
  {
    BlockStartName in ls && BlockUpdateName in ls && BlockEndName in ls
    && BlockRemainsName in ls && EndName in ls
  }

  function NoListeners<L>(): (ls: map<EventName, seq<L>>)
    ensures AllNames(ls)
    ensures forall n :: n in ls ==> ls[n] == []
  {
    var ls: map<EventName, seq<L>> := map[BlockStartName := [], BlockUpdateName := [], BlockEndName := [],
        BlockRemainsName := [], EndName := []];
    ls
  }

  class MarkdownStreamChunker<L(==)> {
    const options: Options
    var buffer: string
    var nextBlockId: nat
    var currentBlockId: Option<string>
    var listeners: map<EventName, seq<L>>
    var calls: seq<Call<L, ChunkerEvent>>
    ghost var trace: seq<ChunkerEvent>

    /** The three block fields as a value of the specification. */
    function State(): ChunkerState
      reads this
    {
      ChunkerState(buffer, currentBlockId, nextBlockId)
    }

    ghost predicate Valid()
      reads this
    {
      ChunkerInv(options, State(), trace) && AllNames(listeners)
    }

    constructor(blockIdPrefix: Option<string>, withholdIncompleteLinks: Option<bool>)
      ensures options == MakeOptions(blockIdPrefix, withholdIncompleteLinks)
      ensures State() == Initial && listeners == NoListeners()
      ensures calls == [] && trace == []
      ensures Valid()
    {
      options := MakeOptions(blockIdPrefix, withholdIncompleteLinks);
      buffer := "";
      nextBlockId := 1;
      currentBlockId := None;
      listeners := NoListeners();
      calls := [];
      trace := [];
    }

    method On(name: EventName, fn: L)
      requires Valid()
      modifies this
      ensures Valid()
      ensures listeners == old(listeners)[name := old(listeners)[name] + [fn]]
      ensures State() == old(State()) && calls == old(calls) && trace == old(trace)
    {
      listeners := listeners[name := listeners[name] + [fn]];
    }

    method Off(name: EventName, fn: L)
      requires Valid()
      modifies this
      ensures Valid()
      ensures listeners == old(listeners)[name := Listeners.Off(old(listeners)[name], fn)]
      ensures State() == old(State()) && calls == old(calls) && trace == old(trace)
    {
      listeners := listeners[name := Listeners.Off(listeners[name], fn)];
    }

    /** `emit`: call every listener registered for the event's name, in order. */
    method Emit(e: ChunkerEvent)
      requires NameOf(e) in listeners
      modifies this
      ensures State() == old(State()) && listeners == old(listeners)
      ensures calls == old(calls) + Deliver(listeners[NameOf(e)], e)
      ensures trace == old(trace) + [e]
    {
      var fns := listeners[NameOf(e)];
      var i := 0;
      while i < |fns|
        invariant 0 <= i <= |fns|
        invariant calls == old(calls) + Deliver(fns[..i], e)
        invariant State() == old(State()) && listeners == old(listeners) && trace == old(trace)
      {
        assert fns[..i + 1] == fns[..i] + [fns[i]];
        DeliverSnoc(fns[..i], fns[i], e);
        calls := calls + [Call(fns[i], e)];
        i := i + 1;
      }
      assert fns[..i] == fns;
      trace := trace + [e];
    }

    /**
     * After a step from the state at the call: the fields are the step's
     * state, and the step's events were appended to the trace and delivered,
     * in order, to the listeners registered for them.
     */
    ghost predicate Performed(t0: seq<ChunkerEvent>, c0: seq<Call<L, ChunkerEvent>>, step: Step)
      reads this
    {
      State() == step.state && trace == t0 + step.events && calls == c0 + CallsFor(listeners, step.events)
    }

    /** `emitStart` */
    method EmitStart()
      requires AllNames(listeners)
      modifies this
      ensures listeners == old(listeners)
      ensures Performed(old(trace), old(calls), StartStep(options, old(State())))
    {
      if currentBlockId.None? {
        var id := options.blockIdPrefix + Decimal(nextBlockId);
        currentBlockId := Some(id);
        nextBlockId := nextBlockId + 1;
        DeliverSingle(listeners, BlockStart(id));
        Emit(BlockStart(id));
      } else {
        Unit(old(trace), old(calls));
      }
    }

    /** `emitUpdate` */
    method EmitUpdate(content: string, isComplete: bool)
      requires AllNames(listeners)
      modifies this
      ensures listeners == old(listeners)
      ensures Performed(old(trace), old(calls), UpdateStep(options, old(State()), content, isComplete))
    {
      ghost var st := StartStep(options, State());
      EmitStart();
      var e := BlockUpdate(currentBlockId.value, content, isComplete);
      DeliverOne(listeners, st.events, e);
      Emit(e);
      assert UpdateStep(options, old(State()), content, isComplete) == Step(st.state, st.events + [e]);
      assert Performed(old(trace), old(calls), Step(st.state, st.events + [e])) by {
        Compose(listeners, old(trace), old(calls), st.events, [e]);
      }
    }

    /** `emitRemains` */
    method EmitRemains(content: string)
      requires AllNames(listeners)
      modifies this
      ensures listeners == old(listeners)
      ensures Performed(old(trace), old(calls), Step(old(State()), [BlockRemains(currentBlockId, content)]))
    {
      var e := BlockRemains(currentBlockId, content);
      DeliverSingle(listeners, e);
      Emit(e);
    }

    /** `emitEnd` */
    method EmitEnd(isComplete: bool)
      requires AllNames(listeners)
      modifies this
      ensures listeners == old(listeners)
      ensures Performed(old(trace), old(calls), EndStep(old(State()), isComplete))
    {
      if currentBlockId.Some? {
        var e := BlockEnd(currentBlockId.value, isComplete);
        DeliverSingle(listeners, e);
        Emit(e);
        currentBlockId := None;
      } else {
        Unit(old(trace), old(calls));
      }
    }

    /** One iteration of the loop of `write`, for the segment `part` cut before a marker. */
    method WriteSegment(fenced: Option<string>, part: string) returns (fenced': Option<string>)
      requires AllNames(listeners)
      modifies this
      ensures listeners == old(listeners)
      ensures fenced' == SegmentStep(options, old(State()), fenced, part).fenced
      ensures var h := SegmentStep(options, old(State()), fenced, part);
        Performed(old(trace), old(calls), Step(h.state, h.events))
    {
      ghost var s := State();
      ghost var u := UpdateStep(options, s, SegmentContent(fenced, part), SegmentComplete(fenced, part));
      fenced' := fenced;
      if fenced'.Some? {
        fenced' := Some(fenced'.value + part + BlankLine);
      }
      var balancedFences := HasBalancedFences(part);
      var isComplete := if balancedFences then fenced'.None? else fenced'.Some?;
      EmitUpdate(if fenced'.Some? then fenced'.value else part, isComplete);
      if !balancedFences {
        if fenced'.None? {
          fenced' := Some(part + BlankLine);
        } else {
          fenced' := None;
        }
      }
      ghost var e := if fenced'.None? then EndStep(u.state, isComplete) else Step(u.state, []);
      ghost var t1, c1 := trace, calls;
      if fenced'.None? {
        EmitEnd(isComplete);
      } else {
        Unit(t1, c1);
      }
      assert SegmentStep(options, s, fenced, part) == Scan(e.state, fenced', u.events + e.events);
      assert Performed(old(trace), old(calls), Step(e.state, u.events + e.events)) by {
        Compose(listeners, old(trace), old(calls), u.events, e.events);
      }
    }

    /** `write(chunk)` */
    method Write(chunk: string)
      requires Valid()
      modifies this
      ensures Valid()
      ensures listeners == old(listeners)
      ensures Performed(old(trace), old(calls), WriteStep(options, old(State()), chunk))
    {
      var data := buffer + chunk;
      buffer := "";
      ghost var s0 := State();
      var fenced;
      fenced, data := CutBlocks(data);
      ghost var scan := ScanParts(options, s0, None, SplitBlank(old(buffer) + chunk).parts);
      if fenced.Some? {
        data := fenced.value + data;
      }
      ghost var r := RemainsStep(options, State(), data);
      WriteRemains(data);
      assert WriteStep(options, old(State()), chunk) == Step(r.state, scan.events + r.events);
      assert Performed(old(trace), old(calls), Step(r.state, scan.events + r.events)) by {
        Compose(listeners, old(trace), old(calls), scan.events, r.events);
      }
      WriteKeeps(options, old(State()), old(trace), chunk);
    }

    /**
     * The loop of `write`: cut `data` at each blank-line marker and report the
     * segment; returns the open fence span (`fencedData`) and the uncut rest.
     */
    method CutBlocks(data0: string) returns (fenced: Option<string>, data: string)
      requires AllNames(listeners)
      modifies this
      ensures listeners == old(listeners)
      ensures data == SplitBlank(data0).rest
      ensures var sc := ScanParts(options, old(State()), None, SplitBlank(data0).parts);
        fenced == sc.fenced && Performed(old(trace), old(calls), Step(sc.state, sc.events))
    {
      ghost var s0 := State();
      ghost var done: seq<string> := [];
      ghost var todo := SplitBlank(data0).parts;
      ghost var sc := Scan(s0, None, []);
      fenced := None;
      data := data0;
      Unit(old(trace), old(calls));
      while true
        invariant SplitBlank(data) == Split(todo, SplitBlank(data0).rest)
        invariant done + todo == SplitBlank(data0).parts
        invariant sc == ScanParts(options, s0, None, done)
        invariant fenced == sc.fenced && Performed(old(trace), old(calls), Step(sc.state, sc.events))
        invariant listeners == old(listeners) && AllNames(listeners)
        decreases |data|
      {
        var idx := IndexOf(data, BlankLine);
        if idx == -1 {
          break;
        }
        var part := data[..idx];
        CutAdvance(data, idx, done, todo, SplitBlank(data0).rest);
        data := data[idx + 2..];
        ghost var h := SegmentStep(options, sc.state, sc.fenced, part);
        fenced := WriteSegment(fenced, part);
        ScanPartsSnoc(options, s0, None, done, part);
        assert Performed(old(trace), old(calls), Step(h.state, sc.events + h.events)) by {
          Compose(listeners, old(trace), old(calls), sc.events, h.events);
        }
        sc := Scan(h.state, h.fenced, sc.events + h.events);
        done, todo := done + [part], todo[1..];
      }
      assert done == SplitBlank(data0).parts by {
        assert done + [] == done;
      }
    }

    /** The second half of `write`: keep a non-empty tail and report it as the block's content so far. */
    method WriteRemains(data: string)
      requires AllNames(listeners)
      modifies this
      ensures listeners == old(listeners)
      ensures Performed(old(trace), old(calls), RemainsStep(options, old(State()), data))
    {
      if |data| > 0 {
        buffer := data;
        var safeData := if options.withholdIncompleteLinks then SafeData(data) else data;
        ghost var u := UpdateStep(options, State(), safeData, false);
        EmitUpdate(safeData, false);
        ghost var rem := BlockRemains(currentBlockId, data);
        EmitRemains(data);
        assert RemainsStep(options, old(State()), data) == Step(u.state, u.events + [rem]);
        assert Performed(old(trace), old(calls), Step(u.state, u.events + [rem])) by {
          Compose(listeners, old(trace), old(calls), u.events, [rem]);
        }
      } else {
        Unit(old(trace), old(calls));
      }
    }

    /** The first half of `end()`: report a non-empty buffer as the block's last update, and end it. */
    method Flush()
      requires AllNames(listeners)
      modifies this
      ensures listeners == old(listeners)
      ensures Performed(old(trace), old(calls), FlushStep(options, old(State())))
    {
      if |buffer| > 0 {
        FlushBlock();
      } else {
        Unit(old(trace), old(calls));
      }
    }

    /** `end()` with text pending: its final update, flagged by fence balance, then its end. */
    method FlushBlock()
      requires AllNames(listeners) && |buffer| > 0
      modifies this
      ensures listeners == old(listeners)
      ensures Performed(old(trace), old(calls), FlushStep(options, old(State())))
    {
      ghost var s := State();
      var isComplete := HasBalancedFences(buffer);
      ghost var u := UpdateStep(options, s, s.buffer, isComplete);
      EmitUpdate(buffer, isComplete);
      buffer := "";
      ghost var en := EndStep(u.state.(buffer := ""), isComplete);
      EmitEnd(isComplete);
      assert FlushStep(options, s) == Step(en.state, u.events + en.events);
      assert Performed(old(trace), old(calls), Step(en.state, u.events + en.events)) by {
        Compose(listeners, old(trace), old(calls), u.events, en.events);
      }
    }

    /** `end()`: flush the pending block, then emit the stream end. */
    method End()
      requires Valid()
      modifies this
      ensures Valid()
      ensures listeners == old(listeners)
      ensures Performed(old(trace), old(calls), EndStreamStep(options, old(State())))
    {
      ghost var f := FlushStep(options, State());
      Flush();
      DeliverSingle(listeners, ChunkerEvent.End);
      Emit(ChunkerEvent.End);
      assert EndStreamStep(options, old(State())) == Step(f.state, f.events + [ChunkerEvent.End]);
      assert Performed(old(trace), old(calls), Step(f.state, f.events + [ChunkerEvent.End])) by {
        Compose(listeners, old(trace), old(calls), f.events, [ChunkerEvent.End]);
      }
      EndStreamKeeps(options, old(State()), old(trace));
    }
  }

  /** The listener calls a run of emits makes with the listener lists `ls`. */
  function CallsFor<L>(ls: map<EventName, seq<L>>, evs: seq<ChunkerEvent>): seq<Call<L, ChunkerEvent>>
  {
    if evs == [] then []
    else
      var e := evs[|evs| - 1];
      CallsFor(ls, evs[..|evs| - 1]) + Deliver(ListenersOf(ls, NameOf(e)), e)
  }

  lemma {:induction false} CallsForConcat<L>(ls: map<EventName, seq<L>>, a: seq<ChunkerEvent>, b: seq<ChunkerEvent>)
    ensures CallsFor(ls, a + b) == CallsFor(ls, a) + CallsFor(ls, b)
    decreases |b|
  {
    if b == [] {
      assert a + b == a;
    } else {
      assert (a + b)[..|a + b| - 1] == a + b[..|b| - 1];
      CallsForConcat(ls, a, b[..|b| - 1]);
    }
  }

  /** Two steps in a row append their events, and their calls, one after the other. */
  lemma Compose<L>(ls: map<EventName, seq<L>>, t0: seq<ChunkerEvent>, c0: seq<Call<L, ChunkerEvent>>,
                   a: seq<ChunkerEvent>, b: seq<ChunkerEvent>)
    ensures (t0 + a) + b == t0 + (a + b)
    ensures (c0 + CallsFor(ls, a)) + CallsFor(ls, b) == c0 + CallsFor(ls, a + b)
  {
    CallsForConcat(ls, a, b);
    Assoc(t0, a, b);
    Assoc(c0, CallsFor(ls, a), CallsFor(ls, b));
  }

  lemma Assoc<T>(x: seq<T>, y: seq<T>, z: seq<T>)
    ensures (x + y) + z == x + (y + z)
  {
  }

  /** A step without events changes neither the trace nor the calls. */
  lemma Unit<L>(t0: seq<ChunkerEvent>, c0: seq<Call<L, ChunkerEvent>>)
    ensures t0 + [] == t0 && c0 + [] == c0
  {
  }

  /** Calls for a run of events followed by one more. */
  lemma DeliverOne<L>(ls: map<EventName, seq<L>>, evs: seq<ChunkerEvent>, e: ChunkerEvent)
    requires AllNames(ls)
    ensures NameOf(e) in ls
    ensures CallsFor(ls, evs + [e]) == CallsFor(ls, evs) + Deliver(ls[NameOf(e)], e)
  {
    assert (evs + [e])[..|evs|] == evs;
  }

  /** Calls for a single event. */
  lemma DeliverSingle<L>(ls: map<EventName, seq<L>>, e: ChunkerEvent)
    requires AllNames(ls)
    ensures NameOf(e) in ls
    ensures CallsFor(ls, [e]) == Deliver(ls[NameOf(e)], e)
  {
    DeliverOne(ls, [], e);
    assert [] + [e] == [e];
  }
}
