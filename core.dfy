/**
 * `SemidownCore` of lib/semidown-core.ts as a class.
 *
 * The fields are those of the source: its chunker, its lifecycle `state`,
 * the `blockStates` table and its listener lists. Three further fields
 * record what it does to the outside world: the updates whose conversion
 * is under way (`inFlight`), every call it makes on its renderer
 * (`renders`) and every listener invocation (`calls`); the ghost `events`
 * holds every event it emitted.
 *
 * The chunker's listeners are the four handlers of `hookup`, and the
 * chunker logs each call it makes to them. `Write` and `End` run the
 * chunker, then run the handlers over the calls it logged, in order: the
 * handlers do not call back into the chunker, so this is the order in which
 * the source runs them. The second half of `onBlockUpdate`, after its
 * `await`, is `SettleUpdate`, which the environment calls once the parser
 * and the renderer are done with an update.
 */
module Core {
  import opened Wrappers
  import opened Listeners
  import opened ChunkerSpec
  import opened ChunkerTrace
  import opened Chunker
  import opened CoreSpec

  /** Every event name has a (possibly empty) listener list. */
  predicate AllEventNames<L>(ls: map<SemidownEventName, seq<L>>)
  {
    BlockCreateName in ls && BlockUpdatedName in ls && BlockCompleteName in ls && StreamEndName in ls
  }

  function NoEventListeners<L>(): (ls: map<SemidownEventName, seq<L>>)
    ensures AllEventNames(ls)
    ensures forall n :: n in ls ==> ls[n] == []
  {
    var ls: map<SemidownEventName, seq<L>> :=
      map[BlockCreateName := [], BlockUpdatedName := [], BlockCompleteName := [], StreamEndName := []];
    ls
  }

  /** The listener calls a run of emits makes with the listener lists `ls`. */
  function EmitCalls<L>(ls: map<SemidownEventName, seq<L>>, evs: seq<SemidownEvent>): seq<Call<L, SemidownEvent>>
  {
    if evs == [] then []
    else
      var e := evs[|evs| - 1];
      EmitCalls(ls, evs[..|evs| - 1]) + Deliver(ListenersOf(ls, EventNameOf(e)), e)
  }

  lemma {:induction false} EmitCallsConcat<L>(ls: map<SemidownEventName, seq<L>>,
                                              a: seq<SemidownEvent>, b: seq<SemidownEvent>)
    ensures EmitCalls(ls, a + b) == EmitCalls(ls, a) + EmitCalls(ls, b)
    decreases |b|
  {
    if b == [] {
      assert a + b == a;
    } else {
      assert (a + b)[..|a + b| - 1] == a + b[..|b| - 1];
      EmitCallsConcat(ls, a, b[..|b| - 1]);
    }
  }

  /** Calls for a single event. */
  lemma EmitSingle<L>(ls: map<SemidownEventName, seq<L>>, e: SemidownEvent)
    requires AllEventNames(ls)
    ensures EventNameOf(e) in ls
    ensures EmitCalls(ls, [e]) == Deliver(ls[EventNameOf(e)], e)
  {
    assert [e][..0] == [];
  }

  /** Two steps in a row append their events, calls and renders one after the other. */
  lemma Then<L>(ls: map<SemidownEventName, seq<L>>, e0: seq<SemidownEvent>, c0: seq<Call<L, SemidownEvent>>,
                r0: seq<RenderCall>, a: Out, b: Out)
    ensures (e0 + a.events) + b.events == e0 + (a.events + b.events)
    ensures (c0 + EmitCalls(ls, a.events)) + EmitCalls(ls, b.events) == c0 + EmitCalls(ls, a.events + b.events)
    ensures (r0 + a.renders) + b.renders == r0 + (a.renders + b.renders)
  {
    EmitCallsConcat(ls, a.events, b.events);
  }

  /**
   * One more chunker call handled: the reaction to the longer run is the
   * reaction so far followed by the handler's step, and the logs extend
   * accordingly.
   */
  lemma ReactStep<L>(ls: map<SemidownEventName, seq<L>>, e0: seq<SemidownEvent>, c0: seq<Call<L, SemidownEvent>>,
                     r0: seq<RenderCall>, s0: CoreState, cs: seq<Call<Handler, ChunkerEvent>>, i: nat)
    requires i < |cs|
    ensures var r := React(s0, cs[..i]);
      var h := Handle(r.core, cs[i].listener, cs[i].payload);
      var r' := React(s0, cs[..i + 1]);
      r'.core == h.core
      && (e0 + r.events) + h.events == e0 + r'.events
      && (c0 + EmitCalls(ls, r.events)) + EmitCalls(ls, h.events) == c0 + EmitCalls(ls, r'.events)
      && (r0 + r.renders) + h.renders == r0 + r'.renders
  {
    assert cs[..i + 1] == cs[..i] + [cs[i]];
    ReactSnoc(s0, cs[..i], cs[i]);
    var r := React(s0, cs[..i]);
    Then(ls, e0, c0, r0, r, Handle(r.core, cs[i].listener, cs[i].payload));
  }

  /** A step without events or renders changes none of the logs. */
  lemma Still<L>(e0: seq<SemidownEvent>, c0: seq<Call<L, SemidownEvent>>, r0: seq<RenderCall>)
    ensures e0 + [] == e0 && c0 + [] == c0 && r0 + [] == r0
  {
  }

  /** The four subscriptions of `hookup`, made one by one, give `Hooked()`. */
  lemma HookedBuilt()
    ensures var l0 := NoListeners<Handler>();
      var l1 := l0[BlockStartName := l0[BlockStartName] + [BlockStartHandler]];
      var l2 := l1[BlockUpdateName := l1[BlockUpdateName] + [BlockUpdateHandler]];
      var l3 := l2[BlockEndName := l2[BlockEndName] + [BlockEndHandler]];
      var l4 := l3[EndName := l3[EndName] + [EndHandler]];
      l4 == Hooked()
  {
    var l0 := NoListeners<Handler>();
    var l1 := l0[BlockStartName := l0[BlockStartName] + [BlockStartHandler]];
    var l2 := l1[BlockUpdateName := l1[BlockUpdateName] + [BlockUpdateHandler]];
    var l3 := l2[BlockEndName := l2[BlockEndName] + [BlockEndHandler]];
    var l4 := l3[EndName := l3[EndName] + [EndHandler]];
    assert l4.Keys == Hooked().Keys;
    forall n | n in l4 ensures l4[n] == Hooked()[n] {
      assert l0[n] == [];
    }
  }

  /**
   * The four removals of `destroy`, made one by one, leave no subscription,
   * whether the handlers were subscribed or already removed.
   */
  lemma HookedRemoved(l0: map<EventName, seq<Handler>>)
    requires l0 == Hooked() || l0 == NoListeners()
    ensures var l1 := l0[BlockStartName := Listeners.Off(l0[BlockStartName], BlockStartHandler)];
      var l2 := l1[BlockUpdateName := Listeners.Off(l1[BlockUpdateName], BlockUpdateHandler)];
      var l3 := l2[BlockEndName := Listeners.Off(l2[BlockEndName], BlockEndHandler)];
      var l4 := l3[EndName := Listeners.Off(l3[EndName], EndHandler)];
      l4 == NoListeners()
  {
    var none := NoListeners<Handler>();
    var l1 := l0[BlockStartName := Listeners.Off(l0[BlockStartName], BlockStartHandler)];
    var l2 := l1[BlockUpdateName := Listeners.Off(l1[BlockUpdateName], BlockUpdateHandler)];
    var l3 := l2[BlockEndName := Listeners.Off(l2[BlockEndName], BlockEndHandler)];
    var l4 := l3[EndName := Listeners.Off(l3[EndName], EndHandler)];
    assert Listeners.Off([BlockStartHandler], BlockStartHandler) == [];
    assert Listeners.Off([BlockUpdateHandler], BlockUpdateHandler) == [];
    assert Listeners.Off([BlockEndHandler], BlockEndHandler) == [];
    assert Listeners.Off([EndHandler], EndHandler) == [];
    assert l4.Keys == none.Keys;
    forall n | n in l4 ensures l4[n] == none[n] {
      assert l0[n] == [] || l0[n] == [BlockStartHandler] || l0[n] == [BlockUpdateHandler]
        || l0[n] == [BlockEndHandler] || l0[n] == [EndHandler];
    }
  }


  const NoTargetMessage: string := "Either targetElement or renderer must be provided."

  /**
   * `new SemidownCore(options)`: throws unless a target element or a
   * renderer is given; otherwise a core hooked up to a fresh chunker with
   * the default options, processing.
   */
  method New<L(==)>(hasTargetElement: bool, hasRenderer: bool) returns (r: Result<SemidownCore<L>>)
    ensures r.Failure? <==> !hasTargetElement && !hasRenderer
    ensures r.Failure? ==> r.error == NoTargetMessage
    ensures r.Ok? ==> fresh(r.value) && fresh(r.value.chunker) && r.value.Valid() && r.value.Fresh()
  {
    if !(hasRenderer || hasTargetElement) {
      return Failure(NoTargetMessage);
    }
    var core := new SemidownCore<L>();
    return Ok(core);
  }

  class SemidownCore<L(==)> {
    const chunker: MarkdownStreamChunker<Handler>
    var state: Phase
    var blockStates: map<string, BlockState>
    var inFlight: seq<InFlight>
    var listeners: map<SemidownEventName, seq<L>>
    var calls: seq<Call<L, SemidownEvent>>
    var renders: seq<RenderCall>
    ghost var events: seq<SemidownEvent>

    /** The fields the handlers update, as a value of the specification. */
    function Core(): CoreState
      reads this
    {
      CoreState(state, blockStates, inFlight)
    }

    /**
     * The chunker is valid and subscribed with `hookup`'s handlers until
     * `destroy` removes them, and the bookkeeping satisfies `CoreInv` for
     * the chunker's trace and the events emitted so far.
     */
    ghost predicate Valid()
      reads this, chunker
    {
      chunker.Valid() && AllEventNames(listeners)
      && chunker.listeners == (if state == Destroyed then NoListeners() else Hooked())
      && CoreInv(Core(), Open(chunker.trace), Started(chunker.trace), EndCount(events))
    }

    /** As constructed: processing, nothing written, nothing emitted. */
    ghost predicate Fresh()
      reads this, chunker
    {
      Core() == Start && listeners == NoEventListeners() && calls == [] && renders == [] && events == []
      && chunker.State() == Initial && chunker.options == MakeOptions(None, None)
      && chunker.trace == [] && chunker.calls == []
    }

    /**
     * After a step from the logs at the call: the bookkeeping is the step's
     * state, and the step's events were appended and delivered, in order,
     * to the listeners registered for them, and its renderer calls made.
     */
    ghost predicate Did(e0: seq<SemidownEvent>, c0: seq<Call<L, SemidownEvent>>, r0: seq<RenderCall>, out: Out)
      reads this
    {
      Core() == out.core && events == e0 + out.events
      && calls == c0 + EmitCalls(listeners, out.events) && renders == r0 + out.renders
    }

    constructor()
      ensures fresh(chunker) && Valid() && Fresh()
    {
      chunker := new MarkdownStreamChunker(None, None);
      state := Idle;
      blockStates := map[];
      inFlight := [];
      listeners := NoEventListeners();
      calls := [];
      renders := [];
      events := [];
      new;
      Hookup();
      StartInv();
    }

    /** `hookup`: start processing and subscribe the four handlers on the chunker. */
    method Hookup()
      requires chunker.Valid() && chunker.listeners == NoListeners()
      modifies this, chunker
      ensures state == Processing && chunker.listeners == Hooked() && chunker.Valid()
      ensures blockStates == old(blockStates) && inFlight == old(inFlight) && listeners == old(listeners)
      ensures calls == old(calls) && renders == old(renders) && events == old(events)
      ensures chunker.State() == old(chunker.State())
      ensures chunker.trace == old(chunker.trace) && chunker.calls == old(chunker.calls)
    {
      state := Processing;
      chunker.On(BlockStartName, BlockStartHandler);
      chunker.On(BlockUpdateName, BlockUpdateHandler);
      chunker.On(BlockEndName, BlockEndHandler);
      chunker.On(EndName, EndHandler);
      HookedBuilt();
    }

    /** `write(chunk)`: only while processing, the chunker takes the text and the handlers react. */
    method Write(chunk: string)
      requires Valid()
      modifies this, chunker
      ensures Valid()
      ensures old(state) != Processing ==> unchanged(this) && unchanged(chunker)
      ensures old(state) == Processing ==>
        var step := WriteStep(chunker.options, old(chunker.State()), chunk);
        && chunker.Performed(old(chunker.trace), old(chunker.calls), step)
        && Did(old(events), old(calls), old(renders), ReceiveAll(old(Core()), step.events))
        && state == Processing && listeners == old(listeners)
    {
      if state == Processing {
        ghost var s0 := Core();
        ghost var t0 := chunker.trace;
        ghost var step := WriteStep(chunker.options, chunker.State(), chunk);
        var n := |chunker.calls|;
        chunker.Write(chunk);
        assert chunker.calls[n..] == CallsFor(Hooked(), step.events);
        Dispatch(chunker.calls[n..]);
        WriteReacted(chunker.options, old(chunker.State()), chunk, s0, t0, old(events));
      }
    }

    /** `end()`: only while processing, the chunker flushes and ends, and the handlers react. */
    method End()
      requires Valid()
      modifies this, chunker
      ensures Valid()
      ensures old(state) != Processing ==> unchanged(this) && unchanged(chunker)
      ensures old(state) == Processing ==>
        var step := EndStreamStep(chunker.options, old(chunker.State()));
        && chunker.Performed(old(chunker.trace), old(chunker.calls), step)
        && Did(old(events), old(calls), old(renders), ReceiveAll(old(Core()), step.events))
        && state == Idle && listeners == old(listeners)
    {
      if state == Processing {
        ghost var s0 := Core();
        ghost var t0 := chunker.trace;
        ghost var step := EndStreamStep(chunker.options, chunker.State());
        var n := |chunker.calls|;
        chunker.End();
        assert chunker.calls[n..] == CallsFor(Hooked(), step.events);
        Dispatch(chunker.calls[n..]);
        EndReacted(chunker.options, old(chunker.State()), s0, t0, old(events));
      }
    }

    /** Run the subscribed handlers over a run of the chunker's listener calls, in order. */
    method Dispatch(cs: seq<Call<Handler, ChunkerEvent>>)
      requires AllEventNames(listeners)
      modifies this
      ensures listeners == old(listeners)
      ensures Did(old(events), old(calls), old(renders), React(old(Core()), cs))
    {
      ghost var s0 := Core();
      var i := 0;
      Still(events, calls, renders);
      while i < |cs|
        invariant 0 <= i <= |cs|
        invariant listeners == old(listeners)
        invariant Did(old(events), old(calls), old(renders), React(s0, cs[..i]))
      {
        HandleCall(cs[i]);
        ReactStep(listeners, old(events), old(calls), old(renders), s0, cs, i);
        i := i + 1;
      }
      assert cs[..i] == cs;
    }

    /** One chunker call: the subscribed handler with its payload. */
    method HandleCall(c: Call<Handler, ChunkerEvent>)
      requires AllEventNames(listeners)
      modifies this
      ensures listeners == old(listeners)
      ensures Did(old(events), old(calls), old(renders), Handle(old(Core()), c.listener, c.payload))
    {
      match (c.listener, c.payload)
      case (BlockStartHandler, BlockStart(id)) => OnBlockStart(id);
      case (BlockUpdateHandler, BlockUpdate(id, content, isComplete)) => OnBlockUpdate(id, content, isComplete);
      case (BlockEndHandler, BlockEnd(id, isComplete)) => OnBlockEnd(id, isComplete);
      case (EndHandler, _) => OnEnd();
      case _ => Still(events, calls, renders);
    }

    /** `onBlockStart` */
    method OnBlockStart(id: string)
      requires AllEventNames(listeners)
      modifies this
      ensures listeners == old(listeners)
      ensures Did(old(events), old(calls), old(renders), BlockStartStep(old(Core()), id))
    {
      if state != Processing {
        Still(events, calls, renders);
        return;
      }
      renders := renders + [CreateBlock(id)];
      blockStates := blockStates[id := NewBlock];
      Emit(BlockCreate(id));
    }

    /**
     * `onBlockUpdate` up to its `await`: with an entry, count the update
     * and start its conversion; without one the increment throws inside the
     * async handler, which only rejects its promise.
     */
    method OnBlockUpdate(id: string, content: string, isComplete: bool)
      requires AllEventNames(listeners)
      modifies this
      ensures listeners == old(listeners)
      ensures Did(old(events), old(calls), old(renders), BeginUpdateStep(old(Core()), id, content, isComplete))
    {
      Still(events, calls, renders);
      if state != Processing || id !in blockStates {
        return;
      }
      var b := blockStates[id];
      blockStates := blockStates[id := b.(updateCounter := b.updateCounter + 1)];
      inFlight := inFlight + [InFlight(id, content, isComplete)];
    }

    /**
     * The rest of `onBlockUpdate` once the `k`-th update in flight was
     * converted to `html` and the renderer took it: the invariant keeps
     * that update's block in the table until then.
     */
    method SettleUpdate(k: nat, html: string)
      requires Valid() && k < |inFlight|
      modifies this
      ensures Valid() && listeners == old(listeners)
      ensures Did(old(events), old(calls), old(renders), SettleStep(old(Core()), k, html))
    {
      SettleKeeps(Core(), Open(chunker.trace), Started(chunker.trace), EndCount(events), k, html);
      EndCountConcat(events, SettleStep(Core(), k, html).events);
      Settle(k, html);
    }

    /** The steps of `onBlockUpdate` after its `await`. */
    method Settle(k: nat, html: string)
      requires k < |inFlight| && inFlight[k].blockId in blockStates && AllEventNames(listeners)
      modifies this
      ensures listeners == old(listeners)
      ensures Did(old(events), old(calls), old(renders), SettleStep(old(Core()), k, html))
    {
      var u := inFlight[k];
      renders := renders + [UpdateBlock(u.blockId, html, u.isComplete)];
      var b := blockStates[u.blockId];
      b := b.(updateCounter := b.updateCounter - 1);
      blockStates := blockStates[u.blockId := b];
      inFlight := Without(inFlight, k);
      var shown := BlockUpdated(u.blockId, u.content, u.isComplete, html);
      Emit(shown);
      var p := BlockUpdate(u.blockId, u.content, u.isComplete);
      if (u.isComplete && b.ended && b.updateCounter == 0) || (!u.isComplete && b.updateCounter == 0 && b.ended && b.complete) {
        ghost var mid := Out(Core(), [shown], [UpdateBlock(u.blockId, html, u.isComplete)]);
        FinishBlock(p);
        Then(listeners, old(events), old(calls), old(renders), mid, FinishStep(mid.core, p));
      } else if u.isComplete {
        blockStates := blockStates[u.blockId := b.(complete := true)];
      }
    }

    /** `finishBlock(p)` */
    method FinishBlock(p: ChunkerEvent)
      requires p.BlockUpdate? || p.BlockEnd?
      requires AllEventNames(listeners)
      modifies this
      ensures listeners == old(listeners)
      ensures Did(old(events), old(calls), old(renders), FinishStep(old(Core()), p))
    {
      Emit(BlockComplete(p));
      ghost var mid := Out(Core(), [BlockComplete(p)], []);
      blockStates := blockStates - {p.blockId};
      mid := mid.(core := Core());
      CheckEnd();
      Then(listeners, old(events), old(calls), old(renders), mid, CheckEndStep(mid.core));
    }

    /**
     * `onBlockEnd`: finalize the block on the renderer, then finish it if
     * it is complete with no update in flight, else mark it ended. Without
     * an entry the source throws after the renderer call; the invariant
     * shows that never happens.
     */
    method OnBlockEnd(id: string, isComplete: bool)
      requires AllEventNames(listeners)
      modifies this
      ensures listeners == old(listeners)
      ensures Did(old(events), old(calls), old(renders), BlockEndStep(old(Core()), id, isComplete))
    {
      if state != Processing {
        Still(events, calls, renders);
        return;
      }
      renders := renders + [FinalizeBlock(id, isComplete)];
      Still(events, calls, renders);
      if id !in blockStates {
        return;
      }
      var b := blockStates[id];
      if b.complete && b.updateCounter == 0 {
        ghost var mid := Out(Core(), [], [FinalizeBlock(id, isComplete)]);
        FinishBlock(BlockEnd(id, isComplete));
        Then(listeners, old(events), old(calls), old(renders), mid, FinishStep(mid.core, BlockEnd(id, isComplete)));
      } else {
        blockStates := blockStates[id := b.(ended := true)];
      }
    }

    /** `onEnd` */
    method OnEnd()
      requires AllEventNames(listeners)
      modifies this
      ensures listeners == old(listeners)
      ensures Did(old(events), old(calls), old(renders), EndEventStep(old(Core())))
    {
      state := Idle;
      CheckEnd();
    }

    /** `checkEnd` */
    method CheckEnd()
      requires AllEventNames(listeners)
      modifies this
      ensures listeners == old(listeners)
      ensures Did(old(events), old(calls), old(renders), CheckEndStep(old(Core())))
    {
      if state == Idle && |blockStates| == 0 {
        Emit(StreamEnd);
      } else {
        Still(events, calls, renders);
      }
    }

    /** `emit`: call every listener registered for the event's name, in order. */
    method Emit(e: SemidownEvent)
      requires AllEventNames(listeners)
      modifies this
      ensures Core() == old(Core()) && listeners == old(listeners) && renders == old(renders)
      ensures calls == old(calls) + EmitCalls(listeners, [e])
      ensures events == old(events) + [e]
    {
      EmitSingle(listeners, e);
      var fns := listeners[EventNameOf(e)];
      var i := 0;
      while i < |fns|
        invariant 0 <= i <= |fns|
        invariant calls == old(calls) + Deliver(fns[..i], e)
        invariant Core() == old(Core()) && listeners == old(listeners)
        invariant renders == old(renders) && events == old(events)
      {
        assert fns[..i + 1] == fns[..i] + [fns[i]];
        DeliverSnoc(fns[..i], fns[i], e);
        calls := calls + [Call(fns[i], e)];
        i := i + 1;
      }
      assert fns[..i] == fns;
      events := events + [e];
    }

    method On(name: SemidownEventName, fn: L)
      requires Valid()
      modifies this
      ensures Valid()
      ensures listeners == old(listeners)[name := old(listeners)[name] + [fn]]
      ensures Core() == old(Core()) && calls == old(calls) && renders == old(renders) && events == old(events)
    {
      listeners := listeners[name := listeners[name] + [fn]];
    }

    method Off(name: SemidownEventName, fn: L)
      requires Valid()
      modifies this
      ensures Valid()
      ensures listeners == old(listeners)[name := Listeners.Off(old(listeners)[name], fn)]
      ensures Core() == old(Core()) && calls == old(calls) && renders == old(renders) && events == old(events)
    {
      listeners := listeners[name := Listeners.Off(listeners[name], fn)];
    }

    /** `pause`: processing becomes paused; any other state stays. */
    method Pause()
      requires Valid()
      modifies this
      ensures Valid()
      ensures state == (if old(state) == Processing then Paused else old(state))
      ensures blockStates == old(blockStates) && inFlight == old(inFlight) && listeners == old(listeners)
      ensures calls == old(calls) && renders == old(renders) && events == old(events)
    {
      if state == Processing {
        PhaseKeeps(Core(), Open(chunker.trace), Started(chunker.trace), EndCount(events), Paused);
        state := Paused;
      }
    }

    /** `resume`: paused becomes processing; any other state stays. */
    method Resume()
      requires Valid()
      modifies this
      ensures Valid()
      ensures state == (if old(state) == Paused then Processing else old(state))
      ensures blockStates == old(blockStates) && inFlight == old(inFlight) && listeners == old(listeners)
      ensures calls == old(calls) && renders == old(renders) && events == old(events)
    {
      if state == Paused {
        PhaseKeeps(Core(), Open(chunker.trace), Started(chunker.trace), EndCount(events), Processing);
        state := Processing;
      }
    }

    /** `destroy`: destroyed whatever the state, the renderer cleared, the handlers unsubscribed. */
    method Destroy()
      requires Valid()
      modifies this, chunker
      ensures Valid()
      ensures state == Destroyed && renders == old(renders) + [Clear]
      ensures chunker.listeners == NoListeners()
      ensures blockStates == old(blockStates) && inFlight == old(inFlight) && listeners == old(listeners)
      ensures calls == old(calls) && events == old(events)
      ensures chunker.State() == old(chunker.State()) && chunker.trace == old(chunker.trace)
      ensures chunker.calls == old(chunker.calls)
    {
      PhaseKeeps(Core(), Open(chunker.trace), Started(chunker.trace), EndCount(events), Destroyed);
      state := Destroyed;
      renders := renders + [Clear];
      Unhook();
    }

    /** The four `chunker.off` calls of `destroy`. */
    method Unhook()
      requires chunker.Valid() && (chunker.listeners == Hooked() || chunker.listeners == NoListeners())
      modifies chunker
      ensures chunker.Valid() && chunker.listeners == NoListeners()
      ensures chunker.State() == old(chunker.State()) && chunker.trace == old(chunker.trace)
      ensures chunker.calls == old(chunker.calls)
    {
      HookedRemoved(chunker.listeners);
      chunker.Off(BlockStartName, BlockStartHandler);
      chunker.Off(BlockUpdateName, BlockUpdateHandler);
      chunker.Off(BlockEndName, BlockEndHandler);
      chunker.Off(EndName, EndHandler);
    }

    method GetState() returns (p: Phase)
      ensures p == state
    {
      p := state;
    }
  }
}
