/** The service and its stream goroutines together: the engine's events and the goroutines' steps interleave freely
    over one table of reference counts. */
module LiveStreams {
  import opened TradeModel
  import opened Pricing
  import opened TradeOps
  import opened TradeLaws
  import opened Engines
  import opened EngineLaws
  import opened Streams
  import opened StreamLaws

  datatype System = System(engine: Engine, runners: seq<Runner>)

  datatype SystemStep = Serve(event: Event) | RunGoroutine(i: nat, ok: bool)

  /** The calls one event makes on the stream manager. */
  ghost function StreamCalls(e: Engine, ev: Event): seq<Action> {
    match ev
    case AddNewTrade(s, _, _) => [Add(s.symbol)]
    case RestoreTrade(s) => if IsDone(s) then [] else [Add(s.symbol)]
    case ExecutionReport(r, time, oracle) =>
      (match Route(e, r)
       case None => []
       case Some(id) => if id in e.trades then Drops(e, id, ReportOp(r, time, oracle)) else [])
    case OnTrade(id, c) => if id in e.trades then Drops(e, id, CommandOp(c)) else []
    case LastTrade(_, _, _) => []
    case ArchiveTrade(_, _) => []
  }

  function Drops(e: Engine, id: string, op: Op): seq<Action>
    requires id in e.trades
  {
    var t := e.trades[id];
    if Releases(t.state, op, Apply(e.info, t, op).state) then [Remove(t.state.symbol)] else []
  }

  ghost function SystemNext(s: System, step: SystemStep): System {
    match step
    case Serve(ev) =>
      System(Step(s.engine, ev),
             StreamRun(StreamState(s.engine.counts, s.runners), StreamCalls(s.engine, ev)).runners)
    case RunGoroutine(i, ok) =>
      System(s.engine, StreamStep(StreamState(s.engine.counts, s.runners), Advance(i, ok)).runners)
  }

  ghost function SystemRun(s: System, steps: seq<SystemStep>): System {
    if steps == [] then s else SystemNext(SystemRun(s, steps[..|steps| - 1]), steps[|steps| - 1])
  }

  ghost function View(s: System): StreamState {
    StreamState(s.engine.counts, s.runners)
  }

  lemma RunOfOne(s: StreamState, a: Action)
    ensures StreamRun(s, [a]) == StreamStep(s, a)
    ensures StreamRun(s, []) == s
  {
    assert [a][..0] == [];
  }

  /** The counts of the engine are those of the stream manager after these calls. */
  lemma CallsMakeCounts(s: System, ev: Event)
    ensures View(SystemNext(s, Serve(ev))) == StreamRun(View(s), StreamCalls(s.engine, ev))
  {
    hide Apply, Releases, AddCount, RemoveCount, UpdateSellable, TickAll, StreamRun;
    var v := View(s);
    match ev
    case AddNewTrade(t, _, _) => RunOfOne(v, Add(t.symbol));
    case RestoreTrade(t) =>
      SellableFrame(s.engine.info, t);
      RunOfOne(v, Add(t.symbol));
    case ExecutionReport(r, time, oracle) =>
      if Route(s.engine, r).Some? && Route(s.engine, r).value in s.engine.trades {
        RunOfOne(v, Remove(s.engine.trades[Route(s.engine, r).value].state.symbol));
      } else {
        RunOfOne(v, Add(""));
      }
    case OnTrade(id, c) =>
      if id in s.engine.trades { RunOfOne(v, Remove(s.engine.trades[id].state.symbol)); } else { RunOfOne(v, Add("")); }
    case _ => RunOfOne(v, Add(""));
  }

  lemma NextKeepsServed(s: System, step: SystemStep)
    requires AllServed(View(s))
    ensures AllServed(View(SystemNext(s, step)))
  {
    match step
    case Serve(ev) =>
      CallsMakeCounts(s, ev);
      NoLostStream(View(s), StreamCalls(s.engine, ev));
    case RunGoroutine(i, ok) => StepKeepsServed(View(s), Advance(i, ok));
  }

  /** The events of a run keep the assumptions of the laws on counts: fresh IDs, nothing harmful. */
  ghost predicate Orderly(s: System, steps: seq<SystemStep>) {
    forall k | 0 <= k < |steps| && steps[k].Serve? ::
      var e := SystemRun(s, steps[..k]).engine;
      FreshIds(e, steps[k].event) && HarmlessEvent(e, steps[k].event)
  }

  ghost predicate EveryOpenTradeServed(s: System) {
    forall id | id in s.engine.trades && !IsDone(s.engine.trades[id].state) ::
      Served(View(s), ToLower(s.engine.trades[id].state.symbol))
  }

  lemma CountedAndServed(s: System)
    requires ExactlyCounted(s.engine) && AllServed(View(s))
    ensures EveryOpenTradeServed(s)
  {
    hide OpenTrades, Served, ToLower;
    forall id | id in s.engine.trades && !IsDone(s.engine.trades[id].state)
      ensures Served(View(s), ToLower(s.engine.trades[id].state.symbol))
    {
      var name := ToLower(s.engine.trades[id].state.symbol);
      OpenIsCounted(s.engine, id, name);
      assert RefCount(s.engine.counts, name) > 0;
    }
  }

  lemma {:induction false} SystemKeeps(s: System, steps: seq<SystemStep>)
    requires ExactlyCounted(s.engine) && AllServed(View(s)) && Orderly(s, steps)
    ensures var u := SystemRun(s, steps);
            ExactlyCounted(u.engine) && AllServed(View(u))
  {
    hide SystemNext, ExactlyCounted, AllServed, FreshIds, HarmlessEvent;
    if steps != [] {
      var n := |steps| - 1;
      var before := SystemRun(s, steps[..n]);
      assert forall k | 0 <= k < n :: steps[..n][..k] == steps[..k];
      SystemKeeps(s, steps[..n]);
      NextKeepsServed(before, steps[n]);
      NextKeepsCounts(before, steps[n]);
    }
  }

  lemma NextKeepsCounts(s: System, step: SystemStep)
    requires ExactlyCounted(s.engine)
    requires step.Serve? ==> FreshIds(s.engine, step.event) && HarmlessEvent(s.engine, step.event)
    ensures ExactlyCounted(SystemNext(s, step).engine)
  {
    hide Step, ExactlyCounted, FreshIds, HarmlessEvent, StreamRun, StreamCalls, StreamStep;
    if step.Serve? { StepExactIffHarmless(s.engine, step.event); }
  }

  /** From the start of the service, whatever its events and the steps of its goroutines are and however they
      interleave: as long as no closed trade is reopened and none drops a stream still needed, the symbol of every open
      trade has a goroutine that has not decided to exit. */
  lemma OpenTradesAreServed(info: ExchangeInfo, steps: seq<SystemStep>)
    requires Orderly(System(StartEngine(info), []), steps)
    ensures EveryOpenTradeServed(SystemRun(System(StartEngine(info), []), steps))
  {
    hide SystemRun, ExactlyCounted, EveryOpenTradeServed, Orderly;
    var s := System(StartEngine(info), []);
    EmptyEngineCounted(info);
    SystemKeeps(s, steps);
    CountedAndServed(SystemRun(s, steps));
  }
}
