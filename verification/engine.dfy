/** The trade service as a state machine over all its trades: the index by client ID, the stream counts, and one
    step per report, price tick, command, new, restored or archived trade (`go/tradeservice/tradeservice.go`). */
module Engines {
  import opened TradeModel
  import opened Pricing
  import opened TradeOps
  import Streams

  datatype Engine = Engine(
    info: ExchangeInfo,
    trades: map<string, Tracked>,
    index: map<string, string>,
    counts: Streams.Counts
  )

  datatype Event =
    | AddNewTrade(state: TradeState, newId: string, ticker: Option<real>)
    | RestoreTrade(state: TradeState)
    | ExecutionReport(report: Report, time: int, oracle: SellOracle)
    | LastTrade(symbol: string, price: real, oracles: string -> TickOracle)
    | OnTrade(id: string, command: Command)
    | ArchiveTrade(id: string, saved: bool)

  /** `findTradeForReport`: by the client ID of the report, then by its original client ID. */
  function Route(e: Engine, r: Report): Option<string> {
    if r.clientOrderId in e.index then Some(e.index[r.clientOrderId])
    else if r.originalClientOrderId in e.index then Some(e.index[r.originalClientOrderId])
    else None
  }

  function Indexed(index: map<string, string>, ids: set<string>, id: string): map<string, string> {
    index + map c | c in ids :: id
  }

  /** Whether an operation takes the trade's reference off its stream. */
  predicate Releases(s: TradeState, op: Op, u: TradeState) {
    match op
    case ReportOp(_, _, _) => ReportCloses(u)
    case TickOp(_, _, _) => false
    case CommandOp(c) =>
      match c
      case Fail(_) => true
      case Abandon(_) => !IsDone(s)
      case Recover(_, _) => s.status == PendingSell && u.status == Done
      case _ => false
  }

  /** One operation on one trade. */
  function Commit(e: Engine, id: string, op: Op): Engine
    requires id in e.trades
  {
    var t := e.trades[id];
    var u := Apply(e.info, t, op);
    Engine(e.info, e.trades[id := u], Indexed(e.index, u.state.clientOrderIds, id),
           if Releases(t.state, op, u.state) then Streams.RemoveCount(e.counts, t.state.symbol) else e.counts)
  }

  function NewTradeId(s: TradeState, newId: string): string {
    if s.tradeId == "" then newId else s.tradeId
  }

  function AddedTrade(s: TradeState, newId: string, ticker: Option<real>): TradeState {
    s.(tradeId := NewTradeId(s, newId), status := New,
       lastPrice := if ticker.Some? && s.lastPrice == 0.0 then ticker.value else s.lastPrice)
  }

  /** A trade that enters the service. */
  function Enter(e: Engine, s: TradeState): Engine {
    Engine(e.info, e.trades[s.tradeId := Tracked(s, [])], Indexed(e.index, s.clientOrderIds, s.tradeId),
           if IsDone(s) then e.counts else Streams.AddCount(e.counts, s.symbol))
  }

  function Leave(e: Engine, id: string): Engine
    requires id in e.trades
  {
    Engine(e.info, e.trades - {id}, e.index - e.trades[id].state.clientOrderIds, e.counts)
  }

  /** The index a set of trades calls for, when no client ID has two owners. */
  ghost function Owners(trades: map<string, Tracked>): map<string, string> {
    map c | c in AllIds(trades) :: OwnerOf(trades, c)
  }

  ghost function AllIds(trades: map<string, Tracked>): set<string> {
    set id, c | id in trades && c in trades[id].state.clientOrderIds :: c
  }

  ghost function OwnerOf(trades: map<string, Tracked>, c: string): string
    requires c in AllIds(trades)
  {
    var id :| id in trades && c in trades[id].state.clientOrderIds;
    id
  }

  function TickAll(trades: map<string, Tracked>, symbol: string, price: real, oracles: string -> TickOracle)
    : map<string, Tracked>
  {
    map id | id in trades :: OnTick(trades[id], symbol, price, oracles(id))
  }

  ghost function Step(e: Engine, ev: Event): Engine {
    match ev
    case AddNewTrade(s, newId, ticker) => Enter(e, AddedTrade(s, newId, ticker))
    case RestoreTrade(s) => Enter(e, UpdateSellable(e.info, s))
    case ExecutionReport(r, time, oracle) =>
      (match Route(e, r)
       case None => e
       case Some(id) => if id in e.trades then Commit(e, id, ReportOp(r, time, oracle)) else e)
    case LastTrade(symbol, price, oracles) =>
      var trades := TickAll(e.trades, symbol, price, oracles);
      e.(trades := trades, index := e.index + Owners(trades))
    case OnTrade(id, c) => if id in e.trades then Commit(e, id, CommandOp(c)) else e
    case ArchiveTrade(id, saved) =>
      if id in e.trades && IsDone(e.trades[id].state) && saved then Leave(e, id) else e
  }

  ghost function Run(e: Engine, events: seq<Event>): Engine {
    if events == [] then e else Step(Run(e, events[..|events| - 1]), events[|events| - 1])
  }
}
