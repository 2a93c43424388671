/**
 * The backtest simulation: a fold over candle indices carrying the open position,
 * the running capital and the engine's accumulated results.
 */
module Backtest {
  import opened Wrappers
  import opened Agent

  /** First candle index the simulation looks at. */
  const WarmUp: nat := 20
  /** The agent is consulted only on candle indices divisible by this. */
  const EntryEvery: nat := 5
  const StopLossFactor: real := 0.98
  const TakeProfitFactor: real := 1.04
  /** Confidence must be strictly above this to open a position. */
  const MinConfidence: real := 0.7
  /** Share of current capital invested by each entry. */
  const StakeFraction: real := 0.1
  const NoDataMessage: string := "No data found"
  /** What `str(e)` reads when the success log calls `len` on a `None` frame. */
  const NoneLenMessage: string := "object of type 'NoneType' has no len()"

  datatype Candle = Candle(time: string, close: real)

  datatype Side = Buy | Sell

  datatype Position = Position(side: Side, entryPrice: real, amount: real, time: string)

  datatype ExitReason = StopLoss | TakeProfit

  datatype ClosedTrade = ClosedTrade(
    entryTime: string,
    exitTime: string,
    side: Side,
    entryPrice: real,
    exitPrice: real,
    pnl: real,
    reason: ExitReason)

  datatype EquityPoint = EquityPoint(time: string, equity: real)

  /** The engine's `results` record; it lives as long as the engine, across runs. */
  datatype Results = Results(
    totalTrades: nat,
    wins: nat,
    losses: nat,
    totalPnl: real,
    equityCurve: seq<EquityPoint>,
    trades: seq<ClosedTrade>)

  /** Loop state of one run. */
  datatype Sim = Sim(capital: real, position: Option<Position>, results: Results)

  /**
   * Outcome of the historical-data fetch: an exception, the `None` the exchange
   * client returns after catching its own error, or the candles.
   */
  datatype Fetch = FetchRaised(error: string) | FetchNone | Fetched(candles: seq<Candle>)

  datatype Response = Error(message: string) | Done(results: Results)

  /** The engine's results after a run, and what the run returned. */
  datatype RunResult = RunResult(engine: Results, response: Response)

  predicate PositivePrices(candles: seq<Candle>) {
    forall k :: 0 <= k < |candles| ==> candles[k].close > 0.0
  }

  /** The results record built by the engine's constructor. */
  function Fresh(): (r: Results)
    ensures r.trades == [] && r.equityCurve == [] && r.totalPnl == 0.0
    ensures r.totalTrades == r.wins + r.losses == |r.trades|
  {
    Results(0, 0, 0, 0.0, [], [])
  }

  /** Number of trades with strictly positive pnl. */
  function Wins(ts: seq<ClosedTrade>): (n: nat)
    ensures n <= |ts|
  {
    if |ts| == 0 then 0
    else Wins(ts[..|ts| - 1]) + (if ts[|ts| - 1].pnl > 0.0 then 1 else 0)
  }

  function SumPnl(ts: seq<ClosedTrade>): real {
    if |ts| == 0 then 0.0 else SumPnl(ts[..|ts| - 1]) + ts[|ts| - 1].pnl
  }

  function SideOf(action: Option<string>): (side: Option<Side>)
    ensures side == Some(Buy) <==> action == Some("BUY")
    ensures side == Some(Sell) <==> action == Some("SELL")
  {
    if action == Some("BUY") then Some(Buy)
    else if action == Some("SELL") then Some(Sell)
    else None
  }

  /** The side to open for a decoded decision: BUY or SELL with confidence (0 when absent) above the threshold. */
  function EntrySide(d: Parsed): Option<Side> {
    if d.confidence.GetOr(0.0) > MinConfidence then SideOf(d.action) else None
  }

  /** Profit or loss of closing `p` at candle `c`. */
  function Pnl(p: Position, c: Candle): real {
    (c.close - p.entryPrice) * p.amount
  }

  /** Closes `p` at candle `c`, booking the pnl into capital and results. */
  function Close(s: Sim, p: Position, c: Candle, reason: ExitReason): (r: Sim)
    ensures r.position.None?
  {
    var pnl := Pnl(p, c);
    var rs := s.results;
    var capital := s.capital + pnl;
    Sim(capital, None,
        Results(rs.totalTrades + 1,
                rs.wins + (if pnl > 0.0 then 1 else 0),
                rs.losses + (if pnl > 0.0 then 0 else 1),
                rs.totalPnl + pnl,
                rs.equityCurve + [EquityPoint(c.time, capital)],
                rs.trades + [ClosedTrade(p.time, c.time, p.side, p.entryPrice, c.close, pnl, reason)]))
  }

  /** Exit check for an open position `p` at candle `c`. */
  function ExitStep(s: Sim, p: Position, c: Candle): (r: Sim)
    requires s.position == Some(p)
    ensures r == s || r.position.None?
    ensures r.position.None? <==> p.side == Buy && (c.close <= p.entryPrice * 0.98 || c.close >= p.entryPrice * 1.04)
    ensures r.position.None? ==>
              var pnl := Pnl(p, c);
              && r.capital == s.capital + pnl
              && r.results.trades == s.results.trades
                   + [ClosedTrade(p.time, c.time, Buy, p.entryPrice, c.close, pnl,
                                  if c.close <= p.entryPrice * 0.98 then StopLoss else TakeProfit)]
              && r.results.equityCurve == s.results.equityCurve + [EquityPoint(c.time, r.capital)]
              && r.results.totalTrades == s.results.totalTrades + 1
              && r.results.totalPnl == s.results.totalPnl + pnl
              && (pnl > 0.0 ==> r.results.wins == s.results.wins + 1 && r.results.losses == s.results.losses)
              && (pnl <= 0.0 ==> r.results.losses == s.results.losses + 1 && r.results.wins == s.results.wins)
  {
    if p.side == Buy && c.close <= p.entryPrice * StopLossFactor then Close(s, p, c, StopLoss)
    else if p.side == Buy && c.close >= p.entryPrice * TakeProfitFactor then Close(s, p, c, TakeProfit)
    else s
  }

  /** Entry check with no open position, for the agent's answer `d` (if any) at candle `c`. */
  function EntryStep(s: Sim, c: Candle, i: nat, d: Option<Parsed>): (r: Sim)
    requires s.position.None? && c.close > 0.0
    ensures r.capital == s.capital && r.results == s.results
    ensures r.position.Some? <==>
              i % 5 == 0 && d.Some? && d.value.action in {Some("BUY"), Some("SELL")}
              && d.value.confidence.GetOr(0.0) > 0.7
    ensures r.position.Some? ==>
              var p := r.position.value;
              && p.entryPrice == c.close && p.time == c.time
              && p.amount * c.close == 0.1 * s.capital
              && (p.side == Buy <==> d.value.action == Some("BUY"))
  {
    if i % EntryEvery != 0 || d.None? then s
    else
      match EntrySide(d.value)
      case None => s
      case Some(side) =>
        Sim(s.capital, Some(Position(side, c.close, s.capital * StakeFraction / c.close, c.time)), s.results)
  }

  /**
   * One candle of the simulation loop: exit check for an open position, otherwise
   * (every fifth candle) an entry decision from the agent's answer `call`.
   */
  function Step(s: Sim, c: Candle, i: nat, call: AgentCall, parse: Parser): (r: Sim)
    requires c.close > 0.0
    // an open position is either closed or left alone, with nothing else changing
    ensures s.position.Some? ==> r == s || r.position.None?
    // a BUY closes exactly at the stop-loss or take-profit threshold; a SELL never closes
    ensures s.position.Some? ==>
              (r.position.None? <==>
                 s.position.value.side == Buy
                 && (c.close <= s.position.value.entryPrice * 0.98 || c.close >= s.position.value.entryPrice * 1.04))
    // each close books one trade and one equity point
    ensures s.position.Some? && r.position.None? ==>
              var p := s.position.value;
              var pnl := Pnl(p, c);
              && r.capital == s.capital + pnl
              && r.results.trades == s.results.trades
                   + [ClosedTrade(p.time, c.time, Buy, p.entryPrice, c.close, pnl,
                                  if c.close <= p.entryPrice * 0.98 then StopLoss else TakeProfit)]
              && r.results.equityCurve == s.results.equityCurve + [EquityPoint(c.time, r.capital)]
              && r.results.totalTrades == s.results.totalTrades + 1
              && r.results.totalPnl == s.results.totalPnl + pnl
              && (pnl > 0.0 ==> r.results.wins == s.results.wins + 1 && r.results.losses == s.results.losses)
              && (pnl <= 0.0 ==> r.results.losses == s.results.losses + 1 && r.results.wins == s.results.wins)
    // an entry happens exactly on a fifth candle with a confident BUY or SELL answer
    ensures s.position.None? ==>
              var d := Interpret(call, parse);
              r.position.Some? <==>
                i % 5 == 0 && d.Some? && d.value.action in {Some("BUY"), Some("SELL")}
                && d.value.confidence.GetOr(0.0) > 0.7
    // an entry invests 10% of capital at the candle's close and changes nothing else
    ensures s.position.None? ==> r.capital == s.capital && r.results == s.results
    ensures s.position.None? && r.position.Some? ==>
              var p := r.position.value;
              && p.entryPrice == c.close && p.time == c.time
              && p.amount * c.close == 0.1 * s.capital
              && (p.side == Buy <==> Interpret(call, parse).value.action == Some("BUY"))
  {
    if s.position.Some? then ExitStep(s, s.position.value, c)
    else EntryStep(s, c, i, Interpret(call, parse))
  }

  /** The loop `for i in range(from, len(candles))`. */
  function Simulate(s: Sim, candles: seq<Candle>, from: nat, agent: nat -> AgentCall, parse: Parser): Sim
    requires PositivePrices(candles)
    decreases |candles| - from
  {
    if from >= |candles| then s
    else Simulate(Step(s, candles[from], from, agent(from), parse), candles, from + 1, agent, parse)
  }

  // ---------------------------------------------------------------------
  // Bookkeeping invariant

  function LastEquity(r: Results): real
    requires |r.equityCurve| > 0
  {
    r.equityCurve[|r.equityCurve| - 1].equity
  }

  /**
   * `r` is `base` after one run that started from equity point `start`: base's
   * trades are kept, base's equity curve is kept and followed by `start` and one
   * point per new trade, the counters and pnl grew by exactly the new trades, and
   * the last equity point is the starting capital plus the new trades' pnl.
   */
  predicate Extends(base: Results, r: Results, start: EquityPoint) {
    && |base.trades| <= |r.trades| && r.trades[..|base.trades|] == base.trades
    && |base.equityCurve| < |r.equityCurve| && r.equityCurve[..|base.equityCurve| + 1] == base.equityCurve + [start]
    && (var added := r.trades[|base.trades|..];
        && |r.equityCurve| == |base.equityCurve| + 1 + |added|
        && r.totalTrades == base.totalTrades + |added|
        && r.wins == base.wins + Wins(added)
        && r.losses == base.losses + (|added| - Wins(added))
        && r.totalPnl == base.totalPnl + SumPnl(added)
        && LastEquity(r) == start.equity + SumPnl(added))
  }

  /** The loop invariant: results extend the engine's and the last equity point is the current capital. */
  predicate Ledger(base: Results, start: EquityPoint, s: Sim) {
    Extends(base, s.results, start) && LastEquity(s.results) == s.capital
  }

  lemma AppendOne(xs: seq<ClosedTrade>, t: ClosedTrade)
    ensures Wins(xs + [t]) == Wins(xs) + (if t.pnl > 0.0 then 1 else 0)
    ensures SumPnl(xs + [t]) == SumPnl(xs) + t.pnl
  {
    assert (xs + [t])[..|xs|] == xs;
  }

  lemma StepKeepsLedger(base: Results, start: EquityPoint, s: Sim, c: Candle, i: nat, call: AgentCall, parse: Parser)
    requires c.close > 0.0
    requires Ledger(base, start, s)
    ensures Ledger(base, start, Step(s, c, i, call, parse))
  {
    var r := Step(s, c, i, call, parse);
    if s.position.Some? && r.position.None? {
      var n := |base.trades|;
      var added := s.results.trades[n..];
      var t := r.results.trades[|r.results.trades| - 1];
      assert r.results.trades == s.results.trades + [t];
      assert r.results.trades[..n] == s.results.trades[..n];
      assert r.results.trades[n..] == added + [t];
      assert r.results.equityCurve[..|base.equityCurve| + 1] == s.results.equityCurve[..|base.equityCurve| + 1];
      AppendOne(added, t);
    }
  }

  /** The invariant holds at every candle of the loop. */
  lemma {:induction false} SimulateKeepsLedger(base: Results, start: EquityPoint, s: Sim, candles: seq<Candle>,
                                               from: nat, agent: nat -> AgentCall, parse: Parser)
    requires PositivePrices(candles)
    requires Ledger(base, start, s)
    ensures Ledger(base, start, Simulate(s, candles, from, agent, parse))
    decreases |candles| - from
  {
    if from < |candles| {
      var next := Step(s, candles[from], from, agent(from), parse);
      StepKeepsLedger(base, start, s, candles[from], from, agent(from), parse);
      SimulateKeepsLedger(base, start, next, candles, from + 1, agent, parse);
    }
  }

  /** The loop never drops a trade: the trades it starts with stay a prefix of its trades. */
  lemma {:induction false} SimulateKeepsTrades(s: Sim, candles: seq<Candle>, from: nat, agent: nat -> AgentCall, parse: Parser)
    requires PositivePrices(candles)
    ensures var ts := Simulate(s, candles, from, agent, parse).results.trades;
            |s.results.trades| <= |ts| && ts[..|s.results.trades|] == s.results.trades
    decreases |candles| - from
  {
    if from < |candles| {
      var next := Step(s, candles[from], from, agent(from), parse);
      SimulateKeepsTrades(next, candles, from + 1, agent, parse);
      var ts := Simulate(next, candles, from + 1, agent, parse).results.trades;
      assert next.results.trades[..|s.results.trades|] == s.results.trades;
      assert ts[..|s.results.trades|] == ts[..|next.results.trades|][..|s.results.trades|];
    }
  }

  /** The decoded answer asks for an entry: BUY or SELL with confidence (0 when absent) above the threshold. */
  predicate Opens(d: Option<Parsed>) {
    d.Some? && EntrySide(d.value).Some?
  }

  /**
   * With no position open and no fifth candle of the range answered with an
   * entry, the loop changes nothing: every other candle's answer is ignored.
   */
  lemma {:induction false} QuietAgentIdle(s: Sim, candles: seq<Candle>, from: nat, agent: nat -> AgentCall, parse: Parser)
    requires PositivePrices(candles) && s.position.None?
    requires forall i :: from <= i < |candles| && i % 5 == 0 ==> !Opens(Interpret(agent(i), parse))
    ensures Simulate(s, candles, from, agent, parse) == s
    decreases |candles| - from
  {
    if from < |candles| {
      assert Step(s, candles[from], from, agent(from), parse) == s;
      QuietAgentIdle(s, candles, from + 1, agent, parse);
    }
  }

  /** The run's starting state: no position, and the first candle's equity point appended. */
  function Start(engine: Results, first: Candle, initial: real): (s: Sim)
    ensures Ledger(engine, EquityPoint(first.time, initial), s)
    ensures s.position.None? && s.capital == initial && s.results.trades == engine.trades
  {
    var s := Sim(initial, None, engine.(equityCurve := engine.equityCurve + [EquityPoint(first.time, initial)]));
    assert s.results.trades[|engine.trades|..] == [];
    assert s.results.equityCurve[..|engine.equityCurve| + 1] == s.results.equityCurve;
    s
  }

  /**
   * `BacktestEngine.run`: fetch errors and empty data leave the engine untouched.
   * The success log inside the fetch `try` takes `len` of the frame, so a `None`
   * frame raises there and is reported with the `TypeError` text;
   * otherwise the loop runs from candle 20 and its results are both kept by the
   * engine and returned.
   */
  function Run(engine: Results, fetch: Fetch, initial: real, agent: nat -> AgentCall, parse: Parser): (out: RunResult)
    requires fetch.Fetched? ==> PositivePrices(fetch.candles)
    ensures fetch.FetchRaised? ==> out == RunResult(engine, Error(fetch.error))
    ensures fetch.FetchNone? ==>
              out == RunResult(engine, Error("object of type 'NoneType' has no len()"))
    ensures fetch.Fetched? && |fetch.candles| == 0 ==>
              out == RunResult(engine, Error("No data found"))
    ensures fetch.Fetched? && |fetch.candles| > 0 ==>
              && out.response == Done(out.engine)
              && Extends(engine, out.engine, EquityPoint(fetch.candles[0].time, initial))
  {
    match fetch
    case FetchRaised(e) => RunResult(engine, Error(e))
    case FetchNone => RunResult(engine, Error(NoneLenMessage))
    case Fetched(candles) =>
      if |candles| == 0 then RunResult(engine, Error(NoDataMessage))
      else
        var s0 := Start(engine, candles[0], initial);
        var s := Simulate(s0, candles, WarmUp, agent, parse);
        SimulateKeepsLedger(engine, EquityPoint(candles[0].time, initial), s0, candles, WarmUp, agent, parse);
        RunResult(s.results, Done(s.results))
  }

  /** As written, a failed fetch never gets the "No data found" answer its `df is None` test was meant to give. */
  lemma AsWrittenNoneFetchMessage(engine: Results, initial: real, agent: nat -> AgentCall, parse: Parser)
    ensures Run(engine, FetchNone, initial, agent, parse).response != Error(NoDataMessage)
  {
    assert NoneLenMessage[0] != NoDataMessage[0];
  }

  /**
   * `run` with the `None` test taking effect: a failed fetch and an empty frame
   * both answer "No data found"; everything else is as `Run`.
   */
  function IntendedRun(engine: Results, fetch: Fetch, initial: real, agent: nat -> AgentCall, parse: Parser): (out: RunResult)
    requires fetch.Fetched? ==> PositivePrices(fetch.candles)
    ensures fetch.FetchNone? || (fetch.Fetched? && |fetch.candles| == 0) ==>
              out == RunResult(engine, Error("No data found"))
    ensures !fetch.FetchNone? ==> out == Run(engine, fetch, initial, agent, parse)
  {
    if fetch.FetchNone? then RunResult(engine, Error(NoDataMessage)) else Run(engine, fetch, initial, agent, parse)
  }

  // ---------------------------------------------------------------------
  // Properties of whole runs

  /** On a fresh engine, counters agree with the trade list and capital with total pnl. */
  lemma FreshRunBalanced(candles: seq<Candle>, initial: real, agent: nat -> AgentCall, parse: Parser)
    requires PositivePrices(candles) && |candles| > 0
    ensures var r := Run(Fresh(), Fetched(candles), initial, agent, parse).engine;
            && r.totalTrades == r.wins + r.losses == |r.trades|
            && r.wins == Wins(r.trades)
            && |r.equityCurve| == 1 + r.totalTrades
            && r.totalPnl == SumPnl(r.trades)
            && LastEquity(r) == initial + r.totalPnl
  {
    var r := Run(Fresh(), Fetched(candles), initial, agent, parse).engine;
    assert r.trades[0..] == r.trades;
  }

  /** Without a candle past the warm-up, nothing is traded and only the starting equity point is added. */
  lemma ShortDataNoTrades(engine: Results, candles: seq<Candle>, initial: real, agent: nat -> AgentCall, parse: Parser)
    requires PositivePrices(candles) && 0 < |candles| <= 20
    ensures Run(engine, Fetched(candles), initial, agent, parse).engine
            == engine.(equityCurve := engine.equityCurve + [EquityPoint(candles[0].time, initial)])
  {
  }

  /** Once a SELL is open nothing changes any more: it is never closed and blocks every entry. */
  lemma {:induction false} SellNeverCloses(s: Sim, candles: seq<Candle>, from: nat, agent: nat -> AgentCall, parse: Parser)
    requires PositivePrices(candles)
    requires s.position.Some? && s.position.value.side == Sell
    ensures Simulate(s, candles, from, agent, parse) == s
    decreases |candles| - from
  {
    if from < |candles| {
      SellNeverCloses(s, candles, from + 1, agent, parse);
    }
  }

  /**
   * The loop starts at candle 20 and pairs it with the agent's answer for index 20:
   * a confident BUY there, followed by a close at or below the stop-loss on
   * candle 21, is the run's first new trade.
   */
  lemma WarmUpCandleConsulted(engine: Results, candles: seq<Candle>, initial: real, agent: nat -> AgentCall, parse: Parser)
    requires PositivePrices(candles) && |candles| > 21
    requires var d := Interpret(agent(20), parse);
             d.Some? && d.value.action == Some("BUY") && d.value.confidence.GetOr(0.0) > 0.7
    requires candles[21].close <= candles[20].close * 0.98
    ensures var ts := Run(engine, Fetched(candles), initial, agent, parse).engine.trades;
            && |ts| > |engine.trades|
            && var t := ts[|engine.trades|];
               && t.entryTime == candles[20].time && t.exitTime == candles[21].time && t.side == Buy
               && t.entryPrice == candles[20].close && t.exitPrice == candles[21].close
               && t.reason == StopLoss
  {
    var s2 := WarmUpSteps(engine, candles, initial, agent, parse);
    SimulateKeepsTrades(s2, candles, 22, agent, parse);
  }

  /** The state after candles 20 and 21 of such a run, from which the rest of the loop continues. */
  lemma WarmUpSteps(engine: Results, candles: seq<Candle>, initial: real, agent: nat -> AgentCall, parse: Parser)
    returns (s2: Sim)
    requires PositivePrices(candles) && |candles| > 21
    requires var d := Interpret(agent(20), parse);
             d.Some? && d.value.action == Some("BUY") && d.value.confidence.GetOr(0.0) > 0.7
    requires candles[21].close <= candles[20].close * 0.98
    ensures Run(engine, Fetched(candles), initial, agent, parse).engine == Simulate(s2, candles, 22, agent, parse).results
    ensures var ts := s2.results.trades;
            && |ts| == |engine.trades| + 1 && ts[..|engine.trades|] == engine.trades
            && var t := ts[|engine.trades|];
               && t.entryTime == candles[20].time && t.exitTime == candles[21].time && t.side == Buy
               && t.entryPrice == candles[20].close && t.exitPrice == candles[21].close && t.reason == StopLoss
  {
    var s0 := Start(engine, candles[0], initial);
    s2 := Step(Step(s0, candles[20], 20, agent(20), parse), candles[21], 21, agent(21), parse);
    SimulateTwoSteps(s0, candles, 20, agent, parse);
    EnterThenStop(s0, candles[20], candles[21], agent(20), agent(21), parse);
  }

  /** Two iterations of the loop, unrolled. */
  lemma SimulateTwoSteps(s: Sim, candles: seq<Candle>, from: nat, agent: nat -> AgentCall, parse: Parser)
    requires PositivePrices(candles) && from + 1 < |candles|
    ensures Simulate(s, candles, from, agent, parse)
            == Simulate(Step(Step(s, candles[from], from, agent(from), parse), candles[from + 1], from + 1, agent(from + 1), parse),
                        candles, from + 2, agent, parse)
  {
  }

  /** Two steps from an idle state: a confident BUY on a fifth candle, then a close at the stop-loss. */
  lemma EnterThenStop(s0: Sim, c: Candle, next: Candle, call: AgentCall, call2: AgentCall, parse: Parser)
    requires s0.position.None? && c.close > 0.0 && next.close > 0.0
    requires var d := Interpret(call, parse);
             d.Some? && d.value.action == Some("BUY") && d.value.confidence.GetOr(0.0) > 0.7
    requires next.close <= c.close * 0.98
    ensures var ts := Step(Step(s0, c, 20, call, parse), next, 21, call2, parse).results.trades;
            && |ts| == |s0.results.trades| + 1 && ts[..|s0.results.trades|] == s0.results.trades
            && var t := ts[|s0.results.trades|];
               && t.entryTime == c.time && t.exitTime == next.time && t.side == Buy
               && t.entryPrice == c.close && t.exitPrice == next.close && t.reason == StopLoss
  {
    var s1 := Step(s0, c, 20, call, parse);
    var p := s1.position.value;
    assert p.side == Buy && p.entryPrice == c.close && p.time == c.time && s1.results == s0.results;
    var s2 := Step(s1, next, 21, call2, parse);
    assert s2.results.trades == s0.results.trades + [ClosedTrade(p.time, next.time, Buy, p.entryPrice, next.close, Pnl(p, next), StopLoss)];
  }

  /**
   * A run whose agent never answers a fifth candle past the warm-up with an entry
   * trades nothing: only the starting equity point is added.
   */
  lemma QuietRunNoTrades(engine: Results, candles: seq<Candle>, initial: real, agent: nat -> AgentCall, parse: Parser)
    requires PositivePrices(candles) && |candles| > 0
    requires forall i :: 20 <= i < |candles| && i % 5 == 0 ==> !Opens(Interpret(agent(i), parse))
    ensures Run(engine, Fetched(candles), initial, agent, parse).engine
            == engine.(equityCurve := engine.equityCurve + [EquityPoint(candles[0].time, initial)])
  {
    QuietAgentIdle(Start(engine, candles[0], initial), candles, WarmUp, agent, parse);
  }

  /** A run on an engine that already ran keeps the earlier trades and equity points and adds to its counters. */
  lemma SecondRunAccumulates(c1: seq<Candle>, c2: seq<Candle>, initial: real, agent: nat -> AgentCall, parse: Parser)
    requires PositivePrices(c1) && PositivePrices(c2) && |c1| > 0 && |c2| > 0
    ensures var first := Run(Fresh(), Fetched(c1), initial, agent, parse).engine;
            var second := Run(first, Fetched(c2), initial, agent, parse).engine;
            && second.trades[..|first.trades|] == first.trades
            && second.totalTrades == second.wins + second.losses == |second.trades|
            && |second.equityCurve| == 2 + second.totalTrades
  {
    var first := Run(Fresh(), Fetched(c1), initial, agent, parse).engine;
    FreshRunBalanced(c1, initial, agent, parse);
  }

  // ---------------------------------------------------------------------
  // The agent call as written

  /**
   * The agent call at backtest_engine.py:118 passes four arguments to a method
   * taking three, so every call raises `TypeError`, which the loop's handler swallows.
   */
  function AsWrittenAgent(i: nat): AgentCall {
    Raised("GeminiAgent.analyze_market() takes 4 positional arguments but 5 were given")
  }

  lemma {:induction false} AsWrittenSimulateIdle(s: Sim, candles: seq<Candle>, from: nat, parse: Parser)
    requires PositivePrices(candles) && s.position.None?
    ensures Simulate(s, candles, from, AsWrittenAgent, parse) == s
    decreases |candles| - from
  {
    if from < |candles| {
      AsWrittenSimulateIdle(s, candles, from + 1, parse);
    }
  }

  /** With the agent call as written, a backtest never opens a position and so never trades. */
  lemma AsWrittenBacktestNeverTrades(engine: Results, candles: seq<Candle>, initial: real, parse: Parser)
    requires PositivePrices(candles) && |candles| > 0
    ensures var r := Run(engine, Fetched(candles), initial, AsWrittenAgent, parse).engine;
            r.trades == engine.trades && r.totalTrades == engine.totalTrades
            && r.equityCurve == engine.equityCurve + [EquityPoint(candles[0].time, initial)]
  {
    AsWrittenSimulateIdle(Start(engine, candles[0], initial), candles, WarmUp, parse);
  }
}
