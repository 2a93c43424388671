/**
 * The live trading loop: the decision handling of one loop iteration as a pure
 * function, and the `is_running` flag that starts and stops the loop.
 */
module Trading {
  import opened Wrappers
  import opened Agent
  import opened Records

  const QuoteCurrency: string := "USDT"
  const FundsNote: string := " [SKIPPED: Insufficient Funds]"

  /** Exchange balance as returned by the exchange client: currency -> (field -> amount). */
  type Balance = map<string, map<string, real>>

  datatype LoopConfig = LoopConfig(symbol: string, marketType: string, timeframe: string, investment: real, leverage: int)

  /**
   * What one iteration observes from the outside world: the candle closes (`None`
   * when the fetch failed), the agent's answer, the balance (consulted for BUY only),
   * the ids the database assigns and the current time.
   */
  datatype Observed = Observed(
    closes: Option<seq<real>>,
    call: AgentCall,
    balance: Option<Balance>,
    decisionId: nat,
    tradeId: nat,
    now: int)

  /** What became of a recorded decision. */
  datatype Disposition =
    | NotActionable          // neither BUY nor SELL
    | NoBalance              // BUY, balance fetch gave nothing
    | InsufficientFunds      // BUY, free quote balance below the investment
    | Aborted                // an exception after the decision was stored
    | Executed(trade: Trade)

  datatype StepOutcome =
    | NoMarketData                                          // retried after a pause
    | NoDecision                                            // agent raised, said nothing, or unparseable
    | Recorded(decision: Decision, disposition: Disposition)

  /** Python truthiness of an optional float. */
  predicate TruthyReal(x: Option<real>) {
    x.Some? && x.value != 0.0
  }

  /** Python truthiness of the balance dict. */
  predicate HasBalance(b: Option<Balance>) {
    b.Some? && |b.value| > 0
  }

  /** `balance.get('USDT', {}).get('free', 0.0)`. */
  function FreeQuote(b: Balance): (free: real)
    ensures QuoteCurrency in b && "free" in b[QuoteCurrency] ==> free == b[QuoteCurrency]["free"]
    ensures !(QuoteCurrency in b && "free" in b[QuoteCurrency]) ==> free == 0.0
  {
    if QuoteCurrency in b && "free" in b[QuoteCurrency] then b[QuoteCurrency]["free"] else 0.0
  }

  /** The stored decision built from the agent's answer, not yet executed. */
  function NewDecision(cfg: LoopConfig, d: Parsed, id: nat, now: int): Decision {
    Decision(id, now, cfg.symbol, d.action, d.confidence, d.entryPrice, d.stopLoss, d.takeProfit, d.reasoning, false)
  }

  /** Places an actionable decision: the BUY balance gate, then the trade record. */
  function Execute(cfg: LoopConfig, dec: Decision, closes: seq<real>, obs: Observed): StepOutcome
    requires dec.action in {Some("BUY"), Some("SELL")}
  {
    if dec.action == Some("BUY") && !HasBalance(obs.balance) then
      Recorded(dec, NoBalance)
    else if dec.action == Some("BUY") && FreeQuote(obs.balance.value) < cfg.investment then
      if dec.reasoning.Some? then
        Recorded(dec.(reasoning := Some(dec.reasoning.value + FundsNote)), InsufficientFunds)
      else
        // appending to a missing reasoning raises; the loop's handler catches it
        Recorded(dec, Aborted)
    else if !TruthyReal(dec.entryPrice) && |closes| == 0 then
      // `ohlcv.iloc[-1]` on an empty frame raises
      Recorded(dec, Aborted)
    else
      var price := if TruthyReal(dec.entryPrice) then dec.entryPrice.value else closes[|closes| - 1];
      var t := Trade(obs.tradeId, cfg.symbol, cfg.marketType, cfg.timeframe, dec.action.value,
                     cfg.investment, price, obs.now, None, None, None, Open, Some(dec.id));
      Recorded(dec.(executed := true), Executed(t))
  }

  /** The body of one iteration of the trading loop. */
  function LoopStep(cfg: LoopConfig, obs: Observed, parse: Parser): (out: StepOutcome)
    ensures obs.closes.None? <==> out == NoMarketData
    ensures obs.closes.Some? ==> (out == NoDecision <==> Interpret(obs.call, parse).None?)
    // a recorded decision carries the answer's fields; only its reasoning and executed flag may change
    ensures out.Recorded? ==>
              var d := Interpret(obs.call, parse).value;
              && out.decision.(reasoning := d.reasoning, executed := false)
                 == NewDecision(cfg, d, obs.decisionId, obs.now)
              && (out.decision.executed <==> out.disposition.Executed?)
    // HOLD or anything else: recorded, never executed
    ensures out.Recorded? ==>
              (out.disposition == NotActionable <==> out.decision.action !in {Some("BUY"), Some("SELL")})
    // the balance gate applies to BUY only
    ensures out.Recorded? && out.decision.action == Some("SELL") ==>
              out.disposition.Executed? || out.disposition == Aborted
    ensures out.Recorded? && out.decision.action == Some("BUY") && !HasBalance(obs.balance) ==>
              out.disposition == NoBalance && out.decision.reasoning == Interpret(obs.call, parse).value.reasoning
    ensures out.Recorded? && out.decision.action == Some("BUY") && HasBalance(obs.balance)
            && FreeQuote(obs.balance.value) < cfg.investment ==>
              var why := Interpret(obs.call, parse).value.reasoning;
              && (why.Some? ==> out.disposition == InsufficientFunds
                                && out.decision.reasoning == Some(why.value + " [SKIPPED: Insufficient Funds]"))
              && (why.None? ==> out.disposition == Aborted)
    ensures out.Recorded? && out.disposition == NoBalance ==>
              out.decision.action == Some("BUY") && !HasBalance(obs.balance)
    // a SELL, or a BUY with a balance covering the investment, creates a trade unless
    // the entry price is falsy and there is no candle to take it from
    ensures out.Recorded?
            && (out.decision.action == Some("SELL")
                || (out.decision.action == Some("BUY") && HasBalance(obs.balance)
                    && FreeQuote(obs.balance.value) >= cfg.investment))
            && (TruthyReal(out.decision.entryPrice) || |obs.closes.value| > 0) ==>
              out.disposition.Executed?
    // the only ways an actionable decision is aborted after it was stored
    ensures out.Recorded? && out.disposition == Aborted ==>
              || (out.decision.action == Some("BUY") && HasBalance(obs.balance)
                  && FreeQuote(obs.balance.value) < cfg.investment && out.decision.reasoning.None?)
              || (out.decision.action in {Some("BUY"), Some("SELL")}
                  && !TruthyReal(out.decision.entryPrice) && |obs.closes.value| == 0)
    // the stored reasoning is the answer's, except for the insufficient-funds note
    ensures out.Recorded? && !out.disposition.InsufficientFunds? ==>
              out.decision.reasoning == Interpret(obs.call, parse).value.reasoning
    ensures out.Recorded? && out.disposition.InsufficientFunds? ==>
              out.decision.action == Some("BUY") && HasBalance(obs.balance)
              && FreeQuote(obs.balance.value) < cfg.investment
    // a created trade: OPEN, the decision's action and id, the configured amount,
    // the decision's entry price when truthy and otherwise the last close
    ensures out.Recorded? && out.disposition.Executed? ==>
              var t := out.disposition.trade;
              var e := out.decision.entryPrice;
              && t.status == "OPEN" && Some(t.action) == out.decision.action
              && t.action in {"BUY", "SELL"}
              && t.amount == cfg.investment && t.decisionId == Some(out.decision.id)
              && t.profitLoss.None? && t.exitPrice.None?
              && (e.Some? && e.value != 0.0 ==> t.entryPrice == e.value)
              && (!(e.Some? && e.value != 0.0) ==>
                    |obs.closes.value| > 0 && t.entryPrice == obs.closes.value[|obs.closes.value| - 1])
    // and the rest of the row: the new id, the configured symbol, market type and
    // timeframe, the current time and no exit
    ensures out.Recorded? && out.disposition.Executed? ==>
              var t := out.disposition.trade;
              t == Trade(obs.tradeId, cfg.symbol, cfg.marketType, cfg.timeframe, t.action, cfg.investment,
                         t.entryPrice, obs.now, None, None, None, "OPEN", Some(out.decision.id))
  {
    match obs.closes
    case None => NoMarketData
    case Some(closes) =>
      match Interpret(obs.call, parse)
      case None => NoDecision
      case Some(d) =>
        var dec := NewDecision(cfg, d, obs.decisionId, obs.now);
        if dec.action in {Some("BUY"), Some("SELL")} then Execute(cfg, dec, closes, obs)
        else Recorded(dec, NotActionable)
  }

  /** A SELL never looks at the balance. */
  lemma SellIgnoresBalance(cfg: LoopConfig, obs: Observed, other: Option<Balance>, parse: Parser)
    requires obs.closes.Some? && Interpret(obs.call, parse).Some?
    requires Interpret(obs.call, parse).value.action == Some("SELL")
    ensures LoopStep(cfg, obs, parse) == LoopStep(cfg, obs.(balance := other), parse)
  {
  }

  // ---------------------------------------------------------------------
  // Running flag and loop

  datatype Orchestrator = Orchestrator(isRunning: bool, config: Option<LoopConfig>)

  /** A loop iteration's observations, or a stop request that arrives between iterations. */
  datatype LoopEvent = Tick(obs: Observed) | StopRequest

  datatype LoopRun = LoopRun(final: Orchestrator, outcomes: seq<StepOutcome>)

  /** `TradingOrchestrator()`: not running, and no configuration until the first start. */
  function Idle(): (o: Orchestrator)
    ensures !o.isRunning && o.config.None?
  {
    Orchestrator(false, None)
  }

  /** `stop()`: clears the flag; the configuration stays. */
  function Stop(o: Orchestrator): (r: Orchestrator)
    ensures !r.isRunning && r.config == o.config
  {
    o.(isRunning := false)
  }

  /** Iterations the loop performs on `events`: the ticks before the first stop request. */
  function TicksBeforeStop(events: seq<LoopEvent>): (n: nat)
    ensures n <= |events|
    ensures forall k :: 0 <= k < n ==> events[k].Tick?
    ensures n < |events| ==> events[n].StopRequest?
  {
    if |events| == 0 || events[0].StopRequest? then 0 else 1 + TicksBeforeStop(events[1..])
  }

  /** `while self.is_running`, over a finite prefix of the loop's events. */
  function RunLoop(o: Orchestrator, cfg: LoopConfig, events: seq<LoopEvent>, parse: Parser): (r: LoopRun)
    ensures r.final.config == o.config
    ensures |r.outcomes| <= |events|
    ensures !o.isRunning ==> r == LoopRun(o, [])
    decreases |events|
  {
    if |events| == 0 || !o.isRunning then LoopRun(o, [])
    else match events[0]
      case StopRequest => RunLoop(Stop(o), cfg, events[1..], parse)
      case Tick(obs) =>
        var rest := RunLoop(o, cfg, events[1..], parse);
        LoopRun(rest.final, [LoopStep(cfg, obs, parse)] + rest.outcomes)
  }

  /**
   * `start_trading_loop`: raises the flag and stores the configuration; when the
   * agents fail to initialise the flag drops again and the loop is never entered.
   */
  function StartTradingLoop(o: Orchestrator, cfg: LoopConfig, agentsReady: bool,
                            events: seq<LoopEvent>, parse: Parser): (r: LoopRun)
    ensures !agentsReady ==> r == LoopRun(Orchestrator(false, Some(cfg)), [])
    ensures r.final.config == Some(cfg)
    ensures agentsReady ==>
              && |r.outcomes| == TicksBeforeStop(events)
              && (r.final.isRunning <==> forall k :: 0 <= k < |events| ==> events[k].Tick?)
  {
    var started := Orchestrator(true, Some(cfg));
    if !agentsReady then LoopRun(Stop(started), [])
    else
      LoopRunsUntilStop(started, cfg, events, parse);
      RunLoop(started, cfg, events, parse)
  }

  /**
   * A running loop performs exactly one iteration per tick before the first stop
   * request, and is stopped afterwards if a stop request came.
   */
  lemma {:induction false} LoopRunsUntilStop(o: Orchestrator, cfg: LoopConfig, events: seq<LoopEvent>, parse: Parser)
    requires o.isRunning
    ensures |RunLoop(o, cfg, events, parse).outcomes| == TicksBeforeStop(events)
    ensures RunLoop(o, cfg, events, parse).final.isRunning <==> forall k :: 0 <= k < |events| ==> events[k].Tick?
    decreases |events|
  {
    if |events| > 0 {
      LoopRunsUntilStop(o, cfg, events[1..], parse);
      if events[0].Tick? {
        assert (forall k :: 0 <= k < |events| ==> events[k].Tick?)
           <==> (forall k :: 0 <= k < |events[1..]| ==> events[1..][k].Tick?) by {
          if forall k :: 0 <= k < |events[1..]| ==> events[1..][k].Tick? {
            forall k | 0 <= k < |events| ensures events[k].Tick? {
              if k > 0 { assert events[k] == events[1..][k - 1]; }
            }
          }
        }
      }
    }
  }

  /** The k-th iteration of a running loop handles the k-th event, which is a tick. */
  lemma {:induction false} LoopStepsInOrder(o: Orchestrator, cfg: LoopConfig, events: seq<LoopEvent>, parse: Parser)
    requires o.isRunning
    ensures forall k :: 0 <= k < |RunLoop(o, cfg, events, parse).outcomes| ==>
              events[k].Tick? && RunLoop(o, cfg, events, parse).outcomes[k] == LoopStep(cfg, events[k].obs, parse)
    decreases |events|
  {
    if |events| > 0 && events[0].Tick? {
      LoopStepsInOrder(o, cfg, events[1..], parse);
      var r := RunLoop(o, cfg, events, parse);
      var rest := RunLoop(o, cfg, events[1..], parse);
      forall k | 0 <= k < |r.outcomes|
        ensures events[k].Tick? && r.outcomes[k] == LoopStep(cfg, events[k].obs, parse)
      {
        if k > 0 { assert r.outcomes[k] == rest.outcomes[k - 1]; assert events[1..][k - 1] == events[k]; }
      }
    }
  }

  // ---------------------------------------------------------------------
  // The agent call as written

  /**
   * The agent call at orchestrator.py:80 omits the `base_tf` argument, so it raises
   * `TypeError` on every iteration and the loop's handler logs it. The predicate says
   * every tick's call raises; the message text plays no part.
   */
  predicate AllCallsAsWritten(events: seq<LoopEvent>) {
    forall k :: 0 <= k < |events| ==> events[k].Tick? ==> events[k].obs.call.Raised?
  }

  /** No iteration in `outs` recorded a decision. */
  predicate NoneRecorded(outs: seq<StepOutcome>)
  {
    forall k :: 0 <= k < |outs| ==> !outs[k].Recorded?
  }

  lemma UndecidedCons(head: StepOutcome, rest: seq<StepOutcome>)
    requires !head.Recorded? && NoneRecorded(rest)
    ensures NoneRecorded([head] + rest)
  {
    var r := [head] + rest;
    forall k | 0 <= k < |r| ensures !r[k].Recorded? {
      if k > 0 { assert r[k] == rest[k - 1]; }
    }
  }

  lemma AsWrittenTail(events: seq<LoopEvent>)
    requires |events| > 0 && AllCallsAsWritten(events)
    ensures AllCallsAsWritten(events[1..])
  {
    forall k | 0 <= k < |events[1..]| ensures events[1..][k].Tick? ==> events[1..][k].obs.call.Raised? {
      assert events[1..][k] == events[k + 1];
    }
  }

  lemma AsWrittenStepUndecided(cfg: LoopConfig, obs: Observed, parse: Parser)
    requires obs.call.Raised?
    ensures !LoopStep(cfg, obs, parse).Recorded?
  {
    assert Interpret(obs.call, parse).None?;
  }

  /** With the call as written, the loop never records a decision and never trades. */
  lemma {:induction false} AsWrittenLoopNeverDecides(o: Orchestrator, cfg: LoopConfig, events: seq<LoopEvent>, parse: Parser)
    requires AllCallsAsWritten(events)
    ensures NoneRecorded(RunLoop(o, cfg, events, parse).outcomes)
    decreases |events|
  {
    if |events| > 0 && o.isRunning {
      AsWrittenTail(events);
      match events[0]
      case StopRequest =>
        AsWrittenLoopNeverDecides(Stop(o), cfg, events[1..], parse);
        assert RunLoop(o, cfg, events, parse) == RunLoop(Stop(o), cfg, events[1..], parse);
      case Tick(obs) =>
        AsWrittenLoopNeverDecides(o, cfg, events[1..], parse);
        assert events[0].obs.call.Raised?;
        AsWrittenStepUndecided(cfg, obs, parse);
        var rest := RunLoop(o, cfg, events[1..], parse);
        UndecidedCons(LoopStep(cfg, obs, parse), rest.outcomes);
        assert RunLoop(o, cfg, events, parse).outcomes == [LoopStep(cfg, obs, parse)] + rest.outcomes;
    }
  }
}
