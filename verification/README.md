# Trading bot backend core, modelled in Dafny

This project models the decision logic of an AI-assisted crypto trading backend.
Every rule is stated as a pure function over immutable datatypes:

- **Backtest engine** (`backtest.dfy`). The simulation is a fold over candle indices from 20 upward. It carries the capital, at most one open position and the engine's accumulated results. A BUY position closes at a 2% stop loss or a 4% take profit. A SELL position is never closed. Entries are considered on every fifth candle and need a BUY or SELL answer with confidence above 0.7. Each entry invests 10% of the current capital.
- **Live trading step** (`trading.dfy`). This is one iteration of the trading loop: markdown-fence cleaning of the agent's answer, the stored decision, the action filter, the BUY balance gate, and the OPEN trade record. It also models the `is_running` flag that starts and stops the loop.
- **Control endpoints** (`routes.dfy`, `configstore.dfy`, `configsave.dfy`). `/start` has an already-running guard, falls back per key to stored credentials, and echoes a config without secrets. `/stop` and `/status` read and clear the flag. `/config` reads the stored map and upserts rows with unique keys, storing `str(value)`. `/logs` lists the newest entries first.
- **History endpoints** (`history.dfy`, `newest.dfy`). Statistics over the trade records, and newest-first listings of trades and decisions limited to `limit` entries. Listed trades carry fields overlaid from the linked decision.
- **Agent boundary** (`agent.dfy`). The AI agent is an oracle: a call either raises or returns text. `json.loads` is an oracle too. Python's `str.replace` and `str.strip` are modelled exactly.

Prices and profit/loss are `real`. The exchange, the AI service, the database, the clock and the ids the database assigns are all inputs to the functions.

No modelled source file implements multi-timeframe backtest job submission or polling: `routes.py` exposes no backtest endpoint.

## Model

| member | source | states |
|---|---|---|
| Backtest.Fresh | backend/app/core/backtest_engine.py:11-18 | A new engine's results have zero counters, zero pnl and empty trade and equity lists. |
| Backtest.Step | backend/app/core/backtest_engine.py:70-139 | A BUY closes exactly when price ≤ 0.98·entry ("Stop Loss", checked first) or price ≥ 1.04·entry ("Take Profit"). A SELL never closes. A close books pnl = (price − entry)·amount into capital, total pnl, trades and equity, and raises exactly one of wins (pnl > 0) or losses. An entry happens exactly when there is no position, i % 5 == 0, the answer is BUY or SELL, and confidence (0 if missing) > 0.7. An entry invests 10% of capital at the close and changes no result field. An agent failure changes nothing. No entry happens on the candle where a close happened. |
| Backtest.SimulateKeepsLedger | backend/app/core/backtest_engine.py:46-105 | At every candle, the results keep the engine's earlier trades and equity points. The counters and pnl grow by exactly the new trades, the equity curve has one start point plus one point per new trade, and the last equity point equals the current capital. |
| Backtest.Run | backend/app/core/backtest_engine.py:30-142 | A fetch exception returns its message. A `None` frame from the exchange client makes the success log's `len` raise, so it returns "object of type 'NoneType' has no len()". An empty frame returns "No data found". All three leave the engine's results untouched. Otherwise the run appends a start point at the first candle's time and the initial capital, and returns the accumulated results that the engine also keeps. |
| Backtest.WarmUpCandleConsulted | backend/app/core/backtest_engine.py:56-139 | The loop starts at candle 20 and consults the agent's answer for index 20 there. If that answer is a BUY with confidence > 0.7 and candle 21 closes at or below 0.98 times candle 20's close, the run's first new trade is a BUY from candle 20's time and close to candle 21's, with reason "Stop Loss". Since this holds for every agent and every later candle, a loop that started at another index or paired candle 20 with another index's answer would not meet it. |
| Backtest.QuietRunNoTrades | backend/app/core/backtest_engine.py:56-139 | If the agent never answers a fifth candle from index 20 on with a BUY or SELL of confidence > 0.7, the run trades nothing and only adds its start point. Answers for other indices are never looked at. |
| Backtest.AsWrittenNoneFetchMessage | backend/app/core/backtest_engine.py:36-44 | As written, a failed fetch never answers "No data found". |
| Backtest.IntendedRun | backend/app/core/backtest_engine.py:43-44 | With the `None` test taking effect, a failed fetch and an empty frame both answer "No data found" and leave the engine untouched. Every other fetch behaves as `Run`. |
| Backtest.FreshRunBalanced | backend/app/core/backtest_engine.py:46-105 | On a fresh engine, total_trades = wins + losses = \|trades\|, wins counts the positive-pnl trades, the equity curve has 1 + total_trades points, and the final capital is initial + total_pnl. |
| Backtest.ShortDataNoTrades | backend/app/core/backtest_engine.py:49-56 | Data with at most 20 candles gives no trades and adds only the starting equity point. |
| Backtest.SellNeverCloses | backend/app/core/backtest_engine.py:71-109 | Once a SELL is open, the rest of the run changes nothing: no close and no new entry. |
| Backtest.SecondRunAccumulates | backend/app/core/backtest_engine.py:11-142 | Results are not reset by `run`. A second run keeps the first run's trades and still satisfies total = wins + losses = \|trades\|, with two start points in the equity curve. |
| Backtest.AsWrittenBacktestNeverTrades | backend/app/core/backtest_engine.py:116-139 | With the agent call as written, which always raises, a run never trades and only adds its start point. |
| Agent.Strip | backend/app/core/orchestrator.py:84 | The result has no leading or trailing whitespace and is the input with a whitespace-only prefix and suffix removed. |
| Agent.CleanFences | backend/app/core/orchestrator.py:84 | The cleaned text never has surrounding whitespace. |
| Agent.CleanFencesIdentity | backend/app/core/orchestrator.py:84 | Text with no backticks and no surrounding whitespace comes back unchanged. |
| Agent.CleanFencesUnwrapsJsonFence | backend/app/core/backtest_engine.py:121 | A backtick-free, trimmed payload wrapped as "```json\n…\n```" is recovered exactly. |
| Agent.Interpret | backend/app/core/orchestrator.py:80-86 | A decision exists only when the call returned non-empty text, and then it is the parse of the fence-cleaned text. |
| Trading.FreeQuote | backend/app/core/orchestrator.py:115-116 | Free balance is balance["USDT"]["free"] when present, else 0.0. |
| Trading.LoopStep | backend/app/core/orchestrator.py:72-149 | Missing data gives no decision. A failed, empty or unparseable answer gives no decision. A recorded decision carries the answer's fields, and executed holds only when a trade is created. Its reasoning is the answer's, except that the insufficient-funds note is appended. An action other than BUY/SELL is never executed. A SELL skips the balance gate. A BUY with a falsy balance is skipped with its reasoning unchanged. A BUY with free USDT below the investment is skipped with " [SKIPPED: Insufficient Funds]" appended. A created trade is OPEN and has no exit, profit/loss or exit time. It carries the new trade id, the configured symbol, market type and timeframe, the current time as its entry time, the decision's action and id, amount = investment, and entry price = the decision's entry price if truthy, else the last close. Conversely, a SELL, or a BUY with a truthy balance and free USDT ≥ the investment, always creates a trade unless the entry price is falsy and there is no candle. The step is skipped for lack of balance only on a BUY with a falsy balance. It is aborted after storing only when a BUY short of funds has no reasoning, or when the entry price is falsy and there is no candle. |
| Trading.SellIgnoresBalance | backend/app/core/orchestrator.py:108-110 | The outcome of a SELL does not depend on the balance. |
| Trading.Idle | backend/app/core/orchestrator.py:10-18 | A new orchestrator is not running and has no configuration. |
| Trading.StartTradingLoop | backend/app/core/orchestrator.py:41-68 | If agent initialisation fails, is_running ends False and the loop runs no iteration. If it succeeds, the loop runs exactly one iteration per tick before the first stop request, and is still running iff no stop came. The configuration is stored either way. |
| Trading.Stop | backend/app/core/orchestrator.py:163-164 | `stop()` clears is_running and keeps the configuration. |
| Trading.RunLoop | backend/app/core/orchestrator.py:68 | A loop that is not running does nothing. It performs at most one iteration per event. |
| Trading.LoopRunsUntilStop | backend/app/core/orchestrator.py:68-164 | A running loop performs exactly one iteration per tick before the first stop request. It is still running afterwards iff no stop request came. |
| Trading.LoopStepsInOrder | backend/app/core/orchestrator.py:68-159 | The k-th iteration of a running loop is the loop body applied to the k-th event, and that event is a tick. |
| Trading.AsWrittenLoopNeverDecides | backend/app/core/orchestrator.py:80-159 | With the agent call as written, which always raises, no iteration records a decision or a trade. |
| Routes.ResolveCredentials | backend/app/api/routes.py:50-65 | Each credential comes from the request when truthy, else from the stored map (absent when not stored). A truthy request credential is never replaced. The store is read iff at least one credential is missing. |
| Routes.EchoConfig | backend/app/api/routes.py:73 | The echoed config contains none of the three credential keys. It holds exactly symbol, market_type, timeframe, investment_amount and leverage with the request's values. |
| Routes.StartTrading | backend/app/api/routes.py:43-73 | When already running, `/start` answers already_running and schedules nothing. Otherwise it schedules the loop with the request's settings and the resolved credentials, and echoes the request's symbol, market type, timeframe, investment amount and leverage (`EchoConfig`), with no secret. |
| Routes.DefaultStartRequest | backend/app/api/routes.py:13-21 | An empty start request has no credentials, investment 100.0 and leverage 1. |
| Routes.FirstStartLaunches | backend/app/api/routes.py:11-73 | For the module-level orchestrator, before any `/start` the status reads false, and the first `/start` always launches the loop with the resolved credentials. |
| Routes.StopTrading | backend/app/api/routes.py:120-127 | After `/stop`, `/status` reports running = false. |
| Routes.GetLogs | backend/app/api/routes.py:98-111 | Exactly min(limit, \|logs\|) log entries, newest timestamp first, all taken from the table, and no entry left out is newer than one returned. |
| ConfigStore.GetConfig | backend/app/api/routes.py:75-80 | With unique keys, the map has exactly the stored keys and each key maps to its row's value. |
| ConfigStore.Upsert | backend/app/api/routes.py:88-94 | Upsert replaces an existing key's value or inserts a missing key. Keys stay unique and the map changes at that key only. |
| ConfigSave.Items | backend/app/api/routes.py:23-31 | Each of the request's eight fields is paired with its own storage key (binance_api_key … leverage) and with `str` of its value when it was sent non-null. The eight keys are distinct. |
| ConfigSave.SaveItems | backend/app/api/routes.py:86-95 | Saving upserts every non-null field in turn. The stored map becomes the old map overridden by the written fields, and keys stay unique. |
| ConfigSave.SaveConfig | backend/app/api/routes.py:82-96 | The stored map is the old map overridden by the request's written fields. For each of the eight fields: when it was sent non-null, its key now holds `str(value)`; otherwise its key keeps its old value, or stays absent. Every other stored key keeps its value, and no key is lost. |
| ConfigStore.IntTextRoundTrip | backend/app/api/routes.py:91 | The stored `str(leverage)` text reads back as the same integer. |
| History.CountIsMultiplicity | backend/app/api/history.py:72-74 | A status count equals that status's multiplicity among all trades. |
| History.TwoStatusesBounded | backend/app/api/history.py:72-74 | OPEN and CLOSED counts together never exceed the total. |
| History.ClosedPnlSplits | backend/app/api/history.py:77-78 | The profit/loss total adds up over any split of the trade list. |
| History.NonClosedIgnored | backend/app/api/history.py:77-78 | Changing the profit/loss of an OPEN (non-CLOSED) trade never changes the total. |
| History.GetStats | backend/app/api/history.py:69-85 | total = \|trades\|. open and closed are the multiplicities of OPEN and CLOSED, and open + closed ≤ total. The total profit/loss is the sum over CLOSED trades with a value, and 0 when there are none. |
| History.Overlay | backend/app/api/history.py:53-59 | Confidence, stop loss and take profit come from the linked decision when it exists. Otherwise the trade passes through with those fields empty. |
| History.GetTrades | backend/app/api/history.py:46-61 | At most `limit` trades, latest entry time first, each overlaid from its decision, all taken from the table, and none left out later than one shown. |
| History.NewestDecisions | backend/app/api/history.py:66 | Exactly min(limit, n) decisions, newest timestamp first, all taken from the table, and none left out newer than one shown. |
| History.GetDecisions | backend/app/api/history.py:31-67 | The response lists the selected decisions iff each has a non-null action, confidence and reasoning, the fields `DecisionResponse` requires. Otherwise response validation fails. |
| History.SerializableTableLists | backend/app/api/history.py:31-67 | When no stored decision has a null required field, the listing succeeds with min(limit, n) rows. |
| History.NewestUnserializableFails | backend/app/api/history.py:31-67 | A decision with a null action, confidence or reasoning that is newer than all others makes every listing with limit > 0 fail. Such a decision arises, for example, when the agent's answer omits `reasoning`. |
| Newest.NewestFirst | backend/app/api/history.py:49 | `ORDER BY time DESC LIMIT n` returns min(n, \|rows\|) rows in descending time order. The result is a sub-multiset of the rows, and every row left out is no later than every row kept. |

## Left out

- Multi-timeframe backtest job submission and polling: no modelled source file implements it.
- Frontend components: rendering, timers and fetch glue only.
- The AI agent and exchange clients (`gemini_agent.py`, `binance_agent.py`): modelled only as oracle results (`AgentCall`, `Fetch`, `Observed`), with `json.loads` as a `Parser` oracle.
- Database plumbing: sessions, commits, ORM relationships and id or timestamp generation. Ids and times are inputs, and `trades`, `gemini_decisions`, `system_logs` and `configurations` are sequences of rows.
- Logging: `print`, `self.log` and the `on_progress` callback produce no modelled state.
- Timing: `asyncio.sleep`, background tasks and the 10 s / 60 s pauses (including that `continue` skips the 60 s sleep) are scheduling, not logic.
- Trading.RunLoop: runs over a finite prefix of the loop's events, and a stop request arriving mid-iteration is modelled as arriving after that iteration.
- Routes.StartTrading: two `/start` calls before the background task raises `is_running` could both schedule a loop. That race is concurrency and is not modelled.
- `DELETE /logs` (`clear_logs`): deletes every log row and has no logic beyond that.
- Backtest.Run: requires every candle close to be positive. With a zero close the source divides by zero in floating point, which the `real` model cannot represent.
- Floating point: prices, pnl and thresholds are exact reals, so IEEE rounding at the 0.98 / 1.04 thresholds is not modelled.
- ConfigSave.SaveConfig: `str` of a float is the `floatText` oracle, because Python's shortest-repr algorithm is not spelled out. Integer rendering is modelled.
- Agent.Parsed: a JSON value of another type is left to the `Parser` oracle. A boolean behaves as 1.0 / 0.0 in Python, so `"confidence": true` passes the backtest's 0.7 gate, and the parser can return `Some(1.0)` for it. Any other type, such as a string, is collapsed to `None`. There the backtest's comparison raises a `TypeError` that is caught, which gives the same outcome as a missing confidence: no entry.
- Trading.FreeQuote: balance amounts are reals. A `None` free amount from the exchange client, which would raise on comparison, is not modelled.
- Routes.GetLogs: `limit` is a `nat`. What a negative limit does depends on the database engine, and `app/core/database.py` is not part of this model.
- History.GetTrades: `limit` is a `nat`, for the same reason.
- History.GetDecisions: `limit` is a `nat`, for the same reason.
- History.GetDecisions: response validation is modelled only for the null required fields. The `market_data` column (`orchestrator.py:100`, the last 20 candles as JSON) is not part of `Records.Decision`, because no modelled operation reads it and `DecisionResponse` does not return it.
- Routes.GetLogs: the ISO-8601 rendering of timestamps and the response-model validation are not modelled.
- Newest.NewestFirst: rows with equal times come back in one fixed order. The contract does not constrain the order among ties, matching the database.

## Findings

| source | as written | input that shows it | evidently intended | confidence | as-written member | corrected member |
|---|---|---|---|---|---|---|
| backend/app/core/backtest_engine.py:118 | `analyze_market(symbol, data_dict, timeframe, strategy)` passes four arguments to a method that takes three (`gemini_agent.py:16`). Every call raises `TypeError`, which the handler at line 138 swallows. | Any candle data with more than 20 candles: the backtest records no trade. | The agent is consulted on every fifth candle, and a confident BUY/SELL answer opens a position. | high; not executed | Backtest.AsWrittenBacktestNeverTrades | Backtest.Step |
| backend/app/core/backtest_engine.py:43 | `if df is None or df.empty` comes after `len(df)` has already run inside the fetch `try` at line 38. The exchange client returns `None` on every error (`binance_agent.py:26-28`), so `len(None)` raises and the handler at lines 39-41 answers with the `TypeError` text. | Any exchange error during the fetch: the response is `{"error": "object of type 'NoneType' has no len()"}`. | A failed fetch answers "No data found". | high; not executed | Backtest.AsWrittenNoneFetchMessage | Backtest.IntendedRun |
| backend/app/core/orchestrator.py:80 | `analyze_market(symbol, ohlcv)` omits the required `base_tf` argument. Every iteration raises `TypeError`, which the handler at line 158 catches. | Any iteration with market data: no decision is recorded and no trade is created. | The agent's answer is cleaned, parsed, stored as a decision and possibly executed. | high; not executed | Trading.AsWrittenLoopNeverDecides | Trading.LoopStep |
