/** Rows of the application's database tables, as far as the core reads or writes them. */
module Records {
  import opened Wrappers

  const Open: string := "OPEN"
  const Closed: string := "CLOSED"

  /** A row of `trades`; times are instants on one clock, compared as integers. */
  datatype Trade = Trade(
    id: nat,
    symbol: string,
    marketType: string,
    timeframe: string,
    action: string,
    amount: real,
    entryPrice: real,
    entryTime: int,
    exitPrice: Option<real>,
    exitTime: Option<int>,
    profitLoss: Option<real>,
    status: string,
    decisionId: Option<nat>)

  /** A row of `gemini_decisions`. */
  datatype Decision = Decision(
    id: nat,
    timestamp: int,
    symbol: string,
    action: Option<string>,
    confidence: Option<real>,
    entryPrice: Option<real>,
    stopLoss: Option<real>,
    takeProfit: Option<real>,
    reasoning: Option<string>,
    executed: bool)

  /** A row of `system_logs`. */
  datatype LogEntry = LogEntry(id: nat, timestamp: int, level: string, component: string, message: string)

  /** A row of `configurations`. */
  datatype ConfigRow = ConfigRow(key: string, value: string)
}
