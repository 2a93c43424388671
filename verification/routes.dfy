/**
 * The control endpoints: `/start` (already-running guard, credential fallback,
 * secret-free echo), `/stop`, `/status`, `/config` and `/logs`.
 */
module Routes {
  import opened Wrappers
  import opened Records
  import opened ConfigStore
  import opened Trading
  import opened Newest

  const BinanceKeyName: string := "binance_api_key"
  const BinanceSecretName: string := "binance_secret_key"
  const GeminiKeyName: string := "gemini_api_key"

  /** Request fields that are credentials and never echoed back. */
  const Secrets: set<string> := {"binance_api_key", "binance_secret_key", "gemini_api_key"}

  datatype StartRequest = StartRequest(
    symbol: string,
    marketType: string,
    timeframe: string,
    investmentAmount: real,
    leverage: int,
    binanceApiKey: Option<string>,
    binanceSecretKey: Option<string>,
    geminiApiKey: Option<string>)

  /** The request a body with no fields produces. */
  function DefaultStartRequest(): (r: StartRequest)
    ensures r.binanceApiKey.None? && r.binanceSecretKey.None? && r.geminiApiKey.None?
    ensures r.investmentAmount == 100.0 && r.leverage == 1
  {
    StartRequest("BTC/USDT", "future", "1h", 100.0, 1, None, None, None)
  }

  datatype Credentials = Credentials(binanceKey: Option<string>, binanceSecret: Option<string>, geminiKey: Option<string>)

  /** Python truthiness of an optional string: present and non-empty. */
  predicate Truthy(s: Option<string>) {
    s.Some? && s.value != ""
  }

  /** The credentials handed to the trading loop, and whether the configuration store was read for them. */
  datatype Resolved = Resolved(creds: Credentials, storeRead: bool)

  function StoredOr(given: Option<string>, stored: map<string, string>, name: string): Option<string> {
    if Truthy(given) then given else if name in stored then Some(stored[name]) else None
  }

  /**
   * Each credential comes from the request when truthy and from the stored
   * configuration otherwise; the store is consulted only when one is missing.
   */
  function ResolveCredentials(req: StartRequest, stored: map<string, string>): (r: Resolved)
    ensures r.storeRead <==> !(Truthy(req.binanceApiKey) && Truthy(req.binanceSecretKey) && Truthy(req.geminiApiKey))
    ensures !r.storeRead ==> r.creds == Credentials(req.binanceApiKey, req.binanceSecretKey, req.geminiApiKey)
    ensures Truthy(req.binanceApiKey) ==> r.creds.binanceKey == req.binanceApiKey
    ensures Truthy(req.binanceSecretKey) ==> r.creds.binanceSecret == req.binanceSecretKey
    ensures Truthy(req.geminiApiKey) ==> r.creds.geminiKey == req.geminiApiKey
    ensures !Truthy(req.binanceApiKey) ==>
              (r.creds.binanceKey.Some? <==> "binance_api_key" in stored)
              && (r.creds.binanceKey.Some? ==> r.creds.binanceKey.value == stored["binance_api_key"])
    ensures !Truthy(req.binanceSecretKey) ==>
              (r.creds.binanceSecret.Some? <==> "binance_secret_key" in stored)
              && (r.creds.binanceSecret.Some? ==> r.creds.binanceSecret.value == stored["binance_secret_key"])
    ensures !Truthy(req.geminiApiKey) ==>
              (r.creds.geminiKey.Some? <==> "gemini_api_key" in stored)
              && (r.creds.geminiKey.Some? ==> r.creds.geminiKey.value == stored["gemini_api_key"])
  {
    var given := Credentials(req.binanceApiKey, req.binanceSecretKey, req.geminiApiKey);
    if Truthy(req.binanceApiKey) && Truthy(req.binanceSecretKey) && Truthy(req.geminiApiKey) then
      Resolved(given, false)
    else
      Resolved(Credentials(StoredOr(req.binanceApiKey, stored, BinanceKeyName),
                           StoredOr(req.binanceSecretKey, stored, BinanceSecretName),
                           StoredOr(req.geminiApiKey, stored, GeminiKeyName)), true)
  }

  datatype JsonValue = JStr(s: string) | JNum(r: real) | JInt(i: int) | JNull

  function JOpt(s: Option<string>): JsonValue {
    if s.Some? then JStr(s.value) else JNull
  }

  /** `request.dict()`. */
  function RequestDict(req: StartRequest): map<string, JsonValue> {
    map["symbol" := JStr(req.symbol), "market_type" := JStr(req.marketType), "timeframe" := JStr(req.timeframe),
        "investment_amount" := JNum(req.investmentAmount), "leverage" := JInt(req.leverage),
        "binance_api_key" := JOpt(req.binanceApiKey), "binance_secret_key" := JOpt(req.binanceSecretKey),
        "gemini_api_key" := JOpt(req.geminiApiKey)]
  }

  /** The `config` echoed by `/start`: every request field except the credentials. */
  function EchoConfig(req: StartRequest): (m: map<string, JsonValue>)
    ensures m.Keys !! Secrets
    ensures m.Keys == {"symbol", "market_type", "timeframe", "investment_amount", "leverage"}
    ensures m["symbol"] == JStr(req.symbol) && m["timeframe"] == JStr(req.timeframe)
    ensures m["market_type"] == JStr(req.marketType)
    ensures m["investment_amount"] == JNum(req.investmentAmount) && m["leverage"] == JInt(req.leverage)
  {
    RequestDict(req) - Secrets
  }

  datatype StartResponse = AlreadyRunning | Started(config: map<string, JsonValue>)

  /** The background task `/start` schedules: the loop's configuration and credentials. */
  datatype Launch = Launch(cfg: LoopConfig, creds: Credentials)

  datatype StartResult = StartResult(response: StartResponse, launch: Option<Launch>)

  /** `POST /start`. */
  function StartTrading(o: Orchestrator, req: StartRequest, t: Table): (r: StartResult)
    ensures o.isRunning <==> r.response == AlreadyRunning
    ensures o.isRunning ==> r.launch.None?
    ensures r.response.Started? ==> r.response.config.Keys !! Secrets
    ensures r.response.Started? ==> r.response.config == EchoConfig(req)
    ensures !o.isRunning ==>
              && r.launch.Some?
              && r.launch.value.cfg == LoopConfig(req.symbol, req.marketType, req.timeframe, req.investmentAmount, req.leverage)
              && r.launch.value.creds == ResolveCredentials(req, AsMap(t)).creds
  {
    if o.isRunning then StartResult(AlreadyRunning, None)
    else
      var creds := ResolveCredentials(req, AsMap(t)).creds;
      var cfg := LoopConfig(req.symbol, req.marketType, req.timeframe, req.investmentAmount, req.leverage);
      StartResult(Started(EchoConfig(req)), Some(Launch(cfg, creds)))
  }

  /**
   * The module-level orchestrator is built once, not running: before any `/start`
   * the status reads false, and the first `/start` always launches the loop.
   */
  lemma FirstStartLaunches(req: StartRequest, t: Table)
    ensures !GetStatus(Idle())
    ensures var r := StartTrading(Idle(), req, t);
            && r.response.Started? && r.launch.Some?
            && r.launch.value.creds == ResolveCredentials(req, AsMap(t)).creds
  {
  }

  /** `POST /stop`. */
  function StopTrading(o: Orchestrator): (r: Orchestrator)
    ensures !GetStatus(r)
    ensures r.config == o.config
  {
    Stop(o)
  }

  /** `GET /status`: the `running` field. */
  function GetStatus(o: Orchestrator): bool {
    o.isRunning
  }

  function LogTime(l: LogEntry): int {
    l.timestamp
  }

  /** `GET /logs`: at most `limit` entries, newest first, none newer left out. */
  function GetLogs(logs: seq<LogEntry>, limit: nat): (r: seq<LogEntry>)
    ensures |r| == Min(limit, |logs|)
    ensures forall i, j :: 0 <= i < j < |r| ==> r[i].timestamp >= r[j].timestamp
    ensures multiset(r) <= multiset(logs)
    ensures forall l :: multiset(r)[l] < multiset(logs)[l] ==>
              forall i :: 0 <= i < |r| ==> l.timestamp <= r[i].timestamp
  {
    NewestFirst(logs, LogTime, limit)
  }
}
