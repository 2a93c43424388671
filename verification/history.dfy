/** The history endpoints: trade statistics and the newest trades and decisions. */
module History {
  import opened Wrappers
  import opened Records
  import opened Newest

  datatype Stats = Stats(totalTrades: nat, openTrades: nat, closedTrades: nat, totalProfitLoss: real)

  /** `filter(status == s).count()`. */
  function CountStatus(ts: seq<Trade>, s: string): nat {
    if |ts| == 0 then 0
    else CountStatus(ts[..|ts| - 1], s) + (if ts[|ts| - 1].status == s then 1 else 0)
  }

  /** Profit/loss of CLOSED trades with a recorded value, summed. */
  function ClosedPnl(ts: seq<Trade>): real {
    if |ts| == 0 then 0.0
    else
      var t := ts[|ts| - 1];
      ClosedPnl(ts[..|ts| - 1]) + (if t.status == Closed && t.profitLoss.Some? then t.profitLoss.value else 0.0)
  }

  function Statuses(ts: seq<Trade>): (ss: seq<string>)
    ensures |ss| == |ts| && forall i :: 0 <= i < |ts| ==> ss[i] == ts[i].status
  {
    seq(|ts|, i requires 0 <= i < |ts| => ts[i].status)
  }

  /** A status count is the multiplicity of that status among all trades. */
  lemma {:induction false} CountIsMultiplicity(ts: seq<Trade>, s: string)
    ensures CountStatus(ts, s) == multiset(Statuses(ts))[s]
  {
    if |ts| > 0 {
      var init := ts[..|ts| - 1];
      CountIsMultiplicity(init, s);
      assert Statuses(ts) == Statuses(init) + [ts[|ts| - 1].status];
    }
  }

  /** Trades in two different statuses never outnumber all trades. */
  lemma {:induction false} TwoStatusesBounded(ts: seq<Trade>, a: string, b: string)
    requires a != b
    ensures CountStatus(ts, a) + CountStatus(ts, b) <= |ts|
  {
    if |ts| > 0 {
      TwoStatusesBounded(ts[..|ts| - 1], a, b);
    }
  }

  /** Without a CLOSED trade carrying a profit/loss the total is zero. */
  lemma {:induction false} NoClosedPnlIsZero(ts: seq<Trade>)
    requires forall i :: 0 <= i < |ts| ==> ts[i].status != Closed || ts[i].profitLoss.None?
    ensures ClosedPnl(ts) == 0.0
  {
    if |ts| > 0 {
      NoClosedPnlIsZero(ts[..|ts| - 1]);
    }
  }

  /** The profit/loss total adds up over any split of the trade list. */
  lemma {:induction false} ClosedPnlSplits(a: seq<Trade>, b: seq<Trade>)
    ensures ClosedPnl(a + b) == ClosedPnl(a) + ClosedPnl(b)
    decreases |b|
  {
    if |b| == 0 {
      assert a + b == a;
    } else {
      assert (a + b)[..|a + b| - 1] == a + b[..|b| - 1];
      ClosedPnlSplits(a, b[..|b| - 1]);
    }
  }

  /** Whatever an OPEN (or otherwise non-CLOSED) trade records as profit/loss, the total ignores it. */
  lemma NonClosedIgnored(ts: seq<Trade>, i: nat, pl: Option<real>)
    requires i < |ts| && ts[i].status != Closed
    ensures ClosedPnl(ts[i := ts[i].(profitLoss := pl)]) == ClosedPnl(ts)
  {
    var u := ts[i := ts[i].(profitLoss := pl)];
    assert ts == ts[..i] + [ts[i]] + ts[i + 1..];
    assert u == ts[..i] + [u[i]] + ts[i + 1..];
    ClosedPnlSplits(ts[..i] + [ts[i]], ts[i + 1..]);
    ClosedPnlSplits(ts[..i], [ts[i]]);
    ClosedPnlSplits(ts[..i] + [u[i]], ts[i + 1..]);
    ClosedPnlSplits(ts[..i], [u[i]]);
    assert [ts[i]][..0] == [] && [u[i]][..0] == [];
  }

  /** CLOSED trades that carry a profit/loss: the rows of the P/L query. */
  predicate HasClosedPnl(ts: seq<Trade>) {
    exists i :: 0 <= i < |ts| && ts[i].status == Closed && ts[i].profitLoss.Some?
  }

  /**
   * `GET /stats`. The total is `sum(...)` over the P/L query's rows, or 0 when
   * there are none; either way it is the sum over CLOSED trades.
   */
  function GetStats(ts: seq<Trade>): (s: Stats)
    ensures s.totalTrades == |ts|
    ensures s.openTrades == multiset(Statuses(ts))["OPEN"]
    ensures s.closedTrades == multiset(Statuses(ts))["CLOSED"]
    ensures s.openTrades + s.closedTrades <= s.totalTrades
    ensures s.totalProfitLoss == ClosedPnl(ts)
    ensures !HasClosedPnl(ts) ==> s.totalProfitLoss == 0.0
  {
    CountIsMultiplicity(ts, Open);
    CountIsMultiplicity(ts, Closed);
    TwoStatusesBounded(ts, Open, Closed);
    if HasClosedPnl(ts) then
      Stats(|ts|, CountStatus(ts, Open), CountStatus(ts, Closed), ClosedPnl(ts))
    else
      NoClosedPnlIsZero(ts);
      Stats(|ts|, CountStatus(ts, Open), CountStatus(ts, Closed), 0.0)
  }

  // ---------------------------------------------------------------------
  // Listings

  /** A trade as listed, with the linked decision's confidence, stop loss and take profit when there is one. */
  datatype TradeView = TradeView(trade: Trade, confidence: Option<real>, stopLoss: Option<real>, takeProfit: Option<real>)

  /** The decision a trade points to, if it exists. */
  function Linked(t: Trade, decisions: map<nat, Decision>): Option<Decision> {
    if t.decisionId.Some? && t.decisionId.value in decisions then Some(decisions[t.decisionId.value]) else None
  }

  function Overlay(t: Trade, decisions: map<nat, Decision>): (v: TradeView)
    ensures v.trade == t
    ensures Linked(t, decisions).Some? ==>
              var d := Linked(t, decisions).value;
              v.confidence == d.confidence && v.stopLoss == d.stopLoss && v.takeProfit == d.takeProfit
    ensures Linked(t, decisions).None? ==> v == TradeView(t, None, None, None)
  {
    match Linked(t, decisions)
    case Some(d) => TradeView(t, d.confidence, d.stopLoss, d.takeProfit)
    case None => TradeView(t, None, None, None)
  }

  function EntryTime(t: Trade): int {
    t.entryTime
  }

  function TradesOf(vs: seq<TradeView>): (ts: seq<Trade>)
    ensures |ts| == |vs| && forall i :: 0 <= i < |vs| ==> ts[i] == vs[i].trade
  {
    seq(|vs|, i requires 0 <= i < |vs| => vs[i].trade)
  }

  /** `GET /trades`: at most `limit` trades, latest entry first, each overlaid from its decision. */
  function GetTrades(ts: seq<Trade>, decisions: map<nat, Decision>, limit: nat): (r: seq<TradeView>)
    ensures |r| == Min(limit, |ts|)
    ensures forall i, j :: 0 <= i < j < |r| ==> r[i].trade.entryTime >= r[j].trade.entryTime
    ensures forall i :: 0 <= i < |r| ==> r[i] == Overlay(r[i].trade, decisions)
    ensures multiset(TradesOf(r)) <= multiset(ts)
    ensures forall t :: multiset(TradesOf(r))[t] < multiset(ts)[t] ==>
              forall i :: 0 <= i < |r| ==> t.entryTime <= r[i].trade.entryTime
  {
    var shown := NewestFirst(ts, EntryTime, limit);
    var r := Views(shown, decisions);
    assert forall i :: 0 <= i < |r| ==> r[i].trade == shown[i];
    r
  }

  function Views(shown: seq<Trade>, decisions: map<nat, Decision>): (r: seq<TradeView>)
    ensures |r| == |shown| && TradesOf(r) == shown
    ensures forall i :: 0 <= i < |r| ==> r[i] == Overlay(shown[i], decisions)
  {
    seq(|shown|, i requires 0 <= i < |shown| => Overlay(shown[i], decisions))
  }

  function DecisionTime(d: Decision): int {
    d.timestamp
  }

  /** The query of `GET /decisions`: at most `limit` decisions, newest first, none newer left out. */
  function NewestDecisions(ds: seq<Decision>, limit: nat): (r: seq<Decision>)
    ensures |r| == Min(limit, |ds|)
    ensures forall i, j :: 0 <= i < j < |r| ==> r[i].timestamp >= r[j].timestamp
    ensures multiset(r) <= multiset(ds)
    ensures forall d :: multiset(r)[d] < multiset(ds)[d] ==>
              forall i :: 0 <= i < |r| ==> d.timestamp <= r[i].timestamp
  {
    NewestFirst(ds, DecisionTime, limit)
  }

  /**
   * `DecisionResponse` declares `action`, `confidence` and `reasoning` as required,
   * while the stored row may hold null in each of them.
   */
  predicate Serializable(d: Decision) {
    d.action.Some? && d.confidence.Some? && d.reasoning.Some?
  }

  /** The response of `GET /decisions`: the list, or a failed response validation. */
  datatype DecisionListing = Listed(rows: seq<Decision>) | InvalidResponse

  /**
   * `GET /decisions`: the selected rows are validated against `DecisionResponse`;
   * one row with a null required field fails the whole response.
   */
  function GetDecisions(ds: seq<Decision>, limit: nat): (r: DecisionListing)
    ensures r.Listed? ==> r.rows == NewestDecisions(ds, limit)
    ensures r.Listed? <==> forall d :: d in NewestDecisions(ds, limit) ==> Serializable(d)
  {
    var rows := NewestDecisions(ds, limit);
    if forall i :: 0 <= i < |rows| ==> Serializable(rows[i]) then Listed(rows) else InvalidResponse
  }

  /** When every stored decision has its required fields, the listing succeeds with min(limit, n) rows. */
  lemma SerializableTableLists(ds: seq<Decision>, limit: nat)
    requires forall k :: 0 <= k < |ds| ==> Serializable(ds[k])
    ensures GetDecisions(ds, limit).Listed?
    ensures |GetDecisions(ds, limit).rows| == Min(limit, |ds|)
  {
    var rows := NewestDecisions(ds, limit);
    forall d | d in rows ensures Serializable(d) {
      assert d in multiset(rows);
      assert d in multiset(ds);
      assert d in ds;
    }
  }

  /**
   * A decision stored with a null required field, newer than every other decision,
   * makes every non-empty listing fail.
   */
  lemma NewestUnserializableFails(ds: seq<Decision>, limit: nat, k: nat)
    requires 0 < limit && k < |ds| && !Serializable(ds[k])
    requires forall m :: 0 <= m < |ds| && m != k ==> ds[m].timestamp < ds[k].timestamp
    ensures GetDecisions(ds, limit).InvalidResponse?
  {
    var rows := NewestDecisions(ds, limit);
    StrictlyNewestKept(ds, limit, k);
    assert ds[k] in rows;
  }

  /** A decision strictly newer than all others is always among the first `limit > 0`. */
  lemma StrictlyNewestKept(ds: seq<Decision>, limit: nat, k: nat)
    requires 0 < limit && k < |ds|
    requires forall m :: 0 <= m < |ds| && m != k ==> ds[m].timestamp < ds[k].timestamp
    ensures ds[k] in NewestDecisions(ds, limit)
  {
    var rows := NewestDecisions(ds, limit);
    var x := rows[0];
    assert x in multiset(rows);
    assert x in multiset(ds);
    assert x in ds;
    var m :| 0 <= m < |ds| && ds[m] == x;
    if m != k {
      assert x.timestamp < ds[k].timestamp;
      assert ds[k] in multiset(ds);
      if multiset(rows)[ds[k]] < multiset(ds)[ds[k]] {
        assert false;
      }
      assert ds[k] in multiset(rows);
    }
  }
}
