/** `POST /config`: the request's explicitly set fields upserted as text into the `configurations` table. */
module ConfigSave {
  import opened Wrappers
  import opened Records
  import opened ConfigStore

  /** A request field: left out of the body, sent as null, or sent with a value. */
  datatype Setting<T> = Unset | Null | Given(value: T)

  datatype ConfigRequest = ConfigRequest(
    binanceApiKey: Setting<string>,
    binanceSecretKey: Setting<string>,
    geminiApiKey: Setting<string>,
    symbol: Setting<string>,
    marketType: Setting<string>,
    timeframe: Setting<string>,
    investmentAmount: Setting<real>,
    leverage: Setting<int>)

  /** `str(value)` of a field sent with a value; `None` for a field left out or sent as null, both of which the save skips. */
  function Text<T>(s: Setting<T>, str: T -> string): Option<string> {
    if s.Given? then Some(str(s.value)) else None
  }

  function Same(s: string): string {
    s
  }

  /**
   * The request's fields by storage key, in declaration order. `floatText` is
   * Python's `str` on a float, whose shortest-repr algorithm this model does not spell out.
   */
  function Items(req: ConfigRequest, floatText: real -> string): (items: seq<(string, Option<string>)>)
    ensures |items| == 8 && DistinctNames(items)
    ensures items[0] == ("binance_api_key", Text(req.binanceApiKey, Same))
    ensures items[1] == ("binance_secret_key", Text(req.binanceSecretKey, Same))
    ensures items[2] == ("gemini_api_key", Text(req.geminiApiKey, Same))
    ensures items[3] == ("symbol", Text(req.symbol, Same))
    ensures items[4] == ("market_type", Text(req.marketType, Same))
    ensures items[5] == ("timeframe", Text(req.timeframe, Same))
    ensures items[6] == ("investment_amount", Text(req.investmentAmount, floatText))
    ensures items[7] == ("leverage", Text(req.leverage, IntText))
  {
    var items := [
      ("binance_api_key", Text(req.binanceApiKey, Same)),
      ("binance_secret_key", Text(req.binanceSecretKey, Same)),
      ("gemini_api_key", Text(req.geminiApiKey, Same)),
      ("symbol", Text(req.symbol, Same)),
      ("market_type", Text(req.marketType, Same)),
      ("timeframe", Text(req.timeframe, Same)),
      ("investment_amount", Text(req.investmentAmount, floatText)),
      ("leverage", Text(req.leverage, IntText))];
    assert forall i, j :: 0 <= i < j < 8 ==> items[i].0 != items[j].0 by {
      assert items[0].0[0] == 'b' && items[1].0[0] == 'b' && items[2].0[0] == 'g' && items[3].0[0] == 's';
      assert items[4].0[0] == 'm' && items[5].0[0] == 't' && items[6].0[0] == 'i' && items[7].0[0] == 'l';
      assert items[0].0[8] == 'a' && items[1].0[8] == 's';
    }
    items
  }

  /** What the save writes: `str(value)` under the key of each field sent with a non-null value. */
  function Written(items: seq<(string, Option<string>)>): map<string, string> {
    if |items| == 0 then map[]
    else
      var last := items[|items| - 1];
      var w := Written(items[..|items| - 1]);
      if last.1.Some? then w[last.0 := last.1.value] else w
  }

  predicate DistinctNames(items: seq<(string, Option<string>)>) {
    forall i, j :: 0 <= i < j < |items| ==> items[i].0 != items[j].0
  }

  /** With distinct names every non-null field is written with its own value. */
  lemma {:induction false} WrittenValues(items: seq<(string, Option<string>)>)
    requires DistinctNames(items)
    ensures forall j :: 0 <= j < |items| && items[j].1.Some? ==>
              items[j].0 in Written(items) && Written(items)[items[j].0] == items[j].1.value
    ensures forall k :: k in Written(items) ==> exists j :: 0 <= j < |items| && items[j].0 == k && items[j].1.Some?
  {
    if |items| > 0 {
      var init := items[..|items| - 1];
      WrittenValues(init);
      forall j | 0 <= j < |items| && items[j].1.Some?
        ensures items[j].0 in Written(items) && Written(items)[items[j].0] == items[j].1.value
      {
        if j < |items| - 1 { assert init[j] == items[j]; }
      }
      forall k | k in Written(items)
        ensures exists j :: 0 <= j < |items| && items[j].0 == k && items[j].1.Some?
      {
        if k !in Written(init) {
          assert items[|items| - 1].0 == k;
        } else {
          var j :| 0 <= j < |init| && init[j].0 == k && init[j].1.Some?;
          assert items[j] == init[j];
        }
      }
    }
  }

  /** One turn of the save loop: upsert a non-null item, skip a null one. */
  function SaveOne(r: Table, item: (string, Option<string>)): (r': Table)
    requires UniqueKeys(r)
    ensures UniqueKeys(r')
    ensures AsMap(r') == if item.1.Some? then AsMap(r)[item.0 := item.1.value] else AsMap(r)
  {
    if item.1.Some? then Upsert(r, item.0, item.1.value) else r
  }

  lemma SaveOneExtends(t: Table, items: seq<(string, Option<string>)>, i: nat, r: Table)
    requires i < |items| && UniqueKeys(r)
    requires AsMap(r) == AsMap(t) + Written(items[..i])
    ensures AsMap(SaveOne(r, items[i])) == AsMap(t) + Written(items[..i + 1])
  {
    var prefix := items[..i + 1];
    assert prefix[..i] == items[..i] && prefix[i] == items[i];
    var w := Written(items[..i]);
    if items[i].1.Some? {
      assert Written(prefix) == w[items[i].0 := items[i].1.value];
      OverrideUpdate(AsMap(t), w, items[i].0, items[i].1.value);
    } else {
      assert Written(prefix) == w;
    }
  }

  lemma OverrideUpdate<K, V>(a: map<K, V>, w: map<K, V>, k: K, v: V)
    ensures (a + w)[k := v] == a + w[k := v]
  {
  }

  /**
   * The save loop over `items`: every non-null item is upserted in turn, so the
   * stored map is the old one overridden by what the request writes, and keys
   * stay unique.
   */
  method SaveItems(t: Table, items: seq<(string, Option<string>)>) returns (r: Table)
    requires UniqueKeys(t)
    ensures UniqueKeys(r)
    ensures AsMap(r) == AsMap(t) + Written(items)
  {
    r := t;
    var i := 0;
    while i < |items|
      invariant 0 <= i <= |items|
      invariant UniqueKeys(r)
      invariant AsMap(r) == AsMap(t) + Written(items[..i])
    {
      SaveOneExtends(t, items, i, r);
      r := SaveOne(r, items[i]);
      i := i + 1;
    }
    assert items[..i] == items;
  }

  /**
   * The stored map `m`, saved over `m0`, holds `key`'s text when the request gave one,
   * and otherwise keeps whatever `m0` held under `key`, absence included.
   */
  predicate Saved(m: map<string, string>, m0: map<string, string>, key: string, text: Option<string>) {
    && (text.Some? ==> key in m && m[key] == text.value)
    && (text.None? ==> (key in m <==> key in m0) && (key in m0 ==> m[key] == m0[key]))
  }

  /** Saving a list of distinctly named items settles each item's key as `Saved` says. */
  lemma FieldSaved(m0: map<string, string>, items: seq<(string, Option<string>)>, j: nat)
    requires DistinctNames(items) && j < |items|
    ensures Saved(m0 + Written(items), m0, items[j].0, items[j].1)
  {
    WrittenValues(items);
  }

  /**
   * `POST /config`: writes `str(value)` for every field the request explicitly set
   * to a non-null value, and leaves every other stored key as it was.
   */
  method SaveConfig(t: Table, req: ConfigRequest, floatText: real -> string) returns (r: Table)
    requires UniqueKeys(t)
    ensures UniqueKeys(r)
    ensures AsMap(r) == AsMap(t) + Written(Items(req, floatText))
    ensures Saved(AsMap(r), AsMap(t), "binance_api_key", Text(req.binanceApiKey, Same))
    ensures Saved(AsMap(r), AsMap(t), "binance_secret_key", Text(req.binanceSecretKey, Same))
    ensures Saved(AsMap(r), AsMap(t), "gemini_api_key", Text(req.geminiApiKey, Same))
    ensures Saved(AsMap(r), AsMap(t), "symbol", Text(req.symbol, Same))
    ensures Saved(AsMap(r), AsMap(t), "market_type", Text(req.marketType, Same))
    ensures Saved(AsMap(r), AsMap(t), "timeframe", Text(req.timeframe, Same))
    ensures Saved(AsMap(r), AsMap(t), "investment_amount", Text(req.investmentAmount, floatText))
    ensures Saved(AsMap(r), AsMap(t), "leverage", Text(req.leverage, IntText))
    ensures forall k :: k in AsMap(t) && k !in Written(Items(req, floatText)) ==> k in AsMap(r) && AsMap(r)[k] == AsMap(t)[k]
    ensures forall k :: k in AsMap(r) <==> k in AsMap(t) || k in Written(Items(req, floatText))
  {
    var items := Items(req, floatText);
    r := SaveItems(t, items);
    FieldSaved(AsMap(t), items, 0);
    FieldSaved(AsMap(t), items, 1);
    FieldSaved(AsMap(t), items, 2);
    FieldSaved(AsMap(t), items, 3);
    FieldSaved(AsMap(t), items, 4);
    FieldSaved(AsMap(t), items, 5);
    FieldSaved(AsMap(t), items, 6);
    FieldSaved(AsMap(t), items, 7);
  }
}
