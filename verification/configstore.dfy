/**
 * The `configurations` table: rows with unique keys, read as a key -> value map
 * by `GET /config` and updated field by field by `POST /config`.
 */
module ConfigStore {
  import opened Wrappers
  import opened Records

  type Table = seq<ConfigRow>

  /** The column's unique constraint. */
  predicate UniqueKeys(t: Table) {
    forall i, j :: 0 <= i < j < |t| ==> t[i].key != t[j].key
  }

  function KeysOf(t: Table): set<string> {
    set i | 0 <= i < |t| :: t[i].key
  }

  /** `{c.config_key: c.config_value for c in configs}`: later rows win on a repeated key. */
  function AsMap(t: Table): (m: map<string, string>)
    ensures m.Keys == KeysOf(t)
  {
    if |t| == 0 then map[]
    else
      var init := t[..|t| - 1];
      assert KeysOf(t) == KeysOf(init) + {t[|t| - 1].key} by {
        forall k | k in KeysOf(t) ensures k in KeysOf(init) + {t[|t| - 1].key} {
          var i :| 0 <= i < |t| && t[i].key == k;
          if i < |t| - 1 { assert init[i] == t[i]; }
        }
      }
      AsMap(init)[t[|t| - 1].key := t[|t| - 1].value]
  }

  /** With unique keys every row's value is what the map holds for its key. */
  lemma {:induction false} AsMapRows(t: Table)
    requires UniqueKeys(t)
    ensures forall i :: 0 <= i < |t| ==> AsMap(t)[t[i].key] == t[i].value
  {
    if |t| > 0 {
      var init := t[..|t| - 1];
      AsMapRows(init);
      forall i | 0 <= i < |t| ensures AsMap(t)[t[i].key] == t[i].value {
        if i < |t| - 1 { assert init[i] == t[i]; }
      }
    }
  }

  /** `GET /config`: exactly the stored key -> value pairs. */
  function GetConfig(t: Table): (m: map<string, string>)
    requires UniqueKeys(t)
    ensures forall k :: k in m <==> exists i :: 0 <= i < |t| && t[i].key == k
    ensures forall i :: 0 <= i < |t| ==> m[t[i].key] == t[i].value
  {
    AsMapRows(t);
    AsMap(t)
  }

  /** Index of the first row with `key` (the `.first()` of a filtered query). */
  function Find(t: Table, key: string): (r: Option<nat>)
    ensures r.Some? ==> r.value < |t| && t[r.value].key == key
    ensures r.None? <==> key !in KeysOf(t)
  {
    if |t| == 0 then None
    else if t[0].key == key then Some(0)
    else
      var r := Find(t[1..], key);
      assert KeysOf(t) == {t[0].key} + KeysOf(t[1..]) by {
        forall k | k in KeysOf(t) ensures k in {t[0].key} + KeysOf(t[1..]) {
          var i :| 0 <= i < |t| && t[i].key == k;
          if i > 0 { assert t[1..][i - 1] == t[i]; }
        }
      }
      if r.None? then None else Some(r.value + 1)
  }

  /** Overwriting one row's value updates that key in the map and nothing else. */
  lemma {:induction false} ReplaceValue(t: Table, i: nat, value: string)
    requires UniqueKeys(t) && i < |t|
    ensures AsMap(t[i := ConfigRow(t[i].key, value)]) == AsMap(t)[t[i].key := value]
  {
    var r := t[i := ConfigRow(t[i].key, value)];
    var init := t[..|t| - 1];
    var last := t[|t| - 1];
    assert AsMap(t) == AsMap(init)[last.key := last.value];
    if i == |t| - 1 {
      assert r[..|r| - 1] == init;
      assert AsMap(r) == AsMap(init)[last.key := value];
    } else {
      var r' := init[i := ConfigRow(t[i].key, value)];
      assert r[..|r| - 1] == r' && r[|r| - 1] == last;
      assert AsMap(r) == AsMap(r')[last.key := last.value];
      assert init[i] == t[i];
      assert UniqueKeys(init);
      ReplaceValue(init, i, value);
      assert last.key != t[i].key;
      UpdatesCommute(AsMap(init), t[i].key, value, last.key, last.value);
    }
  }

  lemma UpdatesCommute<K, V>(m: map<K, V>, a: K, x: V, b: K, y: V)
    requires a != b
    ensures m[a := x][b := y] == m[b := y][a := x]
  {
  }

  /** Replaces the value of the row holding `key`, or adds a row when there is none. */
  function Upsert(t: Table, key: string, value: string): (r: Table)
    requires UniqueKeys(t)
    ensures UniqueKeys(r)
    ensures AsMap(r) == AsMap(t)[key := value]
    ensures |r| == if key in KeysOf(t) then |t| else |t| + 1
  {
    match Find(t, key)
    case Some(i) =>
      ReplaceValue(t, i, value);
      t[i := ConfigRow(key, value)]
    case None =>
      var r := t + [ConfigRow(key, value)];
      assert r[..|r| - 1] == t;
      assert forall j :: 0 <= j < |t| ==> t[j].key in KeysOf(t);
      r
  }

  // ---------------------------------------------------------------------
  // `str(value)` for the request's field types

  function Digit(d: nat): char
    requires d < 10
  {
    ('0' as int + d) as char
  }

  function DigitValue(c: char): nat {
    if '0' <= c <= '9' then (c - '0') as nat else 0
  }

  function NatText(n: nat): (s: string)
    ensures |s| > 0 && s[0] != '-'
    decreases n
  {
    if n < 10 then [Digit(n)] else NatText(n / 10) + [Digit(n % 10)]
  }

  /** `str(i)` for an `int`: decimal digits, with a minus sign when negative. */
  function IntText(i: int): string {
    if i < 0 then "-" + NatText(-i) else NatText(i)
  }

  function ParseNat(s: string): nat {
    if |s| == 0 then 0 else 10 * ParseNat(s[..|s| - 1]) + DigitValue(s[|s| - 1])
  }

  /** Reads back a decimal integer as written by `IntText`. */
  function ParseInt(s: string): int {
    if |s| > 0 && s[0] == '-' then -(ParseNat(s[1..]) as int) else ParseNat(s)
  }

  lemma {:induction false} ParseNatText(n: nat)
    ensures ParseNat(NatText(n)) == n
    decreases n
  {
    if n >= 10 {
      var s := NatText(n);
      assert s[..|s| - 1] == NatText(n / 10);
      ParseNatText(n / 10);
    }
  }

  /** A stored integer setting reads back as the same integer. */
  lemma IntTextRoundTrip(i: int)
    ensures ParseInt(IntText(i)) == i
  {
    if i < 0 {
      var digits := NatText(-i);
      var s := "-" + digits;
      assert s[0] == '-' && s[1..] == digits;
      ParseNatText(-i);
      assert ParseInt(s) == -(ParseNat(digits) as int);
    } else {
      var digits := NatText(i);
      assert digits[0] != '-';
      ParseNatText(i);
      assert ParseInt(digits) == ParseNat(digits);
    }
  }
}
