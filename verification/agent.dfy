/**
 * The AI agent as seen by its callers: an oracle that either raises or returns
 * response text, followed by markdown-fence cleaning and JSON parsing of that text.
 * Python's `str.replace` and `str.strip` are modelled exactly; `json.loads` is an oracle.
 */
module Agent {
  import opened Wrappers

  /** Outcome of one call to the agent's `analyze_market`. */
  datatype AgentCall = Raised(error: string) | Returned(text: Option<string>)

  /**
   * The keys of a decoded decision object; a missing key or a JSON null is `None`.
   * What a value of another JSON type becomes is the parser's choice: a boolean
   * behaves as 1.0 / 0.0 in Python's comparisons, anything else as `None`.
   */
  datatype Parsed = Parsed(
    action: Option<string>,
    confidence: Option<real>,
    entryPrice: Option<real>,
    stopLoss: Option<real>,
    takeProfit: Option<real>,
    reasoning: Option<string>)

  /** `json.loads` followed by the dict check: `None` when the text is not a JSON object. */
  type Parser = string -> Option<Parsed>

  /** Python's `str.isspace` for one character. */
  predicate IsSpace(c: char) {
    c == ' ' || c == '\t' || c == '\n' || c == '\r' || c == '\U{0B}' || c == '\U{0C}'
    || ('\U{1C}' <= c <= '\U{1F}') || c == '\U{85}' || c == '\U{A0}' || c == '\U{1680}'
    || ('\U{2000}' <= c <= '\U{200A}') || c == '\U{2028}' || c == '\U{2029}'
    || c == '\U{202F}' || c == '\U{205F}' || c == '\U{3000}'
  }

  predicate AllSpace(s: string) {
    forall k :: 0 <= k < |s| ==> IsSpace(s[k])
  }

  /** No whitespace at either end. */
  predicate Trimmed(s: string) {
    |s| > 0 ==> !IsSpace(s[0]) && !IsSpace(s[|s| - 1])
  }

  predicate NoBackticks(s: string) {
    forall k :: 0 <= k < |s| ==> s[k] != '`'
  }

  /** Python's `s.replace(pat, rep)`: leftmost, non-overlapping occurrences, scanned left to right. */
  function ReplaceAll(s: string, pat: string, rep: string): string
    requires |pat| > 0
    decreases |s|
  {
    if |s| < |pat| then s
    else if s[..|pat|] == pat then rep + ReplaceAll(s[|pat|..], pat, rep)
    else [s[0]] + ReplaceAll(s[1..], pat, rep)
  }

  function LStrip(s: string): (r: string)
    ensures |r| > 0 ==> !IsSpace(r[0])
    ensures |r| <= |s| && r == s[|s| - |r|..]
    ensures AllSpace(s[..|s| - |r|])
  {
    if |s| > 0 && IsSpace(s[0]) then LStrip(s[1..]) else s
  }

  function RStrip(s: string): (r: string)
    ensures |r| > 0 ==> !IsSpace(r[|r| - 1])
    ensures |r| <= |s| && r == s[..|r|]
    ensures AllSpace(s[|r|..])
  {
    if |s| > 0 && IsSpace(s[|s| - 1]) then RStrip(s[..|s| - 1]) else s
  }

  /**
   * Python's `s.strip()`: the result has no surrounding whitespace and is what
   * remains of `s` once a whitespace-only prefix and suffix are cut off.
   */
  function Strip(s: string): (r: string)
    ensures Trimmed(r)
    ensures exists i, j :: 0 <= i <= j <= |s| && r == s[i..j] && AllSpace(s[..i]) && AllSpace(s[j..])
  {
    var l := LStrip(s);
    var r := RStrip(l);
    var i := |s| - |l|;
    assert r == s[i..i + |r|];
    assert s[..i + |r|][..i] == s[..i];
    assert s[i + |r|..] == l[|r|..];
    r
  }

  /** Removes every "```json", then every "```", then the surrounding whitespace. */
  function CleanFences(text: string): (r: string)
    ensures Trimmed(r)
  {
    Strip(ReplaceAll(ReplaceAll(text, "```json", ""), "```", ""))
  }

  /**
   * The decision carried by an agent call, or `None` when the call raised, returned
   * a falsy text (`None` or ""), or returned text that does not parse to a JSON object.
   */
  function Interpret(call: AgentCall, parse: Parser): (d: Option<Parsed>)
    ensures d.Some? ==> call.Returned? && call.text.Some? && call.text.value != ""
                        && parse(CleanFences(call.text.value)) == d
    ensures call.Returned? && call.text.Some? && call.text.value != "" ==>
              d == parse(CleanFences(call.text.value))
  {
    match call
    case Raised(_) => None
    case Returned(t) =>
      if t.None? || t.value == "" then None else parse(CleanFences(t.value))
  }

  // ---------------------------------------------------------------------
  // Fence-cleaning properties

  lemma {:induction false} ReplaceAllNoBackticks(s: string, pat: string)
    requires |pat| > 0 && pat[0] == '`'
    requires NoBackticks(s)
    ensures ReplaceAll(s, pat, "") == s
    decreases |s|
  {
    if |s| < |pat| {
    } else {
      assert s[..|pat|][0] == s[0] != '`';
      ReplaceAllNoBackticks(s[1..], pat);
    }
  }

  /** A backtick-free prefix passes through replacement untouched. */
  lemma {:induction false} ReplaceAllPrefix(x: string, y: string, pat: string)
    requires |pat| > 0 && pat[0] == '`'
    requires NoBackticks(x)
    ensures ReplaceAll(x + y, pat, "") == x + ReplaceAll(y, pat, "")
    decreases |x|
  {
    if |x| == 0 {
      assert x + y == y;
    } else {
      var s := x + y;
      if |s| < |pat| {
        ReplaceAllShort(y, pat);
      } else {
        assert s[..|pat|][0] == x[0] != '`';
        assert s[1..] == x[1..] + y;
        ReplaceAllPrefix(x[1..], y, pat);
      }
    }
  }

  lemma ReplaceAllShort(y: string, pat: string)
    requires |pat| > 0 && |y| < |pat|
    ensures ReplaceAll(y, pat, "") == y
  {
  }

  lemma {:induction false} LStripSpacePrefix(w: string, p: string)
    requires AllSpace(w) && (|p| > 0 ==> !IsSpace(p[0]))
    ensures LStrip(w + p) == p
    decreases |w|
  {
    if |w| == 0 {
      assert w + p == p;
    } else {
      assert (w + p)[1..] == w[1..] + p;
      LStripSpacePrefix(w[1..], p);
    }
  }

  lemma {:induction false} RStripSpaceSuffix(p: string, w: string)
    requires AllSpace(w) && Trimmed(p)
    ensures RStrip(p + w) == p
    decreases |w|
  {
    if |w| == 0 {
      assert p + w == p;
    } else {
      assert (p + w)[..|p + w| - 1] == p + w[..|w| - 1];
      RStripSpaceSuffix(p, w[..|w| - 1]);
    }
  }

  /** Whitespace around a trimmed payload is exactly what `strip` removes. */
  lemma StripAround(w1: string, p: string, w2: string)
    requires AllSpace(w1) && AllSpace(w2) && Trimmed(p)
    ensures Strip(w1 + p + w2) == p
  {
    if |p| == 0 {
      assert w1 + p + w2 == (w1 + w2) + "";
      assert AllSpace(w1 + w2);
      LStripSpacePrefix(w1 + w2, "");
    } else {
      assert w1 + p + w2 == w1 + (p + w2);
      assert (p + w2)[0] == p[0];
      LStripSpacePrefix(w1, p + w2);
      RStripSpaceSuffix(p, w2);
    }
  }

  /** Text with no backticks and no surrounding whitespace comes back unchanged. */
  lemma CleanFencesIdentity(text: string)
    requires NoBackticks(text) && Trimmed(text)
    ensures CleanFences(text) == text
  {
    ReplaceAllNoBackticks(text, "```json");
    ReplaceAllNoBackticks(text, "```");
    StripAround("", text, "");
    assert "" + text + "" == text;
  }

  /** A payload wrapped in a ```json fence, as the model typically answers, is recovered exactly. */
  lemma CleanFencesUnwrapsJsonFence(payload: string)
    requires NoBackticks(payload) && Trimmed(payload)
    ensures CleanFences("```json\n" + payload + "\n```") == payload
  {
    var inner := "\n" + payload + "\n";
    var text := "```json\n" + payload + "\n```";
    assert NoBackticks(inner);
    assert text == "```json" + (inner + "```");
    assert text[..7] == "```json";
    assert text[7..] == inner + "```";
    ReplaceAllPrefix(inner, "```", "```json");
    ReplaceAllShort("```", "```json");
    var once := inner + "```";
    assert ReplaceAll(text, "```json", "") == once;
    ReplaceAllPrefix(inner, "```", "```");
    assert ReplaceAll("```", "```", "") == "" + ReplaceAll("", "```", "");
    assert inner + "" == inner;
    assert AllSpace("\n");
    StripAround("\n", payload, "\n");
  }
}
