/**
 * The finding-type classifier: a free-form vulnerability `type` label from
 * the analysis service is lower-cased and trimmed, then tested against three
 * fixed lists of substrings in a fixed priority order; the first list with a
 * match decides the category, and a label no list matches is unclassified.
 */
module OwaspMapping {
  import opened Wrappers
  import opened JsString

  /** The three buckets; `None` of `Option<Category>` is the unclassified `null`. */
  datatype Category = SqlInjection | Xss | HardcodedSecrets

  /** The string `mapToOWASPCategory` returns for each bucket. */
  function Label(c: Category): (r: string)
    ensures r in {"SQL Injection", "XSS", "Hardcoded Secrets"}
  {
    match c
    case SqlInjection => "SQL Injection"
    case Xss => "XSS"
    case HardcodedSecrets => "Hardcoded Secrets"
  }

  /** Rule 1 tokens, in the order they are tested. */
  const SqlTokens: seq<string> := ["sql", "injection", "sqli", "database injection"]

  /** Rule 2 tokens, in the order they are tested. */
  const XssTokens: seq<string> :=
    ["xss", "cross-site scripting", "script injection", "dom-based xss", "stored xss", "reflected xss"]

  /** Rule 3 tokens, in the order they are tested. */
  const SecretTokens: seq<string> :=
    ["hardcoded", "secret", "credential", "password", "api key", "apikey", "token", "private key"]

  /** The normalised label contains some token of the list. */
  predicate MatchesAny(x: string, tokens: seq<string>) {
    exists k | 0 <= k < |tokens| :: Includes(x, tokens[k])
  }

  /**
   * The normalisation step, `toLowerCase()` followed by `trim()`: the result
   * has no ASCII capital, does not begin or end with whitespace, and is the
   * lower-cased label with only whitespace cut from either end.
   */
  function Normalize(vulnType: string): (x: string)
    ensures forall i :: 0 <= i < |x| ==> !IsAsciiUpper(x[i])
    ensures x == [] || (!IsWhitespace(x[0]) && !IsWhitespace(x[|x| - 1]))
    ensures exists p :: PaddedAt(Lower(vulnType), x, p)
  {
    Trim(Lower(vulnType))
  }

  /**
   * The three-rule, first-match-wins decision on a normalised label. With the
   * redundant tokens removed: SQL Injection exactly when `sql` or `injection`
   * occurs; XSS exactly when neither does and `xss` or `cross-site scripting`
   * does; Hardcoded Secrets exactly when none of those occurs and a secret
   * token does.
   */
  function Decide(x: string): (r: Option<Category>)
    ensures r == Some(SqlInjection) <==> Includes(x, "sql") || Includes(x, "injection")
    ensures r == Some(Xss) <==>
      !Includes(x, "sql") && !Includes(x, "injection")
      && (Includes(x, "xss") || Includes(x, "cross-site scripting"))
    ensures r == Some(HardcodedSecrets) <==>
      !Includes(x, "sql") && !Includes(x, "injection")
      && !Includes(x, "xss") && !Includes(x, "cross-site scripting")
      && MatchesAny(x, SecretTokens)
  {
    SqlRuleTokens(x);
    XssRuleTokens(x);
    ScriptInjectionHoldsInjection(x);
    if MatchesAny(x, SqlTokens) then Some(SqlInjection)
    else if MatchesAny(x, XssTokens) then Some(Xss)
    else if MatchesAny(x, SecretTokens) then Some(HardcodedSecrets)
    else None
  }

  /**
   * `mapToOWASPCategory` on the three buckets: defined for every label, and
   * trimming never matters, since the result is the decision on the
   * lower-cased label alone.
   */
  function Classify(vulnType: string): (r: Option<Category>)
    ensures r == Decide(Lower(vulnType))
  {
    var x := Lower(vulnType);
    var p :| PaddedAt(x, Normalize(vulnType), p);
    DecidePadded(x, Normalize(vulnType), p);
    Decide(Normalize(vulnType))
  }

  /**
   * `mapToOWASPCategory` with the source's return values: one of the three
   * label strings or `null`, whatever the input, matching the bucket.
   */
  function MapToOwaspCategory(vulnType: string): (r: Option<string>)
    ensures r == None <==> Classify(vulnType) == None
    ensures r == Some("SQL Injection") <==> Classify(vulnType) == Some(SqlInjection)
    ensures r == Some("XSS") <==> Classify(vulnType) == Some(Xss)
    ensures r == Some("Hardcoded Secrets") <==> Classify(vulnType) == Some(HardcodedSecrets)
  {
    match Classify(vulnType)
    case None => None
    case Some(c) => Some(Label(c))
  }

  // ---------------------------------------------------------------------
  // Token lists

  /** Every token is non-empty and neither begins nor ends with whitespace. */
  predicate WellShapedToken(t: string) {
    |t| > 0 && !IsWhitespace(t[0]) && !IsWhitespace(t[|t| - 1])
  }

  lemma TokensWellShaped()
    ensures forall k :: 0 <= k < |SqlTokens| ==> WellShapedToken(SqlTokens[k])
    ensures forall k :: 0 <= k < |XssTokens| ==> WellShapedToken(XssTokens[k])
    ensures forall k :: 0 <= k < |SecretTokens| ==> WellShapedToken(SecretTokens[k])
  {
  }

  /** A string that contains `"sqli"` contains `"sql"`. */
  lemma SqliHoldsSql(x: string)
    requires Includes(x, "sqli")
    ensures Includes(x, "sql")
  {
    assert OccursAt("sqli", "sql", 0);
    assert Includes("sqli", "sql") by { assert OccursAt("sqli", "sql", 0); }
    IncludesTransitive(x, "sqli", "sql");
  }

  /** A string that contains `"database injection"` contains `"injection"`. */
  lemma DatabaseInjectionHoldsInjection(x: string)
    requires Includes(x, "database injection")
    ensures Includes(x, "injection")
  {
    assert OccursAt("database injection", "injection", 9);
    assert Includes("database injection", "injection") by { assert OccursAt("database injection", "injection", 9); }
    IncludesTransitive(x, "database injection", "injection");
  }

  /** Rule 1 reduces to two of its four tokens: `"sqli"` and `"database injection"` add nothing. */
  lemma {:induction false} SqlRuleTokens(x: string)
    ensures MatchesAny(x, SqlTokens) <==> Includes(x, "sql") || Includes(x, "injection")
  {
    if Includes(x, "sqli") { SqliHoldsSql(x); }
    if Includes(x, "database injection") { DatabaseInjectionHoldsInjection(x); }
    assert SqlTokens[0] == "sql" && SqlTokens[1] == "injection";
    assert SqlTokens[2] == "sqli" && SqlTokens[3] == "database injection";
  }

  /** The three `*xss` tokens of rule 2 end in `"xss"`, so they add nothing to it. */
  lemma {:induction false} XssRuleTokens(x: string)
    ensures MatchesAny(x, XssTokens) <==>
      Includes(x, "xss") || Includes(x, "cross-site scripting") || Includes(x, "script injection")
  {
    assert OccursAt("dom-based xss", "xss", 10);
    assert OccursAt("stored xss", "xss", 7);
    assert OccursAt("reflected xss", "xss", 10);
    if Includes(x, "dom-based xss") {
      assert Includes("dom-based xss", "xss") by { assert OccursAt("dom-based xss", "xss", 10); }
      IncludesTransitive(x, "dom-based xss", "xss");
    }
    if Includes(x, "stored xss") {
      assert Includes("stored xss", "xss") by { assert OccursAt("stored xss", "xss", 7); }
      IncludesTransitive(x, "stored xss", "xss");
    }
    if Includes(x, "reflected xss") {
      assert Includes("reflected xss", "xss") by { assert OccursAt("reflected xss", "xss", 10); }
      IncludesTransitive(x, "reflected xss", "xss");
    }
    assert XssTokens[0] == "xss" && XssTokens[1] == "cross-site scripting";
    assert XssTokens[2] == "script injection" && XssTokens[3] == "dom-based xss";
    assert XssTokens[4] == "stored xss" && XssTokens[5] == "reflected xss";
  }

  /** A string that contains `"script injection"` contains `"injection"`. */
  lemma ScriptInjectionHoldsInjection(x: string)
    ensures Includes(x, "script injection") ==> Includes(x, "injection")
  {
    if Includes(x, "script injection") {
      assert Includes("script injection", "injection") by { assert OccursAt("script injection", "injection", 7); }
      IncludesTransitive(x, "script injection", "injection");
    }
  }

  // ---------------------------------------------------------------------
  // Normalisation

  /** Whitespace padding around a string changes no rule's verdict. */
  lemma MatchesAnyPadded(s: string, m: string, p: int, tokens: seq<string>)
    requires PaddedAt(s, m, p)
    requires forall k :: 0 <= k < |tokens| ==> WellShapedToken(tokens[k])
    ensures MatchesAny(s, tokens) <==> MatchesAny(m, tokens)
  {
    forall k | 0 <= k < |tokens|
      ensures Includes(s, tokens[k]) <==> Includes(m, tokens[k])
    {
      IncludesIgnoresPadding(s, m, p, tokens[k]);
    }
  }

  /** The decision on a whitespace-padded string equals the decision on the string itself. */
  lemma DecidePadded(s: string, m: string, p: int)
    requires PaddedAt(s, m, p)
    ensures Decide(s) == Decide(m)
  {
    TokensWellShaped();
    MatchesAnyPadded(s, m, p, SqlTokens);
    MatchesAnyPadded(s, m, p, XssTokens);
    MatchesAnyPadded(s, m, p, SecretTokens);
  }

  /** Case-insensitivity: the result depends only on the lower-cased label. */
  lemma ClassifyIgnoresCase(vulnType: string)
    ensures Classify(Lower(vulnType)) == Classify(vulnType)
  {
    LowerIdempotent(vulnType);
  }

  /** Surrounding whitespace is irrelevant. */
  lemma ClassifyIgnoresPadding(before: string, vulnType: string, after: string)
    requires AllWhitespace(before) && AllWhitespace(after)
    ensures Classify(before + vulnType + after) == Classify(vulnType)
  {
    var x := Lower(vulnType);
    LowerAppend(before + vulnType, after);
    LowerAppend(before, vulnType);
    LowerKeepsNonCapitals(before);
    LowerKeepsNonCapitals(after);
    var s := before + x + after;
    assert Lower(before + vulnType + after) == s;
    assert s[..|before|] == before && s[|before| + |x|..] == after && s[|before|..|before| + |x|] == x;
    DecidePadded(s, x, |before|);
  }

  // ---------------------------------------------------------------------
  // The rules, stated on the lower-cased label

  /** Rule 1: `"sql"` or `"injection"` anywhere gives SQL Injection, whatever else the label holds. */
  lemma SqlRule(vulnType: string)
    ensures Classify(vulnType) == Some(SqlInjection) <==>
      Includes(Lower(vulnType), "sql") || Includes(Lower(vulnType), "injection")
  {
  }

  /** Rule 2: XSS exactly when rule 1 does not fire and `"xss"` or `"cross-site scripting"` occurs. */
  lemma XssRule(vulnType: string)
    ensures Classify(vulnType) == Some(Xss) <==>
      !Includes(Lower(vulnType), "sql") && !Includes(Lower(vulnType), "injection")
      && (Includes(Lower(vulnType), "xss") || Includes(Lower(vulnType), "cross-site scripting"))
  {
  }

  /** Rule 3: Hardcoded Secrets exactly when neither earlier rule fires and a secret token occurs. */
  lemma SecretsRule(vulnType: string)
    ensures Classify(vulnType) == Some(HardcodedSecrets) <==>
      !Includes(Lower(vulnType), "sql") && !Includes(Lower(vulnType), "injection")
      && !Includes(Lower(vulnType), "xss") && !Includes(Lower(vulnType), "cross-site scripting")
      && MatchesAny(Lower(vulnType), SecretTokens)
  {
  }

  /** Unclassified (`null`) exactly when no token of any rule occurs. */
  lemma UnclassifiedRule(vulnType: string)
    ensures Classify(vulnType) == None <==>
      !MatchesAny(Lower(vulnType), SqlTokens) && !MatchesAny(Lower(vulnType), XssTokens)
      && !MatchesAny(Lower(vulnType), SecretTokens)
  {
  }

  /** The rule-2 token `"script injection"` can never produce XSS: rule 1's `"injection"` fires first. */
  lemma ScriptInjectionIsNeverXss(vulnType: string)
    requires Includes(Lower(vulnType), "script injection")
    ensures Classify(vulnType) == Some(SqlInjection)
  {
    ScriptInjectionHoldsInjection(Lower(vulnType));
    SqlRule(vulnType);
  }

  // ---------------------------------------------------------------------
  // Worked examples

  /** No token's first character occurs in `x`, so no token occurs. */
  lemma NoFirstCharNoMatch(x: string, tokens: seq<string>)
    requires forall k :: 0 <= k < |tokens| ==> |tokens[k]| > 0 && tokens[k][0] !in x
    ensures !MatchesAny(x, tokens)
  {
    forall k | 0 <= k < |tokens| ensures !Includes(x, tokens[k]) {
      if Includes(x, tokens[k]) { IncludesFirstChar(x, tokens[k]); }
    }
  }

  /** The empty label is unclassified. */
  lemma EmptyIsUnclassified()
    ensures Classify("") == None
  {
    assert Lower("") == "";
    NoFirstCharNoMatch("", SqlTokens);
    NoFirstCharNoMatch("", XssTokens);
    NoFirstCharNoMatch("", SecretTokens);
    UnclassifiedRule("");
  }

  // The remaining examples take the label as a parameter fixed by `requires`:
  // with the literal in the contract, the verifier unfolds `Lower` on it
  // character by character and runs out of resource.

  /** `"buffer overflow"` holds no first letter of a rule-1 or rule-3 token. */
  lemma BufferOverflowMissesSqlAndSecrets(v: string)
    requires v == "buffer overflow"
    ensures !MatchesAny(v, SqlTokens) && !MatchesAny(v, SecretTokens)
  {
    NoFirstCharNoMatch(v, SqlTokens);
    NoFirstCharNoMatch(v, SecretTokens);
  }

  /** `"reflected xss"` starts with a letter of `"buffer"`, but every rule-2 token holds `x`, `c` or `s`. */
  lemma BufferOverflowMissesXss(v: string)
    requires v == "buffer overflow"
    ensures !MatchesAny(v, XssTokens)
  {
    assert 'x' !in v && 'c' !in v && 's' !in v;
    if Includes(v, "xss") { IncludesFirstChar(v, "xss"); }
    if Includes(v, "cross-site scripting") { IncludesFirstChar(v, "cross-site scripting"); }
    if Includes(v, "script injection") { IncludesFirstChar(v, "script injection"); }
    XssRuleTokens(v);
  }

  /** `"buffer overflow"` holds none of the tokens' first letters, so it is unclassified. */
  lemma BufferOverflowIsUnclassified(v: string)
    requires v == "buffer overflow"
    ensures Classify(v) == None
  {
    assert forall i :: 0 <= i < |v| ==> !IsAsciiUpper(v[i]);
    LowerKeepsNonCapitals(v);
    BufferOverflowMissesSqlAndSecrets(v);
    BufferOverflowMissesXss(v);
    UnclassifiedRule(v);
  }

  /** The lower-cased priority example starts with `sql`. */
  lemma PriorityExampleHoldsSql(v: string)
    requires v == "SQL Injection via Hardcoded Credential"
    ensures OccursAt(Lower(v), "sql", 0)
  {
    assert v[0] == 'S';
    assert v[1] == 'Q';
    assert v[2] == 'L';
    var x := Lower(v);
    assert x[0] == 's';
    assert x[1] == 'q';
    assert x[2] == 'l';
    assert x[0..3] == "sql";
  }

  /** The lower-cased priority example ends with `credential`, at index 28. */
  lemma PriorityExampleHoldsCredential(v: string)
    requires v == "SQL Injection via Hardcoded Credential"
    ensures OccursAt(Lower(v), "credential", 28)
  {
    assert v[28..38] == "Credential";
    assert v[28] == 'C';
    assert forall k :: 29 <= k < 38 ==> !IsAsciiUpper(v[k]);
    var x := Lower(v);
    assert x[28] == 'c';
    assert forall k :: 29 <= k < 38 ==> x[k] == v[k];
    assert x[28..38] == "credential";
  }

  /** Rule 1 outranks rule 3: this label also holds the secret token `"credential"`. */
  lemma SqlOutranksSecrets(v: string)
    requires v == "SQL Injection via Hardcoded Credential"
    ensures MatchesAny(Lower(v), SecretTokens)
    ensures Classify(v) == Some(SqlInjection)
  {
    PriorityExampleHoldsSql(v);
    PriorityExampleHoldsCredential(v);
    assert Includes(Lower(v), SecretTokens[2]);
    SqlRule(v);
  }
}
