/**
  The question-to-Cypher pipeline of `EnhancedGraphRAG`: intent
  classification, entity extraction, template generation, candidate
  clean-up, the deny-list safety screen, dry-run capping, best-candidate
  selection with a fixed fallback, the widen-once final execution, and the
  parsing of the model's coreference answer.

  The language model and Neo4j are oracles: the model's replies are
  parameters, `EXPLAIN` is a function from the statement to an optional
  error message, and running a statement is a function to rows or an error.
 */
module GraphAnswer {
  import opened Wrappers
  import opened Text
  import opened Records

  // ---------------------------------------------------------------------
  // Intent classification

  datatype Intent = NutritionQuery | BrandQuery | CategoryQuery | IngredientQuery | GeneralQuery

  const NutritionFamily: seq<string> := ["protein", "calories", "fat", "sodium", "sugar", "vitamin", "nutrition"]
  const BrandFamily: seq<string> := ["brand", "nestle", "owns", "company"]
  const CategoryFamily: seq<string> := ["category", "type", "dairy", "snack", "beverage"]
  const IngredientFamily: seq<string> := ["ingredient", "contains", "made with"]

  /** Some word of the family occurs in the text. */
  predicate MentionsAny(text: string, words: seq<string>) {
    exists i :: 0 <= i < |words| && Contains(text, words[i])
  }

  /** `_classify_query_intent`: substring search on the lower-cased
      question; the families are tried nutrition, brand, category,
      ingredient, and the first one with a word in the question decides. */
  function ClassifyQueryIntent(question: string): (r: Intent)
    ensures var q := Lower(question);
      && (r == NutritionQuery <==> MentionsAny(q, NutritionFamily))
      && (r == BrandQuery <==> !MentionsAny(q, NutritionFamily) && MentionsAny(q, BrandFamily))
      && (r == CategoryQuery <==> !MentionsAny(q, NutritionFamily) && !MentionsAny(q, BrandFamily)
                                  && MentionsAny(q, CategoryFamily))
      && (r == IngredientQuery <==> !MentionsAny(q, NutritionFamily) && !MentionsAny(q, BrandFamily)
                                    && !MentionsAny(q, CategoryFamily) && MentionsAny(q, IngredientFamily))
      && (r == GeneralQuery <==> !MentionsAny(q, NutritionFamily) && !MentionsAny(q, BrandFamily)
                                 && !MentionsAny(q, CategoryFamily) && !MentionsAny(q, IngredientFamily))
  {
    var q := Lower(question);
    if MentionsAny(q, NutritionFamily) then NutritionQuery
    else if MentionsAny(q, BrandFamily) then BrandQuery
    else if MentionsAny(q, CategoryFamily) then CategoryQuery
    else if MentionsAny(q, IngredientFamily) then IngredientQuery
    else GeneralQuery
  }

  /** A question naming both a nutrient and a brand is a nutrition query:
      the nutrition family is checked first. */
  lemma NutritionBeatsBrand(question: string)
    requires MentionsAny(Lower(question), NutritionFamily)
    ensures ClassifyQueryIntent(question) == NutritionQuery
  {
  }

  lemma ProteinFromNestle()
    ensures ClassifyQueryIntent("protein from nestle") == NutritionQuery
  {
    assert Lower("protein from nestle") == "protein from nestle";
    assert "protein" <= "protein from nestle";
    assert Contains("protein from nestle", NutritionFamily[0]);
  }

  // ---------------------------------------------------------------------
  // Entity extraction

  const NutritionKeywords: seq<string> :=
    ["protein", "calories", "fat", "saturated fat", "trans fat", "sodium", "cholesterol", "sodium",
     "carbohydrate", "sugar", "vitamin", "dietary fiber", "iron", "potassium", "calcium"]

  const BrandKeywords: seq<string> :=
    ["nestle", "nestlé", "aero", "coffee crisp", "after eight", "big turk", "kit kat"]

  datatype Entities = Entities(nutritionNames: seq<string>, productNames: seq<string>,
                               brandNames: seq<string>, numbers: seq<nat>)

  /** The vocabulary words that occur in the text, in vocabulary order and
      with the vocabulary's repetitions. */
  function Mentioned(vocabulary: seq<string>, text: string): (r: seq<string>)
    ensures |r| <= |vocabulary|
    ensures forall w :: w in r ==> w in vocabulary && Contains(text, w)
    ensures forall i :: 0 <= i < |vocabulary| && Contains(text, vocabulary[i]) ==> vocabulary[i] in r
  {
    if vocabulary == [] then []
    else
      var last := vocabulary[|vocabulary| - 1];
      var prefix := vocabulary[..|vocabulary| - 1];
      assert forall i :: 0 <= i < |prefix| ==> prefix[i] == vocabulary[i];
      Mentioned(prefix, text) + (if Contains(text, last) then [last] else [])
  }

  /** Each word appears as often as the vocabulary lists it, when it occurs
      in the text, and not at all otherwise. */
  lemma {:induction false} MentionedCount(vocabulary: seq<string>, text: string, w: string)
    ensures multiset(Mentioned(vocabulary, text))[w] == if Contains(text, w) then multiset(vocabulary)[w] else 0
  {
    if vocabulary != [] {
      var last := vocabulary[|vocabulary| - 1];
      var prefix := vocabulary[..|vocabulary| - 1];
      MentionedCount(prefix, text, w);
      assert vocabulary == prefix + [last];
      assert multiset(vocabulary) == multiset(prefix) + multiset{last};
      var extra := if Contains(text, last) then [last] else [];
      assert Mentioned(vocabulary, text) == Mentioned(prefix, text) + extra;
      assert multiset(Mentioned(vocabulary, text)) == multiset(Mentioned(prefix, text)) + multiset(extra);
    }
  }

  /** The positions of the vocabulary words that occur in the text, in
      increasing order. */
  ghost function Positions(vocabulary: seq<string>, text: string): (idx: seq<nat>)
    ensures forall k :: 0 <= k < |idx| ==> idx[k] < |vocabulary|
    ensures forall k, l :: 0 <= k < l < |idx| ==> idx[k] < idx[l]
    ensures forall i :: 0 <= i < |vocabulary| ==> (i in idx <==> Contains(text, vocabulary[i]))
  {
    if vocabulary == [] then []
    else
      var n := |vocabulary| - 1;
      var prefix := vocabulary[..n];
      assert forall i :: 0 <= i < n ==> prefix[i] == vocabulary[i];
      Positions(prefix, text) + (if Contains(text, vocabulary[n]) then [n] else [])
  }

  /** The mentioned words are the vocabulary filtered in order: the k-th
      word reported is the vocabulary word at the k-th position where a
      word of the vocabulary occurs in the text. */
  lemma {:induction false} MentionedInOrder(vocabulary: seq<string>, text: string)
    ensures var r := Mentioned(vocabulary, text); var idx := Positions(vocabulary, text);
      |r| == |idx| && forall k :: 0 <= k < |r| ==> r[k] == vocabulary[idx[k]]
  {
    if vocabulary != [] {
      var n := |vocabulary| - 1;
      var prefix := vocabulary[..n];
      MentionedInOrder(prefix, text);
      FilterStep(vocabulary, text);
      var r, idx := Mentioned(vocabulary, text), Positions(vocabulary, text);
      var rp, ip := Mentioned(prefix, text), Positions(prefix, text);
      assert |rp| == |ip|;
      if Contains(text, vocabulary[n]) {
        assert r == rp + [vocabulary[n]] && idx == ip + [n];
      } else {
        assert r == rp && idx == ip;
      }
      forall k | 0 <= k < |r|
        ensures r[k] == vocabulary[idx[k]]
      {
        if k < |rp| {
          assert r[k] == rp[k] && idx[k] == ip[k];
          assert prefix[ip[k]] == vocabulary[ip[k]];
        }
      }
    }
  }

  /** Both filters extend the prefix's result by the last word or its
      position exactly when the last word occurs. */
  lemma FilterStep(vocabulary: seq<string>, text: string)
    requires vocabulary != []
    ensures var n := |vocabulary| - 1; var hit := Contains(text, vocabulary[n]);
      && Mentioned(vocabulary, text) == Mentioned(vocabulary[..n], text) + (if hit then [vocabulary[n]] else [])
      && Positions(vocabulary, text) == Positions(vocabulary[..n], text) + (if hit then [n] else [])
  {
  }

  /** "sodium" is listed twice, so it is reported twice. */
  lemma SodiumReportedTwice(text: string)
    requires Contains(text, "sodium")
    ensures multiset(Mentioned(NutritionKeywords, text))["sodium"] == 2
  {
    MentionedCount(NutritionKeywords, text, "sodium");
    SodiumListedTwice();
  }

  lemma SodiumListedTwice()
    ensures multiset(NutritionKeywords)["sodium"] == 2
  {
    var v := NutritionKeywords;
    assert v[5] == "sodium" && v[7] == "sodium";
    assert forall k :: 0 <= k < |v| && k != 5 && k != 7 ==> |v[k]| != 6;
    ListedTwice(v, "sodium", 5, 7);
  }

  lemma ListedTwice(v: seq<string>, w: string, i: nat, j: nat)
    requires i < j < |v| && v[i] == w && v[j] == w
    requires forall k :: 0 <= k < |v| && k != i && k != j ==> v[k] != w
    ensures multiset(v)[w] == 2
  {
    var a, b, c := v[..i], v[i + 1..j], v[j + 1..];
    assert v == a + [v[i]] + b + [v[j]] + c;
    assert w !in a && w !in b && w !in c;
  }

  /** Length of the run of ASCII digits at the start of `s`. */
  function LeadingDigits(s: string): (n: nat)
    ensures n <= |s|
    ensures forall i :: 0 <= i < n ==> IsDigit(s[i])
    ensures n == |s| || !IsDigit(s[n])
  {
    if s != [] && IsDigit(s[0]) then 1 + LeadingDigits(s[1..]) else 0
  }

  /** `re.findall(r'\d+', s)` read with `int`: the maximal digit runs,
      left to right. */
  function DigitRuns(s: string): seq<nat>
    decreases |s|
  {
    if s == [] then []
    else if IsDigit(s[0]) then
      var n := LeadingDigits(s);
      [DigitsValue(s[..n])] + DigitRuns(s[n..])
    else DigitRuns(s[1..])
  }

  /** Text without digits holds no numbers. */
  lemma {:induction false} DigitRunsNone(s: string)
    requires forall i :: 0 <= i < |s| ==> !IsDigit(s[i])
    ensures DigitRuns(s) == []
  {
    if s != [] {
      DigitRunsNone(s[1..]);
    }
  }

  /** A non-digit separates runs: the numbers of the two sides are listed
      one after the other. */
  lemma {:induction false} DigitRunsSeparated(a: string, c: char, b: string)
    requires !IsDigit(c)
    ensures DigitRuns(a + [c] + b) == DigitRuns(a) + DigitRuns(b)
    decreases |a|
  {
    var s := a + [c] + b;
    if a == [] {
      assert s[1..] == b;
    } else if IsDigit(a[0]) {
      var n := LeadingDigits(a);
      LeadingDigitsExtend(a, [c] + b);
      assert s == a + ([c] + b);
      assert s[..n] == a[..n];
      if n < |a| {
        assert s[n..] == a[n..] + [c] + b;
        DigitRunsSeparated(a[n..], c, b);
      } else {
        assert s[n..] == [c] + b;
        assert a[n..] == [];
        assert ([c] + b)[1..] == b;
      }
    } else {
      assert s[1..] == a[1..] + [c] + b;
      DigitRunsSeparated(a[1..], c, b);
    }
  }

  lemma {:induction false} LeadingDigitsExtend(a: string, b: string)
    requires LeadingDigits(a) < |a| || b == [] || !IsDigit(b[0])
    ensures LeadingDigits(a + b) == LeadingDigits(a)
  {
    if a != [] && IsDigit(a[0]) {
      assert (a + b)[1..] == a[1..] + b;
      LeadingDigitsExtend(a[1..], b);
    }
  }

  /** The decimal text of a number reads back as that one number. */
  lemma NumeralReadsBack(n: nat)
    ensures DigitRuns(NatToString(n)) == [n]
  {
    var s := NatToString(n);
    AllDigitsLeading(s);
    assert s[..|s|] == s;
    assert s[|s|..] == [];
  }

  lemma {:induction false} AllDigitsLeading(s: string)
    requires forall i :: 0 <= i < |s| ==> IsDigit(s[i])
    ensures LeadingDigits(s) == |s|
  {
    if s != [] {
      AllDigitsLeading(s[1..]);
    }
  }

  /** `_extract_entities`: vocabulary words found in the lower-cased
      question, in vocabulary order, and every decimal number in it. */
  method ExtractEntities(question: string) returns (e: Entities)
    ensures e.nutritionNames == Mentioned(NutritionKeywords, Lower(question))
    ensures e.brandNames == Mentioned(BrandKeywords, Lower(question))
    ensures e.productNames == []
    ensures e.numbers == DigitRuns(question)
  {
    var q := Lower(question);
    var nutrition := MentionedWords(NutritionKeywords, q);
    var brands := MentionedWords(BrandKeywords, q);
    e := Entities(nutrition, [], brands, DigitRuns(question));
  }

  /** The scan `[k for k in vocabulary if k in text]`. */
  method MentionedWords(vocabulary: seq<string>, text: string) returns (found: seq<string>)
    ensures found == Mentioned(vocabulary, text)
  {
    found := [];
    for k := 0 to |vocabulary|
      invariant found == Mentioned(vocabulary[..k], text)
    {
      if Contains(text, vocabulary[k]) {
        found := found + [vocabulary[k]];
      }
      assert vocabulary[..k + 1][..k] == vocabulary[..k];
    }
    assert vocabulary[..|vocabulary|] == vocabulary;
  }

  // ---------------------------------------------------------------------
  // Validation and dry-run capping

  /** `EXPLAIN` oracle: `None` when the store accepts the plan, otherwise the
      store's error message. */
  type Explain = string -> Option<string>

  /** A result row. */
  type Row = map<string, string>

  /** Outcome of running a statement. */
  datatype RunResult = Rows(rows: seq<Row>) | RunError(message: string)

  /** Run oracle: the outcome of running a statement against the store. */
  type Run = string -> RunResult

  const DangerousKeywords: seq<string> := ["CREATE", "DELETE", "MERGE", "SET", "REMOVE", "DROP"]

  /** The first keyword of the list that occurs in the text. */
  function FirstListed(text: string, keywords: seq<string>): (r: Option<string>)
    ensures r.Some? ==>
              exists i :: (0 <= i < |keywords| && keywords[i] == r.value && Contains(text, r.value)
                           && forall j :: 0 <= j < i ==> !Contains(text, keywords[j]))
    ensures r.None? <==> forall i :: 0 <= i < |keywords| ==> !Contains(text, keywords[i])
  {
    if keywords == [] then None
    else if Contains(text, keywords[0]) then Some(keywords[0])
    else
      var r := FirstListed(text, keywords[1..]);
      assert forall i :: 1 <= i < |keywords| ==> keywords[i] == keywords[1..][i - 1];
      r
  }

  /** The deny-list screen: the first dangerous keyword that occurs as a
      plain substring of the upper-cased query. */
  function DangerousKeyword(cypher: string): Option<string> {
    FirstListed(Upper(cypher), DangerousKeywords)
  }

  datatype Verdict = Verdict(valid: bool, message: string)

  /** `_validate_cypher_syntax`: blank queries and queries that trip the
      deny-list are rejected before `EXPLAIN` is asked. */
  function ValidateCypherSyntax(cypher: string, explain: Explain): (v: Verdict)
    ensures Strip(cypher) == [] ==> v == Verdict(false, "Empty query")
    ensures Strip(cypher) != [] && DangerousKeyword(cypher).Some? ==>
              v == Verdict(false, "Dangerous operation detected: " + DangerousKeyword(cypher).value)
    ensures v.valid <==> Strip(cypher) != [] && DangerousKeyword(cypher).None? && explain("EXPLAIN " + cypher).None?
    ensures v.valid ==> v.message == "Valid"
  {
    if Strip(cypher) == [] then Verdict(false, "Empty query")
    else match DangerousKeyword(cypher)
      case Some(k) => Verdict(false, "Dangerous operation detected: " + k)
      case None =>
        match explain("EXPLAIN " + cypher)
        case None => Verdict(true, "Valid")
        case Some(error) => Verdict(false, error)
  }

  /** Deny-listed words are matched as plain substrings: a read-only
      query that uses OFFSET is refused as a SET operation. */
  lemma OffsetIsRefused(cypher: string, explain: Explain)
    requires Strip(cypher) != [] && Contains(Upper(cypher), "OFFSET")
    requires var u := Upper(cypher); !Contains(u, "CREATE") && !Contains(u, "DELETE") && !Contains(u, "MERGE")
    ensures ValidateCypherSyntax(cypher, explain) == Verdict(false, "Dangerous operation detected: SET")
  {
    OffsetScreened(Upper(cypher));
    SetRejected(cypher, explain);
  }

  lemma SetRejected(cypher: string, explain: Explain)
    requires Strip(cypher) != [] && DangerousKeyword(cypher) == Some("SET")
    ensures ValidateCypherSyntax(cypher, explain) == Verdict(false, "Dangerous operation detected: SET")
  {
  }

  lemma OffsetScreened(u: string)
    requires Contains(u, "OFFSET")
    requires !Contains(u, "CREATE") && !Contains(u, "DELETE") && !Contains(u, "MERGE")
    ensures FirstListed(u, DangerousKeywords) == Some("SET")
  {
    assert "OFFSET"[3..6] == "SET";
    ContainsSlice(u, "OFFSET", 3, 6);
    var ks := DangerousKeywords;
    assert ks[3] == "SET";
    assert FirstListed(u, ks[3..]) == Some("SET");
    assert FirstListed(u, ks[2..]) == Some("SET");
    assert FirstListed(u, ks[1..]) == Some("SET");
  }

  const DryRunLimit: string := " LIMIT 5"

  /** The statement actually run by `_test_cypher_execution`: the query,
      with " LIMIT 5" appended unless its upper-cased text already says
      LIMIT. */
  function DryRunText(cypher: string): (r: string)
    ensures Contains(Upper(r), "LIMIT")
    ensures Contains(Upper(cypher), "LIMIT") ==> r == cypher
    ensures !Contains(Upper(cypher), "LIMIT") ==> r == cypher + DryRunLimit
  {
    if Contains(Upper(cypher), "LIMIT") then cypher
    else
      UpperAppend(cypher, DryRunLimit);
      assert Upper(DryRunLimit) == " LIMIT 5";
      assert Upper(DryRunLimit)[1..6] == "LIMIT";
      ContainsAt(Upper(DryRunLimit), 1, "LIMIT");
      ContainsAppendRight(Upper(cypher), Upper(DryRunLimit), "LIMIT");
      cypher + DryRunLimit
  }

  /** Capping twice is capping once. */
  lemma DryRunIdempotent(cypher: string)
    ensures DryRunText(DryRunText(cypher)) == DryRunText(cypher)
  {
  }

  // ---------------------------------------------------------------------
  // Template generation

  const NutritionTemplateHead: string := "MATCH (p:Product)-[:HAS_NUTRITION]->(n:Nutrition) WHERE toLower(n.name) = '"
  const NutritionTemplateTail: string := "' RETURN p.name, p.url, n.value"
  const BrandTemplateHead: string := "MATCH (b:Brand)-[:OWNS]->(p:Product) WHERE toLower(b.name) CONTAINS '"
  const BrandTemplateTail: string := "' RETURN p.name, p.url"

  /** `_template_based_generation`: only a nutrition query with a nutrient
      or a brand query with a brand gets a template, filled with the first
      entity; every other intent, categories included, gets none. */
  function TemplateBasedGeneration(entities: Entities, intent: Intent): (r: Option<string>)
    ensures r.Some? <==> (intent == NutritionQuery && |entities.nutritionNames| > 0)
                         || (intent == BrandQuery && |entities.brandNames| > 0)
    ensures r.Some? && intent == NutritionQuery ==>
              r.value == NutritionTemplateHead + entities.nutritionNames[0] + NutritionTemplateTail
    ensures r.Some? && intent == BrandQuery ==>
              r.value == BrandTemplateHead + entities.brandNames[0] + BrandTemplateTail
  {
    if intent == NutritionQuery && |entities.nutritionNames| > 0 then
      Some(NutritionTemplateHead + entities.nutritionNames[0] + NutritionTemplateTail)
    else if intent == BrandQuery && |entities.brandNames| > 0 then
      Some(BrandTemplateHead + entities.brandNames[0] + BrandTemplateTail)
    else None
  }

  // ---------------------------------------------------------------------
  // Candidate clean-up

  const FenceTagged: string := "```cypher"
  const Fence: string := "```"

  /** `re.sub(r'```cypher\n?|```\n?', '', s)`: left to right, the tagged
      fence is preferred, and one newline after a fence goes with it. No
      fence is left behind, and the result opens with a backtick (or two)
      only where the text does. */
  function StripFences(s: string): (r: string)
    ensures |r| <= |s|
    ensures !Contains(r, Fence)
    ensures r != [] && r[0] == '`' ==> s[0] == '`'
    ensures |r| >= 2 && r[0] == '`' && r[1] == '`' ==> s[0] == '`' && s[1] == '`'
    decreases |s|
  {
    if FenceTagged <= s then
      var rest := s[|FenceTagged|..];
      StripFences(if rest != [] && rest[0] == '\n' then rest[1..] else rest)
    else if Fence <= s then
      var rest := s[|Fence|..];
      StripFences(if rest != [] && rest[0] == '\n' then rest[1..] else rest)
    else if s == [] then []
    else
      var tail := StripFences(s[1..]);
      FenceOpens(s);
      NoFenceCons(s[0], tail);
      [s[0]] + tail
  }

  /** Three backticks at the start are a fence. */
  lemma FenceOpens(s: string)
    ensures |s| >= 3 && s[0] == '`' && s[1] == '`' && s[2] == '`' ==> Fence <= s
  {
    if |s| >= 3 && s[0] == '`' && s[1] == '`' && s[2] == '`' {
      assert s[..3] == Fence;
    }
  }

  /** A character in front of fence-free text makes a fence only when it
      and the next two are backticks. */
  lemma NoFenceCons(c: char, t: string)
    requires !Contains(t, Fence)
    requires !(c == '`' && |t| >= 2 && t[0] == '`' && t[1] == '`')
    ensures !Contains([c] + t, Fence)
  {
    assert ([c] + t)[1..] == t;
    var u := [c] + t;
    assert |Fence| == 3 && Fence[0] == '`' && Fence[1] == '`' && Fence[2] == '`';
    if |u| >= 3 {
      assert u[..3] != Fence by {
        assert u[..3][0] == c && u[..3][1] == t[0] && u[..3][2] == t[1];
      }
    }
  }

  /** Text without a backtick has no fence to remove. */
  lemma {:induction false} StripFencesNoBacktick(s: string)
    requires '`' !in s
    ensures StripFences(s) == s
  {
    if s != [] {
      assert !(Fence <= s) && !(FenceTagged <= s) by { assert s[0] != '`'; }
      StripFencesNoBacktick(s[1..]);
    }
  }

  /** A fenced reply loses exactly its fences. */
  lemma FencedQuery(q: string)
    requires '`' !in q
    ensures StripFences(FenceTagged + "\n" + q + Fence) == q
  {
    var s := FenceTagged + "\n" + q + Fence;
    assert FenceTagged <= s;
    assert s[|FenceTagged|..] == "\n" + q + Fence;
    assert ("\n" + q + Fence)[1..] == q + Fence;
    FenceAfterPlain(q);
  }

  lemma {:induction false} FenceAfterPlain(q: string)
    requires '`' !in q
    ensures StripFences(q + Fence) == q
  {
    if q == [] {
      assert Fence <= Fence;
      assert Fence[|Fence|..] == [];
    } else {
      assert !(Fence <= q + Fence) && !(FenceTagged <= q + Fence) by { assert (q + Fence)[0] != '`'; }
      assert (q + Fence)[1..] == q[1..] + Fence;
      FenceAfterPlain(q[1..]);
    }
  }

  /** The marker `_fix_common_cypher_errors` looks for, and the pattern it rewrites. */
  const NameLead: string := "name ="
  const NameEquals: string := NameLead + " \""
  const LowerNameEquals: string := "toLower(name) = \""

  /** Length of the run of characters other than '"' at the start. */
  function UnquotedRun(s: string): (n: nat)
    ensures n <= |s|
    ensures forall i :: 0 <= i < n ==> s[i] != '"'
    ensures n == |s| || s[n] == '"'
  {
    if s != [] && s[0] != '"' then 1 + UnquotedRun(s[1..]) else 0
  }

  /** `re.sub(r'name = "([^"]+)"', r'toLower(name) = "\1"', s)` */
  function RewriteNameEquals(s: string): string
    decreases |s|
  {
    if NameEquals <= s
       && var n := UnquotedRun(s[|NameEquals|..]); 0 < n < |s| - |NameEquals|
    then
      var body := s[|NameEquals|..];
      var n := UnquotedRun(body);
      LowerNameEquals + body[..n] + "\"" + RewriteNameEquals(body[n + 1..])
    else if s == [] then []
    else [s[0]] + RewriteNameEquals(s[1..])
  }

  /** A quoted name comparison becomes a case-insensitive one, and the
      rewriting goes on after its closing quote. */
  lemma NameComparisonThen(x: string, b: string)
    requires x != [] && '"' !in x
    ensures RewriteNameEquals(NameEquals + x + "\"" + b) == LowerNameEquals + x + "\"" + RewriteNameEquals(b)
  {
    var s := NameEquals + x + "\"" + b;
    var body := s[|NameEquals|..];
    assert body == x + "\"" + b;
    assert UnquotedRun(body) == |x| by { UnquotedRunStops(x, b); }
    assert body[..|x|] == x;
    assert body[|x| + 1..] == b;
    assert RewriteNameEquals(s) == LowerNameEquals + body[..|x|] + "\"" + RewriteNameEquals(body[|x| + 1..]);
  }

  lemma NameComparisonLowered(x: string)
    requires x != [] && '"' !in x
    ensures RewriteNameEquals(NameEquals + x + "\"") == LowerNameEquals + x + "\""
  {
    NameComparisonThen(x, []);
    assert NameEquals + x + "\"" + [] == NameEquals + x + "\"";
    assert LowerNameEquals + x + "\"" + [] == LowerNameEquals + x + "\"";
  }

  lemma {:induction false} UnquotedRunStops(x: string, b: string)
    requires '"' !in x
    ensures UnquotedRun(x + "\"" + b) == |x|
  {
    if x != [] {
      assert (x + "\"" + b)[1..] == x[1..] + "\"" + b;
      UnquotedRunStops(x[1..], b);
    }
  }

  /** Text without '"' before a `name = "` is copied unchanged. */
  lemma {:induction false} RewriteNameEqualsSkip(a: string, rest: string)
    requires '"' !in a && NameEquals <= rest
    ensures RewriteNameEquals(a + rest) == a + RewriteNameEquals(rest)
  {
    if a != [] {
      var s := a + rest;
      assert s[7] != '"' by {
        if |a| <= 7 { assert s[7] == NameEquals[7 - |a|]; } else { assert s[7] == a[7]; }
      }
      assert !(NameEquals <= s);
      assert RewriteNameEquals(s) == [s[0]] + RewriteNameEquals(s[1..]);
      assert s[1..] == a[1..] + rest;
      RewriteNameEqualsSkip(a[1..], rest);
      ConcatAssoc([a[0]], a[1..], RewriteNameEquals(rest));
      assert [a[0]] + a[1..] == a;
    } else {
      assert a + rest == rest;
    }
  }

  /** Text without `name = "` is left alone. */
  lemma {:induction false} RewriteNameEqualsAbsent(s: string)
    requires !Contains(s, NameEquals)
    ensures RewriteNameEquals(s) == s
    decreases |s|
  {
    if s != [] {
      RewriteNameEqualsAbsent(s[1..]);
    }
  }

  /** `_fix_common_cypher_errors`: fences removed, `name = "x"` lowered when
      the query has no `toLower(`, then trimmed. */
  function FixCommonCypherErrors(cypher: string): (r: string)
    ensures r == [] || (!IsSpace(r[0]) && !IsSpace(r[|r| - 1]))
    ensures var f := StripFences(cypher);
            !(Contains(f, NameLead) && !Contains(f, "toLower(")) ==> r == Strip(f)
    ensures var f := StripFences(cypher);
            Contains(f, NameLead) && !Contains(f, "toLower(") ==> r == Strip(RewriteNameEquals(f))
    ensures !Contains(r, Fence)
  {
    var f := StripFences(cypher);
    var g := if Contains(f, NameLead) && !Contains(f, "toLower(") then RewriteNameEquals(f) else f;
    RewriteNameEqualsNoFence(f);
    StripKeepsAbsent(g, Fence);
    Strip(g)
  }

  /** Two fence-free texts make a fence together only when the first ends
      and the second starts with a backtick. */
  lemma {:induction false} NoFenceConcat(a: string, b: string)
    requires !Contains(a, Fence) && !Contains(b, Fence)
    requires a == [] || b == [] || a[|a| - 1] != '`' || b[0] != '`'
    ensures !Contains(a + b, Fence)
    decreases |a|
  {
    if a == [] {
      assert a + b == b;
    } else if b == [] {
      assert a + b == a;
    } else {
      var u := a + b;
      assert u[1..] == a[1..] + b;
      assert !Contains(a[1..], Fence);
      if |a| > 1 {
        assert a[1..][|a[1..]| - 1] == a[|a| - 1];
      }
      NoFenceConcat(a[1..], b);
      assert |Fence| == 3 && Fence[0] == '`' && Fence[1] == '`' && Fence[2] == '`';
      if |u| >= 3 {
        assert u[..3] != Fence by {
          if |a| >= 3 {
            assert u[..3] == a[..3];
            assert !(Fence <= a);
          } else if |a| == 2 {
            assert u[..3][1] == a[1] && u[..3][2] == b[0];
          } else {
            assert u[..3][0] == a[0] && u[..3][1] == b[0];
          }
        }
      }
    }
  }

  /** The rewrite opens with a backtick only where its input does. */
  lemma RewriteNameEqualsStart(t: string)
    ensures RewriteNameEquals(t) != [] && RewriteNameEquals(t)[0] == '`' ==> t != [] && t[0] == '`'
  {
    assert LowerNameEquals[0] == 't';
  }

  lemma RewriteNameEqualsStartTwo(t: string)
    ensures |RewriteNameEquals(t)| >= 2 && RewriteNameEquals(t)[0] == '`' && RewriteNameEquals(t)[1] == '`' ==>
              |t| >= 2 && t[0] == '`' && t[1] == '`'
  {
    assert LowerNameEquals[0] == 't';
    RewriteNameEqualsStart(t);
    if t != [] {
      RewriteNameEqualsStart(t[1..]);
    }
  }

  /** A lowered comparison between fence-free texts makes no fence. */
  lemma LoweredComparisonNoFence(x: string, tail: string)
    requires !Contains(x, Fence) && !Contains(tail, Fence)
    ensures !Contains(LowerNameEquals + x + "\"" + tail, Fence)
  {
    MissingCharNotContained(LowerNameEquals, Fence, 0);
    MissingCharNotContained("\"", Fence, 0);
    NoFenceConcat(LowerNameEquals, x);
    NoFenceConcat("\"", tail);
    NoFenceConcat(LowerNameEquals + x, "\"" + tail);
    ConcatAssoc(LowerNameEquals + x, "\"", tail);
  }

  /** A copied character in front of the rewritten rest makes no fence. */
  lemma CopiedNoFence(s: string)
    requires s != [] && !Contains(s, Fence) && !Contains(RewriteNameEquals(s[1..]), Fence)
    ensures !Contains([s[0]] + RewriteNameEquals(s[1..]), Fence)
  {
    RewriteNameEqualsStartTwo(s[1..]);
    FenceOpens(s);
    NoFenceCons(s[0], RewriteNameEquals(s[1..]));
  }

  /** Lowering name comparisons joins no backticks into a fence. */
  lemma {:induction false} RewriteNameEqualsNoFence(s: string)
    requires !Contains(s, Fence)
    ensures !Contains(RewriteNameEquals(s), Fence)
    decreases |s|
  {
    if NameEquals <= s
       && var n := UnquotedRun(s[|NameEquals|..]); 0 < n < |s| - |NameEquals|
    {
      var body := s[|NameEquals|..];
      var n := UnquotedRun(body);
      var rest := body[n + 1..];
      assert rest == s[|NameEquals| + n + 1..|s|];
      assert body[..n] == s[|NameEquals|..|NameEquals| + n];
      NotContainedInSlice(s, Fence, |NameEquals| + n + 1, |s|);
      NotContainedInSlice(s, Fence, |NameEquals|, |NameEquals| + n);
      RewriteNameEqualsNoFence(rest);
      LoweredComparisonNoFence(body[..n], RewriteNameEquals(rest));
    } else if s != [] {
      assert !Contains(s[1..], Fence);
      RewriteNameEqualsNoFence(s[1..]);
      CopiedNoFence(s);
    }
  }

  /** A plain reply without fences or name comparisons is only trimmed. */
  lemma PlainReplyOnlyTrimmed(cypher: string)
    requires '`' !in cypher && !Contains(cypher, NameLead)
    ensures FixCommonCypherErrors(cypher) == Strip(cypher)
  {
    StripFencesNoBacktick(cypher);
  }

  /** One `name = "x"` among text without '"' is the only change. */
  lemma RewriteOneComparison(a: string, x: string, b: string)
    requires x != [] && '"' !in a && '"' !in x && '"' !in b
    ensures RewriteNameEquals(a + NameEquals + x + "\"" + b) == a + (LowerNameEquals + x + "\"" + b)
  {
    var rest := NameEquals + x + "\"" + b;
    assert NameEquals <= rest;
    assert a + NameEquals + x + "\"" + b == a + rest;
    MissingCharNotContained(b, NameEquals, 7);
    calc {
      RewriteNameEquals(a + rest);
      { RewriteNameEqualsSkip(a, rest); }
      a + RewriteNameEquals(rest);
      { NameComparisonThen(x, b); }
      a + (LowerNameEquals + x + "\"" + RewriteNameEquals(b));
      { RewriteNameEqualsAbsent(b); }
      a + (LowerNameEquals + x + "\"" + b);
    }
  }

  lemma NamedReplyUnfenced(a: string, x: string, b: string)
    requires '`' !in a && '`' !in x && '`' !in b
    ensures StripFences(a + NameEquals + x + "\"" + b) == a + NameEquals + x + "\"" + b
  {
    var q := a + NameEquals + x + "\"" + b;
    assert '`' !in q by { QuotesNoBacktick(); }
    StripFencesNoBacktick(q);
  }

  lemma QuotesNoBacktick()
    ensures '`' !in NameEquals && '`' !in "\""
  {
  }

  lemma NamedReplyMarked(a: string, x: string, b: string)
    ensures Contains(a + NameEquals + x + "\"" + b, NameLead)
  {
    var q := a + NameEquals + x + "\"" + b;
    ContainsMiddle(a, NameEquals, x);
    ContainsAppendLeft(a + NameEquals + x, "\"", NameEquals);
    ContainsAppendLeft(a + NameEquals + x + "\"", b, NameEquals);
    assert NameEquals[0..|NameLead|] == NameLead;
    ContainsSlice(q, NameEquals, 0, |NameLead|);
  }

  /** A fence-free reply with one `name = "x"` and no `toLower(` comes back
      with that comparison made case-insensitive. */
  lemma FixLowersNameComparison(a: string, x: string, b: string)
    requires x != [] && '"' !in a && '"' !in x && '"' !in b
    requires '`' !in a && '`' !in x && '`' !in b
    requires !Contains(a + NameEquals + x + "\"" + b, "toLower(")
    ensures FixCommonCypherErrors(a + NameEquals + x + "\"" + b) == Strip(a + LowerNameEquals + x + "\"" + b)
    ensures Contains(FixCommonCypherErrors(a + NameEquals + x + "\"" + b), LowerNameEquals + x + "\"")
  {
    var q := a + NameEquals + x + "\"" + b;
    var lowered := LowerNameEquals + x + "\"";
    var r := a + lowered + b;
    NamedReplyUnfenced(a, x, b);
    NamedReplyMarked(a, x, b);
    RewriteOneComparison(a, x, b);
    ConcatAssoc(a, lowered, b);
    assert r == a + LowerNameEquals + x + "\"" + b by {
      ConcatAssoc(a, LowerNameEquals + x, "\"");
      ConcatAssoc(a, LowerNameEquals, x);
    }
    ContainsMiddle(a, lowered, b);
    StripKeepsInner(r, lowered);
  }

  // ---------------------------------------------------------------------
  // Coreference answer

  const CoreferenceSeparator: string := ", "

  /** The answer parsing of `resolve_product_coreference`: "none" in any
      case means no product, anything else is split on ", ". The names are
      not checked against any vocabulary. */
  function ParseCoreferenceAnswer(reply: string): (r: Option<seq<string>>)
    ensures r.None? <==> Lower(Strip(reply)) == "none"
    ensures r.Some? ==> |r.value| >= 1 && Join(r.value, CoreferenceSeparator) == Strip(reply)
    ensures r.Some? ==> forall k :: 0 <= k < |r.value| ==> !Contains(r.value[k], CoreferenceSeparator)
  {
    var answer := Strip(reply);
    if Lower(answer) == "none" then None
    else
      JoinSplit(answer, CoreferenceSeparator);
      SplitPiecesFree(answer, CoreferenceSeparator);
      Some(Split(answer, CoreferenceSeparator))
  }

  const HintHead: string := "User mentioned products:"
  const HintTail: string := "。\nUser question:"

  /** Step 0 of `generate_robust_cypher`: with a non-empty history and a
      product answer, the question is prefixed with the product hint. */
  function RewriteQuestion(question: string, history: seq<Turn>, reply: string): (r: string)
    ensures r == question <==> history == [] || Lower(Strip(reply)) == "none"
    ensures r != question ==> r == HintHead + Strip(reply) + HintTail + question
    ensures EndsWith(r, question)
  {
    if history != [] then
      match ParseCoreferenceAnswer(reply)
      case Some(names) =>
        assert |names| > 0;
        var r := HintHead + Join(names, CoreferenceSeparator) + HintTail + question;
        assert r[|r| - |question|..] == question;
        r
      case None => question
    else question
  }

  // ---------------------------------------------------------------------
  // Candidate generation, scoring and selection

  /** A reply of the language model, or the error its call raised. */
  datatype Reply = Answered(text: string) | Failed(error: string)

  /** `_generate_multiple_candidates`: the schema-grounded reply, the
      template when there is one, and the minimal-prompt reply. */
  function Candidates(question: string, enhanced: string, simple: string): (r: seq<string>)
    ensures 2 <= |r| <= 3
    ensures r[0] == Strip(enhanced) && r[|r| - 1] == Strip(simple)
    ensures |r| == 3 <==> TemplateBasedGeneration(Entities(Mentioned(NutritionKeywords, Lower(question)), [],
                              Mentioned(BrandKeywords, Lower(question)), DigitRuns(question)),
                            ClassifyQueryIntent(question)).Some?
    ensures |r| == 3 ==> r[1] == TemplateBasedGeneration(Entities(Mentioned(NutritionKeywords, Lower(question)), [],
                                   Mentioned(BrandKeywords, Lower(question)), DigitRuns(question)),
                                 ClassifyQueryIntent(question)).value
  {
    var entities := Entities(Mentioned(NutritionKeywords, Lower(question)), [],
                             Mentioned(BrandKeywords, Lower(question)), DigitRuns(question));
    match TemplateBasedGeneration(entities, ClassifyQueryIntent(question))
    case Some(t) => [Strip(enhanced), t, Strip(simple)]
    case None => [Strip(enhanced), Strip(simple)]
  }

  /** A diagnostic entry: per candidate (`candidate_{n}`) or the fallback. */
  datatype DiagKey = CandidateKey(n: nat) | FallbackKey

  datatype Report =
    | CandidateReport(cypher: string, syntaxValid: bool, error: string, execution: Option<RunResult>)
    | FallbackReport(cypher: string, reason: string)

  const FallbackQuery: string := "MATCH (p:Product) RETURN p.name, p.url LIMIT 10"
  const WidenQuery: string := "MATCH (p:Product) RETURN p.name, p.url, p.category LIMIT 20"

  /** The diagnostic entry of one non-empty candidate. */
  function CandidateDiagnostic(candidate: string, explain: Explain, dryRun: Run): (d: Report)
    ensures d.CandidateReport? && d.cypher == FixCommonCypherErrors(candidate)
    ensures d.execution.Some? <==> d.syntaxValid
  {
    var fixed := FixCommonCypherErrors(candidate);
    var v := ValidateCypherSyntax(fixed, explain);
    CandidateReport(fixed, v.valid, v.message, if v.valid then Some(dryRun(DryRunText(fixed))) else None)
  }

  /** The dry-run score of a candidate with its diagnostic entry: the
      row count, or -1 when the candidate is empty, invalid, or fails to
      run. */
  function ReportScore(candidate: string, d: Report): (s: int)
    ensures s >= -1
    ensures s >= 0 ==> candidate != [] && d.CandidateReport? && d.execution.Some?
  {
    if candidate != [] && d.CandidateReport? && d.execution.Some? && d.execution.value.Rows?
    then |d.execution.value.rows| else -1
  }

  function Scores(cands: seq<string>, reports: seq<Report>): (s: seq<int>)
    requires |reports| == |cands|
    ensures |s| == |cands|
    ensures forall i :: 0 <= i < |s| ==> s[i] == ReportScore(cands[i], reports[i])
  {
    seq(|cands|, i requires 0 <= i < |cands| => ReportScore(cands[i], reports[i]))
  }

  /** The candidate kept after scanning the scores left to right with a
      strict comparison against the best so far (initially -1). */
  function BestIndex(scores: seq<int>): (r: Option<nat>)
    ensures r.Some? ==> r.value < |scores| && scores[r.value] >= 0
  {
    if scores == [] then None
    else
      var b := BestIndex(scores[..|scores| - 1]);
      var last := scores[|scores| - 1];
      if last > (if b.Some? then scores[b.value] else -1) then Some(|scores| - 1) else b
  }

  function BestScore(scores: seq<int>): (s: int)
    ensures s >= -1
  {
    match BestIndex(scores)
    case Some(k) => scores[k]
    case None => -1
  }

  /** The earliest candidate with the strictly greatest non-negative
      score. */
  ghost predicate IsWinner(scores: seq<int>, k: nat) {
    && k < |scores| && scores[k] >= 0
    && (forall j :: 0 <= j < |scores| ==> scores[j] <= scores[k])
    && (forall j :: 0 <= j < k ==> scores[j] < scores[k])
  }

  /** The selection rule picks the earliest maximal candidate, and picks
      none exactly when no candidate scored (a 0-row result still scores). */
  lemma {:induction false} BestIndexIsWinner(scores: seq<int>)
    ensures BestIndex(scores).Some? ==> IsWinner(scores, BestIndex(scores).value)
    ensures BestIndex(scores).None? <==> forall j :: 0 <= j < |scores| ==> scores[j] < 0
  {
    if scores != [] {
      var prefix := scores[..|scores| - 1];
      BestIndexIsWinner(prefix);
      assert forall j :: 0 <= j < |prefix| ==> prefix[j] == scores[j];
    }
  }

  /** Every winner is the one the rule picks: the winner is unique. */
  lemma WinnerIsBestIndex(scores: seq<int>, k: nat)
    requires IsWinner(scores, k)
    ensures BestIndex(scores) == Some(k)
  {
    BestIndexIsWinner(scores);
  }

  /** What `generate_robust_cypher` hands back: the selected query and the
      diagnostics, or the error a model call raised. */
  datatype Generation =
    | Generated(cypher: string, diagnostics: map<DiagKey, Report>)
    | GenerationFailed(error: string)

  /** The question the candidates are generated from. */
  function EffectiveQuestion(question: string, history: seq<Turn>, coref: Reply): string
    requires history != [] ==> coref.Answered?
  {
    if history != [] then RewriteQuestion(question, history, coref.text) else question
  }

  /** The diagnostic entry of every candidate, empty or not. */
  function CandidateDiagnostics(cands: seq<string>, explain: Explain, dryRun: Run): (r: seq<Report>)
    ensures |r| == |cands|
    ensures forall i :: 0 <= i < |r| ==> r[i] == CandidateDiagnostic(cands[i], explain, dryRun)
  {
    seq(|cands|, i requires 0 <= i < |cands| => CandidateDiagnostic(cands[i], explain, dryRun))
  }

  /** The cleaned text of the candidate the selection rule keeps, if any
      candidate scored. */
  function Selection(cands: seq<string>, explain: Explain, dryRun: Run): Option<string> {
    var reports := CandidateDiagnostics(cands, explain, dryRun);
    match BestIndex(Scores(cands, reports))
    case Some(k) => Some(reports[k].cypher)
    case None => None
  }

  /** A kept candidate passed validation, so its cleaned text is never
      blank. */
  lemma SelectionNotBlank(cands: seq<string>, explain: Explain, dryRun: Run)
    ensures Selection(cands, explain, dryRun).Some? ==> Selection(cands, explain, dryRun).value != []
  {
    var reports := CandidateDiagnostics(cands, explain, dryRun);
    var scores := Scores(cands, reports);
    BestIndexIsWinner(scores);
    if BestIndex(scores).Some? {
      var k := BestIndex(scores).value;
      assert scores[k] >= 0;
      var fixed := FixCommonCypherErrors(cands[k]);
      assert ValidateCypherSyntax(fixed, explain).valid;
      if fixed == [] {
        StripAllSpace(fixed);
      }
    }
  }

  /** The map holds `expected[i]` under the 1-based key of every non-empty
      candidate among the first `n`, and no other candidate key. */
  ghost predicate RecordsFirst(diagnostics: map<DiagKey, Report>, cands: seq<string>, expected: seq<Report>, n: nat)
    requires n <= |cands| == |expected|
  {
    && (forall i :: 0 <= i < n ==> (CandidateKey(i + 1) in diagnostics <==> cands[i] != []))
    && (forall i :: 0 <= i < n && CandidateKey(i + 1) in diagnostics ==> diagnostics[CandidateKey(i + 1)] == expected[i])
    && (forall key :: key in diagnostics && key.CandidateKey? ==> 1 <= key.n <= n)
  }

  /** The diagnostics hold the entry of every non-empty candidate, keyed by
      its 1-based position, and none for the empty ones. */
  ghost predicate ReportsCandidates(diagnostics: map<DiagKey, Report>, cands: seq<string>, explain: Explain, dryRun: Run) {
    RecordsFirst(diagnostics, cands, CandidateDiagnostics(cands, explain, dryRun), |cands|)
  }

  /** Recording candidate `i`, or skipping it when empty, extends the
      record to the first `i + 1` candidates. */
  lemma RecordsFirstStep(diagnostics: map<DiagKey, Report>, cands: seq<string>, expected: seq<Report>, i: nat)
    requires i < |cands| == |expected| && RecordsFirst(diagnostics, cands, expected, i)
    ensures cands[i] == [] ==> RecordsFirst(diagnostics, cands, expected, i + 1)
    ensures cands[i] != [] ==> RecordsFirst(diagnostics[CandidateKey(i + 1) := expected[i]], cands, expected, i + 1)
  {
  }

  /** The fallback entry leaves the candidate entries as they are. */
  lemma RecordsFallback(diagnostics: map<DiagKey, Report>, cands: seq<string>, expected: seq<Report>, r: Report)
    requires |cands| == |expected| && RecordsFirst(diagnostics, cands, expected, |cands|)
    ensures RecordsFirst(diagnostics[FallbackKey := r], cands, expected, |cands|)
  {
  }

  /** One more score extends the selection: a strictly greater score takes
      over, anything else keeps the earlier choice. */
  lemma BestIndexStep(scores: seq<int>, i: nat)
    requires i < |scores|
    ensures BestIndex(scores[..i + 1]) == if scores[i] > BestScore(scores[..i]) then Some(i) else BestIndex(scores[..i])
  {
    assert scores[..i + 1][..i] == scores[..i];
  }

  /** One candidate of `generate_robust_cypher`: cleaned, validated and,
      when valid, dry-run; its score is the dry run's row count, or -1. */
  method TryCandidate(cypher: string, explain: Explain, dryRun: Run) returns (report: Report, score: int)
    requires cypher != []
    ensures report == CandidateDiagnostic(cypher, explain, dryRun)
    ensures score == ReportScore(cypher, report)
  {
    var fixedCypher := FixCommonCypherErrors(cypher);
    var verdict := ValidateCypherSyntax(fixedCypher, explain);
    report := CandidateReport(fixedCypher, verdict.valid, verdict.message, None);
    score := -1;
    if verdict.valid {
      var result := dryRun(DryRunText(fixedCypher));
      report := report.(execution := Some(result));
      if result.Rows? {
        score := |result.rows|;
      }
    }
  }

  /** The scoring loop of `generate_robust_cypher`: a strictly greater
      score replaces the best so far. */
  method SelectCandidate(cands: seq<string>, explain: Explain, dryRun: Run)
    returns (best: Option<string>, diagnostics: map<DiagKey, Report>)
    ensures best == Selection(cands, explain, dryRun)
    ensures ReportsCandidates(diagnostics, cands, explain, dryRun) && FallbackKey !in diagnostics
  {
    ghost var expected := CandidateDiagnostics(cands, explain, dryRun);
    ghost var scores := Scores(cands, expected);
    best := None;
    var bestScore := -1;
    diagnostics := map[];
    for i := 0 to |cands|
      invariant bestScore == BestScore(scores[..i])
      invariant best == (match BestIndex(scores[..i])
                         case Some(k) => Some(expected[k].cypher)
                         case None => None)
      invariant RecordsFirst(diagnostics, cands, expected, i)
      invariant FallbackKey !in diagnostics
    {
      BestIndexStep(scores, i);
      RecordsFirstStep(diagnostics, cands, expected, i);
      var cypher := cands[i];
      if cypher != [] {
        var report, score := TryCandidate(cypher, explain, dryRun);
        if score > bestScore {
          bestScore := score;
          best := Some(report.cypher);
        }
        diagnostics := diagnostics[CandidateKey(i + 1) := report];
      }
    }
    assert scores[..|cands|] == scores;
  }

  /** The candidates generated for the question, once every model call
      has answered. */
  function GeneratedCandidates(question: string, history: seq<Turn>, coref: Reply, enhanced: Reply, simple: Reply): seq<string>
    requires history != [] ==> coref.Answered?
    requires enhanced.Answered? && simple.Answered?
  {
    Candidates(EffectiveQuestion(question, history, coref), enhanced.text, simple.text)
  }

  /** Some model call raised. */
  predicate ModelFailed(history: seq<Turn>, coref: Reply, enhanced: Reply, simple: Reply) {
    (history != [] && coref.Failed?) || enhanced.Failed? || simple.Failed?
  }

  /** The message of the first model call that raised, in the order the
      calls are made: the coreference call (only with history), the
      enhanced prompt, the simple prompt. */
  function FirstFailure(history: seq<Turn>, coref: Reply, enhanced: Reply, simple: Reply): string
    requires ModelFailed(history, coref, enhanced, simple)
  {
    if history != [] && coref.Failed? then coref.error
    else if enhanced.Failed? then enhanced.error
    else simple.error
  }

  /** The query `generate_robust_cypher` settles on. */
  function ChosenCypher(question: string, history: seq<Turn>, coref: Reply, enhanced: Reply,
                        simple: Reply, explain: Explain, dryRun: Run): string
    requires !ModelFailed(history, coref, enhanced, simple)
  {
    Selection(GeneratedCandidates(question, history, coref, enhanced, simple), explain, dryRun).GetOr(FallbackQuery)
  }

  /** `generate_robust_cypher`: the question is rewritten with the
      coreference answer when there is history, the candidates are scored,
      and the kept candidate is returned; with none kept the fixed fallback
      query is chosen and a "fallback" diagnostic added. A failing model
      call raises out of it. */
  method GenerateRobustCypher(question: string, history: seq<Turn>, coref: Reply, enhanced: Reply,
                              simple: Reply, explain: Explain, dryRun: Run) returns (g: Generation)
    ensures g.GenerationFailed? <==> ModelFailed(history, coref, enhanced, simple)
    ensures g.GenerationFailed? ==> g.error == FirstFailure(history, coref, enhanced, simple)
    ensures g.Generated? ==> g.cypher == ChosenCypher(question, history, coref, enhanced, simple, explain, dryRun)
    ensures g.Generated? ==>
              ReportsCandidates(g.diagnostics, GeneratedCandidates(question, history, coref, enhanced, simple), explain, dryRun)
    ensures g.Generated? ==>
              (FallbackKey in g.diagnostics <==>
                 Selection(GeneratedCandidates(question, history, coref, enhanced, simple), explain, dryRun).None?)
    ensures g.Generated? && FallbackKey in g.diagnostics ==>
              g.diagnostics[FallbackKey] == FallbackReport(FallbackQuery, "All candidates failed")
  {
    var q := question;
    if history != [] {
      match coref {
        case Failed(e) => return GenerationFailed(e);
        case Answered(reply) => q := RewriteQuestion(question, history, reply);
      }
    }
    if enhanced.Failed? {
      return GenerationFailed(enhanced.error);
    }
    if simple.Failed? {
      return GenerationFailed(simple.error);
    }
    var cands := Candidates(q, enhanced.text, simple.text);
    var best, diagnostics := SelectCandidate(cands, explain, dryRun);
    SelectionNotBlank(cands, explain, dryRun);
    var chosen: string;
    if best.None? || best.value == [] {
      chosen := FallbackQuery;
      RecordsFallback(diagnostics, cands, CandidateDiagnostics(cands, explain, dryRun),
                      FallbackReport(FallbackQuery, "All candidates failed"));
      diagnostics := diagnostics[FallbackKey := FallbackReport(FallbackQuery, "All candidates failed")];
    } else {
      chosen := best.value;
    }
    g := Generated(chosen, diagnostics);
  }

  // ---------------------------------------------------------------------
  // Final execution

  /** What `query_with_fallback` returns. */
  datatype QueryResult =
    | Success(data: seq<Row>, cypherUsed: string, validationInfo: map<DiagKey, Report>, resultCount: nat)
    | Failure(error: string, attempted: Option<string>, validationInfo: map<DiagKey, Report>)

  /** The outcome of running the selected query with one widening retry:
      a query with rows is final; an empty result is replaced by the wide
      query's result, even when that is empty too; an error from either run
      is a failure naming the selected query. */
  function WidenedRun(cypher: string, validationInfo: map<DiagKey, Report>, execute: Run): QueryResult {
    match execute(cypher)
    case RunError(e) => Failure(e, Some(cypher), validationInfo)
    case Rows(rows) =>
      if rows != [] then Success(rows, cypher, validationInfo, |rows|)
      else match execute(WidenQuery)
        case RunError(e) => Failure(e, Some(cypher), validationInfo)
        case Rows(wide) => Success(wide, WidenQuery, validationInfo, |wide|)
  }

  /** A success reports exactly what the query it names returned, and that
      query is the selected one unless the selected one came back empty. */
  lemma WidenedRunFaithful(cypher: string, validationInfo: map<DiagKey, Report>, execute: Run)
    ensures var res := WidenedRun(cypher, validationInfo, execute);
      && res.validationInfo == validationInfo
      && (res.Success? ==> execute(res.cypherUsed) == Rows(res.data) && res.resultCount == |res.data|)
      && (res.Success? ==> res.cypherUsed == cypher || (res.cypherUsed == WidenQuery && execute(cypher) == Rows([])))
      && (res.Success? && res.data == [] ==> res.cypherUsed == WidenQuery)
      && (res.Failure? ==> res.attempted == Some(cypher))
      && (res.Failure? <==> execute(cypher).RunError? || (execute(cypher) == Rows([]) && execute(WidenQuery).RunError?))
  {
  }

  /** The session part of `query_with_fallback`. `issued` lists the
      statements sent: the selected query, then the wide query only when
      the first came back empty. */
  method RunWithWidening(cypher: string, validationInfo: map<DiagKey, Report>, execute: Run)
    returns (res: QueryResult, ghost issued: seq<string>)
    ensures res == WidenedRun(cypher, validationInfo, execute)
    ensures issued == [cypher] || issued == [cypher, WidenQuery]
    ensures |issued| == 2 <==> execute(cypher) == Rows([])
  {
    var cypherQuery := cypher;
    issued := [cypherQuery];
    var result := execute(cypherQuery);
    if result.RunError? {
      return Failure(result.message, Some(cypherQuery), validationInfo), issued;
    }
    var data := result.rows;
    if data == [] {
      issued := issued + [WidenQuery];
      var widened := execute(WidenQuery);
      if widened.RunError? {
        return Failure(widened.message, Some(cypherQuery), validationInfo), issued;
      }
      data := widened.rows;
      cypherQuery := WidenQuery;
    }
    res := Success(data, cypherQuery, validationInfo, |data|);
  }

  /** `query_with_fallback`: the query chosen by `generate_robust_cypher`
      (returned as `g`) is run with one widening retry; a failing model
      call ends in a failure that names no query and carries no
      diagnostics. */
  method QueryWithFallback(question: string, history: seq<Turn>, coref: Reply, enhanced: Reply,
                           simple: Reply, explain: Explain, dryRun: Run, execute: Run)
    returns (res: QueryResult, ghost g: Generation, ghost issued: seq<string>)
    ensures g.GenerationFailed? <==> ModelFailed(history, coref, enhanced, simple)
    ensures g.Generated? ==> g.cypher == ChosenCypher(question, history, coref, enhanced, simple, explain, dryRun)
    ensures g.GenerationFailed? ==> res == Failure(g.error, None, map[]) && issued == []
    ensures ModelFailed(history, coref, enhanced, simple) ==>
              res == Failure(FirstFailure(history, coref, enhanced, simple), None, map[])
    ensures !ModelFailed(history, coref, enhanced, simple) && res.Failure? ==>
              res.attempted == Some(ChosenCypher(question, history, coref, enhanced, simple, explain, dryRun))
    ensures !ModelFailed(history, coref, enhanced, simple) && res.Success? ==>
              && execute(res.cypherUsed) == Rows(res.data) && res.resultCount == |res.data|
              && (res.cypherUsed == ChosenCypher(question, history, coref, enhanced, simple, explain, dryRun)
                  || res.cypherUsed == WidenQuery)
    ensures g.Generated? ==> res == WidenedRun(g.cypher, g.diagnostics, execute)
    ensures g.Generated? ==> issued == [g.cypher] || issued == [g.cypher, WidenQuery]
    ensures g.Generated? ==> res.validationInfo == g.diagnostics
    ensures g.Generated? ==>
              ReportsCandidates(res.validationInfo, GeneratedCandidates(question, history, coref, enhanced, simple), explain, dryRun)
    ensures g.Generated? ==>
              (FallbackKey in res.validationInfo <==>
                 Selection(GeneratedCandidates(question, history, coref, enhanced, simple), explain, dryRun).None?)
    ensures g.Generated? && FallbackKey in res.validationInfo ==>
              res.validationInfo[FallbackKey] == FallbackReport(FallbackQuery, "All candidates failed")
  {
    var generation := GenerateRobustCypher(question, history, coref, enhanced, simple, explain, dryRun);
    g := generation;
    if generation.GenerationFailed? {
      return Failure(generation.error, None, map[]), g, [];
    }
    res, issued := RunWithWidening(generation.cypher, generation.diagnostics, execute);
    WidenedRunFaithful(generation.cypher, generation.diagnostics, execute);
  }
}
