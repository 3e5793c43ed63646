/*
 * ProjectSuggestionExamples: concrete descriptions run through the classifier,
 * showing case-insensitive, whole-word, first-rule-wins matching.
 */
module ProjectSuggestionExamples {
  import opened Base
  import opened ProjectSuggestions

  /** Case-insensitive: "Website" matches the first rule. */
  lemma WebsiteMatches()
    ensures RuleMatches(Rules[0], "Website")
  {
    assert WordAt("Website", "website", 0);
  }

  /** Whole words only: "fixing" does not match the rule for "fix". */
  lemma FixingIsNotAFix()
    ensures !RuleMatches(Rules[9], "fixing")
  {
    NoRuleMatch(Rules[9], "fixing");
  }

  /** Whole words only: "apis" does not match the rule for "api". */
  lemma ApisIsNotAnApi()
    ensures !RuleMatches(Rules[3], "apis")
  {
    NoRuleMatch(Rules[3], "apis");
  }

  /** Whole words only: "dbms" does not match the rule for "db". */
  lemma DbmsIsNotADb()
    ensures !RuleMatches(Rules[2], "dbms")
  {
    NoRuleMatch(Rules[2], "dbms");
  }

  lemma WebsiteRuleFails(d: string)
    requires !WordFrom(d, "website", 0) && !WordFrom(d, "web site", 0) && !WordFrom(d, "web development", 0)
    requires !WordFrom(d, "frontend", 0) && !WordFrom(d, "front-end", 0)
    ensures !RuleMatches(Rules[0], d)
  {
    NoKeywordFrom(d, Rules[0].keywords, 0);
  }

  lemma MobileRuleFails(d: string)
    requires !WordFrom(d, "mobile app", 0) && !WordFrom(d, "ios", 0)
    requires !WordFrom(d, "android", 0) && !WordFrom(d, "react native", 0)
    ensures !RuleMatches(Rules[1], d)
  {
    NoKeywordFrom(d, Rules[1].keywords, 0);
  }

  lemma DatabaseRuleFails(d: string)
    requires !WordFrom(d, "database", 0) && !WordFrom(d, "db", 0) && !WordFrom(d, "sql", 0)
    requires !WordFrom(d, "postgres", 0) && !WordFrom(d, "supabase", 0)
    ensures !RuleMatches(Rules[2], d)
  {
    NoKeywordFrom(d, Rules[2].keywords, 0);
  }

  lemma ExampleMissesA(d: string)
    requires d == "bug in the backend api"
    ensures !WordFrom(d, "website", 0) && !WordFrom(d, "web site", 0) && !WordFrom(d, "web development", 0)
  {
    assert NoCapitals(d);
    NoBigram(d, "website");
    NoBigram(d, "web site");
    NoBigram(d, "web development");
  }

  lemma ExampleMissesB(d: string)
    requires d == "bug in the backend api"
    ensures !WordFrom(d, "frontend", 0) && !WordFrom(d, "front-end", 0) && !WordFrom(d, "mobile app", 0)
  {
    assert NoCapitals(d);
    NoBigram(d, "frontend");
    NoBigram(d, "front-end");
    NoBigram(d, "mobile app");
  }

  lemma ExampleMissesC(d: string)
    requires d == "bug in the backend api"
    ensures !WordFrom(d, "ios", 0) && !WordFrom(d, "android", 0) && !WordFrom(d, "react native", 0)
  {
    assert NoCapitals(d);
    NoBigram(d, "ios");
    NoBigram(d, "android");
    NoBigram(d, "react native");
  }

  lemma ExampleMissesD(d: string)
    requires d == "bug in the backend api"
    ensures !WordFrom(d, "database", 0) && !WordFrom(d, "db", 0) && !WordFrom(d, "sql", 0)
  {
    assert NoCapitals(d);
    NoBigram(d, "database");
    NoBigram(d, "db");
    NoBigram(d, "sql");
  }

  lemma ExampleMissesE(d: string)
    requires d == "bug in the backend api"
    ensures !WordFrom(d, "postgres", 0) && !WordFrom(d, "supabase", 0)
  {
    assert NoCapitals(d);
    NoBigram(d, "postgres");
    NoBigram(d, "supabase");
  }

  lemma ExampleHitsApi(d: string)
    requires d == "bug in the backend api"
    ensures WordFrom(d, "api", 0)
  {
    assert WordAt(d, "api", 19);
    WordFromIff(d, "api", 0);
  }

  lemma ExampleHitsBug(d: string)
    requires d == "bug in the backend api"
    ensures WordFrom(d, "bug", 0)
  {
    assert WordAt(d, "bug", 0);
  }

  /** A description that the fourth rule is the first to match is classified as Backend. */
  lemma FourthRuleFirst(d: string)
    requires d != ""
    requires !RuleMatches(Rules[0], d) && !RuleMatches(Rules[1], d) && !RuleMatches(Rules[2], d)
    requires RuleMatches(Rules[3], d)
    ensures Suggest(d) == Some("Backend")
  {
    assert FirstMatch(d, 3) == Some("Backend");
  }

  /** Order decides: "bug in the backend api" matches both the Backend and the Bug Fixes
   * rule, and the earlier Backend rule wins. */
  lemma BackendBeatsBugFixes(d: string)
    requires d == "bug in the backend api"
    ensures RuleMatches(Rules[3], d) && RuleMatches(Rules[9], d)
    ensures Suggest(d) == Some("Backend")
  {
    ExampleHitsApi(d);
    ExampleHitsBug(d);
    ExampleMissesA(d);
    ExampleMissesB(d);
    ExampleMissesC(d);
    ExampleMissesD(d);
    ExampleMissesE(d);
    WebsiteRuleFails(d);
    MobileRuleFails(d);
    DatabaseRuleFails(d);
    assert Rules[3].keywords[0] == "api" && Rules[9].keywords[0] == "bug";
    FourthRuleFirst(d);
  }
}
