/*
 * ProjectSuggestions: the keyword classifier that proposes a project for a
 * time-entry description.
 *
 * Each rule is a regular expression `\b(k1|k2|...)\b` with the `i` flag. In
 * ECMAScript such a pattern matches at position `p` exactly when one
 * alternative equals the text there, compared case-insensitively, and
 * the word-boundary assertion holds on both ends: "the characters on the
 * two sides of the position are not both in or both out of [A-Za-z0-9_]"
 * (ECMA-262, section 22.2.2.6). Keywords are lower-case ASCII, and
 * non-Unicode case folding never maps a non-ASCII character to ASCII
 * (ECMA-262, section 22.2.2.7.3), so comparing the ASCII-lower-cased text
 * with the keyword is exact.
 */
module ProjectSuggestions {
  import opened Base
  import opened JsText

  /** One entry of the pattern table: the alternatives of the regex and the project it proposes. */
  datatype Rule = Rule(keywords: seq<string>, project: string)

  /** The pattern table, in the order in which the rules are tried. */
  const Rules: seq<Rule> := [
    Rule(["website", "web site", "web development", "frontend", "front-end"], "Website Development"),
    Rule(["mobile app", "ios", "android", "react native"], "Mobile App"),
    Rule(["database", "db", "sql", "postgres", "supabase"], "Database"),
    Rule(["api", "backend", "back-end", "server"], "Backend"),
    Rule(["meeting", "call", "discussion", "planning"], "Meetings"),
    Rule(["design", "ui", "ux", "figma", "sketch"], "Design"),
    Rule(["test", "testing", "qa", "quality assurance"], "Testing"),
    Rule(["documentation", "docs", "readme"], "Documentation"),
    Rule(["research", "learning", "study"], "Research"),
    Rule(["bug", "fix", "issue", "problem"], "Bug Fixes")
  ]

  /** The `\b` assertion at position `p` of `s`. */
  predicate Boundary(s: string, p: nat)
  {
    (0 < p <= |s| && IsWordChar(s[p - 1])) != (p < |s| && IsWordChar(s[p]))
  }

  /** Characters `k..` of the lower-case keyword `w` equal those of `s` from position
   * `i + k` on, after case folding. */
  predicate MatchFoldedAt(s: string, w: string, i: nat, k: nat)
    decreases |w| - k
  {
    k >= |w| || (i + k < |s| && LowerChar(s[i + k]) == w[k] && MatchFoldedAt(s, w, i, k + 1))
  }

  lemma {:induction false} MatchFoldedAtLower(s: string, w: string, i: nat, k: nat)
    ensures MatchFoldedAt(s, w, i, k) <==> MatchAt(Lower(s), w, i, k)
    decreases |w| - k
  {
    if k < |w| {
      MatchFoldedAtLower(s, w, i, k + 1);
    }
  }

  /** `\bw\b` with the `i` flag matches `s` at position `p`. */
  predicate WordAt(s: string, w: string, p: nat)
  {
    p + |w| <= |s| && Boundary(s, p) && MatchFoldedAt(s, w, p, 0) && Boundary(s, p + |w|)
  }

  /** `\bw\b` matches `s` at some position `p` or later. */
  predicate WordFrom(s: string, w: string, p: nat)
    decreases |s| - p
  {
    p + |w| <= |s| && (WordAt(s, w, p) || WordFrom(s, w, p + 1))
  }

  /** One of the alternatives `ws[k..]` matches somewhere in `s`. */
  predicate AnyWordFrom(s: string, ws: seq<string>, k: nat)
    decreases |ws| - k
  {
    k < |ws| && (WordFrom(s, ws[k], 0) || AnyWordFrom(s, ws, k + 1))
  }

  /** `rule.pattern.test(description)`. */
  predicate RuleMatches(rule: Rule, description: string)
  {
    AnyWordFrom(description, rule.keywords, 0)
  }

  /** The regex semantics spelled out: at some position the lower-cased text holds one of the
   * alternatives, with a word boundary on either side. */
  ghost predicate PatternMatches(rule: Rule, description: string)
  {
    exists k, p :: 0 <= k < |rule.keywords| && 0 <= p && p + |rule.keywords[k]| <= |description|
                   && Boundary(description, p) && Lower(description)[p..p + |rule.keywords[k]|] == rule.keywords[k]
                   && Boundary(description, p + |rule.keywords[k]|)
  }

  lemma {:induction false} WordFromIff(s: string, w: string, p: nat)
    ensures WordFrom(s, w, p) <==> exists q :: p <= q && WordAt(s, w, q)
    decreases |s| - p
  {
    if p + |w| <= |s| {
      WordFromIff(s, w, p + 1);
      if exists q :: p <= q && WordAt(s, w, q) {
        var q :| p <= q && WordAt(s, w, q);
        assert q == p || (p + 1 <= q && WordAt(s, w, q));
      }
    }
  }

  lemma {:induction false} AnyWordFromIff(s: string, ws: seq<string>, k: nat)
    ensures AnyWordFrom(s, ws, k) <==> exists j, p :: k <= j < |ws| && 0 <= p && WordAt(s, ws[j], p)
    decreases |ws| - k
  {
    if k < |ws| {
      WordFromIff(s, ws[k], 0);
      AnyWordFromIff(s, ws, k + 1);
      if exists j, p :: k <= j < |ws| && 0 <= p && WordAt(s, ws[j], p) {
        var j, p :| k <= j < |ws| && 0 <= p && WordAt(s, ws[j], p);
        assert j == k || (k + 1 <= j && WordAt(s, ws[j], p));
      }
    }
  }

  lemma WordAtIff(s: string, w: string, p: nat)
    ensures WordAt(s, w, p) <==> p + |w| <= |s| && Boundary(s, p) && Lower(s)[p..p + |w|] == w && Boundary(s, p + |w|)
  {
    MatchFoldedAtLower(s, w, p, 0);
    MatchAtIff(Lower(s), w, p);
  }

  /** The scanning definition of a rule match is the regex semantics. */
  lemma RuleMatchesIff(rule: Rule, description: string)
    ensures RuleMatches(rule, description) <==> PatternMatches(rule, description)
  {
    AnyWordFromIff(description, rule.keywords, 0);
    forall k, p | 0 <= k < |rule.keywords| && 0 <= p {
      WordAtIff(description, rule.keywords[k], p);
    }
  }

  /** The label of the first rule from `i` on whose pattern matches. */
  function FirstMatch(description: string, i: nat): (r: Option<string>)
    ensures r.Some? ==> exists j :: i <= j < |Rules| && r.value == Rules[j].project && RuleMatches(Rules[j], description)
                                    && forall m :: i <= m < j ==> !RuleMatches(Rules[m], description)
    ensures r.None? <==> forall j :: i <= j < |Rules| ==> !RuleMatches(Rules[j], description)
    decreases |Rules| - i
  {
    if i >= |Rules| then None
    else if RuleMatches(Rules[i], description) then Some(Rules[i].project)
    else FirstMatch(description, i + 1)
  }

  /** `suggestProject(description)`: `None` for an empty description, else the first matching rule's project. */
  function Suggest(description: string): (r: Option<string>)
    ensures description == "" ==> r == None
    ensures description != "" && r.Some? ==>
              exists j :: 0 <= j < |Rules| && r.value == Rules[j].project && RuleMatches(Rules[j], description)
                          && forall m :: 0 <= m < j ==> !RuleMatches(Rules[m], description)
    ensures r.None? <==> description == "" || forall j :: 0 <= j < |Rules| ==> !RuleMatches(Rules[j], description)
  {
    if description == "" then None else FirstMatch(description, 0)
  }

  /** `getAvailableProjects()`: the labels of the table, in table order. */
  function AvailableProjects(): (r: seq<string>)
    ensures |r| == |Rules| == 10
    ensures forall i :: 0 <= i < |Rules| ==> r[i] == Rules[i].project
  {
    seq(|Rules|, i requires 0 <= i < |Rules| => Rules[i].project)
  }

  /** `isValidProject(project)`. */
  predicate IsValidProject(project: string)
  {
    project in AvailableProjects()
  }

  /** The ten labels are distinct. */
  lemma AvailableProjectsDistinct()
    ensures NoDuplicates(AvailableProjects())
  {
    var r := AvailableProjects();
    assert r == ["Website Development", "Mobile App", "Database", "Backend", "Meetings",
                 "Design", "Testing", "Documentation", "Research", "Bug Fixes"];
  }

  /** Every suggestion is one of the available projects. */
  lemma SuggestIsValid(description: string)
    requires Suggest(description).Some?
    ensures IsValidProject(Suggest(description).value)
  {
    var j :| 0 <= j < |Rules| && Suggest(description).value == Rules[j].project;
    assert AvailableProjects()[j] == Rules[j].project;
  }

  /** A scan that matches at no position from `p` on finds nothing. */
  lemma {:induction false} NoWordFrom(s: string, w: string, p: nat)
    requires forall q :: p <= q <= |s| - |w| ==> !WordAt(s, w, q)
    ensures !WordFrom(s, w, p)
    decreases |s| - p
  {
    if p + |w| <= |s| {
      NoWordFrom(s, w, p + 1);
    }
  }

  /** A rule none of whose alternatives occurs at any position does not match. */
  lemma NoRuleMatch(rule: Rule, description: string)
    requires forall k, q :: 0 <= k < |rule.keywords| && 0 <= q <= |description| - |rule.keywords[k]|
               ==> !WordAt(description, rule.keywords[k], q)
    ensures !RuleMatches(rule, description)
  {
    forall k | 0 <= k < |rule.keywords| ensures !WordFrom(description, rule.keywords[k], 0) {
      NoWordFrom(description, rule.keywords[k], 0);
    }
    AnyWordFromIff(description, rule.keywords, 0);
  }

  /** Every character that matches the keyword's first two must be followed by a mismatch. */
  lemma MatchAtFirstTwo(s: string, w: string, q: nat)
    requires |w| >= 2 && q + |w| <= |s| && MatchFoldedAt(s, w, q, 0)
    ensures LowerChar(s[q]) == w[0] && LowerChar(s[q + 1]) == w[1]
  {
    assert MatchFoldedAt(s, w, q, 1);
  }

  predicate NoCapitals(s: string)
  {
    forall q :: 0 <= q < |s| ==> !('A' <= s[q] <= 'Z')
  }

  /** In text without capitals, a keyword whose first two characters never occur side by
   * side does not match. */
  lemma NoBigram(s: string, w: string)
    requires |w| >= 2
    requires NoCapitals(s)
    requires forall q :: 0 <= q < |s| - 1 ==> !(s[q] == w[0] && s[q + 1] == w[1])
    ensures !WordFrom(s, w, 0)
  {
    forall q | 0 <= q <= |s| - |w| ensures !WordAt(s, w, q) {
      if q + |w| <= |s| && MatchFoldedAt(s, w, q, 0) {
        MatchAtFirstTwo(s, w, q);
      }
    }
    NoWordFrom(s, w, 0);
  }

  /** A rule none of whose alternatives is found by the scan does not match. */
  lemma {:induction false} NoKeywordFrom(s: string, ws: seq<string>, k: nat)
    requires forall j :: k <= j < |ws| ==> !WordFrom(s, ws[j], 0)
    ensures !AnyWordFrom(s, ws, k)
    decreases |ws| - k
  {
    if k < |ws| {
      NoKeywordFrom(s, ws, k + 1);
    }
  }
}
