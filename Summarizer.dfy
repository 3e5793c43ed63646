/*
 * Summarizer: the extractive summary that stands in for an AI summary of a
 * long time-entry description.
 *
 * The text is cut into sentences by the global match of `[^.!?]+[.!?]+`, each
 * sentence is scored by its length and by seven keywords, the best
 * `min(3, ceil(n / 3))` are kept and sorted by the first position of their text,
 * and they are joined with single spaces. Lengths count characters (one per code point).
 */
module Summarizer {
  import opened Base
  import opened JsText
  import opened Sorting

  predicate IsTerminator(c: char)
  {
    c == '.' || c == '!' || c == '?'
  }

  /** The length of the longest prefix of `s` whose characters are all terminators
   * (`term`) or all non-terminators (`!term`). */
  function RunLength(s: string, term: bool): (n: nat)
    ensures n <= |s|
    ensures forall i :: 0 <= i < n ==> IsTerminator(s[i]) == term
    ensures n < |s| ==> IsTerminator(s[n]) != term
  {
    if s == [] || IsTerminator(s[0]) != term then 0 else 1 + RunLength(s[1..], term)
  }

  /** `x` is `a` non-terminators followed by at least one terminator. */
  predicate IsSentenceAt(x: string, a: int)
  {
    0 < a < |x|
    && (forall i :: 0 <= i < a ==> !IsTerminator(x[i]))
    && (forall i :: a <= i < |x| ==> IsTerminator(x[i]))
  }

  /** What one match of `[^.!?]+[.!?]+` looks like: non-terminators, then terminators,
   * at least one of each. */
  ghost predicate IsSentence(x: string)
  {
    exists a :: IsSentenceAt(x, a)
  }

  /** `text.match(/[^.!?]+[.!?]+/g) || []`. A match attempt at a terminator fails; at a
   * non-terminator it takes the whole run of non-terminators and then the whole run
   * of terminators, and fails when no terminator follows. */
  function Sentences(s: string): (r: seq<string>)
    ensures forall k :: 0 <= k < |r| ==> IsSentence(r[k])
    decreases |s|
  {
    if s == [] then []
    else if IsTerminator(s[0]) then Sentences(s[1..])
    else
      var a := RunLength(s, false);
      if a == |s| then []
      else
        var b := RunLength(s[a..], true);
        assert IsSentenceAt(s[..a + b], a);
        [s[..a + b]] + Sentences(s[a + b..])
  }

  /** Terminators before a sentence are skipped. */
  lemma {:induction false} SentencesSkipTerminators(t: string, s: string)
    requires forall i :: 0 <= i < |t| ==> IsTerminator(t[i])
    ensures Sentences(t + s) == Sentences(s)
    decreases |t|
  {
    if t != [] {
      assert (t + s)[0] == t[0];
      assert (t + s)[1..] == t[1..] + s;
      assert Sentences(t + s) == Sentences((t + s)[1..]);
      SentencesSkipTerminators(t[1..], s);
    } else {
      assert t + s == s;
    }
  }

  /** A text without terminators has no sentence: its unterminated tail is dropped. */
  lemma {:induction false} SentencesNoTerminator(s: string)
    requires forall i :: 0 <= i < |s| ==> !IsTerminator(s[i])
    ensures Sentences(s) == []
  {
    if s != [] {
      assert RunLength(s, false) == |s|;
    }
  }

  /** A sentence followed by text that does not continue its terminator run is the
   * first match, and matching resumes right after it. */
  lemma SentencesCons(x: string, rest: string)
    requires IsSentence(x)
    requires rest == [] || !IsTerminator(rest[0])
    ensures Sentences(x + rest) == [x] + Sentences(rest)
  {
    var s := x + rest;
    var a: nat :| IsSentenceAt(x, a);
    RunLengthIs(s, false, a);
    RunLengthIs(s[a..], true, |x| - a);
    assert s[..|x|] == x && s[|x|..] == rest;
  }

  /** Cutting the concatenation of sentences gives back those sentences. */
  lemma {:induction false} SentencesOfConcat(f: seq<string>)
    requires forall k :: 0 <= k < |f| ==> IsSentence(f[k])
    ensures Sentences(Join(f, "")) == f
  {
    if f == [] {
    } else if |f| == 1 {
      assert f[0] + [] == f[0];
      SentencesCons(f[0], []);
    } else {
      var rest := Join(f[1..], "");
      SentencesOfConcat(f[1..]);
      var a: nat :| IsSentenceAt(f[1], a);
      assert rest[0] == f[1][0] by {
        if |f| == 2 {
          assert rest == f[1];
        } else {
          assert rest == f[1] + "" + Join(f[2..], "");
        }
      }
      assert f[0] + "" == f[0];
      SentencesCons(f[0], rest);
      assert [f[0]] + f[1..] == f;
    }
  }

  /** `RunLength` is the position of the first character of the other kind. */
  lemma {:induction false} RunLengthIs(s: string, term: bool, n: nat)
    requires n <= |s|
    requires forall i :: 0 <= i < n ==> IsTerminator(s[i]) == term
    requires n < |s| ==> IsTerminator(s[n]) != term
    ensures RunLength(s, term) == n
  {
    if n > 0 {
      RunLengthIs(s[1..], term, n - 1);
    }
  }

  /** The keywords, in the order they are tried. */
  const ImportantWords: seq<string> := ["important", "critical", "key", "main", "primary", "essential", "crucial"]

  /** How many of `words` the lower-cased sentence contains, counted from the last one back. */
  function Hits(lower: string, words: seq<string>): (n: nat)
    ensures n <= |words|
  {
    if words == [] then 0
    else Hits(lower, words[..|words| - 1]) + (if Contains(lower, words[|words| - 1]) then 1 else 0)
  }

  /** The count is the number of words a substring test keeps, each counted once. */
  lemma {:induction false} HitsIsCount(lower: string, words: seq<string>)
    ensures Hits(lower, words) == Count(words, w => Contains(lower, w))
  {
    if words != [] {
      var init, last := words[..|words| - 1], words[|words| - 1];
      HitsIsCount(lower, init);
      assert init + [last] == words;
      FilterAppend(init, [last], w => Contains(lower, w));
    }
  }

  /** How many keywords the lower-cased sentence contains. */
  function KeywordHits(lower: string): (n: nat)
    ensures n <= |ImportantWords|
  {
    Hits(lower, ImportantWords)
  }

  /** A sentence's score: a twentieth of its length plus 2 for every keyword it contains. */
  function Score(sentence: string): (r: real)
    ensures |sentence| as real / 20.0 <= r <= |sentence| as real / 20.0 + 14.0
  {
    |sentence| as real / 20.0 + 2.0 * KeywordHits(Lower(sentence)) as real
  }

  /** Twenty times the score is the length plus 40 for every distinct keyword contained. */
  lemma ScoreCounts(sentence: string)
    ensures 20.0 * Score(sentence) == (|sentence| + 40 * Count(ImportantWords, w => Contains(Lower(sentence), w))) as real
  {
    HitsIsCount(Lower(sentence), ImportantWords);
  }

  /** The score sees only the length and the lower-cased text. */
  lemma ScoreByLowerCase(a: string, b: string)
    requires |a| == |b| && Lower(a) == Lower(b)
    ensures Score(a) == Score(b)
  {
  }

  /** The scoring callback: the length term, then one test per keyword. */
  method ScoreSentence(sentence: string) returns (score: real)
    ensures score == Score(sentence)
  {
    score := 0.0;
    score := score + |sentence| as real / 20.0;
    var lower := Lower(sentence);
    for i := 0 to |ImportantWords|
      invariant score == |sentence| as real / 20.0 + 2.0 * Hits(lower, ImportantWords[..i]) as real
    {
      assert ImportantWords[..i + 1][..i] == ImportantWords[..i];
      if Contains(lower, ImportantWords[i]) {
        score := score + 2.0;
      }
    }
    assert ImportantWords[..|ImportantWords|] == ImportantWords;
  }

  /** Keyword tests are substring tests: "maintain" earns the bonus for "main". */
  lemma MaintainEarnsMain()
    ensures Contains(Lower("maintain"), "main")
  {
    assert Lower("maintain") == "maintain";
    assert MatchAt("maintain", "main", 0, 0);
  }

  /** ... and "keyboard" earns the bonus for "key". */
  lemma KeyboardEarnsKey()
    ensures Contains(Lower("Keyboard"), "key")
  {
    assert Lower("Keyboard") == "keyboard";
    assert MatchAt("keyboard", "key", 0, 0);
  }

  /** A sentence with its score and its position among the sentences. */
  datatype Scored = Scored(sentence: string, index: nat, score: real)

  function ScoreAll(sentences: seq<string>): (r: seq<Scored>)
    ensures |r| == |sentences|
    ensures forall i :: 0 <= i < |r| ==> r[i] == Scored(sentences[i], i, Score(sentences[i]))
  {
    seq(|sentences|, i requires 0 <= i < |sentences| => Scored(sentences[i], i, Score(sentences[i])))
  }

  /** The comparator `(a, b) => b.score - a.score`: higher scores first. */
  predicate ByScoreDesc(a: Scored, b: Scored)
  {
    b.score - a.score < 0.0
  }

  lemma ByScoreDescStrict()
    ensures StrictOrder(ByScoreDesc)
  {
  }

  lemma ByPositionStrict()
    ensures StrictOrder(ByPosition)
  {
  }

  /** `Math.min(3, Math.ceil(n / 3))`. */
  function SelectCount(n: nat): (k: nat)
    ensures k <= 3 && k <= n
    ensures n >= 3 ==> k >= 1
    ensures n > 0 ==> k >= 1
  {
    Min(3, CeilDiv(n, 3))
  }

  /** The scored sentences, best first. */
  function Ranked(sentences: seq<string>): (r: seq<Scored>)
    ensures multiset(r) == multiset(ScoreAll(sentences))
  {
    SortByPermutes(ScoreAll(sentences), ByScoreDesc);
    SortBy(ScoreAll(sentences), ByScoreDesc)
  }

  /** The selected entries: the first `SelectCount(n)` of the ranking. */
  function Selected(sentences: seq<string>): (r: seq<Scored>)
    ensures |r| == SelectCount(|sentences|)
  {
    Ranked(sentences)[..SelectCount(|sentences|)]
  }

  /** In a ranking, the first `k` entries score at least as high as the rest. */
  lemma RankingSplit(r: seq<Scored>, k: nat)
    requires SortedBy(r, ByScoreDesc) && k <= |r|
    ensures forall i, j :: 0 <= i < k <= j < |r| ==> r[i].score >= r[j].score
  {
    forall i, j | 0 <= i < k <= j < |r| ensures r[i].score >= r[j].score {
      assert !ByScoreDesc(r[j], r[i]);
    }
  }

  /** Every selected sentence scores at least as high as every sentence left out, and
   * selected and left-out sentences together are all the sentences. */
  lemma SelectedScoreHighest(sentences: seq<string>)
    ensures var r := Ranked(sentences); var k := SelectCount(|sentences|);
            forall i, j :: 0 <= i < k <= j < |r| ==> r[i].score >= r[j].score
  {
    ByScoreDescStrict();
    SortBySorted(ScoreAll(sentences), ByScoreDesc);
    RankingSplit(Ranked(sentences), SelectCount(|sentences|));
  }

  /** `sentences.indexOf(x)`: the first position holding `x`, or -1. */
  function IndexOf(s: seq<string>, x: string): (r: int)
    ensures -1 <= r < |s|
    ensures r >= 0 ==> s[r] == x && forall j :: 0 <= j < r ==> s[j] != x
    ensures r == -1 <==> x !in s
  {
    if s == [] then -1
    else if s[0] == x then 0
    else
      var r := IndexOf(s[1..], x);
      if r == -1 then -1 else r + 1
  }

  /** The comparator of the reordering step as written: by first position of the text. */
  function ByFirstOccurrence(sentences: seq<string>): (Scored, Scored) -> bool
  {
    (a: Scored, b: Scored) => IndexOf(sentences, a.sentence) - IndexOf(sentences, b.sentence) < 0
  }

  /** Text order: by the position each selected sentence was cut from. */
  predicate ByPosition(a: Scored, b: Scored)
  {
    a.index < b.index
  }

  function Texts(r: seq<Scored>): (t: seq<string>)
    ensures |t| == |r| && forall i :: 0 <= i < |r| ==> t[i] == r[i].sentence
  {
    seq(|r|, i requires 0 <= i < |r| => r[i].sentence)
  }

  /** The selected sentences put back in text order. */
  function Reordered(sentences: seq<string>): (r: seq<Scored>)
    ensures multiset(r) == multiset(Selected(sentences))
  {
    SortByPermutes(Selected(sentences), ByPosition);
    SortBy(Selected(sentences), ByPosition)
  }

  /** The reordering as written, by first occurrence of each sentence's text. */
  function ReorderedAsWritten(sentences: seq<string>): (r: seq<Scored>)
    ensures multiset(r) == multiset(Selected(sentences))
  {
    SortByPermutes(Selected(sentences), ByFirstOccurrence(sentences));
    SortBy(Selected(sentences), ByFirstOccurrence(sentences))
  }

  /** The summary lists the selected sentences in text order. */
  lemma ReorderedInTextOrder(sentences: seq<string>)
    ensures var r := Reordered(sentences);
            forall i, j :: 0 <= i < j < |r| ==> r[i].index <= r[j].index
  {
    ByPositionStrict();
    SortBySorted(Selected(sentences), ByPosition);
  }

  /** Every selected entry is a scored sentence: its text is the sentence at its position. */
  lemma SelectedEntry(sentences: seq<string>, i: nat)
    requires i < |Selected(sentences)|
    ensures Selected(sentences)[i].index < |sentences|
    ensures sentences[Selected(sentences)[i].index] == Selected(sentences)[i].sentence
  {
    var e := Selected(sentences)[i];
    assert e in multiset(Ranked(sentences));
    var all := ScoreAll(sentences);
    assert e in multiset(all);
    var m :| 0 <= m < |all| && all[m] == e;
  }

  /** The comparator by first occurrence is a strict order. */
  lemma ByFirstOccurrenceStrict(sentences: seq<string>)
    ensures StrictOrder(ByFirstOccurrence(sentences))
  {
  }

  /** Position `k` is not among the picks. */
  predicate NotPicked(picks: seq<Scored>, k: int)
  {
    forall m :: 0 <= m < |picks| ==> picks[m].index != k
  }

  /** What a summary is made of: `min(3, ceil(n / 3))` scored sentences, together
   * exactly the selection, each the sentence at its own position with its own score,
   * no position twice, and none scoring below a sentence that was not picked. */
  predicate IsSelection(sentences: seq<string>, picks: seq<Scored>)
  {
    |picks| == SelectCount(|sentences|)
    && multiset(picks) == multiset(Selected(sentences))
    && (forall i :: 0 <= i < |picks| ==>
          picks[i].index < |sentences| && picks[i] == ScoreAll(sentences)[picks[i].index])
    && (forall i, j :: 0 <= i < j < |picks| ==> picks[i].index != picks[j].index)
    && (forall i, k :: 0 <= i < |picks| && 0 <= k < |sentences| && NotPicked(picks, k) ==>
          picks[i].score >= ScoreAll(sentences)[k].score)
  }

  /** The picks in the order of the first occurrence of their texts. */
  predicate InFirstOccurrenceOrder(sentences: seq<string>, picks: seq<Scored>)
  {
    forall i, j :: 0 <= i < j < |picks| ==>
      IndexOf(sentences, picks[i].sentence) <= IndexOf(sentences, picks[j].sentence)
  }

  /** The picks in text order, each position once. */
  predicate InTextOrder(picks: seq<Scored>)
  {
    forall i, j :: 0 <= i < j < |picks| ==> picks[i].index < picks[j].index
  }

  /** An entry of the selection is the scored sentence at its own position. */
  lemma InSelection(sentences: seq<string>, e: Scored)
    requires e in multiset(Selected(sentences))
    ensures e.index < |sentences| && e == ScoreAll(sentences)[e.index]
  {
    var sel, ranked, all := Selected(sentences), Ranked(sentences), ScoreAll(sentences);
    var i :| 0 <= i < |sel| && sel[i] == e;
    assert ranked[i] == e;
    assert e in multiset(ranked);
    var m :| 0 <= m < |all| && all[m] == e;
  }

  /** An element of a sequence without repetition occurs in it at most once. */
  lemma {:induction false} CountAtMostOne<T>(s: seq<T>, x: T)
    requires NoDuplicates(s)
    ensures multiset(s)[x] <= 1
  {
    if s != [] {
      MultisetCons(s);
      assert NoDuplicates(s[1..]) by {
        forall i, j | 0 <= i < j < |s[1..]| ensures s[1..][i] != s[1..][j] {
          assert s[1..][i] == s[i + 1] && s[1..][j] == s[j + 1];
        }
      }
      CountAtMostOne(s[1..], x);
      if s[0] == x {
        assert x !in s[1..] by {
          forall j | 0 <= j < |s[1..]| ensures s[1..][j] != x {
            assert s[1..][j] == s[j + 1];
          }
        }
      }
    }
  }

  /** An element at two positions occurs at least twice. */
  lemma TwoCopies<T>(s: seq<T>, i: nat, j: nat)
    requires i < j < |s| && s[i] == s[j]
    ensures multiset(s)[s[i]] >= 2
  {
    assert s == s[..j] + s[j..];
    assert s[..j][i] == s[i];
    assert s[j..][0] == s[j];
    assert multiset(s) == multiset(s[..j]) + multiset(s[j..]);
  }

  /** Any arrangement of the selection is a selection in the sense of `IsSelection`. */
  lemma SelectionOfPermutation(sentences: seq<string>, picks: seq<Scored>)
    requires multiset(picks) == multiset(Selected(sentences))
    ensures IsSelection(sentences, picks)
  {
    assert |picks| == |multiset(picks)| == |multiset(Selected(sentences))| == |Selected(sentences)|;
    forall i | 0 <= i < |picks|
      ensures picks[i].index < |sentences| && picks[i] == ScoreAll(sentences)[picks[i].index]
    {
      assert picks[i] in multiset(picks);
      InSelection(sentences, picks[i]);
    }
    SelectionDistinct(sentences, picks);
    SelectionHighest(sentences, picks);
  }

  /** No position is picked twice. */
  lemma SelectionDistinct(sentences: seq<string>, picks: seq<Scored>)
    requires multiset(picks) == multiset(Selected(sentences))
    requires forall i :: 0 <= i < |picks| ==>
               picks[i].index < |sentences| && picks[i] == ScoreAll(sentences)[picks[i].index]
    ensures forall i, j :: 0 <= i < j < |picks| ==> picks[i].index != picks[j].index
  {
    var all, ranked, sel := ScoreAll(sentences), Ranked(sentences), Selected(sentences);
    var c := SelectCount(|sentences|);
    assert ranked == sel + ranked[c..];
    assert multiset(ranked) == multiset(sel) + multiset(ranked[c..]);
    assert NoDuplicates(all) by {
      forall i, j | 0 <= i < j < |all| ensures all[i] != all[j] {
        assert all[i].index == i && all[j].index == j;
      }
    }
    forall i, j | 0 <= i < j < |picks| ensures picks[i].index != picks[j].index {
      if picks[i].index == picks[j].index {
        TwoCopies(picks, i, j);
        CountAtMostOne(all, picks[i]);
        assert false;
      }
    }
  }

  /** Every pick scores at least as high as every sentence not picked. */
  lemma SelectionHighest(sentences: seq<string>, picks: seq<Scored>)
    requires multiset(picks) == multiset(Selected(sentences))
    ensures forall i, k :: 0 <= i < |picks| && 0 <= k < |sentences| && NotPicked(picks, k) ==>
              picks[i].score >= ScoreAll(sentences)[k].score
  {
    var ranked, sel := Ranked(sentences), Selected(sentences);
    SelectedScoreHighest(sentences);
    forall i, k | 0 <= i < |picks| && 0 <= k < |sentences| && NotPicked(picks, k)
      ensures picks[i].score >= ScoreAll(sentences)[k].score
    {
      var m := RankOfUnpicked(sentences, picks, k);
      assert picks[i] in multiset(sel);
      var a :| 0 <= a < |sel| && sel[a] == picks[i];
      assert ranked[a] == picks[i];
    }
  }

  /** A position left out of the picks is ranked after the selection. */
  lemma RankOfUnpicked(sentences: seq<string>, picks: seq<Scored>, k: nat) returns (m: nat)
    requires multiset(picks) == multiset(Selected(sentences))
    requires k < |sentences| && NotPicked(picks, k)
    ensures SelectCount(|sentences|) <= m < |Ranked(sentences)| && Ranked(sentences)[m] == ScoreAll(sentences)[k]
  {
    var all, ranked, sel := ScoreAll(sentences), Ranked(sentences), Selected(sentences);
    assert all[k] in multiset(ranked);
    assert all[k] !in picks by {
      forall n | 0 <= n < |picks| ensures picks[n] != all[k] {
        assert all[k].index == k;
      }
    }
    assert all[k] !in multiset(sel);
    forall j | 0 <= j < SelectCount(|sentences|) ensures ranked[j] != all[k] {
      assert sel[j] == ranked[j];
    }
    m :| 0 <= m < |ranked| && ranked[m] == all[k];
  }

  /** Taking off one copy of the same element from two equal multisets. */
  lemma MultisetCancel<T>(x: T, p: multiset<T>, q: multiset<T>)
    requires multiset{x} + p == multiset{x} + q
    ensures p == q
  {
    forall y ensures p[y] == q[y] {
      assert (multiset{x} + p)[y] == (multiset{x} + q)[y];
    }
  }

  lemma InTextOrderTail(a: seq<Scored>)
    requires a != [] && InTextOrder(a)
    ensures InTextOrder(a[1..])
  {
    forall i, j | 0 <= i < j < |a| - 1 ensures a[1..][i].index < a[1..][j].index {
      assert a[1..][i] == a[i + 1] && a[1..][j] == a[j + 1];
    }
  }

  /** Two arrangements in text order of the same entries start with the same entry. */
  lemma TextOrderHead(a: seq<Scored>, b: seq<Scored>)
    requires multiset(a) == multiset(b) && InTextOrder(a) && InTextOrder(b) && a != []
    ensures b != [] && a[0] == b[0]
  {
    assert a[0] in multiset(b);
    var m :| 0 <= m < |b| && b[m] == a[0];
    assert b[0] in multiset(a);
    var n :| 0 <= n < |a| && a[n] == b[0];
  }

  /** Two arrangements of the same entries, both in text order, are the same. */
  lemma {:induction false} TextOrderUnique(a: seq<Scored>, b: seq<Scored>)
    requires multiset(a) == multiset(b) && InTextOrder(a) && InTextOrder(b)
    ensures a == b
    decreases |a|
  {
    if a == [] {
      assert |b| == |multiset(b)| == 0;
    } else {
      TextOrderHead(a, b);
      MultisetCons(a);
      MultisetCons(b);
      MultisetCancel(a[0], multiset(a[1..]), multiset(b[1..]));
      InTextOrderTail(a);
      InTextOrderTail(b);
      TextOrderUnique(a[1..], b[1..]);
      assert a == [a[0]] + a[1..] && b == [b[0]] + b[1..];
    }
  }

  /** The intended reordering is the one arrangement of the selection in text order. */
  lemma ReorderedSelection(sentences: seq<string>)
    ensures IsSelection(sentences, Reordered(sentences)) && InTextOrder(Reordered(sentences))
    ensures forall picks :: IsSelection(sentences, picks) && InTextOrder(picks) ==> picks == Reordered(sentences)
  {
    var r := Reordered(sentences);
    SelectionOfPermutation(sentences, r);
    ReorderedInTextOrder(sentences);
    forall picks | IsSelection(sentences, picks) && InTextOrder(picks) ensures picks == r {
      TextOrderUnique(picks, r);
    }
  }

  /** The reordering as written arranges the selection by first occurrence. */
  lemma ReorderedAsWrittenSelection(sentences: seq<string>)
    ensures IsSelection(sentences, ReorderedAsWritten(sentences))
    ensures InFirstOccurrenceOrder(sentences, ReorderedAsWritten(sentences))
  {
    var r := ReorderedAsWritten(sentences);
    SelectionOfPermutation(sentences, r);
    ByFirstOccurrenceStrict(sentences);
    SortBySorted(Selected(sentences), ByFirstOccurrence(sentences));
    forall i, j | 0 <= i < j < |r|
      ensures IndexOf(sentences, r[i].sentence) <= IndexOf(sentences, r[j].sentence)
    {
      assert !ByFirstOccurrence(sentences)(r[j], r[i]);
    }
  }

  /** `simulateSummarization(text)` with the intended reordering: at most two sentences
   * give the text back; otherwise the summary joins with single spaces the selected
   * sentences in text order, which no other arrangement of picks achieves. */
  function Simulate(text: string): (r: string)
    ensures |Sentences(text)| <= 2 ==> r == text
    ensures |Sentences(text)| > 2 ==>
              exists picks :: IsSelection(Sentences(text), picks) && InTextOrder(picks) && r == Join(Texts(picks), " ")
    ensures |Sentences(text)| > 2 ==>
              forall picks :: IsSelection(Sentences(text), picks) && InTextOrder(picks) ==> r == Join(Texts(picks), " ")
  {
    var sentences := Sentences(text);
    if |sentences| <= 2 then text
    else
      ReorderedSelection(sentences);
      Join(Texts(Reordered(sentences)), " ")
  }

  /** `simulateSummarization(text)` as written: at most two sentences give the text
   * back; otherwise the summary joins with single spaces the selected sentences
   * ordered by the first occurrence of their texts. */
  function SimulateAsWritten(text: string): (r: string)
    ensures |Sentences(text)| <= 2 ==> r == text
    ensures |Sentences(text)| > 2 ==>
              exists picks :: IsSelection(Sentences(text), picks) && InFirstOccurrenceOrder(Sentences(text), picks)
                              && r == Join(Texts(picks), " ")
  {
    var sentences := Sentences(text);
    if |sentences| <= 2 then text
    else
      ReorderedAsWrittenSelection(sentences);
      Join(Texts(ReorderedAsWritten(sentences)), " ")
  }

  /** `summarizeText(text)`: short or blank texts are returned as they are, longer ones
   * go to `simulateSummarization` as written. */
  function SummarizeText(text: string): (r: string)
    ensures text == "" || |Trim(text)| < 50 ==> r == text
    ensures text != "" && |Trim(text)| >= 50 ==> r == SimulateAsWritten(text)
  {
    if text == "" || |Trim(text)| < 50 then text else SimulateAsWritten(text)
  }

  /** `summarizeText(text)` with the intended reordering. */
  function SummarizeTextCorrected(text: string): (r: string)
    ensures text == "" || |Trim(text)| < 50 ==> r == text
    ensures text != "" && |Trim(text)| >= 50 ==> r == Simulate(text)
  {
    if text == "" || |Trim(text)| < 50 then text else Simulate(text)
  }

  /** A text without any `.`, `!` or `?` has no sentence, so it comes back unchanged
   * however long it is. */
  lemma SummarizeWithoutTerminator(text: string)
    requires forall i :: 0 <= i < |text| ==> !IsTerminator(text[i])
    ensures SummarizeText(text) == text
  {
    SentencesNoTerminator(text);
  }
}
