/*
 * SummarizerRegrouping: the reordering step of the summary sorts the selected
 * sentences by `sentences.indexOf(sentence)`. A sentence whose text occurs twice
 * gets the position of its first occurrence both times, so its second copy moves
 * in front of every sentence that lies between the two copies and the summary is
 * no longer in text order. `Summarizer.Reordered` sorts by the position each
 * sentence was cut from instead, and `Summarizer.ReorderedInTextOrder` proves it
 * in text order.
 */
module SummarizerRegrouping {
  import opened Base
  import opened JsText
  import opened Sorting
  import opened Summarizer

  /** If two selected entries share a text and a third selected sentence, occurring
   * once, lies between them, the reordering as written puts some entry before one
   * that precedes it in the text. */
  lemma AsWrittenNotInTextOrder(sentences: seq<string>, i: nat, j: nat, k: nat)
    requires i < |Selected(sentences)| && j < |Selected(sentences)| && k < |Selected(sentences)|
    requires Selected(sentences)[i].sentence == Selected(sentences)[j].sentence
    requires Selected(sentences)[i].index < Selected(sentences)[k].index < Selected(sentences)[j].index
    requires IndexOf(sentences, Selected(sentences)[k].sentence) == Selected(sentences)[k].index
    ensures var w := ReorderedAsWritten(sentences);
            exists a, b :: 0 <= a < b < |w| && w[a].index > w[b].index
  {
    var r := Selected(sentences);
    var w := ReorderedAsWritten(sentences);
    var lt := ByFirstOccurrence(sentences);
    SelectedEntry(sentences, i);
    var q, mid := r[j], r[k];
    assert lt(q, mid);
    ByFirstOccurrenceStrict(sentences);
    SortBySorted(r, lt);
    assert q in multiset(w) && mid in multiset(w);
    var a :| 0 <= a < |w| && w[a] == q;
    var b :| 0 <= b < |w| && w[b] == mid;
    assert a != b;
  }

  /** The three fragments of the example: one sentence each, of equal length, two of
   * them distinct. */
  lemma ExampleFragments(x: string, y: string, z: string)
    requires x == " Go home." && y == " GO HOME." && z == " go home."
    ensures IsSentenceAt(x, 8) && IsSentenceAt(y, 8) && IsSentenceAt(z, 8)
    ensures |x| == |y| == |z| && x != y
  {
    assert x[2] != y[2];
  }

  /** ... and equal after lower-casing, character by character. */
  lemma ExampleFragmentsFolded(x: string, y: string)
    requires x == " Go home." && (y == " GO HOME." || y == " go home.")
    ensures |x| == |y| && forall i :: 0 <= i < |x| ==> LowerChar(y[i]) == LowerChar(x[i])
  {
  }

  /** Sentences that differ only in letter case all score the same, and the stable
   * ranking then keeps them in text order. */
  lemma RankingOfTies(sentences: seq<string>)
    requires forall i :: 0 <= i < |sentences| ==> |sentences[i]| == |sentences[0]| && Lower(sentences[i]) == Lower(sentences[0])
    ensures Ranked(sentences) == ScoreAll(sentences)
  {
    var all := ScoreAll(sentences);
    forall i | 0 <= i < |all| ensures all[i].score == Score(sentences[0]) {
      ScoreByLowerCase(sentences[i], sentences[0]);
    }
    SortByUnrelated(all, ByScoreDesc);
  }

  /** In the example the first three sentences are selected. */
  lemma ExampleSelection(x: string, y: string, z: string, sentences: seq<string>)
    requires Lower(y) == Lower(x) && Lower(z) == Lower(x) && |x| == |y| == |z|
    requires sentences == [x, y, x, z, z, z, z]
    ensures Selected(sentences) == ScoreAll(sentences)[..3]
  {
    forall i | 0 <= i < |sentences|
      ensures |sentences[i]| == |sentences[0]| && Lower(sentences[i]) == Lower(sentences[0])
    {
      assert sentences[i] == x || sentences[i] == y || sentences[i] == z;
    }
    RankingOfTies(sentences);
    SelectCountOfSeven();
    assert Selected(sentences) == Ranked(sentences)[..SelectCount(7)];
  }

  lemma SelectCountOfSeven()
    ensures SelectCount(7) == 3
  {
    assert CeilDiv(7, 3) == 3;
  }

  /** Two elements in order stay in order. */
  lemma SortTwoKept<T>(p: T, m: T, lt: (T, T) -> bool)
    requires !lt(m, p)
    ensures SortBy([p, m], lt) == [p, m]
  {
    assert [p, m][..1] == [p];
    assert SortBy([p], lt) == [p];
    assert Insert(m, [p], lt) == [p, m];
  }

  /** Three elements of which only the last strictly precedes the middle one. */
  lemma SortThreeSwapped<T>(p: T, m: T, q: T, lt: (T, T) -> bool)
    requires !lt(m, p) && !lt(q, p) && lt(q, m)
    ensures SortBy([p, m, q], lt) == [p, q, m]
  {
    SortTwoKept(p, m, lt);
    assert [p, m, q][..2] == [p, m] && [p, m, q][2] == q;
    assert [p, m][1..] == [m];
    assert Insert(q, [m], lt) == [q, m];
    assert Insert(q, [p, m], lt) == [p] + [q, m];
  }

  /** Three elements none of which strictly precedes an earlier one. */
  lemma SortThreeKept<T>(p: T, m: T, q: T, lt: (T, T) -> bool)
    requires !lt(m, p) && !lt(q, p) && !lt(q, m)
    ensures SortBy([p, m, q], lt) == [p, m, q]
  {
    SortTwoKept(p, m, lt);
    assert [p, m, q][..2] == [p, m] && [p, m, q][2] == q;
    assert [p, m][1..] == [m];
    assert Insert(q, [m], lt) == [m, q];
    assert Insert(q, [p, m], lt) == [p] + [m, q];
  }

  /** Sorting the three selected entries by first occurrence moves the second copy of
   * `x` in front of `y`. */
  lemma ExampleByFirstOccurrence(x: string, y: string, z: string, sentences: seq<string>, p: Scored, m: Scored, q: Scored)
    requires x != y && sentences == [x, y, x, z, z, z, z]
    requires p.sentence == x && m.sentence == y && q.sentence == x
    ensures SortBy([p, m, q], ByFirstOccurrence(sentences)) == [p, q, m]
  {
    assert IndexOf(sentences, y) == 1;
    assert IndexOf(sentences, x) == 0;
    SortThreeSwapped(p, m, q, ByFirstOccurrence(sentences));
  }

  /** The concatenation of `x y x z z z z` is cut, ranked and selected as described. */
  lemma ExampleCut(x: string, y: string, z: string, text: string)
    requires x == " Go home." && y == " GO HOME." && z == " go home."
    requires text == Join([x, y, x, z, z, z, z], "")
    ensures Sentences(text) == [x, y, x, z, z, z, z]
    ensures Selected([x, y, x, z, z, z, z]) == ScoreAll([x, y, x, z, z, z, z])[..3]
  {
    ExampleSentences(x, y, z, text);
    ExampleLower(x, y, z);
    ExampleSelection(x, y, z, [x, y, x, z, z, z, z]);
  }

  /** The concatenation of `x y x z z z z` is cut back into those seven sentences. */
  lemma ExampleSentences(x: string, y: string, z: string, text: string)
    requires x == " Go home." && y == " GO HOME." && z == " go home."
    requires text == Join([x, y, x, z, z, z, z], "")
    ensures Sentences(text) == [x, y, x, z, z, z, z]
    ensures |x| == |y| == |z|
  {
    ExampleFragments(x, y, z);
    SentencesOfConcat([x, y, x, z, z, z, z]);
  }

  /** The three fragments lower-case to the same text. */
  lemma ExampleLower(x: string, y: string, z: string)
    requires x == " Go home." && y == " GO HOME." && z == " go home."
    ensures Lower(y) == Lower(x) && Lower(z) == Lower(x)
  {
    ExampleFragmentsFolded(x, y);
    ExampleFragmentsFolded(x, z);
    LowerByChar(y, x);
    LowerByChar(z, x);
  }

  /** How the two reorderings arrange the selection of `x y x z z z z` when its first
   * three sentences are selected. */
  lemma RegroupedOrders(x: string, y: string, z: string, sentences: seq<string>)
    requires x != y && sentences == [x, y, x, z, z, z, z]
    requires Selected(sentences) == ScoreAll(sentences)[..3]
    ensures var r := Selected(sentences);
            ReorderedAsWritten(sentences) == [r[0], r[2], r[1]] && Reordered(sentences) == [r[0], r[1], r[2]]
    ensures Selected(sentences)[0].sentence == x && Selected(sentences)[1].sentence == y && Selected(sentences)[2].sentence == x
    ensures var w := ReorderedAsWritten(sentences);
            exists a, b :: 0 <= a < b < |w| && w[a].index > w[b].index
  {
    var r := Selected(sentences);
    assert r[0].sentence == x && r[1].sentence == y && r[2].sentence == x;
    assert r[0].index == 0 && r[1].index == 1 && r[2].index == 2;
    assert r == [r[0], r[1], r[2]];
    assert IndexOf(sentences, y) == 1;
    AsWrittenNotInTextOrder(sentences, 0, 2, 1);
    ExampleByFirstOccurrence(x, y, z, sentences, r[0], r[1], r[2]);
    SortThreeKept(r[0], r[1], r[2], ByPosition);
  }

  /** The texts of three entries, joined by single spaces. */
  lemma JoinTextsThree(a: Scored, b: Scored, c: Scored)
    ensures Join(Texts([a, b, c]), " ") == a.sentence + " " + (b.sentence + " " + c.sentence)
  {
    assert Texts([a, b, c]) == [a.sentence, b.sentence, c.sentence];
    assert [a.sentence, b.sentence, c.sentence][1..] == [b.sentence, c.sentence];
    assert [b.sentence, c.sentence][1..] == [c.sentence];
    assert Join([c.sentence], " ") == c.sentence;
    assert Join([b.sentence, c.sentence], " ") == b.sentence + " " + c.sentence;
  }

  /** What the summary makes of a text cut into `x y x z z z z` whose first three
   * sentences are selected. */
  lemma RegroupedOutputs(x: string, y: string, z: string, text: string)
    requires x != y
    requires Sentences(text) == [x, y, x, z, z, z, z]
    requires Selected([x, y, x, z, z, z, z]) == ScoreAll([x, y, x, z, z, z, z])[..3]
    ensures var w := ReorderedAsWritten(Sentences(text));
            exists a, b :: 0 <= a < b < |w| && w[a].index > w[b].index
    ensures SimulateAsWritten(text) == x + " " + (x + " " + y)
    ensures Simulate(text) == x + " " + (y + " " + x)
  {
    var sentences := [x, y, x, z, z, z, z];
    RegroupedOrders(x, y, z, sentences);
    var r := Selected(sentences);
    JoinTextsThree(r[0], r[2], r[1]);
    JoinTextsThree(r[0], r[1], r[2]);
  }

  /** On the text " Go home. GO HOME. Go home. go home. go home. go home. go home." the
   * reordering as written prints "Go home." twice before "GO HOME.", which stands between
   * the two copies in the text; the corrected reordering keeps text order. */
  lemma ExampleRegrouped(x: string, y: string, z: string, text: string)
    requires x == " Go home." && y == " GO HOME." && z == " go home."
    requires text == Join([x, y, x, z, z, z, z], "")
    ensures var w := ReorderedAsWritten(Sentences(text));
            exists a, b :: 0 <= a < b < |w| && w[a].index > w[b].index
    ensures SimulateAsWritten(text) == x + " " + (x + " " + y)
    ensures Simulate(text) == x + " " + (y + " " + x)
  {
    ExampleCut(x, y, z, text);
    ExampleFragments(x, y, z);
    RegroupedOutputs(x, y, z, text);
  }
}
