/**
 * The last stage of `detectLanguage`: the positive scores ranked by a stable
 * descending sort, the winner's confidence as a rounded percentage of the
 * total score, and up to three alternatives.
 */
module Ranking {
  import opened Options

  /** One language with its score, as the record's entries list them. */
  datatype Entry = Entry(language: string, score: int)

  predicate UniqueLanguages(es: seq<Entry>) {
    forall i, j :: 0 <= i < j < |es| ==> es[i].language != es[j].language
  }

  predicate Descending(es: seq<Entry>) {
    forall i, j :: 0 <= i < j < |es| ==> es[i].score >= es[j].score
  }

  /** The entries with a positive score, in their order (the filter at line 489). */
  function Positive(es: seq<Entry>): seq<Entry> {
    if es == [] then []
    else
      var n := |es| - 1;
      Positive(es[..n]) + (if es[n].score > 0 then [es[n]] else [])
  }

  /**
   * One step of a stable descending insertion sort: `x` goes after every
   * entry scoring at least as much, so ties keep their order of arrival.
   */
  function Insert(x: Entry, s: seq<Entry>): seq<Entry> {
    if s == [] then [x]
    else if s[0].score >= x.score then [s[0]] + Insert(x, s[1..])
    else [x] + s
  }

  /** A stable sort by score, highest first (the sort at line 490). */
  function SortByScore(es: seq<Entry>): seq<Entry> {
    if es == [] then []
    else
      var n := |es| - 1;
      Insert(es[n], SortByScore(es[..n]))
  }

  /** The languages still in the race, best first. */
  function Ranked(es: seq<Entry>): seq<Entry> {
    SortByScore(Positive(es))
  }

  /** The entries with one given score, in their order: what a stable sort must keep. */
  function WithScore(es: seq<Entry>, v: int): seq<Entry> {
    if es == [] then []
    else (if es[0].score == v then [es[0]] else []) + WithScore(es[1..], v)
  }

  /** The sum of all scores, as the reduce at line 497 computes it. */
  function TotalScore(es: seq<Entry>): int {
    if es == [] then 0 else TotalScore(es[..|es| - 1]) + es[|es| - 1].score
  }

  /**
   * `Math.min(100, Math.round((score / Math.max(total, 1)) * 100))` in exact
   * arithmetic: rounding half up is `floor(x + 1/2)`, which for
   * `x = 100 * score / d` is the integer quotient `(200 * score + d) / (2 * d)`.
   */
  function Confidence(score: int, total: int): int {
    var d := if total > 1 then total else 1;
    var rounded := (200 * score + d) / (2 * d);
    if rounded < 100 then rounded else 100
  }

  /** One `{ language, confidence }` of `alternatives`. */
  datatype Alternative = Alternative(language: string, confidence: int)

  /** Each runner-up paired with its own rounded confidence (the map at lines 503-506). */
  function Scored(es: seq<Entry>, total: int): (alts: seq<Alternative>)
    ensures |alts| == |es|
    ensures forall k :: 0 <= k < |es| ==> alts[k] == Alternative(es[k].language, Confidence(es[k].score, total))
  {
    seq(|es|, k requires 0 <= k < |es| => Alternative(es[k].language, Confidence(es[k].score, total)))
  }

  /** The alternatives whose confidence exceeds 5 (the filter at line 507). */
  function Confident(alts: seq<Alternative>): seq<Alternative> {
    if alts == [] then []
    else
      var n := |alts| - 1;
      Confident(alts[..n]) + (if alts[n].confidence > 5 then [alts[n]] else [])
  }

  /**
   * The alternatives of a ranking: ranks two to four (`slice(1, 4)`), scored,
   * the confident ones kept; absent (`undefined`) when none is left.
   */
  function Alternatives(ranked: seq<Entry>, total: int): Option<seq<Alternative>> {
    var upper := if |ranked| < 4 then |ranked| else 4;
    var lower := if |ranked| < 1 then |ranked| else 1;
    var alts := Confident(Scored(ranked[lower..upper], total));
    if alts == [] then None else Some(alts)
  }

  /** A `LanguageDetectionResult`. */
  datatype Detection = Detection(
    language: string, confidence: int, matches: seq<string>, alternatives: Option<seq<Alternative>>)

  /** What the detector answers when nothing scored. */
  const Unknown := Detection("Unknown", 0, [], None)

  /**
   * The answer for a final score list (in insertion order) and the evidence
   * record: Unknown when no score is positive; otherwise the top of the
   * ranking with its confidence, its evidence (`matches[top] || []`) and the
   * alternatives.
   */
  function Outcome(es: seq<Entry>, evidence: map<string, seq<string>>): Detection {
    var ranked := Ranked(es);
    if ranked == [] then Unknown
    else
      var top := ranked[0];
      var total := TotalScore(es);
      Detection(top.language, Confidence(top.score, total),
        if top.language in evidence then evidence[top.language] else [],
        Alternatives(ranked, total))
  }

  // The filter.

  /** The filter keeps exactly the positive entries, in order, and no other. */
  lemma {:induction false} PositiveMembers(es: seq<Entry>)
    ensures forall e :: e in Positive(es) <==> e in es && e.score > 0
    ensures |Positive(es)| <= |es|
  {
    if es != [] {
      var n := |es| - 1;
      PositiveMembers(es[..n]);
      assert es == es[..n] + [es[n]];
    }
  }

  lemma {:induction false} WithScoreAppend(a: seq<Entry>, b: seq<Entry>, v: int)
    ensures WithScore(a + b, v) == WithScore(a, v) + WithScore(b, v)
  {
    if a != [] {
      assert (a + b)[1..] == a[1..] + b;
      WithScoreAppend(a[1..], b, v);
    } else {
      assert a + b == b;
    }
  }

  /** For a positive score the filter keeps every entry with that score, in order. */
  lemma {:induction false} PositiveKeepsPositiveScores(es: seq<Entry>, v: int)
    requires v > 0
    ensures WithScore(Positive(es), v) == WithScore(es, v)
  {
    if es != [] {
      var n := |es| - 1;
      assert es == es[..n] + [es[n]];
      PositiveKeepsPositiveScores(es[..n], v);
      WithScoreAppend(es[..n], [es[n]], v);
      var tail := if es[n].score > 0 then [es[n]] else [];
      WithScoreAppend(Positive(es[..n]), tail, v);
    }
  }

  lemma UniqueSnoc(s: seq<Entry>, x: Entry)
    requires UniqueLanguages(s) && forall e :: e in s ==> e.language != x.language
    ensures UniqueLanguages(s + [x])
  {
    forall i, j | 0 <= i < j < |s + [x]|
      ensures (s + [x])[i].language != (s + [x])[j].language
    {
      assert (s + [x])[i] == s[i];
      if j == |s| {
        assert s[i] in s;
      }
    }
  }

  lemma {:induction false} PositiveUnique(es: seq<Entry>)
    requires UniqueLanguages(es)
    ensures UniqueLanguages(Positive(es))
  {
    if es != [] {
      var n := |es| - 1;
      var front := es[..n];
      assert UniqueLanguages(front);
      PositiveUnique(front);
      if es[n].score > 0 {
        PositiveMembers(front);
        forall e | e in Positive(front)
          ensures e.language != es[n].language
        {
          var i :| 0 <= i < n && front[i] == e;
        }
        UniqueSnoc(Positive(front), es[n]);
      } else {
        assert Positive(es) == Positive(front) + [];
      }
    }
  }

  // The sort.

  lemma {:induction false} InsertMultiset(x: Entry, s: seq<Entry>)
    ensures multiset(Insert(x, s)) == multiset(s) + multiset{x}
  {
    if s != [] && s[0].score >= x.score {
      InsertMultiset(x, s[1..]);
      assert s == [s[0]] + s[1..];
    }
  }

  /** The sort is a permutation of its input. */
  lemma {:induction false} SortPermutation(es: seq<Entry>)
    ensures multiset(SortByScore(es)) == multiset(es)
  {
    if es != [] {
      var n := |es| - 1;
      var front := SortByScore(es[..n]);
      SortPermutation(es[..n]);
      InsertMultiset(es[n], front);
      MultisetSnoc(es);
    }
  }

  lemma MultisetSnoc<T>(s: seq<T>)
    requires s != []
    ensures multiset(s) == multiset(s[..|s| - 1]) + multiset{s[|s| - 1]}
  {
    assert s == s[..|s| - 1] + [s[|s| - 1]];
  }

  lemma {:induction false} InsertDescending(x: Entry, s: seq<Entry>)
    requires Descending(s)
    ensures Descending(Insert(x, s))
  {
    if s != [] && s[0].score >= x.score {
      assert Descending(s[1..]);
      InsertDescending(x, s[1..]);
      InsertMultiset(x, s[1..]);
      var r := Insert(x, s[1..]);
      forall j | 0 <= j < |r|
        ensures s[0].score >= r[j].score
      {
        assert r[j] in multiset(s[1..]) + multiset{x};
      }
    }
  }

  /** The sort puts the highest score first and never puts a lower score before a higher one. */
  lemma {:induction false} SortDescending(es: seq<Entry>)
    ensures Descending(SortByScore(es))
  {
    if es != [] {
      var n := |es| - 1;
      SortDescending(es[..n]);
      InsertDescending(es[n], SortByScore(es[..n]));
    }
  }

  lemma {:induction false} InsertStable(x: Entry, s: seq<Entry>, v: int)
    requires Descending(s)
    ensures WithScore(Insert(x, s), v) == WithScore(s, v) + WithScore([x], v)
  {
    if s == [] {
    } else if s[0].score >= x.score {
      DescendingTail(s);
      InsertStable(x, s[1..], v);
      ConsStable(s[0], Insert(x, s[1..]), s[1..], WithScore([x], v), v);
      assert s == [s[0]] + s[1..];
    } else {
      assert Insert(x, s) == [x] + s;
      WithScoreAppend([x], s, v);
      if x.score == v {
        NoneAbove(s, v);
      }
    }
  }

  lemma DescendingTail(s: seq<Entry>)
    requires Descending(s) && s != []
    ensures Descending(s[1..])
  {
  }

  /** Putting the same entry in front of two lists keeps a relation between their `WithScore`s. */
  lemma ConsStable(y: Entry, a: seq<Entry>, b: seq<Entry>, w: seq<Entry>, v: int)
    requires WithScore(a, v) == WithScore(b, v) + w
    ensures WithScore([y] + a, v) == WithScore([y] + b, v) + w
  {
    var head: seq<Entry> := if y.score == v then [y] else [];
    assert ([y] + a)[1..] == a && ([y] + b)[1..] == b;
    assert WithScore([y] + a, v) == head + WithScore(a, v);
    assert WithScore([y] + b, v) == head + WithScore(b, v);
    assert head + (WithScore(b, v) + w) == (head + WithScore(b, v)) + w;
  }

  /** In a descending list headed by a lower score, no entry has the higher score. */
  lemma {:induction false} NoneAbove(s: seq<Entry>, v: int)
    requires Descending(s) && s != [] && s[0].score < v
    ensures WithScore(s, v) == []
  {
    if |s| > 1 {
      assert Descending(s[1..]);
      NoneAbove(s[1..], v);
    }
  }

  /** The sort is stable: the entries with any one score come out in the order they went in. */
  lemma {:induction false} SortStable(es: seq<Entry>, v: int)
    ensures WithScore(SortByScore(es), v) == WithScore(es, v)
  {
    if es != [] {
      var n := |es| - 1;
      SortStable(es[..n], v);
      SortDescending(es[..n]);
      InsertStable(es[n], SortByScore(es[..n]), v);
      assert es == es[..n] + [es[n]];
      WithScoreAppend(es[..n], [es[n]], v);
    }
  }

  lemma {:induction false} InsertUnique(x: Entry, s: seq<Entry>)
    requires UniqueLanguages(s) && forall e :: e in s ==> e.language != x.language
    ensures UniqueLanguages(Insert(x, s))
  {
    if s != [] && s[0].score >= x.score {
      assert UniqueLanguages(s[1..]);
      InsertUnique(x, s[1..]);
      InsertMultiset(x, s[1..]);
      var r := Insert(x, s[1..]);
      forall j | 0 <= j < |r|
        ensures r[j].language != s[0].language
      {
        assert r[j] in multiset(s[1..]) + multiset{x};
      }
    }
  }

  /** Sorting a list with one entry per language keeps one entry per language. */
  lemma {:induction false} SortUnique(es: seq<Entry>)
    requires UniqueLanguages(es)
    ensures UniqueLanguages(SortByScore(es))
  {
    if es != [] {
      var n := |es| - 1;
      assert UniqueLanguages(es[..n]);
      SortUnique(es[..n]);
      SortPermutation(es[..n]);
      forall e | e in SortByScore(es[..n])
        ensures e.language != es[n].language
      {
        assert e in multiset(es[..n]);
        var i :| 0 <= i < n && es[..n][i] == e;
        assert es[i] == e;
      }
      InsertUnique(es[n], SortByScore(es[..n]));
    }
  }

  // The ranking.

  /** The ranking holds exactly the positive entries, best first, each language once. */
  lemma RankedShape(es: seq<Entry>)
    ensures multiset(Ranked(es)) == multiset(Positive(es))
    ensures forall e :: e in Ranked(es) <==> e in es && e.score > 0
    ensures Descending(Ranked(es))
    ensures UniqueLanguages(es) ==> UniqueLanguages(Ranked(es))
  {
    SortPermutation(Positive(es));
    PositiveMembers(es);
    SortDescending(Positive(es));
    forall e
      ensures e in Ranked(es) <==> e in Positive(es)
    {
      assert e in Ranked(es) <==> e in multiset(Ranked(es));
    }
    if UniqueLanguages(es) {
      PositiveUnique(es);
      SortUnique(Positive(es));
    }
  }

  /** "Unknown" exactly when no entry has a positive score. */
  lemma RankedEmptyIff(es: seq<Entry>)
    ensures Ranked(es) == [] <==> forall k :: 0 <= k < |es| ==> es[k].score <= 0
  {
    RankedShape(es);
    if Ranked(es) != [] {
      assert Ranked(es)[0] in Ranked(es);
    } else {
      forall k | 0 <= k < |es|
        ensures es[k].score <= 0
      {
        assert es[k] in es;
      }
    }
  }

  /** The winner has the highest score of all entries. */
  lemma WinnerIsTop(es: seq<Entry>)
    requires Ranked(es) != []
    ensures Ranked(es)[0] in es && Ranked(es)[0].score > 0
    ensures forall k :: 0 <= k < |es| ==> es[k].score <= Ranked(es)[0].score
  {
    var r := Ranked(es);
    RankedShape(es);
    assert r[0] in r;
    HeadIsMax(r);
    forall k | 0 <= k < |es|
      ensures es[k].score <= r[0].score
    {
      if es[k].score > 0 {
        assert es[k] in r;
      }
    }
  }

  lemma HeadIsMax(r: seq<Entry>)
    requires Descending(r) && r != []
    ensures forall e :: e in r ==> e.score <= r[0].score
  {
    forall e | e in r
      ensures e.score <= r[0].score
    {
      var j :| 0 <= j < |r| && r[j] == e;
      assert j == 0 || r[0].score >= r[j].score;
    }
  }

  /**
   * Of the entries with the top score the winner is the first in insertion
   * order: the first declared language wins a tie.
   */
  lemma WinnerIsFirstTopScorer(es: seq<Entry>)
    requires Ranked(es) != []
    ensures WithScore(es, Ranked(es)[0].score) != []
    ensures Ranked(es)[0] == WithScore(es, Ranked(es)[0].score)[0]
  {
    var r := Ranked(es);
    var w := r[0];
    assert w.score > 0 by {
      RankedShape(es);
      assert w in r;
    }
    SortStable(Positive(es), w.score);
    PositiveKeepsPositiveScores(es, w.score);
    assert r == [w] + r[1..];
    WithScoreAppend([w], r[1..], w.score);
  }

  // Confidence.

  lemma DivMonotone(a: int, b: int, d: int)
    requires a <= b && d > 0
    ensures a / d <= b / d
  {
    var qa, qb := a / d, b / d;
    assert d * qa <= a;
    assert b < d * qb + d;
    if qb + 1 <= qa {
      MulMonotone(qb + 1, qa, d);
      assert false;
    }
  }

  lemma MulMonotone(x: int, y: int, d: int)
    requires x <= y && d >= 0
    ensures d * x <= d * y
  {
  }

  /** A non-negative score has a confidence between 0 and 100. */
  lemma ConfidenceRange(score: int, total: int)
    requires score >= 0
    ensures 0 <= Confidence(score, total) <= 100
  {
    var d := if total > 1 then total else 1;
    DivMonotone(0, 200 * score + d, 2 * d);
  }

  /** A higher score never has a lower confidence. */
  lemma ConfidenceMonotone(s1: int, s2: int, total: int)
    requires s1 <= s2
    ensures Confidence(s1, total) <= Confidence(s2, total)
  {
    var d := if total > 1 then total else 1;
    DivMonotone(200 * s1 + d, 200 * s2 + d, 2 * d);
  }

  /**
   * The confidence is the percentage rounded half up, `d = max(total, 1)`:
   * below the cap it is the integer `c` with `c - 1/2 <= 100 * score / d < c + 1/2`;
   * it is capped at 100 exactly when that percentage reaches 99.5.
   */
  lemma ConfidenceRounds(score: int, total: int)
    ensures var d, c := (if total > 1 then total else 1), Confidence(score, total);
      || (c < 100 && 2 * d * c - d <= 200 * score < 2 * d * c + d)
      || (c == 100 && 200 * score >= 199 * d)
  {
    var d := if total > 1 then total else 1;
    var q := (200 * score + d) / (2 * d);
    var rem := (200 * score + d) % (2 * d);
    assert 200 * score + d == 2 * d * q + rem && 0 <= rem < 2 * d;
    if q >= 100 {
      MulMonotone(100, q, 2 * d);
    }
  }

  // The alternatives.

  lemma {:induction false} ConfidentMembers(alts: seq<Alternative>)
    ensures forall a :: a in Confident(alts) <==> a in alts && a.confidence > 5
    ensures |Confident(alts)| <= |alts|
  {
    if alts != [] {
      var n := |alts| - 1;
      ConfidentMembers(alts[..n]);
      assert alts == alts[..n] + [alts[n]];
    }
  }

  predicate ConfidenceDescending(alts: seq<Alternative>) {
    forall i, j :: 0 <= i < j < |alts| ==> alts[i].confidence >= alts[j].confidence
  }

  lemma {:induction false} ConfidentDescending(alts: seq<Alternative>)
    requires ConfidenceDescending(alts)
    ensures ConfidenceDescending(Confident(alts))
  {
    if alts != [] {
      var n := |alts| - 1;
      var x := alts[n];
      assert ConfidenceDescending(alts[..n]);
      ConfidentDescending(alts[..n]);
      ConfidentAtLeast(alts[..n], x.confidence);
      if x.confidence > 5 {
        DescendingSnoc(Confident(alts[..n]), x);
      }
    }
  }

  /** The filter keeps a lower bound on the confidences. */
  lemma {:induction false} ConfidentAtLeast(alts: seq<Alternative>, v: int)
    requires forall k :: 0 <= k < |alts| ==> alts[k].confidence >= v
    ensures forall k :: 0 <= k < |Confident(alts)| ==> Confident(alts)[k].confidence >= v
  {
    if alts != [] {
      var n := |alts| - 1;
      assert forall k :: 0 <= k < n ==> alts[..n][k] == alts[k];
      ConfidentAtLeast(alts[..n], v);
    }
  }

  lemma DescendingSnoc(front: seq<Alternative>, x: Alternative)
    requires ConfidenceDescending(front)
    requires forall k :: 0 <= k < |front| ==> front[k].confidence >= x.confidence
    ensures ConfidenceDescending(front + [x])
  {
  }

  lemma ScoredDescending(es: seq<Entry>, total: int)
    requires Descending(es)
    ensures ConfidenceDescending(Scored(es, total))
  {
    forall i, j | 0 <= i < j < |es|
      ensures Scored(es, total)[i].confidence >= Scored(es, total)[j].confidence
    {
      ConfidenceMonotone(es[j].score, es[i].score, total);
    }
  }

  /**
   * The alternatives of a ranking are present only when not empty, number at
   * most three, are each above 5 per cent and come in descending order of
   * confidence.
   */
  lemma AlternativesShape(es: seq<Entry>)
    ensures var r, total := Ranked(es), TotalScore(es);
      match Alternatives(r, total)
      case None => true
      case Some(alts) =>
        && 1 <= |alts| <= 3
        && ConfidenceDescending(alts)
        && (forall a :: a in alts ==> a.confidence > 5)
  {
    RankedShape(es);
    DescendingAlternatives(Ranked(es), TotalScore(es));
  }

  /** The alternatives of any descending list, as `AlternativesShape` states them for the ranking. */
  lemma DescendingAlternatives(r: seq<Entry>, total: int)
    requires Descending(r)
    ensures match Alternatives(r, total)
      case None => true
      case Some(alts) =>
        && 1 <= |alts| <= 3
        && ConfidenceDescending(alts)
        && (forall a :: a in alts ==> a.confidence > 5)
  {
    var upper := if |r| < 4 then |r| else 4;
    var lower := if |r| < 1 then |r| else 1;
    var rest := r[lower..upper];
    var scored := Scored(rest, total);
    assert Descending(rest);
    ScoredDescending(rest, total);
    ConfidentDescending(scored);
    ConfidentMembers(scored);
  }

  /**
   * Each alternative is a ranked language at ranks two to four with the
   * confidence of its score, so never more confident than the winner, and
   * never the winner itself when the languages are distinct.
   */
  lemma AlternativesFromRanks(es: seq<Entry>, a: Alternative)
    requires Ranked(es) != []
    requires Alternatives(Ranked(es), TotalScore(es)).Some?
    requires a in Alternatives(Ranked(es), TotalScore(es)).value
    ensures var r, total := Ranked(es), TotalScore(es);
      && (exists j :: 1 <= j < 4 && j < |r| && a == Alternative(r[j].language, Confidence(r[j].score, total)))
      && a.confidence <= Confidence(r[0].score, total)
      && (UniqueLanguages(es) ==> a.language != r[0].language)
  {
    var r, total := Ranked(es), TotalScore(es);
    var upper := if |r| < 4 then |r| else 4;
    var rest := r[1..upper];
    var scored := Scored(rest, total);
    ConfidentMembers(scored);
    var k :| 0 <= k < |scored| && scored[k] == a;
    assert a == Alternative(r[k + 1].language, Confidence(r[k + 1].score, total));
    RankedShape(es);
    ConfidenceMonotone(r[k + 1].score, r[0].score, total);
  }

  /**
   * Conversely, every language at ranks two to four whose confidence is
   * above 5 per cent is listed, so the alternatives are present.
   */
  lemma AlternativesComplete(r: seq<Entry>, total: int, j: nat)
    requires 1 <= j < 4 && j < |r| && Confidence(r[j].score, total) > 5
    ensures Alternatives(r, total).Some?
    ensures Alternative(r[j].language, Confidence(r[j].score, total)) in Alternatives(r, total).value
  {
    var upper := if |r| < 4 then |r| else 4;
    var scored := Scored(r[1..upper], total);
    assert scored[j - 1] == Alternative(r[j].language, Confidence(r[j].score, total));
    ConfidentMembers(scored);
  }

  /** No entry scores more than the top, so the total is at most the entry count times the top. */
  lemma {:induction false} TotalAtMost(es: seq<Entry>, top: int)
    requires forall k :: 0 <= k < |es| ==> es[k].score <= top
    ensures TotalScore(es) <= |es| * top
  {
    if es != [] {
      var n := |es| - 1;
      assert forall k :: 0 <= k < n ==> es[..n][k] == es[k];
      TotalAtMost(es[..n], top);
      assert |es| * top == n * top + top;
    }
  }

  /** A confidence `c` that is capped, or the rounding of a percentage at least `100 / n`. */
  predicate AtLeastShare(c: int, n: int) {
    c == 100 || 200 < n * (2 * c + 1)
  }

  /**
   * A score that is at least a `1/n` share of the total has a confidence
   * capped at 100 or, rounded, at least `100 / n`: `200 < n * (2 * c + 1)`.
   */
  lemma ShareFloor(score: int, total: int, n: int)
    requires score >= 1 && n >= 1 && total <= n * score
    ensures AtLeastShare(Confidence(score, total), n)
  {
    var c := Confidence(score, total);
    ConfidenceRounds(score, total);
    ConfidenceRange(score, total);
    if c < 100 {
      ShareArithmetic(score, total, (if total > 1 then total else 1), n, c);
    }
  }

  /** The arithmetic of `ShareFloor`: `200 * score < d * (2c + 1) <= n * score * (2c + 1)`. */
  lemma ShareArithmetic(score: int, total: int, d: int, n: int, c: int)
    requires score >= 1 && n >= 1 && c >= 0 && total <= n * score
    requires d == (if total > 1 then total else 1)
    requires 200 * score < 2 * d * c + d
    ensures 200 < n * (2 * c + 1)
  {
    var k := 2 * c + 1;
    MulMonotone(1, n, score);
    assert d <= n * score;
    MulMonotone(d, n * score, k);
    assert 200 * score < k * (n * score);
    assert k * (n * score) == score * (n * k);
    if n * k <= 200 {
      MulMonotone(n * k, 200, score);
    }
  }

  /** The winner holds at least a `1/|es|` share of the total, which bounds its confidence from below. */
  lemma WinnerConfidenceFloor(es: seq<Entry>)
    requires Ranked(es) != []
    ensures AtLeastShare(Confidence(Ranked(es)[0].score, TotalScore(es)), |es|)
  {
    var top, total, n := Ranked(es)[0].score, TotalScore(es), |es|;
    WinnerIsTop(es);
    assert top >= 1;
    TotalAtMost(es, top);
    assert total <= n * top;
    ShareFloor(top, total, n);
  }

  /** With at most 33 entries a reported winner has confidence at least 3, and only Unknown has 0. */
  lemma OutcomeConfidenceFloor(es: seq<Entry>, evidence: map<string, seq<string>>)
    requires |es| <= 33
    ensures var r := Outcome(es, evidence);
      && (r.confidence == 0 <==> r == Unknown)
      && (r != Unknown ==> r.confidence >= 3)
  {
    if Ranked(es) != [] {
      var c := Confidence(Ranked(es)[0].score, TotalScore(es));
      WinnerIsTop(es);
      ConfidenceRange(Ranked(es)[0].score, TotalScore(es));
      WinnerConfidenceFloor(es);
      MulMonotone(|es|, 33, 2 * c + 1);
    }
  }

  /** The outcome is Unknown exactly when no entry is ranked, unless an entry is itself called "Unknown". */
  lemma OutcomeUnknownIff(es: seq<Entry>, evidence: map<string, seq<string>>)
    requires forall k :: 0 <= k < |es| ==> es[k].language != "Unknown"
    ensures Outcome(es, evidence) == Unknown <==> Ranked(es) == []
  {
    if Ranked(es) != [] {
      RankedShape(es);
      assert Ranked(es)[0] in es;
    }
  }

  /** The winner's confidence lies in 0..100 when the scores are non-negative. */
  lemma OutcomeConfidence(es: seq<Entry>, evidence: map<string, seq<string>>)
    requires forall k :: 0 <= k < |es| ==> es[k].score >= 0
    ensures 0 <= Outcome(es, evidence).confidence <= 100
  {
    if Ranked(es) != [] {
      RankedShape(es);
      assert Ranked(es)[0] in Ranked(es);
      ConfidenceRange(Ranked(es)[0].score, TotalScore(es));
    }
  }
}
