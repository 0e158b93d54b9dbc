/**
 * `detectLanguage`: the empty-input guard, the rule loop that fills the
 * score and evidence records, the heuristics, and the ranking. `Classify`
 * states the answer as a function of the table, the regular-expression
 * matcher and the code; `DetectWith` computes it step by step on a
 * `ScoreBoard`, as the source does.
 */
module Detector {
  import opened Options
  import opened Text
  import opened Patterns
  import opened ScoreBoards
  import opened Heuristics
  import opened Ranking
  import opened KnowledgeBase

  /** The entries of the score record, in insertion order. */
  function EntriesOf(order: seq<string>, scores: map<string, int>): (es: seq<Entry>)
    requires forall l :: l in order ==> l in scores
    ensures |es| == |order|
    ensures forall i :: 0 <= i < |order| ==> es[i] == Entry(order[i], scores[order[i]])
  {
    seq(|order|, i requires 0 <= i < |order| => Entry(order[i], scores[order[i]]))
  }

  /** The score record once the rule loop and the heuristics have run on the trimmed text. */
  function FinalScores(table: seq<Signature>, m: Matcher, text: string): map<string, int> {
    Augmented(BaseScores(table, m, text), m, text)
  }

  lemma FinalKeys(table: seq<Signature>, m: Matcher, text: string)
    ensures FinalScores(table, m, text).Keys == set l | l in LabelsOf(table)
    ensures BaseEvidence(table, m, text).Keys == set l | l in LabelsOf(table)
  {
    BaseKeys(table, m, text);
    GrantKeys(BaseScores(table, m, text), Awards(m, text));
  }

  /** The final score of the language of row `i`. */
  function FinalScore(table: seq<Signature>, m: Matcher, text: string, i: nat): int
    requires i < |table|
  {
    FinalKeys(table, m, text);
    assert LabelsOf(table)[i] == table[i].language;
    FinalScores(table, m, text)[table[i].language]
  }

  /** The entries of the final record, in table order. */
  function FinalEntries(table: seq<Signature>, m: Matcher, text: string): (es: seq<Entry>)
    ensures |es| == |table|
    ensures forall i :: 0 <= i < |table| ==> es[i] == Entry(table[i].language, FinalScore(table, m, text, i))
  {
    seq(|table|, i requires 0 <= i < |table| => Entry(table[i].language, FinalScore(table, m, text, i)))
  }

  /**
   * What `detectLanguage(code)` answers: Unknown for the empty string;
   * otherwise the outcome of the final scores of the trimmed code.
   */
  function Classify(table: seq<Signature>, m: Matcher, code: string): Detection {
    if code == [] then Unknown
    else
      var text := Trim(code);
      Outcome(FinalEntries(table, m, text), BaseEvidence(table, m, text))
  }

  /**
   * `detectLanguage` over a rule table whose labels are distinct (the keys
   * of an object literal): the rule loop on a fresh board, the heuristics,
   * then the ranking of the entries in insertion order.
   */
  method DetectWith(table: seq<Signature>, m: Matcher, code: string) returns (r: Detection)
    requires WellFormed(table)
    ensures r == Classify(table, m, code)
  {
    if code == [] {
      return Unknown;
    }
    var board := new ScoreBoard();
    var text := Trim(code);
    for i := 0 to |table|
      invariant board.order == LabelsOf(table[..i])
      invariant board.scores == BaseScores(table[..i], m, text)
      invariant board.matches == BaseEvidence(table[..i], m, text)
    {
      ScoreLanguage(board, table, i, m, text);
    }
    assert table[..|table|] == table;
    ApplyAdditionalHeuristics(text, board, m);
    FinalKeys(table, m, text);
    var entries := EntriesOf(board.order, board.scores);
    assert entries == FinalEntries(table, m, text);
    r := Outcome(entries, board.matches);
  }

  /**
   * One turn of the outer loop: `scores[language] = 0; matches[language] = []`,
   * then each rule in order: on a match add the weight, record `match[0]`, and
   * add twice the weight again when the rule is exclusive.
   */
  method ScoreLanguage(board: ScoreBoard, table: seq<Signature>, i: nat, m: Matcher, text: string)
    requires WellFormed(table) && i < |table|
    requires board.order == LabelsOf(table[..i])
    requires board.scores == BaseScores(table[..i], m, text)
    requires board.matches == BaseEvidence(table[..i], m, text)
    modifies board
    ensures board.order == LabelsOf(table[..i + 1])
    ensures board.scores == BaseScores(table[..i + 1], m, text)
    ensures board.matches == BaseEvidence(table[..i + 1], m, text)
  {
    var language, rules := table[i].language, table[i].rules;
    assert table[..i + 1][..i] == table[..i];
    assert language !in board.scores by {
      BaseKeys(table[..i], m, text);
      assert LabelsOf(table[..i]) == LabelsOf(table)[..i];
      assert forall j :: 0 <= j < i ==> LabelsOf(table)[j] != LabelsOf(table)[i];
    }
    ghost var scores0, matches0 := board.scores, board.matches;
    board.Reset(language);
    assert LabelsOf(table[..i + 1]) == LabelsOf(table[..i]) + [language];
    ScoreRules(board, language, rules, m, text);
    assert [] + Evidence(rules, m, text) == Evidence(rules, m, text);
    assert board.scores == scores0[language := PatternScore(rules, m, text)];
    assert board.matches == matches0[language := Evidence(rules, m, text)];
  }

  /**
   * The inner loop over one language's rules, adding each rule's gain to the
   * language's score and its first match to the language's evidence.
   */
  method ScoreRules(board: ScoreBoard, language: string, rules: seq<Rule>, m: Matcher, text: string)
    requires language in board.scores && language in board.matches
    modifies board`scores, board`matches
    ensures board.scores == old(board.scores)[language := old(board.scores)[language] + PatternScore(rules, m, text)]
    ensures board.matches == old(board.matches)[language := old(board.matches)[language] + Evidence(rules, m, text)]
  {
    ghost var scores0, matches0 := board.scores, board.matches;
    ghost var score0, evidence0 := scores0[language], matches0[language];
    assert evidence0 + [] == evidence0;
    assert scores0[language := score0] == scores0;
    assert matches0[language := evidence0] == matches0;
    for j := 0 to |rules|
      invariant board.scores == scores0[language := score0 + PatternScore(rules[..j], m, text)]
      invariant board.matches == matches0[language := evidence0 + Evidence(rules[..j], m, text)]
    {
      assert rules[..j + 1][..j] == rules[..j];
      ScoreRule(board, language, rules[j], m, text);
      assert evidence0 + Evidence(rules[..j + 1], m, text)
          == (evidence0 + Evidence(rules[..j], m, text)) + Evidence([rules[j]], m, text) by {
        EvidenceAppend(rules[..j], [rules[j]], m, text);
        assert rules[..j] + [rules[j]] == rules[..j + 1];
      }
    }
    assert rules[..|rules|] == rules;
  }

  /**
   * One rule: on a match add the weight, record `match[0]`, and add twice the
   * weight again when the rule is exclusive.
   */
  method ScoreRule(board: ScoreBoard, language: string, rule: Rule, m: Matcher, text: string)
    requires language in board.scores && language in board.matches
    modifies board`scores, board`matches
    ensures board.scores == old(board.scores)[language := old(board.scores)[language] + Gain(rule, m, text)]
    ensures board.matches == old(board.matches)[language := old(board.matches)[language] + Evidence([rule], m, text)]
  {
    var hit := m(rule.pattern, text);
    assert [rule][..0] == [];
    if hit.Some? {
      assert Evidence([rule], m, text) == [] + [hit.value];
      assert [] + [hit.value] == [hit.value];
      board.AddScore(language, rule.weight);
      board.AddMatch(language, hit.value);
      assert board.matches == old(board.matches)[language := old(board.matches)[language] + Evidence([rule], m, text)];
      if rule.exclusive {
        board.AddScore(language, rule.weight * 2);
      }
    } else {
      assert Evidence([rule], m, text) == [] + [];
      assert old(board.scores)[language := old(board.scores)[language]] == old(board.scores);
      assert old(board.matches)[language] + [] == old(board.matches)[language];
      assert old(board.matches)[language := old(board.matches)[language] + []] == old(board.matches);
    }
  }

  /** `detectLanguage(code)` with the detector's own rule table. */
  method DetectLanguage(m: Matcher, code: string) returns (r: Detection)
    ensures r == Classify(Table, m, code)
  {
    TableWellFormed();
    r := DetectWith(Table, m, code);
  }

  // What the answer means.

  /**
   * The final score of a row is its rules' score plus the bonuses of the
   * mentioned extensions and of the firing signals whose groups name it;
   * none is negative.
   */
  lemma FinalScoreOf(table: seq<Signature>, m: Matcher, text: string, i: nat)
    requires WellFormed(table) && i < |table|
    ensures FinalScore(table, m, text, i)
         == PatternScore(table[i].rules, m, text)
            + AwardTotal(ExtensionAwards(Extensions, text), table[i].language)
            + SignalBonus(Signals, m, text, table[i].language)
    ensures FinalScore(table, m, text, i) >= PatternScore(table[i].rules, m, text) >= 0
  {
    BaseLookup(table, m, text, i);
    AugmentedClosedForm(BaseScores(table, m, text), m, text, table[i].language);
  }

  lemma FinalEntriesShape(table: seq<Signature>, m: Matcher, text: string)
    requires WellFormed(table)
    ensures UniqueLanguages(FinalEntries(table, m, text))
    ensures forall k :: 0 <= k < |table| ==> FinalEntries(table, m, text)[k].score >= 0
  {
    var es := FinalEntries(table, m, text);
    forall k | 0 <= k < |table|
      ensures es[k].score >= 0
    {
      FinalScoreOf(table, m, text, k);
    }
    forall a, b | 0 <= a < b < |es|
      ensures es[a].language != es[b].language
    {
      assert es[a].language == LabelsOf(table)[a] && es[b].language == LabelsOf(table)[b];
    }
  }

  /** The answer is Unknown exactly when the code is empty or no language ends with a positive score. */
  lemma UnknownIff(table: seq<Signature>, m: Matcher, code: string)
    requires WellFormed(table) && "Unknown" !in LabelsOf(table)
    ensures Classify(table, m, code) == Unknown
        <==> code == [] || forall i :: 0 <= i < |table| ==> FinalScore(table, m, Trim(code), i) <= 0
  {
    if code != [] {
      var text := Trim(code);
      var es := FinalEntries(table, m, text);
      forall k | 0 <= k < |es|
        ensures es[k].language != "Unknown"
      {
        assert es[k].language == LabelsOf(table)[k];
      }
      OutcomeUnknownIff(es, BaseEvidence(table, m, text));
      RankedEmptyIff(es);
    }
  }

  /**
   * When the answer is not Unknown it names the language of some row `i`:
   * that language has the highest final score, every row declared before it
   * scores strictly less, and the evidence reported is its rules' first
   * matches in declaration order.
   */
  lemma WinnerIsFirstDeclaredTop(table: seq<Signature>, m: Matcher, code: string)
    requires WellFormed(table) && Classify(table, m, code) != Unknown
    ensures code != []
    ensures var r, text := Classify(table, m, code), Trim(code);
      exists i :: 0 <= i < |table| && table[i].language == r.language
        && (forall j :: 0 <= j < |table| ==> FinalScore(table, m, text, j) <= FinalScore(table, m, text, i))
        && (forall j :: 0 <= j < i ==> FinalScore(table, m, text, j) < FinalScore(table, m, text, i))
        && r.matches == Evidence(table[i].rules, m, text)
  {
    var i := WinnerRow(table, m, code);
  }

  /** The row of the winner, as `WinnerIsFirstDeclaredTop` describes it. */
  lemma WinnerRow(table: seq<Signature>, m: Matcher, code: string) returns (i: nat)
    requires WellFormed(table) && Classify(table, m, code) != Unknown
    ensures code != []
    ensures var r, text := Classify(table, m, code), Trim(code);
      && i < |table| && table[i].language == r.language
      && (forall j :: 0 <= j < |table| ==> FinalScore(table, m, text, j) <= FinalScore(table, m, text, i))
      && (forall j :: 0 <= j < i ==> FinalScore(table, m, text, j) < FinalScore(table, m, text, i))
      && r.matches == Evidence(table[i].rules, m, text)
  {
    var text := Trim(code);
    var es := FinalEntries(table, m, text);
    var w := Ranked(es)[0];
    WinnerIsTop(es);
    WinnerIsFirstTopScorer(es);
    i := FirstWithScore(es, w.score);
    FinalEntriesShape(table, m, text);
    assert es[i] == w;
    BaseLookup(table, m, text, i);
    forall j | 0 <= j < |table|
      ensures FinalScore(table, m, text, j) <= w.score
    {
      assert es[j].score <= w.score;
    }
  }

  /** The first entry with a given score sits at an index before which no entry has that score. */
  lemma {:induction false} FirstWithScore(es: seq<Entry>, v: int) returns (i: nat)
    requires WithScore(es, v) != []
    ensures i < |es| && es[i] == WithScore(es, v)[0] && es[i].score == v
    ensures forall j :: 0 <= j < i ==> es[j].score != v
  {
    if es[0].score == v {
      i := 0;
    } else {
      var k := FirstWithScore(es[1..], v);
      i := k + 1;
    }
  }

  /** The reported confidence is between 0 and 100, and so is each alternative's, never above the winner's. */
  lemma ConfidenceBounds(table: seq<Signature>, m: Matcher, code: string)
    requires WellFormed(table)
    ensures var r := Classify(table, m, code);
      && 0 <= r.confidence <= 100
      && (r.alternatives.Some? ==> forall a :: a in r.alternatives.value ==> 5 < a.confidence <= r.confidence)
  {
    if code != [] {
      var text := Trim(code);
      var es := FinalEntries(table, m, text);
      FinalEntriesShape(table, m, text);
      OutcomeConfidence(es, BaseEvidence(table, m, text));
      if Ranked(es) != [] {
        AlternativesShape(es);
        var r := Classify(table, m, code);
        if r.alternatives.Some? {
          forall a | a in r.alternatives.value
            ensures a.confidence <= r.confidence
          {
            AlternativesFromRanks(es, a);
          }
        }
      }
    }
  }

  /**
   * With at most 33 rows, as in the built-in table, the confidence is 0
   * exactly when the answer is Unknown: a winner holds at least a 1/33
   * share of the total, so its confidence is at least 3.
   */
  lemma ConfidenceFloor(table: seq<Signature>, m: Matcher, code: string)
    requires WellFormed(table) && |table| <= 33
    ensures var r := Classify(table, m, code);
      && (r.confidence == 0 <==> r == Unknown)
      && (r != Unknown ==> r.confidence >= 3)
  {
    if code != [] {
      var text := Trim(code);
      OutcomeConfidenceFloor(FinalEntries(table, m, text), BaseEvidence(table, m, text));
    }
  }

  /**
   * Every language at ranks two to four of the final ranking whose
   * confidence is above 5 per cent is reported among the alternatives.
   */
  lemma AlternativesReported(table: seq<Signature>, m: Matcher, code: string, j: nat)
    requires WellFormed(table) && code != []
    ensures var es := FinalEntries(table, m, Trim(code));
      var r, total := Ranked(es), TotalScore(es);
      1 <= j < 4 && j < |r| && Confidence(r[j].score, total) > 5 ==>
        && Classify(table, m, code).alternatives.Some?
        && Alternative(r[j].language, Confidence(r[j].score, total)) in Classify(table, m, code).alternatives.value
  {
    var es := FinalEntries(table, m, Trim(code));
    var r, total := Ranked(es), TotalScore(es);
    if 1 <= j < 4 && j < |r| && Confidence(r[j].score, total) > 5 {
      AlternativesComplete(r, total, j);
    }
  }

  /** The alternatives name at most three languages other than the winner, in descending confidence. */
  lemma AlternativesOfAnswer(table: seq<Signature>, m: Matcher, code: string)
    requires WellFormed(table)
    ensures var r := Classify(table, m, code);
      r.alternatives.Some? ==>
        && 1 <= |r.alternatives.value| <= 3
        && ConfidenceDescending(r.alternatives.value)
        && forall a :: a in r.alternatives.value ==> a.language != r.language
  {
    if code != [] {
      var text := Trim(code);
      var es := FinalEntries(table, m, text);
      FinalEntriesShape(table, m, text);
      AlternativesShape(es);
      var r := Classify(table, m, code);
      if r.alternatives.Some? {
        forall a | a in r.alternatives.value
          ensures a.language != r.language
        {
          AlternativesFromRanks(es, a);
        }
      }
    }
  }

  /** With a sound matcher every reported match is a substring of the code. */
  lemma MatchesOccurInCode(table: seq<Signature>, m: Matcher, code: string)
    requires WellFormed(table) && SoundMatcher(m)
    ensures var r := Classify(table, m, code);
      forall k :: 0 <= k < |r.matches| ==> Contains(code, r.matches[k])
  {
    var r := Classify(table, m, code);
    if r != Unknown {
      var text := Trim(code);
      var i := WinnerRow(table, m, code);
      EvidenceOccursInText(table[i].rules, m, text);
      TrimContained(code);
      forall k | 0 <= k < |r.matches|
        ensures Contains(code, r.matches[k])
      {
        ContainsTransitive(code, text, r.matches[k]);
      }
    }
  }
}
