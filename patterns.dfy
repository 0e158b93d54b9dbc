/**
 * The shapes of the rule table (`LanguagePattern`) and the first stage of
 * `detectLanguage`: every language's weighted pattern score and its evidence,
 * the ordered list of first-match substrings. Regular expressions are not
 * interpreted here: a `Matcher` answers for them.
 */
module Patterns {
  import opened Options
  import opened Text

  /** A regular-expression literal of the source: its source text and its flags. */
  datatype Pattern = Pattern(source: string, flags: string)

  /** Rule weights are positive integers. */
  type Weight = w: nat | w > 0 witness 1

  /** One `LanguagePattern`; a missing `exclusive` field reads as false. */
  datatype Rule = Rule(pattern: Pattern, weight: Weight, exclusive: bool)

  /** One language of the table with its rules in declaration order. */
  datatype Signature = Signature(language: string, rules: seq<Rule>)

  /**
   * `text.match(pattern)` for a pattern without the g flag: the first matched
   * substring (`match[0]`), or None when the pattern does not match. The same
   * pattern on the same text always gets the same answer.
   */
  type Matcher = (Pattern, string) -> Option<string>

  /** What every regular-expression engine guarantees: a match is a substring of the text. */
  ghost predicate SoundMatcher(m: Matcher) {
    forall p, t :: m(p, t).Some? ==> Contains(t, m(p, t).value)
  }

  predicate Hits(r: Rule, m: Matcher, text: string) {
    m(r.pattern, text).Some?
  }

  /** What one rule adds to its language: its weight, and twice more when exclusive. */
  function Gain(r: Rule, m: Matcher, text: string): nat {
    if !Hits(r, m, text) then 0
    else if r.exclusive then r.weight + r.weight * 2
    else r.weight
  }

  /** The score the rule loop gives to a language with these rules. */
  function PatternScore(rules: seq<Rule>, m: Matcher, text: string): nat {
    if rules == [] then 0
    else
      var n := |rules| - 1;
      PatternScore(rules[..n], m, text) + Gain(rules[n], m, text)
  }

  /** The `matches` list the rule loop builds for a language with these rules. */
  function Evidence(rules: seq<Rule>, m: Matcher, text: string): seq<string> {
    if rules == [] then []
    else
      var n := |rules| - 1;
      var hit := m(rules[n].pattern, text);
      Evidence(rules[..n], m, text) + (if hit.Some? then [hit.value] else [])
  }

  // Reference quantities, each summed independently over the rules.

  function TotalWeight(rules: seq<Rule>): nat {
    if rules == [] then 0 else TotalWeight(rules[..|rules| - 1]) + rules[|rules| - 1].weight
  }

  function HitCount(rules: seq<Rule>, m: Matcher, text: string): nat {
    if rules == [] then 0
    else
      var n := |rules| - 1;
      HitCount(rules[..n], m, text) + (if Hits(rules[n], m, text) then 1 else 0)
  }

  function HitWeight(rules: seq<Rule>, m: Matcher, text: string): nat {
    if rules == [] then 0
    else
      var n := |rules| - 1;
      HitWeight(rules[..n], m, text) + (if Hits(rules[n], m, text) then rules[n].weight else 0)
  }

  function ExclusiveHitWeight(rules: seq<Rule>, m: Matcher, text: string): nat {
    if rules == [] then 0
    else
      var n := |rules| - 1;
      var r := rules[n];
      ExclusiveHitWeight(rules[..n], m, text) + (if Hits(r, m, text) && r.exclusive then r.weight else 0)
  }

  /**
   * A language's pattern score is the weight of its matching rules plus twice
   * the weight of its matching exclusive rules: an exclusive match counts 3x.
   */
  lemma {:induction false} ScoreIsHitWeightPlusExclusiveBonus(rules: seq<Rule>, m: Matcher, text: string)
    ensures PatternScore(rules, m, text) == HitWeight(rules, m, text) + 2 * ExclusiveHitWeight(rules, m, text)
  {
    if rules != [] {
      ScoreIsHitWeightPlusExclusiveBonus(rules[..|rules| - 1], m, text);
    }
  }

  /**
   * Presence, not frequency: each rule counts at most once, so the score lies
   * between the weight of the matching rules and three times the table weight.
   */
  lemma {:induction false} ScoreBounds(rules: seq<Rule>, m: Matcher, text: string)
    ensures HitWeight(rules, m, text) <= PatternScore(rules, m, text) <= 3 * TotalWeight(rules)
    ensures HitWeight(rules, m, text) <= TotalWeight(rules)
  {
    if rules != [] {
      ScoreBounds(rules[..|rules| - 1], m, text);
    }
  }

  /** Rules contribute independently: the score of a split rule list is the sum of the parts. */
  lemma {:induction false} ScoreAppend(r1: seq<Rule>, r2: seq<Rule>, m: Matcher, text: string)
    ensures PatternScore(r1 + r2, m, text) == PatternScore(r1, m, text) + PatternScore(r2, m, text)
  {
    if r2 == [] {
      assert r1 + r2 == r1;
    } else {
      var n := |r2| - 1;
      assert (r1 + r2)[..|r1 + r2| - 1] == r1 + r2[..n];
      ScoreAppend(r1, r2[..n], m, text);
    }
  }

  /** Evidence keeps declaration order: earlier rules' matches come before later rules'. */
  lemma {:induction false} EvidenceAppend(r1: seq<Rule>, r2: seq<Rule>, m: Matcher, text: string)
    ensures Evidence(r1 + r2, m, text) == Evidence(r1, m, text) + Evidence(r2, m, text)
  {
    if r2 == [] {
      assert r1 + r2 == r1;
    } else {
      var n := |r2| - 1;
      assert (r1 + r2)[..|r1 + r2| - 1] == r1 + r2[..n];
      EvidenceAppend(r1, r2[..n], m, text);
    }
  }

  /** One piece of evidence per matching rule, so never more than there are rules. */
  lemma {:induction false} EvidenceCount(rules: seq<Rule>, m: Matcher, text: string)
    ensures |Evidence(rules, m, text)| == HitCount(rules, m, text) <= |rules|
  {
    if rules != [] {
      EvidenceCount(rules[..|rules| - 1], m, text);
    }
  }

  /** A language scores above zero exactly when at least one of its rules left evidence. */
  lemma {:induction false} ScorePositiveIffEvidence(rules: seq<Rule>, m: Matcher, text: string)
    ensures PatternScore(rules, m, text) > 0 <==> Evidence(rules, m, text) != []
  {
    if rules != [] {
      ScorePositiveIffEvidence(rules[..|rules| - 1], m, text);
    }
  }

  /** With a sound matcher every piece of evidence is a substring of the text. */
  lemma {:induction false} EvidenceOccursInText(rules: seq<Rule>, m: Matcher, text: string)
    requires SoundMatcher(m)
    ensures forall k :: 0 <= k < |Evidence(rules, m, text)| ==> Contains(text, Evidence(rules, m, text)[k])
  {
    if rules != [] {
      EvidenceOccursInText(rules[..|rules| - 1], m, text);
    }
  }

  /** Score monotonicity: a matcher that hits at least the same rules gives at least the same score. */
  lemma {:induction false} ScoreMonotone(rules: seq<Rule>, m1: Matcher, m2: Matcher, text: string)
    requires forall k :: 0 <= k < |rules| && Hits(rules[k], m1, text) ==> Hits(rules[k], m2, text)
    ensures PatternScore(rules, m1, text) <= PatternScore(rules, m2, text)
  {
    if rules != [] {
      var n := |rules| - 1;
      assert forall k :: 0 <= k < n ==> rules[..n][k] == rules[k];
      ScoreMonotone(rules[..n], m1, m2, text);
    }
  }

  // The whole table.

  function LabelsOf(table: seq<Signature>): (labels: seq<string>)
    ensures |labels| == |table|
    ensures forall i :: 0 <= i < |table| ==> labels[i] == table[i].language
  {
    seq(|table|, i requires 0 <= i < |table| => table[i].language)
  }

  predicate Distinct(labels: seq<string>) {
    forall i, j :: 0 <= i < j < |labels| ==> labels[i] != labels[j]
  }

  /** The table's labels are distinct, as the keys of an object literal are. */
  predicate WellFormed(table: seq<Signature>) {
    Distinct(LabelsOf(table))
  }

  /** The `scores` record after the rule loop over these languages. */
  function BaseScores(table: seq<Signature>, m: Matcher, text: string): map<string, int> {
    if table == [] then map[]
    else
      var n := |table| - 1;
      BaseScores(table[..n], m, text)[table[n].language := PatternScore(table[n].rules, m, text)]
  }

  /** The `matches` record after the rule loop over these languages. */
  function BaseEvidence(table: seq<Signature>, m: Matcher, text: string): map<string, seq<string>> {
    if table == [] then map[]
    else
      var n := |table| - 1;
      BaseEvidence(table[..n], m, text)[table[n].language := Evidence(table[n].rules, m, text)]
  }

  /** After the rule loop the records hold exactly the table's languages. */
  lemma {:induction false} BaseKeys(table: seq<Signature>, m: Matcher, text: string)
    ensures BaseScores(table, m, text).Keys == set l | l in LabelsOf(table)
    ensures BaseEvidence(table, m, text).Keys == set l | l in LabelsOf(table)
  {
    if table != [] {
      var n := |table| - 1;
      BaseKeys(table[..n], m, text);
      assert LabelsOf(table) == LabelsOf(table[..n]) + [table[n].language];
    }
  }

  /**
   * After the rule loop each language of the table has the score and the
   * evidence list of its own rules.
   */
  lemma {:induction false} BaseLookup(table: seq<Signature>, m: Matcher, text: string, i: nat)
    requires WellFormed(table) && i < |table|
    ensures table[i].language in BaseScores(table, m, text) && table[i].language in BaseEvidence(table, m, text)
    ensures BaseScores(table, m, text)[table[i].language] == PatternScore(table[i].rules, m, text)
    ensures BaseEvidence(table, m, text)[table[i].language] == Evidence(table[i].rules, m, text)
  {
    BaseKeys(table, m, text);
    var n := |table| - 1;
    if i < n {
      var front := table[..n];
      assert LabelsOf(front) == LabelsOf(table)[..n];
      assert table[i].language != table[n].language by {
        assert LabelsOf(table)[i] != LabelsOf(table)[n];
      }
      BaseLookup(front, m, text, i);
    }
  }
}
