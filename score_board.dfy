/**
 * The two records `detectLanguage` fills in place during one call: `scores`
 * (language to number) and `matches` (language to the matched substrings).
 * A fresh board is allocated for every call.
 */
module ScoreBoards {
  class ScoreBoard {
    /** The record keys in insertion order, the order in which `Object.entries` lists them. */
    var order: seq<string>
    var scores: map<string, int>
    var matches: map<string, seq<string>>

    /** Two empty records and an empty insertion order, as the detector starts at lines 459-460. */
    constructor ()
      ensures order == [] && scores == map[] && matches == map[]
    {
      order, scores, matches := [], map[], map[];
    }

    /**
     * `scores[language] = 0; matches[language] = [];`: a new key is appended
     * to the insertion order, an existing key keeps its place.
     */
    method Reset(language: string)
      modifies this
      ensures order == if language in old(scores) then old(order) else old(order) + [language]
      ensures scores == old(scores)[language := 0]
      ensures matches == old(matches)[language := []]
    {
      if language !in scores {
        order := order + [language];
      }
      scores := scores[language := 0];
      matches := matches[language := []];
    }

    /** Adds `amount` to the score of a language already in the record. */
    method AddScore(language: string, amount: nat)
      requires language in scores
      modifies this`scores
      ensures scores == old(scores)[language := old(scores)[language] + amount]
    {
      scores := scores[language := scores[language] + amount];
    }

    /** Appends one piece of evidence to the list of a language already in the record. */
    method AddMatch(language: string, evidence: string)
      requires language in matches
      modifies this`matches
      ensures matches == old(matches)[language := old(matches)[language] + [evidence]]
    {
      matches := matches[language := matches[language] + [evidence]];
    }
  }
}
