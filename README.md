# Language detector: a verified model

This project models the heuristic programming-language detector in
`src/lib/language-detector.ts`: the function `detectLanguage(code)` and its
helper `applyAdditionalHeuristics(code, scores)`.

`detectLanguage` works in four steps:

1. Empty input is answered with `Unknown`.
2. The code is trimmed. Each of the 33 languages in the rule table is then
   scored: a matching rule adds its weight, an exclusive rule adds twice its
   weight again, and the first match of every matching rule is recorded as
   evidence.
3. `applyAdditionalHeuristics` adds bonuses to the scores:
   - two points per file extension the code mentions;
   - one or two points for each of fifteen stylistic signals (indentation,
     semicolons, brace placement, comment and string styles, markup, data
     literals, functional and object-oriented keywords), given to the
     languages of that signal's group.
4. The positive scores are sorted, highest first, with a stable sort. The
   winner's confidence is its share of the total, rounded and capped at 100.
   Ranks two to four with a confidence above 5 become the alternatives.

Modules:

- `Text`: ECMAScript `trim` (its own white-space set) and `includes`.
- `Patterns`: the rule and signature records, and what the rule loop
  computes for one language and for a whole table.
- `ScoreBoards`: the `scores`/`matches` records as a class that is updated in
  place. It keeps the records' insertion order, which `Object.entries` follows.
- `Heuristics`: the extension table, the fifteen signals as data, the bonuses
  as a sequence of guarded awards, and the imperative `ApplyAdditionalHeuristics`.
- `KnowledgeBase`: the 33-language rule table, with every regular expression
  written out as its source text and flags.
- `Ranking`: the filter, the stable sort, the total, the confidence formula
  and the alternatives.
- `Detector`: `Classify`, the answer as a function, and the `DetectWith` and
  `DetectLanguage` methods, which compute it step by step on a `ScoreBoard`.

What regular expressions match is left open. The model takes it as a
parameter `m: Matcher`, from a pattern and a text to the first match, if
there is one. Every theorem holds for every matcher, except the two
lemmas about evidence being substrings of the code,
`Patterns.EvidenceOccursInText` and `Detector.MatchesOccurInCode`. They
assume `SoundMatcher(m)`: a reported match occurs in the text.

## Model

| member | source | states |
|---|---|---|
| Text.TrimShape | src/lib/language-detector.ts:463 | `trim` keeps a slice `s[i..j]`; everything before `i` and from `j` on is white space; the slice is empty or starts and ends with a non-space |
| Text.TrimEmptyIff | src/lib/language-detector.ts:463 | the trimmed code is empty exactly when the code is all white space |
| Text.TrimContained | src/lib/language-detector.ts:463 | the trimmed code occurs in the code |
| Text.TrimIdempotent | src/lib/language-detector.ts:463 | trimming twice gives the same text as trimming once |
| Patterns.ScoreIsHitWeightPlusExclusiveBonus | src/lib/language-detector.ts:470-480 | a language's rule score is the weight of its matching rules plus twice the weight of its matching exclusive rules |
| Patterns.ScoreBounds | src/lib/language-detector.ts:470-480 | the rule score lies between the matching weight and three times the total weight of the rules |
| Patterns.ScoreAppend | src/lib/language-detector.ts:470-480 | scoring the rules in two parts and adding gives the score of the whole list |
| Patterns.EvidenceAppend | src/lib/language-detector.ts:470-480 | the evidence of a concatenation of rule lists is the concatenation of their evidence |
| Patterns.EvidenceCount | src/lib/language-detector.ts:470-480 | one piece of evidence per matching rule, never more than there are rules |
| Patterns.ScorePositiveIffEvidence | src/lib/language-detector.ts:470-480 | a language's rule score is positive exactly when it has recorded evidence |
| Patterns.EvidenceOccursInText | src/lib/language-detector.ts:471-474 | with a sound matcher, every recorded `match[0]` occurs in the text |
| Patterns.ScoreMonotone | src/lib/language-detector.ts:470-480 | a matcher that matches at least the same rules gives at least the same rule score |
| Patterns.BaseKeys | src/lib/language-detector.ts:466-468 | after the rule loop both records hold exactly the table's languages |
| Patterns.BaseLookup | src/lib/language-detector.ts:466-482 | in a table with distinct labels, each language's entries are its own rules' score and evidence; later rows do not overwrite them |
| ScoreBoards.ScoreBoard.constructor | src/lib/language-detector.ts:459-460 | the records start empty |
| ScoreBoards.ScoreBoard.Reset | src/lib/language-detector.ts:467-468 | sets the score to 0 and the evidence to empty; a new key is appended to the insertion order, an existing key keeps its place |
| ScoreBoards.ScoreBoard.AddScore | src/lib/language-detector.ts:473 | adds to one existing score; nothing else changes |
| ScoreBoards.ScoreBoard.AddMatch | src/lib/language-detector.ts:474 | appends to one existing evidence list; nothing else changes |
| Heuristics.GrantKeys | src/lib/language-detector.ts:556-557 | heuristic bonuses never add a key: the `!== undefined` guard skips languages the record lacks |
| Heuristics.GrantClosedForm | src/lib/language-detector.ts:555-679 | after a sequence of bonuses, a present language's score is its old score plus the sum of its awards |
| Heuristics.GrantOrderIndependent | src/lib/language-detector.ts:555-679 | applying the same bonuses in any order gives the same record |
| Heuristics.GrantAppend | src/lib/language-detector.ts:555-679 | applying two batches of bonuses one after the other is applying them together |
| Heuristics.AwardTotalPermutation | src/lib/language-detector.ts:555-679 | the sum of a language's awards does not depend on their order |
| Heuristics.GroupAwardTotal | src/lib/language-detector.ts:567-569 | a `forEach` over a group without repeats gives each group member the bonus exactly once, and nobody else anything |
| Heuristics.SignalAwardTotal | src/lib/language-detector.ts:561-679 | the signal bonus a language collects equals the reference count: the bonus of every firing signal whose group contains the language |
| Heuristics.ExtensionMentioned | src/lib/language-detector.ts:555-559 | an extension the text mentions gives its language at least two points |
| Heuristics.ExtensionAwardTotal | src/lib/language-detector.ts:555-559 | the extension loop gives a language exactly two points per extension that maps to it and occurs in the text, counted independently as a set of positions, and nothing else |
| Heuristics.ExtensionUnmentioned | src/lib/language-detector.ts:555-559 | a language that no mentioned extension maps to gains nothing from the extension loop |
| Heuristics.SignalGroupsDistinct | src/lib/language-detector.ts:567-676 | no signal's language list repeats a language |
| Heuristics.AugmentedClosedForm | src/lib/language-detector.ts:517-680 | the heuristics keep the record's keys; a present language gains the bonuses of its mentioned extensions plus the signal bonus of its groups |
| Heuristics.ApplyExtensions | src/lib/language-detector.ts:555-559 | the extension loop leaves the scores that the extension awards define |
| Heuristics.ApplyGroup | src/lib/language-detector.ts:567-569 | one guarded `forEach` leaves the scores that the group's awards define |
| Heuristics.ApplySignals | src/lib/language-detector.ts:561-679 | the signal blocks, in source order, leave the scores that the firing signals' awards define |
| Heuristics.ApplyAdditionalHeuristics | src/lib/language-detector.ts:517-680 | the in-place update leaves exactly `Augmented` of the old scores |
| KnowledgeBase.LanguagesDistinct | src/lib/language-detector.ts:20-456 | the table's 33 labels are distinct and none is "Unknown" |
| KnowledgeBase.TableWellFormed | src/lib/language-detector.ts:20-456 | the rule table has 33 rows, distinct labels, and no row called "Unknown" |
| Ranking.PositiveMembers | src/lib/language-detector.ts:489 | the filter keeps exactly the positive entries |
| Ranking.SortPermutation | src/lib/language-detector.ts:490 | the sort is a permutation |
| Ranking.SortDescending | src/lib/language-detector.ts:490 | the sort puts higher scores first |
| Ranking.SortStable | src/lib/language-detector.ts:490 | the sort is stable: the entries with any given score keep their order |
| Ranking.SortUnique | src/lib/language-detector.ts:490 | sorting keeps the languages distinct |
| Ranking.RankedShape | src/lib/language-detector.ts:488-490 | the ranking holds exactly the positive entries, descending, with distinct languages when the input has them |
| Ranking.RankedEmptyIff | src/lib/language-detector.ts:492-494 | the ranking is empty exactly when no score is positive |
| Ranking.WinnerIsTop | src/lib/language-detector.ts:496 | the top entry is positive and scores at least as much as every entry |
| Ranking.WinnerIsFirstTopScorer | src/lib/language-detector.ts:488-496 | the top of the ranking is the first entry in insertion order with the top score |
| Ranking.ConfidenceRange | src/lib/language-detector.ts:498 | confidence lies in 0..100 for a non-negative score |
| Ranking.ConfidenceMonotone | src/lib/language-detector.ts:498 | a higher score never gives a lower confidence |
| Ranking.ConfidenceRounds | src/lib/language-detector.ts:498 | the confidence is `100 * score / max(total, 1)` rounded half up when that is below 100, and exactly 100 when the percentage reaches 99.5 |
| Ranking.ConfidentMembers | src/lib/language-detector.ts:507 | the filter keeps exactly the alternatives with confidence above 5 |
| Ranking.AlternativesShape | src/lib/language-detector.ts:501-507 | when present, the alternatives number one to three, come in descending confidence, and all exceed 5 |
| Ranking.AlternativesFromRanks | src/lib/language-detector.ts:501-507 | each alternative is rank two, three or four with its own scored confidence; no alternative's confidence exceeds the winner's, and with distinct languages no alternative names the winner |
| Ranking.OutcomeUnknownIff | src/lib/language-detector.ts:492-494 | the outcome is Unknown exactly when the ranking is empty, provided no entry is called "Unknown" |
| Ranking.TotalAtMost | src/lib/language-detector.ts:497 | when no entry scores above `top`, the total is at most the number of entries times `top` |
| Ranking.WinnerConfidenceFloor | src/lib/language-detector.ts:496-498 | the winner holds at least a `1/n` share of the total among `n` entries, so its confidence is 100 or satisfies `200 < n * (2c + 1)` |
| Ranking.OutcomeConfidenceFloor | src/lib/language-detector.ts:492-498 | with at most 33 entries, the confidence is 0 exactly for Unknown, and a reported winner's is at least 3 |
| Ranking.AlternativesComplete | src/lib/language-detector.ts:501-511 | every entry at ranks two to four whose confidence is above 5 is listed, so the alternatives are present |
| Ranking.OutcomeConfidence | src/lib/language-detector.ts:498 | the reported confidence lies in 0..100 when no score is negative |
| Detector.DetectWith | src/lib/language-detector.ts:15-514 | the imperative detector over a table with distinct labels returns exactly `Classify` |
| Detector.ScoreLanguage | src/lib/language-detector.ts:466-482 | one turn of the outer loop extends the records to the next row of the table |
| Detector.ScoreRules | src/lib/language-detector.ts:470-480 | the inner loop adds the rules' score and appends their evidence for one language |
| Detector.ScoreRule | src/lib/language-detector.ts:471-479 | one rule adds its gain and its match, if any |
| Detector.DetectLanguage | src/lib/language-detector.ts:15-514 | `detectLanguage` with the built-in table returns exactly `Classify` of that table |
| Detector.FinalScoreOf | src/lib/language-detector.ts:466-485 | a language's final score is its rule score plus its extension bonus plus its signal bonus, never below the rule score |
| Detector.FinalEntriesShape | src/lib/language-detector.ts:488 | the final entries have distinct languages and no negative score |
| Detector.UnknownIff | src/lib/language-detector.ts:16-18 | the answer is Unknown exactly when the code is empty or no language ends with a positive score |
| Detector.WinnerRow | src/lib/language-detector.ts:488-514 | a non-Unknown answer names row `i`: it has the top final score, every earlier row scores strictly less, and the reported matches are its rules' evidence |
| Detector.WinnerIsFirstDeclaredTop | src/lib/language-detector.ts:488-514 | the same, stated as the existence of such a row |
| Detector.ConfidenceBounds | src/lib/language-detector.ts:496-507 | the confidence lies in 0..100; every alternative's lies above 5 and never above the winner's |
| Detector.ConfidenceFloor | src/lib/language-detector.ts:488-498 | for a table of at most 33 rows, like the built-in one, the confidence is 0 exactly when the answer is Unknown, and a named language gets at least 3 |
| Detector.AlternativesReported | src/lib/language-detector.ts:500-513 | every language at ranks two to four of the final ranking whose confidence is above 5 is reported among the alternatives |
| Detector.AlternativesOfAnswer | src/lib/language-detector.ts:500-513 | when present, the alternatives number one to three, come in descending confidence, and never name the winner |
| Detector.MatchesOccurInCode | src/lib/language-detector.ts:474 | with a sound matcher, every reported match is a substring of the code |

## Left out

- Non-string input: `code` is a `string`, so the `typeof code !== 'string'` branch of the guard at line 16 cannot be expressed. Only its empty-string half is modelled.
- Regular-expression semantics: the matcher `m` stands in for `String.prototype.match` and `RegExp.prototype.test`. The patterns are kept as source text and flags. The same pattern always gets the same answer, which also covers the regex that two rows share.
- Compound signals (markup: a test and a negated test; data: two tests) are modelled by the small `Cue` datatype. The fifteen `if` blocks become one loop over the `Signals` table.
- Floating point: the confidence uses exact rational arithmetic with half-up rounding. The source computes `score / total * 100` in doubles, so an answer whose exact value lies on a rounding boundary may differ by one point.
- Object keys: `Object.entries` lists integer-like keys first. No label in the table is integer-like, so insertion order is the whole story. Keys JavaScript would inherit from `Object.prototype` (such as `constructor`) are not modelled by the `!== undefined` guard. No heuristic names such a language.
- `demonstrateLanguageDetection` and the rest of the repository (the LLM-backed flows and the user interface) are not part of this model.
- No theorem is proved about which concrete language a concrete snippet gets: what each pattern matches is left to the matcher.
- ScoreBoards.ScoreBoard: the class has no separate invariant. Each method states the exact new records, and the rule loop carries the exact records rather than a key invariant.
- Heuristics.ApplyAdditionalHeuristics: as in the source, no precondition ties the score record to the table. A language missing from the record gets nothing.

The model keeps these quirks of the source as written:

- The functional signal's pattern has the HTML-escaped `=&gt;` and `|&gt;`, not `=>` and `|>`.
- Some extensions are substrings of others:
  - `.c` occurs in `.cpp`, `.cs`, `.css` and `.clj`;
  - `.cs` occurs in `.css`;
  - `.js` occurs in `.json`;
  - `.r` occurs in `.rb` and `.rs`.

  So a mention of `.cpp` also gives C two points, a mention of `.css` gives both C and C# two points, and a mention of `.json` gives JavaScript two points.
- `.yml` and `.yaml` may both give YAML two points.
