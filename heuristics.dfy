/**
 * `applyAdditionalHeuristics`: extension mentions and cross-language signals
 * that add fixed bonuses to groups of languages already in the score record.
 * Signals are regular-expression tests answered by the same `Matcher` as
 * the rules; extension mentions are plain substring tests.
 */
module Heuristics {
  import opened Options
  import opened Text
  import opened Patterns
  import opened ScoreBoards

  /** A signal: one regular-expression test, or a conjunction or negation of signals. */
  datatype Cue = Test(pattern: Pattern) | Both(left: Cue, right: Cue) | Not(negated: Cue)

  /** A regular-expression test; for a pattern without the global flag it holds exactly when matching finds something. */
  function Fires(c: Cue, m: Matcher, text: string): bool {
    match c
    case Test(p) => m(p, text).Some?
    case Both(a, b) => Fires(a, m, text) && Fires(b, m, text)
    case Not(a) => !Fires(a, m, text)
  }

  /** A signal, the languages its `forEach` visits, and the bonus each of them gets. */
  datatype Heuristic = Heuristic(cue: Cue, group: seq<string>, bonus: nat)

  /** The bonus for an extension mentioned in the text. */
  const ExtensionBonus: nat := 2

  /** `extensionPatterns`, in declaration order (src/lib/language-detector.ts:519-553). */
  const Extensions: seq<(string, string)> := [
    (".py", "Python"), (".js", "JavaScript"), (".ts", "TypeScript"), (".java", "Java"),
    (".cpp", "C++"), (".c", "C"), (".cs", "C#"), (".php", "PHP"), (".rb", "Ruby"),
    (".go", "Go"), (".rs", "Rust"), (".swift", "Swift"), (".kt", "Kotlin"),
    (".scala", "Scala"), (".r", "R"), (".m", "MATLAB"), (".pl", "Perl"), (".sh", "Shell"),
    (".ps1", "PowerShell"), (".lua", "Lua"), (".hs", "Haskell"), (".dart", "Dart"),
    (".ex", "Elixir"), (".clj", "Clojure"), (".fs", "F#"), (".vb", "VB.NET"),
    (".sql", "SQL"), (".html", "HTML"), (".css", "CSS"), (".json", "JSON"),
    (".xml", "XML"), (".yml", "YAML"), (".yaml", "YAML")
  ]

  // The groups of languages the signals reward.
  const TabGroup: seq<string> := ["C", "C++", "Go", "MATLAB"]
  const SpaceGroup: seq<string> := ["Python", "JavaScript", "TypeScript", "Ruby", "YAML"]
  const SemicolonGroup: seq<string> := ["JavaScript", "TypeScript", "Java", "C", "C++", "C#", "PHP", "Scala"]
  const NewlineBraceGroup: seq<string> := ["C", "C++", "C#"]
  const SameLineBraceGroup: seq<string> := ["JavaScript", "TypeScript", "Java", "Go"]
  const HashCommentGroup: seq<string> := ["Python", "Ruby", "Shell", "Perl", "R"]
  const LineCommentGroup: seq<string> := ["JavaScript", "TypeScript", "Java", "C", "C++", "C#", "Go", "Rust", "Swift", "Kotlin", "Scala", "Dart"]
  const BlockCommentGroup: seq<string> := ["JavaScript", "TypeScript", "Java", "C", "C++", "C#", "Go", "Rust", "Swift", "Kotlin", "Scala", "CSS"]
  const PythonOnly: seq<string> := ["Python"]
  const BacktickGroup: seq<string> := ["JavaScript", "TypeScript", "Shell"]
  const MarkupGroup: seq<string> := ["HTML", "XML"]
  const DataGroup: seq<string> := ["JSON", "YAML"]
  const FunctionalGroup: seq<string> := ["JavaScript", "TypeScript", "Python", "Scala", "Haskell", "F#", "Clojure", "Elixir"]
  const ObjectGroup: seq<string> := ["Java", "C++", "C#", "Python", "JavaScript", "TypeScript", "Ruby", "Swift", "Kotlin", "Scala"]

  /** The signals in the order the source applies them (src/lib/language-detector.ts:561-679). */
  const Signals: seq<Heuristic> := [
    // tab indentation
    Heuristic(Test(Pattern(@"^\t", "m")), TabGroup, 1),
    // space indentation
    Heuristic(Test(Pattern(@"^[ ]{2,}", "m")), SpaceGroup, 1),
    // trailing semicolons
    Heuristic(Test(Pattern(@";[\s]*$", "m")), SemicolonGroup, 1),
    // brace on its own line
    Heuristic(Test(Pattern(@"\n\s*\{", "m")), NewlineBraceGroup, 1),
    // brace on the same line
    Heuristic(Test(Pattern(@"\)\s*\{", "m")), SameLineBraceGroup, 1),
    // hash comments
    Heuristic(Test(Pattern(@"^\s*#", "m")), HashCommentGroup, 1),
    // double-slash comments
    Heuristic(Test(Pattern(@"\/\/", "m")), LineCommentGroup, 1),
    // slash-star comments
    Heuristic(Test(Pattern(@"\/\*[\s\S]*?\*\/", "m")), BlockCommentGroup, 1),
    // triple quotes
    Heuristic(Test(Pattern(@"""""""|'''", "m")), PythonOnly, 2),
    // backtick strings
    Heuristic(Test(Pattern(@"`[^`]*`", "m")), BacktickGroup, 1),
    // raw strings
    Heuristic(Test(Pattern(@"r[""'][^""']*[""']", "m")), PythonOnly, 2),
    // markup: a tag and no `<name=`
    Heuristic(Both(Test(Pattern(@"<[^>]+>", "m")), Not(Test(Pattern(@"<\w+\s*=", "")))), MarkupGroup, 2),
    // data: opens with a brace or bracket and closes with one
    Heuristic(Both(Test(Pattern(@"^\s*[\{\[]", "")), Test(Pattern(@"[\}\]]\s*$", ""))), DataGroup, 1),
    // functional vocabulary
    Heuristic(Test(Pattern(@"\b(map|filter|reduce|fold|lambda|=&gt;|\|&gt;)\b", "m")), FunctionalGroup, 1),
    // object-oriented vocabulary
    Heuristic(Test(Pattern(@"\b(class|extends|implements|inheritance|polymorphism|encapsulation)\b", "m")), ObjectGroup, 1)
  ]

  /** One award: the amount is added only when the language already has a score. */
  datatype Award = Award(language: string, amount: nat)

  function Step(scores: map<string, int>, a: Award): map<string, int> {
    if a.language in scores then scores[a.language := scores[a.language] + a.amount] else scores
  }

  /** The score record after the awards, applied one after the other. */
  function Grant(scores: map<string, int>, awards: seq<Award>): map<string, int> {
    if awards == [] then scores
    else Step(Grant(scores, awards[..|awards| - 1]), awards[|awards| - 1])
  }

  /** The awards of the extension loop: one per extension the text mentions. */
  function ExtensionAwards(exts: seq<(string, string)>, text: string): seq<Award> {
    if exts == [] then []
    else
      var n := |exts| - 1;
      ExtensionAwards(exts[..n], text) + (if Contains(text, exts[n].0) then [Award(exts[n].1, ExtensionBonus)] else [])
  }

  /** The awards of one `forEach` over a group. */
  function GroupAwards(group: seq<string>, bonus: nat): seq<Award> {
    if group == [] then []
    else GroupAwards(group[..|group| - 1], bonus) + [Award(group[|group| - 1], bonus)]
  }

  /** The awards of the signals that fire, in order. */
  function SignalAwards(hs: seq<Heuristic>, m: Matcher, text: string): seq<Award> {
    if hs == [] then []
    else
      var n := |hs| - 1;
      SignalAwards(hs[..n], m, text) + (if Fires(hs[n].cue, m, text) then GroupAwards(hs[n].group, hs[n].bonus) else [])
  }

  function Awards(m: Matcher, text: string): seq<Award> {
    ExtensionAwards(Extensions, text) + SignalAwards(Signals, m, text)
  }

  /** The score record once `applyAdditionalHeuristics` has run on it. */
  function Augmented(scores: map<string, int>, m: Matcher, text: string): map<string, int> {
    Grant(scores, Awards(m, text))
  }

  /** The sum of the awards for one language. */
  function AwardTotal(awards: seq<Award>, language: string): nat {
    if awards == [] then 0
    else
      var n := |awards| - 1;
      AwardTotal(awards[..n], language) + (if awards[n].language == language then awards[n].amount else 0)
  }

  /** A reference count of the signal bonuses one language collects: each firing signal whose group holds it. */
  function SignalBonus(hs: seq<Heuristic>, m: Matcher, text: string, language: string): nat {
    if hs == [] then 0
    else
      var n := |hs| - 1;
      SignalBonus(hs[..n], m, text, language)
        + (if Fires(hs[n].cue, m, text) && language in hs[n].group then hs[n].bonus else 0)
  }

  lemma GrantSnoc(scores: map<string, int>, awards: seq<Award>, a: Award)
    ensures Grant(scores, awards + [a]) == Step(Grant(scores, awards), a)
  {
    assert (awards + [a])[..|awards|] == awards;
  }

  /** Heuristics never create a key: the record has the same languages before and after. */
  lemma {:induction false} GrantKeys(scores: map<string, int>, awards: seq<Award>)
    ensures Grant(scores, awards).Keys == scores.Keys
  {
    if awards != [] {
      GrantKeys(scores, awards[..|awards| - 1]);
    }
  }

  /**
   * Awards are independent additions: every language of the record ends with
   * its old score plus the sum of its awards, and only languages of the
   * record receive anything.
   */
  lemma {:induction false} GrantClosedForm(scores: map<string, int>, awards: seq<Award>, language: string)
    requires language in scores
    ensures language in Grant(scores, awards)
    ensures Grant(scores, awards)[language] == scores[language] + AwardTotal(awards, language)
  {
    if awards != [] {
      GrantKeys(scores, awards[..|awards| - 1]);
      GrantClosedForm(scores, awards[..|awards| - 1], language);
    }
  }

  lemma {:induction false} AwardTotalAppend(a: seq<Award>, b: seq<Award>, language: string)
    ensures AwardTotal(a + b, language) == AwardTotal(a, language) + AwardTotal(b, language)
  {
    if b == [] {
      assert a + b == a;
    } else {
      var n := |b| - 1;
      assert (a + b)[..|a + b| - 1] == a + b[..n];
      AwardTotalAppend(a, b[..n], language);
    }
  }

  /** Taking one award out of a list takes its amount out of the language's total. */
  lemma AwardTotalRemove(b: seq<Award>, k: nat, language: string)
    requires k < |b|
    ensures AwardTotal(b, language)
         == AwardTotal(b[..k] + b[k + 1..], language) + (if b[k].language == language then b[k].amount else 0)
  {
    assert b == (b[..k] + [b[k]]) + b[k + 1..];
    AwardTotalAppend(b[..k] + [b[k]], b[k + 1..], language);
    AwardTotalAppend(b[..k], [b[k]], language);
    AwardTotalAppend(b[..k], b[k + 1..], language);
    assert [b[k]][..0] == [];
  }

  lemma MultisetRemove(a: seq<Award>, b: seq<Award>, k: nat)
    requires a != [] && k < |b| && b[k] == a[|a| - 1] && multiset(a) == multiset(b)
    ensures multiset(a[..|a| - 1]) == multiset(b[..k] + b[k + 1..])
  {
    var n := |a| - 1;
    var x := a[n];
    var left, right := b[..k], b[k + 1..];
    assert a == a[..n] + [x];
    assert b == (left + [x]) + right;
    assert multiset(a) == multiset(a[..n]) + multiset{x};
    assert multiset(b) == (multiset(left) + multiset{x}) + multiset(right);
    assert multiset(left + right) == multiset(left) + multiset(right);
    assert multiset(b) == multiset(left + right) + multiset{x};
    assert multiset(a[..n]) == multiset(a) - multiset{x};
    assert multiset(left + right) == multiset(b) - multiset{x};
  }

  /** The total of a language's awards does not depend on their order. */
  lemma {:induction false} AwardTotalPermutation(a: seq<Award>, b: seq<Award>, language: string)
    requires multiset(a) == multiset(b)
    ensures AwardTotal(a, language) == AwardTotal(b, language)
    decreases |a|
  {
    if a == [] {
      assert |b| == |multiset(b)| == 0;
    } else {
      var n := |a| - 1;
      assert a[n] in multiset(b) by {
        assert a == a[..n] + [a[n]];
      }
      var k :| 0 <= k < |b| && b[k] == a[n];
      MultisetRemove(a, b, k);
      AwardTotalPermutation(a[..n], b[..k] + b[k + 1..], language);
      AwardTotalRemove(b, k, language);
    }
  }

  /** Applying the same awards in any order gives the same score record. */
  lemma GrantOrderIndependent(scores: map<string, int>, a: seq<Award>, b: seq<Award>)
    requires multiset(a) == multiset(b)
    ensures Grant(scores, a) == Grant(scores, b)
  {
    GrantKeys(scores, a);
    GrantKeys(scores, b);
    forall language | language in scores
      ensures Grant(scores, a)[language] == Grant(scores, b)[language]
    {
      GrantClosedForm(scores, a, language);
      GrantClosedForm(scores, b, language);
      AwardTotalPermutation(a, b, language);
    }
  }

  /** A `forEach` over a group without repeats gives each member the bonus exactly once. */
  lemma {:induction false} GroupAwardTotal(group: seq<string>, bonus: nat, language: string)
    requires Distinct(group)
    ensures AwardTotal(GroupAwards(group, bonus), language) == if language in group then bonus else 0
  {
    if group != [] {
      var n := |group| - 1;
      assert Distinct(group[..n]);
      assert group == group[..n] + [group[n]];
      assert language == group[n] ==> language !in group[..n];
      GroupAwardTotal(group[..n], bonus, language);
      AwardTotalAppend(GroupAwards(group[..n], bonus), [Award(group[n], bonus)], language);
      assert [Award(group[n], bonus)][..0] == [];
    }
  }

  /** With groups without repeats, the signal awards of a language are its signal bonus. */
  lemma {:induction false} SignalAwardTotal(hs: seq<Heuristic>, m: Matcher, text: string, language: string)
    requires forall k :: 0 <= k < |hs| ==> Distinct(hs[k].group)
    ensures AwardTotal(SignalAwards(hs, m, text), language) == SignalBonus(hs, m, text, language)
  {
    if hs != [] {
      var n := |hs| - 1;
      assert forall k :: 0 <= k < n ==> hs[..n][k] == hs[k];
      SignalAwardTotal(hs[..n], m, text, language);
      var tail := if Fires(hs[n].cue, m, text) then GroupAwards(hs[n].group, hs[n].bonus) else [];
      assert SignalAwards(hs, m, text) == SignalAwards(hs[..n], m, text) + tail;
      AwardTotalAppend(SignalAwards(hs[..n], m, text), tail, language);
      if Fires(hs[n].cue, m, text) {
        GroupAwardTotal(hs[n].group, hs[n].bonus, language);
      } else {
        assert AwardTotal(tail, language) == 0;
      }
    }
  }

  /** A mentioned extension awards its language at least the extension bonus; `ExtensionAwardTotal` gives the exact amount. */
  lemma {:induction false} ExtensionMentioned(exts: seq<(string, string)>, text: string, k: nat)
    requires k < |exts| && Contains(text, exts[k].0)
    ensures AwardTotal(ExtensionAwards(exts, text), exts[k].1) >= ExtensionBonus
  {
    var n := |exts| - 1;
    var tail := if Contains(text, exts[n].0) then [Award(exts[n].1, ExtensionBonus)] else [];
    AwardTotalAppend(ExtensionAwards(exts[..n], text), tail, exts[k].1);
    if k < n {
      ExtensionMentioned(exts[..n], text, k);
    } else {
      assert tail == [Award(exts[n].1, ExtensionBonus)];
      assert tail[..0] == [];
    }
  }

  /** The positions of the extensions that map to `language` and occur in the text. */
  ghost function Mentioning(exts: seq<(string, string)>, text: string, language: string): set<int> {
    set k | 0 <= k < |exts| && Mentions(exts[k], text, language)
  }

  /** Whether one extension entry maps to `language` and occurs in the text. */
  ghost predicate Mentions(ext: (string, string), text: string, language: string) {
    ext.1 == language && Contains(text, ext.0)
  }

  /** The extension loop gives a language exactly the bonus once per mentioned extension that maps to it, and nothing else. */
  lemma {:induction false} ExtensionAwardTotal(exts: seq<(string, string)>, text: string, language: string)
    ensures AwardTotal(ExtensionAwards(exts, text), language) == ExtensionBonus * |Mentioning(exts, text, language)|
  {
    if exts != [] {
      var n := |exts| - 1;
      ExtensionAwardTotal(exts[..n], text, language);
      var tail := if Contains(text, exts[n].0) then [Award(exts[n].1, ExtensionBonus)] else [];
      AwardTotalAppend(ExtensionAwards(exts[..n], text), tail, language);
      MentioningSnoc(exts, text, language);
      AwardTotalSingle(tail, language);
    }
  }

  /** How the mentioned positions grow by one extension. */
  lemma MentioningSnoc(exts: seq<(string, string)>, text: string, language: string)
    requires exts != []
    ensures var n := |exts| - 1;
      |Mentioning(exts, text, language)|
        == |Mentioning(exts[..n], text, language)| + (if Mentions(exts[n], text, language) then 1 else 0)
  {
    var n := |exts| - 1;
    var s0 := Mentioning(exts[..n], text, language);
    var s1 := if Mentions(exts[n], text, language) then s0 + {n} else s0;
    forall k | 0 <= k <= n
      ensures k in Mentioning(exts, text, language) <==> k in s1
    {
      if k < n {
        assert exts[..n][k] == exts[k];
      }
    }
    assert Mentioning(exts, text, language) == s1;
    assert n !in s0;
  }

  /** The award total of at most one award. */
  lemma AwardTotalSingle(awards: seq<Award>, language: string)
    requires |awards| <= 1
    ensures AwardTotal(awards, language) == if awards != [] && awards[0].language == language then awards[0].amount else 0
  {
    if awards != [] {
      assert awards[..0] == [];
    }
  }

  /** A language that no mentioned extension maps to gets nothing from the extension loop. */
  lemma ExtensionUnmentioned(exts: seq<(string, string)>, text: string, language: string)
    requires forall k :: 0 <= k < |exts| && exts[k].1 == language ==> !Contains(text, exts[k].0)
    ensures AwardTotal(ExtensionAwards(exts, text), language) == 0
  {
    ExtensionAwardTotal(exts, text, language);
    assert Mentioning(exts, text, language) == {};
  }

  lemma TabDistinct()
    ensures Distinct(TabGroup)
  {
  }

  lemma SpaceDistinct()
    ensures Distinct(SpaceGroup)
  {
  }

  lemma SemicolonDistinct()
    ensures Distinct(SemicolonGroup)
  {
  }

  lemma NewlineBraceDistinct()
    ensures Distinct(NewlineBraceGroup)
  {
  }

  lemma SameLineBraceDistinct()
    ensures Distinct(SameLineBraceGroup)
  {
  }

  lemma HashCommentDistinct()
    ensures Distinct(HashCommentGroup)
  {
  }

  lemma LineCommentDistinct()
    ensures Distinct(LineCommentGroup)
  {
  }

  lemma BlockCommentDistinct()
    ensures Distinct(BlockCommentGroup)
  {
  }

  lemma PythonOnlyDistinct()
    ensures Distinct(PythonOnly)
  {
  }

  lemma BacktickDistinct()
    ensures Distinct(BacktickGroup)
  {
  }

  lemma MarkupDistinct()
    ensures Distinct(MarkupGroup)
  {
  }

  lemma DataDistinct()
    ensures Distinct(DataGroup)
  {
  }

  lemma FunctionalDistinct()
    ensures Distinct(FunctionalGroup)
  {
  }

  lemma ObjectDistinct()
    ensures Distinct(ObjectGroup)
  {
  }

  /** No signal group of the source names a language twice. */
  lemma SignalGroupsDistinct()
    ensures forall k :: 0 <= k < |Signals| ==> Distinct(Signals[k].group)
  {
    TabDistinct();
    SpaceDistinct();
    SemicolonDistinct();
    NewlineBraceDistinct();
    SameLineBraceDistinct();
    HashCommentDistinct();
    LineCommentDistinct();
    BlockCommentDistinct();
    PythonOnlyDistinct();
    BacktickDistinct();
    MarkupDistinct();
    DataDistinct();
    FunctionalDistinct();
    ObjectDistinct();
  }

  /**
   * What `applyAdditionalHeuristics` does to each language of the record: it
   * keeps its old score and gains the bonuses of the mentioned extensions and
   * of every firing signal whose group holds it; no key is added.
   */
  lemma AugmentedClosedForm(scores: map<string, int>, m: Matcher, text: string, language: string)
    requires language in scores
    ensures Augmented(scores, m, text).Keys == scores.Keys
    ensures Augmented(scores, m, text)[language]
         == scores[language] + AwardTotal(ExtensionAwards(Extensions, text), language)
            + SignalBonus(Signals, m, text, language)
  {
    GrantKeys(scores, Awards(m, text));
    GrantClosedForm(scores, Awards(m, text), language);
    AwardTotalAppend(ExtensionAwards(Extensions, text), SignalAwards(Signals, m, text), language);
    SignalGroupsDistinct();
    SignalAwardTotal(Signals, m, text, language);
  }

  /** Applying a list in two parts is applying the whole list. */
  lemma {:induction false} GrantAppend(scores: map<string, int>, a: seq<Award>, b: seq<Award>)
    ensures Grant(scores, a + b) == Grant(Grant(scores, a), b)
  {
    if b == [] {
      assert a + b == a;
    } else {
      var n := |b| - 1;
      assert (a + b)[..|a + b| - 1] == a + b[..n];
      GrantAppend(scores, a, b[..n]);
    }
  }

  /** The extension loop of `applyAdditionalHeuristics`, over an extension table. */
  method ApplyExtensions(code: string, board: ScoreBoard, exts: seq<(string, string)>)
    modifies board`scores
    ensures board.scores == Grant(old(board.scores), ExtensionAwards(exts, code))
  {
    ghost var start := board.scores;
    for i := 0 to |exts|
      invariant board.scores == Grant(start, ExtensionAwards(exts[..i], code))
    {
      var (ext, language) := exts[i];
      assert exts[..i + 1][..i] == exts[..i];
      if Contains(code, ext) {
        if language in board.scores {
          board.AddScore(language, ExtensionBonus);
        }
        GrantSnoc(start, ExtensionAwards(exts[..i], code), Award(language, ExtensionBonus));
        assert ExtensionAwards(exts[..i + 1], code) == ExtensionAwards(exts[..i], code) + [Award(language, ExtensionBonus)];
      } else {
        assert ExtensionAwards(exts[..i], code) + [] == ExtensionAwards(exts[..i], code);
        assert ExtensionAwards(exts[..i + 1], code) == ExtensionAwards(exts[..i], code);
      }
    }
    assert exts[..|exts|] == exts;
  }

  /** One signal block: every language of the group that has a score gains the bonus. */
  method ApplyGroup(group: seq<string>, bonus: nat, board: ScoreBoard)
    modifies board`scores
    ensures board.scores == Grant(old(board.scores), GroupAwards(group, bonus))
  {
    ghost var start := board.scores;
    for j := 0 to |group|
      invariant board.scores == Grant(start, GroupAwards(group[..j], bonus))
    {
      var language := group[j];
      assert group[..j + 1][..j] == group[..j];
      if language in board.scores {
        board.AddScore(language, bonus);
      }
      GrantSnoc(start, GroupAwards(group[..j], bonus), Award(language, bonus));
    }
    assert group[..|group|] == group;
  }

  /** The signal blocks of `applyAdditionalHeuristics`, over a signal table. */
  method ApplySignals(code: string, board: ScoreBoard, m: Matcher, hs: seq<Heuristic>)
    modifies board`scores
    ensures board.scores == Grant(old(board.scores), SignalAwards(hs, m, code))
  {
    ghost var start := board.scores;
    for k := 0 to |hs|
      invariant board.scores == Grant(start, SignalAwards(hs[..k], m, code))
    {
      var h := hs[k];
      assert hs[..k + 1][..k] == hs[..k];
      if Fires(h.cue, m, code) {
        ApplyGroup(h.group, h.bonus, board);
        GrantAppend(start, SignalAwards(hs[..k], m, code), GroupAwards(h.group, h.bonus));
        assert SignalAwards(hs[..k + 1], m, code) == SignalAwards(hs[..k], m, code) + GroupAwards(h.group, h.bonus);
      } else {
        assert SignalAwards(hs[..k], m, code) + [] == SignalAwards(hs[..k], m, code);
        assert SignalAwards(hs[..k + 1], m, code) == SignalAwards(hs[..k], m, code);
      }
    }
    assert hs[..|hs|] == hs;
  }

  /**
   * `applyAdditionalHeuristics(code, scores)`. It changes only the scores,
   * and the new record is the old one with every award of the text applied.
   */
  method ApplyAdditionalHeuristics(code: string, board: ScoreBoard, m: Matcher)
    modifies board`scores
    ensures board.scores == Augmented(old(board.scores), m, code)
  {
    ghost var start := board.scores;
    ApplyExtensions(code, board, Extensions);
    ApplySignals(code, board, m, Signals);
    GrantAppend(start, ExtensionAwards(Extensions, code), SignalAwards(Signals, m, code));
  }
}
