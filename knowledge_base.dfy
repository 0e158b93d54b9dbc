/**
 * `languagePatterns`: the rule table of the detector, one signature per
 * language in declaration order, each rule with its regular-expression
 * literal, its weight and its exclusive flag.
 */
module KnowledgeBase {
  import opened Patterns

  // src/lib/language-detector.ts:21-38
  const Python := Signature("Python", [
    Rule(Pattern(@"def\s+\w+\s*\([^)]*\)\s*:", ""), 3, false),
    Rule(Pattern(@"import\s+\w+", ""), 2, false),
    Rule(Pattern(@"from\s+\w+\s+import", ""), 3, false),
    Rule(Pattern(@"print\s*\(", ""), 2, false),
    Rule(Pattern(@"if\s+__name__\s*==\s*['""']__main__['""']\s*:", ""), 5, true),
    Rule(Pattern(@":\s*$", ""), 1, false),
    Rule(Pattern(@"elif\s+", ""), 2, false),
    Rule(Pattern(@"^\s*#.*$", ""), 1, false),
    Rule(Pattern(@"for\s+\w+\s+in\s+", ""), 2, false),
    Rule(Pattern(@"except\s+\w*Error", ""), 3, false),
    Rule(Pattern(@"with\s+open\s*\(", ""), 3, false),
    Rule(Pattern(@"lambda\s+\w*:", ""), 2, false),
    Rule(Pattern(@"\b(True|False|None)\b", ""), 2, false),
    Rule(Pattern(@"f['""][^'""]*\{[^}]*\}", ""), 2, false),
    Rule(Pattern(@"\bself\b", ""), 2, false),
    Rule(Pattern(@"class\s+\w+\([^)]*\)\s*:", ""), 3, false)
  ])

  // src/lib/language-detector.ts:39-57
  const JavaScript := Signature("JavaScript", [
    Rule(Pattern(@"function\s+\w+\s*\(", ""), 3, false),
    Rule(Pattern(@"const\s+\w+\s*=", ""), 2, false),
    Rule(Pattern(@"let\s+\w+\s*=", ""), 2, false),
    Rule(Pattern(@"var\s+\w+\s*=", ""), 2, false),
    Rule(Pattern(@"console\.log\s*\(", ""), 3, false),
    Rule(Pattern(@"=>\s*[{(]", ""), 2, false),
    Rule(Pattern(@"document\.", ""), 3, false),
    Rule(Pattern(@"window\.", ""), 2, false),
    Rule(Pattern(@"\$\(", ""), 2, false),
    Rule(Pattern(@"require\s*\(", ""), 2, false),
    Rule(Pattern(@"module\.exports", ""), 3, false),
    Rule(Pattern(@"\.then\s*\(", ""), 2, false),
    Rule(Pattern(@"async\s+function", ""), 2, false),
    Rule(Pattern(@"await\s+", ""), 2, false),
    Rule(Pattern(@"\b(null|undefined)\b", ""), 1, false),
    Rule(Pattern(@"JSON\.(parse|stringify)", ""), 2, false),
    Rule(Pattern(@"addEventListener\s*\(", ""), 2, false)
  ])

  // src/lib/language-detector.ts:58-73
  const TypeScript := Signature("TypeScript", [
    Rule(Pattern(@"interface\s+\w+", ""), 4, true),
    Rule(Pattern(@"type\s+\w+\s*=", ""), 3, false),
    Rule(Pattern(@":\s*(string|number|boolean|any|void|object)", ""), 2, false),
    Rule(Pattern(@"function\s+\w+\s*\([^)]*:\s*\w+", ""), 3, false),
    Rule(Pattern(@"export\s+interface", ""), 4, true),
    Rule(Pattern(@"import.*from.*['""'].+['""']", ""), 2, false),
    Rule(Pattern(@"<\w+>", ""), 2, false),
    Rule(Pattern(@"as\s+\w+", ""), 2, false),
    Rule(Pattern(@"enum\s+\w+", ""), 3, false),
    Rule(Pattern(@"public\s+\w+\s*\(", ""), 2, false),
    Rule(Pattern(@"private\s+\w+", ""), 2, false),
    Rule(Pattern(@"readonly\s+\w+", ""), 2, false),
    Rule(Pattern(@"\?\s*:", ""), 1, false),
    Rule(Pattern(@"declare\s+", ""), 3, false)
  ])

  // src/lib/language-detector.ts:74-88
  const Java := Signature("Java", [
    Rule(Pattern(@"public\s+class\s+\w+", ""), 4, true),
    Rule(Pattern(@"public\s+static\s+void\s+main", ""), 5, true),
    Rule(Pattern(@"System\.out\.print", ""), 4, true),
    Rule(Pattern(@"import\s+java\.", ""), 3, false),
    Rule(Pattern(@"private\s+\w+\s+\w+", ""), 2, false),
    Rule(Pattern(@"public\s+\w+\s+\w+\s*\(", ""), 2, false),
    Rule(Pattern(@"extends\s+\w+", ""), 2, false),
    Rule(Pattern(@"implements\s+\w+", ""), 2, false),
    Rule(Pattern(@"@Override", ""), 2, false),
    Rule(Pattern(@"new\s+\w+\s*\(", ""), 1, false),
    Rule(Pattern(@"throws\s+\w+", ""), 2, false),
    Rule(Pattern(@"package\s+[\w.]+;", ""), 3, false),
    Rule(Pattern(@"ArrayList|HashMap|LinkedList", ""), 2, false)
  ])

  // src/lib/language-detector.ts:89-104
  const CPlusPlus := Signature("C++", [
    Rule(Pattern(@"#include\s*<[^>]+>", ""), 3, false),
    Rule(Pattern(@"std::", ""), 3, false),
    Rule(Pattern(@"cout\s*<<", ""), 3, false),
    Rule(Pattern(@"cin\s*>>", ""), 3, false),
    Rule(Pattern(@"int\s+main\s*\(", ""), 3, false),
    Rule(Pattern(@"using\s+namespace\s+std", ""), 4, true),
    Rule(Pattern(@"class\s+\w+", ""), 2, false),
    Rule(Pattern(@"template\s*<", ""), 3, false),
    Rule(Pattern(@"vector<\w+>", ""), 2, false),
    Rule(Pattern(@"public\s*:", ""), 2, false),
    Rule(Pattern(@"private\s*:", ""), 2, false),
    Rule(Pattern(@"virtual\s+", ""), 2, false),
    Rule(Pattern(@"const\s+\w+&", ""), 2, false),
    Rule(Pattern(@"::", ""), 1, false)
  ])

  // src/lib/language-detector.ts:105-119
  const CSharp := Signature("C#", [
    Rule(Pattern(@"using\s+System", ""), 4, true),
    Rule(Pattern(@"public\s+class\s+\w+", ""), 3, false),
    Rule(Pattern(@"Console\.Write", ""), 4, true),
    Rule(Pattern(@"static\s+void\s+Main", ""), 4, true),
    Rule(Pattern(@"namespace\s+\w+", ""), 3, false),
    Rule(Pattern(@"public\s+static\s+", ""), 2, false),
    Rule(Pattern(@"private\s+static\s+", ""), 2, false),
    Rule(Pattern(@"\[.*\]", ""), 2, false),
    Rule(Pattern(@"var\s+\w+\s*=", ""), 1, false),
    Rule(Pattern(@"string\[\]", ""), 2, false),
    Rule(Pattern(@"List<\w+>", ""), 2, false),
    Rule(Pattern(@"get\s*;\s*set\s*;", ""), 2, false),
    Rule(Pattern(@"override\s+", ""), 2, false)
  ])

  // src/lib/language-detector.ts:120-133
  const C := Signature("C", [
    Rule(Pattern(@"#include\s*<[^>]+\.h>", ""), 3, false),
    Rule(Pattern(@"int\s+main\s*\(", ""), 3, false),
    Rule(Pattern(@"printf\s*\(", ""), 3, false),
    Rule(Pattern(@"scanf\s*\(", ""), 3, false),
    Rule(Pattern(@"malloc\s*\(", ""), 3, false),
    Rule(Pattern(@"free\s*\(", ""), 3, false),
    Rule(Pattern(@"struct\s+\w+", ""), 2, false),
    Rule(Pattern(@"typedef\s+", ""), 2, false),
    Rule(Pattern(@"\*\w+", ""), 1, false),
    Rule(Pattern(@"sizeof\s*\(", ""), 2, false),
    Rule(Pattern(@"NULL", ""), 1, false),
    Rule(Pattern(@"return\s+0\s*;", ""), 1, false)
  ])

  // src/lib/language-detector.ts:134-147
  const Go := Signature("Go", [
    Rule(Pattern(@"package\s+\w+", ""), 4, true),
    Rule(Pattern(@"func\s+\w+\s*\(", ""), 3, false),
    Rule(Pattern(@"import\s*\(", ""), 3, false),
    Rule(Pattern(@"fmt\.Print", ""), 3, false),
    Rule(Pattern(@"var\s+\w+\s+\w+", ""), 2, false),
    Rule(Pattern(@"go\s+\w+", ""), 3, false),
    Rule(Pattern(@"defer\s+", ""), 3, false),
    Rule(Pattern(@"chan\s+", ""), 3, false),
    Rule(Pattern(@"make\s*\(", ""), 2, false),
    Rule(Pattern(@"range\s+", ""), 2, false),
    Rule(Pattern(@"goroutine", ""), 2, false),
    Rule(Pattern(@":=", ""), 2, false)
  ])

  // src/lib/language-detector.ts:148-162
  const Rust := Signature("Rust", [
    Rule(Pattern(@"fn\s+\w+\s*\(", ""), 3, false),
    Rule(Pattern(@"let\s+mut\s+\w+", ""), 3, false),
    Rule(Pattern(@"println!\s*\(", ""), 4, true),
    Rule(Pattern(@"use\s+std::", ""), 3, false),
    Rule(Pattern(@"struct\s+\w+", ""), 2, false),
    Rule(Pattern(@"impl\s+", ""), 3, false),
    Rule(Pattern(@"match\s+", ""), 3, false),
    Rule(Pattern(@"&str", ""), 2, false),
    Rule(Pattern(@"Vec<\w+>", ""), 2, false),
    Rule(Pattern(@"Option<\w+>", ""), 2, false),
    Rule(Pattern(@"Result<\w+,\s*\w+>", ""), 2, false),
    Rule(Pattern(@"\|.*\|", ""), 1, false),
    Rule(Pattern(@"pub\s+fn", ""), 2, false)
  ])

  // src/lib/language-detector.ts:163-176
  const PHP := Signature("PHP", [
    Rule(Pattern(@"<\?php", ""), 5, true),
    Rule(Pattern(@"echo\s+", ""), 3, false),
    Rule(Pattern(@"\$\w+", ""), 3, false),
    Rule(Pattern(@"function\s+\w+\s*\(", ""), 2, false),
    Rule(Pattern(@"class\s+\w+", ""), 2, false),
    Rule(Pattern(@"require\s+", ""), 2, false),
    Rule(Pattern(@"include\s+", ""), 2, false),
    Rule(Pattern(@"->", ""), 2, false),
    Rule(Pattern(@"\$this->", ""), 2, false),
    Rule(Pattern(@"array\s*\(", ""), 2, false),
    Rule(Pattern(@"\?>", ""), 2, false),
    Rule(Pattern(@"isset\s*\(", ""), 2, false)
  ])

  // src/lib/language-detector.ts:177-190
  const Ruby := Signature("Ruby", [
    Rule(Pattern(@"def\s+\w+", ""), 3, false),
    Rule(Pattern(@"puts\s+", ""), 3, false),
    Rule(Pattern(@"class\s+\w+", ""), 2, false),
    Rule(Pattern(@"require\s+", ""), 2, false),
    Rule(Pattern(@"end\s*$", ""), 2, false),
    Rule(Pattern(@"@\w+", ""), 2, false),
    Rule(Pattern(@"\.each\s+do", ""), 3, false),
    Rule(Pattern(@"elsif\s+", ""), 2, false),
    Rule(Pattern(@"\|\w+\|", ""), 2, false),
    Rule(Pattern(@"attr_accessor", ""), 2, false),
    Rule(Pattern(@"module\s+\w+", ""), 2, false),
    Rule(Pattern(@"\#{.*}", ""), 2, false)
  ])

  // src/lib/language-detector.ts:191-204
  const Swift := Signature("Swift", [
    Rule(Pattern(@"func\s+\w+\s*\(", ""), 3, false),
    Rule(Pattern(@"var\s+\w+\s*:", ""), 2, false),
    Rule(Pattern(@"let\s+\w+\s*:", ""), 2, false),
    Rule(Pattern(@"print\s*\(", ""), 2, false),
    Rule(Pattern(@"import\s+\w+", ""), 2, false),
    Rule(Pattern(@"class\s+\w+\s*:", ""), 2, false),
    Rule(Pattern(@"struct\s+\w+", ""), 2, false),
    Rule(Pattern(@"extension\s+", ""), 2, false),
    Rule(Pattern(@"protocol\s+\w+", ""), 2, false),
    Rule(Pattern(@"override\s+func", ""), 2, false),
    Rule(Pattern(@"\?\?", ""), 1, false),
    Rule(Pattern(@"guard\s+", ""), 2, false)
  ])

  // src/lib/language-detector.ts:205-218
  const Kotlin := Signature("Kotlin", [
    Rule(Pattern(@"fun\s+\w+\s*\(", ""), 3, false),
    Rule(Pattern(@"val\s+\w+", ""), 2, false),
    Rule(Pattern(@"var\s+\w+", ""), 2, false),
    Rule(Pattern(@"println\s*\(", ""), 3, false),
    Rule(Pattern(@"class\s+\w+", ""), 2, false),
    Rule(Pattern(@"object\s+\w+", ""), 2, false),
    Rule(Pattern(@"when\s*\(", ""), 3, false),
    Rule(Pattern(@"data\s+class", ""), 3, false),
    Rule(Pattern(@"companion\s+object", ""), 3, false),
    Rule(Pattern(@"\.let\s*\{", ""), 2, false),
    Rule(Pattern(@"\?\s*:", ""), 1, false),
    Rule(Pattern(@"lateinit\s+var", ""), 2, false)
  ])

  // src/lib/language-detector.ts:219-231
  const Scala := Signature("Scala", [
    Rule(Pattern(@"def\s+\w+\s*\(", ""), 3, false),
    Rule(Pattern(@"val\s+\w+", ""), 2, false),
    Rule(Pattern(@"var\s+\w+", ""), 2, false),
    Rule(Pattern(@"object\s+\w+", ""), 3, false),
    Rule(Pattern(@"class\s+\w+", ""), 2, false),
    Rule(Pattern(@"trait\s+\w+", ""), 3, false),
    Rule(Pattern(@"case\s+class", ""), 3, false),
    Rule(Pattern(@"import\s+scala\.", ""), 3, false),
    Rule(Pattern(@"println\s*\(", ""), 2, false),
    Rule(Pattern(@"=>\s*", ""), 2, false),
    Rule(Pattern(@"\s*<-\s*", ""), 2, false)
  ])

  // src/lib/language-detector.ts:232-243
  const R := Signature("R", [
    Rule(Pattern(@"<-", ""), 4, true),
    Rule(Pattern(@"library\s*\(", ""), 3, false),
    Rule(Pattern(@"data\.frame\s*\(", ""), 3, false),
    Rule(Pattern(@"c\s*\(", ""), 2, false),
    Rule(Pattern(@"function\s*\(", ""), 2, false),
    Rule(Pattern(@"print\s*\(", ""), 1, false),
    Rule(Pattern(@"\$\w+", ""), 2, false),
    Rule(Pattern(@"install\.packages", ""), 3, false),
    Rule(Pattern(@"str\s*\(", ""), 2, false),
    Rule(Pattern(@"summary\s*\(", ""), 2, false)
  ])

  // src/lib/language-detector.ts:244-255
  const MATLAB := Signature("MATLAB", [
    Rule(Pattern(@"function\s+\w+\s*=", ""), 3, false),
    Rule(Pattern(@"end\s*$", ""), 1, false),
    Rule(Pattern(@"fprintf\s*\(", ""), 3, false),
    Rule(Pattern(@"plot\s*\(", ""), 3, false),
    Rule(Pattern(@"zeros\s*\(", ""), 2, false),
    Rule(Pattern(@"ones\s*\(", ""), 2, false),
    Rule(Pattern(@"size\s*\(", ""), 2, false),
    Rule(Pattern(@"length\s*\(", ""), 2, false),
    Rule(Pattern(@"%.*$", ""), 1, false),
    Rule(Pattern(@"\[.*\]", ""), 1, false)
  ])

  // src/lib/language-detector.ts:256-267
  const Perl := Signature("Perl", [
    Rule(Pattern(@"#!\/usr\/bin\/perl", ""), 5, true),
    Rule(Pattern(@"use\s+strict", ""), 3, false),
    Rule(Pattern(@"use\s+warnings", ""), 3, false),
    Rule(Pattern(@"\$\w+", ""), 2, false),
    Rule(Pattern(@"@\w+", ""), 2, false),
    Rule(Pattern(@"%\w+", ""), 2, false),
    Rule(Pattern(@"print\s+", ""), 2, false),
    Rule(Pattern(@"my\s+\$", ""), 2, false),
    Rule(Pattern(@"=~", ""), 2, false),
    Rule(Pattern(@"chomp\s*\(", ""), 2, false)
  ])

  // src/lib/language-detector.ts:268-280
  const Shell := Signature("Shell", [
    Rule(Pattern(@"#!\/bin\/(ba)?sh", ""), 5, true),
    Rule(Pattern(@"echo\s+", ""), 2, false),
    Rule(Pattern(@"\$\w+", ""), 2, false),
    Rule(Pattern(@"if\s*\[", ""), 2, false),
    Rule(Pattern(@"for\s+\w+\s+in", ""), 2, false),
    Rule(Pattern(@"while\s*\[", ""), 2, false),
    Rule(Pattern(@"grep\s+", ""), 2, false),
    Rule(Pattern(@"sed\s+", ""), 2, false),
    Rule(Pattern(@"awk\s+", ""), 2, false),
    Rule(Pattern(@"chmod\s+", ""), 2, false),
    Rule(Pattern(@"\|\s*\w+", ""), 1, false)
  ])

  // src/lib/language-detector.ts:281-291
  const PowerShell := Signature("PowerShell", [
    Rule(Pattern(@"Get-\w+", ""), 3, false),
    Rule(Pattern(@"Set-\w+", ""), 3, false),
    Rule(Pattern(@"New-\w+", ""), 3, false),
    Rule(Pattern(@"\$\w+", ""), 2, false),
    Rule(Pattern(@"Write-Host", ""), 3, false),
    Rule(Pattern(@"param\s*\(", ""), 3, false),
    Rule(Pattern(@"\[Parameter\]", ""), 3, false),
    Rule(Pattern(@"\-\w+", ""), 2, false),
    Rule(Pattern(@"\|\s*\w+", ""), 1, false)
  ])

  // src/lib/language-detector.ts:292-303
  const Lua := Signature("Lua", [
    Rule(Pattern(@"function\s+\w+\s*\(", ""), 3, false),
    Rule(Pattern(@"local\s+\w+", ""), 2, false),
    Rule(Pattern(@"end\s*$", ""), 2, false),
    Rule(Pattern(@"print\s*\(", ""), 2, false),
    Rule(Pattern(@"require\s*\(", ""), 2, false),
    Rule(Pattern(@"then\s*$", ""), 2, false),
    Rule(Pattern(@"elseif\s+", ""), 2, false),
    Rule(Pattern(@"\.\.\s*", ""), 2, false),
    Rule(Pattern(@"ipairs\s*\(", ""), 2, false),
    Rule(Pattern(@"pairs\s*\(", ""), 2, false)
  ])

  // src/lib/language-detector.ts:304-315
  const Haskell := Signature("Haskell", [
    Rule(Pattern(@"\w+\s*::\s*", ""), 3, false),
    Rule(Pattern(@"import\s+\w+", ""), 2, false),
    Rule(Pattern(@"data\s+\w+", ""), 3, false),
    Rule(Pattern(@"where\s*$", ""), 2, false),
    Rule(Pattern(@"\|\s*\w+", ""), 2, false),
    Rule(Pattern(@"let\s+\w+", ""), 2, false),
    Rule(Pattern(@"case\s+\w+\s+of", ""), 3, false),
    Rule(Pattern(@"->\s*", ""), 2, false),
    Rule(Pattern(@"\$\s*", ""), 2, false),
    Rule(Pattern(@"\w+\s*<-", ""), 2, false)
  ])

  // src/lib/language-detector.ts:316-329
  const Dart := Signature("Dart", [
    Rule(Pattern(@"void\s+main\s*\(", ""), 3, false),
    Rule(Pattern(@"print\s*\(", ""), 2, false),
    Rule(Pattern(@"var\s+\w+\s*=", ""), 2, false),
    Rule(Pattern(@"String\s+\w+", ""), 2, false),
    Rule(Pattern(@"int\s+\w+", ""), 2, false),
    Rule(Pattern(@"double\s+\w+", ""), 2, false),
    Rule(Pattern(@"bool\s+\w+", ""), 2, false),
    Rule(Pattern(@"List<\w+>", ""), 2, false),
    Rule(Pattern(@"Map<\w+,\s*\w+>", ""), 2, false),
    Rule(Pattern(@"class\s+\w+", ""), 2, false),
    Rule(Pattern(@"extends\s+\w+", ""), 2, false),
    Rule(Pattern(@"import\s+['""]dart:", ""), 3, false)
  ])

  // src/lib/language-detector.ts:330-341
  const Elixir := Signature("Elixir", [
    Rule(Pattern(@"defmodule\s+\w+", ""), 4, true),
    Rule(Pattern(@"def\s+\w+", ""), 3, false),
    Rule(Pattern(@"defp\s+\w+", ""), 3, false),
    Rule(Pattern(@"IO\.puts", ""), 3, false),
    Rule(Pattern(@"\|>", ""), 3, false),
    Rule(Pattern(@"case\s+\w+\s+do", ""), 3, false),
    Rule(Pattern(@"when\s+", ""), 2, false),
    Rule(Pattern(@"%\w+\{", ""), 2, false),
    Rule(Pattern(@"GenServer", ""), 2, false),
    Rule(Pattern(@"receive\s+do", ""), 2, false)
  ])

  // src/lib/language-detector.ts:342-353
  const Clojure := Signature("Clojure", [
    Rule(Pattern(@"\(defn\s+\w+", ""), 4, true),
    Rule(Pattern(@"\(def\s+\w+", ""), 3, false),
    Rule(Pattern(@"\(ns\s+\w+", ""), 3, false),
    Rule(Pattern(@"\(println", ""), 3, false),
    Rule(Pattern(@"\(let\s*\[", ""), 3, false),
    Rule(Pattern(@"\(if\s+", ""), 2, false),
    Rule(Pattern(@"\(map\s+", ""), 2, false),
    Rule(Pattern(@"\(filter\s+", ""), 2, false),
    Rule(Pattern(@"\(reduce\s+", ""), 2, false),
    Rule(Pattern(@"\[\s*\w+\s*\]", ""), 2, false)
  ])

  // src/lib/language-detector.ts:354-365
  const ObjectiveC := Signature("Objective-C", [
    Rule(Pattern(@"@interface\s+\w+", ""), 4, true),
    Rule(Pattern(@"@implementation\s+\w+", ""), 4, true),
    Rule(Pattern(@"@property", ""), 3, false),
    Rule(Pattern(@"@synthesize", ""), 3, false),
    Rule(Pattern(@"NSString\s*\*", ""), 3, false),
    Rule(Pattern(@"NSLog\s*\(", ""), 3, false),
    Rule(Pattern(@"\[\w+\s+\w+\]", ""), 3, false),
    Rule(Pattern(@"#import\s+<", ""), 3, false),
    Rule(Pattern(@"\*\)\s*\w+", ""), 2, false),
    Rule(Pattern(@"@end", ""), 2, false)
  ])

  // src/lib/language-detector.ts:366-377
  const FSharp := Signature("F#", [
    Rule(Pattern(@"let\s+\w+\s*=", ""), 3, false),
    Rule(Pattern(@"let\s+rec\s+\w+", ""), 3, false),
    Rule(Pattern(@"printfn", ""), 3, false),
    Rule(Pattern(@"match\s+\w+\s+with", ""), 3, false),
    Rule(Pattern(@"\|\s*\w+", ""), 2, false),
    Rule(Pattern(@"open\s+\w+", ""), 2, false),
    Rule(Pattern(@"module\s+\w+", ""), 2, false),
    Rule(Pattern(@"type\s+\w+", ""), 2, false),
    Rule(Pattern(@"->", ""), 2, false),
    Rule(Pattern(@"\|>", ""), 2, false)
  ])

  // src/lib/language-detector.ts:378-389
  const VBDotNET := Signature("VB.NET", [
    Rule(Pattern(@"Module\s+\w+", ""), 3, false),
    Rule(Pattern(@"Sub\s+Main\s*\(", ""), 4, true),
    Rule(Pattern(@"Console\.WriteLine", ""), 4, true),
    Rule(Pattern(@"Dim\s+\w+\s+As", ""), 3, false),
    Rule(Pattern(@"Public\s+Class", ""), 3, false),
    Rule(Pattern(@"End\s+Sub", ""), 2, false),
    Rule(Pattern(@"End\s+Function", ""), 2, false),
    Rule(Pattern(@"End\s+Class", ""), 2, false),
    Rule(Pattern(@"Imports\s+System", ""), 3, false),
    Rule(Pattern(@"If\s+.*\s+Then", ""), 2, false)
  ])

  // src/lib/language-detector.ts:390-403
  const SQL := Signature("SQL", [
    Rule(Pattern(@"SELECT\s+.*\s+FROM", ""), 4, true),
    Rule(Pattern(@"INSERT\s+INTO", ""), 3, false),
    Rule(Pattern(@"UPDATE\s+.*\s+SET", ""), 3, false),
    Rule(Pattern(@"DELETE\s+FROM", ""), 3, false),
    Rule(Pattern(@"CREATE\s+TABLE", ""), 3, false),
    Rule(Pattern(@"ALTER\s+TABLE", ""), 3, false),
    Rule(Pattern(@"DROP\s+TABLE", ""), 3, false),
    Rule(Pattern(@"WHERE\s+", ""), 2, false),
    Rule(Pattern(@"GROUP\s+BY", ""), 2, false),
    Rule(Pattern(@"ORDER\s+BY", ""), 2, false),
    Rule(Pattern(@"INNER\s+JOIN", ""), 2, false),
    Rule(Pattern(@"LEFT\s+JOIN", ""), 2, false)
  ])

  // src/lib/language-detector.ts:404-417
  const HTML := Signature("HTML", [
    Rule(Pattern(@"<!DOCTYPE\s+html>", "i"), 5, true),
    Rule(Pattern(@"<html[^>]*>", "i"), 4, false),
    Rule(Pattern(@"<head[^>]*>", "i"), 3, false),
    Rule(Pattern(@"<body[^>]*>", "i"), 3, false),
    Rule(Pattern(@"<div[^>]*>", "i"), 2, false),
    Rule(Pattern(@"<span[^>]*>", "i"), 2, false),
    Rule(Pattern(@"<p[^>]*>", "i"), 2, false),
    Rule(Pattern(@"<a\s+href", "i"), 2, false),
    Rule(Pattern(@"<img\s+src", "i"), 2, false),
    Rule(Pattern(@"<script[^>]*>", "i"), 2, false),
    Rule(Pattern(@"<style[^>]*>", "i"), 2, false),
    Rule(Pattern(@"<meta[^>]*>", "i"), 2, false)
  ])

  // src/lib/language-detector.ts:418-431
  const CSS := Signature("CSS", [
    Rule(Pattern(@"\w+\s*\{[^}]*\}", ""), 3, false),
    Rule(Pattern(@"\.\w+\s*\{", ""), 3, false),
    Rule(Pattern(@"#\w+\s*\{", ""), 3, false),
    Rule(Pattern(@":\s*\w+\s*;", ""), 2, false),
    Rule(Pattern(@"@media\s+", ""), 3, false),
    Rule(Pattern(@"@import\s+", ""), 3, false),
    Rule(Pattern(@"font-family\s*:", ""), 2, false),
    Rule(Pattern(@"background-color\s*:", ""), 2, false),
    Rule(Pattern(@"display\s*:\s*flex", ""), 2, false),
    Rule(Pattern(@"margin\s*:", ""), 2, false),
    Rule(Pattern(@"padding\s*:", ""), 2, false),
    Rule(Pattern(@"border\s*:", ""), 2, false)
  ])

  // src/lib/language-detector.ts:432-440
  const JSON := Signature("JSON", [
    Rule(Pattern(@"^\s*\{", ""), 3, false),
    Rule(Pattern(@"^\s*\[", ""), 3, false),
    Rule(Pattern(@"""\w+""\s*:", ""), 3, false),
    Rule(Pattern(@":\s*""[^""]*""", ""), 2, false),
    Rule(Pattern(@":\s*\d+", ""), 2, false),
    Rule(Pattern(@":\s*(true|false|null)", ""), 2, false),
    Rule(Pattern(@",\s*$", ""), 2, false)
  ])

  // src/lib/language-detector.ts:441-448
  const XML := Signature("XML", [
    Rule(Pattern(@"<\?xml\s+version", ""), 5, true),
    Rule(Pattern(@"<\w+[^>]*>", ""), 3, false),
    Rule(Pattern(@"<\/\w+>", ""), 3, false),
    Rule(Pattern(@"<\w+[^>]*\/>", ""), 3, false),
    Rule(Pattern(@"xmlns\s*=", ""), 2, false),
    Rule(Pattern(@"<!--.*-->", ""), 2, false)
  ])

  // src/lib/language-detector.ts:449-456
  const YAML := Signature("YAML", [
    Rule(Pattern(@"^\s*\w+\s*:", ""), 3, false),
    Rule(Pattern(@"^\s*-\s+", ""), 3, false),
    Rule(Pattern(@"---\s*$", ""), 3, false),
    Rule(Pattern(@"\|\s*$", ""), 2, false),
    Rule(Pattern(@">\s*$", ""), 2, false),
    Rule(Pattern(@"!!\w+", ""), 2, false)
  ])

  /** The table, in three runs of eleven languages (the proofs below go run by run). */
  const Table: seq<Signature> := TableHead + TableMiddle + TableTail

  const TableHead: seq<Signature> := [Python, JavaScript, TypeScript, Java, CPlusPlus, CSharp, C, Go, Rust, PHP, Ruby]
  const TableMiddle: seq<Signature> := [Swift, Kotlin, Scala, R, MATLAB, Perl, Shell, PowerShell, Lua, Haskell, Dart]
  const TableTail: seq<Signature> := [Elixir, Clojure, ObjectiveC, FSharp, VBDotNET, SQL, HTML, CSS, JSON, XML, YAML]

  /** The labels of the table, in declaration order. */
  const Languages: seq<string> := LanguagesHead + LanguagesMiddle + LanguagesTail

  const LanguagesHead: seq<string> :=
    ["Python", "JavaScript", "TypeScript", "Java", "C++", "C#", "C", "Go", "Rust", "PHP", "Ruby"]
  const LanguagesMiddle: seq<string> :=
    ["Swift", "Kotlin", "Scala", "R", "MATLAB", "Perl", "Shell", "PowerShell", "Lua", "Haskell", "Dart"]
  const LanguagesTail: seq<string> :=
    ["Elixir", "Clojure", "Objective-C", "F#", "VB.NET", "SQL", "HTML", "CSS", "JSON", "XML", "YAML"]

  predicate Disjoint(a: seq<string>, b: seq<string>) {
    forall i, j :: 0 <= i < |a| && 0 <= j < |b| ==> a[i] != b[j]
  }

  lemma DistinctConcat(a: seq<string>, b: seq<string>)
    requires Distinct(a) && Distinct(b) && Disjoint(a, b)
    ensures Distinct(a + b)
  {
    forall i, j | 0 <= i < j < |a + b|
      ensures (a + b)[i] != (a + b)[j]
    {
      if j < |a| {
        assert (a + b)[i] == a[i] && (a + b)[j] == a[j];
      } else if i < |a| {
        assert (a + b)[i] == a[i] && (a + b)[j] == b[j - |a|];
      } else {
        assert (a + b)[i] == b[i - |a|] && (a + b)[j] == b[j - |a|];
      }
    }
  }

  lemma LabelsConcat(a: seq<Signature>, b: seq<Signature>)
    ensures LabelsOf(a + b) == LabelsOf(a) + LabelsOf(b)
  {
  }

  lemma HeadLabels() ensures LabelsOf(TableHead) == LanguagesHead {
    assert LabelsOf(TableHead) == LanguagesHead;
  }

  lemma MiddleLabels() ensures LabelsOf(TableMiddle) == LanguagesMiddle {
    assert LabelsOf(TableMiddle) == LanguagesMiddle;
  }

  lemma TailLabels() ensures LabelsOf(TableTail) == LanguagesTail {
    assert LabelsOf(TableTail) == LanguagesTail;
  }

  /** The labels of the table are `Languages`. */
  lemma TableLabels()
    ensures LabelsOf(Table) == Languages
  {
    HeadLabels();
    MiddleLabels();
    TailLabels();
    LabelsConcat(TableHead, TableMiddle);
    LabelsConcat(TableHead + TableMiddle, TableTail);
  }

  lemma HeadDistinct() ensures Distinct(LanguagesHead) {}
  lemma MiddleDistinct() ensures Distinct(LanguagesMiddle) {}
  lemma TailDistinct() ensures Distinct(LanguagesTail) {}
  lemma HeadMiddleDisjoint() ensures Disjoint(LanguagesHead, LanguagesMiddle) {}
  lemma HeadTailDisjoint() ensures Disjoint(LanguagesHead, LanguagesTail) {}
  lemma MiddleTailDisjoint() ensures Disjoint(LanguagesMiddle, LanguagesTail) {}

  /** No label is used twice, and none is the fallback label "Unknown". */
  lemma LanguagesDistinct()
    ensures |Languages| == 33 && Distinct(Languages) && "Unknown" !in Languages
  {
    HeadDistinct();
    MiddleDistinct();
    TailDistinct();
    HeadMiddleDisjoint();
    HeadTailDisjoint();
    MiddleTailDisjoint();
    DistinctConcat(LanguagesHead, LanguagesMiddle);
    assert Disjoint(LanguagesHead + LanguagesMiddle, LanguagesTail) by {
      forall i, j | 0 <= i < |LanguagesHead + LanguagesMiddle| && 0 <= j < |LanguagesTail|
        ensures (LanguagesHead + LanguagesMiddle)[i] != LanguagesTail[j]
      {
        if i >= |LanguagesHead| {
          assert (LanguagesHead + LanguagesMiddle)[i] == LanguagesMiddle[i - |LanguagesHead|];
        }
      }
    }
    DistinctConcat(LanguagesHead + LanguagesMiddle, LanguagesTail);
  }

  /** The table has 33 languages under distinct labels, none of them "Unknown". */
  lemma TableWellFormed()
    ensures |Table| == 33 && WellFormed(Table) && "Unknown" !in LabelsOf(Table)
  {
    TableLabels();
    LanguagesDistinct();
  }
}
