/** Import-line detection: a line is an import when its stripped text starts
    with one of the language's keywords, and the module name is cut out of
    the text after the keyword by a per-method rule. */
module ImportDetector {
  import opened Wrappers
  import opened Strings

  /** How the module name is cut out of the text after the keyword. */
  datatype Method =
    | PythonFrom | PythonImport | JavaStyle | KotlinStyle | JsImport | JsRequire
    | GoQuoted | RustUse | RustExternCrate | PhpUse | PhpRequire
    | RubyRequire | RubyInclude | DartImport | CsharpUsing

  /** The keywords that open an import line, per language, in the order they are tried. */
  const PythonKeywords: seq<(string, Method)> := [("from ", PythonFrom), ("import ", PythonImport)]
  const JavaKeywords: seq<(string, Method)> := [("import ", JavaStyle)]
  const KotlinKeywords: seq<(string, Method)> := [("import ", KotlinStyle)]
  const JavaScriptKeywords: seq<(string, Method)> := [("import ", JsImport), ("require(", JsRequire)]
  const GoKeywords: seq<(string, Method)> := [("import \"", GoQuoted)]
  const RustKeywords: seq<(string, Method)> := [("use ", RustUse), ("extern crate ", RustExternCrate)]
  const PhpKeywords: seq<(string, Method)> :=
    [("use ", PhpUse), ("require_once(", PhpRequire), ("require(", PhpRequire)]
  const RubyKeywords: seq<(string, Method)> :=
    [("require_relative ", RubyRequire), ("require ", RubyRequire), ("include ", RubyInclude)]
  const DartKeywords: seq<(string, Method)> := [("import ", DartImport)]
  const CsharpKeywords: seq<(string, Method)> := [("using ", CsharpUsing)]

  /** `IMPORT_START_KEYWORDS`; TypeScript shares JavaScript's keywords. */
  const ImportStartKeywords: map<string, seq<(string, Method)>> := map[
    "Python" := PythonKeywords,
    "Java" := JavaKeywords,
    "Kotlin" := KotlinKeywords,
    "JavaScript" := JavaScriptKeywords,
    "TypeScript" := JavaScriptKeywords,
    "Go" := GoKeywords,
    "Rust" := RustKeywords,
    "PHP" := PhpKeywords,
    "Ruby" := RubyKeywords,
    "Dart" := DartKeywords,
    "C#" := CsharpKeywords
  ]

  /** The entries of the table that the worked examples use. */
  lemma KeywordEntries()
    ensures ImportStartKeywords["Python"] == PythonKeywords
    ensures ImportStartKeywords["JavaScript"] == JavaScriptKeywords
    ensures ImportStartKeywords["Java"] == JavaKeywords
    ensures "Lua" !in ImportStartKeywords
  {
  }

  /** The text between a pair of matching quotes around the whole of s, when s
      is longer than one character and starts and ends with the same quote. */
  function Unquote(s: string): (r: Option<string>)
    ensures r.Some? ==> |s| >= 2 && (s[0] == '\'' || s[0] == '"') && s[|s| - 1] == s[0]
                        && r.value == s[1..|s| - 1]
    ensures r.None? ==> |s| <= 1 || !((s[0] == '\'' || s[0] == '"') && s[|s| - 1] == s[0])
  {
    if |s| > 1 then
      if StartsWith(s, "'") && EndsWith(s, "'") then Some(s[1..|s| - 1])
      else if StartsWith(s, "\"") && EndsWith(s, "\"") then Some(s[1..|s| - 1])
      else None
    else None
  }

  /** The text before the first ';' and before the first '{' when that comes
      earlier, stripped: the cut shared by Rust `use` and PHP `use`. */
  function NameBeforeTerminator(payload: string): string
  {
    var termSemi := Find(payload, ";");
    var termBrace := Find(payload, "{");
    var end := if termSemi != -1 && termSemi < |payload| then termSemi else |payload|;
    var namePart := Strip(payload[..end]);
    if termBrace != -1 && termBrace < end then Strip(Take(namePart, termBrace)) else namePart
  }

  /** The JavaScript/TypeScript `import` rule: the text between the last two
      occurrences of whichever quote character occurs last. */
  function JsImportName(payload: string): Option<string>
  {
    var lastS := RFind(payload, "'");
    var lastD := RFind(payload, "\"");
    if lastS == -1 && lastD == -1 then
      // the source searches again for a first quote here; see NoQuoteNoFirstQuote
      None
    else if lastS > lastD then
      var start := RFindBefore(payload, "'", lastS);
      if start != -1 then Some(payload[start + 1..lastS]) else None
    else
      var start := RFindBefore(payload, "\"", lastD);
      if start != -1 then Some(payload[start + 1..lastD]) else None
  }

  /** Where no quote occurs the forward search for one finds nothing either,
      so the source's fallback branch of the `import` rule always yields None. */
  lemma NoQuoteNoFirstQuote(payload: string, quote: char)
    requires RFind(payload, [quote]) == -1
    ensures Find(payload, [quote]) == -1
  {
    RFindChar(payload, quote);
    FindChar(payload, quote);
  }

  /** The Dart rule: the text inside the first quote pair (single quotes
      preferred), cut at its first space. */
  function DartImportName(payload: string): Option<string>
  {
    var sQuote := Find(payload, "'");
    var dQuote := Find(payload, "\"");
    if sQuote == -1 && dQuote == -1 then None
    else
      var start := if sQuote != -1 then sQuote else dQuote;
      var quote := if sQuote != -1 then "'" else "\"";
      var end := if start < |payload| then FindFrom(payload, quote, start + 1) else -1;
      if end != -1 then Some(BeforeFirst(payload[start + 1..end], " ")) else None
  }

  /** Python `from`: the first word, cut at its first '.'. */
  function PythonFromCut(payload: string): Option<string>
  {
    match FirstWord(payload)
    case Some(w) => Some(BeforeFirst(w, "."))
    case None => None
  }

  /** Python `import`: the first word, cut at its first ',' and then at its first '.'. */
  function PythonImportCut(payload: string): Option<string>
  {
    match FirstWord(payload)
    case Some(w) => Some(BeforeFirst(Strip(BeforeFirst(w, ",")), "."))
    case None => None
  }

  /** Java, C# and Rust `extern crate`: the text before the first ';', stripped. */
  function SemicolonCut(payload: string): Option<string>
  {
    Some(Strip(BeforeFirst(payload, ";")))
  }

  /** `require(` in JavaScript and PHP: the quoted text before the first ')'. */
  function RequireCut(payload: string): Option<string>
  {
    var endParen := Find(payload, ")");
    if endParen == -1 || endParen > |payload| then None
    else Unquote(Strip(payload[..endParen]))
  }

  /** Go: the text before the closing '"'. */
  function GoCut(payload: string): Option<string>
  {
    var endQuote := Find(payload, "\"");
    if endQuote != -1 && endQuote <= |payload| then Some(payload[..endQuote]) else None
  }

  /** Rust `use`: the path before ';' or '{', cut at its first "::". */
  function RustUseCut(payload: string): Option<string>
  {
    Some(Strip(BeforeFirst(NameBeforeTerminator(payload), "::")))
  }

  /** Ruby `require`: the whole payload, unquoted. */
  function RubyRequireCut(payload: string): Option<string>
  {
    Unquote(Strip(payload))
  }

  /** The per-rule cut of `_extract_module_name`, applied to the non-empty
      stripped text after the keyword. */
  function CutFor(payload: string, rule: Method): Option<string>
  {
    match rule
    case PythonFrom => PythonFromCut(payload)
    case PythonImport => PythonImportCut(payload)
    case JavaStyle => SemicolonCut(payload)
    case CsharpUsing => SemicolonCut(payload)
    case KotlinStyle => Some(payload)
    case JsImport => JsImportName(payload)
    case JsRequire | PhpRequire => RequireCut(payload)
    case GoQuoted => GoCut(payload)
    case RustUse => RustUseCut(payload)
    case RustExternCrate => SemicolonCut(payload)
    case PhpUse => Some(NameBeforeTerminator(payload))
    case RubyRequire => RubyRequireCut(payload)
    case RubyInclude => FirstWord(payload)
    case DartImport => DartImportName(payload)
  }

  /** `_extract_module_name`: the module named by an import line, given the
      keyword it starts with. None stands for Python's None; an empty name
      can come back and is dropped by the caller. */
  function ExtractModuleName(line: string, keyword: string, rule: Method): (r: Option<string>)
    ensures Strip(Drop(line, |keyword|)) == [] ==> r.None?
  {
    var payload := Strip(Drop(line, |keyword|));
    if payload == [] then None else CutFor(payload, rule)
  }

  /** The name is the rule's cut of the stripped text after the keyword. */
  lemma ExtractOfPayload(line: string, keyword: string, rule: Method, body: string)
    requires Drop(line, |keyword|) == body
    requires body != [] && !IsSpace(body[0]) && !IsSpace(body[|body| - 1])
    ensures ExtractModuleName(line, keyword, rule) == CutFor(body, rule)
  {
    StripOfStripped(body);
  }

  /** Lines whose stripped text starts like a comment are skipped. */
  predicate IsCommentLike(stripped: string) {
    StartsWith(stripped, "#") || StartsWith(stripped, "//") || StartsWith(stripped, "--") || StartsWith(stripped, "/*")
  }

  /** The index of the first keyword that prefixes s, or -1. */
  function FirstKeyword(s: string, keywords: seq<(string, Method)>): (k: int)
    ensures -1 <= k < |keywords|
    ensures k >= 0 ==> StartsWith(s, keywords[k].0)
    ensures forall j :: 0 <= j < |keywords| && (k < 0 || j < k) ==> !StartsWith(s, keywords[j].0)
    decreases |keywords|
  {
    if keywords == [] then -1
    else if StartsWith(s, keywords[0].0) then 0
    else
      var k := FirstKeyword(s, keywords[1..]);
      if k < 0 then -1 else k + 1
  }

  /** The name one line contributes: nothing for a blank or comment-like line
      or a line that no keyword starts, otherwise the non-empty name extracted
      with the first matching keyword. */
  function LineImport(line: string, keywords: seq<(string, Method)>): (r: Option<string>)
    ensures r.Some? ==> r.value != []
    ensures r.Some? ==> Strip(line) != [] && !IsCommentLike(Strip(line)) && FirstKeyword(Strip(line), keywords) >= 0
  {
    var stripped := Strip(line);
    if stripped == [] || IsCommentLike(stripped) then None
    else
      var k := FirstKeyword(stripped, keywords);
      if k < 0 then None
      else
        match ExtractModuleName(stripped, keywords[k].0, keywords[k].1)
        case Some(name) => if name != [] then Some(name) else None
        case None => None
  }

  /** The name each line contributes, line by line. */
  function LineImports(lines: seq<string>, keywords: seq<(string, Method)>): (names: seq<Option<string>>)
    ensures |names| == |lines|
    ensures forall i :: 0 <= i < |lines| ==> names[i] == LineImport(lines[i], keywords)
  {
    seq(|lines|, i requires 0 <= i < |lines| => LineImport(lines[i], keywords))
  }

  /** The names present in a sequence of optional names. */
  function Gather(names: seq<Option<string>>): set<string>
    decreases |names|
  {
    if names == [] then {} else Gather(names[..|names| - 1]) + NameSet(names[|names| - 1])
  }

  function NameSet(name: Option<string>): set<string> {
    if name.Some? then {name.value} else {}
  }

  /** The names contributed by a sequence of lines. */
  function ImportsOfLines(lines: seq<string>, keywords: seq<(string, Method)>): set<string>
  {
    Gather(LineImports(lines, keywords))
  }

  lemma ImportsOfLinesStep(lines: seq<string>, i: int, keywords: seq<(string, Method)>)
    requires 0 <= i < |lines|
    ensures ImportsOfLines(lines[..i + 1], keywords)
            == ImportsOfLines(lines[..i], keywords) + NameSet(LineImport(lines[i], keywords))
  {
    var names := LineImports(lines[..i + 1], keywords);
    assert names[..i] == LineImports(lines[..i], keywords);
  }

  /** A name is gathered iff some entry holds it. */
  lemma {:induction false} GatherMember(names: seq<Option<string>>, x: string)
    ensures x in Gather(names) <==> exists i :: 0 <= i < |names| && names[i] == Some(x)
    decreases |names|
  {
    if names != [] {
      var init := names[..|names| - 1];
      GatherMember(init, x);
      if x in Gather(init) {
        var i :| 0 <= i < |init| && init[i] == Some(x);
        assert names[i] == Some(x);
      }
      forall i | 0 <= i < |init| ensures names[i] == init[i] {}
    }
  }

  /** Without keywords no line is an import. */
  lemma NoKeywordsNoImports(lines: seq<string>)
    ensures ImportsOfLines(lines, []) == {}
  {
    forall x | x in ImportsOfLines(lines, []) ensures false {
      ImportsOfLinesMember(lines, [], x);
    }
  }

  /** `find_imports_for_language`: every name found in the lines of the content,
      or nothing for a language without keywords. */
  method FindImportsForLanguage(fileContent: string, language: string) returns (imports: set<string>)
    ensures language !in ImportStartKeywords ==> imports == {}
    ensures language in ImportStartKeywords ==>
              imports == ImportsOfLines(SplitLines(fileContent), ImportStartKeywords[language])
  {
    imports := {};
    if language !in ImportStartKeywords || |ImportStartKeywords[language]| == 0 {
      if language in ImportStartKeywords {
        assert ImportStartKeywords[language] == [];
        NoKeywordsNoImports(SplitLines(fileContent));
      }
      return;
    }
    imports := FindImportsInLines(SplitLines(fileContent), ImportStartKeywords[language]);
  }

  /** The line loop of `find_imports_for_language`: the first keyword that
      prefixes a stripped line decides how its name is extracted; blank and
      comment-like lines are skipped. */
  method FindImportsInLines(lines: seq<string>, keywords: seq<(string, Method)>) returns (imports: set<string>)
    ensures imports == ImportsOfLines(lines, keywords)
  {
    imports := {};
    var i := 0;
    while i < |lines|
      invariant 0 <= i <= |lines|
      invariant imports == ImportsOfLines(lines[..i], keywords)
    {
      ImportsOfLinesStep(lines, i, keywords);
      var stripped := Strip(lines[i]);
      if stripped == [] || IsCommentLike(stripped) {
        i := i + 1;
        continue;
      }
      ghost var before := imports;
      ghost var first := FirstKeyword(stripped, keywords);
      var j := 0;
      while j < |keywords|
        invariant 0 <= j <= |keywords|
        invariant first < 0 || j <= first
        invariant imports == before
      {
        var keyword := keywords[j].0;
        var rule := keywords[j].1;
        if StartsWith(stripped, keyword) {
          assert first == j;
          var moduleName := ExtractModuleName(stripped, keyword, rule);
          if moduleName.Some? && moduleName.value != [] {
            imports := imports + {moduleName.value};
          }
          break;
        }
        j := j + 1;
      }
      assert imports == before + NameSet(LineImport(lines[i], keywords));
      i := i + 1;
    }
    assert lines[..i] == lines;
  }

  /** The text after a keyword is the rest of the line, stripped. */
  lemma PayloadAfterKeyword(keyword: string, body: string)
    ensures Drop(keyword + body, |keyword|) == body
  {
    assert (keyword + body)[|keyword|..] == body;
  }

  /** A word followed by whitespace or the end is the first word of the
      stripped payload. */
  lemma FirstWordOfPayload(w: string, rest: string)
    requires w != [] && NoSpace(w)
    requires rest == [] || IsSpace(rest[0])
    ensures Strip(w + rest) != []
    ensures FirstWord(Strip(w + rest)) == Some(w)
  {
    StripKeepsPrefix(w, rest);
    var t := Strip(w + rest);
    if |t| > |w| {
      assert t[|w|] == (w + rest)[|w|] == rest[0];
    }
    FirstWordPrefix(t, w);
  }

  /** The text before the first '.' of a dotted name. */
  lemma TopLevelPackage(pkg: string, sub: string)
    requires '.' !in pkg
    requires sub == [] || sub[0] == '.'
    ensures BeforeFirst(pkg + sub, ".") == pkg
  {
    if sub == [] {
      assert pkg + sub == pkg;
      ContainsChar(pkg, '.');
    } else {
      assert pkg + sub == pkg + "." + sub[1..];
      FindAfter(pkg, ".", sub[1..]);
    }
  }

  /** The payload of a line starting with keyword + x still starts with x
      when x has no whitespace at either end. */
  lemma PayloadStartsWith(keyword: string, x: string, rest: string)
    requires x != [] && !IsSpace(x[0]) && !IsSpace(x[|x| - 1])
    ensures var payload := Strip(Drop(keyword + x + rest, |keyword|));
            |payload| >= |x| && payload == x + payload[|x|..]
  {
    var line := keyword + x + rest;
    assert Drop(line, |keyword|) == x + rest by {
      assert line[|keyword|..] == x + rest;
    }
    StrippedStartsWith(x, rest);
  }

  lemma StrippedStartsWith(x: string, rest: string)
    requires x != [] && !IsSpace(x[0]) && !IsSpace(x[|x| - 1])
    ensures var payload := Strip(x + rest);
            |payload| >= |x| && payload == x + payload[|x|..]
  {
    StripKeepsPrefix(x, rest);
    var payload := Strip(x + rest);
    assert payload[..|x|] == x;
    assert payload == payload[..|x|] + payload[|x|..];
  }

  /** The payload of a line that is the keyword followed by text with no
      whitespace at either end is that text. */
  lemma PayloadOfTrimmed(keyword: string, body: string)
    requires body != [] && !IsSpace(body[0]) && !IsSpace(body[|body| - 1])
    ensures Strip(Drop(keyword + body, |keyword|)) == body
  {
    PayloadAfterKeyword(keyword, body);
    StripOfStripped(body);
  }

  /** `from pkg.sub import ...` names the top-level package pkg. */
  lemma PythonFromName(pkg: string, sub: string, rest: string)
    requires pkg != [] && NoSpace(pkg) && '.' !in pkg
    requires (sub == [] || sub[0] == '.') && NoSpace(sub)
    requires rest == [] || IsSpace(rest[0])
    ensures ExtractModuleName("from " + pkg + sub + rest, "from ", PythonFrom) == Some(pkg)
  {
    var w := pkg + sub;
    assert "from " + pkg + sub + rest == "from " + (w + rest);
    PayloadAfterKeyword("from ", w + rest);
    FirstWordOfPayload(w, rest);
    TopLevelPackage(pkg, sub);
  }

  /** `import pkg.sub ...` names the top-level package pkg as well. */
  lemma PythonImportName(pkg: string, sub: string, rest: string)
    requires pkg != [] && NoSpace(pkg) && '.' !in pkg && ',' !in pkg
    requires (sub == [] || sub[0] == '.') && NoSpace(sub) && ',' !in sub
    requires rest == [] || IsSpace(rest[0])
    ensures ExtractModuleName("import " + pkg + sub + rest, "import ", PythonImport) == Some(pkg)
  {
    var w := pkg + sub;
    assert "import " + pkg + sub + rest == "import " + (w + rest);
    PayloadAfterKeyword("import ", w + rest);
    FirstWordOfPayload(w, rest);
    PythonImportCutOf(pkg, sub, rest);
  }

  lemma PythonImportCutOf(pkg: string, sub: string, rest: string)
    requires pkg != [] && NoSpace(pkg) && '.' !in pkg && ',' !in pkg
    requires (sub == [] || sub[0] == '.') && NoSpace(sub) && ',' !in sub
    requires rest == [] || IsSpace(rest[0])
    ensures PythonImportCut(Strip(pkg + sub + rest)) == Some(pkg)
  {
    var w := pkg + sub;
    FirstWordOfPayload(w, rest);
    assert BeforeFirst(w, ",") == w by {
      ContainsChar(w, ',');
    }
    assert Strip(w) == w by {
      StripOfStripped(w);
    }
    TopLevelPackage(pkg, sub);
  }

  /** The ';' rule on a payload that starts with name + ";". */
  lemma SemicolonCutOf(name: string, tail: string)
    requires name != [] && !IsSpace(name[0]) && !IsSpace(name[|name| - 1]) && ';' !in name
    ensures SemicolonCut(name + ";" + tail) == Some(name)
  {
    FindAfter(name, ";", tail);
    StripOfStripped(name);
  }

  /** Java `import`, C# `using` and Rust `extern crate` name the text before the
      first ';'. */
  lemma SemicolonTerminatedName(keyword: string, rule: Method, name: string, rest: string)
    requires rule == JavaStyle || rule == CsharpUsing || rule == RustExternCrate
    requires name != [] && !IsSpace(name[0]) && !IsSpace(name[|name| - 1]) && ';' !in name
    ensures ExtractModuleName(keyword + name + ";" + rest, keyword, rule) == Some(name)
  {
    var x := name + ";";
    assert keyword + name + ";" + rest == keyword + x + rest;
    PayloadStartsWith(keyword, x, rest);
    var payload := Strip(Drop(keyword + x + rest, |keyword|));
    var tail := payload[|x|..];
    assert payload == name + ";" + tail;
    SemicolonCutOf(name, tail);
  }

  /** Kotlin keeps the whole stripped payload. */
  lemma KotlinName(name: string)
    requires name != [] && !IsSpace(name[0]) && !IsSpace(name[|name| - 1])
    ensures ExtractModuleName("import " + name, "import ", KotlinStyle) == Some(name)
  {
    PayloadOfTrimmed("import ", name);
  }

  predicate IsQuote(c: char) {
    c == '\'' || c == '"'
  }

  function OtherQuote(q: char): char {
    if q == '\'' then '"' else '\''
  }

  /** A character absent from s[k..] occurs last, if at all, before k. */
  lemma RFindAbsentFrom(s: string, c: char, k: int)
    requires 0 <= k <= |s| && c !in s[k..]
    ensures RFind(s, [c]) < k
  {
    RFindChar(s, c);
  }

  /** The positions of the two quotes around the name. */
  lemma QuotedPositions(pre: string, q: char, name: string, post: string)
    requires q !in pre && q !in name && q !in post
    ensures var payload := pre + [q] + name + [q] + post;
            RFind(payload, [q]) == |pre| + 1 + |name|
            && RFindBefore(payload, [q], |pre| + 1 + |name|) == |pre|
            && payload[|pre| + 1..|pre| + 1 + |name|] == name
  {
    var payload := pre + [q] + name + [q] + post;
    var open := |pre|;
    var close := |pre| + 1 + |name|;
    assert payload[close] == q;
    assert payload[close + 1..] == post;
    RFindChar(payload, q);
    assert payload[..close][open + 1..] == name;
    assert payload[..close][open] == q;
    RFindBeforeChar(payload, q, close);
  }

  /** The `import` rule on text holding one quoted module name after anything
      that has no quote of that kind: the name between the quotes. */
  lemma JsImportQuoted(pre: string, q: char, name: string, post: string)
    requires IsQuote(q) && q !in pre && q !in name && q !in post
    requires OtherQuote(q) !in name && OtherQuote(q) !in post
    ensures JsImportName(pre + [q] + name + [q] + post) == Some(name)
  {
    var payload := pre + [q] + name + [q] + post;
    QuotedPositions(pre, q, name, post);
    assert OtherQuote(q) !in payload[|pre|..] by {
      assert payload[|pre|..] == [q] + name + [q] + post;
      assert OtherQuote(q) != q;
    }
    RFindAbsentFrom(payload, OtherQuote(q), |pre|);
    var close := |pre| + 1 + |name|;
    if q == '\'' {
      assert [q] == "'" && [OtherQuote(q)] == "\"";
      assert RFind(payload, "\"") < |pre| < RFind(payload, "'") == close;
      assert RFindBefore(payload, "'", close) == |pre|;
      assert JsImportName(payload) == Some(payload[|pre| + 1..close]);
    } else {
      assert [q] == "\"" && [OtherQuote(q)] == "'";
      assert RFind(payload, "'") < |pre| < RFind(payload, "\"") == close;
      assert RFindBefore(payload, "\"", close) == |pre|;
      assert JsImportName(payload) == Some(payload[|pre| + 1..close]);
    }
  }

  /** `import ... from 'module';` and `import 'module';` name the module. */
  lemma JsImportModuleName(pre: string, q: char, name: string, post: string)
    requires IsQuote(q) && q !in pre && q !in name && q !in post
    requires OtherQuote(q) !in name && OtherQuote(q) !in post
    requires pre == [] || !IsSpace(pre[0])
    requires post == [] || !IsSpace(post[|post| - 1])
    ensures ExtractModuleName("import " + pre + [q] + name + [q] + post, "import ", JsImport) == Some(name)
  {
    var body := pre + [q] + name + [q] + post;
    var line := "import " + pre + [q] + name + [q] + post;
    assert Drop(line, |"import "|) == body by {
      assert line[|"import "|..] == body;
    }
    assert !IsSpace(body[0]) && !IsSpace(body[|body| - 1]) by {
      assert body[0] == if pre == [] then q else pre[0];
      assert body[|body| - 1] == if post == [] then q else post[|post| - 1];
    }
    assert ExtractModuleName(line, "import ", JsImport) == JsImportName(body) by {
      ExtractOfPayload(line, "import ", JsImport, body);
    }
    assert JsImportName(body) == Some(name) by {
      JsImportQuoted(pre, q, name, post);
    }
  }

  /** The `require(` rule on a payload that starts with a quoted name and ')'. */
  lemma RequireCutOf(q: char, name: string, tail: string)
    requires IsQuote(q) && ')' !in name
    ensures RequireCut([q] + name + [q] + ")" + tail) == Some(name)
  {
    var quoted := [q] + name + [q];
    assert [q] + name + [q] + ")" + tail == quoted + ")" + tail;
    FindAfter(quoted, ")", tail);
    var payload := quoted + ")" + tail;
    assert payload[..|quoted|] == quoted;
    StripOfStripped(quoted);
    assert quoted[1..|quoted| - 1] == name;
  }

  /** `require('module')` names the module, with either quote. */
  lemma RequireName(keyword: string, rule: Method, q: char, name: string, rest: string)
    requires rule == JsRequire || rule == PhpRequire
    requires IsQuote(q) && ')' !in name
    ensures ExtractModuleName(keyword + [q] + name + [q] + ")" + rest, keyword, rule) == Some(name)
  {
    var x := [q] + name + [q] + ")";
    assert keyword + [q] + name + [q] + ")" + rest == keyword + x + rest;
    PayloadStartsWith(keyword, x, rest);
    var payload := Strip(Drop(keyword + x + rest, |keyword|));
    var tail := payload[|x|..];
    assert payload == [q] + name + [q] + ")" + tail;
    RequireCutOf(q, name, tail);
  }

  /** The Go rule on a payload that starts with path + '"'. */
  lemma GoCutOf(path: string, tail: string)
    requires '"' !in path
    ensures GoCut(path + "\"" + tail) == Some(path)
  {
    FindAfter(path, "\"", tail);
    assert (path + "\"" + tail)[..|path|] == path;
  }

  /** Go's `import "path"` names the path. */
  lemma GoImportPath(path: string, rest: string)
    requires '"' !in path && (path == [] || !IsSpace(path[0]))
    ensures ExtractModuleName("import \"" + path + "\"" + rest, "import \"", GoQuoted) == Some(path)
  {
    var x := path + "\"";
    assert x[0] == if path == [] then '"' else path[0];
    assert "import \"" + path + "\"" + rest == "import \"" + x + rest;
    PayloadStartsWith("import \"", x, rest);
    var payload := Strip(Drop("import \"" + x + rest, |"import \""|));
    var tail := payload[|x|..];
    assert payload == path + "\"" + tail;
    GoCutOf(path, tail);
  }

  /** Cutting at the first ';' and '{' keeps the whole of a leading name
      followed by ';' when the name has neither character. */
  lemma NameBeforeTerminatorOf(name: string, tail: string)
    requires name != [] && !IsSpace(name[0]) && !IsSpace(name[|name| - 1])
    requires ';' !in name && '{' !in name
    ensures NameBeforeTerminator(name + ";" + tail) == name
  {
    var payload := name + ";" + tail;
    FindAfter(name, ";", tail);
    FindChar(payload, '{');
    assert payload[..|name|] == name;
    StripOfStripped(name);
  }

  /** PHP `use Name;` names the namespace path before the ';'. */
  lemma PhpUseName(name: string, rest: string)
    requires name != [] && !IsSpace(name[0]) && !IsSpace(name[|name| - 1])
    requires ';' !in name && '{' !in name
    ensures ExtractModuleName("use " + name + ";" + rest, "use ", PhpUse) == Some(name)
  {
    var x := name + ";";
    assert "use " + name + ";" + rest == "use " + x + rest;
    PayloadStartsWith("use ", x, rest);
    var payload := Strip(Drop("use " + x + rest, |"use "|));
    var tail := payload[|x|..];
    assert payload == name + ";" + tail;
    NameBeforeTerminatorOf(name, tail);
  }

  /** The Rust `use` rule on "crate::path;": the crate. */
  lemma RustUseCutOf(crate: string, path: string, tail: string)
    requires crate != [] && !IsSpace(crate[0]) && !IsSpace(crate[|crate| - 1])
    requires ':' !in crate && ';' !in crate && '{' !in crate
    requires path != [] && !IsSpace(path[|path| - 1]) && ';' !in path && '{' !in path
    ensures RustUseCut(crate + "::" + path + ";" + tail) == Some(crate)
  {
    var name := crate + "::" + path;
    assert name[0] == crate[0] && name[|name| - 1] == path[|path| - 1];
    assert ';' !in name && '{' !in name;
    assert crate + "::" + path + ";" + tail == name + ";" + tail;
    NameBeforeTerminatorOf(name, tail);
    FindAfter(crate, "::", path);
    StripOfStripped(crate);
  }

  /** Rust `use crate::path;` names the crate. */
  lemma RustUseCrate(crate: string, path: string, rest: string)
    requires crate != [] && !IsSpace(crate[0]) && !IsSpace(crate[|crate| - 1])
    requires ':' !in crate && ';' !in crate && '{' !in crate
    requires path != [] && !IsSpace(path[|path| - 1]) && ';' !in path && '{' !in path
    ensures ExtractModuleName("use " + crate + "::" + path + ";" + rest, "use ", RustUse) == Some(crate)
  {
    var x := crate + "::" + path + ";";
    assert x[0] == crate[0];
    assert "use " + crate + "::" + path + ";" + rest == "use " + x + rest;
    PayloadStartsWith("use ", x, rest);
    var payload := Strip(Drop("use " + x + rest, |"use "|));
    var tail := payload[|x|..];
    assert payload == crate + "::" + path + ";" + tail;
    RustUseCutOf(crate, path, tail);
  }

  /** Ruby `require 'gem'` and `require_relative 'path'` name the quoted text. */
  lemma RubyRequireName(keyword: string, q: char, name: string)
    requires IsQuote(q)
    ensures ExtractModuleName(keyword + ([q] + name + [q]), keyword, RubyRequire) == Some(name)
  {
    var body := [q] + name + [q];
    var line := keyword + body;
    assert ExtractModuleName(line, keyword, RubyRequire) == RubyRequireCut(body) by {
      assert body[0] == q && body[|body| - 1] == q && !IsSpace(q);
      PayloadAfterKeyword(keyword, body);
      ExtractOfPayload(line, keyword, RubyRequire, body);
    }
    RubyRequireCutOf(q, name);
  }

  lemma RubyRequireCutOf(q: char, name: string)
    requires IsQuote(q)
    ensures RubyRequireCut([q] + name + [q]) == Some(name)
  {
    var body := [q] + name + [q];
    StripOfStripped(body);
    assert body[1..|body| - 1] == name;
  }

  /** Ruby `include Module` names the first word. */
  lemma RubyIncludeName(w: string, rest: string)
    requires w != [] && NoSpace(w)
    requires rest == [] || IsSpace(rest[0])
    ensures ExtractModuleName("include " + w + rest, "include ", RubyInclude) == Some(w)
  {
    assert "include " + w + rest == "include " + (w + rest);
    PayloadAfterKeyword("include ", w + rest);
    FirstWordOfPayload(w, rest);
  }

  /** The Dart rule on "'uri'..." where the uri has no space. */
  lemma DartCutOf(name: string, tail: string)
    requires '\'' !in name && ' ' !in name
    ensures DartImportName("'" + name + "'" + tail) == Some(name)
  {
    var payload := "'" + name + "'" + tail;
    var rest := name + "'" + tail;
    assert payload[1..] == rest;
    assert StartsWith(payload, "'") by {
      assert payload[..1] == "'";
    }
    assert Find(payload, "'") == 0;
    FindAfter(name, "'", tail);
    assert FindFrom(payload, "'", 1) == 1 + |name|;
    assert payload[1..1 + |name|] == name;
    ContainsChar(name, ' ');
  }

  /** Dart `import 'uri';` names the uri when it has no space. */
  lemma DartImportUri(name: string, rest: string)
    requires '\'' !in name && ' ' !in name
    ensures ExtractModuleName("import '" + name + "'" + rest, "import ", DartImport) == Some(name)
  {
    var x := "'" + name + "'";
    assert "import '" + name + "'" + rest == "import " + x + rest;
    PayloadStartsWith("import ", x, rest);
    var payload := Strip(Drop("import " + x + rest, |"import "|));
    var tail := payload[|x|..];
    assert payload == "'" + name + "'" + tail;
    DartCutOf(name, tail);
  }

  /** A name is found in the lines iff some line yields it. */
  lemma ImportsOfLinesMember(lines: seq<string>, keywords: seq<(string, Method)>, x: string)
    ensures x in ImportsOfLines(lines, keywords) <==>
              exists i :: 0 <= i < |lines| && LineImport(lines[i], keywords) == Some(x)
  {
    GatherMember(LineImports(lines, keywords), x);
  }

  /** No keyword of the list is a prefix of another one. */
  predicate PrefixFree(keywords: seq<(string, Method)>) {
    forall i, j :: 0 <= i < |keywords| && 0 <= j < |keywords| && i != j ==>
      !StartsWith(keywords[i].0, keywords[j].0)
  }

  /** A keyword list is prefix-free when no two of its keywords agree on the
      length of the shorter one. */
  lemma PrefixFreeByMismatch(keywords: seq<(string, Method)>)
    requires forall i, j :: 0 <= i < |keywords| && 0 <= j < |keywords| && i != j ==>
               exists k :: 0 <= k < |keywords[i].0| && k < |keywords[j].0| && keywords[i].0[k] != keywords[j].0[k]
    ensures PrefixFree(keywords)
  {
  }

  /** The keyword lists of every language are prefix-free. */
  lemma ListsPrefixFree()
    ensures PrefixFree(PythonKeywords) && PrefixFree(JavaKeywords) && PrefixFree(KotlinKeywords)
    ensures PrefixFree(JavaScriptKeywords) && PrefixFree(GoKeywords) && PrefixFree(RustKeywords)
    ensures PrefixFree(PhpKeywords) && PrefixFree(RubyKeywords) && PrefixFree(DartKeywords)
    ensures PrefixFree(CsharpKeywords)
  {
    assert PythonKeywords[0].0[0] != PythonKeywords[1].0[0];
    assert JavaScriptKeywords[0].0[0] != JavaScriptKeywords[1].0[0];
    assert RustKeywords[0].0[0] != RustKeywords[1].0[0];
    assert PhpKeywords[0].0[0] != PhpKeywords[1].0[0];
    assert PhpKeywords[0].0[0] != PhpKeywords[2].0[0];
    assert PhpKeywords[1].0[7] != PhpKeywords[2].0[7];
    assert RubyKeywords[0].0[7] != RubyKeywords[1].0[7];
    assert RubyKeywords[0].0[0] != RubyKeywords[2].0[0];
    assert RubyKeywords[1].0[0] != RubyKeywords[2].0[0];
  }

  lemma KeywordsPrefixFree(language: string)
    requires language in ImportStartKeywords
    ensures PrefixFree(ImportStartKeywords[language])
  {
    ListsPrefixFree();
  }

  /** With a prefix-free list the order of the keywords does not matter:
      whichever keyword a line starts with is the one that is used. */
  lemma FirstKeywordOfPrefixFree(s: string, keywords: seq<(string, Method)>, k: int)
    requires PrefixFree(keywords) && 0 <= k < |keywords| && StartsWith(s, keywords[k].0)
    ensures FirstKeyword(s, keywords) == k
  {
  }

  /** An indented line whose text starts with one of the keywords yields the
      extracted name, whatever the keyword's place in the list. */
  lemma LineImportOf(ws: string, body: string, keywords: seq<(string, Method)>, k: int, name: string)
    requires forall j :: 0 <= j < |ws| ==> IsSpace(ws[j])
    requires body != [] && !IsSpace(body[0]) && !IsSpace(body[|body| - 1]) && !IsCommentLike(body)
    requires PrefixFree(keywords) && 0 <= k < |keywords| && StartsWith(body, keywords[k].0)
    requires ExtractModuleName(body, keywords[k].0, keywords[k].1) == Some(name) && name != []
    ensures LineImport(ws + body, keywords) == Some(name)
  {
    StripIndented(ws, body);
    FirstKeywordOfPrefixFree(body, keywords, k);
  }

  /** A line that no keyword starts yields nothing. */
  lemma LineWithoutKeyword(ws: string, body: string, keywords: seq<(string, Method)>)
    requires forall j :: 0 <= j < |ws| ==> IsSpace(ws[j])
    requires body != [] && !IsSpace(body[0]) && !IsSpace(body[|body| - 1])
    requires forall k :: 0 <= k < |keywords| ==> !StartsWith(body, keywords[k].0)
    ensures LineImport(ws + body, keywords) == None
  {
    StripIndented(ws, body);
  }

  /** A comment-like line yields nothing. */
  lemma CommentLine(ws: string, body: string, keywords: seq<(string, Method)>)
    requires forall j :: 0 <= j < |ws| ==> IsSpace(ws[j])
    requires body != [] && !IsSpace(body[0]) && !IsSpace(body[|body| - 1]) && IsCommentLike(body)
    ensures LineImport(ws + body, keywords) == None
  {
    StripIndented(ws, body);
  }

  const Indent: string := "    "

  /** A Python line: the keyword it starts with decides the rule. */
  lemma PythonLine(ws: string, body: string, k: int, name: string)
    requires forall j :: 0 <= j < |ws| ==> IsSpace(ws[j])
    requires body != [] && !IsSpace(body[0]) && !IsSpace(body[|body| - 1]) && !IsCommentLike(body)
    requires k == 0 || k == 1
    requires StartsWith(body, if k == 0 then "from " else "import ")
    requires ExtractModuleName(body, if k == 0 then "from " else "import ", if k == 0 then PythonFrom else PythonImport) == Some(name)
    requires name != []
    ensures LineImport(ws + body, PythonKeywords) == Some(name)
  {
    ListsPrefixFree();
    LineImportOf(ws, body, PythonKeywords, k, name);
  }

  /** The commented-out import in the Python sample names nothing. */
  lemma PythonSampleComment()
    ensures LineImport(Indent + "# import commented_out", PythonKeywords) == None
  {
    CommentLine(Indent, "# import commented_out", PythonKeywords);
  }

  /** A JavaScript line: the keyword it starts with decides the rule. */
  lemma JavaScriptLine(ws: string, body: string, k: int, name: string)
    requires forall j :: 0 <= j < |ws| ==> IsSpace(ws[j])
    requires body != [] && !IsSpace(body[0]) && !IsSpace(body[|body| - 1]) && !IsCommentLike(body)
    requires k == 0 || k == 1
    requires StartsWith(body, if k == 0 then "import " else "require(")
    requires ExtractModuleName(body, if k == 0 then "import " else "require(", if k == 0 then JsImport else JsRequire) == Some(name)
    requires name != []
    ensures LineImport(ws + body, JavaScriptKeywords) == Some(name)
  {
    ListsPrefixFree();
    LineImportOf(ws, body, JavaScriptKeywords, k, name);
  }

  /** An assignment from `require(...)` starts with no keyword, so the
      JavaScript sample's `fs` is not found. */
  lemma JavaScriptSampleRequire()
    ensures LineImport(Indent + "const fs = require('fs');", JavaScriptKeywords) == None
  {
    var body := "const fs = require('fs');";
    assert !StartsWith(body, "import ") && !StartsWith(body, "require(") by {
      assert body[0] == 'c';
    }
    LineWithoutKeyword(Indent, body, JavaScriptKeywords);
  }

  /** A Java line starting with `import `. */
  lemma JavaLine(ws: string, body: string, name: string)
    requires forall j :: 0 <= j < |ws| ==> IsSpace(ws[j])
    requires body != [] && !IsSpace(body[0]) && !IsSpace(body[|body| - 1]) && !IsCommentLike(body)
    requires StartsWith(body, "import ")
    requires ExtractModuleName(body, "import ", JavaStyle) == Some(name) && name != []
    ensures LineImport(ws + body, JavaKeywords) == Some(name)
  {
    ListsPrefixFree();
    LineImportOf(ws, body, JavaKeywords, 0, name);
  }


}
