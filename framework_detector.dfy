/** The framework detector: the language of a file from its extension (with
    a content check for React), and the frameworks of a file from the imports
    it makes. The TF-IDF similarity between a file's imports and each
    framework's import list is a parameter of the model. */
module FrameworkDetector {
  import opened Wrappers
  import opened Strings
  import opened Dicts
  import opened Models
  import opened ImportDetector

  /** The language of each (undotted, lower-case) extension. */
  const ExtensionToLanguage: map<string, string> := map[
    "js" := "JavaScript", "jsx" := "JavaScript (React)",
    "ts" := "TypeScript", "tsx" := "TypeScript (React)",
    "py" := "Python", "pyi" := "Python", "pyx" := "Python (Cython)",
    "go" := "Go",
    "rs" := "Rust",
    "rb" := "Ruby", "erb" := "Ruby (ERB)",
    "php" := "PHP",
    "java" := "Java",
    "kt" := "Kotlin", "kts" := "Kotlin",
    "c" := "C", "cpp" := "C++", "cc" := "C++", "h" := "C/C++ Header", "hpp" := "C++ Header",
    "cs" := "C#",
    "swift" := "Swift",
    "html" := "HTML", "htm" := "HTML", "css" := "CSS", "scss" := "SCSS", "sass" := "Sass", "less" := "Less",
    "sh" := "Shell", "bash" := "Bash", "zsh" := "Zsh",
    "dart" := "Dart",
    "xml" := "XML", "json" := "JSON", "yaml" := "YAML", "yml" := "YAML", "md" := "Markdown",
    "sql" := "SQL", "r" := "R", "pl" := "Perl", "lua" := "Lua", "ex" := "Elixir", "exs" := "Elixir",
    "erl" := "Erlang", "scala" := "Scala", "groovy" := "Groovy", "clj" := "Clojure", "fs" := "F#"
  ]

  /** The frameworks and the imports that characterise them, in the order the
      dictionary display lists them. */
  const FrameworkImportEntries: seq<(string, seq<string>)> := [
    ("React", ["react", "react-dom", "react-router", "redux", "react-redux"]),
    ("Vue", ["vue", "vue-router", "vuex", "vuetify", "@vue/"]),
    ("Angular", ["@angular/", "angular", "ng-"]),
    ("Next.js", ["next", "next/router", "next/link", "next/image"]),
    ("Express", ["express", "express-session", "body-parser", "import express from 'express';", "express from"]),
    ("NestJS", ["@nestjs/"]),
    ("jQuery", ["jquery", "$"]),
    ("D3.js", ["d3"]),
    ("Three.js", ["three"]),
    ("Jest", ["jest", "@testing-library/"]),
    ("Django", ["django", "django.db", "django.contrib", "django.urls"]),
    ("Flask", ["flask", "flask_", "flask."]),
    ("FastAPI", ["fastapi", "pydantic", "starlette"]),
    ("Pandas", ["pandas", "numpy"]),
    ("Pytest", ["pytest"]),
    ("SQLAlchemy", ["sqlalchemy"]),
    ("PyTorch", ["torch", "torchvision"]),
    ("TensorFlow", ["tensorflow", "tf."]),
    ("Streamlit", ["streamlit"]),
    ("Spring", ["org.springframework", "springframework"]),
    ("Hibernate", ["org.hibernate", "javax.persistence", "jakarta.persistence"]),
    ("JUnit", ["org.junit", "junit."]),
    ("Mockito", ["org.mockito", "mockito"]),
    ("Gin", ["github.com/gin-gonic/gin", "gin"]),
    ("Echo", ["github.com/labstack/echo", "echo"]),
    ("Fiber", ["github.com/gofiber/fiber", "fiber"]),
    ("GORM", ["gorm.io/gorm", "gorm"]),
    ("Cobra", ["github.com/spf13/cobra"]),
    ("Rocket", ["rocket", "rocket::"]),
    ("Actix", ["actix_web", "actix::"]),
    ("Tokio", ["tokio", "tokio::"]),
    ("Serde", ["serde", "serde_json"]),
    ("Axum", ["axum"]),
    ("Laravel", ["Illuminate\\", "Laravel\\"]),
    ("Symfony", ["Symfony\\", "symfony"]),
    ("WordPress", ["wp_", "WP_"]),
    ("Rails", ["Rails", "ActiveRecord", "ActionController", "ActionView"]),
    ("Sinatra", ["Sinatra", "sinatra"]),
    ("ASP.NET", ["Microsoft.AspNetCore", "System.Web"]),
    ("Entity Framework", ["Microsoft.EntityFrameworkCore", "System.Data.Entity"]),
    ("LINQ", ["System.Linq"]),
    ("Flutter", ["flutter", "material.dart", "widgets.dart"]),
    ("React Native", ["react-native", "ReactNative"]),
    ("Ktor", ["io.ktor", "ktor", "io.ktor.server", "io.ktor.server.plugins", "io.ktor.server.application.*"])
  ]

  /** A dictionary display: its pairs are assigned left to right, so a
      repeated key keeps its first position and its last value. */
  function DictOf<K(==), V>(entries: seq<(K, V)>): (d: Dict<K, V>)
    ensures |d| <= |entries|
    decreases |entries|
  {
    if entries == [] then []
    else
      var last := entries[|entries| - 1];
      var d := DictOf(entries[..|entries| - 1]);
      Put(d, last.0, last.1)
  }

  /** The keys of a dictionary display are distinct, whatever the display lists. */
  lemma {:induction false} DictOfDistinct<K, V>(entries: seq<(K, V)>)
    ensures DistinctKeys(DictOf(entries))
    decreases |entries|
  {
    if entries != [] {
      var last := entries[|entries| - 1];
      DictOfDistinct(entries[..|entries| - 1]);
      GetPut(DictOf(entries[..|entries| - 1]), last.0, last.1, last.0);
    }
  }

  const FrameworkImports: Dict<string, seq<string>> := DictOf(FrameworkImportEntries)

  /** score > Threshold selects a framework. */
  const Threshold: real := 0.1

  /** The detector's state after construction: one document per framework
      (its imports joined by spaces) and the framework names in the same
      order. The fitted TF-IDF vectoriser is not modelled. */
  datatype Detector = Detector(frameworkDocs: Dict<string, string>, frameworkNames: seq<string>)

  predicate Distinct(xs: seq<string>) {
    forall i, j :: 0 <= i < j < |xs| ==> xs[i] != xs[j]
  }

  /** `FileInfoFrameworkDetector.__init__` */
  method NewDetector() returns (d: Detector)
    ensures |d.frameworkDocs| == |FrameworkImports|
    ensures forall i :: 0 <= i < |FrameworkImports| ==>
              d.frameworkDocs[i] == (FrameworkImports[i].0, Join(FrameworkImports[i].1, " "))
    ensures |d.frameworkNames| == |FrameworkImports|
    ensures forall i :: 0 <= i < |FrameworkImports| ==> d.frameworkNames[i] == FrameworkImports[i].0
    ensures Distinct(d.frameworkNames)
  {
    DictOfDistinct(FrameworkImportEntries);
    d := BuildDetector(FrameworkImports);
  }

  /** The construction loop over any framework table with distinct keys. */
  method BuildDetector(imports: Dict<string, seq<string>>) returns (d: Detector)
    requires DistinctKeys(imports)
    ensures |d.frameworkDocs| == |imports|
    ensures forall i :: 0 <= i < |imports| ==> d.frameworkDocs[i] == (imports[i].0, Join(imports[i].1, " "))
    ensures |d.frameworkNames| == |imports|
    ensures forall i :: 0 <= i < |imports| ==> d.frameworkNames[i] == imports[i].0
    ensures Distinct(d.frameworkNames)
  {
    var docs: Dict<string, string> := [];
    var i := 0;
    while i < |imports|
      invariant 0 <= i <= |imports|
      invariant |docs| == i
      invariant forall m :: 0 <= m < i ==> docs[m] == (imports[m].0, Join(imports[m].1, " "))
    {
      var framework := imports[i].0;
      assert framework !in Keys(docs) by {
        forall m | 0 <= m < i
          ensures docs[m].0 != framework
        {
        }
      }
      docs := Put(docs, framework, Join(imports[i].1, " "));
      i := i + 1;
    }
    var names := seq(|docs|, k requires 0 <= k < |docs| => docs[k].0);
    d := Detector(docs, names);
  }

  /** The dotted extensions the React special case compares against. */
  predicate IsScriptExtension(ext: string) {
    ext == ".js" || ext == ".jsx" || ext == ".ts" || ext == ".tsx"
  }

  /** The content is present, non-empty and imports React in one of the three
      spellings the language check knows (case-sensitive). */
  predicate ImportsReact(content: Option<string>) {
    content.Some? && content.value != []
    && (Contains(content.value, "import React") || Contains(content.value, "from 'react'")
        || Contains(content.value, "from \"react\""))
  }

  function LookupLanguage(ext: string): string {
    if ext in ExtensionToLanguage then ExtensionToLanguage[ext] else "Unknown"
  }

  /** `detect_language`: a script extension always gets one of the four script
      languages; DetectLanguageUndotted and DetectLanguageDotted state which. */
  function DetectLanguage(f: FileInfo): (language: string)
    ensures IsScriptExtension(Lower(f.fileExtension)) ==>
              language in {"JavaScript", "JavaScript (React)", "TypeScript", "TypeScript (React)"}
  {
    var ext := Lower(f.fileExtension);
    if IsScriptExtension(ext) then
      if ext == ".jsx" || ext == ".tsx" || ImportsReact(f.content) then
        if ext == ".ts" || ext == ".tsx" then "TypeScript (React)" else "JavaScript (React)"
      else if ext == ".ts" || ext == ".tsx" then "TypeScript"
      else "JavaScript"
    else LookupLanguage(ext)
  }

  /** Only the lower-cased extension matters: two files whose extensions differ
      only in case, with the same content, get the same language. */
  lemma DetectLanguageCaseInsensitive(f: FileInfo, g: FileInfo)
    requires Lower(f.fileExtension) == Lower(g.fileExtension) && f.content == g.content
    ensures DetectLanguage(f) == DetectLanguage(g)
  {
  }

  /** Lower-casing keeps a leading '.' and never makes one. */
  lemma LowerKeepsDot(s: string)
    ensures (s != [] && s[0] == '.') <==> (Lower(s) != [] && Lower(s)[0] == '.')
  {
  }

  /** An extension without a leading dot, as the commit reader produces, never
      takes the React branch: the language is the table entry of the
      lower-cased extension, or "Unknown". */
  lemma {:induction false} DetectLanguageUndotted(f: FileInfo)
    requires f.fileExtension == [] || f.fileExtension[0] != '.'
    ensures DetectLanguage(f) == LookupLanguage(Lower(f.fileExtension))
  {
    LowerKeepsDot(f.fileExtension);
  }

  /** The dotted script extensions: .jsx and .tsx always give the React variant;
      .js and .ts give it exactly when the content imports React. */
  lemma DetectLanguageDotted(f: FileInfo)
    requires IsScriptExtension(Lower(f.fileExtension))
    ensures Lower(f.fileExtension) == ".jsx" ==> DetectLanguage(f) == "JavaScript (React)"
    ensures Lower(f.fileExtension) == ".tsx" ==> DetectLanguage(f) == "TypeScript (React)"
    ensures Lower(f.fileExtension) == ".js" ==>
              DetectLanguage(f) == if ImportsReact(f.content) then "JavaScript (React)" else "JavaScript"
    ensures Lower(f.fileExtension) == ".ts" ==>
              DetectLanguage(f) == if ImportsReact(f.content) then "TypeScript (React)" else "TypeScript"
  {
  }

  /** The names whose score is above the threshold, in the given order. */
  function Selected(names: seq<string>, imports: set<string>, score: (set<string>, string) -> real): (sel: seq<string>)
    ensures forall x :: x in sel <==> x in names && score(imports, x) > Threshold
    decreases |names|
  {
    if names == [] then []
    else
      var rest := Selected(names[1..], imports, score);
      assert forall x :: x in names <==> x == names[0] || x in names[1..];
      if score(imports, names[0]) > Threshold then [names[0]] + rest else rest
  }

  /** Selecting from distinct names gives distinct names. */
  lemma {:induction false} SelectedDistinct(names: seq<string>, imports: set<string>, score: (set<string>, string) -> real)
    requires Distinct(names)
    ensures Distinct(Selected(names, imports, score))
    decreases |names|
  {
    if names != [] {
      SelectedDistinct(names[1..], imports, score);
      assert names[0] !in names[1..] by {
        forall k | 0 <= k < |names| - 1
          ensures names[1..][k] != names[0]
        {
          assert names[1..][k] == names[k + 1];
        }
      }
    }
  }

  function LowerAll(xs: seq<string>): (ys: seq<string>)
    ensures |ys| == |xs| && forall i :: 0 <= i < |xs| ==> ys[i] == Lower(xs[i])
  {
    seq(|xs|, i requires 0 <= i < |xs| => Lower(xs[i]))
  }

  /** The lower-cased content shows React in one of the six ways the
      framework check knows. */
  predicate ShowsReact(content: string) {
    Contains(content, "import react") || Contains(content, "from 'react'") || Contains(content, "from \"react\"")
    || Contains(content, "react.component") || Contains(content, "usestate") || Contains(content, "useeffect")
  }

  /** The lower-cased content shows Django; `and` binds tighter than `or`. */
  predicate ShowsDjango(content: string) {
    Contains(content, "from django") || Contains(content, "import django") || Contains(content, "models.model")
    || (Contains(content, "class meta:") && Contains(content, "class") && Contains(content, "models."))
  }

  predicate IsScriptLanguage(lang: string) {
    Contains(Lower(lang), "javascript") || Contains(Lower(lang), "typescript")
  }

  /** The React override: appended to a JavaScript or TypeScript file's list
      when no selected name is "react" in any case and the content shows it. */
  predicate AddsReact(lang: string, content: string, selected: seq<string>) {
    IsScriptLanguage(lang) && "react" !in LowerAll(selected) && ShowsReact(content)
  }

  /** The Django override: appended to a Python file's list when absent and
      the content shows it. */
  predicate AddsDjango(lang: string, content: string, frameworks: seq<string>) {
    lang == "Python" && "Django" !in frameworks && ShowsDjango(content)
  }

  /** The imports `find_imports_for_language` finds for a file's language;
      a missing language has no keywords. */
  function ContentImports(content: string, language: Option<string>): set<string> {
    if language.Some? && language.value in ImportStartKeywords then
      ImportsOfLines(SplitLines(content), ImportStartKeywords[language.value])
    else {}
  }

  /** The overrides applied to the selected names. */
  function WithOverrides(lang: string, content: string, selected: seq<string>): seq<string> {
    var withReact := if AddsReact(lang, content, selected) then selected + ["React"] else selected;
    if AddsDjango(lang, content, withReact) then withReact + ["Django"] else withReact
  }

  /** The list `detect_frameworks` returns. */
  function Frameworks(d: Detector, f: FileInfo, score: (set<string>, string) -> real): seq<string> {
    if f.content.None? || f.content.value == [] then []
    else
      var imports := ContentImports(f.content.value, f.language);
      if imports == {} then []
      else WithOverrides(DetectLanguage(f), Lower(f.content.value), Selected(d.frameworkNames, imports, score))
  }

  /** `detect_frameworks`: the names scoring above the threshold in detector
      order, then the React and Django overrides. */
  method DetectFrameworks(d: Detector, f: FileInfo, score: (set<string>, string) -> real) returns (frameworks: seq<string>)
    ensures frameworks == Frameworks(d, f, score)
  {
    if f.content.None? || f.content.value == [] {
      return [];
    }
    var imports: set<string> := {};
    if f.language.Some? {
      imports := FindImportsForLanguage(f.content.value, f.language.value);
    }
    if imports == {} {
      return [];
    }
    frameworks := Selected(d.frameworkNames, imports, score);
    ghost var selected := frameworks;
    var lang := DetectLanguage(f);
    var content := Lower(f.content.value);
    if IsScriptLanguage(lang) {
      if "react" !in LowerAll(frameworks) {
        if ShowsReact(content) {
          frameworks := frameworks + ["React"];
        }
      }
    }
    if lang == "Python" && "Django" !in frameworks {
      if ShowsDjango(content) {
        frameworks := frameworks + ["Django"];
      }
    }
    assert frameworks == WithOverrides(lang, content, selected);
  }

  /** No content, or no import found, gives no frameworks and no override fires. */
  lemma NothingWithoutImports(d: Detector, f: FileInfo, score: (set<string>, string) -> real)
    requires f.content.None? || f.content.value == [] || ContentImports(f.content.value, f.language) == {}
    ensures Frameworks(d, f, score) == []
  {
  }

  /** The overrides append React only under its three conditions and Django
      only under its own, in that order. */
  lemma OverridesShape(lang: string, content: string, selected: seq<string>)
    ensures var withReact := selected + (if AddsReact(lang, content, selected) then ["React"] else []);
            WithOverrides(lang, content, selected)
            == withReact + (if AddsDjango(lang, content, withReact) then ["Django"] else [])
  {
  }

  /** "class meta:" begins with "class", so the middle conjunct of the Django
      test is implied by the first. */
  lemma ClassMetaHasClass(content: string)
    ensures Contains(content, "class meta:") ==> Contains(content, "class")
  {
    if Contains(content, "class meta:") {
      var i := Find(content, "class meta:");
      assert content[i..][..5] == content[i..][..11][..5];
      assert OccursAt(content, "class", i);
    }
  }

  /** The overrides never add a name twice. */
  lemma OverridesDistinct(lang: string, content: string, selected: seq<string>)
    requires Distinct(selected)
    ensures Distinct(WithOverrides(lang, content, selected))
  {
    var withReact := if AddsReact(lang, content, selected) then selected + ["React"] else selected;
    if AddsReact(lang, content, selected) {
      assert "React" !in selected by {
        assert Lower("React") == "react";
        forall i | 0 <= i < |selected|
          ensures selected[i] != "React"
        {
          assert LowerAll(selected)[i] == Lower(selected[i]);
        }
      }
      AppendFresh(selected, "React");
    }
    if AddsDjango(lang, content, withReact) {
      AppendFresh(withReact, "Django");
    }
  }

  /** With distinct detector names, the returned list has no duplicates. */
  lemma FrameworksDistinct(d: Detector, f: FileInfo, score: (set<string>, string) -> real)
    requires Distinct(d.frameworkNames)
    ensures Distinct(Frameworks(d, f, score))
  {
    if f.content.Some? && f.content.value != [] && ContentImports(f.content.value, f.language) != {} {
      var imports := ContentImports(f.content.value, f.language);
      SelectedDistinct(d.frameworkNames, imports, score);
      OverridesDistinct(DetectLanguage(f), Lower(f.content.value), Selected(d.frameworkNames, imports, score));
    }
  }

  lemma AppendFresh(xs: seq<string>, x: string)
    requires Distinct(xs) && x !in xs
    ensures Distinct(xs + [x])
  {
  }

  /** `process_file_info`: only the frameworks are replaced. */
  method ProcessFileInfo(d: Detector, f: FileInfo, score: (set<string>, string) -> real) returns (r: FileInfo)
    ensures r.frameworks == Some(Frameworks(d, f, score))
    ensures r.filePath == f.filePath && r.fileExtension == f.fileExtension && r.language == f.language
    ensures r.lineCount == f.lineCount && r.charCount == f.charCount
    ensures r.additions == f.additions && r.deletions == f.deletions && r.content == f.content
  {
    var frameworks := DetectFrameworks(d, f, score);
    r := f.(frameworks := Some(frameworks));
  }
}
