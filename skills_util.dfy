/** The skills classifier of the commit pipeline: each changed file gets the
    language its extension stands for, and the files without one are the
    excluded ones. */
module SkillsUtil {
  import opened Wrappers
  import opened Dicts
  import opened Models

  /** `extension_to_language`: the language of each extension, matched
      exactly (no lower-casing). */
  const ExtensionToLanguage: map<string, string> := map[
    "py" := "Python", "js" := "JavaScript", "ts" := "TypeScript", "java" := "Java", "c" := "C",
    "cpp" := "C++", "h" := "C++", "cs" := "C#", "go" := "Go", "rb" := "Ruby", "php" := "PHP",
    "swift" := "Swift", "kt" := "Kotlin", "kts" := "Kotlin", "rs" := "Rust",
    "scala" := "Scala", "pl" := "Perl", "lua" := "Lua", "sh" := "Shell", "bash" := "Shell",
    "ps1" := "PowerShell", "r" := "R", "dart" := "Dart", "m" := "Objective-C", "jl" := "Julia",
    "f90" := "Fortran", "f95" := "Fortran", "f03" := "Fortran", "f08" := "Fortran",
    "f" := "Fortran", "hs" := "Haskell", "erl" := "Erlang", "ex" := "Elixir",
    "exs" := "Elixir", "clj" := "Clojure", "scm" := "Scheme", "lisp" := "Lisp",
    "asm" := "Assembly", "s" := "Assembly", "vb" := "Visual Basic",
    "vba" := "Visual Basic for Applications", "sql" := "SQL", "groovy" := "Groovy",
    "nim" := "Nim", "zig" := "Zig", "coffee" := "CoffeeScript", "tsx" := "TypeScript",
    "jsx" := "JavaScript", "vue" := "Vue", "svelte" := "Svelte", "ipynb" := "Jupyter Notebook",
    "mjs" := "JavaScript", "cjs" := "JavaScript", "pyspark" := "Python", "tcl" := "Tcl",
    "ada" := "Ada", "pas" := "Pascal", "cob" := "COBOL"
  ]

  /** `extension_to_language.get(ext, None)` */
  function LanguageOfExtension(ext: string): Option<string> {
    if ext in ExtensionToLanguage then Some(ExtensionToLanguage[ext]) else None
  }

  /** `identify_language`: an exact, case-sensitive lookup of the extension. */
  function IdentifyLanguage(f: FileInfo): Option<string> {
    LanguageOfExtension(f.fileExtension)
  }

  /** The file with its language set from its extension. */
  function Labelled(f: FileInfo): FileInfo {
    f.(language := IdentifyLanguage(f))
  }

  /** Every file of the dict labelled, in place. */
  function LabelAll(files: Dict<string, FileInfo>): (r: Dict<string, FileInfo>)
    ensures |r| == |files|
    ensures forall i :: 0 <= i < |files| ==> r[i] == (files[i].0, Labelled(files[i].1))
  {
    seq(|files|, i requires 0 <= i < |files| => (files[i].0, Labelled(files[i].1)))
  }

  /** `identify_skills`: sets the language of every file of the commit,
      overwriting any earlier value, and returns the same commit. */
  method IdentifySkills(c: CommitDetails) returns (r: CommitDetails)
    modifies c
    ensures r == c
    ensures c.files == LabelAll(old(c.files))
    ensures c.hash == old(c.hash) && c.message == old(c.message) && c.timestamp == old(c.timestamp)
    ensures c.repoUrl == old(c.repoUrl)
  {
    var i := 0;
    ghost var files := c.files;
    while i < |c.files|
      invariant 0 <= i <= |c.files| && |c.files| == |files|
      invariant forall m :: 0 <= m < i ==> c.files[m] == (files[m].0, Labelled(files[m].1))
      invariant forall m :: i <= m < |files| ==> c.files[m] == files[m]
      invariant c.hash == old(c.hash) && c.message == old(c.message) && c.timestamp == old(c.timestamp)
      invariant c.repoUrl == old(c.repoUrl)
    {
      var (path, file) := c.files[i];
      c.files := c.files[i := (path, file.(language := IdentifyLanguage(file)))];
      i := i + 1;
    }
    r := c;
  }

  /** Labelling keeps the keys, the order and every field but the language. */
  lemma LabelAllKeeps(files: Dict<string, FileInfo>, i: int)
    requires 0 <= i < |files|
    ensures Keys(LabelAll(files)) == Keys(files)
    ensures DistinctKeys(files) ==> DistinctKeys(LabelAll(files))
    ensures var f := files[i].1;
            var g := LabelAll(files)[i].1;
            g.language == IdentifyLanguage(f) && g == f.(language := g.language)
  {
    var r := LabelAll(files);
    assert forall m :: 0 <= m < |files| ==> r[m].0 == files[m].0;
  }

  /** `identify_excluded_files`: the files whose language is None, in dict
      order, as records (not paths). */
  function ExcludedFiles(files: Dict<string, FileInfo>): (ex: seq<FileInfo>)
    ensures forall f :: f in ex ==> f.language.None?
    ensures forall i :: 0 <= i < |files| && files[i].1.language.None? ==> files[i].1 in ex
    ensures forall f :: f in ex ==> exists i :: 0 <= i < |files| && files[i].1 == f
    decreases |files|
  {
    if files == [] then []
    else
      var rest := ExcludedFiles(files[1..]);
      assert forall i :: 1 <= i < |files| ==> files[i] == files[1..][i - 1];
      if files[0].1.language.None? then [files[0].1] + rest else rest
  }

  /** After `identify_skills`, a file is excluded iff its extension is not a key
      of the table. */
  lemma ExcludedIffUnmapped(files: Dict<string, FileInfo>, i: int)
    requires 0 <= i < |files|
    ensures LabelAll(files)[i].1 in ExcludedFiles(LabelAll(files))
            <==> files[i].1.fileExtension !in ExtensionToLanguage
  {
    var r := LabelAll(files);
    var ex := ExcludedFiles(r);
    if r[i].1 in ex {
      assert r[i].1.language.None?;
    }
  }
}
