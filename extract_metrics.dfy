/** The metrics extraction step: each repository of the user gets a fresh
    per-language line count of its parsed files. */
module ExtractMetrics {
  import opened Wrappers
  import opened Models
  import opened Counters

  /** The counter the inner loop builds: every file's line count added under
      its language, None included. */
  function LinesByLanguage(files: seq<ParsedFile>): map<Option<string>, int> {
    if files == [] then map[]
    else
      var last := files[|files| - 1];
      Add(LinesByLanguage(files[..|files| - 1]), last.language, last.lineCount)
  }

  /** The line count of the files whose language is l. */
  function LinesOf(files: seq<ParsedFile>, l: Option<string>): int {
    if files == [] then 0
    else (if files[0].language == l then files[0].lineCount else 0) + LinesOf(files[1..], l)
  }

  /** The line count of all the files. */
  function AllLines(files: seq<ParsedFile>): int {
    if files == [] then 0 else files[0].lineCount + AllLines(files[1..])
  }

  /** The languages the files have. */
  function Languages(files: seq<ParsedFile>): set<Option<string>> {
    set f | f in files :: f.language
  }

  lemma {:induction false} LinesOfSnoc(files: seq<ParsedFile>, f: ParsedFile, l: Option<string>)
    ensures LinesOf(files + [f], l) == LinesOf(files, l) + (if f.language == l then f.lineCount else 0)
    decreases |files|
  {
    if files != [] {
      assert (files + [f])[1..] == files[1..] + [f];
      LinesOfSnoc(files[1..], f, l);
    }
  }

  lemma {:induction false} AllLinesSnoc(files: seq<ParsedFile>, f: ParsedFile)
    ensures AllLines(files + [f]) == AllLines(files) + f.lineCount
    decreases |files|
  {
    if files != [] {
      assert (files + [f])[1..] == files[1..] + [f];
      AllLinesSnoc(files[1..], f);
    }
  }

  /** `lines_of_code[l]` is the total line count of the files of language l. */
  lemma {:induction false} LinesByLanguageCount(files: seq<ParsedFile>, l: Option<string>)
    ensures Count(LinesByLanguage(files), l) == LinesOf(files, l)
    decreases |files|
  {
    if files != [] {
      var init := files[..|files| - 1];
      var last := files[|files| - 1];
      LinesByLanguageCount(init, l);
      assert files == init + [last];
      LinesOfSnoc(init, last, l);
    }
  }

  /** The keys are exactly the languages of the files. */
  lemma {:induction false} LinesByLanguageKeys(files: seq<ParsedFile>)
    ensures LinesByLanguage(files).Keys == Languages(files)
    decreases |files|
  {
    if files != [] {
      var init := files[..|files| - 1];
      var last := files[|files| - 1];
      LinesByLanguageKeys(init);
      assert files == init + [last];
      assert Languages(files) == Languages(init) + {last.language};
    }
  }

  /** The values add up to the line count of all the files. */
  lemma {:induction false} LinesByLanguageTotal(files: seq<ParsedFile>)
    ensures Total(LinesByLanguage(files)) == AllLines(files)
    decreases |files|
  {
    if files == [] {
      assert LinesByLanguage(files).Keys == {};
    } else {
      var init := files[..|files| - 1];
      var last := files[|files| - 1];
      LinesByLanguageTotal(init);
      TotalAdd(LinesByLanguage(init), last.language, last.lineCount);
      assert files == init + [last];
      AllLinesSnoc(init, last);
    }
  }

  /** The line-count loop over one repository's parsed files. */
  method CountLines(files: seq<ParsedFile>) returns (lines: map<Option<string>, int>)
    ensures lines == LinesByLanguage(files)
  {
    lines := map[];
    var j := 0;
    while j < |files|
      invariant 0 <= j <= |files|
      invariant lines == LinesByLanguage(files[..j])
    {
      var file := files[j];
      assert files[..j + 1][..j] == files[..j];
      lines := Add(lines, file.language, file.lineCount);
      j := j + 1;
    }
    assert files[..j] == files;
  }

  /** `ExtractMetrics.extract`: every repository's metrics become the line
      counts of its own parsed files; nothing else changes and the same user
      is returned. A repository listed twice gets the same metrics twice. */
  method Extract(user: User) returns (r: User)
    modifies set i | 0 <= i < |user.repos| :: user.repos[i]
    ensures r == user && user.repos == old(user.repos)
    ensures forall repo :: repo in user.repos ==> repo.metrics == Some(Metrics(LinesByLanguage(repo.parsedFiles)))
    ensures forall repo :: repo in user.repos ==>
              && repo.url == old(repo.url) && repo.languages == old(repo.languages)
              && repo.frameworks == old(repo.frameworks) && repo.parsedFiles == old(repo.parsedFiles)
  {
    var i := 0;
    while i < |user.repos|
      invariant 0 <= i <= |user.repos|
      invariant forall k :: 0 <= k < i ==>
                  user.repos[k].metrics == Some(Metrics(LinesByLanguage(user.repos[k].parsedFiles)))
      invariant forall repo :: repo in user.repos ==>
                  && repo.url == old(repo.url) && repo.languages == old(repo.languages)
                  && repo.frameworks == old(repo.frameworks) && repo.parsedFiles == old(repo.parsedFiles)
    {
      var repo := user.repos[i];
      var lines := CountLines(repo.parsedFiles);
      repo.metrics := Some(Metrics(lines));
      i := i + 1;
    }
    r := user;
  }
}
