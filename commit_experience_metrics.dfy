/** The experience metrics of one commit (`get_experience_metrics`): every
    counted file adds its additions to its language and to each of its
    frameworks. */
module CommitExperienceMetrics {
  import opened Dicts
  import opened Models
  import opened Counters

  /** A file counts unless its path is excluded or its language is missing
      or "Unknown". */
  predicate Counted(f: FileInfo, exclude: seq<string>) {
    f.filePath !in exclude && KnownLanguage(f.language)
  }

  /** The inner loop: the additions added under each skill of the list, once
      per occurrence. */
  function AddSkills(lines: map<string, int>, skills: seq<string>, additions: int): map<string, int>
    decreases |skills|
  {
    if skills == [] then lines
    else Add(AddSkills(lines, skills[..|skills| - 1], additions), skills[|skills| - 1], additions)
  }

  /** `lines_of_code` after the files. */
  function CommitLines(files: seq<FileInfo>, exclude: seq<string>): map<string, int>
    decreases |files|
  {
    if files == [] then map[]
    else
      var lines := CommitLines(files[..|files| - 1], exclude);
      var f := files[|files| - 1];
      if Counted(f, exclude) then AddSkills(lines, FileSkills(f), f.additions) else lines
  }

  /** The additions credited to skill s: each counted file's additions, as
      many times as s is among its skills. */
  function Credited(files: seq<FileInfo>, exclude: seq<string>, s: string): int
    decreases |files|
  {
    if files == [] then 0
    else
      var f := files[|files| - 1];
      Credited(files[..|files| - 1], exclude, s)
      + if Counted(f, exclude) then Occurrences(FileSkills(f), s) * f.additions else 0
  }

  lemma {:induction false} AddSkillsKeys(lines: map<string, int>, skills: seq<string>, additions: int)
    ensures AddSkills(lines, skills, additions).Keys == lines.Keys + set k | k in skills
    decreases |skills|
  {
    if skills != [] {
      var init := skills[..|skills| - 1];
      AddSkillsKeys(lines, init, additions);
      assert skills == init + [skills[|skills| - 1]];
    }
  }

  lemma MulSucc(n: int, a: int)
    ensures (n + 1) * a == n * a + a
  {
  }

  lemma {:induction false} AddSkillsCount(lines: map<string, int>, skills: seq<string>, additions: int, s: string)
    ensures Count(AddSkills(lines, skills, additions), s) == Count(lines, s) + Occurrences(skills, s) * additions
    decreases |skills|
  {
    if skills != [] {
      var init := skills[..|skills| - 1];
      var last := skills[|skills| - 1];
      AddSkillsCount(lines, init, additions, s);
      assert skills == init + [last];
      OccurrencesSnoc(init, last, s);
      var n := Occurrences(init, s);
      var before := AddSkills(lines, init, additions);
      assert Count(before, s) == Count(lines, s) + n * additions;
      if last == s {
        assert Count(AddSkills(lines, skills, additions), s) == Count(before, s) + additions;
        MulSucc(n, additions);
      } else {
        assert Count(AddSkills(lines, skills, additions), s) == Count(before, s);
      }
    }
  }

  /** `lines_of_code[s]` is the additions credited to s. */
  lemma {:induction false} CommitLinesCount(files: seq<FileInfo>, exclude: seq<string>, s: string)
    ensures Count(CommitLines(files, exclude), s) == Credited(files, exclude, s)
    decreases |files|
  {
    if files != [] {
      var init := files[..|files| - 1];
      var f := files[|files| - 1];
      CommitLinesCount(init, exclude, s);
      if Counted(f, exclude) {
        AddSkillsCount(CommitLines(init, exclude), FileSkills(f), f.additions, s);
      }
    }
  }

  /** The skills are the language and frameworks of the counted files. */
  lemma {:induction false} CommitLinesKeys(files: seq<FileInfo>, exclude: seq<string>, s: string)
    ensures s in CommitLines(files, exclude) <==>
              exists i :: 0 <= i < |files| && Counted(files[i], exclude) && s in FileSkills(files[i])
    decreases |files|
  {
    if files != [] {
      var init := files[..|files| - 1];
      var f := files[|files| - 1];
      CommitLinesKeys(init, exclude, s);
      assert forall i :: 0 <= i < |init| ==> init[i] == files[i];
      if Counted(f, exclude) {
        AddSkillsKeys(CommitLines(init, exclude), FileSkills(f), f.additions);
      }
    }
  }

  /** An excluded or unclassified file credits nothing to any skill. */
  lemma UncountedCreditsNothing(files: seq<FileInfo>, f: FileInfo, exclude: seq<string>, s: string)
    requires !Counted(f, exclude)
    ensures Credited(files + [f], exclude, s) == Credited(files, exclude, s)
  {
    assert (files + [f])[..|files|] == files;
  }

  /** One more file of the loop. */
  lemma CommitLinesNext(files: seq<FileInfo>, exclude: seq<string>, i: nat)
    requires i < |files|
    ensures var lines := CommitLines(files[..i], exclude);
            CommitLines(files[..i + 1], exclude) ==
              if Counted(files[i], exclude) then AddSkills(lines, FileSkills(files[i]), files[i].additions) else lines
  {
    assert files[..i + 1][..i] == files[..i];
  }

  /** One more skill of the inner loop. */
  lemma AddSkillsNext(lines: map<string, int>, skills: seq<string>, additions: int, j: nat)
    requires j < |skills|
    ensures AddSkills(lines, skills[..j + 1], additions) == Add(AddSkills(lines, skills[..j], additions), skills[j], additions)
  {
    assert skills[..j + 1][..j] == skills[..j];
  }

  /** `get_experience_metrics`: the skills are exactly the keys of
      `lines_of_code`, each key holding the additions credited to it, and the
      timestamp and repository come from the commit. */
  method GetExperienceMetrics(c: CommitDetails, exclude: seq<string>) returns (m: CommitExperience)
    ensures m.skills == m.linesOfCode.Keys
    ensures m.linesOfCode == CommitLines(Values(c.files), exclude)
    ensures m.timestamp == c.timestamp && m.repoUrl == c.repoUrl
  {
    var files := Values(c.files);
    var lines: map<string, int> := map[];
    var skills: set<string> := {};
    var i := 0;
    while i < |files|
      invariant 0 <= i <= |files|
      invariant lines == CommitLines(files[..i], exclude) && skills == lines.Keys
    {
      var f := files[i];
      CommitLinesNext(files, exclude, i);
      if Counted(f, exclude) {
        var fileSkills := FileSkills(f);
        var j := 0;
        ghost var before := lines;
        while j < |fileSkills|
          invariant 0 <= j <= |fileSkills|
          invariant lines == AddSkills(before, fileSkills[..j], f.additions) && skills == lines.Keys
        {
          AddSkillsNext(before, fileSkills, f.additions, j);
          lines := Add(lines, fileSkills[j], f.additions);
          skills := skills + {fileSkills[j]};
          j := j + 1;
        }
        assert fileSkills[..j] == fileSkills;
      }
      i := i + 1;
    }
    assert files[..i] == files;
    m := CommitExperience(skills, lines, c.timestamp, c.repoUrl);
  }
}
