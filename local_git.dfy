/** The git side of the commit pipeline: the `git diff --numstat` text read
    into per-path addition and deletion counts, the commit's diffs turned into
    changed-file records, and the local paths a clone uses. The repository,
    its diffs and their blobs are inputs here. */
module LocalGit {
  import opened Wrappers
  import opened Strings
  import opened Dicts
  import opened Models

  /** The id of git's empty tree, the diff base of a root commit. */
  const EmptyTreeSha: string := "4b825dc642cb6eb9a060e54bf8d69288fbee4904"

  /** The commit the numstat diff starts from: the first parent, or the empty
      tree for a commit without parents. */
  function ParentSha(parents: seq<string>): (sha: string)
    ensures parents != [] ==> sha == parents[0]
    ensures parents == [] ==> sha == EmptyTreeSha && |sha| == 40
  {
    if parents == [] then EmptyTreeSha else parents[0]
  }

  /** The counts of one numstat line. */
  datatype Stat = Stat(additions: int, deletions: int)

  /** `int(t) if t != '-' else 0`: git writes '-' for a binary file. */
  function ParseCount(t: string): Result<int> {
    if t == "-" then Ok(0)
    else
      match ParseInt(t)
      case Some(n) => Ok(n)
      case None => Err("ValueError: invalid literal for int() with base 10")
  }

  /** `additions, deletions, file_path = line.split('\t')` and the two counts;
      the unpacking raises unless there are exactly three fields. */
  function ParseStatLine(line: string): Result<(string, Stat)> {
    ParseFields(Split(line, "\t"))
  }

  /** The fields of a numstat line read as additions, deletions and path. */
  function ParseFields(fields: seq<string>): Result<(string, Stat)> {
    if |fields| < 3 then Err("ValueError: not enough values to unpack (expected 3)")
    else if |fields| > 3 then Err("ValueError: too many values to unpack (expected 3)")
    else
      match ParseCount(fields[0])
      case Err(e) => Err(e)
      case Ok(additions) =>
        match ParseCount(fields[1])
        case Err(e) => Err(e)
        case Ok(deletions) => Ok((fields[2], Stat(additions, deletions)))
  }

  /** The lines of `numstat.strip().split('\n')`. */
  function NumstatLines(numstat: string): seq<string> {
    Split(Strip(numstat), "\n")
  }

  /** A numstat line read: None for an empty line (skipped), otherwise the
      outcome of parsing it. */
  function ParseLine(line: string): Option<Result<(string, Stat)>> {
    if line == "" then None else Some(ParseStatLine(line))
  }

  /** The lines, each read. */
  function ParseLines(lines: seq<string>): (parsed: seq<Option<Result<(string, Stat)>>>)
    ensures |parsed| == |lines| && forall i :: 0 <= i < |lines| ==> parsed[i] == ParseLine(lines[i])
  {
    seq(|lines|, i requires 0 <= i < |lines| => ParseLine(lines[i]))
  }

  /** `file_stats` after the read lines: skipped lines add nothing, a later
      line for a path overwrites an earlier one, and the first line that does
      not parse raises. */
  function StatsOf(parsed: seq<Option<Result<(string, Stat)>>>): Result<Dict<string, Stat>>
    decreases |parsed|
  {
    if parsed == [] then Ok([])
    else
      match StatsOf(parsed[..|parsed| - 1])
      case Err(e) => Err(e)
      case Ok(stats) =>
        match parsed[|parsed| - 1]
        case None => Ok(stats)
        case Some(Err(e)) => Err(e)
        case Some(Ok(entry)) => Ok(Put(stats, entry.0, entry.1))
  }

  /** The path a read line records, if it records one. */
  function EntryPath(line: Option<Result<(string, Stat)>>): Option<string> {
    if line.Some? && line.value.Ok? then Some(line.value.value.0) else None
  }

  /** A digit string holds no tab. */
  lemma DigitsNoTab(n: nat)
    ensures '\t' !in NatToString(n)
  {
  }

  /** A count git writes is read back. */
  lemma ParseCountOfNat(n: nat)
    ensures ParseCount(NatToString(n)) == Ok(n)
  {
    var t := NatToString(n);
    ParseIntOfNat(n);
    assert t != "-" by { assert IsDigit(t[0]); }
  }

  /** Three tab-free fields joined by tabs split back into those fields. */
  lemma SplitThree(a: string, d: string, path: string)
    requires '\t' !in a && '\t' !in d && '\t' !in path
    ensures Split(a + "\t" + d + "\t" + path, "\t") == [a, d, path]
  {
    assert a + "\t" + d + "\t" + path == a + ['\t'] + (d + ['\t'] + path);
    SplitOnChar(a, '\t', d + ['\t'] + path);
    SplitOnChar(d, '\t', path);
    SplitNoChar(path, '\t');
  }

  /** The line git writes for a text file, `<added>\t<deleted>\t<path>`, is read
      back as those counts under that path. */
  lemma StatLineRoundTrip(additions: nat, deletions: nat, path: string)
    requires '\t' !in path
    ensures ParseStatLine(NatToString(additions) + "\t" + NatToString(deletions) + "\t" + path)
            == Ok((path, Stat(additions, deletions)))
  {
    var a := NatToString(additions);
    var d := NatToString(deletions);
    DigitsNoTab(additions);
    DigitsNoTab(deletions);
    SplitThree(a, d, path);
    ParseCountOfNat(additions);
    ParseCountOfNat(deletions);
  }

  /** The line git writes for a binary file, `-\t-\t<path>`, counts 0 and 0. */
  lemma BinaryStatLine(path: string)
    requires '\t' !in path
    ensures ParseStatLine("-\t-\t" + path) == Ok((path, Stat(0, 0)))
  {
    assert "-\t-\t" + path == "-" + "\t" + "-" + "\t" + path;
    SplitThree("-", "-", path);
  }

  /** A line that parses has exactly two tabs, and its path is the text after
      the second one. */
  lemma StatLineFields(line: string)
    ensures ParseStatLine(line).Ok? ==> CountChar(line, '\t') == 2
    ensures ParseStatLine(line).Ok? ==>
              var fields := Split(line, "\t");
              && line == fields[0] + "\t" + fields[1] + "\t" + ParseStatLine(line).value.0
              && '\t' !in ParseStatLine(line).value.0
  {
    var fields := Split(line, "\t");
    if ParseFields(fields).Ok? {
      assert |fields| == 3 && ParseStatLine(line).value.0 == fields[2];
      SplitCharCount(line, '\t');
      JoinSplit(line, "\t");
      JoinThree(fields, "\t");
      SplitPiecesFree(line, "\t");
      assert !Contains(fields[2], "\t");
      ContainsChar(fields[2], '\t');
    }
  }

  lemma JoinThree(fields: seq<string>, sep: string)
    requires |fields| == 3
    ensures Join(fields, sep) == fields[0] + sep + fields[1] + sep + fields[2]
  {
    var rest := fields[1..];
    assert rest[1..] == [fields[2]];
    assert Join(rest, sep) == fields[1] + sep + Join([fields[2]], sep);
  }

  /** A failing line stays the error of every longer list of lines. */
  lemma {:induction false} StatsOfErrKeeps(parsed: seq<Option<Result<(string, Stat)>>>, n: nat)
    requires n <= |parsed| && StatsOf(parsed[..n]).Err?
    ensures StatsOf(parsed) == StatsOf(parsed[..n])
    decreases |parsed| - n
  {
    if n < |parsed| {
      assert parsed[..n + 1][..n] == parsed[..n];
      StatsOfErrKeeps(parsed, n + 1);
    } else {
      assert parsed[..n] == parsed;
    }
  }

  /** The numstat reads without error iff no line fails to parse. */
  lemma {:induction false} StatsOfOk(parsed: seq<Option<Result<(string, Stat)>>>)
    ensures StatsOf(parsed).Ok? <==> forall i :: 0 <= i < |parsed| ==> !(parsed[i].Some? && parsed[i].value.Err?)
    decreases |parsed|
  {
    if parsed != [] {
      var n := |parsed| - 1;
      var init := parsed[..n];
      StatsOfOk(init);
      assert forall i :: 0 <= i < n ==> init[i] == parsed[i];
      if StatsOf(init).Ok? {
        assert StatsOf(parsed).Ok? <==> !(parsed[n].Some? && parsed[n].value.Err?);
      } else {
        assert !StatsOf(parsed).Ok?;
      }
    }
  }

  /** The counts of the last line for p, if a line names p. */
  function LastStat(parsed: seq<Option<Result<(string, Stat)>>>, p: string): Option<Stat>
    decreases |parsed|
  {
    if parsed == [] then None
    else if EntryPath(parsed[|parsed| - 1]) == Some(p) then Some(parsed[|parsed| - 1].value.value.1)
    else LastStat(parsed[..|parsed| - 1], p)
  }

  /** LastStat finds the line for p that no later line overrides. */
  lemma {:induction false} LastStatSpec(parsed: seq<Option<Result<(string, Stat)>>>, p: string)
    ensures LastStat(parsed, p).None? <==> forall i :: 0 <= i < |parsed| ==> EntryPath(parsed[i]) != Some(p)
    ensures LastStat(parsed, p).Some? ==>
              exists i :: 0 <= i < |parsed| && EntryPath(parsed[i]) == Some(p)
                          && (forall j :: i < j < |parsed| ==> EntryPath(parsed[j]) != Some(p))
                          && LastStat(parsed, p) == Some(parsed[i].value.value.1)
    decreases |parsed|
  {
    if parsed != [] {
      var n := |parsed| - 1;
      var init := parsed[..n];
      LastStatSpec(init, p);
      if EntryPath(parsed[n]) == Some(p) {
        assert LastStat(parsed, p) == Some(parsed[n].value.value.1);
      } else {
        assert LastStat(parsed, p) == LastStat(init, p);
        assert forall i :: 0 <= i < n ==> init[i] == parsed[i];
        if LastStat(init, p).Some? {
          var i :| 0 <= i < n && EntryPath(init[i]) == Some(p)
                   && (forall j :: i < j < n ==> EntryPath(init[j]) != Some(p))
                   && LastStat(init, p) == Some(init[i].value.value.1);
          assert forall j :: i < j < |parsed| ==> EntryPath(parsed[j]) != Some(p);
        }
      }
    }
  }

  /** `file_stats[p]` holds the counts of the last line for p; a path no line
      names is absent. Keys stay distinct. */
  lemma {:induction false} StatsOfGet(parsed: seq<Option<Result<(string, Stat)>>>, p: string)
    requires StatsOf(parsed).Ok?
    ensures DistinctKeys(StatsOf(parsed).value)
    ensures Get(StatsOf(parsed).value, p) == LastStat(parsed, p)
    decreases |parsed|
  {
    if parsed != [] {
      var n := |parsed| - 1;
      var init := parsed[..n];
      StatsOfGet(init, p);
      var stats := StatsOf(init).value;
      if parsed[n].Some? {
        var entry := parsed[n].value.value;
        GetPut(stats, entry.0, entry.1, p);
      }
    }
  }

  /** StatsOf on one more line. */
  lemma StatsOfNext(parsed: seq<Option<Result<(string, Stat)>>>, i: nat)
    requires i < |parsed|
    ensures StatsOf(parsed[..i + 1]) ==
              match StatsOf(parsed[..i])
              case Err(e) => Err(e)
              case Ok(stats) =>
                match parsed[i]
                case None => Ok(stats)
                case Some(Err(e)) => Err(e)
                case Some(Ok(entry)) => Ok(Put(stats, entry.0, entry.1))
  {
    assert parsed[..i + 1][..i] == parsed[..i];
  }

  /** The numstat loop of `get_commit_details`. */
  method ParseNumstat(numstat: string) returns (r: Result<Dict<string, Stat>>)
    ensures r == StatsOf(ParseLines(NumstatLines(numstat)))
  {
    var lines := NumstatLines(numstat);
    ghost var parsed := ParseLines(lines);
    var stats: Dict<string, Stat> := [];
    var i := 0;
    while i < |lines|
      invariant 0 <= i <= |lines|
      invariant StatsOf(parsed[..i]) == Ok(stats)
    {
      var item := ParseLine(lines[i]);
      assert parsed[i] == item;
      StatsOfNext(parsed, i);
      match item {
        case None =>
        case Some(Err(e)) =>
          StatsOfErrKeeps(parsed, i + 1);
          return Err(e);
        case Some(Ok(entry)) =>
          stats := Put(stats, entry.0, entry.1);
      }
      i := i + 1;
    }
    assert parsed[..i] == parsed;
    r := Ok(stats);
  }

  /** One entry of `parent_commit.diff(commit)`: its change type, its b-side
      path, and the decoded text of its b-side blob where there is one. */
  datatype Diff = Diff(changeType: string, bPath: Option<string>, blob: Option<string>)

  /** The record of a changed file: the extension is the text after the last
      '.', the counts are of the blob's text. Language and frameworks are left
      for the classifiers. */
  function FileInfoOf(path: string, content: string, stat: Stat): FileInfo {
    FileInfo(path, AfterLastChar(path, '.'), CountChar(content, '\n'), |content|,
             stat.additions, stat.deletions, None, None, Some(content))
  }

  lemma FileInfoFields(path: string, content: string, stat: Stat)
    ensures var f := FileInfoOf(path, content, stat);
            && f.filePath == path && f.charCount == |content| && f.lineCount == multiset(content)['\n']
            && f.additions == stat.additions && f.deletions == stat.deletions
            && EndsWith(path, f.fileExtension) && '.' !in f.fileExtension
            && ('.' in path ==> path[|path| - |f.fileExtension| - 1] == '.')
            && ('.' !in path ==> f.fileExtension == path)
            && f.language.None? && f.frameworks.None? && f.content == Some(content)
  {
    AfterLastCharSpec(path, '.');
  }

  /** What the diff loop does with one diff. */
  datatype Step = Skip | Fail(error: string) | Record(path: string, info: FileInfo)

  /** The loop body as written: the counts are looked up under `b_path` before
      the check that `b_path` is not None, so a diff without a b-side path
      raises KeyError instead of being skipped. */
  function DiffStepAsWritten(diff: Diff, stats: Dict<string, Stat>): (step: Step)
    ensures step.Skip? <==> diff.changeType == "R"
    ensures step.Fail? <==> diff.changeType != "R" && (diff.bPath.None? || diff.bPath.value !in Keys(stats))
  {
    if diff.changeType == "R" then Skip
    else if diff.bPath.None? then Fail("KeyError: None")
    else
      var path := diff.bPath.value;
      var content := if diff.blob.Some? then diff.blob.value else "";
      match Get(stats, path)
      case None => Fail("KeyError: " + path)
      case Some(stat) => Record(path, FileInfoOf(path, content, stat))
  }

  /** The loop body with the None check where it takes effect: renames and
      diffs without a b-side path are skipped; a path the numstat does not
      list raises KeyError; any other diff gives its file record. */
  function DiffStep(diff: Diff, stats: Dict<string, Stat>): (step: Step)
    ensures step.Skip? <==> diff.changeType == "R" || diff.bPath.None?
    ensures step.Fail? <==> diff.changeType != "R" && diff.bPath.Some? && diff.bPath.value !in Keys(stats)
    ensures step.Record? ==>
              && step.path == diff.bPath.value
              && step.info == FileInfoOf(step.path, if diff.blob.Some? then diff.blob.value else "",
                                         Get(stats, step.path).value)
  {
    if diff.changeType == "R" || diff.bPath.None? then Skip
    else DiffStepAsWritten(diff, stats)
  }

  /** The two agree on every diff that has a b-side path. */
  lemma DiffStepAgrees(diff: Diff, stats: Dict<string, Stat>)
    requires diff.bPath.Some?
    ensures DiffStepAsWritten(diff, stats) == DiffStep(diff, stats)
  {
  }

  /** A diff whose b-side path is None (here one marked as a deletion, should
      the git library report one so): the written loop raises where the guard
      meant to skip it. */
  lemma UnnamedDiffRaises(stats: Dict<string, Stat>)
    ensures DiffStepAsWritten(Diff("D", None, None), stats).Fail?
    ensures DiffStep(Diff("D", None, None), stats) == Skip
  {
  }

  /** The diffs, each turned into its step. */
  function Steps(diffs: seq<Diff>, stats: Dict<string, Stat>): (steps: seq<Step>)
    ensures |steps| == |diffs| && forall i :: 0 <= i < |diffs| ==> steps[i] == DiffStep(diffs[i], stats)
  {
    seq(|diffs|, i requires 0 <= i < |diffs| => DiffStep(diffs[i], stats))
  }

  /** The files of the commit after the steps, and the error that stopped the
      loop, if one did. Files recorded before the error stay recorded. */
  datatype Applied = Applied(files: Dict<string, FileInfo>, error: Option<string>)

  function ApplySteps(files: Dict<string, FileInfo>, steps: seq<Step>): Applied
    decreases |steps|
  {
    if steps == [] then Applied(files, None)
    else
      var before := ApplySteps(files, steps[..|steps| - 1]);
      if before.error.Some? then before
      else
        match steps[|steps| - 1]
        case Skip => before
        case Fail(e) => Applied(before.files, Some(e))
        case Record(path, info) => Applied(Put(before.files, path, info), None)
  }

  /** The path a step records, if it records one. */
  function StepPath(step: Step): Option<string> {
    if step.Record? then Some(step.path) else None
  }

  /** The loop finishes iff no step fails. */
  lemma {:induction false} ApplyStepsOk(files: Dict<string, FileInfo>, steps: seq<Step>)
    ensures ApplySteps(files, steps).error.None? <==> forall i :: 0 <= i < |steps| ==> !steps[i].Fail?
    decreases |steps|
  {
    if steps != [] {
      var init := steps[..|steps| - 1];
      ApplyStepsOk(files, init);
      assert forall i :: 0 <= i < |init| ==> init[i] == steps[i];
    }
  }

  /** The record of the last step for p, if a step records p. */
  function LastRecord(steps: seq<Step>, p: string): Option<FileInfo>
    decreases |steps|
  {
    if steps == [] then None
    else if StepPath(steps[|steps| - 1]) == Some(p) then Some(steps[|steps| - 1].info)
    else LastRecord(steps[..|steps| - 1], p)
  }

  /** LastRecord finds the step for p that no later step overrides. */
  lemma LastRecordSpec(steps: seq<Step>, p: string)
    ensures LastRecord(steps, p).None? <==> forall i :: 0 <= i < |steps| ==> StepPath(steps[i]) != Some(p)
    ensures LastRecord(steps, p).Some? ==>
              exists i :: 0 <= i < |steps| && StepPath(steps[i]) == Some(p)
                          && (forall j :: i < j < |steps| ==> StepPath(steps[j]) != Some(p))
                          && LastRecord(steps, p) == Some(steps[i].info)
  {
    LastRecordNone(steps, p);
    LastRecordSome(steps, p);
  }

  lemma {:induction false} LastRecordNone(steps: seq<Step>, p: string)
    ensures LastRecord(steps, p).None? <==> forall i :: 0 <= i < |steps| ==> StepPath(steps[i]) != Some(p)
    decreases |steps|
  {
    if steps != [] {
      var n := |steps| - 1;
      var init := steps[..n];
      LastRecordNone(init, p);
      assert forall i :: 0 <= i < n ==> init[i] == steps[i];
    }
  }

  lemma {:induction false} LastRecordSome(steps: seq<Step>, p: string)
    ensures LastRecord(steps, p).Some? ==>
              exists i :: 0 <= i < |steps| && StepPath(steps[i]) == Some(p)
                          && (forall j :: i < j < |steps| ==> StepPath(steps[j]) != Some(p))
                          && LastRecord(steps, p) == Some(steps[i].info)
    decreases |steps|
  {
    if steps != [] {
      var n := |steps| - 1;
      if StepPath(steps[n]) != Some(p) {
        var init := steps[..n];
        LastRecordSome(init, p);
        if LastRecord(init, p).Some? {
          var i :| 0 <= i < n && StepPath(init[i]) == Some(p)
                   && (forall j :: i < j < n ==> StepPath(init[j]) != Some(p))
                   && LastRecord(init, p) == Some(init[i].info);
          assert init[i] == steps[i];
          assert forall j :: i < j < n ==> init[j] == steps[j];
        }
      }
    }
  }

  /** After the loop, the record under p is the one of the last step for p; a
      path no step records keeps its earlier value. Keys stay distinct. */
  lemma {:induction false} ApplyStepsGet(files: Dict<string, FileInfo>, steps: seq<Step>, p: string)
    requires DistinctKeys(files)
    ensures DistinctKeys(ApplySteps(files, steps).files)
    ensures ApplySteps(files, steps).error.None? ==>
              Get(ApplySteps(files, steps).files, p) ==
                if LastRecord(steps, p).Some? then LastRecord(steps, p) else Get(files, p)
    decreases |steps|
  {
    if steps != [] {
      var n := |steps| - 1;
      var init := steps[..n];
      ApplyStepsGet(files, init, p);
      var before := ApplySteps(files, init);
      if steps[n].Record? {
        GetPut(before.files, steps[n].path, steps[n].info, p);
      }
    }
  }

  /** An error stays the outcome of every longer list of steps. */
  lemma {:induction false} ApplyStepsErrKeeps(files: Dict<string, FileInfo>, steps: seq<Step>, n: nat)
    requires n <= |steps| && ApplySteps(files, steps[..n]).error.Some?
    ensures ApplySteps(files, steps) == ApplySteps(files, steps[..n])
    decreases |steps| - n
  {
    if n < |steps| {
      assert steps[..n + 1][..n] == steps[..n];
      ApplyStepsErrKeeps(files, steps, n + 1);
    } else {
      assert steps[..n] == steps;
    }
  }

  /** The diff loop of `get_commit_details`, updating the commit's files in
      place with `files.update({b_path: file_info})`. */
  method AddDiffs(c: CommitDetails, stats: Dict<string, Stat>, diffs: seq<Diff>) returns (error: Option<string>)
    modifies c
    ensures Applied(c.files, error) == ApplySteps(old(c.files), Steps(diffs, stats))
    ensures c.hash == old(c.hash) && c.message == old(c.message) && c.timestamp == old(c.timestamp)
    ensures c.repoUrl == old(c.repoUrl)
  {
    ghost var files := c.files;
    ghost var steps := Steps(diffs, stats);
    var i := 0;
    while i < |diffs|
      invariant 0 <= i <= |diffs|
      invariant ApplySteps(files, steps[..i]) == Applied(c.files, None)
      invariant c.hash == old(c.hash) && c.message == old(c.message) && c.timestamp == old(c.timestamp)
      invariant c.repoUrl == old(c.repoUrl)
    {
      assert steps[..i + 1][..i] == steps[..i];
      var step := DiffStep(diffs[i], stats);
      assert steps[i] == step;
      if step.Fail? {
        ApplyStepsErrKeeps(files, steps, i + 1);
        return Some(step.error);
      }
      if step.Record? {
        c.files := Put(c.files, step.path, step.info);
      }
      i := i + 1;
    }
    assert steps[..i] == steps;
    error := None;
  }

  /** `get_commit_details` once the repository has produced the numstat text
      and the diffs: a numstat that does not parse or a diff whose path has no
      counts raises (here Err); otherwise the same commit is returned with its
      files updated. */
  method GetCommitDetails(numstat: string, diffs: seq<Diff>, c: CommitDetails) returns (r: Result<CommitDetails>)
    modifies c
    ensures var stats := StatsOf(ParseLines(NumstatLines(numstat)));
            stats.Err? ==> r == Err(stats.error) && c.files == old(c.files)
    ensures var stats := StatsOf(ParseLines(NumstatLines(numstat)));
            stats.Ok? ==>
              var applied := ApplySteps(old(c.files), Steps(diffs, stats.value));
              && c.files == applied.files
              && (applied.error.None? ==> r == Ok(c))
              && (applied.error.Some? ==> r == Err(applied.error.value))
    ensures c.hash == old(c.hash) && c.message == old(c.message) && c.timestamp == old(c.timestamp)
    ensures c.repoUrl == old(c.repoUrl)
  {
    var stats := ParseNumstat(numstat);
    if stats.Err? {
      return Err(stats.error);
    }
    var error := AddDiffs(c, stats.value, diffs);
    if error.Some? {
      return Err(error.value);
    }
    r := Ok(c);
  }

  /** The prefix `clone_repo` rewrites. */
  const GithubPrefix: string := "https://github.com/"

  /** `repo_url.replace("https://github.com/", base_dir + "/")` */
  function ClonePath(repoUrl: string, baseDir: string): string {
    ReplaceAll(repoUrl, GithubPrefix, baseDir + "/")
  }

  /** `repo_url + ".git"` */
  function CloneUrl(repoUrl: string): (url: string)
    ensures StartsWith(url, repoUrl) && EndsWith(url, ".git") && |url| == |repoUrl| + 4
  {
    repoUrl + ".git"
  }

  /** Different repositories are cloned from different URLs. */
  lemma CloneUrlInjective(a: string, b: string)
    requires CloneUrl(a) == CloneUrl(b)
    ensures a == b
  {
    assert a == CloneUrl(a)[..|a|];
    assert b == CloneUrl(b)[..|b|];
  }

  /** A GitHub URL is cloned under the base directory, at the owner/name path. */
  lemma ClonePathOfGithubUrl(rest: string, baseDir: string)
    requires !Contains(rest, GithubPrefix)
    ensures ClonePath(GithubPrefix + rest, baseDir) == baseDir + "/" + rest
  {
    ReplaceLeading(GithubPrefix, rest, baseDir + "/");
    ReplaceAbsent(rest, GithubPrefix, baseDir + "/");
  }

  /** Any other URL is used as the path unchanged. */
  lemma ClonePathOfOtherUrl(repoUrl: string, baseDir: string)
    requires !Contains(repoUrl, GithubPrefix)
    ensures ClonePath(repoUrl, baseDir) == repoUrl
  {
    ReplaceAbsent(repoUrl, GithubPrefix, baseDir + "/");
  }
}
