/** The scanner side of the commit pipeline: the command that scans a
    checkout under the commit's project key, and the component tree the
    scanner's measures API returns read into one `FileQualityMetrics` record
    per file. The subprocess and the HTTP request are inputs here. */
module QualityScan {
  import opened Wrappers
  import opened Strings
  import opened Models

  /** `commit_{hash}`: the project key the scan is stored under. */
  function ProjectKey(commitHash: string): (key: string)
    ensures StartsWith(key, "commit_") && key[7..] == commitHash
  {
    "commit_" + commitHash
  }

  /** Different commits are scanned under different keys. */
  lemma ProjectKeyInjective(h1: string, h2: string)
    requires ProjectKey(h1) == ProjectKey(h2)
    ensures h1 == h2
  {
    assert h1 == ProjectKey(h1)[7..];
  }

  /** The `sonar-scanner` command line of `analyze_commit_files`. */
  function ScannerCommand(commitHash: string, repoPath: string, hostUrl: string, token: string): (cmd: seq<string>)
    ensures |cmd| == 9 && cmd[0] == "sonar-scanner"
    ensures cmd[1] == "-Dsonar.projectKey=" + ProjectKey(commitHash)
    ensures cmd[4] == "-Dsonar.sources=" + repoPath
  {
    ["sonar-scanner",
     "-Dsonar.projectKey=" + ProjectKey(commitHash),
     "-Dsonar.projectName=Commit Analysis " + commitHash,
     "-Dsonar.projectVersion=1.0",
     "-Dsonar.sources=" + repoPath,
     "-Dsonar.host.url=" + hostUrl,
     "-Dsonar.token=" + token,
     "-Dsonar.sourceEncoding=UTF-8",
     "-Dsonar.scm.disabled=true"]
  }

  /** `analyze_commit_files`: the scanner run on the command, its standard
      output and standard error returned as they are. `run` stands for the
      subprocess. */
  function AnalyzeCommitFiles(commitHash: string, repoPath: string, hostUrl: string, token: string,
                              run: seq<string> -> (string, string)): (out: (string, string))
    ensures out == run(ScannerCommand(commitHash, repoPath, hostUrl, token))
  {
    run(ScannerCommand(commitHash, repoPath, hostUrl, token))
  }

  /** The `component` parameter of the measures request. */
  function MeasuresComponent(commitHash: string): string {
    ProjectKey(commitHash)
  }

  /** The measures are read from the project the scan wrote. */
  lemma MeasuresOfScannedProject(commitHash: string, repoPath: string, hostUrl: string, token: string)
    ensures ScannerCommand(commitHash, repoPath, hostUrl, token)[1]
            == "-Dsonar.projectKey=" + MeasuresComponent(commitHash)
  {
  }

  /** One `{metric, value}` entry of a component. */
  datatype ScanMeasure = ScanMeasure(metric: string, value: real)

  /** One entry of `components`; a missing `measures` list is empty. */
  datatype Component = Component(qualifier: string, path: string, measures: seq<ScanMeasure>)

  /** The HTTP response of the measures request; a missing `components`
      list is empty. */
  datatype ScanResponse = ScanResponse(statusCode: int, text: string, components: seq<Component>)

  /** The metric names the loop recognises. */
  const MetricNames: set<string> := {
    "bugs", "vulnerabilities", "code_smells", "duplicated_lines_density", "coverage", "ncloc",
    "reliability_rating", "security_rating", "sqale_rating", "cognitive_complexity", "complexity"
  }

  /** A record of the file with every measure None. */
  function EmptyRecord(path: string): FileQualityMetrics {
    FileQualityMetrics(path, None, None, None, None, None, None, None, None, None, None, None)
  }

  /** The field a metric name stands for, read from a record. */
  function Field(f: FileQualityMetrics, name: string): Option<real> {
    match name
    case "bugs" => f.bugs
    case "vulnerabilities" => f.vulnerabilities
    case "code_smells" => f.codeSmells
    case "duplicated_lines_density" => f.duplicatedLinesDensity
    case "coverage" => f.coverage
    case "ncloc" => f.ncloc
    case "reliability_rating" => f.reliabilityRating
    case "security_rating" => f.securityRating
    case "sqale_rating" => f.sqaleRating
    case "cognitive_complexity" => f.cognitiveComplexity
    case "complexity" => f.complexity
    case _ => None
  }

  /** One pass of the measure loop: the `if`/`elif` chain on the metric name. */
  function SetMeasure(f: FileQualityMetrics, m: ScanMeasure): FileQualityMetrics {
    var v := Some(m.value);
    if m.metric == "bugs" then f.(bugs := v)
    else if m.metric == "vulnerabilities" then f.(vulnerabilities := v)
    else if m.metric == "code_smells" then f.(codeSmells := v)
    else if m.metric == "duplicated_lines_density" then f.(duplicatedLinesDensity := v)
    else if m.metric == "coverage" then f.(coverage := v)
    else if m.metric == "ncloc" then f.(ncloc := v)
    else if m.metric == "reliability_rating" then f.(reliabilityRating := v)
    else if m.metric == "security_rating" then f.(securityRating := v)
    else if m.metric == "sqale_rating" then f.(sqaleRating := v)
    else if m.metric == "cognitive_complexity" then f.(cognitiveComplexity := v)
    else if m.metric == "complexity" then f.(complexity := v)
    else f
  }

  /** A recognised metric sets its own field and no other; any other metric
      changes nothing; the path is kept. */
  lemma SetMeasureField(f: FileQualityMetrics, m: ScanMeasure, name: string)
    ensures Field(SetMeasure(f, m), name) ==
              if name == m.metric && name in MetricNames then Some(m.value) else Field(f, name)
    ensures SetMeasure(f, m).filePath == f.filePath
    ensures m.metric !in MetricNames ==> SetMeasure(f, m) == f
  {
    if m.metric !in MetricNames {
      assert SetMeasure(f, m) == f;
    }
  }

  /** The record after the measure loop. */
  function ApplyMeasures(f: FileQualityMetrics, ms: seq<ScanMeasure>): FileQualityMetrics
    decreases |ms|
  {
    if ms == [] then f else SetMeasure(ApplyMeasures(f, ms[..|ms| - 1]), ms[|ms| - 1])
  }

  /** The value of the last measure named name, if any. */
  function LastValue(ms: seq<ScanMeasure>, name: string): Option<real>
    decreases |ms|
  {
    if ms == [] then None
    else if ms[|ms| - 1].metric == name then Some(ms[|ms| - 1].value)
    else LastValue(ms[..|ms| - 1], name)
  }

  /** A recognised field holds the value of the last measure for it, or stays
      as it was when the component reports none; the path is kept. */
  lemma {:induction false} ApplyMeasuresField(f: FileQualityMetrics, ms: seq<ScanMeasure>, name: string)
    requires name in MetricNames
    ensures Field(ApplyMeasures(f, ms), name) == if LastValue(ms, name).Some? then LastValue(ms, name) else Field(f, name)
    ensures ApplyMeasures(f, ms).filePath == f.filePath
    decreases |ms|
  {
    if ms != [] {
      var init := ms[..|ms| - 1];
      ApplyMeasuresField(f, init, name);
      SetMeasureField(ApplyMeasures(f, init), ms[|ms| - 1], name);
    }
  }

  /** LastValue finds the measure for name that no later one overrides. */
  lemma {:induction false} LastValueSpec(ms: seq<ScanMeasure>, name: string)
    ensures LastValue(ms, name).None? <==> forall i :: 0 <= i < |ms| ==> ms[i].metric != name
    ensures LastValue(ms, name).Some? ==>
              exists i :: 0 <= i < |ms| && ms[i].metric == name && LastValue(ms, name) == Some(ms[i].value)
                          && forall j :: i < j < |ms| ==> ms[j].metric != name
    decreases |ms|
  {
    if ms != [] {
      var init := ms[..|ms| - 1];
      LastValueSpec(init, name);
      assert forall i :: 0 <= i < |init| ==> init[i] == ms[i];
    }
  }

  /** `component["path"].replace(temp_repo_dir_path, "")`: every occurrence
      removed, scanning from the left (an empty pattern changes nothing). */
  function CleanPath(path: string, tempDir: string): string {
    if tempDir == "" then path else ReplaceAll(path, tempDir, "")
  }

  /** A path under the scanned directory loses that prefix. */
  lemma CleanPathUnderDir(tempDir: string, rest: string)
    requires tempDir != "" && !Contains(rest, tempDir)
    ensures CleanPath(tempDir + rest, tempDir) == rest
  {
    ReplaceLeading(tempDir, rest, "");
    ReplaceAbsent(rest, tempDir, "");
  }

  /** A path without the directory in it is kept as it is. */
  lemma CleanPathElsewhere(path: string, tempDir: string)
    requires tempDir == "" || !Contains(path, tempDir)
    ensures CleanPath(path, tempDir) == path
  {
    if tempDir != "" {
      ReplaceAbsent(path, tempDir, "");
    }
  }

  /** A component gives a record iff it is a file whose cleaned path is not
      excluded. */
  predicate Kept(c: Component, tempDir: string, excluded: seq<string>) {
    c.qualifier == "FIL" && CleanPath(c.path, tempDir) !in excluded
  }

  /** The record of a kept component. */
  function RecordOf(c: Component, tempDir: string): FileQualityMetrics {
    ApplyMeasures(EmptyRecord(CleanPath(c.path, tempDir)), c.measures)
  }

  /** The records of the kept components, in component order. */
  function Records(cs: seq<Component>, tempDir: string, excluded: seq<string>): seq<FileQualityMetrics>
    decreases |cs|
  {
    if cs == [] then []
    else
      var init := Records(cs[..|cs| - 1], tempDir, excluded);
      var c := cs[|cs| - 1];
      if Kept(c, tempDir, excluded) then init + [RecordOf(c, tempDir)] else init
  }

  /** The number of kept components. */
  function KeptCount(cs: seq<Component>, tempDir: string, excluded: seq<string>): nat
    decreases |cs|
  {
    if cs == [] then 0
    else KeptCount(cs[1..], tempDir, excluded) + if Kept(cs[0], tempDir, excluded) then 1 else 0
  }

  lemma {:induction false} KeptCountSnoc(cs: seq<Component>, c: Component, tempDir: string, excluded: seq<string>)
    ensures KeptCount(cs + [c], tempDir, excluded) == KeptCount(cs, tempDir, excluded) + if Kept(c, tempDir, excluded) then 1 else 0
    decreases |cs|
  {
    if cs != [] {
      assert (cs + [c])[1..] == cs[1..] + [c];
      KeptCountSnoc(cs[1..], c, tempDir, excluded);
    }
  }

  /** One record per kept component, and a record is exactly the record of
      some kept component. */
  lemma {:induction false} RecordsSpec(cs: seq<Component>, tempDir: string, excluded: seq<string>)
    ensures |Records(cs, tempDir, excluded)| == KeptCount(cs, tempDir, excluded)
    ensures forall r :: r in Records(cs, tempDir, excluded) <==>
              exists i :: 0 <= i < |cs| && Kept(cs[i], tempDir, excluded) && r == RecordOf(cs[i], tempDir)
    decreases |cs|
  {
    if cs != [] {
      var init := cs[..|cs| - 1];
      var c := cs[|cs| - 1];
      RecordsSpec(init, tempDir, excluded);
      assert cs == init + [c];
      KeptCountSnoc(init, c, tempDir, excluded);
      assert forall i :: 0 <= i < |init| ==> init[i] == cs[i];
    }
  }

  /** The measure loop of one component. */
  method ReadMeasures(path: string, measures: seq<ScanMeasure>) returns (f: FileQualityMetrics)
    ensures f == ApplyMeasures(EmptyRecord(path), measures)
  {
    f := EmptyRecord(path);
    var j := 0;
    while j < |measures|
      invariant 0 <= j <= |measures|
      invariant f == ApplyMeasures(EmptyRecord(path), measures[..j])
    {
      assert measures[..j + 1][..j] == measures[..j];
      f := SetMeasure(f, measures[j]);
      j := j + 1;
    }
    assert measures[..j] == measures;
  }

  /** `get_quality_metrics_for_files` once the request has been answered: a
      status other than 200 raises (here Err); otherwise the records of the
      kept components in order. */
  method GetQualityMetricsForFiles(response: ScanResponse, tempDir: string, excluded: seq<string>)
      returns (r: Result<seq<FileQualityMetrics>>)
    ensures response.statusCode != 200 <==> r.Err?
    ensures r.Err? ==> r.error == "API request failed: " + response.text
    ensures r.Ok? ==> r.value == Records(response.components, tempDir, excluded)
  {
    if response.statusCode != 200 {
      return Err("API request failed: " + response.text);
    }
    var cs := response.components;
    var files: seq<FileQualityMetrics> := [];
    var i := 0;
    while i < |cs|
      invariant 0 <= i <= |cs|
      invariant files == Records(cs[..i], tempDir, excluded)
    {
      var c := cs[i];
      assert cs[..i + 1][..i] == cs[..i];
      if c.qualifier == "FIL" {
        var path := CleanPath(c.path, tempDir);
        if path !in excluded {
          var f := ReadMeasures(path, c.measures);
          files := files + [f];
        }
      }
      i := i + 1;
    }
    assert cs[..i] == cs;
    r := Ok(files);
  }
}
