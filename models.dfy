/** The records the commit pipeline passes between its stages, with the fields
    that the pipeline's functions actually read and write. Timestamps are
    integer instants; scanner measures are real numbers. */
module Models {
  import opened Wrappers
  import opened Dicts

  /** One changed file of a commit. `language` and `frameworks` stay None until
      the classifiers fill them in. */
  datatype FileInfo = FileInfo(
    filePath: string,
    fileExtension: string,
    lineCount: int,
    charCount: int,
    additions: int,
    deletions: int,
    language: Option<string>,
    frameworks: Option<seq<string>>,
    content: Option<string>)

  /** A commit and its changed files, keyed by path in insertion order. */
  class CommitDetails {
    var hash: string
    var message: string
    var timestamp: int
    var files: Dict<string, FileInfo>
    var repoUrl: string

    constructor (hash: string, message: string, timestamp: int, files: Dict<string, FileInfo>, repoUrl: string)
      ensures this.hash == hash && this.message == message && this.timestamp == timestamp
      ensures this.files == files && this.repoUrl == repoUrl
    {
      this.hash := hash;
      this.message := message;
      this.timestamp := timestamp;
      this.files := files;
      this.repoUrl := repoUrl;
    }
  }

  /** The measures the scanner reports for one file; None where it reported nothing. */
  datatype FileQualityMetrics = FileQualityMetrics(
    filePath: string,
    bugs: Option<real>,
    codeSmells: Option<real>,
    cognitiveComplexity: Option<real>,
    complexity: Option<real>,
    coverage: Option<real>,
    ncloc: Option<real>,
    reliabilityRating: Option<real>,
    securityRating: Option<real>,
    sqaleRating: Option<real>,
    duplicatedLinesDensity: Option<real>,
    vulnerabilities: Option<real>)

  /** A file of a gitingest text dump. */
  datatype ParsedFile = ParsedFile(
    fileName: string,
    fileExtension: string,
    lineCount: int,
    charCount: int,
    language: Option<string>)

  /** The per-language line counts of one repository. */
  datatype Metrics = Metrics(linesOfCode: map<Option<string>, int>)

  /** A repository of the analysed user; the metrics are attached by the
      extraction step. */
  class Repo {
    var url: string
    var languages: seq<string>
    var frameworks: seq<string>
    var parsedFiles: seq<ParsedFile>
    var metrics: Option<Metrics>

    constructor (url: string, languages: seq<string>, frameworks: seq<string>, parsedFiles: seq<ParsedFile>)
      ensures this.url == url && this.languages == languages && this.frameworks == frameworks
      ensures this.parsedFiles == parsedFiles && this.metrics == None
    {
      this.url := url;
      this.languages := languages;
      this.frameworks := frameworks;
      this.parsedFiles := parsedFiles;
      this.metrics := None;
    }
  }

  class User {
    var username: string
    var repos: seq<Repo>

    constructor (username: string, repos: seq<Repo>)
      ensures this.username == username && this.repos == repos
    {
      this.username := username;
      this.repos := repos;
    }
  }

  /** The experience metrics of one commit. */
  datatype CommitExperience = CommitExperience(
    skills: set<string>,
    linesOfCode: map<string, int>,
    timestamp: int,
    repoUrl: string)

  /** The nine measures the metrics aggregate. The first four are whole counts,
      the last five are averaged over the files that reported them. */
  datatype Measure =
    | Bugs | CodeSmells | Complexity | Vulnerabilities
    | Coverage | DuplicatedLinesDensity | ReliabilityRating | SecurityRating | MaintainabilityRating

  predicate IsAveraged(m: Measure) {
    m.Coverage? || m.DuplicatedLinesDensity? || m.ReliabilityRating? || m.SecurityRating? || m.MaintainabilityRating?
  }

  /** The measures in the order the metrics code visits them. */
  const AllMeasures: seq<Measure> :=
    [Bugs, CodeSmells, Complexity, Vulnerabilities,
     Coverage, DuplicatedLinesDensity, ReliabilityRating, SecurityRating, MaintainabilityRating]

  lemma AllMeasuresComplete(m: Measure)
    ensures m in AllMeasures
  {
  }

  /** The quality metrics of one commit. The nine per-skill dictionaries are
      held as one map keyed by (measure, skill); a skill is a key of the
      dictionary of measure m iff (m, skill) is a key of `values`. */
  datatype CommitQuality = CommitQuality(
    skills: set<string>,
    timestamp: int,
    values: map<(Measure, string), real>)

  /** The skills that the dictionary of measure m has as keys. */
  function MeasureKeys(values: map<(Measure, string), real>, m: Measure): (ks: set<string>)
    ensures forall s :: s in ks <==> (m, s) in values
  {
    set k | k in values && k.0 == m :: k.1
  }

  /** `int(x)` for a real: truncation toward zero. */
  function Trunc(x: real): (n: int)
    ensures x >= 0.0 ==> n as real <= x < n as real + 1.0
    ensures x < 0.0 ==> n as real - 1.0 < x <= n as real
  {
    if x >= 0.0 then x.Floor else -((-x).Floor)
  }

  /** A language counts as known unless it is missing or "Unknown". */
  predicate KnownLanguage(language: Option<string>) {
    language.Some? && language.value != "Unknown"
  }

  /** The skills a file stands for: its language followed by its frameworks. */
  function FileSkills(f: FileInfo): (skills: seq<string>)
    requires f.language.Some?
    ensures |skills| >= 1 && skills[0] == f.language.value
    ensures f.frameworks.Some? ==> skills[1..] == f.frameworks.value
    ensures f.frameworks.None? ==> skills == [f.language.value]
  {
    [f.language.value] + (if f.frameworks.Some? then f.frameworks.value else [])
  }

  /** The number of times x occurs in xs. */
  function Occurrences<T(==)>(xs: seq<T>, x: T): (n: nat)
    ensures n == 0 <==> x !in xs
    decreases |xs|
  {
    if xs == [] then 0
    else
      var init := xs[..|xs| - 1];
      assert xs == init + [xs[|xs| - 1]];
      Occurrences(init, x) + if xs[|xs| - 1] == x then 1 else 0
  }

  lemma OccurrencesSnoc<T>(xs: seq<T>, y: T, x: T)
    ensures Occurrences(xs + [y], x) == Occurrences(xs, x) + if y == x then 1 else 0
  {
    assert (xs + [y])[..|xs|] == xs;
  }

  /** Occurrences is the multiplicity of x in the multiset of xs. */
  lemma {:induction false} OccurrencesMultiset<T>(xs: seq<T>, x: T)
    ensures Occurrences(xs, x) == multiset(xs)[x]
    decreases |xs|
  {
    if xs != [] {
      var init := xs[..|xs| - 1];
      OccurrencesMultiset(init, x);
      assert xs == init + [xs[|xs| - 1]];
      assert multiset(xs) == multiset(init) + multiset{xs[|xs| - 1]};
    }
  }
  /** A file credits a skill once for its language and once more for each
      time its frameworks list it. */
  lemma FileSkillsOccurrences(f: FileInfo, s: string)
    requires f.language.Some?
    ensures Occurrences(FileSkills(f), s) ==
            (if f.language.value == s then 1 else 0)
            + (if f.frameworks.Some? then Occurrences(f.frameworks.value, s) else 0)
  {
    var fws := if f.frameworks.Some? then f.frameworks.value else [];
    assert FileSkills(f) == [f.language.value] + fws;
    OccurrencesMultiset(FileSkills(f), s);
    OccurrencesMultiset(fws, s);
    assert multiset(FileSkills(f)) == multiset([f.language.value]) + multiset(fws);
  }

}
