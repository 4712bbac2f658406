/** The scoring step: the user's repositories folded into one response, the
    union of their languages and frameworks and the sum of their line counts. */
module ScoringEngine {
  import opened Wrappers
  import opened Strings
  import opened Models
  import opened Counters

  /** `AnalyzeResponse`. `languages` and `frameworks` are `list(set)` in the
      source, whose order Python leaves unspecified, so they are sets here. */
  datatype AnalyzeResponse = AnalyzeResponse(
    username: string,
    name: string,
    repos: seq<string>,
    languages: set<string>,
    frameworks: set<string>,
    message: string,
    metrics: Metrics)

  /** What `score` reads of one repository. */
  datatype RepoView = RepoView(url: string, languages: seq<string>, frameworks: seq<string>,
                               metrics: Option<Metrics>)

  /** The repositories' fields as values. */
  function Views(repos: seq<Repo>): (vs: seq<RepoView>)
    reads repos
    ensures |vs| == |repos|
    ensures forall i :: 0 <= i < |repos| ==>
              vs[i] == RepoView(repos[i].url, repos[i].languages, repos[i].frameworks, repos[i].metrics)
  {
    seq(|repos|, i requires 0 <= i < |repos| reads repos =>
          RepoView(repos[i].url, repos[i].languages, repos[i].frameworks, repos[i].metrics))
  }

  /** Every repository has its metrics. */
  predicate AllMeasured(vs: seq<RepoView>) {
    forall i :: 0 <= i < |vs| ==> vs[i].metrics.Some?
  }

  /** `set.update(xs)` adds exactly the elements of xs. */
  function Elements(xs: seq<string>): (r: set<string>)
    ensures forall x :: x in r <==> x in xs
  {
    set x | x in xs
  }

  /** The union of the repositories' languages. */
  function AllLanguages(vs: seq<RepoView>): set<string> {
    if vs == [] then {} else AllLanguages(vs[..|vs| - 1]) + Elements(vs[|vs| - 1].languages)
  }

  /** The union of the repositories' frameworks. */
  function AllFrameworks(vs: seq<RepoView>): set<string> {
    if vs == [] then {} else AllFrameworks(vs[..|vs| - 1]) + Elements(vs[|vs| - 1].frameworks)
  }

  /** The line counts of all the repositories, added key by key. */
  function TotalLines(vs: seq<RepoView>): map<Option<string>, int>
    requires AllMeasured(vs)
  {
    if vs == [] then map[]
    else
      var m := |vs| - 1;
      assert AllMeasured(vs[..m]) by {
        assert forall i :: 0 <= i < m ==> vs[..m][i] == vs[i];
      }
      Merge(TotalLines(vs[..m]), vs[m].metrics.value.linesOfCode)
  }

  /** The sum over the repositories of their count for skill k. */
  function SumAt(vs: seq<RepoView>, k: Option<string>): int
    requires AllMeasured(vs)
  {
    if vs == [] then 0
    else
      assert AllMeasured(vs[1..]) by {
        assert forall i :: 0 <= i < |vs| - 1 ==> vs[1..][i] == vs[i + 1];
      }
      Count(vs[0].metrics.value.linesOfCode, k) + SumAt(vs[1..], k)
  }

  /** The URLs of the repositories, in order. */
  function Urls(vs: seq<RepoView>): (urls: seq<string>)
    ensures |urls| == |vs| && forall i :: 0 <= i < |vs| ==> urls[i] == vs[i].url
  {
    seq(|vs|, i requires 0 <= i < |vs| => vs[i].url)
  }

  /** The greeting of the response. */
  function Message(username: string, count: nat): string {
    "Hello, " + username + "!, you have " + NatToString(count) + " public repos"
  }

  /** A language is in the union iff some repository lists it. */
  lemma {:induction false} AllLanguagesMember(repos: seq<RepoView>, l: string)
    ensures l in AllLanguages(repos) <==> exists i :: 0 <= i < |repos| && l in repos[i].languages
    decreases |repos|
  {
    if repos != [] {
      var m := |repos| - 1;
      AllLanguagesMember(repos[..m], l);
      assert forall i :: 0 <= i < m ==> repos[..m][i] == repos[i];
    }
  }

  /** A framework is in the union iff some repository lists it. */
  lemma {:induction false} AllFrameworksMember(repos: seq<RepoView>, l: string)
    ensures l in AllFrameworks(repos) <==> exists i :: 0 <= i < |repos| && l in repos[i].frameworks
    decreases |repos|
  {
    if repos != [] {
      var m := |repos| - 1;
      AllFrameworksMember(repos[..m], l);
      assert forall i :: 0 <= i < m ==> repos[..m][i] == repos[i];
    }
  }

  lemma {:induction false} SumAtSnoc(repos: seq<RepoView>, k: Option<string>)
    requires repos != [] && AllMeasured(repos)
    ensures AllMeasured(repos[..|repos| - 1])
    ensures SumAt(repos, k) == SumAt(repos[..|repos| - 1], k) + Count(repos[|repos| - 1].metrics.value.linesOfCode, k)
    decreases |repos|
  {
    var m := |repos| - 1;
    assert forall i :: 0 <= i < m ==> repos[..m][i] == repos[i];
    if m > 0 {
      var tail := repos[1..];
      assert forall i :: 0 <= i < |tail| ==> tail[i] == repos[i + 1];
      SumAtSnoc(tail, k);
      assert tail[..|tail| - 1] == repos[..m][1..];
    }
  }

  /** `total_lines_of_code[k]` is the sum over the repositories of their own
      count for k, and its keys are the keys of any repository's counts. */
  lemma {:induction false} TotalLinesAt(repos: seq<RepoView>, k: Option<string>)
    requires AllMeasured(repos)
    ensures Count(TotalLines(repos), k) == SumAt(repos, k)
    ensures k in TotalLines(repos) <==> exists i :: 0 <= i < |repos| && k in repos[i].metrics.value.linesOfCode
    decreases |repos|
  {
    if repos != [] {
      var m := |repos| - 1;
      SumAtSnoc(repos, k);
      TotalLinesAt(repos[..m], k);
      assert forall i :: 0 <= i < m ==> repos[..m][i] == repos[i];
    }
  }

  /** The greeting names the user and the number of repositories, written in
      decimal so that `int()` reads it back. */
  lemma MessageNamesCount(username: string, count: nat)
    ensures var digits := NatToString(count);
            && Message(username, count) == "Hello, " + username + "!, you have " + digits + " public repos"
            && ParseInt(digits) == Some(count)
  {
    ParseIntOfNat(count);
  }

  /** The counts of lines for the keys in done, added to total. */
  ghost predicate AddedFor(r: map<Option<string>, int>, total: map<Option<string>, int>,
                     lines: map<Option<string>, int>, done: set<Option<string>>)
  {
    && done <= lines.Keys
    && r.Keys == total.Keys + done
    && forall k :: Count(r, k) == Count(total, k) + (if k in done then lines[k] else 0)
  }

  /** Adding the count of one more key. */
  lemma AddOneMore(r: map<Option<string>, int>, total: map<Option<string>, int>,
                   lines: map<Option<string>, int>, done: set<Option<string>>, k: Option<string>)
    requires AddedFor(r, total, lines, done) && k in lines && k !in done
    ensures AddedFor(Add(r, k, lines[k]), total, lines, done + {k})
  {
    var r' := Add(r, k, lines[k]);
    forall j
      ensures Count(r', j) == Count(total, j) + (if j in done + {k} then lines[j] else 0)
    {
      if j != k {
        assert Count(r', j) == Count(r, j);
      }
    }
  }

  /** Once every key is added, the result is the merge. */
  lemma AddedAll(r: map<Option<string>, int>, total: map<Option<string>, int>,
                  lines: map<Option<string>, int>, keys: set<Option<string>>)
    requires AddedFor(r, total, lines, lines.Keys - keys) && keys == {}
    ensures r == Merge(total, lines)
  {
    assert lines.Keys - keys == lines.Keys;
    var merged := Merge(total, lines);
    forall k | k in r
      ensures r[k] == merged[k]
    {
      assert Count(r, k) == Count(merged, k);
    }
  }

  /** The inner loop of `score`: one repository's counts added into the total. */
  method AddCounts(total: map<Option<string>, int>, lines: map<Option<string>, int>)
      returns (r: map<Option<string>, int>)
    ensures r == Merge(total, lines)
  {
    r := total;
    var keys := lines.Keys;
    assert lines.Keys - keys == {};
    while keys != {}
      invariant keys <= lines.Keys
      invariant AddedFor(r, total, lines, lines.Keys - keys)
      decreases keys
    {
      var k :| k in keys;
      AddOneMore(r, total, lines, lines.Keys - keys, k);
      assert (lines.Keys - keys) + {k} == lines.Keys - (keys - {k});
      r := Add(r, k, lines[k]);
      keys := keys - {k};
    }
    AddedAll(r, total, lines, keys);
  }

  /** The folds over one more repository of a measured prefix. */
  lemma ScoreStep(repos: seq<RepoView>, i: nat)
    requires i < |repos| && AllMeasured(repos[..i])
    ensures var next := repos[..i + 1];
            && AllLanguages(next) == AllLanguages(repos[..i]) + Elements(repos[i].languages)
            && AllFrameworks(next) == AllFrameworks(repos[..i]) + Elements(repos[i].frameworks)
            && Urls(next) == Urls(repos[..i]) + [repos[i].url]
            && (AllMeasured(next) <==> repos[i].metrics.Some?)
            && (AllMeasured(next) ==>
                  TotalLines(next) == Merge(TotalLines(repos[..i]), repos[i].metrics.value.linesOfCode))
  {
    var next := repos[..i + 1];
    assert next[..i] == repos[..i];
    assert forall j :: 0 <= j < i ==> next[j] == repos[..i][j];
  }

  /** `ScoringEngine.score`: raises (here Err) when a repository has no
      metrics; otherwise the response holds the username, the name "asdf", the
      repository URLs in order, the unions of languages and frameworks, the
      greeting and the summed line counts. */
  method Score(user: User) returns (r: Result<AnalyzeResponse>)
    ensures var vs := Views(user.repos);
            && (r.Err? <==> !AllMeasured(vs))
            && (r.Ok? ==> AllMeasured(vs) && r.value == AnalyzeResponse(
                  user.username, "asdf", Urls(vs), AllLanguages(vs), AllFrameworks(vs),
                  Message(user.username, |vs|), Metrics(TotalLines(vs))))
  {
    var repos := user.repos;
    ghost var vs := Views(repos);
    var total: map<Option<string>, int> := map[];
    var languages: set<string> := {};
    var frameworks: set<string> := {};
    var urls: seq<string> := [];
    var i := 0;
    while i < |repos|
      invariant 0 <= i <= |repos|
      invariant AllMeasured(vs[..i])
      invariant languages == AllLanguages(vs[..i]) && frameworks == AllFrameworks(vs[..i])
      invariant total == TotalLines(vs[..i])
      invariant urls == Urls(vs[..i])
    {
      var repo := repos[i];
      assert vs[i] == RepoView(repo.url, repo.languages, repo.frameworks, repo.metrics);
      ScoreStep(vs, i);
      languages := languages + Elements(repo.languages);
      frameworks := frameworks + Elements(repo.frameworks);
      if repo.metrics.None? {
        assert !AllMeasured(vs);
        return Err("AttributeError: 'NoneType' object has no attribute 'lines_of_code'");
      }
      total := AddCounts(total, repo.metrics.value.linesOfCode);
      urls := urls + [repo.url];
      i := i + 1;
    }
    assert vs[..i] == vs;
    r := Ok(AnalyzeResponse(user.username, "asdf", urls, languages, frameworks,
                            Message(user.username, |repos|), Metrics(total)));
  }
}
