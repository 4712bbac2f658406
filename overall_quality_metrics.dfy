/** The overall quality of a user (`get_overall_quality_metrics`): every
    measure summed over the commits and divided by the number of commits that
    list the skill; the three ratings become letters. */
module OverallQualityMetrics {
  import opened Wrappers
  import opened Dicts
  import opened Models
  import opened Counters

  /** The per-skill quality: three rounded means per commit, the truncated
      mean of the vulnerabilities, three rounded means and three letters. */
  datatype SkillQuality = SkillQuality(
    bugsPerCommit: Option<real>,
    codeSmellsPerCommit: Option<real>,
    complexityPerCommit: Option<real>,
    vulnerabilitiesPerCommit: Option<int>,
    codeCoverage: Option<real>,
    duplicatedLinesDensity: Option<real>,
    reliabilityRating: Option<string>,
    securityRating: Option<string>,
    maintainabilityRating: Option<string>)

  /** The entry every skill starts with. */
  const NoQuality := SkillQuality(None, None, None, None, None, None, None, None, None)

  /** `_convert_rating_to_letter`: the buckets up to 1.5, 2.5, 3.5 and 4.5,
      each bound included, are "A" to "D"; anything above is "E". */
  function RatingLetter(rating: real): (letter: string)
    ensures |letter| == 1 && 'A' <= letter[0] <= 'E'
  {
    if rating <= 1.5 then "A"
    else if rating <= 2.5 then "B"
    else if rating <= 3.5 then "C"
    else if rating <= 4.5 then "D"
    else "E"
  }

  /** The letter is the bucket of the rating: letter n ("A" is 0) covers the
      ratings above n + 0.5 (for n > 0) up to and including n + 1.5 (for n < 4). */
  lemma RatingLetterBuckets(rating: real)
    ensures var n := (RatingLetter(rating)[0] as int) - ('A' as int);
            && (n < 4 ==> rating <= n as real + 1.5)
            && (n > 0 ==> rating > n as real + 0.5)
  {
  }

  /** A higher rating never gets an earlier letter. */
  lemma RatingLetterMonotone(r1: real, r2: real)
    requires r1 <= r2
    ensures RatingLetter(r1)[0] <= RatingLetter(r2)[0]
  {
  }

  /** The skills of the nine measure dictionaries of a commit. */
  function ValueSkills(values: map<(Measure, string), real>): (ss: set<string>)
    ensures forall s :: s in ss <==> exists m :: (m, s) in values
  {
    var ss := set k | k in values :: k.1;
    assert forall s :: s in ss ==> exists m :: (m, s) in values by {
      forall s | s in ss
        ensures exists m :: (m, s) in values
      {
        var k :| k in values && k.1 == s;
        assert (k.0, s) == k;
      }
    }
    ss
  }

  /** The first loop: every skill of any measure dictionary of any commit. */
  function AllSkills(commits: seq<CommitQuality>): set<string>
    decreases |commits|
  {
    if commits == [] then {} else AllSkills(commits[..|commits| - 1]) + ValueSkills(commits[|commits| - 1].values)
  }

  /** The nine per-skill sums of the commits' values (`skill_bugs` and the
      others, keyed by (measure, skill)). */
  function Sums(commits: seq<CommitQuality>): map<(Measure, string), real>
    decreases |commits|
  {
    if commits == [] then map[] else MergeR(Sums(commits[..|commits| - 1]), commits[|commits| - 1].values)
  }

  /** A `total_commits` counter with one more for each of the skills. */
  function Tick(totals: map<string, int>, skills: set<string>): (r: map<string, int>)
    ensures r.Keys == totals.Keys + skills
  {
    map s | s in totals.Keys + skills :: Count(totals, s) + if s in skills then 1 else 0
  }

  lemma TickAt(totals: map<string, int>, skills: set<string>, s: string)
    ensures Count(Tick(totals, skills), s) == Count(totals, s) + if s in skills then 1 else 0
  {
  }

  /** `total_commits` after the commits. */
  function Totals(commits: seq<CommitQuality>): map<string, int>
    decreases |commits|
  {
    if commits == [] then map[] else Tick(Totals(commits[..|commits| - 1]), commits[|commits| - 1].skills)
  }

  /** The entry of skill s: all None when no commit lists s among its skills;
      otherwise each sum divided by that number of commits. */
  function QualityOf(sums: map<(Measure, string), real>, totals: map<string, int>, round: real -> real, s: string)
      : SkillQuality
  {
    var n := Count(totals, s);
    if n == 0 then NoQuality
    else
      var d := n as real;
      SkillQuality(
        Some(round(CountR(sums, (Bugs, s)) / d)),
        Some(round(CountR(sums, (CodeSmells, s)) / d)),
        Some(round(CountR(sums, (Complexity, s)) / d)),
        Some(Trunc(CountR(sums, (Vulnerabilities, s)) / d)),
        Some(round(CountR(sums, (Coverage, s)) / d)),
        Some(round(CountR(sums, (DuplicatedLinesDensity, s)) / d)),
        Some(RatingLetter(CountR(sums, (ReliabilityRating, s)) / d)),
        Some(RatingLetter(CountR(sums, (SecurityRating, s)) / d)),
        Some(RatingLetter(CountR(sums, (MaintainabilityRating, s)) / d)))
  }

  /** The result while the last loop has visited the skills in done. */
  function Filled(all: set<string>, sums: map<(Measure, string), real>, totals: map<string, int>,
                  round: real -> real, done: set<string>): map<string, SkillQuality>
  {
    map s | s in all :: if s in done then QualityOf(sums, totals, round, s) else NoQuality
  }

  /** `get_overall_quality_metrics` as a function of the commits in order. */
  function Overall(commits: seq<CommitQuality>, round: real -> real): map<string, SkillQuality> {
    var all := AllSkills(commits);
    Filled(all, Sums(commits), Totals(commits), round, all)
  }

  /** The value of key k summed over the commits. */
  function SumValues(commits: seq<CommitQuality>, k: (Measure, string)): real
    decreases |commits|
  {
    if commits == [] then 0.0 else SumValues(commits[..|commits| - 1], k) + CountR(commits[|commits| - 1].values, k)
  }

  /** The number of commits that list skill s. */
  function CommitsWith(commits: seq<CommitQuality>, s: string): nat
    decreases |commits|
  {
    if commits == [] then 0 else CommitsWith(commits[..|commits| - 1], s) + if s in commits[|commits| - 1].skills then 1 else 0
  }

  lemma {:induction false} AllSkillsAt(commits: seq<CommitQuality>, s: string)
    ensures s in AllSkills(commits) <==> exists i, m :: 0 <= i < |commits| && (m, s) in commits[i].values
    decreases |commits|
  {
    if commits != [] {
      var init := commits[..|commits| - 1];
      AllSkillsAt(init, s);
      assert forall i :: 0 <= i < |init| ==> init[i] == commits[i];
    }
  }

  lemma {:induction false} SumsAt(commits: seq<CommitQuality>, k: (Measure, string))
    ensures CountR(Sums(commits), k) == SumValues(commits, k)
    decreases |commits|
  {
    if commits != [] {
      SumsAt(commits[..|commits| - 1], k);
    }
  }

  lemma {:induction false} TotalsAt(commits: seq<CommitQuality>, s: string)
    ensures Count(Totals(commits), s) == CommitsWith(commits, s)
    ensures CommitsWith(commits, s) == 0 <==> forall i :: 0 <= i < |commits| ==> s !in commits[i].skills
    decreases |commits|
  {
    if commits != [] {
      var init := commits[..|commits| - 1];
      TotalsAt(init, s);
      assert forall i :: 0 <= i < |init| ==> init[i] == commits[i];
      TickAt(Totals(init), commits[|commits| - 1].skills, s);
    }
  }

  /** The overall quality of skill s: present iff some commit has s in one of
      its measure dictionaries; all None when no commit lists s among its
      skills (such skills stay in the result); otherwise each field is the
      sum over the commits divided by the number of commits listing s,
      rounded, truncated for the vulnerabilities, as a letter for the ratings. */
  lemma OverallQualityAt(commits: seq<CommitQuality>, round: real -> real, s: string)
    ensures s in Overall(commits, round) <==> exists i, m :: 0 <= i < |commits| && (m, s) in commits[i].values
    ensures s in Overall(commits, round) ==>
              var q := Overall(commits, round)[s];
              var n := CommitsWith(commits, s);
              && (n == 0 <==> forall i :: 0 <= i < |commits| ==> s !in commits[i].skills)
              && (n == 0 ==> q == NoQuality)
              && (n > 0 ==>
                    var d := n as real;
                    && q.bugsPerCommit == Some(round(SumValues(commits, (Bugs, s)) / d))
                    && q.codeSmellsPerCommit == Some(round(SumValues(commits, (CodeSmells, s)) / d))
                    && q.complexityPerCommit == Some(round(SumValues(commits, (Complexity, s)) / d))
                    && q.vulnerabilitiesPerCommit == Some(Trunc(SumValues(commits, (Vulnerabilities, s)) / d))
                    && q.codeCoverage == Some(round(SumValues(commits, (Coverage, s)) / d))
                    && q.duplicatedLinesDensity == Some(round(SumValues(commits, (DuplicatedLinesDensity, s)) / d))
                    && q.reliabilityRating == Some(RatingLetter(SumValues(commits, (ReliabilityRating, s)) / d))
                    && q.securityRating == Some(RatingLetter(SumValues(commits, (SecurityRating, s)) / d))
                    && q.maintainabilityRating == Some(RatingLetter(SumValues(commits, (MaintainabilityRating, s)) / d)))
  {
    AllSkillsAt(commits, s);
    TotalsAt(commits, s);
    forall m: Measure {
      SumsAt(commits, (m, s));
    }
  }

  /** The first loop over the commits. */
  method CollectSkills(commits: seq<CommitQuality>) returns (all: set<string>)
    ensures all == AllSkills(commits)
  {
    all := {};
    var i := 0;
    while i < |commits|
      invariant 0 <= i <= |commits|
      invariant all == AllSkills(commits[..i])
    {
      assert commits[..i + 1][..i] == commits[..i];
      all := all + ValueSkills(commits[i].values);
      i := i + 1;
    }
    assert commits[..i] == commits;
  }

  /** The values of key set done of `values` added into `sums`. */
  ghost predicate AddedFor(r: map<(Measure, string), real>, sums: map<(Measure, string), real>,
                           values: map<(Measure, string), real>, done: set<(Measure, string)>)
  {
    && done <= values.Keys
    && r.Keys == sums.Keys + done
    && forall k :: CountR(r, k) == CountR(sums, k) + (if k in done then values[k] else 0.0)
  }

  lemma AddOneMore(r: map<(Measure, string), real>, sums: map<(Measure, string), real>,
                   values: map<(Measure, string), real>, done: set<(Measure, string)>, k: (Measure, string))
    requires AddedFor(r, sums, values, done) && k in values && k !in done
    ensures AddedFor(AddR(r, k, values[k]), sums, values, done + {k})
  {
    var r' := AddR(r, k, values[k]);
    forall j
      ensures CountR(r', j) == CountR(sums, j) + (if j in done + {k} then values[j] else 0.0)
    {
      if j != k {
        assert CountR(r', j) == CountR(r, j);
      }
    }
  }

  lemma AddedAll(r: map<(Measure, string), real>, sums: map<(Measure, string), real>,
                 values: map<(Measure, string), real>, keys: set<(Measure, string)>)
    requires AddedFor(r, sums, values, values.Keys - keys) && keys == {}
    ensures r == MergeR(sums, values)
  {
    assert values.Keys - keys == values.Keys;
    var merged := MergeR(sums, values);
    forall k | k in r
      ensures r[k] == merged[k]
    {
      assert CountR(r, k) == CountR(merged, k);
    }
  }

  /** The nine loops `skill_m[skill] += commit.m[skill]` of one commit. */
  method AddValues(sums: map<(Measure, string), real>, values: map<(Measure, string), real>)
      returns (r: map<(Measure, string), real>)
    ensures r == MergeR(sums, values)
  {
    r := sums;
    var keys := values.Keys;
    assert values.Keys - keys == {};
    while keys != {}
      invariant keys <= values.Keys
      invariant AddedFor(r, sums, values, values.Keys - keys)
      decreases keys
    {
      var k :| k in keys;
      AddOneMore(r, sums, values, values.Keys - keys, k);
      assert (values.Keys - keys) + {k} == values.Keys - (keys - {k});
      r := AddR(r, k, values[k]);
      keys := keys - {k};
    }
    AddedAll(r, sums, values, keys);
  }

  /** The counter after the skills in done are ticked. */
  ghost predicate TickedFor(r: map<string, int>, totals: map<string, int>, done: set<string>) {
    && r.Keys == totals.Keys + done
    && forall s :: Count(r, s) == Count(totals, s) + if s in done then 1 else 0
  }

  lemma TickOneMore(r: map<string, int>, totals: map<string, int>, done: set<string>, s: string)
    requires TickedFor(r, totals, done) && s !in done
    ensures TickedFor(Add(r, s, 1), totals, done + {s})
  {
    var r' := Add(r, s, 1);
    forall j
      ensures Count(r', j) == Count(totals, j) + if j in done + {s} then 1 else 0
    {
      if j != s {
        assert Count(r', j) == Count(r, j);
      }
    }
  }

  lemma TickedAll(r: map<string, int>, totals: map<string, int>, skills: set<string>)
    requires TickedFor(r, totals, skills)
    ensures r == Tick(totals, skills)
  {
    var t := Tick(totals, skills);
    forall k | k in r
      ensures r[k] == t[k]
    {
      assert Count(r, k) == Count(t, k);
    }
  }

  /** The loop `total_commits[skill] += 1` over one commit's skills. */
  method TickSkills(totals: map<string, int>, skills: set<string>) returns (r: map<string, int>)
    ensures r == Tick(totals, skills)
  {
    r := totals;
    var remaining := skills;
    ghost var done: set<string> := {};
    while remaining != {}
      invariant done + remaining == skills && done !! remaining
      invariant TickedFor(r, totals, done)
      decreases remaining
    {
      var s :| s in remaining;
      TickOneMore(r, totals, done, s);
      r := Add(r, s, 1);
      done := done + {s};
      remaining := remaining - {s};
    }
    TickedAll(r, totals, skills);
  }

  /** The second loop over the commits. */
  method SumCommits(commits: seq<CommitQuality>) returns (sums: map<(Measure, string), real>, totals: map<string, int>)
    ensures sums == Sums(commits) && totals == Totals(commits)
  {
    sums := map[];
    totals := map[];
    var i := 0;
    while i < |commits|
      invariant 0 <= i <= |commits|
      invariant sums == Sums(commits[..i]) && totals == Totals(commits[..i])
    {
      assert commits[..i + 1][..i] == commits[..i];
      sums := AddValues(sums, commits[i].values);
      totals := TickSkills(totals, commits[i].skills);
      i := i + 1;
    }
    assert commits[..i] == commits;
  }

  lemma FilledNext(all: set<string>, sums: map<(Measure, string), real>, totals: map<string, int>,
                   round: real -> real, done: set<string>, s: string)
    requires s in all && s !in done
    ensures var r := Filled(all, sums, totals, round, done);
            var r' := Filled(all, sums, totals, round, done + {s});
            r' == (if Count(totals, s) != 0 then r[s := QualityOf(sums, totals, round, s)] else r)
  {
    var r := Filled(all, sums, totals, round, done);
    var r' := Filled(all, sums, totals, round, done + {s});
    var e := if Count(totals, s) != 0 then r[s := QualityOf(sums, totals, round, s)] else r;
    forall k | k in r'
      ensures r'[k] == e[k]
    {
    }
    assert r'.Keys == e.Keys;
  }

  /** The loop that gives every skill the all-None entry. */
  method InitEntries(all: set<string>) returns (r: map<string, SkillQuality>)
    ensures r == map s | s in all :: NoQuality
  {
    r := map[];
    var remaining := all;
    while remaining != {}
      invariant remaining <= all
      invariant r == map s | s in all - remaining :: NoQuality
      decreases remaining
    {
      var s :| s in remaining;
      r := r[s := NoQuality];
      remaining := remaining - {s};
    }
  }

  /** The last loop: every skill listed by some commit gets its means. */
  method FillEntries(all: set<string>, sums: map<(Measure, string), real>, totals: map<string, int>,
                     round: real -> real, init: map<string, SkillQuality>)
      returns (r: map<string, SkillQuality>)
    requires init == map s | s in all :: NoQuality
    ensures r == Filled(all, sums, totals, round, all)
  {
    r := init;
    assert r == Filled(all, sums, totals, round, {});
    var remaining := all;
    while remaining != {}
      invariant remaining <= all
      invariant r == Filled(all, sums, totals, round, all - remaining)
      decreases remaining
    {
      var s :| s in remaining;
      FilledNext(all, sums, totals, round, all - remaining, s);
      if Count(totals, s) != 0 {
        r := r[s := QualityOf(sums, totals, round, s)];
      }
      assert (all - remaining) + {s} == all - (remaining - {s});
      remaining := remaining - {s};
    }
    assert all - remaining == all;
  }

  /** `get_overall_quality_metrics`: the commits are visited in the order of
      the dictionary; `round` is `round(x, 1)`. */
  method GetOverallQualityMetrics(metrics: Dict<string, CommitQuality>, round: real -> real)
      returns (r: map<string, SkillQuality>)
    ensures r == Overall(Values(metrics), round)
  {
    var commits := Values(metrics);
    var all := CollectSkills(commits);
    var init := InitEntries(all);
    var sums, totals := SumCommits(commits);
    r := FillEntries(all, sums, totals, round, init);
  }
}
