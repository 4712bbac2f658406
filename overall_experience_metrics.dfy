/** The overall experience of a user (`get_overall_experience_metrics`): the
    commits' experience metrics folded into one entry per skill. */
module OverallExperienceMetrics {
  import opened Dicts
  import opened Models
  import opened Counters

  /** The experience with one skill: lines added, first and last commit
      instants, and the repositories it was used in. */
  datatype Experience = Experience(linesOfCode: int, firstCommit: int, lastCommit: int, repos: set<string>)

  /** The statements for one skill of one commit: a new skill starts an entry
      from this commit; a known one adds the lines and the repository and
      moves the first and last instants outwards. */
  function AddSkill(skills: map<string, Experience>, c: CommitExperience, skill: string): map<string, Experience>
    requires skill in c.linesOfCode
  {
    var lines := c.linesOfCode[skill];
    if skill !in skills then skills[skill := Experience(lines, c.timestamp, c.timestamp, {c.repoUrl})]
    else
      var e := skills[skill];
      var first := if c.timestamp < e.firstCommit then c.timestamp else e.firstCommit;
      var last := if c.timestamp > e.lastCommit then c.timestamp else e.lastCommit;
      skills[skill := Experience(e.linesOfCode + lines, first, last, e.repos + {c.repoUrl})]
  }

  /** The entries once the skills in done of commit c are added. */
  function Merged(skills: map<string, Experience>, c: CommitExperience, done: set<string>): map<string, Experience>
    requires done <= c.linesOfCode.Keys
  {
    map k | k in skills.Keys + done :: if k in done then AddSkill(skills, c, k)[k] else skills[k]
  }

  /** One commit added: every skill of its `lines_of_code`. */
  function AddCommit(skills: map<string, Experience>, c: CommitExperience): map<string, Experience> {
    Merged(skills, c, c.linesOfCode.Keys)
  }

  /** The loop over the commits. */
  function Overall(commits: seq<CommitExperience>): map<string, Experience>
    decreases |commits|
  {
    if commits == [] then map[] else AddCommit(Overall(commits[..|commits| - 1]), commits[|commits| - 1])
  }

  /** The lines the commits added for skill s. */
  function LinesOf(commits: seq<CommitExperience>, s: string): int
    decreases |commits|
  {
    if commits == [] then 0 else LinesOf(commits[..|commits| - 1], s) + Count(commits[|commits| - 1].linesOfCode, s)
  }

  /** The repositories of the commits that used skill s. */
  function ReposOf(commits: seq<CommitExperience>, s: string): set<string> {
    set c | c in commits && s in c.linesOfCode :: c.repoUrl
  }

  /** t is the earliest instant of a commit that used skill s. */
  ghost predicate IsFirst(commits: seq<CommitExperience>, s: string, t: int) {
    && (exists c :: c in commits && s in c.linesOfCode && c.timestamp == t)
    && (forall c :: c in commits && s in c.linesOfCode ==> t <= c.timestamp)
  }

  /** t is the latest instant of a commit that used skill s. */
  ghost predicate IsLast(commits: seq<CommitExperience>, s: string, t: int) {
    && (exists c :: c in commits && s in c.linesOfCode && c.timestamp == t)
    && (forall c :: c in commits && s in c.linesOfCode ==> c.timestamp <= t)
  }

  /** Adding one more skill of the commit. */
  lemma MergedStep(skills: map<string, Experience>, c: CommitExperience, done: set<string>, k: string)
    requires done <= c.linesOfCode.Keys && k in c.linesOfCode && k !in done
    ensures AddSkill(Merged(skills, c, done), c, k) == Merged(skills, c, done + {k})
  {
    var a := AddSkill(Merged(skills, c, done), c, k);
    var b := Merged(skills, c, done + {k});
    assert a.Keys == b.Keys;
    forall j | j in a
      ensures a[j] == b[j]
    {
    }
  }

  /** What one commit does to the entry of skill s. */
  lemma AddCommitAt(skills: map<string, Experience>, c: CommitExperience, s: string)
    ensures var r := AddCommit(skills, c);
            && (s in r <==> s in skills || s in c.linesOfCode)
            && (s in r && s !in c.linesOfCode ==> r[s] == skills[s])
            && (s in c.linesOfCode ==> r[s] == AddSkill(skills, c, s)[s])
  {
  }

  lemma LinesOfSnoc(commits: seq<CommitExperience>, c: CommitExperience, s: string)
    ensures LinesOf(commits + [c], s) == LinesOf(commits, s) + Count(c.linesOfCode, s)
  {
    assert (commits + [c])[..|commits|] == commits;
  }

  lemma ReposOfSnoc(commits: seq<CommitExperience>, c: CommitExperience, s: string)
    ensures ReposOf(commits + [c], s) == ReposOf(commits, s) + if s in c.linesOfCode then {c.repoUrl} else {}
  {
    assert forall x :: x in commits + [c] <==> x in commits || x == c;
  }

  /** The entry of skill s: present iff some commit used s; its lines are the
      sum of the commits' lines for s, its repositories those of the commits
      that used s, its first and last instants the earliest and latest of
      those commits. */
  lemma OverallAt(commits: seq<CommitExperience>, s: string)
    ensures s in Overall(commits) <==> exists c :: c in commits && s in c.linesOfCode
    ensures s in Overall(commits) ==>
              var e := Overall(commits)[s];
              && e.linesOfCode == LinesOf(commits, s)
              && e.repos == ReposOf(commits, s)
              && IsFirst(commits, s, e.firstCommit)
              && IsLast(commits, s, e.lastCommit)
  {
    OverallHas(commits, s);
    if s in Overall(commits) {
      OverallSums(commits, s);
      OverallFirst(commits, s);
      OverallLast(commits, s);
    }
  }

  /** A skill has an entry iff some commit used it. */
  lemma {:induction false} OverallHas(commits: seq<CommitExperience>, s: string)
    ensures s in Overall(commits) <==> exists c :: c in commits && s in c.linesOfCode
    decreases |commits|
  {
    if commits != [] {
      var init := commits[..|commits| - 1];
      var c := commits[|commits| - 1];
      OverallHas(init, s);
      AddCommitAt(Overall(init), c, s);
      assert forall x :: x in commits <==> x in init || x == c by {
        assert commits == init + [c];
      }
    }
  }

  /** The lines and repositories of an entry. */
  lemma {:induction false} OverallSums(commits: seq<CommitExperience>, s: string)
    requires s in Overall(commits)
    ensures Overall(commits)[s].linesOfCode == LinesOf(commits, s)
    ensures Overall(commits)[s].repos == ReposOf(commits, s)
    decreases |commits|
  {
    var init := commits[..|commits| - 1];
    var c := commits[|commits| - 1];
    assert commits == init + [c];
    AddCommitAt(Overall(init), c, s);
    LinesOfSnoc(init, c, s);
    ReposOfSnoc(init, c, s);
    if s in Overall(init) {
      OverallSums(init, s);
    } else {
      OverallHas(init, s);
      LinesOfUnused(init, s);
      assert ReposOf(init, s) == {};
    }
  }

  /** The first instant of an entry. */
  lemma {:induction false} OverallFirst(commits: seq<CommitExperience>, s: string)
    requires s in Overall(commits)
    ensures IsFirst(commits, s, Overall(commits)[s].firstCommit)
    decreases |commits|
  {
    var init := commits[..|commits| - 1];
    var c := commits[|commits| - 1];
    assert commits == init + [c];
    assert forall x :: x in commits <==> x in init || x == c;
    AddCommitAt(Overall(init), c, s);
    if s in Overall(init) {
      OverallFirst(init, s);
    } else {
      OverallHas(init, s);
    }
  }

  /** The last instant of an entry. */
  lemma {:induction false} OverallLast(commits: seq<CommitExperience>, s: string)
    requires s in Overall(commits)
    ensures IsLast(commits, s, Overall(commits)[s].lastCommit)
    decreases |commits|
  {
    var init := commits[..|commits| - 1];
    var c := commits[|commits| - 1];
    assert commits == init + [c];
    assert forall x :: x in commits <==> x in init || x == c;
    AddCommitAt(Overall(init), c, s);
    if s in Overall(init) {
      OverallLast(init, s);
    } else {
      OverallHas(init, s);
    }
  }

  lemma {:induction false} LinesOfUnused(commits: seq<CommitExperience>, s: string)
    requires forall c :: c in commits ==> s !in c.linesOfCode
    ensures LinesOf(commits, s) == 0
    decreases |commits|
  {
    if commits != [] {
      var init := commits[..|commits| - 1];
      assert forall c :: c in init ==> c in commits;
      LinesOfUnused(init, s);
    }
  }

  /** No skill's first commit comes after its last. */
  lemma FirstNotAfterLast(commits: seq<CommitExperience>, s: string)
    requires s in Overall(commits)
    ensures Overall(commits)[s].firstCommit <= Overall(commits)[s].lastCommit
  {
    OverallAt(commits, s);
    var e := Overall(commits)[s];
    var c :| c in commits && s in c.linesOfCode && c.timestamp == e.firstCommit;
  }

  lemma {:induction false} LinesOfAppend(a: seq<CommitExperience>, b: seq<CommitExperience>, s: string)
    ensures LinesOf(a + b, s) == LinesOf(a, s) + LinesOf(b, s)
    decreases |b|
  {
    if b == [] {
      assert a + b == a;
    } else {
      var init := b[..|b| - 1];
      LinesOfAppend(a, init, s);
      assert a + b == (a + init) + [b[|b| - 1]];
      assert b == init + [b[|b| - 1]];
      LinesOfSnoc(a + init, b[|b| - 1], s);
      LinesOfSnoc(init, b[|b| - 1], s);
    }
  }

  lemma RemoveOne(a: seq<CommitExperience>, b: seq<CommitExperience>, init: seq<CommitExperience>,
                  rest: seq<CommitExperience>, j: int)
    requires multiset(a) == multiset(b) && a != [] && init == a[..|a| - 1]
    requires 0 <= j < |b| && b[j] == a[|a| - 1] && rest == b[..j] + b[j + 1..]
    ensures multiset(init) == multiset(rest)
  {
    var x := a[|a| - 1];
    assert a == init + [x];
    assert multiset(a) == multiset(init) + multiset{x};
    assert b == b[..j] + [x] + b[j + 1..];
    assert multiset(b) == multiset(b[..j]) + multiset{x} + multiset(b[j + 1..]);
    assert multiset(rest) == multiset(b[..j]) + multiset(b[j + 1..]);
    forall y
      ensures multiset(init)[y] == multiset(rest)[y]
    {
      assert multiset(a)[y] == multiset(b)[y];
    }
  }

  /** The lines of a skill do not depend on the order of the commits. */
  lemma {:induction false} LinesOfPermutation(a: seq<CommitExperience>, b: seq<CommitExperience>, s: string)
    requires multiset(a) == multiset(b)
    ensures LinesOf(a, s) == LinesOf(b, s)
    decreases |a|
  {
    if a != [] {
      var init := a[..|a| - 1];
      var x := a[|a| - 1];
      assert a == init + [x];
      assert x in multiset(b);
      var j :| 0 <= j < |b| && b[j] == x;
      assert b == b[..j] + [x] + b[j + 1..];
      var rest := b[..j] + b[j + 1..];
      RemoveOne(a, b, init, rest, j);
      LinesOfPermutation(init, rest, s);
      LinesOfSnoc(init, x, s);
      LinesOfAppend(b[..j] + [x], b[j + 1..], s);
      LinesOfSnoc(b[..j], x, s);
      LinesOfAppend(b[..j], b[j + 1..], s);
    }
  }

  /** The earliest instant is the same over two lists holding the same commits. */
  lemma FirstUnique(a: seq<CommitExperience>, b: seq<CommitExperience>, s: string, ta: int, tb: int)
    requires forall x :: x in a <==> x in b
    requires IsFirst(a, s, ta) && IsFirst(b, s, tb)
    ensures ta == tb
  {
    var ca :| ca in a && s in ca.linesOfCode && ca.timestamp == ta;
    var cb :| cb in b && s in cb.linesOfCode && cb.timestamp == tb;
    assert ta <= cb.timestamp && tb <= ca.timestamp;
  }

  /** The latest instant is the same over two lists holding the same commits. */
  lemma LastUnique(a: seq<CommitExperience>, b: seq<CommitExperience>, s: string, ta: int, tb: int)
    requires forall x :: x in a <==> x in b
    requires IsLast(a, s, ta) && IsLast(b, s, tb)
    ensures ta == tb
  {
    var ca :| ca in a && s in ca.linesOfCode && ca.timestamp == ta;
    var cb :| cb in b && s in cb.linesOfCode && cb.timestamp == tb;
    assert cb.timestamp <= ta && ca.timestamp <= tb;
  }

  /** The entry of one skill does not depend on the order of the commits. */
  lemma OverallPermutationAt(a: seq<CommitExperience>, b: seq<CommitExperience>, s: string)
    requires multiset(a) == multiset(b)
    requires forall x :: x in a <==> x in b
    ensures s in Overall(a) <==> s in Overall(b)
    ensures s in Overall(a) ==> Overall(a)[s] == Overall(b)[s]
  {
    OverallAt(a, s);
    OverallAt(b, s);
    if s in Overall(a) {
      var ea := Overall(a)[s];
      var eb := Overall(b)[s];
      LinesOfPermutation(a, b, s);
      assert ReposOf(a, s) == ReposOf(b, s);
      FirstUnique(a, b, s, ea.firstCommit, eb.firstCommit);
      LastUnique(a, b, s, ea.lastCommit, eb.lastCommit);
    }
  }

  /** The overall experience does not depend on the order in which the
      commits are visited. */
  lemma OverallPermutation(a: seq<CommitExperience>, b: seq<CommitExperience>)
    requires multiset(a) == multiset(b)
    ensures Overall(a) == Overall(b)
  {
    assert forall x :: x in a <==> x in b by {
      forall x
        ensures x in a <==> x in b
      {
        assert x in a <==> x in multiset(a);
        assert x in b <==> x in multiset(b);
      }
    }
    var ra := Overall(a);
    var rb := Overall(b);
    forall s
      ensures s in ra <==> s in rb
      ensures s in ra ==> ra[s] == rb[s]
    {
      OverallPermutationAt(a, b, s);
    }
    assert ra.Keys == rb.Keys;
  }

  /** The inner loop: the skills of one commit's `lines_of_code`, in any
      order. */
  method AddCommitSkills(skills: map<string, Experience>, c: CommitExperience) returns (r: map<string, Experience>)
    ensures r == AddCommit(skills, c)
  {
    r := skills;
    var keys := c.linesOfCode.Keys;
    var remaining := keys;
    assert r == Merged(skills, c, keys - remaining);
    while remaining != {}
      invariant remaining <= keys
      invariant r == Merged(skills, c, keys - remaining)
      decreases remaining
    {
      var skill :| skill in remaining;
      MergedNext(skills, c, remaining, skill);
      r := AddSkill(r, c, skill);
      remaining := remaining - {skill};
    }
    MergedAll(skills, c, remaining);
  }

  lemma MergedNext(skills: map<string, Experience>, c: CommitExperience, remaining: set<string>, skill: string)
    requires remaining <= c.linesOfCode.Keys && skill in remaining
    ensures AddSkill(Merged(skills, c, c.linesOfCode.Keys - remaining), c, skill)
              == Merged(skills, c, c.linesOfCode.Keys - (remaining - {skill}))
  {
    var keys := c.linesOfCode.Keys;
    MergedStep(skills, c, keys - remaining, skill);
    assert (keys - remaining) + {skill} == keys - (remaining - {skill});
  }

  lemma MergedAll(skills: map<string, Experience>, c: CommitExperience, remaining: set<string>)
    requires remaining == {}
    ensures Merged(skills, c, c.linesOfCode.Keys - remaining) == AddCommit(skills, c)
  {
    assert c.linesOfCode.Keys - remaining == c.linesOfCode.Keys;
  }

  /** `get_overall_experience_metrics`: the commits are visited in the order
      of the dictionary. Timestamps are already instants, so the time-zone
      normalisation is the identity. */
  method GetOverallExperienceMetrics(metrics: Dict<string, CommitExperience>) returns (r: map<string, Experience>)
    ensures r == Overall(Values(metrics))
  {
    var commits := Values(metrics);
    r := map[];
    var i := 0;
    while i < |commits|
      invariant 0 <= i <= |commits|
      invariant r == Overall(commits[..i])
    {
      assert commits[..i + 1][..i] == commits[..i];
      r := AddCommitSkills(r, commits[i]);
      i := i + 1;
    }
    assert commits[..i] == commits;
  }
}
