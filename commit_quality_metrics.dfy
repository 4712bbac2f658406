/** The quality metrics of one commit (the aggregation in
    `get_quality_metrics`): the scanner's per-file records are credited to the
    skills of the commit's files, whole-count measures summed and the averaged
    measures divided by the number of files that reported them. */
module CommitQualityMetrics {
  import opened Wrappers
  import opened Dicts
  import opened Models
  import opened Counters

  /** The value a file record reports for measure m. The maintainability
      rating is the scanner's `sqale_rating`, the only maintainability field a
      record has. */
  function Reported(r: FileQualityMetrics, m: Measure): Option<real> {
    match m
    case Bugs => r.bugs
    case CodeSmells => r.codeSmells
    case Complexity => r.complexity
    case Vulnerabilities => r.vulnerabilities
    case Coverage => r.coverage
    case DuplicatedLinesDensity => r.duplicatedLinesDensity
    case ReliabilityRating => r.reliabilityRating
    case SecurityRating => r.securityRating
    case MaintainabilityRating => r.sqaleRating
  }

  /** What one occurrence of a skill adds: `int(v)` for the whole-count
      measures, `float(v)` for the averaged ones. */
  function Contribution(m: Measure, v: real): real {
    if IsAveraged(m) then v else Trunc(v) as real
  }

  /** The skills a record is credited to: those of the commit's file at its
      path, or None when the commit has no such file or its language is
      missing or "Unknown". */
  function CountedSkills(files: Dict<string, FileInfo>, path: string): Option<seq<string>> {
    var info := Get(files, path);
    if info.Some? && KnownLanguage(info.value.language) then Some(FileSkills(info.value)) else None
  }

  /** The measures a record reports, with their values. */
  function ReportedValues(r: FileQualityMetrics): (vals: map<Measure, real>)
    ensures forall m :: m in vals <==> Reported(r, m).Some?
    ensures forall m :: m in vals ==> vals[m] == Reported(r, m).value
  {
    map m | m in AllMeasures && Reported(r, m).Some? :: Reported(r, m).value
  }

  /** A record as the aggregation reads it: the measures it reports and the
      skills it is credited to. */
  type Lookup = (map<Measure, real>, Option<seq<string>>)

  /** A key of the per-skill dictionaries: a measure and a skill. */
  type Key = (Measure, string)

  /** Each record as the aggregation reads it. */
  function Lookups(files: Dict<string, FileInfo>, records: seq<FileQualityMetrics>): (l: seq<Lookup>)
    ensures |l| == |records|
    ensures forall i :: 0 <= i < |records| ==>
              l[i] == (ReportedValues(records[i]), CountedSkills(files, records[i].filePath))
  {
    seq(|records|, i requires 0 <= i < |records| =>
      (ReportedValues(records[i]), CountedSkills(files, records[i].filePath)))
  }

  /** The nine per-skill dictionaries, keyed by (measure, skill), and the five
      per-skill counters of the averaged measures. */
  datatype Tally = Tally(sums: map<Key, real>, counts: map<Key, int>)

  /** The initialising statements for one skill: a measure the record reports
      gets the key, at zero, unless it has it already. */
  function InitMeasures(sums: map<Key, real>, vals: map<Measure, real>, skill: string, ms: seq<Measure>)
      : map<Key, real>
    decreases |ms|
  {
    if ms == [] then sums
    else
      var m := ms[|ms| - 1];
      var prev := InitMeasures(sums, vals, skill, ms[..|ms| - 1]);
      if (m, skill) !in prev && m in vals then prev[(m, skill) := 0.0] else prev
  }

  /** The initialising loop over the skills of one file. */
  function InitSkills(sums: map<Key, real>, vals: map<Measure, real>, skills: seq<string>): map<Key, real>
    decreases |skills|
  {
    if skills == [] then sums
    else InitMeasures(InitSkills(sums, vals, skills[..|skills| - 1]), vals, skills[|skills| - 1], AllMeasures)
  }

  /** The summing statements for one skill: every reported measure is added,
      and for an averaged measure the skill's counter goes up by one. */
  function SumMeasures(t: Tally, vals: map<Measure, real>, skill: string, ms: seq<Measure>): Tally
    decreases |ms|
  {
    if ms == [] then t
    else
      var m := ms[|ms| - 1];
      var prev := SumMeasures(t, vals, skill, ms[..|ms| - 1]);
      if m !in vals then prev
      else
        Tally(AddR(prev.sums, (m, skill), Contribution(m, vals[m])),
              if IsAveraged(m) then Add(prev.counts, (m, skill), 1) else prev.counts)
  }

  /** The summing loop over the skills of one file. */
  function SumSkills(t: Tally, vals: map<Measure, real>, skills: seq<string>): Tally
    decreases |skills|
  {
    if skills == [] then t
    else SumMeasures(SumSkills(t, vals, skills[..|skills| - 1]), vals, skills[|skills| - 1], AllMeasures)
  }

  /** One record: skipped, or both loops over its skills. */
  function TallyRecord(t: Tally, l: Lookup): Tally {
    if l.1.None? then t
    else SumSkills(Tally(InitSkills(t.sums, l.0, l.1.value), t.counts), l.0, l.1.value)
  }

  /** The loop over the records. */
  function TallyRecords(lookups: seq<Lookup>): Tally
    decreases |lookups|
  {
    if lookups == [] then Tally(map[], map[])
    else TallyRecord(TallyRecords(lookups[..|lookups| - 1]), lookups[|lookups| - 1])
  }

  /** The averaging statement for measure m and skill s. */
  function AverageAt(values: map<Key, real>, counts: map<Key, int>,
                     round: real -> real, m: Measure, s: string): map<Key, real>
  {
    var k := (m, s);
    if k in values && Count(counts, k) > 0 then values[k := round(values[k] / Count(counts, k) as real)] else values
  }

  /** The five averaging statements for one skill, in the source's order. */
  function AverageSkill(values: map<Key, real>, counts: map<Key, int>,
                        round: real -> real, s: string): map<Key, real>
  {
    var v1 := AverageAt(values, counts, round, Coverage, s);
    var v2 := AverageAt(v1, counts, round, ReliabilityRating, s);
    var v3 := AverageAt(v2, counts, round, SecurityRating, s);
    var v4 := AverageAt(v3, counts, round, MaintainabilityRating, s);
    AverageAt(v4, counts, round, DuplicatedLinesDensity, s)
  }

  /** The values once the skills in done are averaged: an averaged measure of
      such a skill with a positive count becomes the rounded mean. */
  function Finalized(t: Tally, round: real -> real, done: set<string>): (v: map<Key, real>)
    ensures v.Keys == t.sums.Keys
  {
    map k | k in t.sums ::
      if k.1 in done && IsAveraged(k.0) && Count(t.counts, k) > 0
      then round(t.sums[k] / Count(t.counts, k) as real)
      else t.sums[k]
  }

  /** The skills of the averaged measures' counters. */
  function CountSkills(counts: map<Key, int>): (ss: set<string>)
    ensures forall s :: s in ss <==> exists k :: k in counts && k.1 == s
  {
    set k | k in counts :: k.1
  }

  /** A record credits measure k.0 to skill k.1. */
  predicate Contributes(l: Lookup, k: Key) {
    l.1.Some? && k.1 in l.1.value && k.0 in l.0
  }

  /** What one record credits to key k: its contribution once per occurrence
      of the skill among the file's skills. */
  function Credit(l: Lookup, k: Key): real {
    if l.1.None? || k.0 !in l.0 then 0.0 else Times(Occurrences(l.1.value, k.1), Contribution(k.0, l.0[k.0]))
  }

  /** How many times a record reports measure k.0 for skill k.1. */
  function Reports(l: Lookup, k: Key): nat {
    if l.1.None? || k.0 !in l.0 then 0 else Occurrences(l.1.value, k.1)
  }

  /** The sum the source builds for key k: the records' credits. */
  function SumOf(lookups: seq<Lookup>, k: Key): real
    decreases |lookups|
  {
    if lookups == [] then 0.0 else SumOf(lookups[..|lookups| - 1], k) + Credit(lookups[|lookups| - 1], k)
  }

  /** The number of reports of key k, the divisor of an averaged measure. */
  function NumberOf(lookups: seq<Lookup>, k: Key): nat
    decreases |lookups|
  {
    if lookups == [] then 0 else NumberOf(lookups[..|lookups| - 1], k) + Reports(lookups[|lookups| - 1], k)
  }

  predicate Distinct(ms: seq<Measure>) {
    forall i, j :: 0 <= i < j < |ms| ==> ms[i] != ms[j]
  }

  lemma AllMeasuresDistinct()
    ensures Distinct(AllMeasures)
  {
  }

  /** n copies of c added up. */
  function Times(n: nat, c: real): real {
    if n == 0 then 0.0 else Times(n - 1, c) + c
  }

  /** Times is multiplication. */
  lemma {:induction false} TimesIsProduct(n: nat, c: real)
    ensures Times(n, c) == n as real * c
  {
    if n > 0 {
      TimesIsProduct(n - 1, c);
    }
  }

  /** The initialising statements add the reported keys at zero and change no
      value. */
  lemma {:induction false} InitMeasuresAt(sums: map<Key, real>, vals: map<Measure, real>,
                                          skill: string, ms: seq<Measure>, k: Key)
    ensures var u := InitMeasures(sums, vals, skill, ms);
            && (k in u <==> k in sums || (k.1 == skill && k.0 in ms && k.0 in vals))
            && CountR(u, k) == CountR(sums, k)
    decreases |ms|
  {
    if ms != [] {
      InitMeasuresAt(sums, vals, skill, ms[..|ms| - 1], k);
      assert ms == ms[..|ms| - 1] + [ms[|ms| - 1]];
    }
  }

  /** The initialising loop adds the keys of the reported measures of the
      file's skills at zero and changes no value. */
  lemma {:induction false} InitSkillsAt(sums: map<Key, real>, vals: map<Measure, real>, skills: seq<string>, k: Key)
    ensures var u := InitSkills(sums, vals, skills);
            && (k in u <==> k in sums || (k.1 in skills && k.0 in vals))
            && CountR(u, k) == CountR(sums, k)
    decreases |skills|
  {
    if skills != [] {
      var init := skills[..|skills| - 1];
      InitSkillsAt(sums, vals, init, k);
      InitMeasuresAt(InitSkills(sums, vals, init), vals, skills[|skills| - 1], AllMeasures, k);
      AllMeasuresComplete(k.0);
      assert skills == init + [skills[|skills| - 1]];
    }
  }

  /** The summing statements for one skill add each reported measure once:
      the sums. */
  lemma {:induction false} SumMeasuresSums(t: Tally, vals: map<Measure, real>, skill: string, ms: seq<Measure>, k: Key)
    requires Distinct(ms)
    ensures var u := SumMeasures(t, vals, skill, ms);
            var hit := k.1 == skill && k.0 in ms && k.0 in vals;
            && (k in u.sums <==> k in t.sums || hit)
            && CountR(u.sums, k) == CountR(t.sums, k) + (if hit then Contribution(k.0, vals[k.0]) else 0.0)
    decreases |ms|
  {
    if ms != [] {
      var init := ms[..|ms| - 1];
      assert Distinct(init);
      SumMeasuresSums(t, vals, skill, init, k);
      assert ms == init + [ms[|ms| - 1]];
    }
  }

  /** The summing statements for one skill: the counters. */
  lemma {:induction false} SumMeasuresCounts(t: Tally, vals: map<Measure, real>, skill: string, ms: seq<Measure>, k: Key)
    requires Distinct(ms)
    ensures var u := SumMeasures(t, vals, skill, ms);
            var hit := k.1 == skill && k.0 in ms && k.0 in vals && IsAveraged(k.0);
            && (k in u.counts <==> k in t.counts || hit)
            && Count(u.counts, k) == Count(t.counts, k) + (if hit then 1 else 0)
    decreases |ms|
  {
    if ms != [] {
      var init := ms[..|ms| - 1];
      assert Distinct(init);
      SumMeasuresCounts(t, vals, skill, init, k);
      assert ms == init + [ms[|ms| - 1]];
    }
  }

  /** The summing loop adds each reported measure once per occurrence of the
      skill: the sums. */
  lemma {:induction false} SumSkillsSums(t: Tally, vals: map<Measure, real>, skills: seq<string>, k: Key)
    ensures var u := SumSkills(t, vals, skills);
            && (k in u.sums <==> k in t.sums || (k.1 in skills && k.0 in vals))
            && CountR(u.sums, k) == CountR(t.sums, k)
                 + (if k.0 in vals then Times(Occurrences(skills, k.1), Contribution(k.0, vals[k.0])) else 0.0)
    decreases |skills|
  {
    if skills != [] {
      var init := skills[..|skills| - 1];
      var last := skills[|skills| - 1];
      SumSkillsSums(t, vals, init, k);
      AllMeasuresDistinct();
      AllMeasuresComplete(k.0);
      SumMeasuresSums(SumSkills(t, vals, init), vals, last, AllMeasures, k);
      assert skills == init + [last];
      OccurrencesSnoc(init, last, k.1);

    }
  }

  /** The summing loop: the counters of the averaged measures. */
  lemma {:induction false} SumSkillsCounts(t: Tally, vals: map<Measure, real>, skills: seq<string>, k: Key)
    ensures var u := SumSkills(t, vals, skills);
            var hit := k.0 in vals && IsAveraged(k.0);
            && (k in u.counts <==> k in t.counts || (k.1 in skills && hit))
            && Count(u.counts, k) == Count(t.counts, k) + (if hit then Occurrences(skills, k.1) else 0)
    decreases |skills|
  {
    if skills != [] {
      var init := skills[..|skills| - 1];
      var last := skills[|skills| - 1];
      SumSkillsCounts(t, vals, init, k);
      AllMeasuresDistinct();
      AllMeasuresComplete(k.0);
      SumMeasuresCounts(SumSkills(t, vals, init), vals, last, AllMeasures, k);
      assert skills == init + [last];
      OccurrencesSnoc(init, last, k.1);
    }
  }

  /** One record adds its credit and its reports to key k. */
  lemma TallyRecordAt(t: Tally, l: Lookup, k: Key)
    ensures var u := TallyRecord(t, l);
            && (k in u.sums <==> k in t.sums || Contributes(l, k))
            && CountR(u.sums, k) == CountR(t.sums, k) + Credit(l, k)
            && (k in u.counts <==> k in t.counts || (Contributes(l, k) && IsAveraged(k.0)))
            && Count(u.counts, k) == Count(t.counts, k) + (if IsAveraged(k.0) then Reports(l, k) else 0)
  {
    if l.1.Some? {
      var skills := l.1.value;
      var t' := Tally(InitSkills(t.sums, l.0, skills), t.counts);
      InitSkillsAt(t.sums, l.0, skills, k);
      SumSkillsSums(t', l.0, skills, k);
      SumSkillsCounts(t', l.0, skills, k);
    }
  }

  /** A key of the sums is credited by some record; its value is the sum of
      the credits and, for an averaged measure, its counter is the number of
      reports. Whole-count measures have no counter. */
  lemma {:induction false} TallyRecordsAt(lookups: seq<Lookup>, k: Key)
    ensures var t := TallyRecords(lookups);
            && (k in t.sums <==> exists i :: 0 <= i < |lookups| && Contributes(lookups[i], k))
            && CountR(t.sums, k) == SumOf(lookups, k)
            && (k in t.counts <==> IsAveraged(k.0) && exists i :: 0 <= i < |lookups| && Contributes(lookups[i], k))
            && Count(t.counts, k) == if IsAveraged(k.0) then NumberOf(lookups, k) else 0
    decreases |lookups|
  {
    if lookups != [] {
      var init := lookups[..|lookups| - 1];
      TallyRecordsAt(init, k);
      TallyRecordAt(TallyRecords(init), lookups[|lookups| - 1], k);
      assert forall i :: 0 <= i < |init| ==> init[i] == lookups[i];
    }
  }

  /** The divisor is positive exactly when some record credits the key. */
  lemma {:induction false} NumberOfPositive(lookups: seq<Lookup>, k: Key)
    ensures NumberOf(lookups, k) > 0 <==> exists i :: 0 <= i < |lookups| && Contributes(lookups[i], k)
    decreases |lookups|
  {
    if lookups != [] {
      var init := lookups[..|lookups| - 1];
      NumberOfPositive(init, k);
      assert forall i :: 0 <= i < |init| ==> init[i] == lookups[i];
    }
  }

  /** The values while skill s is being averaged: the skills in done and the
      measures ms of s are averaged. */
  function Partial(t: Tally, round: real -> real, done: set<string>, s: string, ms: set<Measure>): map<Key, real> {
    map k | k in t.sums ::
      if (k.1 in done || (k.1 == s && k.0 in ms)) && IsAveraged(k.0) && Count(t.counts, k) > 0
      then round(t.sums[k] / Count(t.counts, k) as real)
      else t.sums[k]
  }

  lemma PartialStep(t: Tally, round: real -> real, done: set<string>, s: string, ms: set<Measure>, m: Measure)
    requires s !in done && m !in ms && IsAveraged(m)
    ensures AverageAt(Partial(t, round, done, s, ms), t.counts, round, m, s) == Partial(t, round, done, s, ms + {m})
  {
  }

  /** Once every averaged measure of s is done, s is done. */
  lemma PartialAll(t: Tally, round: real -> real, done: set<string>, s: string, ms: set<Measure>)
    requires forall m :: IsAveraged(m) ==> m in ms
    ensures Partial(t, round, done, s, ms) == Finalized(t, round, done + {s})
  {
    var a := Partial(t, round, done, s, ms);
    var b := Finalized(t, round, done + {s});
    forall k | k in t.sums
      ensures a[k] == b[k]
    {
    }
    assert a.Keys == b.Keys;
  }

  /** Averaging one more skill averages exactly that skill's keys. */
  lemma FinalizeSkill(t: Tally, round: real -> real, done: set<string>, s: string)
    requires s !in done
    ensures AverageSkill(Finalized(t, round, done), t.counts, round, s) == Finalized(t, round, done + {s})
  {
    var p0 := Finalized(t, round, done);
    var m0: set<Measure> := {};
    assert p0 == Partial(t, round, done, s, m0);
    var v1 := AverageAt(p0, t.counts, round, Coverage, s);
    PartialStep(t, round, done, s, m0, Coverage);
    var m1 := m0 + {Coverage};
    var v2 := AverageAt(v1, t.counts, round, ReliabilityRating, s);
    PartialStep(t, round, done, s, m1, ReliabilityRating);
    var m2 := m1 + {ReliabilityRating};
    var v3 := AverageAt(v2, t.counts, round, SecurityRating, s);
    PartialStep(t, round, done, s, m2, SecurityRating);
    var m3 := m2 + {SecurityRating};
    var v4 := AverageAt(v3, t.counts, round, MaintainabilityRating, s);
    PartialStep(t, round, done, s, m3, MaintainabilityRating);
    var m4 := m3 + {MaintainabilityRating};
    var v5 := AverageAt(v4, t.counts, round, DuplicatedLinesDensity, s);
    PartialStep(t, round, done, s, m4, DuplicatedLinesDensity);
    PartialAll(t, round, done, s, m4 + {DuplicatedLinesDensity});
    assert AverageSkill(p0, t.counts, round, s) == v5;
  }

  /** The per-commit quality values: a key (measure, skill) is present iff
      some counted file reported the measure; a whole-count measure holds the
      sum of `int()` of the reports, one per occurrence of the skill; an
      averaged one holds the rounded mean over the reports. */
  lemma CommitQualityValues(lookups: seq<Lookup>, round: real -> real,
                            k: Key)
    ensures var t := TallyRecords(lookups);
            var v := Finalized(t, round, CountSkills(t.counts));
            && (k in v <==> exists i :: 0 <= i < |lookups| && Contributes(lookups[i], k))
            && (k in v && !IsAveraged(k.0) ==> v[k] == SumOf(lookups, k))
            && (k in v && IsAveraged(k.0) ==>
                  NumberOf(lookups, k) > 0 && v[k] == round(SumOf(lookups, k) / NumberOf(lookups, k) as real))
  {
    TallyRecordsAt(lookups, k);
    NumberOfPositive(lookups, k);
  }

  /** The commit's skills are those with an averaged measure reported by a
      counted file; a skill with only whole-count measures is not among them. */
  lemma CommitQualitySkills(lookups: seq<Lookup>, s: string)
    ensures s in CountSkills(TallyRecords(lookups).counts) <==>
              exists m: Measure, i :: IsAveraged(m) && 0 <= i < |lookups| && Contributes(lookups[i], (m, s))
  {
    var counts := TallyRecords(lookups).counts;
    if s in CountSkills(counts) {
      var k :| k in counts && k.1 == s;
      TallyRecordsAt(lookups, k);
    }
    forall m: Measure, i | IsAveraged(m) && 0 <= i < |lookups| && Contributes(lookups[i], (m, s))
      ensures s in CountSkills(counts)
    {
      TallyRecordsAt(lookups, (m, s));
    }
  }

  /** The text of the error the code as written raises. */
  const MissingAttribute := "AttributeError: 'FileQualityMetrics' object has no attribute 'maintainability_rating'"

  /** One record as the code is written: the initialising statement for the
      maintainability rating reads `maintainability_rating` of the record,
      which records do not have. The first skill of a counted file reaches it,
      since that dictionary can gain no key before the read. */
  function TallyRecordAsWritten(t: Tally, skills: Option<seq<string>>): (r: Result<Tally>)
    ensures r.Err? <==> skills.Some?
    ensures r.Ok? ==> forall vals :: r.value == TallyRecord(t, (vals, skills))
  {
    if skills.None? then Ok(t) else Err(MissingAttribute)
  }

  /** The loop over the records as written. */
  function TallyRecordsAsWritten(lookups: seq<Lookup>): (r: Result<Tally>)
    ensures r.Ok? ==> r.value == Tally(map[], map[])
    decreases |lookups|
  {
    if lookups == [] then Ok(Tally(map[], map[]))
    else
      var prev := TallyRecordsAsWritten(lookups[..|lookups| - 1]);
      if prev.Err? then prev else TallyRecordAsWritten(prev.value, lookups[|lookups| - 1].1)
  }

  /** As written, the aggregation raises as soon as one record belongs to a
      counted file, so it only ever returns the empty result; the corrected
      aggregation agrees with it exactly when no record is counted. */
  lemma {:induction false} AsWrittenRaises(lookups: seq<Lookup>)
    ensures TallyRecordsAsWritten(lookups).Err? <==> exists i :: 0 <= i < |lookups| && lookups[i].1.Some?
    ensures TallyRecordsAsWritten(lookups).Ok? ==>
              TallyRecordsAsWritten(lookups).value == TallyRecords(lookups) == Tally(map[], map[])
    decreases |lookups|
  {
    if lookups != [] {
      var init := lookups[..|lookups| - 1];
      AsWrittenRaises(init);
      assert forall i :: 0 <= i < |init| ==> init[i] == lookups[i];
    }
  }

  /** Both loops over the skills of one counted file. */
  method TallyFile(t: Tally, vals: map<Measure, real>, skills: seq<string>) returns (u: Tally)
    ensures u == TallyRecord(t, (vals, Some(skills)))
  {
    var sums := t.sums;
    var j := 0;
    while j < |skills|
      invariant 0 <= j <= |skills|
      invariant sums == InitSkills(t.sums, vals, skills[..j])
    {
      assert skills[..j + 1][..j] == skills[..j];
      sums := InitMeasures(sums, vals, skills[j], AllMeasures);
      j := j + 1;
    }
    assert skills[..j] == skills;
    u := Tally(sums, t.counts);
    ghost var initialised := u;
    j := 0;
    while j < |skills|
      invariant 0 <= j <= |skills|
      invariant u == SumSkills(initialised, vals, skills[..j])
    {
      assert skills[..j + 1][..j] == skills[..j];
      u := SumMeasures(u, vals, skills[j], AllMeasures);
      j := j + 1;
    }
    assert skills[..j] == skills;
  }

  /** The loop over the records: a record whose path is not a file of the
      commit, or whose file has no known language, is skipped. */
  method TallyFiles(files: Dict<string, FileInfo>, records: seq<FileQualityMetrics>) returns (t: Tally)
    ensures t == TallyRecords(Lookups(files, records))
  {
    ghost var lookups := Lookups(files, records);
    t := Tally(map[], map[]);
    var i := 0;
    while i < |records|
      invariant 0 <= i <= |records|
      invariant t == TallyRecords(lookups[..i])
    {
      var record := records[i];
      assert lookups[..i + 1][..i] == lookups[..i];
      var info := Get(files, record.filePath);
      if info.Some? && KnownLanguage(info.value.language) {
        t := TallyFile(t, ReportedValues(record), FileSkills(info.value));
      }
      i := i + 1;
    }
    assert lookups[..i] == lookups;
  }

  /** The averaging loop over the skills of the counters; each skill is added
      to the commit's skills. */
  method AverageAll(t: Tally, round: real -> real) returns (values: map<Key, real>, skills: set<string>)
    ensures values == Finalized(t, round, CountSkills(t.counts))
    ensures skills == CountSkills(t.counts)
  {
    values := t.sums;
    skills := {};
    var all := CountSkills(t.counts);
    var remaining := all;
    assert values == Finalized(t, round, {});
    while remaining != {}
      invariant remaining <= all && skills == all - remaining
      invariant values == Finalized(t, round, skills)
      decreases remaining
    {
      var s :| s in remaining;
      FinalizeSkill(t, round, skills, s);
      values := AverageSkill(values, t.counts, round, s);
      skills := skills + {s};
      remaining := remaining - {s};
    }
    assert skills == all;
  }

  /** `get_quality_metrics` after the scan: None when the scanner wrote to
      stderr or nothing to stdout; otherwise the values are the tallies with
      the averaged measures averaged, the skills are those of the averaged
      measures' counters, and the timestamp is the commit's. The records are
      the result of `get_quality_metrics_for_files`; `round` is `round(x, 1)`. */
  method GetQualityMetrics(c: CommitDetails, records: seq<FileQualityMetrics>, stdout: string, stderr: string,
                           round: real -> real) returns (r: Option<CommitQuality>)
    ensures r.None? <==> stderr != "" || stdout == ""
    ensures r.Some? ==>
              var t := TallyRecords(Lookups(c.files, records));
              r.value == CommitQuality(CountSkills(t.counts), c.timestamp, Finalized(t, round, CountSkills(t.counts)))
  {
    if stderr != "" {
      return None;
    }
    if stdout == "" {
      return None;
    }
    var t := TallyFiles(c.files, records);
    var values, skills := AverageAll(t, round);
    r := Some(CommitQuality(skills, c.timestamp, values));
  }
}
