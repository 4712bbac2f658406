/** The MongoDB store of per-commit metrics: two collections of documents, each
    keyed by (commit hash, repository URL), written by find-then-update-or-insert
    and read by key or by repository and time window. */
module Db {
  import opened Wrappers

  /** `CommitExperienceMetrics` as the store writes and rebuilds it. */
  datatype StoredExperience = StoredExperience(linesOfCode: map<string, int>, timestamp: int)

  /** The eleven per-skill dictionaries of a stored `CommitQualityMetrics`. */
  datatype QualityDicts = QualityDicts(
    bugs: map<string, int>,
    codeSmells: map<string, int>,
    cognitiveComplexity: map<string, int>,
    complexity: map<string, real>,
    coverage: map<string, real>,
    ncloc: map<string, int>,
    reliabilityRating: map<string, real>,
    securityRating: map<string, real>,
    sqaleRating: map<string, real>,
    duplicatedLinesDensity: map<string, real>,
    vulnerabilities: map<string, int>)

  /** `CommitQualityMetrics` as the store writes and rebuilds it. */
  datatype StoredQuality = StoredQuality(timestamp: int, dicts: QualityDicts)

  /** A document: `_id`, the key, the metric fields, `timestamp`,
      `updated_at` and `created_at`. */
  datatype Document<P> = Document(
    id: nat, commitHash: string, repoUrl: string, fields: P, timestamp: int, updatedAt: int, createdAt: int)

  /** The `find_one` filter on commit hash and repository URL. */
  predicate Matches<P>(d: Document<P>, commitHash: string, repoUrl: string) {
    d.commitHash == commitHash && d.repoUrl == repoUrl
  }

  /** `find_one`: the first document, in stored order, with the key. */
  function FindIndex<P>(docs: seq<Document<P>>, commitHash: string, repoUrl: string): (r: Option<nat>)
    ensures r.None? <==> forall i :: 0 <= i < |docs| ==> !Matches(docs[i], commitHash, repoUrl)
    ensures r.Some? ==> r.value < |docs| && Matches(docs[r.value], commitHash, repoUrl)
                        && forall i :: 0 <= i < r.value ==> !Matches(docs[i], commitHash, repoUrl)
    decreases |docs|
  {
    if docs == [] then None
    else if Matches(docs[0], commitHash, repoUrl) then Some(0)
    else
      var r := FindIndex(docs[1..], commitHash, repoUrl);
      if r.None? then None else Some(r.value + 1)
  }

  /** The document found by key, if any. */
  function Find<P>(docs: seq<Document<P>>, commitHash: string, repoUrl: string): Option<Document<P>> {
    var r := FindIndex(docs, commitHash, repoUrl);
    if r.None? then None else Some(docs[r.value])
  }

  /** `save_*`: the `$set` of the key, the fields, the timestamp and
      `updated_at` on the document found by key, which keeps its `_id` and
      `created_at`; otherwise a new document with id `newId` and `created_at`. */
  function Upserted<P>(docs: seq<Document<P>>, commitHash: string, repoUrl: string, fields: P,
                       timestamp: int, now: int, newId: nat): seq<Document<P>>
  {
    var r := FindIndex(docs, commitHash, repoUrl);
    if r.Some? then
      docs[r.value := docs[r.value].(commitHash := commitHash, repoUrl := repoUrl, fields := fields,
                                     timestamp := timestamp, updatedAt := now)]
    else docs + [Document(newId, commitHash, repoUrl, fields, timestamp, now, now)]
  }

  /** The id `save_*` returns: the existing document's or newId. */
  function SavedId<P>(docs: seq<Document<P>>, commitHash: string, repoUrl: string, newId: nat): nat {
    var r := FindIndex(docs, commitHash, repoUrl);
    if r.Some? then docs[r.value].id else newId
  }

  /** On an existing key the collection keeps its size, the found document its
      `_id` and `created_at`, and every other document is unchanged. */
  lemma UpsertExisting<P>(docs: seq<Document<P>>, commitHash: string, repoUrl: string, fields: P,
                          timestamp: int, now: int, newId: nat)
    requires FindIndex(docs, commitHash, repoUrl).Some?
    ensures var i := FindIndex(docs, commitHash, repoUrl).value;
            var r := Upserted(docs, commitHash, repoUrl, fields, timestamp, now, newId);
            && |r| == |docs|
            && r[i].id == docs[i].id == SavedId(docs, commitHash, repoUrl, newId)
            && r[i].createdAt == docs[i].createdAt
            && r[i].fields == fields && r[i].timestamp == timestamp && r[i].updatedAt == now
            && forall j :: 0 <= j < |docs| && j != i ==> r[j] == docs[j]
  {
  }

  /** On a new key exactly one document is appended, carrying id newId and
      `created_at`. */
  lemma UpsertNew<P>(docs: seq<Document<P>>, commitHash: string, repoUrl: string, fields: P,
                     timestamp: int, now: int, newId: nat)
    requires FindIndex(docs, commitHash, repoUrl).None?
    ensures var r := Upserted(docs, commitHash, repoUrl, fields, timestamp, now, newId);
            && r[..|docs|] == docs
            && r == docs + [Document(newId, commitHash, repoUrl, fields, timestamp, now, now)]
            && SavedId(docs, commitHash, repoUrl, newId) == newId
  {
  }

  /** Save then find with the same key gives the saved fields and timestamp
      under the returned id: the last write wins. */
  lemma SaveThenFind<P>(docs: seq<Document<P>>, commitHash: string, repoUrl: string, fields: P,
                        timestamp: int, now: int, newId: nat)
    ensures var d := Find(Upserted(docs, commitHash, repoUrl, fields, timestamp, now, newId), commitHash, repoUrl);
            && d.Some?
            && d.value.fields == fields && d.value.timestamp == timestamp
            && d.value.id == SavedId(docs, commitHash, repoUrl, newId)
  {
    var r := Upserted(docs, commitHash, repoUrl, fields, timestamp, now, newId);
    var i := FindIndex(docs, commitHash, repoUrl);
    if i.Some? {
      FirstMatchAt(r, commitHash, repoUrl, i.value);
    } else {
      FirstMatchAt(r, commitHash, repoUrl, |docs|);
    }
  }

  /** The first match is at i when i matches and nothing before it does. */
  lemma {:induction false} FirstMatchAt<P>(docs: seq<Document<P>>, commitHash: string, repoUrl: string, i: nat)
    requires i < |docs| && Matches(docs[i], commitHash, repoUrl)
    requires forall j :: 0 <= j < i ==> !Matches(docs[j], commitHash, repoUrl)
    ensures FindIndex(docs, commitHash, repoUrl) == Some(i)
  {
  }

  /** Saving under one key leaves what a find under any other key returns. */
  lemma SaveKeepsOtherKeys<P>(docs: seq<Document<P>>, commitHash: string, repoUrl: string, fields: P,
                              timestamp: int, now: int, newId: nat, otherHash: string, otherUrl: string)
    requires (otherHash, otherUrl) != (commitHash, repoUrl)
    ensures Find(Upserted(docs, commitHash, repoUrl, fields, timestamp, now, newId), otherHash, otherUrl)
            == Find(docs, otherHash, otherUrl)
  {
    var r := Upserted(docs, commitHash, repoUrl, fields, timestamp, now, newId);
    assert forall j :: 0 <= j < |docs| ==> (Matches(r[j], otherHash, otherUrl) <==> Matches(docs[j], otherHash, otherUrl));
    var k := FindIndex(docs, otherHash, otherUrl);
    if k.Some? {
      assert r[k.value] == docs[k.value];
      FirstMatchAt(r, otherHash, otherUrl, k.value);
    } else {
      assert !Matches(r[|r| - 1], otherHash, otherUrl);
    }
  }

  /** Saving the same metrics twice at the same instant leaves the collection
      as one save does. */
  lemma SaveIdempotent<P>(docs: seq<Document<P>>, commitHash: string, repoUrl: string, fields: P,
                          timestamp: int, now: int, newId: nat, newId2: nat)
    ensures var r := Upserted(docs, commitHash, repoUrl, fields, timestamp, now, newId);
            Upserted(r, commitHash, repoUrl, fields, timestamp, now, newId2) == r
  {
    var r := Upserted(docs, commitHash, repoUrl, fields, timestamp, now, newId);
    var i := FindIndex(docs, commitHash, repoUrl);
    var j := if i.Some? then i.value else |docs|;
    FirstMatchAt(r, commitHash, repoUrl, j);
  }

  /** At most one document per key. */
  ghost predicate KeysUnique<P>(docs: seq<Document<P>>) {
    forall i, j :: 0 <= i < j < |docs| ==> !Matches(docs[j], docs[i].commitHash, docs[i].repoUrl)
  }

  /** Distinct ids, all below the next newId one. */
  ghost predicate IdsBelow<P>(docs: seq<Document<P>>, next: nat) {
    && (forall i :: 0 <= i < |docs| ==> docs[i].id < next)
    && (forall i, j :: 0 <= i < j < |docs| ==> docs[i].id != docs[j].id)
  }

  /** Upserting keeps one document per key and distinct ids, given a newId id
      above every id present. */
  lemma UpsertKeepsInvariant<P>(docs: seq<Document<P>>, commitHash: string, repoUrl: string, fields: P,
                                timestamp: int, now: int, newId: nat)
    requires KeysUnique(docs) && IdsBelow(docs, newId)
    ensures var r := Upserted(docs, commitHash, repoUrl, fields, timestamp, now, newId);
            KeysUnique(r) && IdsBelow(r, newId + 1)
  {
    var r := Upserted(docs, commitHash, repoUrl, fields, timestamp, now, newId);
    var k := FindIndex(docs, commitHash, repoUrl);
    assert forall i :: 0 <= i < |docs| ==>
             r[i].commitHash == docs[i].commitHash && r[i].repoUrl == docs[i].repoUrl && r[i].id == docs[i].id;
  }

  /** The date-range filter: the documents of the repository with
      start <= timestamp <= end, in stored order. */
  function InRange<P(!new)>(docs: seq<Document<P>>, repoUrl: string, start: int, end: int): (r: seq<Document<P>>)
    ensures forall d :: d in r <==> d in docs && d.repoUrl == repoUrl && start <= d.timestamp <= end
    ensures |r| <= |docs|
    decreases |docs|
  {
    if docs == [] then []
    else
      var rest := InRange(docs[1..], repoUrl, start, end);
      assert forall d :: d in docs <==> d == docs[0] || d in docs[1..];
      if docs[0].repoUrl == repoUrl && start <= docs[0].timestamp <= end then [docs[0]] + rest else rest
  }

  /** Ascending by timestamp. */
  predicate SortedByTime<P>(docs: seq<Document<P>>) {
    forall i, j :: 0 <= i < j < |docs| ==> docs[i].timestamp <= docs[j].timestamp
  }

  /** One document placed before the first later one. */
  function Insert<P>(d: Document<P>, sorted: seq<Document<P>>): seq<Document<P>>
    decreases |sorted|
  {
    if sorted == [] || d.timestamp <= sorted[0].timestamp then [d] + sorted
    else [sorted[0]] + Insert(d, sorted[1..])
  }

  /** `.sort("timestamp", 1)`. */
  function SortByTime<P>(docs: seq<Document<P>>): seq<Document<P>>
    decreases |docs|
  {
    if docs == [] then [] else Insert(docs[0], SortByTime(docs[1..]))
  }

  lemma {:induction false} InsertElements<P>(d: Document<P>, sorted: seq<Document<P>>)
    ensures multiset(Insert(d, sorted)) == multiset(sorted) + multiset{d}
    decreases |sorted|
  {
    if sorted != [] && d.timestamp > sorted[0].timestamp {
      var tail := sorted[1..];
      assert sorted == [sorted[0]] + tail;
      InsertElements(d, tail);
    }
  }

  lemma {:induction false} InsertSorted<P>(d: Document<P>, sorted: seq<Document<P>>)
    requires SortedByTime(sorted)
    ensures SortedByTime(Insert(d, sorted))
    decreases |sorted|
  {
    if sorted != [] && d.timestamp > sorted[0].timestamp {
      var tail := sorted[1..];
      InsertSorted(d, tail);
      var ins := Insert(d, tail);
      InsertElements(d, tail);
      forall k | 0 <= k < |ins|
        ensures sorted[0].timestamp <= ins[k].timestamp
      {
        assert ins[k] in multiset(ins);
        if ins[k] != d {
          assert ins[k] in multiset(tail);
        }
      }
      assert Insert(d, sorted) == [sorted[0]] + ins;
    }
  }

  /** The sort orders by timestamp and keeps every document. */
  lemma {:induction false} SortByTimeSorted<P>(docs: seq<Document<P>>)
    ensures SortedByTime(SortByTime(docs))
    ensures multiset(SortByTime(docs)) == multiset(docs)
    decreases |docs|
  {
    if docs != [] {
      SortByTimeSorted(docs[1..]);
      InsertSorted(docs[0], SortByTime(docs[1..]));
      InsertElements(docs[0], SortByTime(docs[1..]));
      assert docs == [docs[0]] + docs[1..];
    }
  }

  /** A date-range answer: the documents of the repository within the window, ascending. */
  function Window<P(!new)>(docs: seq<Document<P>>, repoUrl: string, start: int, end: int): seq<Document<P>> {
    SortByTime(InRange(docs, repoUrl, start, end))
  }

  /** The date-range answer is sorted ascending, and holds each document of the
      repository within the window as many times as the collection does. */
  lemma WindowCorrect<P(!new)>(docs: seq<Document<P>>, repoUrl: string, start: int, end: int)
    ensures SortedByTime(Window(docs, repoUrl, start, end))
    ensures multiset(Window(docs, repoUrl, start, end)) == multiset(InRange(docs, repoUrl, start, end))
    ensures forall d :: d in Window(docs, repoUrl, start, end) <==>
                         d in docs && d.repoUrl == repoUrl && start <= d.timestamp <= end
  {
    var f := InRange(docs, repoUrl, start, end);
    SortByTimeSorted(f);
    assert forall d :: d in SortByTime(f) <==> d in multiset(SortByTime(f));
    assert forall d :: d in f <==> d in multiset(f);
  }

  /** `MongoDB`: the two collections and the source of newId ids. */
  class MongoDB {
    var experience: seq<Document<map<string, int>>>
    var quality: seq<Document<QualityDicts>>
    var nextId: nat

    /** One document per key and distinct ids in each collection. */
    ghost predicate Valid()
      reads this
    {
      KeysUnique(experience) && KeysUnique(quality) && IdsBelow(experience, nextId) && IdsBelow(quality, nextId)
    }

    /** Both collections start empty. */
    constructor ()
      ensures Valid()
      ensures experience == [] && quality == [] && nextId == 0
    {
      experience := [];
      quality := [];
      nextId := 0;
    }

    /** `find_commit_experience_metrics`: None when no document has the key,
        otherwise its lines of code and timestamp. */
    method FindCommitExperienceMetrics(commitHash: string, repoUrl: string) returns (r: Option<StoredExperience>)
      ensures r.None? <==> forall i :: 0 <= i < |experience| ==> !Matches(experience[i], commitHash, repoUrl)
      ensures r.Some? ==> exists i :: 0 <= i < |experience| && Matches(experience[i], commitHash, repoUrl)
                                      && r.value == StoredExperience(experience[i].fields, experience[i].timestamp)
    {
      var d := Find(experience, commitHash, repoUrl);
      if d.None? {
        return None;
      }
      return Some(StoredExperience(d.value.fields, d.value.timestamp));
    }

    /** `save_commit_experience_metrics` at clock reading `now`; the quality
        collection is untouched. */
    method SaveCommitExperienceMetrics(commitHash: string, repoUrl: string, metrics: StoredExperience, now: int)
        returns (id: nat)
      requires Valid()
      modifies this
      ensures Valid()
      ensures experience == Upserted(old(experience), commitHash, repoUrl, metrics.linesOfCode, metrics.timestamp, now, old(nextId))
      ensures id == SavedId(old(experience), commitHash, repoUrl, old(nextId))
      ensures quality == old(quality)
      ensures nextId == old(nextId) + 1
    {
      UpsertKeepsInvariant(experience, commitHash, repoUrl, metrics.linesOfCode, metrics.timestamp, now, nextId);
      var existing := FindIndex(experience, commitHash, repoUrl);
      if existing.Some? {
        var i := existing.value;
        id := experience[i].id;
        experience := experience[i := experience[i].(commitHash := commitHash, repoUrl := repoUrl,
                                                     fields := metrics.linesOfCode, timestamp := metrics.timestamp,
                                                     updatedAt := now)];
      } else {
        id := nextId;
        experience := experience + [Document(nextId, commitHash, repoUrl, metrics.linesOfCode, metrics.timestamp, now, now)];
      }
      nextId := nextId + 1;
    }

    /** `find_commit_quality_metrics`: None when no document has the key,
        otherwise its timestamp and eleven dictionaries. */
    method FindCommitQualityMetrics(commitHash: string, repoUrl: string) returns (r: Option<StoredQuality>)
      ensures r.None? <==> forall i :: 0 <= i < |quality| ==> !Matches(quality[i], commitHash, repoUrl)
      ensures r.Some? ==> exists i :: 0 <= i < |quality| && Matches(quality[i], commitHash, repoUrl)
                                      && r.value == StoredQuality(quality[i].timestamp, quality[i].fields)
    {
      var d := Find(quality, commitHash, repoUrl);
      if d.None? {
        return None;
      }
      return Some(StoredQuality(d.value.timestamp, d.value.fields));
    }

    /** `save_commit_quality_metrics` at clock reading `now`; the experience
        collection is untouched. */
    method SaveCommitQualityMetrics(commitHash: string, repoUrl: string, metrics: StoredQuality, now: int)
        returns (id: nat)
      requires Valid()
      modifies this
      ensures Valid()
      ensures quality == Upserted(old(quality), commitHash, repoUrl, metrics.dicts, metrics.timestamp, now, old(nextId))
      ensures id == SavedId(old(quality), commitHash, repoUrl, old(nextId))
      ensures experience == old(experience)
      ensures nextId == old(nextId) + 1
    {
      UpsertKeepsInvariant(quality, commitHash, repoUrl, metrics.dicts, metrics.timestamp, now, nextId);
      var existing := FindIndex(quality, commitHash, repoUrl);
      if existing.Some? {
        var i := existing.value;
        id := quality[i].id;
        quality := quality[i := quality[i].(commitHash := commitHash, repoUrl := repoUrl,
                                            fields := metrics.dicts, timestamp := metrics.timestamp,
                                            updatedAt := now)];
      } else {
        id := nextId;
        quality := quality + [Document(nextId, commitHash, repoUrl, metrics.dicts, metrics.timestamp, now, now)];
      }
      nextId := nextId + 1;
    }

    /** `get_commit_metrics_by_date_range`: both collections' documents of the
        repository within the window, each list ascending by timestamp. */
    method GetCommitMetricsByDateRange(repoUrl: string, start: int, end: int)
        returns (experienceMetrics: seq<Document<map<string, int>>>, qualityMetrics: seq<Document<QualityDicts>>)
      ensures experienceMetrics == Window(experience, repoUrl, start, end)
      ensures qualityMetrics == Window(quality, repoUrl, start, end)
    {
      experienceMetrics := Window(experience, repoUrl, start, end);
      qualityMetrics := Window(quality, repoUrl, start, end);
    }
  }
}
