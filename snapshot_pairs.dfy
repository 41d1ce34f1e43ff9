/**
 * The `snapshotPairs` grouping shared by the live-movement and the summary
 * widgets: snapshots arrive newest first, and each cohort keeps at most its
 * first two. A JavaScript `Map` iterates its keys in insertion order, so the
 * map is an association list in the order cohorts first appear.
 */
module SnapshotPairs {

  /** A snapshot row (`id,cohort_id,created_at`); `createdAt` is the instant in milliseconds. */
  datatype SnapshotRow = SnapshotRow(id: string, cohortId: string, createdAt: int)

  /** One entry of `snapshotPairs`: a cohort and the snapshots kept for it, in query order. */
  datatype Pair = Pair(cohortId: string, snapshots: seq<SnapshotRow>)

  /** The creation instant of a pair's newest snapshot (`pair[0].created_at`). */
  function Newest(p: Pair): int
    requires p.snapshots != []
  {
    p.snapshots[0].createdAt
  }

  predicate Full(p: Pair) {
    |p.snapshots| >= 2
  }

  /** The position of the cohort's entry, or -1 when the map has none. */
  function Find(pairs: seq<Pair>, cohortId: string): (k: int)
    ensures -1 <= k < |pairs|
    ensures k >= 0 ==> pairs[k].cohortId == cohortId
    ensures k == -1 <==> forall j :: 0 <= j < |pairs| ==> pairs[j].cohortId != cohortId
  {
    if pairs == [] then -1
    else if pairs[0].cohortId == cohortId then 0
    else
      var k := Find(pairs[1..], cohortId);
      assert forall j :: 0 < j < |pairs| ==> pairs[j] == pairs[1..][j - 1];
      if k == -1 then -1 else k + 1
  }

  /**
   * One `forEach` step: `snapshotPairs.get(cohort) ?? []`, pushed to and set
   * back only while it holds fewer than two snapshots.
   */
  function AddSnapshot(pairs: seq<Pair>, s: SnapshotRow): seq<Pair> {
    var k := Find(pairs, s.cohortId);
    if k == -1 then pairs + [Pair(s.cohortId, [s])]
    else if |pairs[k].snapshots| < 2 then pairs[k := Pair(s.cohortId, pairs[k].snapshots + [s])]
    else pairs
  }

  /** The map after the whole `forEach`. */
  function Group(snapshots: seq<SnapshotRow>): seq<Pair> {
    if snapshots == [] then []
    else AddSnapshot(Group(snapshots[..|snapshots| - 1]), snapshots[|snapshots| - 1])
  }

  /** `(snapshots ?? []).forEach(...)` filling `snapshotPairs`. */
  method GroupSnapshots(snapshots: seq<SnapshotRow>) returns (pairs: seq<Pair>)
    ensures pairs == Group(snapshots)
  {
    pairs := [];
    for i := 0 to |snapshots|
      invariant pairs == Group(snapshots[..i])
    {
      assert snapshots[..i + 1][..i] == snapshots[..i];
      var s := snapshots[i];
      var k := Find(pairs, s.cohortId);
      if k == -1 {
        pairs := pairs + [Pair(s.cohortId, [s])];
      } else if |pairs[k].snapshots| < 2 {
        pairs := pairs[k := Pair(s.cohortId, pairs[k].snapshots + [s])];
      }
    }
    assert snapshots[..|snapshots|] == snapshots;
  }

  // ---- reference definition ----------------------------------------------

  /** The snapshots of one cohort, in query order. */
  function OfCohort(snapshots: seq<SnapshotRow>, cohortId: string): seq<SnapshotRow> {
    if snapshots == [] then []
    else
      var last := snapshots[|snapshots| - 1];
      OfCohort(snapshots[..|snapshots| - 1], cohortId) + (if last.cohortId == cohortId then [last] else [])
  }

  /** The cohorts of the snapshots, each once, in the order they first appear. */
  function Cohorts(snapshots: seq<SnapshotRow>): seq<string> {
    if snapshots == [] then []
    else
      var init := Cohorts(snapshots[..|snapshots| - 1]);
      var c := snapshots[|snapshots| - 1].cohortId;
      if c in init then init else init + [c]
  }

  function FirstTwo(s: seq<SnapshotRow>): seq<SnapshotRow> {
    if |s| <= 2 then s else s[..2]
  }

  ghost predicate DistinctKeys(pairs: seq<Pair>) {
    forall i, j :: 0 <= i < j < |pairs| ==> pairs[i].cohortId != pairs[j].cohortId
  }

  /** The grouping is, cohort by cohort in first-appearance order, the first two of that cohort's snapshots. */
  ghost predicate Describes(pairs: seq<Pair>, snapshots: seq<SnapshotRow>) {
    var cs := Cohorts(snapshots);
    |pairs| == |cs|
    && forall k :: 0 <= k < |pairs| ==> pairs[k] == Pair(cs[k], FirstTwo(OfCohort(snapshots, cs[k])))
  }

  lemma {:induction false} CohortsDistinct(snapshots: seq<SnapshotRow>)
    ensures forall i, j :: 0 <= i < j < |Cohorts(snapshots)| ==> Cohorts(snapshots)[i] != Cohorts(snapshots)[j]
    ensures forall c :: c in Cohorts(snapshots) <==> exists i :: 0 <= i < |snapshots| && snapshots[i].cohortId == c
  {
    if snapshots != [] {
      var init := snapshots[..|snapshots| - 1];
      CohortsDistinct(init);
      assert forall i :: 0 <= i < |init| ==> init[i] == snapshots[i];
      forall c | exists i :: 0 <= i < |snapshots| && snapshots[i].cohortId == c
        ensures c in Cohorts(snapshots)
      {
        var i :| 0 <= i < |snapshots| && snapshots[i].cohortId == c;
        if i < |init| {
          assert init[i].cohortId == c;
        }
      }
    }
  }

  /** A cohort that has not appeared yet has no snapshots. */
  lemma {:induction false} OfAbsentCohort(snapshots: seq<SnapshotRow>, c: string)
    requires c !in Cohorts(snapshots)
    ensures OfCohort(snapshots, c) == []
  {
    if snapshots != [] {
      var init := snapshots[..|snapshots| - 1];
      assert c !in Cohorts(init);
      OfAbsentCohort(init, c);
    }
  }

  /** The grouping matches the reference definition. */
  lemma {:induction false} GroupDescribes(snapshots: seq<SnapshotRow>)
    ensures Describes(Group(snapshots), snapshots)
  {
    if snapshots != [] {
      var init := snapshots[..|snapshots| - 1];
      var s := snapshots[|snapshots| - 1];
      var before := Group(init);
      GroupDescribes(init);
      CohortsDistinct(init);
      var cs := Cohorts(init);
      var k := Find(before, s.cohortId);
      var after := Group(snapshots);
      assert after == AddSnapshot(before, s);
      if k == -1 {
        assert forall j :: 0 <= j < |cs| ==> cs[j] == before[j].cohortId != s.cohortId;
        assert s.cohortId !in cs;
        OfAbsentCohort(init, s.cohortId);
        forall j | 0 <= j < |after|
          ensures after[j] == Pair(Cohorts(snapshots)[j], FirstTwo(OfCohort(snapshots, Cohorts(snapshots)[j])))
        {
          if j < |before| {
            assert cs[j] != s.cohortId;
          }
        }
      } else {
        assert cs[k] == s.cohortId;
        assert s.cohortId in cs;
        forall j | 0 <= j < |after|
          ensures after[j] == Pair(Cohorts(snapshots)[j], FirstTwo(OfCohort(snapshots, Cohorts(snapshots)[j])))
        {
          if j != k {
            assert cs[j] != s.cohortId;
          } else {
            var o := OfCohort(init, s.cohortId);
            assert OfCohort(snapshots, s.cohortId) == o + [s];
            if |o| >= 2 {
              assert (o + [s])[..2] == o[..2];
            }
          }
        }
      }
    }
  }

  /**
   * Each cohort of the input has exactly one entry, holding the first one or
   * two of its snapshots in query order; the entries follow first appearance.
   */
  lemma GroupSpec(snapshots: seq<SnapshotRow>)
    ensures DistinctKeys(Group(snapshots))
    ensures forall k :: 0 <= k < |Group(snapshots)| ==>
              1 <= |Group(snapshots)[k].snapshots| <= 2
              && Group(snapshots)[k].snapshots == FirstTwo(OfCohort(snapshots, Group(snapshots)[k].cohortId))
    ensures forall i :: 0 <= i < |snapshots| ==> Find(Group(snapshots), snapshots[i].cohortId) >= 0
  {
    GroupDescribes(snapshots);
    CohortsDistinct(snapshots);
    var g := Group(snapshots);
    var cs := Cohorts(snapshots);
    forall k | 0 <= k < |g|
      ensures 1 <= |g[k].snapshots| <= 2
    {
      assert cs[k] in cs;
      var i :| 0 <= i < |snapshots| && snapshots[i].cohortId == cs[k];
      OfCohortMember(snapshots, i);
    }
    forall i | 0 <= i < |snapshots|
      ensures Find(g, snapshots[i].cohortId) >= 0
    {
      var c := snapshots[i].cohortId;
      assert c in cs;
      var k :| 0 <= k < |cs| && cs[k] == c;
      assert g[k].cohortId == c;
    }
  }

  /** A snapshot belongs to its own cohort's list. */
  lemma {:induction false} OfCohortMember(snapshots: seq<SnapshotRow>, i: int)
    requires 0 <= i < |snapshots|
    ensures OfCohort(snapshots, snapshots[i].cohortId) != []
  {
    var init := snapshots[..|snapshots| - 1];
    if i < |init| {
      assert init[i] == snapshots[i];
      OfCohortMember(init, i);
    }
  }
}
