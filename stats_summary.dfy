/**
 * The dashboard's summary widget (`loadStats`): the number of tracked
 * postcodes, and over every cohort whose two newest snapshots both have
 * items, the per-cohort rank-lift terms and the alerts of the last week.
 * The maps `snapshotPairs` and `itemsBySnapshot` are filled in place and the
 * tallies are accumulated by loops, as in the widget.
 */
module StatsSummary {
  import opened Wrappers
  import opened SnapshotPairs
  import Movement

  /** A `localseo_rank_snapshot_items` row (`snapshot_id,place_id,rank`). */
  datatype ItemRow = ItemRow(snapshotId: string, placeId: string, rank: int)

  /** The accumulators of one cohort: `cohortDeltaTotal`, `cohortCount`, `cohortAlerts`. */
  datatype Tally = Tally(deltaTotal: int, count: nat, alerts: nat)

  /** One term `cohortDeltaTotal / cohortCount` of `averageLift`, kept as its two integers. */
  datatype Lift = Lift(deltaTotal: int, count: nat)

  /** `totalPairs`, `weeklyAlerts` and the terms summed into `averageLift`. */
  datatype Totals = Totals(totalPairs: nat, weeklyAlerts: nat, lifts: seq<Lift>)

  datatype Summary = Summary(trackedPostcodes: nat, totals: Totals)

  datatype Status = SignedOut | Ready

  /** Seven days in milliseconds: `days <= 7` with `days` the difference in ms over a day's ms. */
  const WeekMs: int := 7 * 24 * 60 * 60 * 1000

  // ---- itemsBySnapshot -----------------------------------------------------

  /** `itemsBySnapshot.get(id) ?? []`. */
  function Lookup(byId: map<string, seq<ItemRow>>, id: string): seq<ItemRow> {
    if id in byId then byId[id] else []
  }

  /** The map after `(items ?? []).forEach(...)`: each row pushed onto its snapshot's list. */
  function ItemsById(items: seq<ItemRow>): map<string, seq<ItemRow>> {
    if items == [] then map[]
    else
      var byId := ItemsById(items[..|items| - 1]);
      var item := items[|items| - 1];
      byId[item.snapshotId := Lookup(byId, item.snapshotId) + [item]]
  }

  method GroupItems(items: seq<ItemRow>) returns (byId: map<string, seq<ItemRow>>)
    ensures byId == ItemsById(items)
  {
    byId := map[];
    for i := 0 to |items|
      invariant byId == ItemsById(items[..i])
    {
      assert items[..i + 1][..i] == items[..i];
      var item := items[i];
      var list := if item.snapshotId in byId then byId[item.snapshotId] else [];
      byId := byId[item.snapshotId := list + [item]];
    }
    assert items[..|items|] == items;
  }

  /** The rows of one snapshot, in row order. */
  function ItemsOf(items: seq<ItemRow>, id: string): seq<ItemRow> {
    if items == [] then []
    else
      var item := items[|items| - 1];
      ItemsOf(items[..|items| - 1], id) + (if item.snapshotId == id then [item] else [])
  }

  /** Each snapshot's list is exactly its rows in row order, and a snapshot without rows has none. */
  lemma {:induction false} ItemsByIdSpec(items: seq<ItemRow>, id: string)
    ensures Lookup(ItemsById(items), id) == ItemsOf(items, id)
  {
    if items != [] {
      ItemsByIdSpec(items[..|items| - 1], id);
    }
  }

  // ---- one cohort ----------------------------------------------------------

  predicate Matched(prevRanks: map<string, int>, item: ItemRow) {
    item.placeId in prevRanks && prevRanks[item.placeId] != 0
  }

  /** The accumulators after `latestItems.forEach(...)`; an item without a truthy previous rank is skipped. */
  function TallyOf(latest: seq<ItemRow>, prevRanks: map<string, int>): Tally {
    if latest == [] then Tally(0, 0, 0)
    else
      var t := TallyOf(latest[..|latest| - 1], prevRanks);
      var item := latest[|latest| - 1];
      if !Matched(prevRanks, item) then t
      else
        var delta := prevRanks[item.placeId] - item.rank;
        Tally(t.deltaTotal + delta, t.count + 1, t.alerts + (if delta != 0 then 1 else 0))
  }

  method TallyCohort(latestItems: seq<ItemRow>, prevRanks: map<string, int>)
    returns (cohortDeltaTotal: int, cohortCount: nat, cohortAlerts: nat)
    ensures Tally(cohortDeltaTotal, cohortCount, cohortAlerts) == TallyOf(latestItems, prevRanks)
  {
    cohortDeltaTotal, cohortCount, cohortAlerts := 0, 0, 0;
    for i := 0 to |latestItems|
      invariant Tally(cohortDeltaTotal, cohortCount, cohortAlerts) == TallyOf(latestItems[..i], prevRanks)
    {
      assert latestItems[..i + 1][..i] == latestItems[..i];
      var item := latestItems[i];
      if item.placeId !in prevRanks || prevRanks[item.placeId] == 0 {
        continue;
      }
      var delta := prevRanks[item.placeId] - item.rank;
      cohortDeltaTotal := cohortDeltaTotal + delta;
      cohortCount := cohortCount + 1;
      if delta != 0 {
        cohortAlerts := cohortAlerts + 1;
      }
    }
    assert latestItems[..|latestItems|] == latestItems;
  }

  /** Reference: the deltas of the matched latest items, in order. */
  function MatchedDeltas(latest: seq<ItemRow>, prevRanks: map<string, int>): seq<int> {
    if latest == [] then []
    else
      var item := latest[|latest| - 1];
      MatchedDeltas(latest[..|latest| - 1], prevRanks)
      + (if Matched(prevRanks, item) then [prevRanks[item.placeId] - item.rank] else [])
  }

  function Sum(s: seq<int>): int {
    if s == [] then 0 else Sum(s[..|s| - 1]) + s[|s| - 1]
  }

  function NonZero(s: seq<int>): nat {
    if s == [] then 0 else NonZero(s[..|s| - 1]) + (if s[|s| - 1] != 0 then 1 else 0)
  }

  /**
   * A cohort's accumulators are the sum, the number and the number of
   * non-zero deltas of its matched items; so `cohortAlerts <= cohortCount`,
   * and no more items count than the latest snapshot has.
   */
  lemma {:induction false} TallySpec(latest: seq<ItemRow>, prevRanks: map<string, int>)
    ensures var d := MatchedDeltas(latest, prevRanks);
            TallyOf(latest, prevRanks) == Tally(Sum(d), |d|, NonZero(d))
    ensures TallyOf(latest, prevRanks).alerts <= TallyOf(latest, prevRanks).count <= |latest|
  {
    if latest != [] {
      var init := latest[..|latest| - 1];
      TallySpec(init, prevRanks);
      var d := MatchedDeltas(latest, prevRanks);
      var item := latest[|latest| - 1];
      if Matched(prevRanks, item) {
        assert d[..|d| - 1] == MatchedDeltas(init, prevRanks);
      } else {
        assert d == MatchedDeltas(init, prevRanks);
      }
    }
  }

  // ---- all cohorts -----------------------------------------------------------

  /** `new Map(previousItems.map(item => [item.place_id, item.rank]))`. */
  function PreviousRanksOf(previousItems: seq<ItemRow>): map<string, int> {
    Movement.PreviousRanks(seq(|previousItems|, i requires 0 <= i < |previousItems| =>
                                 Movement.RankRow(previousItems[i].placeId, previousItems[i].rank)))
  }

  /** A cohort's tally, or `None` when it is skipped: fewer than two snapshots, or either item list empty. */
  function CohortTally(pair: Pair, byId: map<string, seq<ItemRow>>): Option<Tally> {
    if !Full(pair) then None
    else
      var latestItems := Lookup(byId, pair.snapshots[0].id);
      var previousItems := Lookup(byId, pair.snapshots[1].id);
      if latestItems == [] || previousItems == [] then None
      else Some(TallyOf(latestItems, PreviousRanksOf(previousItems)))
  }

  /** One step of `snapshotPairs.forEach(...)`: a cohort with a matched item counts as a pair. */
  function AddPair(acc: Totals, pair: Pair, byId: map<string, seq<ItemRow>>, now: int): Totals {
    var t := CohortTally(pair, byId);
    if t.None? || t.value.count == 0 then acc
    else
      Totals(acc.totalPairs + 1,
             acc.weeklyAlerts + (if now - Newest(pair) <= WeekMs then t.value.alerts else 0),
             acc.lifts + [Lift(t.value.deltaTotal, t.value.count)])
  }

  function Accumulate(pairs: seq<Pair>, byId: map<string, seq<ItemRow>>, now: int): Totals {
    if pairs == [] then Totals(0, 0, [])
    else AddPair(Accumulate(pairs[..|pairs| - 1], byId, now), pairs[|pairs| - 1], byId, now)
  }

  method TallyPairs(pairs: seq<Pair>, byId: map<string, seq<ItemRow>>, now: int)
    returns (totalPairs: nat, weeklyAlerts: nat, lifts: seq<Lift>)
    ensures Totals(totalPairs, weeklyAlerts, lifts) == Accumulate(pairs, byId, now)
  {
    totalPairs, weeklyAlerts, lifts := 0, 0, [];
    for i := 0 to |pairs|
      invariant Totals(totalPairs, weeklyAlerts, lifts) == Accumulate(pairs[..i], byId, now)
    {
      assert pairs[..i + 1][..i] == pairs[..i];
      var pair := pairs[i];
      if |pair.snapshots| < 2 {
        continue;
      }
      var latest, previous := pair.snapshots[0], pair.snapshots[1];
      var latestItems := if latest.id in byId then byId[latest.id] else [];
      var previousItems := if previous.id in byId then byId[previous.id] else [];
      if |latestItems| == 0 || |previousItems| == 0 {
        continue;
      }
      var previousRankMap := PreviousRanksOf(previousItems);
      var cohortDeltaTotal, cohortCount, cohortAlerts := TallyCohort(latestItems, previousRankMap);
      if cohortCount > 0 {
        totalPairs := totalPairs + 1;
        lifts := lifts + [Lift(cohortDeltaTotal, cohortCount)];
        if now - latest.createdAt <= WeekMs {
          weeklyAlerts := weeklyAlerts + cohortAlerts;
        }
      }
    }
    assert pairs[..|pairs|] == pairs;
  }

  /** `Array.from(snapshotPairs.values()).flat().map(s => s.id)`. */
  function Ids(pairs: seq<Pair>): seq<string> {
    if pairs == [] then []
    else
      var p := pairs[|pairs| - 1];
      Ids(pairs[..|pairs| - 1]) + seq(|p.snapshots|, i requires 0 <= i < |p.snapshots| => p.snapshots[i].id)
  }

  /**
   * `loadStats`, given whether a user is signed in, the answers of the cohort
   * query and of the snapshot query (newest first, at most fifty), the answer
   * of the items query for a list of snapshot ids, and the current instant.
   * `None` is the placeholder summary.
   */
  method LoadStats(signedIn: bool, cohorts: Option<seq<string>>, snapshots: Option<seq<SnapshotRow>>,
                   itemsFor: seq<string> -> Option<seq<ItemRow>>, now: int)
    returns (status: Status, summary: Option<Summary>)
    ensures !signedIn ==> status == SignedOut && summary == None
    ensures signedIn ==> status == Ready && summary.Some? && summary.value.trackedPostcodes == |cohorts.GetOr([])|
    ensures signedIn ==>
              var pairs := Group(snapshots.GetOr([]));
              var ids := Ids(pairs);
              && (|ids| < 2 ==> summary.value.totals == Totals(0, 0, []))
              && (|ids| >= 2 ==> summary.value.totals == Accumulate(pairs, ItemsById(itemsFor(ids).GetOr([])), now))
  {
    if !signedIn {
      return SignedOut, None;
    }
    var trackedPostcodes := |cohorts.GetOr([])|;
    var pairs := GroupSnapshots(snapshots.GetOr([]));
    var snapshotIds := Ids(pairs);
    var totalPairs, weeklyAlerts, lifts := 0, 0, [];
    if |snapshotIds| >= 2 {
      var itemsBySnapshot := GroupItems(itemsFor(snapshotIds).GetOr([]));
      totalPairs, weeklyAlerts, lifts := TallyPairs(pairs, itemsBySnapshot, now);
    }
    status, summary := Ready, Some(Summary(trackedPostcodes, Totals(totalPairs, weeklyAlerts, lifts)));
  }

  // ---- properties ------------------------------------------------------------

  function FullCount(pairs: seq<Pair>): nat {
    if pairs == [] then 0 else FullCount(pairs[..|pairs| - 1]) + (if Full(pairs[|pairs| - 1]) then 1 else 0)
  }

  function CountSum(lifts: seq<Lift>): nat {
    if lifts == [] then 0 else CountSum(lifts[..|lifts| - 1]) + lifts[|lifts| - 1].count
  }

  /**
   * `totalPairs` is the number of lift terms and at most the number of
   * cohorts with two snapshots; every term counts at least one item; and the
   * weekly alerts never exceed the matched items counted.
   */
  lemma {:induction false} AccumulateSpec(pairs: seq<Pair>, byId: map<string, seq<ItemRow>>, now: int)
    ensures var t := Accumulate(pairs, byId, now);
            && t.totalPairs == |t.lifts| <= FullCount(pairs)
            && (forall k :: 0 <= k < |t.lifts| ==> t.lifts[k].count > 0)
            && t.weeklyAlerts <= CountSum(t.lifts)
  {
    if pairs != [] {
      var init := pairs[..|pairs| - 1];
      var p := pairs[|pairs| - 1];
      AccumulateSpec(init, byId, now);
      var acc := Accumulate(init, byId, now);
      var c := CohortTally(p, byId);
      if c.Some? && c.value.count > 0 {
        var latestItems := Lookup(byId, p.snapshots[0].id);
        TallySpec(latestItems, PreviousRanksOf(Lookup(byId, p.snapshots[1].id)));
        var t := Accumulate(pairs, byId, now);
        assert t.lifts[..|t.lifts| - 1] == acc.lifts;
      }
    }
  }

  /** Fewer than two snapshot ids means no cohort has two snapshots. */
  lemma {:induction false} FewIdsNoFullPair(pairs: seq<Pair>)
    ensures FullCount(pairs) > 0 ==> |Ids(pairs)| >= 2
  {
    if pairs != [] {
      FewIdsNoFullPair(pairs[..|pairs| - 1]);
    }
  }

  /**
   * Skipping the item lookup below two snapshot ids changes nothing: the
   * loop over the pairs would have left every total at zero.
   */
  lemma {:induction false} SkippedLookupIsZero(pairs: seq<Pair>, byId: map<string, seq<ItemRow>>, now: int)
    requires |Ids(pairs)| < 2
    ensures Accumulate(pairs, byId, now) == Totals(0, 0, [])
  {
    if pairs != [] {
      var init := pairs[..|pairs| - 1];
      FewIdsNoFullPair(pairs);
      assert |Ids(init)| <= |Ids(pairs)|;
      SkippedLookupIsZero(init, byId, now);
    }
  }

  /** A cohort whose newest snapshot is more than seven days old adds no weekly alerts. */
  lemma {:induction false} StaleCohortsNoWeeklyAlerts(pairs: seq<Pair>, byId: map<string, seq<ItemRow>>, now: int)
    requires forall k :: 0 <= k < |pairs| && Full(pairs[k]) ==> now - Newest(pairs[k]) > WeekMs
    ensures Accumulate(pairs, byId, now).weeklyAlerts == 0
  {
    if pairs != [] {
      StaleCohortsNoWeeklyAlerts(pairs[..|pairs| - 1], byId, now);
    }
  }
}
