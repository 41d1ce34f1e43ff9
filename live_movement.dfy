/**
 * The dashboard's live-movement widget (`loadMovement`): group the owner's
 * newest snapshots per cohort, choose the cohort whose newest snapshot is the
 * most recent among those with two snapshots, and list the top five movers
 * between that cohort's two snapshots.
 */
module LiveMovement {
  import opened Wrappers
  import opened SnapshotPairs
  import Movement

  /** A `localseo_rank_snapshot_items` row (`snapshot_id,place_id,name,rank`). */
  datatype ItemRow = ItemRow(snapshotId: string, placeId: string, name: string, rank: int)

  datatype Status = SignedOut | Ready

  /** How many movers the widget shows. */
  const MoverLimit: nat := 5

  /**
   * The `latestPair` fold over the map in insertion order: a pair with fewer
   * than two snapshots is skipped, the first full pair is taken, and a later
   * one replaces it only when its newest snapshot is strictly newer.
   */
  function Latest(pairs: seq<Pair>): (r: Option<Pair>)
    ensures r.Some? ==> Full(r.value)
  {
    if pairs == [] then None
    else
      var l := Latest(pairs[..|pairs| - 1]);
      var p := pairs[|pairs| - 1];
      if !Full(p) then l
      else if l.None? then Some(p)
      else if Newest(p) > Newest(l.value) then Some(p)
      else l
  }

  /** Pair `k` is full, strictly newer than every full pair before it and at least as new as every full pair after it. */
  ghost predicate FirstNewest(pairs: seq<Pair>, k: int) {
    0 <= k < |pairs| && Full(pairs[k])
    && (forall j :: 0 <= j < k && Full(pairs[j]) ==> Newest(pairs[j]) < Newest(pairs[k]))
    && (forall j :: k < j < |pairs| && Full(pairs[j]) ==> Newest(pairs[j]) <= Newest(pairs[k]))
  }

  /**
   * No pair is chosen exactly when no cohort has two snapshots; otherwise the
   * chosen pair is the first of the full pairs with the newest latest snapshot.
   */
  lemma {:induction false} LatestSpec(pairs: seq<Pair>)
    ensures Latest(pairs).None? <==> forall j :: 0 <= j < |pairs| ==> !Full(pairs[j])
    ensures Latest(pairs).Some? ==> exists k :: FirstNewest(pairs, k) && pairs[k] == Latest(pairs).value
  {
    if pairs != [] {
      var init := pairs[..|pairs| - 1];
      var p := pairs[|pairs| - 1];
      LatestSpec(init);
      assert forall j :: 0 <= j < |init| ==> init[j] == pairs[j];
      var l := Latest(init);
      if l.Some? {
        var k :| FirstNewest(init, k) && init[k] == l.value;
        if Full(p) && Newest(p) > Newest(l.value) {
          assert FirstNewest(pairs, |pairs| - 1);
        } else {
          assert FirstNewest(pairs, k);
        }
      } else if Full(p) {
        assert FirstNewest(pairs, |pairs| - 1);
      }
    }
  }

  /** `snapshotPairs.forEach(...)` choosing `latestPair`. */
  method SelectLatestPair(pairs: seq<Pair>) returns (latest: Option<Pair>)
    ensures latest == Latest(pairs)
  {
    latest := None;
    for i := 0 to |pairs|
      invariant latest == Latest(pairs[..i])
    {
      assert pairs[..i + 1][..i] == pairs[..i];
      var pair := pairs[i];
      if |pair.snapshots| < 2 {
        continue;
      }
      if latest.None? {
        latest := Some(pair);
        continue;
      }
      if pair.snapshots[0].createdAt > latest.value.snapshots[0].createdAt {
        latest := Some(pair);
      }
    }
    assert pairs[..|pairs|] == pairs;
  }

  /** `items.filter(item => item.snapshot_id === id)`, as the latest list. */
  function LatestItemsOf(items: seq<ItemRow>, id: string): seq<Movement.RankedItem> {
    if items == [] then []
    else
      var it := items[|items| - 1];
      LatestItemsOf(items[..|items| - 1], id)
      + (if it.snapshotId == id then [Movement.RankedItem(it.placeId, it.name, it.rank)] else [])
  }

  /** The same filter, as the previous list. */
  function PreviousItemsOf(items: seq<ItemRow>, id: string): seq<Movement.RankRow> {
    if items == [] then []
    else
      var it := items[|items| - 1];
      PreviousItemsOf(items[..|items| - 1], id) + (if it.snapshotId == id then [Movement.RankRow(it.placeId, it.rank)] else [])
  }

  /**
   * `loadMovement`, given whether a user is signed in, the answer of the
   * snapshot query (newest first, at most twenty) and the answer of the items
   * query for a chosen `(latest, previous)` pair of snapshot ids.
   */
  method LoadMovement(signedIn: bool, snapshots: Option<seq<SnapshotRow>>,
                      itemsFor: (string, string) -> Option<seq<ItemRow>>)
    returns (status: Status, movement: seq<Movement.Move>)
    ensures !signedIn ==> status == SignedOut && movement == []
    ensures signedIn ==> status == Ready
    ensures signedIn && Latest(Group(snapshots.GetOr([]))).None? ==> movement == []
    ensures signedIn && Latest(Group(snapshots.GetOr([]))).Some? ==>
              var pair := Latest(Group(snapshots.GetOr([]))).value;
              var items := itemsFor(pair.snapshots[0].id, pair.snapshots[1].id).GetOr([]);
              movement == Movement.TopMovers(LatestItemsOf(items, pair.snapshots[0].id),
                                             PreviousItemsOf(items, pair.snapshots[1].id),
                                             Movement.Falsy, MoverLimit)
  {
    if !signedIn {
      return SignedOut, [];
    }
    var pairs := GroupSnapshots(snapshots.GetOr([]));
    var latestPair := SelectLatestPair(pairs);
    if latestPair.None? {
      return Ready, [];
    }
    var latest, previous := latestPair.value.snapshots[0], latestPair.value.snapshots[1];
    var items := itemsFor(latest.id, previous.id).GetOr([]);
    var latestItems := LatestItemsOf(items, latest.id);
    var previousItems := PreviousItemsOf(items, previous.id);
    movement := Movement.TopMovers(latestItems, previousItems, Movement.Falsy, MoverLimit);
    status := Ready;
  }

  /** The latest list holds exactly the rows of that snapshot, in row order. */
  lemma {:induction false} LatestItemsOfSpec(items: seq<ItemRow>, id: string)
    ensures |LatestItemsOf(items, id)| <= |items|
    ensures forall x :: x in LatestItemsOf(items, id) <==>
              exists i :: 0 <= i < |items| && items[i].snapshotId == id
                          && x == Movement.RankedItem(items[i].placeId, items[i].name, items[i].rank)
  {
    if items != [] {
      var init := items[..|items| - 1];
      LatestItemsOfSpec(init, id);
      assert forall i :: 0 <= i < |init| ==> init[i] == items[i];
    }
  }

  /**
   * The widget's movers: at most five, in non-increasing |delta|; each is an
   * item of the latest snapshot whose place had a previous rank other than 0,
   * with that rank minus the current one.
   */
  lemma LiveMoversSpec(items: seq<ItemRow>, latestId: string, previousId: string)
    ensures var prevRanks := Movement.PreviousRanks(PreviousItemsOf(items, previousId));
            var r := Movement.TopMovers(LatestItemsOf(items, latestId), PreviousItemsOf(items, previousId),
                                        Movement.Falsy, MoverLimit);
            && |r| <= MoverLimit
            && (forall a, b :: 0 <= a < b < |r| ==> Movement.Magnitude(r[a]) >= Movement.Magnitude(r[b]))
            && (forall m :: m in r ==>
                  exists i :: 0 <= i < |items| && items[i].snapshotId == latestId
                              && items[i].placeId in prevRanks && prevRanks[items[i].placeId] != 0
                              && m == Movement.Move(items[i].name, prevRanks[items[i].placeId] - items[i].rank))
  {
    var latest := LatestItemsOf(items, latestId);
    var previous := PreviousItemsOf(items, previousId);
    var prevRanks := Movement.PreviousRanks(previous);
    var r := Movement.TopMovers(latest, previous, Movement.Falsy, MoverLimit);
    Movement.TopMoversBasics(latest, previous, Movement.Falsy, MoverLimit);
    Movement.DeltasMembers(latest, prevRanks, Movement.Falsy);
    LatestItemsOfSpec(items, latestId);
    forall m | m in r
      ensures exists i :: 0 <= i < |items| && items[i].snapshotId == latestId
                          && items[i].placeId in prevRanks && prevRanks[items[i].placeId] != 0
                          && m == Movement.Move(items[i].name, prevRanks[items[i].placeId] - items[i].rank)
    {
      var j :| 0 <= j < |latest| && Movement.Kept(prevRanks, latest[j], Movement.Falsy)
               && m == Movement.Move(latest[j].name, prevRanks[latest[j].placeId] - latest[j].rank);
      assert latest[j] in latest;
      var i :| 0 <= i < |items| && items[i].snapshotId == latestId
               && latest[j] == Movement.RankedItem(items[i].placeId, items[i].name, items[i].rank);
    }
  }
}
