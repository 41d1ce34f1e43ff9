/**
 * Snapshot items of the rank tracker: ranking a fresh provider list and the
 * change check that decides whether a new snapshot is stored. Ratings are
 * compared only for equality, so they are opaque integers here.
 */
module Snapshots {
  import opened Wrappers
  import JsMap

  /** A place as returned by the search provider, in provider order. */
  datatype Place = Place(placeId: string, name: string, rating: Option<int>, userRatingsTotal: Option<int>)

  /** A stored snapshot item. */
  datatype SnapshotItem = SnapshotItem(placeId: string, name: string, rank: int, rating: Option<int>, userRatingsTotal: Option<int>)

  /** What the change check remembers of a previous item. */
  datatype PrevEntry = PrevEntry(rank: int, rating: Option<int>, userRatingsTotal: Option<int>)

  /** `places.map((place, index) => ({ ..., rank: index + 1, ... }))`. */
  function RankPlaces(places: seq<Place>): (items: seq<SnapshotItem>)
    ensures |items| == |places|
    ensures forall i :: 0 <= i < |items| ==>
              items[i] == SnapshotItem(places[i].placeId, places[i].name, i + 1, places[i].rating, places[i].userRatingsTotal)
  {
    seq(|places|, i requires 0 <= i < |places| =>
      SnapshotItem(places[i].placeId, places[i].name, i + 1, places[i].rating, places[i].userRatingsTotal))
  }

  /** Ranks of a snapshot written from a provider list run 1, 2, ..., n with no gap. */
  lemma RanksContiguous(places: seq<Place>)
    ensures forall i :: 0 <= i < |places| ==> RankPlaces(places)[i].rank == i + 1
    ensures forall i, j :: 0 <= i < |places| && 0 <= j < |places| && RankPlaces(places)[i].rank == RankPlaces(places)[j].rank ==> i == j
  {
  }

  function EntryPairs(previous: seq<SnapshotItem>): seq<(string, PrevEntry)> {
    seq(|previous|, i requires 0 <= i < |previous| =>
      (previous[i].placeId, PrevEntry(previous[i].rank, previous[i].rating, previous[i].userRatingsTotal)))
  }

  /** The change check's `prevMap`: place id to the rank, rating and count of its last previous item. */
  function PrevEntries(previous: seq<SnapshotItem>): map<string, PrevEntry> {
    JsMap.FromPairs(EntryPairs(previous))
  }

  /** The body of `places.some(...)`: the place at `index` has no previous entry or one that differs. */
  predicate PlaceDiffers(prevMap: map<string, PrevEntry>, place: Place, index: int) {
    place.placeId !in prevMap
    || var prev := prevMap[place.placeId];
       prev.rank != index + 1 || prev.rating != place.rating || prev.userRatingsTotal != place.userRatingsTotal
  }

  /**
   * `hasChanges`: `previous` is None when the cohort has no stored snapshot and
   * otherwise holds the items of the most recent one.
   */
  predicate HasChanges(previous: Option<seq<SnapshotItem>>, places: seq<Place>) {
    match previous
    case None => true
    case Some(items) =>
      if items == [] then true
      else
        var prevMap := PrevEntries(items);
        |items| != |places| || exists i :: 0 <= i < |places| && PlaceDiffers(prevMap, places[i], i)
  }

  /** Item `j` is the last previous item with its place id (the one `new Map` keeps). */
  ghost predicate LastWithId(previous: seq<SnapshotItem>, j: int)
    requires 0 <= j < |previous|
  {
    forall k :: j < k < |previous| ==> previous[k].placeId != previous[j].placeId
  }

  /** The place at `i` matches previous item `j`: same id, rank `i + 1`, same rating and count. */
  ghost predicate Matches(previous: seq<SnapshotItem>, j: int, places: seq<Place>, i: int)
    requires 0 <= j < |previous| && 0 <= i < |places|
  {
    previous[j].placeId == places[i].placeId && previous[j].rank == i + 1
    && previous[j].rating == places[i].rating && previous[j].userRatingsTotal == places[i].userRatingsTotal
  }

  /** Some last previous item with the place's id matches the place at `i`. */
  ghost predicate HasMatch(previous: seq<SnapshotItem>, places: seq<Place>, i: int)
    requires 0 <= i < |places|
  {
    exists j :: 0 <= j < |previous| && LastWithId(previous, j) && Matches(previous, j, places, i)
  }

  /** The map entry of a place id is exactly that of the last previous item carrying it. */
  lemma PrevEntryOf(previous: seq<SnapshotItem>, id: string)
    ensures id in PrevEntries(previous) <==> exists j :: 0 <= j < |previous| && previous[j].placeId == id
    ensures forall j :: 0 <= j < |previous| && previous[j].placeId == id && LastWithId(previous, j) ==>
              id in PrevEntries(previous) &&
              PrevEntries(previous)[id] == PrevEntry(previous[j].rank, previous[j].rating, previous[j].userRatingsTotal)
  {
    var pairs := EntryPairs(previous);
    assert forall k :: 0 <= k < |pairs| ==> pairs[k].0 == previous[k].placeId;
    JsMap.KeyIn(pairs, id);
    if id in PrevEntries(previous) {
      var i :| 0 <= i < |pairs| && pairs[i].0 == id;
      assert previous[i].placeId == id;
    }
    forall j | 0 <= j < |previous| && previous[j].placeId == id && LastWithId(previous, j)
      ensures id in PrevEntries(previous) &&
              PrevEntries(previous)[id] == PrevEntry(previous[j].rank, previous[j].rating, previous[j].userRatingsTotal)
    {
      assert JsMap.LastOfKey(pairs, j);
      JsMap.LastWins(pairs, j);
    }
  }

  /** A place id of the previous list has a last item carrying it. */
  lemma LastWithIdExists(previous: seq<SnapshotItem>, id: string) returns (j: int)
    requires exists k :: 0 <= k < |previous| && previous[k].placeId == id
    ensures 0 <= j < |previous| && previous[j].placeId == id && LastWithId(previous, j)
  {
    var k :| 0 <= k < |previous| && previous[k].placeId == id;
    j := k;
    while j + 1 < |previous| && exists m :: j < m < |previous| && previous[m].placeId == id
      invariant k <= j < |previous| && previous[j].placeId == id
      decreases |previous| - j
    {
      var m :| j < m < |previous| && previous[m].placeId == id;
      j := m;
    }
  }

  /**
   * The change check against a stored snapshot: "unchanged" holds exactly when the
   * lists have equal length and every current place at index i has, as the last
   * previous item with its id, one with rank i + 1 and the same rating and count.
   */
  lemma UnchangedIff(previous: seq<SnapshotItem>, places: seq<Place>)
    requires previous != []
    ensures !HasChanges(Some(previous), places) <==>
              |previous| == |places| &&
              forall i :: 0 <= i < |places| ==> HasMatch(previous, places, i)
  {
    var prevMap := PrevEntries(previous);
    forall i | 0 <= i < |places|
      ensures !PlaceDiffers(prevMap, places[i], i) <==> HasMatch(previous, places, i)
    {
      var id := places[i].placeId;
      PrevEntryOf(previous, id);
      if !PlaceDiffers(prevMap, places[i], i) {
        var j := LastWithIdExists(previous, id);
        assert Matches(previous, j, places, i);
      }
      if HasMatch(previous, places, i) {
        var j :| 0 <= j < |previous| && LastWithId(previous, j) && Matches(previous, j, places, i);
        assert prevMap[id] == PrevEntry(previous[j].rank, previous[j].rating, previous[j].userRatingsTotal);
      }
    }
  }

  /** Comparing a provider list with the snapshot it produced, with distinct place ids, finds no change. */
  lemma IdenticalListUnchanged(places: seq<Place>)
    requires places != []
    requires forall a, b :: 0 <= a < b < |places| ==> places[a].placeId != places[b].placeId
    ensures !HasChanges(Some(RankPlaces(places)), places)
  {
    var previous := RankPlaces(places);
    forall i | 0 <= i < |places| ensures HasMatch(previous, places, i) {
      assert LastWithId(previous, i) && Matches(previous, i, places, i);
    }
    UnchangedIff(previous, places);
  }

  /**
   * A provider list that repeats a place id is always "changed" against its own
   * snapshot: the map keeps the later rank, which the earlier position cannot match.
   */
  lemma RepeatedPlaceAlwaysChanged(places: seq<Place>, a: int, b: int)
    requires 0 <= a < b < |places| && places[a].placeId == places[b].placeId
    ensures HasChanges(Some(RankPlaces(places)), places)
  {
    var previous := RankPlaces(places);
    var id := places[a].placeId;
    var j := LastWithIdExists(previous, id);
    PrevEntryOf(previous, id);
    assert j >= b;
    assert PlaceDiffers(PrevEntries(previous), places[a], a);
  }

  /** Without a stored snapshot, or with an empty one, the list always counts as changed. */
  lemma FirstSnapshotAlwaysStored(places: seq<Place>)
    ensures HasChanges(None, places) && HasChanges(Some([]), places)
  {
  }
}
