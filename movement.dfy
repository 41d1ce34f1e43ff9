/**
 * The "top movers" list shown by the shared report and by the live-movement
 * widget. The previous snapshot's items become a place-id to rank map, each
 * latest item with a previous rank becomes `{ name, delta: prevRank - rank }`,
 * the list is stable-sorted by |delta| descending and cut to a limit.
 * The two callers differ only in how a missing previous rank is detected and
 * in the limit.
 */
module Movement {
  import JsMap
  import StableSort

  /** A latest-snapshot item (`place_id,name,rank`). */
  datatype RankedItem = RankedItem(placeId: string, name: string, rank: int)

  /** A previous-snapshot item (`place_id,rank`). */
  datatype RankRow = RankRow(placeId: string, rank: int)

  /** One entry of the list. */
  datatype Move = Move(name: string, delta: int)

  /**
   * The test that drops an item: the report drops it when `prevRank === undefined`,
   * the live widget when `!prevRank`, which also drops a stored rank of 0.
   */
  datatype Guard = Undefined | Falsy

  /** `new Map(rows.map(item => [item.place_id, item.rank]))`. */
  function PreviousRanks(previous: seq<RankRow>): map<string, int> {
    JsMap.FromPairs(seq(|previous|, i requires 0 <= i < |previous| => (previous[i].placeId, previous[i].rank)))
  }

  predicate Kept(prevRanks: map<string, int>, item: RankedItem, guard: Guard) {
    item.placeId in prevRanks && (guard == Falsy ==> prevRanks[item.placeId] != 0)
  }

  /** The `map` then `filter(Boolean)` step, in the order of the latest items. */
  function Deltas(latest: seq<RankedItem>, prevRanks: map<string, int>, guard: Guard): seq<Move> {
    if latest == [] then []
    else
      var item := latest[0];
      (if Kept(prevRanks, item, guard) then [Move(item.name, prevRanks[item.placeId] - item.rank)] else [])
      + Deltas(latest[1..], prevRanks, guard)
  }

  function Magnitude(m: Move): int {
    if m.delta < 0 then -m.delta else m.delta
  }

  /** `.sort((a, b) => Math.abs(b.delta) - Math.abs(a.delta)).slice(0, limit)`. */
  function TopMovers(latest: seq<RankedItem>, previous: seq<RankRow>, guard: Guard, limit: nat): seq<Move> {
    var sorted := StableSort.SortDesc(Deltas(latest, PreviousRanks(previous), guard), Magnitude);
    if |sorted| <= limit then sorted else sorted[..limit]
  }

  /** The moves are exactly the kept latest items, each with its previous rank minus its rank. */
  lemma {:induction false} DeltasMembers(latest: seq<RankedItem>, prevRanks: map<string, int>, guard: Guard)
    ensures |Deltas(latest, prevRanks, guard)| <= |latest|
    ensures forall m :: m in Deltas(latest, prevRanks, guard) <==>
              exists i :: 0 <= i < |latest| && Kept(prevRanks, latest[i], guard)
                          && m == Move(latest[i].name, prevRanks[latest[i].placeId] - latest[i].rank)
  {
    if latest != [] {
      DeltasMembers(latest[1..], prevRanks, guard);
      assert forall i :: 0 < i < |latest| ==> latest[i] == latest[1..][i - 1];
      forall m | exists i :: 0 <= i < |latest| && Kept(prevRanks, latest[i], guard)
                             && m == Move(latest[i].name, prevRanks[latest[i].placeId] - latest[i].rank)
        ensures m in Deltas(latest, prevRanks, guard)
      {
        var i :| 0 <= i < |latest| && Kept(prevRanks, latest[i], guard)
                 && m == Move(latest[i].name, prevRanks[latest[i].placeId] - latest[i].rank);
        if i > 0 {
          assert latest[1..][i - 1] == latest[i];
        }
      }
    }
  }

  /** The last index carrying a place id, when some index carries it. */
  lemma {:induction false} LastRowOf(previous: seq<RankRow>, id: string, i: int)
    requires 0 <= i < |previous| && previous[i].placeId == id
    ensures exists j :: i <= j < |previous| && previous[j].placeId == id
                        && forall k :: j < k < |previous| ==> previous[k].placeId != id
    decreases |previous| - i
  {
    if exists k :: i < k < |previous| && previous[k].placeId == id {
      var k :| i < k < |previous| && previous[k].placeId == id;
      LastRowOf(previous, id, k);
    }
  }

  /**
   * A place has a previous rank exactly when some previous row carries its id,
   * and the rank is that of the LAST such row (a later row wins in a `Map`).
   */
  lemma PreviousRankOf(previous: seq<RankRow>, id: string)
    ensures id in PreviousRanks(previous) <==> exists i :: 0 <= i < |previous| && previous[i].placeId == id
    ensures id in PreviousRanks(previous) ==>
              exists j :: 0 <= j < |previous| && previous[j] == RankRow(id, PreviousRanks(previous)[id])
                          && forall k :: j < k < |previous| ==> previous[k].placeId != id
  {
    var pairs := seq(|previous|, i requires 0 <= i < |previous| => (previous[i].placeId, previous[i].rank));
    assert forall i :: 0 <= i < |previous| ==> pairs[i] == (previous[i].placeId, previous[i].rank);
    JsMap.KeyIn(pairs, id);
    if id in PreviousRanks(previous) {
      var i :| 0 <= i < |pairs| && pairs[i].0 == id;
      LastRowOf(previous, id, i);
      var j :| i <= j < |previous| && previous[j].placeId == id
               && forall k :: j < k < |previous| ==> previous[k].placeId != id;
      assert JsMap.LastOfKey(pairs, j);
      JsMap.LastWins(pairs, j);
    }
  }

  /** Truncating a list keeps, for each magnitude, a prefix of the entries of that magnitude. */
  lemma {:induction false} WithKeyPrefix(s: seq<Move>, n: nat, k: int)
    requires n <= |s|
    ensures StableSort.WithKey(s[..n], Magnitude, k) <= StableSort.WithKey(s, Magnitude, k)
  {
    if n > 0 {
      assert s[..n][1..] == s[1..][..n - 1];
      WithKeyPrefix(s[1..], n - 1, k);
    }
  }

  /**
   * Cutting a non-increasing list after `n` entries keeps the `n` largest:
   * nothing left out is larger than anything kept.
   */
  lemma CutKeepsLargest(sorted: seq<Move>, n: nat)
    requires n <= |sorted| && StableSort.NonIncreasing(sorted, Magnitude)
    ensures forall m, x :: m in multiset(sorted) - multiset(sorted[..n]) && x in sorted[..n] ==> Magnitude(m) <= Magnitude(x)
  {
    CutRest(sorted, n);
    forall m, x | m in multiset(sorted[n..]) && x in sorted[..n]
      ensures Magnitude(m) <= Magnitude(x)
    {
      assert m in sorted[n..];
      var j :| n <= j < |sorted| && sorted[j] == m;
      var i :| 0 <= i < n && sorted[i] == x;
    }
  }

  /** What a cut leaves out is the rest of the list. */
  lemma CutRest(sorted: seq<Move>, n: nat)
    requires n <= |sorted|
    ensures multiset(sorted) - multiset(sorted[..n]) == multiset(sorted[n..])
  {
    assert sorted == sorted[..n] + sorted[n..];
  }

  /** A prefix of a non-increasing list is non-increasing and a sub-multiset. */
  lemma CutSorted(sorted: seq<Move>, n: nat)
    requires n <= |sorted| && StableSort.NonIncreasing(sorted, Magnitude)
    ensures StableSort.NonIncreasing(sorted[..n], Magnitude)
    ensures multiset(sorted[..n]) <= multiset(sorted)
  {
    assert sorted == sorted[..n] + sorted[n..];
  }

  /**
   * The list holds `min(limit, #kept)` moves, in non-increasing |delta|; it is
   * drawn from the kept moves, and every kept move left out moves no more
   * than any move shown. Moves of equal |delta| keep the latest items' order.
   */
  lemma TopMoversSpec(latest: seq<RankedItem>, previous: seq<RankRow>, guard: Guard, limit: nat)
    ensures var d := Deltas(latest, PreviousRanks(previous), guard);
            var r := TopMovers(latest, previous, guard, limit);
            && |r| == (if |d| <= limit then |d| else limit)
            && |r| <= |latest|
            && StableSort.NonIncreasing(r, Magnitude)
            && multiset(r) <= multiset(d)
            && (forall m, x :: m in multiset(d) - multiset(r) && x in r ==> Magnitude(m) <= Magnitude(x))
            && (forall k :: StableSort.WithKey(r, Magnitude, k) <= StableSort.WithKey(d, Magnitude, k))
  {
    var d := Deltas(latest, PreviousRanks(previous), guard);
    var sorted := StableSort.SortDesc(d, Magnitude);
    DeltasMembers(latest, PreviousRanks(previous), guard);
    StableSort.SortDescCorrect(d, Magnitude);
    var n := if |sorted| <= limit then |sorted| else limit;
    assert TopMovers(latest, previous, guard, limit) == sorted[..n];
    CutSorted(sorted, n);
    CutKeepsLargest(sorted, n);
    forall k
      ensures StableSort.WithKey(sorted[..n], Magnitude, k) <= StableSort.WithKey(d, Magnitude, k)
    {
      WithKeyPrefix(sorted, n, k);
    }
  }

  /** The shape of the list alone: bounded, ordered, and drawn from the kept moves. */
  lemma TopMoversBasics(latest: seq<RankedItem>, previous: seq<RankRow>, guard: Guard, limit: nat)
    ensures var r := TopMovers(latest, previous, guard, limit);
            && |r| <= limit && |r| <= |latest|
            && StableSort.NonIncreasing(r, Magnitude)
            && forall m :: m in r ==> m in Deltas(latest, PreviousRanks(previous), guard)
  {
    var r := TopMovers(latest, previous, guard, limit);
    TopMoversSpec(latest, previous, guard, limit);
    forall m | m in r
      ensures m in Deltas(latest, PreviousRanks(previous), guard)
    {
      assert m in multiset(r);
    }
  }

  /** Nothing is kept against an empty map. */
  lemma {:induction false} NothingKept(latest: seq<RankedItem>, guard: Guard)
    ensures Deltas(latest, map[], guard) == []
  {
    if latest != [] {
      NothingKept(latest[1..], guard);
    }
  }

  /** With no previous items the list is empty. */
  lemma NoPreviousNoMovers(latest: seq<RankedItem>, guard: Guard, limit: nat)
    ensures TopMovers(latest, [], guard, limit) == []
  {
    assert PreviousRanks([]) == map[];
    NothingKept(latest, guard);
  }
}
