/**
 * `buildAlerts`: classifies the movement between the previous snapshot's items
 * and the new snapshot's items into at most three alerts, emitted in the order
 * rank_drop, new_top_three, business_out_of_top. The alert message text is a
 * rendering of the payload and is not modelled.
 */
module Alerts {
  import opened Wrappers
  import JsMap
  import opened Snapshots

  datatype Severity = Low | Medium | High
  datatype AlertType = RankDrop | NewTopThree | BusinessOutOfTop
  datatype Drop = Drop(name: string, delta: int)
  datatype Payload =
    | Drops(drops: seq<Drop>)
    | Entrants(entrants: seq<SnapshotItem>)
    | Visibility(businessName: string, rank: Option<int>)
  datatype Alert = Alert(alertType: AlertType, severity: Severity, data: Payload)

  /** A delta at or below this is a rank drop (three or more places down). */
  const DropThreshold: int := -3
  /** A drop at or below this makes the rank_drop alert high severity. */
  const SevereDropThreshold: int := -5
  const TopThree: int := 3
  const TopTen: int := 10

  function AlertOrder(t: AlertType): int {
    match t
    case RankDrop => 0
    case NewTopThree => 1
    case BusinessOutOfTop => 2
  }

  function ItemPairs(previous: seq<SnapshotItem>): seq<(string, SnapshotItem)> {
    seq(|previous|, i requires 0 <= i < |previous| => (previous[i].placeId, previous[i]))
  }

  /** `prevMap`: place id to the last previous item with that id. */
  function PrevMap(previous: seq<SnapshotItem>): map<string, SnapshotItem> {
    JsMap.FromPairs(ItemPairs(previous))
  }

  /** Reference lookup: the last item of `previous` with place id `id`, if any. */
  function LastItemWithId(previous: seq<SnapshotItem>, id: string): Option<SnapshotItem> {
    if previous == [] then None
    else if previous[|previous| - 1].placeId == id then Some(previous[|previous| - 1])
    else LastItemWithId(previous[..|previous| - 1], id)
  }

  /** `prevMap.get(id)` is the reference lookup. */
  lemma {:induction false} PrevMapIsLastItem(previous: seq<SnapshotItem>, id: string)
    ensures (id in PrevMap(previous)) == LastItemWithId(previous, id).Some?
    ensures id in PrevMap(previous) ==> PrevMap(previous)[id] == LastItemWithId(previous, id).value
  {
    if previous != [] {
      var init := previous[..|previous| - 1];
      assert ItemPairs(previous)[..|previous| - 1] == ItemPairs(init);
      PrevMapIsLastItem(init, id);
    }
  }

  /** A place is absent from the reference lookup exactly when no previous item carries its id. */
  lemma {:induction false} LastItemNone(previous: seq<SnapshotItem>, id: string)
    ensures LastItemWithId(previous, id).None? <==> forall j :: 0 <= j < |previous| ==> previous[j].placeId != id
  {
    if previous != [] {
      var init := previous[..|previous| - 1];
      LastItemNone(init, id);
      assert forall j :: 0 <= j < |init| ==> init[j] == previous[j];
    }
  }

  /** The drop of one current item, if it was seen before and fell three or more places. */
  function DropOf(prevMap: map<string, SnapshotItem>, item: SnapshotItem): seq<Drop> {
    if item.placeId in prevMap && prevMap[item.placeId].rank - item.rank <= DropThreshold
    then [Drop(item.name, prevMap[item.placeId].rank - item.rank)]
    else []
  }

  /** The `drops` list: current items seen before whose delta `prevRank - rank` is at most -3, in current order. */
  function RankDrops(prevMap: map<string, SnapshotItem>, current: seq<SnapshotItem>): (drops: seq<Drop>)
    ensures |drops| <= |current|
  {
    if current == [] then [] else DropOf(prevMap, current[0]) + RankDrops(prevMap, current[1..])
  }

  /** `newTopThree`: current items ranked 1 to 3 whose place id the previous list does not have. */
  function NewEntrants(prevMap: map<string, SnapshotItem>, current: seq<SnapshotItem>): (entrants: seq<SnapshotItem>)
    ensures |entrants| <= |current|
  {
    if current == [] then []
    else
      var item := current[0];
      (if item.rank <= TopThree && item.placeId !in prevMap then [item] else []) + NewEntrants(prevMap, current[1..])
  }

  /** `needle` occurs in `hay` starting at index `i`. */
  predicate OccursAt(hay: string, needle: string, i: nat) {
    i + |needle| <= |hay| && hay[i..i + |needle|] == needle
  }

  /** `hay.includes(needle)`. */
  predicate Contains(hay: string, needle: string) {
    exists i: nat :: i <= |hay| && OccursAt(hay, needle, i)
  }

  /**
   * The name test of `current.find(...)`. `lower` is the runtime's
   * `String.prototype.toLowerCase`, whose Unicode case mapping may change a
   * string's length; the model takes it as given.
   */
  predicate NameMatches(item: SnapshotItem, businessName: string, lower: string -> string) {
    Contains(lower(item.name), lower(businessName))
  }

  /** `current.find(...)`: the first item whose name contains the business name, ignoring case. */
  function FirstMatch(current: seq<SnapshotItem>, businessName: string, lower: string -> string): (m: Option<SnapshotItem>)
    ensures m.None? <==> forall i :: 0 <= i < |current| ==> !NameMatches(current[i], businessName, lower)
    ensures m.Some? ==>
              exists i :: 0 <= i < |current| && current[i] == m.value && NameMatches(current[i], businessName, lower)
                && (forall k :: 0 <= k < i ==> !NameMatches(current[k], businessName, lower))
  {
    if current == [] then None
    else if NameMatches(current[0], businessName, lower) then Some(current[0])
    else
      var m := FirstMatch(current[1..], businessName, lower);
      assert forall i :: 0 < i < |current| ==> current[i] == current[1..][i - 1];
      m
  }

  function RankDropAlerts(drops: seq<Drop>): (alerts: seq<Alert>)
    ensures |alerts| == (if drops == [] then 0 else 1)
    ensures forall k :: 0 <= k < |alerts| ==> alerts[k].alertType == RankDrop
  {
    if drops == [] then []
    else
      var severity := if exists d :: d in drops && d.delta <= SevereDropThreshold then High else Medium;
      [Alert(RankDrop, severity, Drops(drops))]
  }

  function NewTopThreeAlerts(entrants: seq<SnapshotItem>): (alerts: seq<Alert>)
    ensures |alerts| == (if entrants == [] then 0 else 1)
    ensures forall k :: 0 <= k < |alerts| ==> alerts[k].alertType == NewTopThree
  {
    if entrants == [] then [] else [Alert(NewTopThree, Medium, Entrants(entrants))]
  }

  function BusinessAlerts(current: seq<SnapshotItem>, businessName: Option<string>, lower: string -> string): (alerts: seq<Alert>)
    ensures |alerts| <= 1
    ensures forall k :: 0 <= k < |alerts| ==> alerts[k].alertType == BusinessOutOfTop
  {
    match businessName
    case None => []
    case Some(b) =>
      if b == "" then []
      else
        var m := FirstMatch(current, b, lower);
        if m.None? || m.value.rank > TopTen
        then [Alert(BusinessOutOfTop, High, Visibility(b, if m.Some? then Some(m.value.rank) else None))]
        else []
  }

  /** `buildAlerts(previous, current, businessName)`, with the runtime's `toLowerCase` as `lower`. */
  function BuildAlerts(previous: seq<SnapshotItem>, current: seq<SnapshotItem>, businessName: Option<string>, lower: string -> string): (alerts: seq<Alert>)
    ensures |alerts| <= 3
    ensures forall i, j :: 0 <= i < j < |alerts| ==> AlertOrder(alerts[i].alertType) < AlertOrder(alerts[j].alertType)
  {
    var prevMap := PrevMap(previous);
    RankDropAlerts(RankDrops(prevMap, current))
      + NewTopThreeAlerts(NewEntrants(prevMap, current))
      + BusinessAlerts(current, businessName, lower)
  }

  // ---- drops -------------------------------------------------------------

  /** Current item `i` was seen before and dropped three or more places. */
  ghost predicate DroppedAt(previous: seq<SnapshotItem>, current: seq<SnapshotItem>, i: int)
    requires 0 <= i < |current|
  {
    var p := LastItemWithId(previous, current[i].placeId);
    p.Some? && p.value.rank - current[i].rank <= DropThreshold
  }

  /** The delta of a current item against the last previous item with its id. */
  ghost function DeltaAt(previous: seq<SnapshotItem>, current: seq<SnapshotItem>, i: int): int
    requires 0 <= i < |current| && LastItemWithId(previous, current[i].placeId).Some?
  {
    LastItemWithId(previous, current[i].placeId).value.rank - current[i].rank
  }

  /** The drops list keeps current order: it distributes over concatenation of the current list. */
  lemma {:induction false} RankDropsAppend(prevMap: map<string, SnapshotItem>, a: seq<SnapshotItem>, b: seq<SnapshotItem>)
    ensures RankDrops(prevMap, a + b) == RankDrops(prevMap, a) + RankDrops(prevMap, b)
  {
    if a != [] {
      assert (a + b)[0] == a[0];
      assert (a + b)[1..] == a[1..] + b;
      RankDropsAppend(prevMap, a[1..], b);
      calc {
        RankDrops(prevMap, a + b);
        DropOf(prevMap, a[0]) + RankDrops(prevMap, a[1..] + b);
        DropOf(prevMap, a[0]) + (RankDrops(prevMap, a[1..]) + RankDrops(prevMap, b));
        (DropOf(prevMap, a[0]) + RankDrops(prevMap, a[1..])) + RankDrops(prevMap, b);
      }
    } else {
      assert a + b == b;
    }
  }

  /** A drop is listed exactly when it is the drop of some current item. */
  lemma {:induction false} RankDropsMembers(prevMap: map<string, SnapshotItem>, current: seq<SnapshotItem>, d: Drop)
    ensures d in RankDrops(prevMap, current) <==>
              exists i :: 0 <= i < |current| && current[i].placeId in prevMap
                && prevMap[current[i].placeId].rank - current[i].rank <= DropThreshold
                && d == Drop(current[i].name, prevMap[current[i].placeId].rank - current[i].rank)
  {
    if current != [] {
      RankDropsMembers(prevMap, current[1..], d);
      assert forall i :: 0 < i < |current| ==> current[i] == current[1..][i - 1];
      if exists i :: 0 <= i < |current| && current[i].placeId in prevMap
                && prevMap[current[i].placeId].rank - current[i].rank <= DropThreshold
                && d == Drop(current[i].name, prevMap[current[i].placeId].rank - current[i].rank) {
        var i :| 0 <= i < |current| && current[i].placeId in prevMap
                && prevMap[current[i].placeId].rank - current[i].rank <= DropThreshold
                && d == Drop(current[i].name, prevMap[current[i].placeId].rank - current[i].rank);
        if i > 0 {
          assert current[1..][i - 1] == current[i];
        }
      }
    }
  }

  /** In terms of the previous list: a drop is listed exactly when some current item dropped by it. */
  lemma DropsCorrespond(previous: seq<SnapshotItem>, current: seq<SnapshotItem>, d: Drop)
    ensures d in RankDrops(PrevMap(previous), current) <==>
              exists i :: 0 <= i < |current| && DroppedAt(previous, current, i)
                && d == Drop(current[i].name, DeltaAt(previous, current, i))
  {
    var prevMap := PrevMap(previous);
    forall i | 0 <= i < |current|
      ensures (current[i].placeId in prevMap) == LastItemWithId(previous, current[i].placeId).Some?
      ensures current[i].placeId in prevMap ==> prevMap[current[i].placeId] == LastItemWithId(previous, current[i].placeId).value
    {
      PrevMapIsLastItem(previous, current[i].placeId);
    }
    RankDropsMembers(prevMap, current, d);
  }

  /** The drops list is not empty exactly when some current item dropped three or more places. */
  lemma DropsExist(previous: seq<SnapshotItem>, current: seq<SnapshotItem>)
    ensures RankDrops(PrevMap(previous), current) != [] <==> exists i :: 0 <= i < |current| && DroppedAt(previous, current, i)
  {
    var drops := RankDrops(PrevMap(previous), current);
    if drops != [] {
      DropsCorrespond(previous, current, drops[0]);
    }
    if exists i :: 0 <= i < |current| && DroppedAt(previous, current, i) {
      var i :| 0 <= i < |current| && DroppedAt(previous, current, i);
      DropsCorrespond(previous, current, Drop(current[i].name, DeltaAt(previous, current, i)));
    }
  }

  /** A listed drop of five or more places exists exactly when some current item dropped that far. */
  lemma SevereDropsExist(previous: seq<SnapshotItem>, current: seq<SnapshotItem>)
    ensures (exists d :: d in RankDrops(PrevMap(previous), current) && d.delta <= SevereDropThreshold) <==>
              exists i :: 0 <= i < |current| && DroppedAt(previous, current, i) && DeltaAt(previous, current, i) <= SevereDropThreshold
  {
    var drops := RankDrops(PrevMap(previous), current);
    if exists d :: d in drops && d.delta <= SevereDropThreshold {
      var d :| d in drops && d.delta <= SevereDropThreshold;
      DropsCorrespond(previous, current, d);
    }
    if exists i :: 0 <= i < |current| && DroppedAt(previous, current, i) && DeltaAt(previous, current, i) <= SevereDropThreshold {
      var i :| 0 <= i < |current| && DroppedAt(previous, current, i) && DeltaAt(previous, current, i) <= SevereDropThreshold;
      DropsCorrespond(previous, current, Drop(current[i].name, DeltaAt(previous, current, i)));
    }
  }

  /** The alerts hold a rank_drop alert exactly when there are drops; it comes first, lists them, and is high iff one is severe. */
  lemma RankDropSlot(previous: seq<SnapshotItem>, current: seq<SnapshotItem>, businessName: Option<string>, lower: string -> string)
    ensures var alerts := BuildAlerts(previous, current, businessName, lower);
      var drops := RankDrops(PrevMap(previous), current);
      ((exists k :: 0 <= k < |alerts| && alerts[k].alertType == RankDrop) <==> drops != [])
      && forall k :: 0 <= k < |alerts| && alerts[k].alertType == RankDrop ==>
           k == 0 && alerts[k].data == Drops(drops)
           && (alerts[k].severity == High <==> exists d :: d in drops && d.delta <= SevereDropThreshold)
           && (alerts[k].severity != High ==> alerts[k].severity == Medium)
  {
    var prevMap := PrevMap(previous);
    var drops := RankDrops(prevMap, current);
    var alerts := BuildAlerts(previous, current, businessName, lower);
    var rest := NewTopThreeAlerts(NewEntrants(prevMap, current)) + BusinessAlerts(current, businessName, lower);
    assert alerts == RankDropAlerts(drops) + rest;
    if drops == [] {
      assert alerts == rest;
    } else {
      var severity := if exists d :: d in drops && d.delta <= SevereDropThreshold then High else Medium;
      assert alerts == [Alert(RankDrop, severity, Drops(drops))] + rest;
      assert alerts[0].alertType == RankDrop;
      forall k | 1 <= k < |alerts| ensures alerts[k].alertType != RankDrop {
        assert alerts[k] == rest[k - 1];
      }
    }
  }

  /**
   * rank_drop: there is a rank_drop alert exactly when some previously seen place
   * dropped three or more places; it is the first alert, lists the drops, and is
   * high severity iff one of them is five or more places.
   */
  lemma RankDropAlertIff(previous: seq<SnapshotItem>, current: seq<SnapshotItem>, businessName: Option<string>, lower: string -> string)
    ensures var alerts := BuildAlerts(previous, current, businessName, lower);
      ((exists k :: 0 <= k < |alerts| && alerts[k].alertType == RankDrop) <==>
         exists i :: 0 <= i < |current| && DroppedAt(previous, current, i))
      && forall k :: 0 <= k < |alerts| && alerts[k].alertType == RankDrop ==>
           k == 0 && alerts[k].data == Drops(RankDrops(PrevMap(previous), current))
           && (alerts[k].severity == High <==>
                 exists i :: 0 <= i < |current| && DroppedAt(previous, current, i) && DeltaAt(previous, current, i) <= SevereDropThreshold)
           && (alerts[k].severity != High ==> alerts[k].severity == Medium)
  {
    DropsExist(previous, current);
    SevereDropsExist(previous, current);
    RankDropSlot(previous, current, businessName, lower);
  }

  // ---- new entrants ------------------------------------------------------

  lemma {:induction false} NewEntrantsMembers(prevMap: map<string, SnapshotItem>, current: seq<SnapshotItem>, x: SnapshotItem)
    ensures x in NewEntrants(prevMap, current) <==> x in current && x.rank <= TopThree && x.placeId !in prevMap
  {
    if current != [] {
      NewEntrantsMembers(prevMap, current[1..], x);
      assert current == [current[0]] + current[1..];
    }
  }

  /** Some current top-three item is new exactly when the entrants list is not empty. */
  lemma EntrantsExist(previous: seq<SnapshotItem>, current: seq<SnapshotItem>)
    ensures NewEntrants(PrevMap(previous), current) != [] <==>
              exists i :: 0 <= i < |current| && current[i].rank <= TopThree
                && forall j :: 0 <= j < |previous| ==> previous[j].placeId != current[i].placeId
  {
    var prevMap := PrevMap(previous);
    var entrants := NewEntrants(prevMap, current);
    if entrants != [] {
      NewEntrantsMembers(prevMap, current, entrants[0]);
      var i :| 0 <= i < |current| && current[i] == entrants[0];
      PrevMapIsLastItem(previous, current[i].placeId);
      LastItemNone(previous, current[i].placeId);
    }
    if exists i :: 0 <= i < |current| && current[i].rank <= TopThree
           && forall j :: 0 <= j < |previous| ==> previous[j].placeId != current[i].placeId {
      var i :| 0 <= i < |current| && current[i].rank <= TopThree
           && forall j :: 0 <= j < |previous| ==> previous[j].placeId != current[i].placeId;
      PrevMapIsLastItem(previous, current[i].placeId);
      LastItemNone(previous, current[i].placeId);
      NewEntrantsMembers(prevMap, current, current[i]);
    }
  }

  /** The alerts hold a new_top_three alert exactly when there are entrants; it is medium and lists them. */
  lemma NewTopThreeSlot(previous: seq<SnapshotItem>, current: seq<SnapshotItem>, businessName: Option<string>, lower: string -> string)
    ensures var alerts := BuildAlerts(previous, current, businessName, lower);
      ((exists k :: 0 <= k < |alerts| && alerts[k].alertType == NewTopThree) <==> NewEntrants(PrevMap(previous), current) != [])
      && forall k :: 0 <= k < |alerts| && alerts[k].alertType == NewTopThree ==>
           alerts[k].severity == Medium && alerts[k].data == Entrants(NewEntrants(PrevMap(previous), current))
  {
    var prevMap := PrevMap(previous);
    var entrants := NewEntrants(prevMap, current);
    var alerts := BuildAlerts(previous, current, businessName, lower);
    var head := RankDropAlerts(RankDrops(prevMap, current));
    var tail := BusinessAlerts(current, businessName, lower);
    assert alerts == head + NewTopThreeAlerts(entrants) + tail;
    assert forall k :: 0 <= k < |head| ==> head[k].alertType == RankDrop;
    assert forall k :: 0 <= k < |tail| ==> tail[k].alertType == BusinessOutOfTop;
    if entrants != [] {
      assert alerts[|head|].alertType == NewTopThree;
    }
  }

  /**
   * new_top_three: there is one medium alert exactly when some current item in the
   * top three carries a place id that no previous item has.
   */
  lemma NewTopThreeAlertIff(previous: seq<SnapshotItem>, current: seq<SnapshotItem>, businessName: Option<string>, lower: string -> string)
    ensures var alerts := BuildAlerts(previous, current, businessName, lower);
      ((exists k :: 0 <= k < |alerts| && alerts[k].alertType == NewTopThree) <==>
         exists i :: 0 <= i < |current| && current[i].rank <= TopThree
           && forall j :: 0 <= j < |previous| ==> previous[j].placeId != current[i].placeId)
      && forall k :: 0 <= k < |alerts| && alerts[k].alertType == NewTopThree ==>
           alerts[k].severity == Medium && alerts[k].data == Entrants(NewEntrants(PrevMap(previous), current))
  {
    EntrantsExist(previous, current);
    NewTopThreeSlot(previous, current, businessName, lower);
  }

  /** With an empty previous list every current item in the top three is a new entrant. */
  lemma {:induction false} EmptyPreviousAllTopThree(current: seq<SnapshotItem>)
    ensures NewEntrants(PrevMap([]), current) == TopThreeOf(current)
  {
    if current != [] {
      EmptyPreviousAllTopThree(current[1..]);
    }
  }

  /** Reference filter: the current items ranked 1 to 3, in order. */
  function TopThreeOf(current: seq<SnapshotItem>): seq<SnapshotItem> {
    if current == [] then []
    else (if current[0].rank <= TopThree then [current[0]] else []) + TopThreeOf(current[1..])
  }

  // ---- business visibility -----------------------------------------------

  /**
   * business_out_of_top: considered only for a non-empty business name; it fires
   * iff no current name contains it (ignoring case) or the first that does ranks
   * below 10, is high severity, and carries that match's rank or none.
   */
  lemma BusinessAlertIff(previous: seq<SnapshotItem>, current: seq<SnapshotItem>, businessName: Option<string>, lower: string -> string)
    ensures var alerts := BuildAlerts(previous, current, businessName, lower);
      ((exists k :: 0 <= k < |alerts| && alerts[k].alertType == BusinessOutOfTop) <==>
         businessName.Some? && businessName.value != ""
         && (FirstMatch(current, businessName.value, lower).None? || FirstMatch(current, businessName.value, lower).value.rank > TopTen))
      && forall k :: 0 <= k < |alerts| && alerts[k].alertType == BusinessOutOfTop ==>
           k == |alerts| - 1 && alerts[k].severity == High
           && alerts[k].data == Visibility(businessName.value,
                 if FirstMatch(current, businessName.value, lower).Some? then Some(FirstMatch(current, businessName.value, lower).value.rank) else None)
  {
    var prevMap := PrevMap(previous);
    var alerts := BuildAlerts(previous, current, businessName, lower);
    var front := RankDropAlerts(RankDrops(prevMap, current)) + NewTopThreeAlerts(NewEntrants(prevMap, current));
    var tail := BusinessAlerts(current, businessName, lower);
    assert alerts == front + tail;
    assert forall k :: 0 <= k < |front| ==> front[k].alertType != BusinessOutOfTop;
    assert |tail| <= 1;
    if tail != [] {
      assert alerts[|front|] == tail[0];
    }
  }

  // ---- worked examples ---------------------------------------------------

  /** B falls from 2 to 6: one medium rank_drop alert listing B with delta -4 comes first. */
  lemma DropOfFourIsMedium(lower: string -> string)
    ensures var previous := [SnapshotItem("A", "A", 1, None, None), SnapshotItem("B", "B", 2, None, None)];
      var current := [SnapshotItem("A", "A", 1, None, None), SnapshotItem("B", "B", 6, None, None)];
      BuildAlerts(previous, current, None, lower) == [Alert(RankDrop, Medium, Drops([Drop("B", -4)]))]
  {
    var previous := [SnapshotItem("A", "A", 1, None, None), SnapshotItem("B", "B", 2, None, None)];
    var current := [SnapshotItem("A", "A", 1, None, None), SnapshotItem("B", "B", 6, None, None)];
    var prevMap := PrevMap(previous);
    PrevMapIsLastItem(previous, "A");
    PrevMapIsLastItem(previous, "B");
    assert current[1..] == [current[1]];
    assert RankDrops(prevMap, current) == [Drop("B", -4)];
    assert NewEntrants(prevMap, current) == [];
  }

  /**
   * "BrightSmile Dental" at rank 12 raises business_out_of_top carrying rank 12,
   * with the lower-case forms `toLowerCase` gives these two names.
   */
  lemma BusinessBelowTopTen(lower: string -> string)
    requires lower("BrightSmile Dental") == "brightsmile dental" && lower("BrightSmile") == "brightsmile"
    ensures BuildAlerts([], [SnapshotItem("p", "BrightSmile Dental", 12, None, None)], Some("BrightSmile"), lower)
              == [Alert(BusinessOutOfTop, High, Visibility("BrightSmile", Some(12)))]
  {
    assert OccursAt("brightsmile dental", "brightsmile", 0);
  }

  /**
   * "MÜLLER" at rank 5 matches the business "Müller", since both lower-case to
   * "müller": no business_out_of_top alert.
   */
  lemma CaseMatchBeyondAscii(lower: string -> string)
    requires lower("M\U{DC}LLER") == "m\U{FC}ller" && lower("M\U{FC}ller") == "m\U{FC}ller"
    ensures BuildAlerts([], [SnapshotItem("p", "M\U{DC}LLER", 5, None, None)], Some("M\U{FC}ller"), lower) == []
  {
    assert OccursAt("m\U{FC}ller", "m\U{FC}ller", 0);
  }
}
