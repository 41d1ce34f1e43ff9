/**
 * The data behind a shared report link (`getReportDataBySlug`): the report
 * row by slug, its expiry, its cohort, the cohort's two newest snapshots,
 * the latest snapshot's items and the top six movers against the previous
 * snapshot. Every database read is an answer of the store, given as input.
 */
module Reports {
  import opened Wrappers
  import Movement

  /** The answer of a `.maybeSingle()` lookup: an error, no row, or the row. */
  datatype Lookup<T> = LookupError | NoRow | Row(row: T)

  /**
   * A `localseo_reports` row. `expiresAt` is the expiry instant in ms; `None`
   * stands for a null or empty `expires_at` and for a string that does not
   * parse as a date (an invalid `Date` compares false with every instant).
   */
  datatype ReportRow = ReportRow(id: string, cohortId: string, expiresAt: Option<int>)

  datatype CohortRow = CohortRow(id: string, name: string, postcode: string, keyword: Option<string>,
                                 radiusKm: Option<real>, businessName: Option<string>)

  datatype SnapshotRef = SnapshotRef(id: string, createdAt: string)

  datatype ReportItem = ReportItem(placeId: string, name: string, rank: int, rating: Option<real>,
                                   userRatingsTotal: Option<int>)

  datatype ReportData = ReportData(cohort: CohortRow, latest: Option<SnapshotRef>, previous: Option<SnapshotRef>,
                                   items: seq<ReportItem>, deltas: seq<Movement.Move>)

  datatype Outcome = Failure(message: string) | Data(data: ReportData)

  const ReportNotFound := "Report not found."
  const ReportExpired := "Report has expired."
  const CohortNotFound := "Cohort not found."
  /** How many movers a report shows. */
  const DeltaLimit: nat := 6

  /**
   * The answers of the store. `snapshots` answers the newest-first query
   * limited to two rows, `latestItems` the rank-ordered query limited to
   * twenty rows, `previousItems` the `place_id,rank` query; `None` is a null
   * `data`.
   */
  datatype Store = Store(report: Lookup<ReportRow>,
                         cohorts: string -> Lookup<CohortRow>,
                         snapshots: string -> Option<seq<SnapshotRef>>,
                         latestItems: string -> Option<seq<ReportItem>>,
                         previousItems: string -> Option<seq<Movement.RankRow>>)

  /** `report.expires_at && new Date(report.expires_at) < new Date()`. */
  predicate Expired(report: ReportRow, now: int) {
    report.expiresAt.Some? && report.expiresAt.value < now
  }

  /** `snapshots?.[i] ?? null`. */
  function SnapshotAt(snapshots: Option<seq<SnapshotRef>>, i: nat): Option<SnapshotRef> {
    if snapshots.Some? && i < |snapshots.value| then Some(snapshots.value[i]) else None
  }

  function Ranked(items: seq<ReportItem>): seq<Movement.RankedItem> {
    seq(|items|, i requires 0 <= i < |items| => Movement.RankedItem(items[i].placeId, items[i].name, items[i].rank))
  }

  /** `getReportDataBySlug` with the store's answers and the current instant `now`. */
  method GetReportData(store: Store, now: int) returns (out: Outcome)
    ensures !store.report.Row? ==> out == Failure(ReportNotFound)
    ensures store.report.Row? && Expired(store.report.row, now) ==> out == Failure(ReportExpired)
    ensures store.report.Row? && !Expired(store.report.row, now) && !store.cohorts(store.report.row.cohortId).Row? ==>
              out == Failure(CohortNotFound)
    ensures out.Data? <==> store.report.Row? && !Expired(store.report.row, now)
                           && store.cohorts(store.report.row.cohortId).Row?
    ensures out.Data? ==>
              var cohort := store.cohorts(store.report.row.cohortId).row;
              var d := out.data;
              && d.cohort == cohort
              && d.latest == SnapshotAt(store.snapshots(cohort.id), 0)
              && d.previous == SnapshotAt(store.snapshots(cohort.id), 1)
              && (d.latest.None? ==> d.items == [] && d.deltas == [])
              && (d.latest.Some? ==> d.items == store.latestItems(d.latest.value.id).GetOr([]))
              && (d.previous.None? ==> d.deltas == [])
              && (d.latest.Some? && d.previous.Some? ==>
                    d.deltas == Movement.TopMovers(Ranked(d.items), store.previousItems(d.previous.value.id).GetOr([]),
                                                   Movement.Undefined, DeltaLimit))
  {
    if !store.report.Row? {
      return Failure(ReportNotFound);
    }
    var report := store.report.row;
    if report.expiresAt.Some? && report.expiresAt.value < now {
      return Failure(ReportExpired);
    }
    var cohortLookup := store.cohorts(report.cohortId);
    if !cohortLookup.Row? {
      return Failure(CohortNotFound);
    }
    var cohort := cohortLookup.row;
    var snapshots := store.snapshots(cohort.id);
    var latest := SnapshotAt(snapshots, 0);
    var previous := SnapshotAt(snapshots, 1);
    var items: seq<ReportItem> := [];
    var deltas: seq<Movement.Move> := [];
    if latest.Some? {
      items := store.latestItems(latest.value.id).GetOr([]);
      if previous.Some? {
        var prevItems := store.previousItems(previous.value.id).GetOr([]);
        deltas := Movement.TopMovers(Ranked(items), prevItems, Movement.Undefined, DeltaLimit);
      }
    }
    out := Data(ReportData(cohort, latest, previous, items, deltas));
  }

  /**
   * A report's movers: at most six and no more than its items; each one is
   * a listed place that had a previous rank, with that rank minus the
   * current one; in non-increasing |delta|, and no place left out moved more
   * than one shown.
   */
  lemma ReportDeltasSpec(items: seq<ReportItem>, previous: seq<Movement.RankRow>)
    ensures var r := Movement.TopMovers(Ranked(items), previous, Movement.Undefined, DeltaLimit);
            var d := Movement.Deltas(Ranked(items), Movement.PreviousRanks(previous), Movement.Undefined);
            && |r| <= DeltaLimit && |r| <= |items|
            && (forall m :: m in r ==>
                  exists i :: 0 <= i < |items| && items[i].placeId in Movement.PreviousRanks(previous)
                              && m == Movement.Move(items[i].name, Movement.PreviousRanks(previous)[items[i].placeId] - items[i].rank))
            && (forall a, b :: 0 <= a < b < |r| ==> Movement.Magnitude(r[a]) >= Movement.Magnitude(r[b]))
            && (forall m, x :: m in multiset(d) - multiset(r) && x in r ==> Movement.Magnitude(m) <= Movement.Magnitude(x))
  {
    var ranked := Ranked(items);
    var pr := Movement.PreviousRanks(previous);
    var r := Movement.TopMovers(ranked, previous, Movement.Undefined, DeltaLimit);
    Movement.TopMoversSpec(ranked, previous, Movement.Undefined, DeltaLimit);
    Movement.DeltasMembers(ranked, pr, Movement.Undefined);
    forall m | m in r
      ensures exists i :: 0 <= i < |items| && items[i].placeId in pr
                          && m == Movement.Move(items[i].name, pr[items[i].placeId] - items[i].rank)
    {
      assert m in multiset(r);
      assert m in Movement.Deltas(ranked, pr, Movement.Undefined);
      var i :| 0 <= i < |ranked| && Movement.Kept(pr, ranked[i], Movement.Undefined)
               && m == Movement.Move(ranked[i].name, pr[ranked[i].placeId] - ranked[i].rank);
      assert ranked[i].placeId == items[i].placeId;
    }
  }
}
