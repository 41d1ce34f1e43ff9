/**
 * The `GET` handler of the rank-tracking cron job: it filters the active
 * schedules with `isDue`, and for each due one fetches a provider list,
 * compares it with the last stored snapshot, stores a new snapshot and its
 * alerts when something changed, and advances `last_run_at`. Everything the
 * handler learns from outside (the provider, the stored snapshot, whether an
 * insert or update returned an error, whether an e-mail call threw) is an
 * input: a `World` per schedule. The runtime's `toLowerCase` is the input
 * `lower`.
 */
module Tracker {
  import opened Wrappers
  import opened Schedule
  import opened Snapshots
  import opened Alerts
  import CronAuth

  /** The provider call: a ranked place list, or an exception. */
  datatype Fetch = Fetched(places: seq<Place>) | FetchThrew

  /** What the outside world answers during one schedule's run. */
  datatype World = World(
    fetch: Fetch,
    /** None: the cohort has no snapshot yet; Some(items): the items of the most recent one. */
    lastSnapshot: Option<seq<SnapshotItem>>,
    snapshotInsertOk: bool,
    /** The item insert's error is ignored by the handler; when it fails the snapshot has no items. */
    itemsInsertOk: bool,
    /** Some(k): sending the e-mail for alert k throws (after that alert's insert). */
    deliveryThrowsAt: Option<nat>,
    /** The indices of the alerts whose insert returns an error; the handler ignores it, and no row is stored. */
    alertInsertFails: set<nat>,
    /** Whether the `last_run_at` update succeeds; the handler ignores its error, and the old value stays. */
    lastRunUpdateOk: bool)

  datatype Status = SkippedMissingKeyword | NoChanges | SnapshotFailed | Success | Failed

  datatype RunResult = RunResult(scheduleId: string, status: Status)
  datatype StoredSnapshot = StoredSnapshot(cohortId: string, items: seq<SnapshotItem>)
  datatype StoredAlert = StoredAlert(cohortId: string, alert: Alert)

  /** What one run does: its status, the rows it writes, and whether `last_run_at` was set to now. */
  datatype Effect = Effect(status: Status, snapshots: seq<StoredSnapshot>, alerts: seq<StoredAlert>, advanced: bool)

  datatype Response = Unauthorized | ServerError | Checked(checked: nat, results: seq<RunResult>)

  /** `!cohort?.postcode || !cohort.keyword`. */
  predicate MissingKeyword(s: ScheduleRow) {
    s.cohort.None? || s.cohort.value.postcode == "" || s.cohort.value.keyword.None? || s.cohort.value.keyword.value == ""
  }

  /** The runs after which the handler updates `last_run_at` to now. */
  predicate Advances(status: Status) {
    status == NoChanges || status == Success
  }

  function StoredAlerts(cohortId: string, alerts: seq<Alert>): (stored: seq<StoredAlert>)
    ensures |stored| == |alerts|
  {
    seq(|alerts|, i requires 0 <= i < |alerts| => StoredAlert(cohortId, alerts[i]))
  }

  /** The rows the alert inserts store: one per alert whose insert did not fail, in order. */
  function InsertedAlerts(cohortId: string, alerts: seq<Alert>, fails: set<nat>): (stored: seq<StoredAlert>)
    ensures |stored| <= |alerts|
  {
    if alerts == [] then []
    else
      var k := |alerts| - 1;
      InsertedAlerts(cohortId, alerts[..k], fails) + (if k in fails then [] else [StoredAlert(cohortId, alerts[k])])
  }

  /** A row is stored exactly for an alert whose insert did not fail; with no failures, every alert is stored in order. */
  lemma {:induction false} InsertedAlertsSpec(cohortId: string, alerts: seq<Alert>, fails: set<nat>)
    ensures forall r :: r in InsertedAlerts(cohortId, alerts, fails) <==>
              exists k :: 0 <= k < |alerts| && k !in fails && r == StoredAlert(cohortId, alerts[k])
    ensures (forall k :: 0 <= k < |alerts| ==> k !in fails) ==> InsertedAlerts(cohortId, alerts, fails) == StoredAlerts(cohortId, alerts)
  {
    if alerts != [] {
      var k := |alerts| - 1;
      var init := alerts[..k];
      InsertedAlertsSpec(cohortId, init, fails);
      assert forall j :: 0 <= j < k ==> init[j] == alerts[j];
      forall r | exists j :: 0 <= j < |alerts| && j !in fails && r == StoredAlert(cohortId, alerts[j])
        ensures r in InsertedAlerts(cohortId, alerts, fails)
      {
        var j :| 0 <= j < |alerts| && j !in fails && r == StoredAlert(cohortId, alerts[j]);
        if j < k {
          assert r in InsertedAlerts(cohortId, init, fails);
        }
      }
    }
  }

  /** Specification of one schedule's run. */
  function RunEffect(s: ScheduleRow, w: World, lower: string -> string): Effect {
    if MissingKeyword(s) then Effect(SkippedMissingKeyword, [], [], false)
    else if w.fetch.FetchThrew? then Effect(Failed, [], [], false)
    else
      var places := w.fetch.places;
      if !HasChanges(w.lastSnapshot, places) then Effect(NoChanges, [], [], w.lastRunUpdateOk)
      else if !w.snapshotInsertOk then Effect(SnapshotFailed, [], [], false)
      else
        var items := RankPlaces(places);
        var stored := StoredSnapshot(s.cohortId, if w.itemsInsertOk then items else []);
        var alerts := BuildAlerts(w.lastSnapshot.GetOr([]), items, s.cohort.value.businessName, lower);
        match w.deliveryThrowsAt
        case Some(k) =>
          if k < |alerts| then Effect(Failed, [stored], InsertedAlerts(s.cohortId, alerts[..k + 1], w.alertInsertFails), false)
          else Effect(Success, [stored], InsertedAlerts(s.cohortId, alerts, w.alertInsertFails), w.lastRunUpdateOk)
        case None => Effect(Success, [stored], InsertedAlerts(s.cohortId, alerts, w.alertInsertFails), w.lastRunUpdateOk)
  }

  /** `normalizedSchedules.filter(isDue)`. */
  function DueSchedules(rows: seq<ScheduleRow>, now: int): (due: seq<ScheduleRow>)
    ensures |due| <= |rows|
    ensures forall s :: s in due <==> s in rows && IsDue(s, now)
  {
    if rows == [] then []
    else
      var init := DueSchedules(rows[..|rows| - 1], now);
      var last := rows[|rows| - 1];
      assert rows == rows[..|rows| - 1] + [last];
      if IsDue(last, now) then init + [last] else init
  }

  /** One due schedule together with what its run does. */
  datatype Run = Run(schedule: ScheduleRow, effect: Effect)

  /** The runs of the due schedules, in loop order. */
  function Runs(due: seq<ScheduleRow>, world: ScheduleRow -> World, lower: string -> string): (runs: seq<Run>)
    ensures |runs| == |due|
    ensures forall i :: 0 <= i < |due| ==> runs[i] == Run(due[i], RunEffect(due[i], world(due[i]), lower))
  {
    seq(|due|, i requires 0 <= i < |due| => Run(due[i], RunEffect(due[i], world(due[i]), lower)))
  }

  /** `last_run_at` of every schedule after the runs, in order. */
  function ApplyRuns(lastRunAt: map<string, int>, runs: seq<Run>, now: int): map<string, int> {
    if runs == [] then lastRunAt
    else
      var before := ApplyRuns(lastRunAt, runs[..|runs| - 1], now);
      var r := runs[|runs| - 1];
      if r.effect.advanced then before[r.schedule.id := now] else before
  }

  /** The `results` list the handler reports: one entry per run. */
  function Results(runs: seq<Run>): (results: seq<RunResult>)
    ensures |results| == |runs|
    ensures forall i :: 0 <= i < |runs| ==> results[i] == RunResult(runs[i].schedule.id, runs[i].effect.status)
  {
    seq(|runs|, i requires 0 <= i < |runs| => RunResult(runs[i].schedule.id, runs[i].effect.status))
  }

  function SnapshotsWritten(runs: seq<Run>): seq<StoredSnapshot> {
    if runs == [] then [] else SnapshotsWritten(runs[..|runs| - 1]) + runs[|runs| - 1].effect.snapshots
  }

  function AlertsWritten(runs: seq<Run>): seq<StoredAlert> {
    if runs == [] then [] else AlertsWritten(runs[..|runs| - 1]) + runs[|runs| - 1].effect.alerts
  }

  /** The rows the handler writes: schedules' `last_run_at`, snapshots and alerts, and the results it reports. */
  class Store {
    var lastRunAt: map<string, int>
    var snapshots: seq<StoredSnapshot>
    var alerts: seq<StoredAlert>
    var results: seq<RunResult>

    constructor (lastRunAt: map<string, int>)
      ensures this.lastRunAt == lastRunAt && snapshots == [] && alerts == [] && results == []
    {
      this.lastRunAt := lastRunAt;
      snapshots, alerts, results := [], [], [];
    }

    /** One iteration of the `for (const schedule of due)` loop. */
    method RunSchedule(s: ScheduleRow, now: int, w: World, lower: string -> string) returns (status: Status)
      modifies this
      ensures status == RunEffect(s, w, lower).status
      ensures lastRunAt == if RunEffect(s, w, lower).advanced then old(lastRunAt)[s.id := now] else old(lastRunAt)
      ensures snapshots == old(snapshots) + RunEffect(s, w, lower).snapshots
      ensures alerts == old(alerts) + RunEffect(s, w, lower).alerts
      ensures results == old(results) + [RunResult(s.id, status)]
    {
      if MissingKeyword(s) {
        status := SkippedMissingKeyword;
        results := results + [RunResult(s.id, status)];
        return;
      }
      if w.fetch.FetchThrew? {
        status := Failed;
        results := results + [RunResult(s.id, status)];
        return;
      }
      var places := w.fetch.places;

      var hasChanges := DetectChanges(w.lastSnapshot, places);

      if !hasChanges {
        UpdateLastRun(s.id, now, w.lastRunUpdateOk);
        status := NoChanges;
        results := results + [RunResult(s.id, status)];
        return;
      }

      if !w.snapshotInsertOk {
        status := SnapshotFailed;
        results := results + [RunResult(s.id, status)];
        return;
      }

      status := StoreChanges(s, now, w, lower);
    }

    /** The rest of an iteration once the changed list's snapshot row is inserted: its items, its alerts, `last_run_at`. */
    method StoreChanges(s: ScheduleRow, now: int, w: World, lower: string -> string) returns (status: Status)
      requires !MissingKeyword(s) && w.fetch.Fetched? && HasChanges(w.lastSnapshot, w.fetch.places) && w.snapshotInsertOk
      modifies this
      ensures status == RunEffect(s, w, lower).status
      ensures lastRunAt == if RunEffect(s, w, lower).advanced then old(lastRunAt)[s.id := now] else old(lastRunAt)
      ensures snapshots == old(snapshots) + RunEffect(s, w, lower).snapshots
      ensures alerts == old(alerts) + RunEffect(s, w, lower).alerts
      ensures results == old(results) + [RunResult(s.id, status)]
    {
      var items := RankPlaces(w.fetch.places);
      snapshots := snapshots + [StoredSnapshot(s.cohortId, if w.itemsInsertOk then items else [])];
      var newAlerts := BuildAlerts(w.lastSnapshot.GetOr([]), items, s.cohort.value.businessName, lower);

      var thrown := DeliverAlerts(s.cohortId, newAlerts, w.deliveryThrowsAt, w.alertInsertFails);
      if thrown {
        status := Failed;
        results := results + [RunResult(s.id, status)];
        return;
      }

      UpdateLastRun(s.id, now, w.lastRunUpdateOk);
      status := Success;
      results := results + [RunResult(s.id, status)];
    }

    /** The `last_run_at` update, whose error the handler ignores: `ok` is whether it succeeds. */
    method UpdateLastRun(id: string, now: int, ok: bool)
      modifies this
      ensures lastRunAt == if ok then old(lastRunAt)[id := now] else old(lastRunAt)
      ensures snapshots == old(snapshots) && alerts == old(alerts) && results == old(results)
    {
      if ok {
        lastRunAt := lastRunAt[id := now];
      }
    }

    /**
     * The alert loop: each alert is inserted (an insert error is ignored and
     * stores nothing), then its e-mail is sent; an exception from the send at
     * index k ends the loop after the inserts of alerts 0..k.
     */
    method DeliverAlerts(cohortId: string, newAlerts: seq<Alert>, throwsAt: Option<nat>, insertFails: set<nat>) returns (thrown: bool)
      modifies this
      ensures thrown <==> throwsAt.Some? && throwsAt.value < |newAlerts|
      ensures alerts == old(alerts) + InsertedAlerts(cohortId, if thrown then newAlerts[..throwsAt.value + 1] else newAlerts, insertFails)
      ensures lastRunAt == old(lastRunAt) && snapshots == old(snapshots) && results == old(results)
    {
      var k := 0;
      while k < |newAlerts|
        invariant 0 <= k <= |newAlerts|
        invariant throwsAt.Some? ==> throwsAt.value >= k
        invariant alerts == old(alerts) + InsertedAlerts(cohortId, newAlerts[..k], insertFails)
        invariant lastRunAt == old(lastRunAt) && snapshots == old(snapshots) && results == old(results)
      {
        if k !in insertFails {
          alerts := alerts + [StoredAlert(cohortId, newAlerts[k])];
        }
        assert newAlerts[..k + 1][..k] == newAlerts[..k];
        if throwsAt == Some(k) {
          return true;
        }
        k := k + 1;
      }
      assert newAlerts[..k] == newAlerts;
      return false;
    }

    /** `GET(request)`: `schedules` is None when the schedule query failed. */
    method Get(secret: Option<string>, token: Option<string>, schedules: Option<seq<ScheduleRow>>,
               now: int, world: ScheduleRow -> World, lower: string -> string) returns (response: Response)
      modifies this
      ensures !CronAuth.Authorized(secret, token) || schedules.None? ==>
                response == (if CronAuth.Authorized(secret, token) then ServerError else Unauthorized)
                && lastRunAt == old(lastRunAt) && snapshots == old(snapshots) && alerts == old(alerts)
      ensures CronAuth.Authorized(secret, token) && schedules.Some? ==>
                var runs := Runs(DueSchedules(schedules.value, now), world, lower);
                response == Checked(|runs|, Results(runs))
                && lastRunAt == ApplyRuns(old(lastRunAt), runs, now)
                && snapshots == old(snapshots) + SnapshotsWritten(runs)
                && alerts == old(alerts) + AlertsWritten(runs)
    {
      if !CronAuth.Authorized(secret, token) {
        return Unauthorized;
      }
      if schedules.None? {
        return ServerError;
      }
      var due := DueSchedules(schedules.value, now);
      results := [];
      RunAll(due, now, world, lower);
      response := Checked(|due|, results);
    }
    /** The `for (const schedule of due)` loop: the schedules run one after the other. */
    method RunAll(due: seq<ScheduleRow>, now: int, world: ScheduleRow -> World, lower: string -> string)
      modifies this
      ensures lastRunAt == ApplyRuns(old(lastRunAt), Runs(due, world, lower), now)
      ensures snapshots == old(snapshots) + SnapshotsWritten(Runs(due, world, lower))
      ensures alerts == old(alerts) + AlertsWritten(Runs(due, world, lower))
      ensures results == old(results) + Results(Runs(due, world, lower))
    {
      ghost var runs := Runs(due, world, lower);
      for i := 0 to |due|
        invariant lastRunAt == ApplyRuns(old(lastRunAt), runs[..i], now)
        invariant snapshots == old(snapshots) + SnapshotsWritten(runs[..i])
        invariant alerts == old(alerts) + AlertsWritten(runs[..i])
        invariant results == old(results) + Results(runs[..i])
      {
        ghost var before := (lastRunAt, snapshots, alerts, results);
        var status := RunSchedule(due[i], now, world(due[i]), lower);
        RunStep(old(lastRunAt), old(snapshots), old(alerts), old(results), runs, i, now, before,
                status, lastRunAt, snapshots, alerts, results);
      }
      assert runs[..|due|] == runs;
    }
  }

  /** The `hasChanges` computation of the handler, with its `places.some(...)` loop. */
  method DetectChanges(previous: Option<seq<SnapshotItem>>, places: seq<Place>) returns (hasChanges: bool)
    ensures hasChanges == HasChanges(previous, places)
  {
    hasChanges := true;
    if previous.Some? && |previous.value| > 0 {
      var prevMap := PrevEntries(previous.value);
      var differs := false;
      var i := 0;
      while i < |places| && !differs
        invariant 0 <= i <= |places|
        invariant differs <==> exists j :: 0 <= j < i && PlaceDiffers(prevMap, places[j], j)
      {
        differs := PlaceDiffers(prevMap, places[i], i);
        i := i + 1;
      }
      hasChanges := |previous.value| != |places| || differs;
    }
  }

  /**
   * One more run, as `RunSchedule` reports it: the state it leaves is the
   * four folds taken over one more run.
   */
  lemma RunStep(l: map<string, int>, sn: seq<StoredSnapshot>, al: seq<StoredAlert>, rs: seq<RunResult>,
                runs: seq<Run>, i: nat, now: int,
                before: (map<string, int>, seq<StoredSnapshot>, seq<StoredAlert>, seq<RunResult>),
                status: Status, l1: map<string, int>, s1: seq<StoredSnapshot>, a1: seq<StoredAlert>, r1: seq<RunResult>)
    requires i < |runs|
    requires before.0 == ApplyRuns(l, runs[..i], now) && before.1 == sn + SnapshotsWritten(runs[..i])
    requires before.2 == al + AlertsWritten(runs[..i]) && before.3 == rs + Results(runs[..i])
    requires status == runs[i].effect.status
    requires l1 == if runs[i].effect.advanced then before.0[runs[i].schedule.id := now] else before.0
    requires s1 == before.1 + runs[i].effect.snapshots && a1 == before.2 + runs[i].effect.alerts
    requires r1 == before.3 + [RunResult(runs[i].schedule.id, status)]
    ensures l1 == ApplyRuns(l, runs[..i + 1], now) && s1 == sn + SnapshotsWritten(runs[..i + 1])
    ensures a1 == al + AlertsWritten(runs[..i + 1]) && r1 == rs + Results(runs[..i + 1])
  {
    PrefixStep(l, runs, i, now);
  }

  /** How the four folds grow by one run. */
  lemma PrefixStep(lastRunAt: map<string, int>, runs: seq<Run>, i: nat, now: int)
    requires i < |runs|
    ensures var r := runs[i];
      && ApplyRuns(lastRunAt, runs[..i + 1], now)
         == (if r.effect.advanced then ApplyRuns(lastRunAt, runs[..i], now)[r.schedule.id := now] else ApplyRuns(lastRunAt, runs[..i], now))
      && SnapshotsWritten(runs[..i + 1]) == SnapshotsWritten(runs[..i]) + r.effect.snapshots
      && AlertsWritten(runs[..i + 1]) == AlertsWritten(runs[..i]) + r.effect.alerts
      && Results(runs[..i + 1]) == Results(runs[..i]) + [RunResult(r.schedule.id, r.effect.status)]
  {
    assert runs[..i + 1][..i] == runs[..i];
  }

  // ---- properties of a run -------------------------------------------------

  /**
   * The handler updates `last_run_at` only on the no-change path and after
   * the full success path; a skipped cohort, a provider exception, a failed
   * snapshot insert or an exception while delivering alerts leaves it
   * untouched. The update takes effect iff it is made and does not fail, so
   * a run can report success while `last_run_at` stays as it was.
   */
  lemma AdvancesOnlyOnCleanRuns(s: ScheduleRow, w: World, lower: string -> string)
    ensures Advances(RunEffect(s, w, lower).status) <==>
              !MissingKeyword(s) && w.fetch.Fetched? &&
              (!HasChanges(w.lastSnapshot, w.fetch.places)
               || (w.snapshotInsertOk &&
                   (w.deliveryThrowsAt.None? ||
                    w.deliveryThrowsAt.value >= |BuildAlerts(w.lastSnapshot.GetOr([]), RankPlaces(w.fetch.places), s.cohort.value.businessName, lower)|)))
    ensures RunEffect(s, w, lower).advanced <==> Advances(RunEffect(s, w, lower).status) && w.lastRunUpdateOk
    ensures RunEffect(s, w, lower).status == SnapshotFailed ==> RunEffect(s, w, lower).snapshots == [] && RunEffect(s, w, lower).alerts == []
  {
  }

  /**
   * A snapshot is written only when the list changed; its items are then the
   * ranked provider list (ranks 1..n in provider order), or none when the item
   * insert failed.
   */
  lemma SnapshotOnlyWhenChanged(s: ScheduleRow, w: World, lower: string -> string)
    requires RunEffect(s, w, lower).snapshots != []
    ensures w.fetch.Fetched? && HasChanges(w.lastSnapshot, w.fetch.places) && w.snapshotInsertOk
    ensures |RunEffect(s, w, lower).snapshots| == 1
    ensures var items := RunEffect(s, w, lower).snapshots[0].items;
              && (w.itemsInsertOk ==> items == RankPlaces(w.fetch.places))
              && (w.itemsInsertOk ==> |items| == |w.fetch.places| && forall i :: 0 <= i < |items| ==> items[i].rank == i + 1)
              && (!w.itemsInsertOk ==> items == [])
  {
  }

  /** For every schedule id: it is set to now iff some run of a schedule with that id updated it, else it keeps its value. */
  lemma {:induction false} ApplyRunsSpec(lastRunAt: map<string, int>, runs: seq<Run>, now: int, id: string)
    ensures var after := ApplyRuns(lastRunAt, runs, now);
      var ran := exists i :: 0 <= i < |runs| && runs[i].schedule.id == id && runs[i].effect.advanced;
      (id in after <==> id in lastRunAt || ran)
      && (ran ==> after[id] == now)
      && (!ran && id in lastRunAt ==> after[id] == lastRunAt[id])
  {
    if runs != [] {
      var init := runs[..|runs| - 1];
      ApplyRunsSpec(lastRunAt, init, now, id);
      assert forall i :: 0 <= i < |init| ==> init[i] == runs[i];
      var ranInit := exists i :: 0 <= i < |init| && init[i].schedule.id == id && init[i].effect.advanced;
      if ranInit {
        var i :| 0 <= i < |init| && init[i].schedule.id == id && init[i].effect.advanced;
        assert runs[i] == init[i];
      }
    }
  }
}
