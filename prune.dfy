/**
 * The retention cron endpoint: after the shared-secret check it deletes, in
 * batches of at most 500, every rank snapshot older than the snapshot
 * retention and then every alert older than the alert retention, and reports
 * how many rows each loop deleted. A table is the sequence of its rows in the
 * order the database scans them; the database's failures are given as
 * inputs, per batch.
 */
module Prune {
  import opened Wrappers
  import CronAuth

  const DefaultRetentionDays: real := 90.0
  const DefaultAlertRetentionDays: real := 120.0
  const BatchSize: nat := 500
  const MsPerDay: int := 24 * 60 * 60 * 1000

  // ---- retention settings ------------------------------------------------------

  /** A JavaScript number as far as `Number.isFinite` can tell. */
  datatype JsNumber = Finite(value: real) | NonFinite

  /**
   * `Number(value)` for an environment setting: an unset variable gives NaN
   * and the empty string gives 0; any other text is read by `parse`.
   */
  function ToNumber(setting: Option<string>, parse: string -> JsNumber): JsNumber {
    if setting.None? then NonFinite
    else if setting.value == "" then Finite(0.0)
    else parse(setting.value)
  }

  /** `getRetentionDays`: a non-finite number gives the fallback, any other is clamped to [7, 365]. */
  function RetentionDays(parsed: JsNumber, fallback: real): (days: real)
    ensures parsed.NonFinite? ==> days == fallback
    ensures parsed.Finite? ==> 7.0 <= days <= 365.0
    ensures parsed.Finite? && 7.0 <= parsed.value <= 365.0 ==> days == parsed.value
    ensures parsed.Finite? && parsed.value < 7.0 ==> days == 7.0
    ensures parsed.Finite? && parsed.value > 365.0 ==> days == 365.0
  {
    if parsed.NonFinite? then fallback
    else
      var capped := if parsed.value < 365.0 then parsed.value else 365.0;
      if 7.0 < capped then capped else 7.0
  }

  /** The two defaults lie inside the clamp, so a setting equal to a default keeps it. */
  lemma DefaultsInRange()
    ensures RetentionDays(Finite(DefaultRetentionDays), 0.0) == DefaultRetentionDays
    ensures RetentionDays(Finite(DefaultAlertRetentionDays), 0.0) == DefaultAlertRetentionDays
    ensures forall s :: 7.0 <= RetentionDays(s, DefaultRetentionDays) <= 365.0
    ensures forall s :: 7.0 <= RetentionDays(s, DefaultAlertRetentionDays) <= 365.0
  {
    forall s ensures 7.0 <= RetentionDays(s, DefaultRetentionDays) <= 365.0 {
    }
  }

  /** An unset variable falls back to the default; a variable set to the empty string gives the 7-day minimum. */
  lemma UnsetAndEmptySettings(parse: string -> JsNumber, fallback: real)
    ensures RetentionDays(ToNumber(None, parse), fallback) == fallback
    ensures RetentionDays(ToNumber(Some(""), parse), fallback) == 7.0
  {
  }

  /** Toward-zero truncation, as `new Date(x)` applies to a fractional instant. */
  function Trunc(x: real): int {
    if x >= 0.0 then x.Floor else -((-x).Floor)
  }

  /** `new Date(Date.now() - days * 24 * 60 * 60 * 1000)` in ms. */
  function Cutoff(now: int, days: real): int {
    Trunc(now as real - days * MsPerDay as real)
  }

  // ---- rows and batches ----------------------------------------------------------

  /** A row as the loops see it: its id and its creation instant in ms. */
  datatype Row = Row(id: string, createdAt: int)

  /** Ids are primary keys. */
  ghost predicate UniqueIds(rows: seq<Row>) {
    forall i, j :: 0 <= i < j < |rows| ==> rows[i].id != rows[j].id
  }

  /** The rows with `created_at < cutoff`, in table order. */
  function Older(rows: seq<Row>, cutoff: int): seq<Row> {
    if rows == [] then []
    else (if rows[0].createdAt < cutoff then [rows[0]] else []) + Older(rows[1..], cutoff)
  }

  /** The rows at or after the cutoff, in table order. */
  function Kept(rows: seq<Row>, cutoff: int): seq<Row> {
    if rows == [] then []
    else (if rows[0].createdAt < cutoff then [] else [rows[0]]) + Kept(rows[1..], cutoff)
  }

  function Ids(rows: seq<Row>): seq<string> {
    seq(|rows|, i requires 0 <= i < |rows| => rows[i].id)
  }

  /** `.select("id").lt("created_at", cutoff).limit(limit)`: the first matching rows in table order. */
  function OlderIds(rows: seq<Row>, cutoff: int, limit: nat): (ids: seq<string>)
    ensures |ids| <= limit
  {
    var older := Older(rows, cutoff);
    if |older| <= limit then Ids(older) else Ids(older[..limit])
  }

  /** `.delete().in("id", ids)`. */
  function Without(rows: seq<Row>, ids: seq<string>): seq<Row> {
    if rows == [] then []
    else (if rows[0].id in ids then [] else [rows[0]]) + Without(rows[1..], ids)
  }

  /** Reference: the table with its first `k` older rows removed. */
  function DropOlder(rows: seq<Row>, cutoff: int, k: nat): seq<Row> {
    if rows == [] then []
    else if rows[0].createdAt < cutoff && k > 0 then DropOlder(rows[1..], cutoff, k - 1)
    else [rows[0]] + DropOlder(rows[1..], cutoff, k)
  }

  lemma {:induction false} OlderKeptSizes(rows: seq<Row>, cutoff: int)
    ensures |Older(rows, cutoff)| + |Kept(rows, cutoff)| == |rows|
    ensures forall r :: r in Older(rows, cutoff) ==> r in rows && r.createdAt < cutoff
    ensures forall r :: r in Kept(rows, cutoff) ==> r in rows && r.createdAt >= cutoff
  {
    if rows != [] {
      OlderKeptSizes(rows[1..], cutoff);
    }
  }

  lemma {:induction false} DropOlderSize(rows: seq<Row>, cutoff: int, k: nat)
    requires k <= |Older(rows, cutoff)|
    ensures |DropOlder(rows, cutoff, k)| == |rows| - k
    ensures forall r :: r in DropOlder(rows, cutoff, k) ==> r in rows
  {
    if rows != [] {
      var rest := rows[1..];
      if rows[0].createdAt < cutoff && k > 0 {
        DropOlderSize(rest, cutoff, k - 1);
      } else {
        DropOlderSize(rest, cutoff, k);
      }
    }
  }

  lemma {:induction false} DropOlderKept(rows: seq<Row>, cutoff: int, k: nat)
    ensures Kept(DropOlder(rows, cutoff, k), cutoff) == Kept(rows, cutoff)
  {
    if rows != [] {
      var r, rest := rows[0], rows[1..];
      if r.createdAt < cutoff && k > 0 {
        DropOlderKept(rest, cutoff, k - 1);
      } else {
        DropOlderKept(rest, cutoff, k);
        var d := DropOlder(rest, cutoff, k);
        assert ([r] + d)[1..] == d;
      }
    }
  }

  lemma {:induction false} DropOlderOlder(rows: seq<Row>, cutoff: int, k: nat)
    requires k <= |Older(rows, cutoff)|
    ensures Older(DropOlder(rows, cutoff, k), cutoff) == Older(rows, cutoff)[k..]
  {
    if rows != [] {
      var r, rest := rows[0], rows[1..];
      if r.createdAt < cutoff && k > 0 {
        DropOlderOlder(rest, cutoff, k - 1);
        assert Older(rows, cutoff) == [r] + Older(rest, cutoff);
      } else {
        DropOlderOlder(rest, cutoff, k);
        var d := DropOlder(rest, cutoff, k);
        assert ([r] + d)[1..] == d;
        if r.createdAt < cutoff {
          assert k == 0;
        }
      }
    }
  }

  /**
   * Removing the first `k` older rows shrinks the table by `k`, leaves the
   * rows at or after the cutoff as they were, and leaves the rest of the
   * older rows.
   */
  lemma DropOlderSpec(rows: seq<Row>, cutoff: int, k: nat)
    requires k <= |Older(rows, cutoff)|
    ensures |DropOlder(rows, cutoff, k)| == |rows| - k
    ensures Kept(DropOlder(rows, cutoff, k), cutoff) == Kept(rows, cutoff)
    ensures Older(DropOlder(rows, cutoff, k), cutoff) == Older(rows, cutoff)[k..]
    ensures forall r :: r in DropOlder(rows, cutoff, k) ==> r in rows
  {
    DropOlderSize(rows, cutoff, k);
    DropOlderKept(rows, cutoff, k);
    DropOlderOlder(rows, cutoff, k);
  }

  /** Removing `a` older rows and then `b` more is removing `a + b`. */
  lemma {:induction false} DropOlderTwice(rows: seq<Row>, cutoff: int, a: nat, b: nat)
    requires a + b <= |Older(rows, cutoff)|
    ensures DropOlder(DropOlder(rows, cutoff, a), cutoff, b) == DropOlder(rows, cutoff, a + b)
  {
    if rows != [] {
      var r, rest := rows[0], rows[1..];
      assert Older(rows, cutoff) == (if r.createdAt < cutoff then [r] else []) + Older(rest, cutoff);
      if r.createdAt < cutoff && a > 0 {
        DropOlderTwice(rest, cutoff, a - 1, b);
      } else if r.createdAt < cutoff {
        DropNone(rows, cutoff);
      } else {
        DropOlderTwice(rest, cutoff, a, b);
        var d := DropOlder(rest, cutoff, a);
        assert ([r] + d)[0] == r && ([r] + d)[1..] == d;
      }
    }
  }

  /** Every id of a sub-list of older rows belongs to a row of the table. */
  lemma {:induction false} OlderPrefixIds(rows: seq<Row>, cutoff: int, k: nat, x: string)
    requires k <= |Older(rows, cutoff)|
    requires x in Ids(Older(rows, cutoff)[..k])
    ensures exists i :: 0 <= i < |rows| && rows[i].id == x
  {
    OlderKeptSizes(rows, cutoff);
    var j :| 0 <= j < k && Older(rows, cutoff)[j].id == x;
    assert Older(rows, cutoff)[j] in rows;
  }

  /** An id that no row carries does not change a delete. */
  lemma {:induction false} AbsentIdIrrelevant(rows: seq<Row>, x: string, ids: seq<string>)
    requires forall i :: 0 <= i < |rows| ==> rows[i].id != x
    ensures Without(rows, [x] + ids) == Without(rows, ids)
  {
    if rows != [] {
      AbsentIdIrrelevant(rows[1..], x, ids);
    }
  }

  lemma {:induction false} DropNone(rows: seq<Row>, cutoff: int)
    ensures DropOlder(rows, cutoff, 0) == rows
  {
    if rows != [] {
      DropNone(rows[1..], cutoff);
    }
  }

  lemma {:induction false} DeleteNothing(rows: seq<Row>)
    ensures Without(rows, []) == rows
  {
    if rows != [] {
      DeleteNothing(rows[1..]);
    }
  }

  /** A delete leaves only rows of the table whose id was not listed. */
  lemma {:induction false} WithoutMembers(rows: seq<Row>, ids: seq<string>)
    ensures forall r :: r in Without(rows, ids) ==> r in rows && r.id !in ids
  {
    if rows != [] {
      WithoutMembers(rows[1..], ids);
    }
  }

  /** A delete keeps ids unique. */
  lemma {:induction false} WithoutUnique(rows: seq<Row>, ids: seq<string>)
    requires UniqueIds(rows)
    ensures UniqueIds(Without(rows, ids))
  {
    if rows != [] {
      var rest := rows[1..];
      assert UniqueIds(rest) by {
        assert forall i :: 0 <= i < |rest| ==> rest[i] == rows[i + 1];
      }
      WithoutUnique(rest, ids);
      WithoutMembers(rest, ids);
      HeadIdUnique(rows);
      var d := Without(rest, ids);
      forall i | 0 <= i < |d| ensures d[i].id != rows[0].id {
        assert d[i] in rest;
      }
    }
  }

  /** With unique ids, no later row shares the first row's id. */
  lemma HeadIdUnique(rows: seq<Row>)
    requires UniqueIds(rows) && rows != []
    ensures forall i :: 0 <= i < |rows[1..]| ==> rows[1..][i].id != rows[0].id
  {
    assert forall i :: 0 <= i < |rows[1..]| ==> rows[1..][i] == rows[i + 1];
  }

  lemma IdsCons(r: Row, rows: seq<Row>)
    ensures Ids([r] + rows) == [r.id] + Ids(rows)
  {
    assert forall i :: 0 < i < |rows| + 1 ==> ([r] + rows)[i] == rows[i - 1];
  }

  /** The first `k` older rows of a table whose first row is older. */
  lemma OlderPrefixCons(rows: seq<Row>, cutoff: int, k: nat)
    requires rows != [] && rows[0].createdAt < cutoff && 0 < k <= |Older(rows, cutoff)|
    ensures Ids(Older(rows, cutoff)[..k]) == [rows[0].id] + Ids(Older(rows[1..], cutoff)[..k - 1])
  {
    var tail := Older(rows[1..], cutoff)[..k - 1];
    assert Older(rows, cutoff)[..k] == [rows[0]] + tail;
    IdsCons(rows[0], tail);
  }

  /** The step of `DeleteBatch` for an older first row that the batch takes. */
  lemma DeleteOlderHead(rows: seq<Row>, cutoff: int, k: nat)
    requires UniqueIds(rows) && rows != [] && rows[0].createdAt < cutoff && 0 < k <= |Older(rows, cutoff)|
    requires Without(rows[1..], Ids(Older(rows[1..], cutoff)[..k - 1])) == DropOlder(rows[1..], cutoff, k - 1)
    ensures Without(rows, Ids(Older(rows, cutoff)[..k])) == DropOlder(rows, cutoff, k)
  {
    var r, rest := rows[0], rows[1..];
    HeadIdUnique(rows);
    var ids' := Ids(Older(rest, cutoff)[..k - 1]);
    OlderPrefixCons(rows, cutoff, k);
    AbsentIdIrrelevant(rest, r.id, ids');
    assert Without(rows, [r.id] + ids') == Without(rest, [r.id] + ids');
  }

  /** The step of `DeleteBatch` for a first row at or after the cutoff. */
  lemma DeleteKeptHead(rows: seq<Row>, cutoff: int, k: nat)
    requires UniqueIds(rows) && rows != [] && rows[0].createdAt >= cutoff && k <= |Older(rows, cutoff)|
    requires Without(rows[1..], Ids(Older(rows[1..], cutoff)[..k])) == DropOlder(rows[1..], cutoff, k)
    ensures Without(rows, Ids(Older(rows, cutoff)[..k])) == DropOlder(rows, cutoff, k)
  {
    var r, rest := rows[0], rows[1..];
    assert Older(rows, cutoff) == Older(rest, cutoff);
    HeadIdUnique(rows);
    if r.id in Ids(Older(rest, cutoff)[..k]) {
      OlderPrefixIds(rest, cutoff, k, r.id);
      assert false;
    }
  }

  /** With unique ids, deleting a selected batch removes exactly the first `k` older rows. */
  lemma {:induction false} DeleteBatch(rows: seq<Row>, cutoff: int, k: nat)
    requires UniqueIds(rows) && k <= |Older(rows, cutoff)|
    ensures Without(rows, Ids(Older(rows, cutoff)[..k])) == DropOlder(rows, cutoff, k)
  {
    if k == 0 {
      assert Ids(Older(rows, cutoff)[..k]) == [];
      DeleteNothing(rows);
      DropNone(rows, cutoff);
    } else if rows != [] {
      var rest := rows[1..];
      assert UniqueIds(rest) by {
        assert forall i :: 0 <= i < |rest| ==> rest[i] == rows[i + 1];
      }
      if rows[0].createdAt < cutoff {
        DeleteBatch(rest, cutoff, k - 1);
        DeleteOlderHead(rows, cutoff, k);
      } else {
        DeleteBatch(rest, cutoff, k);
        DeleteKeptHead(rows, cutoff, k);
      }
    }
  }

  /** Removing rows keeps ids unique. */
  lemma {:induction false} DropOlderUnique(rows: seq<Row>, cutoff: int, k: nat)
    requires UniqueIds(rows) && k <= |Older(rows, cutoff)|
    ensures UniqueIds(DropOlder(rows, cutoff, k))
  {
    if rows != [] {
      var rest := rows[1..];
      assert UniqueIds(rest);
      var k' := if rows[0].createdAt < cutoff && k > 0 then k - 1 else k;
      DropOlderUnique(rest, cutoff, k');
      DropOlderSpec(rest, cutoff, k');
      var d := DropOlder(rest, cutoff, k');
      forall i | 0 <= i < |d| ensures d[i].id != rows[0].id {
        assert d[i] in rest;
      }
    }
  }

  /**
   * One batch: the selected ids are at most `limit`, the delete shrinks the
   * table by exactly their number, leaves the rows at or after the cutoff
   * alone, and leaves fewer older rows whenever the batch is not empty.
   */
  lemma BatchStep(rows: seq<Row>, cutoff: int)
    requires UniqueIds(rows)
    ensures var ids := OlderIds(rows, cutoff, BatchSize);
            var after := Without(rows, ids);
            && |ids| <= BatchSize
            && |after| == |rows| - |ids|
            && Kept(after, cutoff) == Kept(rows, cutoff)
            && |Older(after, cutoff)| == |Older(rows, cutoff)| - |ids|
            && after == DropOlder(rows, cutoff, |ids|)
            && UniqueIds(after)
            && (ids == [] <==> Older(rows, cutoff) == [])
  {
    var older := Older(rows, cutoff);
    var k := if |older| <= BatchSize then |older| else BatchSize;
    assert older[..k] == older || k == BatchSize;
    assert OlderIds(rows, cutoff, BatchSize) == Ids(older[..k]);
    DeleteBatch(rows, cutoff, k);
    DropOlderSpec(rows, cutoff, k);
    DropOlderUnique(rows, cutoff, k);
  }

  /** A table with no older rows is its own kept part. */
  lemma {:induction false} NoOlderAllKept(rows: seq<Row>, cutoff: int)
    requires Older(rows, cutoff) == []
    ensures Kept(rows, cutoff) == rows
  {
    if rows != [] {
      NoOlderAllKept(rows[1..], cutoff);
    }
  }

  /** After the loop, a table equal to the kept part of the original holds no older row. */
  lemma KeptHasNoOlder(rows: seq<Row>, cutoff: int)
    ensures forall r :: r in Kept(rows, cutoff) ==> r.createdAt >= cutoff
  {
    OlderKeptSizes(rows, cutoff);
  }

  // ---- the table and the loops -------------------------------------------------

  class Table {
    var rows: seq<Row>

    ghost predicate Valid()
      reads this
    {
      UniqueIds(rows)
    }

    constructor (rows0: seq<Row>)
      requires UniqueIds(rows0)
      ensures rows == rows0 && Valid()
    {
      rows := rows0;
    }

    /** `.select("id").lt("created_at", cutoff).limit(limit)`. */
    function SelectOlder(cutoff: int, limit: nat): (ids: seq<string>)
      reads this
      ensures |ids| <= limit
    {
      OlderIds(rows, cutoff, limit)
    }

    /** `.delete().in("id", ids)`: deleting rows keeps the ids unique. */
    method Delete(ids: seq<string>)
      requires Valid()
      modifies this
      ensures rows == Without(old(rows), ids)
      ensures Valid()
    {
      WithoutUnique(rows, ids);
      rows := Without(rows, ids);
    }
  }

  /** Injected database failures, by batch number: of the select, and of the delete. */
  datatype Faults = Faults(selectFails: nat -> bool, deleteFails: nat -> bool)

  datatype LoopOutcome = Failed | Done(deleted: nat)

  function Min(a: nat, b: nat): nat {
    if a <= b then a else b
  }

  /** No select or delete of the batches before `n` failed. */
  ghost predicate CleanBefore(faults: Faults, n: nat) {
    forall j :: 0 <= j < n ==> !faults.selectFails(j) && !faults.deleteFails(j)
  }

  /**
   * No failure the loop reaches, for a table with `older` older rows: the
   * select of batch j runs iff every earlier batch was non-empty
   * (`500 * (j - 1) < older`), and its delete runs iff the batch is non-empty
   * (`500 * j < older`).
   */
  ghost predicate CleanRun(faults: Faults, older: nat) {
    && (forall j: nat :: BatchSize * j < older + BatchSize ==> !faults.selectFails(j))
    && (forall j: nat :: BatchSize * j < older ==> !faults.deleteFails(j))
  }

  /** A delete error in the first batch is reached as soon as one row is older than the cutoff. */
  lemma FirstDeleteErrorReached()
    ensures !CleanRun(Faults(j => false, j => j == 0), 1)
  {
    var faults := Faults(j => false, j => j == 0);
    assert faults.deleteFails(0) && BatchSize * 0 < 1;
  }

  /** A select error in batch 1000 is never reached when no row is older than the cutoff. */
  lemma LateSelectErrorUnreached()
    ensures CleanRun(Faults(j => j == 1000, j => false), 0)
  {
  }

  /** A loop that stops cleanly after the empty select of batch `b - 1` met no failure it reached. */
  lemma DoneClean(faults: Faults, older: nat, b: nat)
    requires b >= 1 && CleanBefore(faults, b - 1) && !faults.selectFails(b - 1)
    requires older <= BatchSize * (b - 1) < older + BatchSize
    ensures CleanRun(faults, older)
  {
  }

  /** A failure the loop reached in batch `b - 1` is a failure `CleanRun` rules out. */
  lemma FailedNotClean(faults: Faults, older: nat, b: nat)
    requires b >= 1
    requires (faults.selectFails(b - 1) && BatchSize * (b - 1) < older + BatchSize)
             || (faults.deleteFails(b - 1) && BatchSize * (b - 1) < older)
    ensures !CleanRun(faults, older)
  {
  }

  /** How `DeleteOlder` ends, in batch `b - 1`, decides the outcome: `done` iff the loop reached no failure. */
  lemma EndsIffClean(faults: Faults, older: nat, b: nat, done: bool)
    requires b >= 1 && CleanBefore(faults, b - 1)
    requires done ==> !faults.selectFails(b - 1) && older <= BatchSize * (b - 1) < older + BatchSize
    requires !done ==> (faults.selectFails(b - 1) && BatchSize * (b - 1) < older + BatchSize)
                       || (faults.deleteFails(b - 1) && BatchSize * (b - 1) < older)
    ensures done <==> CleanRun(faults, older)
  {
    if done {
      DoneClean(faults, older, b);
    } else {
      FailedNotClean(faults, older, b);
    }
  }

  /**
   * The count of one batch `c` (from 0) whose earlier batches were all full
   * except possibly the last: it takes `min(500, older - deleted)` rows, is
   * empty only once `500 * c` covers every older row, and otherwise brings
   * the count to `min(500 * (c + 1), older)`.
   */
  lemma BatchCount(older: nat, c: nat, deleted: nat, taken: nat)
    requires c == 0 || BatchSize * (c - 1) < older
    requires deleted == Min(BatchSize * c, older) && taken == Min(BatchSize, older - deleted)
    ensures BatchSize * c < older + BatchSize
    ensures taken == 0 ==> older <= BatchSize * c && deleted == older
    ensures taken > 0 ==> BatchSize * c < older && deleted + taken == Min(BatchSize * (c + 1), older)
  {
  }

  /**
   * One `while (true)` batch loop. It ends normally only on an empty batch;
   * then every row older than the cutoff is gone, the others are as they
   * were, and the counter is the number of rows deleted. A failing select
   * or delete ends it at once, after only whole earlier batches: the rows
   * gone are then the first `500 * (batches - 1)` older rows, or all of them
   * when there were fewer. It ends normally exactly when no failure it
   * reaches occurs.
   */
  method DeleteOlder(table: Table, cutoff: int, faults: Faults) returns (outcome: LoopOutcome, ghost batches: nat)
    requires table.Valid()
    modifies table
    ensures table.Valid()
    ensures Kept(table.rows, cutoff) == Kept(old(table.rows), cutoff)
    ensures |table.rows| <= |old(table.rows)|
    ensures outcome.Done? ==>
              && table.rows == Kept(old(table.rows), cutoff)
              && outcome.deleted == |old(table.rows)| - |table.rows| == |Older(old(table.rows), cutoff)|
              && batches >= 1 && CleanBefore(faults, batches - 1) && !faults.selectFails(batches - 1)
              && |Older(old(table.rows), cutoff)| <= BatchSize * (batches - 1) < |Older(old(table.rows), cutoff)| + BatchSize
    ensures outcome.Failed? ==>
              && batches >= 1 && CleanBefore(faults, batches - 1)
              && ((faults.selectFails(batches - 1) && BatchSize * (batches - 1) < |Older(old(table.rows), cutoff)| + BatchSize)
                  || (faults.deleteFails(batches - 1) && BatchSize * (batches - 1) < |Older(old(table.rows), cutoff)|))
              && table.rows == DropOlder(old(table.rows), cutoff, Min(BatchSize * (batches - 1), |Older(old(table.rows), cutoff)|))
    ensures outcome.Done? <==> CleanRun(faults, |Older(old(table.rows), cutoff)|)
  {
    ghost var rows0 := table.rows;
    var deleted: nat := 0;
    var batch: nat := 0;
    DropNone(rows0, cutoff);
    while true
      invariant table.Valid() && Progress(rows0, table.rows, cutoff, faults, deleted, batch)
      decreases |Older(table.rows, cutoff)|
    {
      var ended, count := RunBatch(table, cutoff, faults, rows0, deleted, batch);
      if ended.Some? {
        EndState(rows0, table.rows, cutoff, faults, deleted, batch, ended.value);
        EndsIffClean(faults, |Older(rows0, cutoff)|, batch + 1, ended.value.Done?);
        return ended.value, batch + 1;
      }
      deleted, batch := count, batch + 1;
    }
  }

  /**
   * What the loop has done before batch `batch` (from 0): no earlier select
   * or delete failed, every earlier batch was non-empty, and the first
   * `min(500 * batch, #older)` older rows are gone.
   */
  ghost predicate Progress(rows0: seq<Row>, rows: seq<Row>, cutoff: int, faults: Faults, deleted: nat, batch: nat) {
    && CleanBefore(faults, batch)
    && (batch == 0 || BatchSize * (batch - 1) < |Older(rows0, cutoff)|)
    && deleted == Min(BatchSize * batch, |Older(rows0, cutoff)|)
    && rows == DropOlder(rows0, cutoff, deleted)
  }

  /** The table and the outcome when the loop ends in batch `batch` (from 0). */
  lemma EndState(rows0: seq<Row>, rows: seq<Row>, cutoff: int, faults: Faults, deleted: nat, batch: nat, outcome: LoopOutcome)
    requires Progress(rows0, rows, cutoff, faults, deleted, batch)
    requires outcome.Done? ==> outcome.deleted == deleted == |Older(rows0, cutoff)|
    ensures Kept(rows, cutoff) == Kept(rows0, cutoff) && |rows| <= |rows0|
    ensures outcome.Done? ==> rows == Kept(rows0, cutoff) && outcome.deleted == |rows0| - |rows| == |Older(rows0, cutoff)|
    ensures outcome.Failed? ==> rows == DropOlder(rows0, cutoff, Min(BatchSize * batch, |Older(rows0, cutoff)|))
  {
    DropOlderSpec(rows0, cutoff, deleted);
    if outcome.Done? {
      NoOlderAllKept(rows, cutoff);
      OlderKeptSizes(rows0, cutoff);
    }
  }

  /** The select of a loop that has removed `deleted` older rows returns `min(500, #older - deleted)` ids. */
  lemma SelectCount(rows0: seq<Row>, rows: seq<Row>, cutoff: int, deleted: nat)
    requires deleted <= |Older(rows0, cutoff)| && rows == DropOlder(rows0, cutoff, deleted)
    ensures |OlderIds(rows, cutoff, BatchSize)| == Min(BatchSize, |Older(rows0, cutoff)| - deleted)
  {
    DropOlderSpec(rows0, cutoff, deleted);
  }

  /** Deleting a non-empty batch whose select and delete succeed brings the loop to the next batch. */
  lemma AfterDelete(rows0: seq<Row>, rows: seq<Row>, cutoff: int, faults: Faults, deleted: nat, batch: nat)
    requires UniqueIds(rows) && Progress(rows0, rows, cutoff, faults, deleted, batch)
    requires !faults.selectFails(batch) && !faults.deleteFails(batch) && OlderIds(rows, cutoff, BatchSize) != []
    ensures var ids := OlderIds(rows, cutoff, BatchSize);
            && Progress(rows0, Without(rows, ids), cutoff, faults, deleted + |ids|, batch + 1)
            && |Older(Without(rows, ids), cutoff)| < |Older(rows, cutoff)|
  {
    var older := |Older(rows0, cutoff)|;
    var ids := OlderIds(rows, cutoff, BatchSize);
    SelectCount(rows0, rows, cutoff, deleted);
    BatchCount(older, batch, deleted, |ids|);
    BatchStep(rows, cutoff);
    DropOlderTwice(rows0, cutoff, deleted, |ids|);
  }

  /**
   * One iteration of the batch loop: the select, then the delete of a
   * non-empty batch. `None` means the loop goes on with `count` rows
   * deleted; `Some` is how it ends, with the table as it was.
   */
  method RunBatch(table: Table, cutoff: int, faults: Faults, ghost rows0: seq<Row>, deleted: nat, batch: nat)
    returns (ended: Option<LoopOutcome>, count: nat)
    requires table.Valid() && Progress(rows0, table.rows, cutoff, faults, deleted, batch)
    modifies table
    ensures table.Valid()
    ensures ended.None? ==>
              && Progress(rows0, table.rows, cutoff, faults, count, batch + 1)
              && |Older(table.rows, cutoff)| < |Older(old(table.rows), cutoff)|
    ensures ended.Some? ==> table.rows == old(table.rows)
    ensures ended == Some(Failed) ==>
              || (faults.selectFails(batch) && BatchSize * batch < |Older(rows0, cutoff)| + BatchSize)
              || (faults.deleteFails(batch) && BatchSize * batch < |Older(rows0, cutoff)|)
    ensures ended.Some? && ended.value.Done? ==>
              && ended.value.deleted == deleted == |Older(rows0, cutoff)|
              && !faults.selectFails(batch)
              && |Older(rows0, cutoff)| <= BatchSize * batch < |Older(rows0, cutoff)| + BatchSize
  {
    ghost var older := |Older(rows0, cutoff)|;
    DropOlderSpec(rows0, cutoff, deleted);
    BatchCount(older, batch, deleted, Min(BatchSize, older - deleted));
    if faults.selectFails(batch) {
      return Some(Failed), deleted;
    }
    var ids := table.SelectOlder(cutoff, BatchSize);
    SelectCount(rows0, table.rows, cutoff, deleted);
    if |ids| == 0 {
      return Some(Done(deleted)), deleted;
    }
    if faults.deleteFails(batch) {
      return Some(Failed), deleted;
    }
    AfterDelete(rows0, table.rows, cutoff, faults, deleted, batch);
    table.Delete(ids);
    count := deleted + |ids|;
    ended := None;
  }

  datatype Response = Unauthorized | ServerError
                    | Pruned(deletedSnapshots: nat, deletedAlerts: nat, retentionDays: real, alertRetentionDays: real)

  /**
   * The `GET` handler, with the configured secret and the request's token,
   * the two retention settings and the reader of numbers, the current
   * instant, the two tables and their failures. It answers 500 only after
   * a select or delete error; `snapshotFailed` tells whether that error came
   * in the snapshot loop, which leaves the alerts untouched, or in the alert
   * loop, which runs only once every older snapshot is gone.
   */
  method Get(secret: Option<string>, token: Option<string>,
             retentionSetting: Option<string>, alertRetentionSetting: Option<string>, parse: string -> JsNumber,
             now: int, snapshots: Table, alerts: Table, snapshotFaults: Faults, alertFaults: Faults)
    returns (response: Response, ghost snapshotFailed: bool)
    requires snapshots != alerts && snapshots.Valid() && alerts.Valid()
    modifies snapshots, alerts
    ensures !CronAuth.Authorized(secret, token) ==>
              response == Unauthorized && snapshots.rows == old(snapshots.rows) && alerts.rows == old(alerts.rows)
    ensures CronAuth.Authorized(secret, token) ==> response != Unauthorized
    ensures var days := RetentionDays(ToNumber(retentionSetting, parse), DefaultRetentionDays);
            var alertDays := RetentionDays(ToNumber(alertRetentionSetting, parse), DefaultAlertRetentionDays);
            var cutoff := Cutoff(now, days);
            var alertCutoff := Cutoff(now, alertDays);
            && Kept(snapshots.rows, cutoff) == Kept(old(snapshots.rows), cutoff)
            && Kept(alerts.rows, alertCutoff) == Kept(old(alerts.rows), alertCutoff)
            && (response.Pruned? ==>
                  && snapshots.rows == Kept(old(snapshots.rows), cutoff)
                  && alerts.rows == Kept(old(alerts.rows), alertCutoff)
                  && response == Pruned(|Older(old(snapshots.rows), cutoff)|, |Older(old(alerts.rows), alertCutoff)|,
                                        days, alertDays))
    ensures var cutoff := Cutoff(now, RetentionDays(ToNumber(retentionSetting, parse), DefaultRetentionDays));
            var alertCutoff := Cutoff(now, RetentionDays(ToNumber(alertRetentionSetting, parse), DefaultAlertRetentionDays));
            CronAuth.Authorized(secret, token) ==>
              (response.Pruned? <==> CleanRun(snapshotFaults, |Older(old(snapshots.rows), cutoff)|)
                                     && CleanRun(alertFaults, |Older(old(alerts.rows), alertCutoff)|))
    ensures response == ServerError ==>
              CronAuth.Authorized(secret, token) &&
              exists j :: snapshotFaults.selectFails(j) || snapshotFaults.deleteFails(j)
                       || alertFaults.selectFails(j) || alertFaults.deleteFails(j)
    ensures var cutoff := Cutoff(now, RetentionDays(ToNumber(retentionSetting, parse), DefaultRetentionDays));
            snapshotFailed ==>
              && response == ServerError && alerts.rows == old(alerts.rows)
              && !CleanRun(snapshotFaults, |Older(old(snapshots.rows), cutoff)|)
              && exists j :: snapshotFaults.selectFails(j) || snapshotFaults.deleteFails(j)
    ensures var cutoff := Cutoff(now, RetentionDays(ToNumber(retentionSetting, parse), DefaultRetentionDays));
            response == ServerError && !snapshotFailed ==>
              && snapshots.rows == Kept(old(snapshots.rows), cutoff)
              && CleanRun(snapshotFaults, |Older(old(snapshots.rows), cutoff)|)
              && exists j :: alertFaults.selectFails(j) || alertFaults.deleteFails(j)
  {
    snapshotFailed := false;
    if !CronAuth.Authorized(secret, token) {
      return Unauthorized, false;
    }
    var retentionDays := RetentionDays(ToNumber(retentionSetting, parse), DefaultRetentionDays);
    var alertRetentionDays := RetentionDays(ToNumber(alertRetentionSetting, parse), DefaultAlertRetentionDays);
    var cutoff := Cutoff(now, retentionDays);
    var alertCutoff := Cutoff(now, alertRetentionDays);
    var snapshotOutcome;
    ghost var snapshotBatches;
    snapshotOutcome, snapshotBatches := DeleteOlder(snapshots, cutoff, snapshotFaults);
    if snapshotOutcome.Failed? {
      assert snapshotFaults.selectFails(snapshotBatches - 1) || snapshotFaults.deleteFails(snapshotBatches - 1);
      return ServerError, true;
    }
    var alertOutcome;
    ghost var alertBatches;
    alertOutcome, alertBatches := DeleteOlder(alerts, alertCutoff, alertFaults);
    if alertOutcome.Failed? {
      assert alertFaults.selectFails(alertBatches - 1) || alertFaults.deleteFails(alertBatches - 1);
      return ServerError, false;
    }
    response := Pruned(snapshotOutcome.deleted, alertOutcome.deleted, retentionDays, alertRetentionDays);
  }
}
