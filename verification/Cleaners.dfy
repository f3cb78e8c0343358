/** The cleaner: it expires the jobs whose time is up and, later, removes their rows. */
module Cleaners {
  import opened Jobs
  import opened Protocol
  import opened Runs
  import opened Worlds
  import opened Transactions

  /** The rows the sweep looks for. */
  predicate Due(j: Job, now: Time) {
    || (j.status.Uploading? && j.uploadExpires.Some? && j.uploadExpires.value <= now)
    || ((j.status.ValidationFailed? || j.status.Succeeded? || j.status.Failed? || j.status.Canceled?)
        && j.resultExpires.Some? && j.resultExpires.value <= now)
  }

  predicate Old(j: Job, before: Time) { j.status.Expired? && j.updatedAt < before }

  /** Rows of the table, each once. */
  ghost predicate Listed(s: State, jobs: seq<Job>) {
    && (forall i :: 0 <= i < |jobs| ==> jobs[i].id in s.rows && s.rows[jobs[i].id] == jobs[i])
    && (forall i, k :: 0 <= i < k < |jobs| ==> jobs[i].id != jobs[k].id)
  }

  /** The job is expired, now and forever, or its row is gone. */
  predicate Finished(s: State, id: Id) {
    id in s.history && (id in s.rows ==> s.rows[id].status == Expired)
  }

  predicate Removed(s: State, id: Id) { id in s.history && id !in s.rows }

  lemma FinishedHolds(s: State, s': State, id: Id)
    requires Reached(s) && Later(s, s') && Finished(s, id)
    ensures Finished(s', id)
  {
    if id !in s.rows {
      GoneHolds(s, s', id);
    } else {
      ReachedInv(s);
      var more :| After(s, more, s');
      RunOf(s, more, s');
      RunGrows(s, more);
      if id in s'.rows { ExpiredHolds(s, s', id); }
    }
  }

  class Cleaner {
    const world: World

    constructor (world: World)
      ensures this.world == world
    {
      this.world := world;
    }

    lemma RowId(id: Id)
      requires world.Valid() && id in world.rows
      ensures world.rows[id].id == id && id in world.history
    {
      world.ValidReached();
      RowFacts(world.Now(), id);
    }

    /** Up to `limit` of the rows that are due; all of them if there are fewer. */
    method List(due: Job -> bool, limit: nat) returns (jobs: seq<Job>, ok: bool)
      requires world.Valid()
      ensures Listed(world.Now(), jobs) && |jobs| <= limit && forall i :: 0 <= i < |jobs| ==> due(jobs[i])
      ensures ok && |jobs| < limit ==> forall id :: id in world.rows && due(world.rows[id]) ==> world.rows[id] in jobs
    {
      jobs, ok := [], *;
      if !ok { return; }
      var rest := set id | id in world.rows && due(world.rows[id]);
      while rest != {} && |jobs| < limit
        invariant Listed(world.Now(), jobs) && |jobs| <= limit
        invariant forall i :: 0 <= i < |jobs| ==> due(jobs[i]) && jobs[i].id !in rest
        invariant forall id :: id in rest ==> id in world.rows && due(world.rows[id])
        invariant forall id :: id in world.rows && due(world.rows[id]) && id !in rest ==> world.rows[id] in jobs
        decreases |rest|
      {
        var id :| id in rest;
        RowId(id);
        jobs := jobs + [world.rows[id]];
        rest := rest - {id};
      }
    }

    /** Delete the objects of a job, as far as storage lets it. */
    method DeleteObjects(j: Job) returns (ok: bool)
      requires world.Valid()
      modifies world
      ensures world.Valid() && old(world.trace) <= world.trace
    {
      var keys, i := [j.sourceKey, j.normalizedKey, j.reportKey], 0;
      ok := true;
      while i < |keys| && ok
        invariant world.Valid() && old(world.trace) <= world.trace
      {
        world.Others(NOTHING);
        ok := *;
        if ok {
          var s := world.Now();
          world.Become(s.(objects := s.objects - {keys[i]}), DeleteObjectStep(keys[i]));
        }
        i := i + 1;
      }
    }

    /** The transaction that expires one listed row. */
    method ExpireRow(j: Job, now: Time) returns (expired: bool, stale: bool)
      requires world.Valid() && Sweepable(j.status)
      modifies world
      ensures world.Valid() && old(world.trace) <= world.trace
      ensures expired ==> Finished(world.Now(), j.id)
      ensures stale ==> !expired && Expiring(world.Now(), j.id, j.scope, j.status, now).None? && world.Now() == old(world.Now())
    {
      var tx := new Transaction(world);
      var updated := tx.Expire(j, now);
      stale := updated == Result.Err(StaleVersion);
      var failed := tx.Announce(ExpiredChange, updated);
      ghost var step := ExpireStep(j.id, j.scope, j.status, now);
      if !failed {
        ExpireAmounts(world.Now(), updated.value, step);
        RowId(j.id);
      }
      ghost var done;
      expired, done := tx.End(failed, None, step);
    }

    /** Expire one listed job. A row that is gone or in another status is passed over: the row and the
        outbox stay as the others left them. */
    method Expire(j: Job, now: Time) returns (expired: bool, stale: bool)
      requires world.Valid() && Sweepable(j.status)
      modifies world
      ensures world.Valid() && old(world.trace) <= world.trace
      ensures expired ==> Finished(world.Now(), j.id)
      ensures stale ==> !expired && Expiring(world.Now(), j.id, j.scope, j.status, now).None?
    {
      expired, stale := false, false;
      var deleted := DeleteObjects(j);
      if !deleted { return; }
      world.Others(NOTHING);
      expired, stale := ExpireRow(j, now);
    }

    lemma StillFinished(before: seq<Step>, s: State, ids: set<Id>)
      requires world.Valid() && After(INIT, before, s) && before <= world.trace
      requires forall id :: id in ids ==> Finished(s, id)
      ensures forall id :: id in ids ==> Finished(world.Now(), id)
    {
      EarlierWorld(world, before, s);
      forall id | id in ids ensures Finished(world.Now(), id) { FinishedHolds(s, world.Now(), id); }
    }

    /** Every job that was counted is expired when the sweep returns, whatever happened in between. */
    method CleanupExpired(now: Time, limit: int) returns (cleaned: int, ok: bool, ghost ids: set<Id>)
      requires world.Valid()
      modifies world
      ensures world.Valid() && old(world.trace) <= world.trace
      ensures limit < 1 ==> !ok && cleaned == 0
      ensures cleaned == |ids| && (limit >= 1 ==> cleaned <= limit)
      ensures forall id :: id in ids ==> Finished(world.Now(), id)
    {
      cleaned, ids, ok := 0, {}, false;
      if limit < 1 { return; }
      world.Others(NOTHING);
      var jobs;
      jobs, ok := List(j => Due(j, now), limit);
      var i := 0;
      while i < |jobs| && ok
        invariant world.Valid() && old(world.trace) <= world.trace
        invariant 0 <= cleaned == |ids| <= i <= |jobs|
        invariant forall k :: i <= k < |jobs| ==> jobs[k].id !in ids
        invariant forall id :: id in ids ==> Finished(world.Now(), id)
      {
        ghost var before, s := world.trace, world.Now();
        var expired, stale := Expire(jobs[i], now);
        StillFinished(before, s, ids);
        if expired { cleaned, ids := cleaned + 1, ids + {jobs[i].id}; }
        ok := expired || stale;
        i := i + 1;
      }
    }

    /** Remove one listed row, if it is still the listed version. */
    method Purge(j: Job, before: Time) returns (purged: bool, ok: bool)
      requires world.Valid()
      modifies world
      ensures world.Valid() && old(world.trace) <= world.trace
      ensures ok && purged ==> Removed(world.Now(), j.id)
    {
      world.Others(NOTHING);
      var tx := new Transaction(world);
      var gone, deleted := tx.DeleteExpiredMetadata(j, before);
      ghost var step := PurgeStep(j.id, j.scope, j.version, before);
      if deleted {
        PurgeAmounts(world.Now(), step);
        if gone { RowId(j.id); }
      }
      ghost var done;
      ok, done := tx.End(!deleted, None, step);
      purged := gone;
    }

    lemma StillRemoved(before: seq<Step>, s: State, ids: set<Id>)
      requires world.Valid() && After(INIT, before, s) && before <= world.trace
      requires forall id :: id in ids ==> Removed(s, id)
      ensures forall id :: id in ids ==> Removed(world.Now(), id)
    {
      EarlierWorld(world, before, s);
      forall id | id in ids ensures Removed(world.Now(), id) { GoneHolds(s, world.Now(), id); }
    }

    /** Every job that was counted is gone when the purge returns, and will not come back. */
    method PurgeExpiredMetadata(retention: int, limit: int, now: Time)
      returns (purged: int, ok: bool, ghost ids: set<Id>)
      requires world.Valid()
      modifies world
      ensures world.Valid() && old(world.trace) <= world.trace
      ensures retention <= 0 || limit <= 0 ==> !ok && purged == 0
      ensures purged == |ids| && (limit >= 1 ==> purged <= limit)
      ensures forall id :: id in ids ==> Removed(world.Now(), id)
    {
      purged, ids, ok := 0, {}, false;
      if retention <= 0 || limit <= 0 { return; }
      world.Others(NOTHING);
      var jobs;
      jobs, ok := List(j => Old(j, now - retention), limit);
      var i := 0;
      while i < |jobs| && ok
        invariant world.Valid() && old(world.trace) <= world.trace
        invariant 0 <= purged == |ids| <= i <= |jobs|
        invariant forall k :: i <= k < |jobs| ==> jobs[k].id !in ids
        invariant forall id :: id in ids ==> Removed(world.Now(), id)
      {
        ghost var before, s := world.trace, world.Now();
        var gone;
        gone, ok := Purge(jobs[i], now - retention);
        StillRemoved(before, s, ids);
        if ok && gone { purged, ids := purged + 1, ids + {jobs[i].id}; }
        i := i + 1;
      }
    }
  }
}
