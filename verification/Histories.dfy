/** The life of one job as the sequence of its committed changes. */
module Histories {
  import opened Jobs

  /** A committed change: what it was, the row it left behind, and, for a finished
      validation or apply, the rows that were written or sent. */
  datatype Entry<R> = Entry(change: Change, job: Job, rows: seq<R>)

  ghost predicate Chain<R>(h: seq<Entry<R>>) {
    && h != []
    && h[0].change == CreatedChange
    && Begins(h[0].job)
    && forall i :: 0 < i < |h| ==> Legal(h[i - 1].job, h[i].change, h[i].job)
  }

  predicate Begins(j: Job) {
    && j.version == 1 && j.status == Uploading && j.confirmKey == EMPTY
    && SameIdentity(j, j) && ZeroCounts(j) && j.applied == 0
  }

  function Count<R>(h: seq<Entry<R>>, p: Change -> bool): nat {
    if h == [] then 0
    else Count(h[..|h| - 1], p) + if p(h[|h| - 1].change) then 1 else 0
  }

  function Retries<R>(h: seq<Entry<R>>): nat { Count(h, IsRetry) }

  /** No retry is recorded at positions i+1..j. */
  predicate NoRetry<R>(h: seq<Entry<R>>, i: nat, j: nat)
    requires j < |h|
  {
    forall k :: i < k <= j ==> h[k].change != RetriedChange
  }

  lemma ChainPrefix<R>(h: seq<Entry<R>>, n: nat)
    requires Chain(h) && 0 < n <= |h|
    ensures Chain(h[..n])
  {
  }

  lemma ChainSnoc<R>(h: seq<Entry<R>>, e: Entry<R>)
    requires Chain(h) && Legal(h[|h| - 1].job, e.change, e.job)
    ensures Chain(h + [e])
  {
    forall i | 0 < i < |h + [e]| ensures Legal((h + [e])[i - 1].job, (h + [e])[i].change, (h + [e])[i].job) {
      if i < |h| { assert (h + [e])[i] == h[i]; }
    }
  }

  lemma CountSnoc<R>(h: seq<Entry<R>>, e: Entry<R>, p: Change -> bool)
    ensures Count(h + [e], p) == Count(h, p) + if p(e.change) then 1 else 0
  {
    assert (h + [e])[..|h|] == h;
  }

  /** The version of a row counts the changes committed to it. */
  lemma {:induction false} VersionIsPosition<R>(h: seq<Entry<R>>, i: nat)
    requires Chain(h) && i < |h|
    ensures h[i].job.version == i + 1
  {
    if i > 0 { VersionIsPosition(h, i - 1); }
  }

  /** Within an attempt every change moves strictly closer to the end. */
  lemma {:induction false} RankFalls<R>(h: seq<Entry<R>>, i: nat, j: nat)
    requires Chain(h) && i < j < |h| && NoRetry(h, i, j)
    ensures Rank(h[j].job.status) < Rank(h[i].job.status)
  {
    assert Legal(h[j - 1].job, h[j].change, h[j].job);
    if i < j - 1 { RankFalls(h, i, j - 1); }
  }

  /** A status or a kind of change that occurs twice has a retry in between: an attempt visits
      each status at most once, and holds at most one claim of each kind. */
  lemma OncePerAttempt<R>(h: seq<Entry<R>>, i: nat, j: nat)
    requires Chain(h) && i < j < |h|
    requires h[i].job.status == h[j].job.status || h[i].change == h[j].change
    ensures !NoRetry(h, i, j)
  {
    assert Legal(h[j - 1].job, h[j].change, h[j].job);
    assert i > 0 ==> Legal(h[i - 1].job, h[i].change, h[i].job);
    if NoRetry(h, i, j) { RankFalls(h, i, j); }
  }

  /** One change costs one version and at least one rank; a retry gives eight ranks back. */
  lemma ChangeCosts(a: Job, c: Change, b: Job)
    requires Legal(a, c, b)
    ensures b.version + Rank(b.status) <= a.version + Rank(a.status) + if IsRetry(c) then 8 else 0
  {
  }

  /** Bounded lifetime: every attempt spends at most nine versions. */
  lemma {:induction false} BoundedLifetime<R>(h: seq<Entry<R>>)
    requires Chain(h)
    ensures h[|h| - 1].job.version + Rank(h[|h| - 1].job.status) <= 9 + 8 * Retries(h)
  {
    if |h| > 1 {
      ChainPrefix(h, |h| - 1);
      BoundedLifetime(h[..|h| - 1]);
      ChangeCosts(h[|h| - 2].job, h[|h| - 1].change, h[|h| - 1].job);
    }
  }

  predicate Unvalidated(s: Status) { s.Uploading? || s.Queued? || s.Validating? }
  predicate Confirmed(s: Status) { s.ApplyQueued? || s.Applying? || s.Succeeded? }

  /** What every committed row satisfies. */
  predicate Sound(j: Job) {
    && Balanced(j.total, j.valid, j.invalid)
    && SameIdentity(j, j)
    && (Unvalidated(j.status) ==> ZeroCounts(j))
    && (j.status.Ready? || Confirmed(j.status) ==> j.invalid == 0)
    && (j.status.ValidationFailed? ==> j.invalid > 0)
    && (Confirmed(j.status) ==> j.confirmKey != EMPTY)
    && (Unvalidated(j.status) || j.status.ValidationFailed? || j.status.Ready? ==> j.confirmKey == EMPTY)
    && (!j.status.Succeeded? && !j.status.Expired? ==> j.applied == 0)
  }

  lemma {:induction false} EveryRowSound<R>(h: seq<Entry<R>>, i: nat)
    requires Chain(h) && i < |h|
    ensures Sound(h[i].job)
  {
    if i > 0 {
      EveryRowSound(h, i - 1);
      assert Legal(h[i - 1].job, h[i].change, h[i].job);
    }
  }

  /** Apart from its creation and its claims, every version of a job has been announced. */
  lemma {:induction false} AnnouncedVersions<R>(h: seq<Entry<R>>)
    requires Chain(h)
    ensures Count(h, IsAnnounced) == h[|h| - 1].job.version - 1 - Count(h, IsClaim)
  {
    if |h| > 1 {
      ChainPrefix(h, |h| - 1);
      AnnouncedVersions(h[..|h| - 1]);
      assert Legal(h[|h| - 2].job, h[|h| - 1].change, h[|h| - 1].job);
    } else {
      assert h[..0] == [];
      assert Count(h[..0], IsAnnounced) == 0 == Count(h[..0], IsClaim);
    }
  }

  /** At-least-once delivery is absorbed: however often an event is delivered, the claims it
      leads to are paid for by completed uploads and by confirmations. */
  lemma {:induction false} ClaimsAreRequested<R>(h: seq<Entry<R>>)
    requires Chain(h)
    ensures Count(h, IsValidationClaim) + (if h[|h| - 1].job.status == Queued then 1 else 0)
         <= Count(h, IsRequest)
    ensures Count(h, IsApplyClaim) + (if h[|h| - 1].job.status == ApplyQueued then 1 else 0)
         <= Count(h, IsApplyRequest)
  {
    if |h| > 1 {
      ChainPrefix(h, |h| - 1);
      ClaimsAreRequested(h[..|h| - 1]);
      assert Legal(h[|h| - 2].job, h[|h| - 1].change, h[|h| - 1].job);
    } else {
      assert h[..0] == [];
    }
  }

  /** Cancel wins: until the next retry, nothing but the cleaner touches a canceled row. */
  lemma CancelWins<R>(h: seq<Entry<R>>, i: nat)
    requires Chain(h) && i < |h| && h[i].job.status == Canceled && NoRetry(h, i, |h| - 1)
    ensures i == |h| - 1 || (i == |h| - 2 && h[i + 1].change == ExpiredChange)
  {
    if i < |h| - 1 {
      assert Legal(h[i].job, h[i + 1].change, h[i + 1].job);
      if i + 1 < |h| - 1 { ExpiredIsFinal(h, i + 1); }
    }
  }

  lemma ExpiredIsFinal<R>(h: seq<Entry<R>>, i: nat)
    requires Chain(h) && i < |h| && h[i].job.status == Expired
    ensures i == |h| - 1
  {
    assert i < |h| - 1 ==> Legal(h[i].job, h[i + 1].change, h[i + 1].job);
  }

  /** Until the next retry a committed confirmation key stays in the row. */
  lemma {:induction false} ConfirmationSticks<R>(h: seq<Entry<R>>, i: nat, j: nat)
    requires Chain(h) && i <= j < |h| && h[i].change == ApplyRequestedChange && NoRetry(h, i, j)
    ensures h[j].job.confirmKey == h[i].job.confirmKey != EMPTY
  {
    if i == 0 {
      assert false;
    } else if i == j {
      assert Legal(h[i - 1].job, h[i].change, h[i].job);
    } else {
      ConfirmationSticks(h, i, j - 1);
      if h[j].change == ApplyRequestedChange { OncePerAttempt(h, i, j); }
      assert Legal(h[j - 1].job, h[j].change, h[j].job);
    }
  }

  lemma {:induction false} IdempotencyKeySticks<R>(h: seq<Entry<R>>, i: nat, j: nat)
    requires Chain(h) && i <= j < |h| && NoRetry(h, i, j)
    ensures h[j].job.idempotencyKey == h[i].job.idempotencyKey
  {
    if i < j {
      IdempotencyKeySticks(h, i, j - 1);
      assert Legal(h[j - 1].job, h[j].change, h[j].job);
    }
  }

  /** Position of the validation whose rows an apply in progress, or just finished, works on. */
  lemma ApplyFollowsValidation<R>(h: seq<Entry<R>>)
    requires Chain(h)
    ensures h[|h| - 1].job.status == Ready ==> h[|h| - 1].change == ValidatedChange
    ensures h[|h| - 1].job.status == ApplyQueued ==>
              |h| >= 2 && h[|h| - 1].change == ApplyRequestedChange && h[|h| - 2].change == ValidatedChange
    ensures h[|h| - 1].job.status == Applying ==>
              |h| >= 3 && h[|h| - 1].change == ApplyClaimed && h[|h| - 3].change == ValidatedChange
    ensures h[|h| - 1].job.status == Validating ==> h[|h| - 1].change == ValidationClaimed
  {
    var n := |h| - 1;
    if n > 0 { assert Legal(h[n - 1].job, h[n].change, h[n].job); }
    if n > 1 { assert Legal(h[n - 2].job, h[n - 1].change, h[n - 1].job); }
    if n > 2 { assert Legal(h[n - 3].job, h[n - 2].change, h[n - 2].job); }
  }
}
