/** A run in which the cleaner expires a job before it is due: the row it has listed is canceled and
    retried before it gets to it, and is back in the listed status with a new deadline. */
module StaleExpiry {
  import opened Jobs
  import opened Protocol
  import opened Runs
  import opened Cleaners
  import opened Scenarios

  lemma CanceledAndRetried(listed: State) returns (s: State)
    requires Stands(Anything, listed, Uploading, 1, 0)
    ensures Later(listed, s) && Stands(Anything, s, Uploading, 3, 0) && s.rows[JOB].uploadExpires == Some(100)
  {
    var cancel, retry := CancelStep(JOB, TENANT, 1, 10, ACTOR), RetryStep(JOB, TENANT, 2, Text("again"), 100, 10, ACTOR);
    var s1 := Next(listed, cancel);
    LaterSelf(listed);
    LaterNext(listed, listed, cancel);
    AlongNext(Always, listed, cancel);
    s := Next(s1, retry);
    LaterNext(listed, s1, retry);
    AlongNext(Always, s1, retry);
  }

  /** `listed` is the table as the cleaner has listed it, `s` as it finds it, and `s'` as it leaves it. */
  lemma ExpiredEarly() returns (listed: State, s: State, s': State)
    ensures Reached(listed) && Later(listed, s) && JOB in listed.rows && JOB in s.rows && JOB in s'.rows
    ensures Due(listed.rows[JOB], 10) && !Due(s.rows[JOB], 10)
    ensures s' == Next(s, ExpireStep(JOB, TENANT, listed.rows[JOB].status, 10))
    ensures s'.rows[JOB].status == Expired && s'.rows[JOB].uploadExpires == Some(100)
  {
    listed := FirstJob(Anything);
    AlongReached(Always, listed);
    s := CanceledAndRetried(listed);
    s' := Next(s, ExpireStep(JOB, TENANT, Uploading, 10));
  }
}
