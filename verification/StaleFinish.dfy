/** Runs in which a worker survives cancel and retry, and a job succeeds without having applied the row
    it reports as valid. */
module StaleFinish {
  import opened Rows
  import opened Jobs
  import opened Protocol
  import opened Runs
  import opened Scenarios

  /** Two validations of two attempts of one job, both running. */
  lemma TwoRunning(rule: Rule) returns (s: State)
    requires rule != NoSurvivors
    ensures Stands(rule, s, Validating, 7, 2) && Fresh(s, 0, Validation) && Fresh(s, 1, Validation) && s.claims[1].version == 7
  {
    var s1 := FirstJob(rule);
    var s2 := UploadAndClaim(rule, s1, 1);
    var s3 := CancelAndRetry(rule, s2, 3);
    s := UploadAndClaim(rule, s3, 5);
    assert s.claims[0] == s.claims[..1][0];
  }

  /** Worker `c` validates one row and finishes; the other worker overwrites the file with an empty one. */
  lemma OneFinishesOneStores(rule: Rule, row: Row, c: nat) returns (s: State)
    requires rule != NoSurvivors && c < 2 && (rule == OwnVersions ==> c == 1)
    ensures Stands(rule, s, Ready, 8, 2) && s.rows[JOB].valid == 1 && FILE in s.objects && s.objects[FILE] == []
  {
    var s1 := TwoRunning(rule);
    var s2 := WorkerStores(rule, s1, Validating, 7, c, [row]);
    var s3 := WorkerFinishesValidation(rule, s2, 7, c, [row]);
    s := WorkerStores(rule, s3, Ready, 8, 1 - c, []);
  }

  /** The user confirms, and what is applied is the empty file. */
  lemma AppliesNothing(rule: Rule, row: Row, c: nat) returns (s: State)
    requires rule != NoSurvivors && c < 2 && (rule == OwnVersions ==> c == 1)
    ensures Stands(rule, s, Succeeded, 11, 3) && s.rows[JOB].valid == 1 && s.rows[JOB].applied == 0
  {
    var s1 := OneFinishesOneStores(rule, row, c);
    var s2 := UserConfirms(rule, s1, 8);
    var s3 := WorkerClaims(rule, s2, 9, Apply);
    var s4 := WorkerLoads(rule, s3, 10, 2);
    s := WorkerFinishesApply(rule, s4, 10, 2);
  }

  /** Nothing keeps the worker of the canceled attempt from finishing the later one: a job can succeed
      with a valid row that was never applied. */
  lemma SucceededWithoutApplying(row: Row) returns (s: State)
    ensures Reached(s) && JOB in s.rows
    ensures s.rows[JOB].status == Succeeded && s.rows[JOB].valid == 1 && s.rows[JOB].applied == 0
  {
    s := AppliesNothing(Anything, row, 0);
    AlongReached(Always, s);
  }

  /** Comparing the version in the finish statements alone would not help: every finish of this run is
      made with the version of its claim, and the file is still overwritten by the survivor. */
  lemma FinishChecksAreNotEnough(row: Row) returns (s: State)
    ensures ReachedAlong(OwnFinish, s) && JOB in s.rows
    ensures s.rows[JOB].status == Succeeded && s.rows[JOB].valid == 1 && s.rows[JOB].applied == 0
  {
    s := AppliesNothing(OwnVersions, row, 1);
  }
}
