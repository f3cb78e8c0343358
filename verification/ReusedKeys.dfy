/** Runs in which a job succeeds while the provider holds rows of an earlier attempt, because the keys of
    both attempts are the same: the provider takes the batch of the second attempt for a duplicate. */
module ReusedKeys {
  import opened Rows
  import opened Jobs
  import opened Providers
  import opened Deliveries
  import opened Protocol
  import opened Runs
  import opened EndToEnd
  import opened Effects
  import opened Scenarios

  /** The job reports that every row of its second file was applied, and the provider holds the first one. */
  ghost predicate HoldsOldRows(s: State, first: seq<Row>, second: seq<Row>) {
    && JOB in s.rows && s.rows[JOB].status.Succeeded?
    && s.rows[JOB].applied == s.rows[JOB].valid == s.rows[JOB].total == |second|
    && JOB in s.history && s.history[JOB] != [] && s.history[JOB][|s.history[JOB]| - 1].rows == second
    && Commits(s) == [Effect(Key(JOB, 1), first)]
  }

  lemma SecondIsDropped(first: seq<Row>, second: seq<Row>)
    ensures Deliver([], OnlyBatch(first)) == [Effect(Key(JOB, 1), first)]
    ensures Deliver([Effect(Key(JOB, 1), first)], OnlyBatch(second)) == [Effect(Key(JOB, 1), first)]
  {
    var held := [Effect(Key(JOB, 1), first)];
    assert held[0].key == Key(JOB, 1);
  }

  /** The first attempt sends its batch, which arrives if `arrives` says so, and fails; the user retries, and the
      worker of the second attempt has loaded another file. No worker survives anything. */
  lemma FailedAndRetried(first: seq<Row>, second: seq<Row>, arrives: bool) returns (s: State)
    ensures Stands(NoSurvivors, s, Applying, 13, 4) && s.rows[JOB].valid == |second| == s.rows[JOB].total
    ensures Holds(s, 3, Apply) && s.claims[3].input == Some(second) && s.claims[3].calls == [] && s.claims[3].answered == 0
    ensures s.sent == [OnlyBatch(first)] && Commits(s) == if arrives then [Effect(Key(JOB, 1), first)] else []
  {
    var rule := NoSurvivors;
    var s1 := FirstJob(rule);
    var s2 := Attempt(rule, s1, 1, first);
    assert s2.sent == [] && s2.arrived == [];
    var s3 := WorkerSends(rule, s2, Applying, 6, 1, first);
    assert s3.sent == [OnlyBatch(first)];
    var s4 := s3;
    if arrives {
      s4 := MessageArrives(rule, s3, Applying, 6, 0);
      SecondIsDropped(first, second);
    }
    var s5 := WorkerFailsApply(rule, s4, 6, 1);
    var s6 := UserRetries(rule, s5, Failed, 7);
    s := Attempt(rule, s6, 8, second);
  }

  /** The provider has applied the batch of the first attempt. */
  lemma SucceededWithOldRows(first: seq<Row>, second: seq<Row>) returns (s: State)
    ensures ReachedAlong(NoSurvivor, s) && HoldsOldRows(s, first, second)
  {
    var s1 := FailedAndRetried(first, second, true);
    SecondIsDropped(first, second);
    s := WorkerApplies(NoSurvivors, s1, 13, 3, second);
  }

  /** The message of the first attempt is still under way when the second one starts: the provider knows no
      key of the job then (`s0`), and the old message arrives first. */
  lemma SucceededAfterLateMessage(first: seq<Row>, second: seq<Row>) returns (s0: State, s: State)
    ensures Running(s0, 3, Apply) && s0.claims[3].calls == [] && Commits(s0) == []
    ensures ReachedAlong(NoSurvivor, s0) && Later(s0, s) && ReachedAlong(NoSurvivor, s) && HoldsOldRows(s, first, second)
  {
    s0 := FailedAndRetried(first, second, false);
    SecondIsDropped(first, second);
    var s1 := MessageArrives(NoSurvivors, s0, Applying, 13, 0);
    s := WorkerApplies(NoSurvivors, s1, 13, 3, second);
    LaterTrans(s0, s1, s);
  }

  /** The apply of the first attempt is canceled, which does not stop its worker: nothing has been sent for the
      job when the second apply starts (`s0`), and then the old worker is faster. */
  lemma SucceededDespiteSurvivor(first: seq<Row>, second: seq<Row>) returns (s0: State, s: State)
    ensures Running(s0, 3, Apply) && s0.claims[3].calls == [] && s0.sent == []
    ensures Reached(s0) && Later(s0, s) && HoldsOldRows(s, first, second)
  {
    var rule := Anything;
    var s1 := FirstJob(rule);
    var s2 := Attempt(rule, s1, 1, first);
    var s3 := CancelApply(rule, s2, 6);
    var s4 := UserRetries(rule, s3, Canceled, 7);
    s0 := Attempt(rule, s4, 8, second);
    assert s0.claims[1] == s0.claims[..2][1];
    var s5 := WorkerSends(rule, s0, Applying, 13, 1, first);
    var s6 := MessageArrives(rule, s5, Applying, 13, 0);
    SecondIsDropped(first, second);
    s := WorkerApplies(rule, s6, 13, 3, second);
    AlongReached(Always, s0);
    LaterTrans(s0, s5, s6);
    LaterTrans(s0, s6, s);
  }

  /** In all three runs the second file is not what the provider holds. */
  lemma OldRowsAreWrong(s: State, first: seq<Row>, second: seq<Row>)
    requires HoldsOldRows(s, first, second) && first != second
    ensures !HoldsBatches([OnlyBatch(second)], Commits(s)) && !Exactly(JOB, [OnlyBatch(second)], Commits(s))
  {
    var held := Commits(s);
    assert RowsUnder(held, Key(JOB, 1)) == Some(first) by { assert held[..0] == []; }
    assert [OnlyBatch(second)][0] == OnlyBatch(second);
    KeyIsOf(JOB, 1);
    OwnMember(JOB, held, held[0]);
    assert EffectsOf([OnlyBatch(second)]) == [Effect(Key(JOB, 1), second)];
  }

  /** Agreement is less than exactness: an earlier, longer file leaves its tail behind. The batch of the
      shorter file is in its place, and the provider still holds another one for the job. */
  lemma TailRemains(rows: seq<Row>, tail: seq<Row>)
    ensures var calls, held := [OnlyBatch(rows)], [Effect(Key(JOB, 1), rows), Effect(Key(JOB, 2), tail)];
      && AllAgree(calls, held, []) && HoldsBatches(calls, held)
      && !OnlyThese(JOB, calls, held, []) && Contents(Own(JOB, held)) == rows + tail
  {
    var calls, held := [OnlyBatch(rows)], [Effect(Key(JOB, 1), rows), Effect(Key(JOB, 2), tail)];
    var first := [Effect(Key(JOB, 1), rows)];
    KeyIsOf(JOB, 1);
    KeyIsOf(JOB, 2);
    KeysDiffer(JOB, 1, 2);
    assert held[..1] == first && first[..0] == [] && [] + first == first && first + [held[1]] == held;
    assert RowsUnder(first, Key(JOB, 1)) == Some(rows);
    RowsUnderHas(held, Key(JOB, 1));
    assert Own(JOB, first) == first && Own(JOB, held) == held;
    assert Contents(first) == [] + rows == rows;
    assert EffectsOf(calls) == first && held[1] !in first;
  }
}
