/** The provider session: one batch at a time over a stream that may break before or after the
    provider has acted, reopened and replayed with the same message. */
module Sessions {
  import opened Jobs
  import opened Providers
  import opened Protocol
  import opened Remotes
  import opened Numbers

  predicate Transient(f: Failure, contextDone: bool) {
    !contextDone && (f.StreamEnded? || f.Unavailable? || f.ResourceExhausted? || f.DeadlineExceeded?)
  }

  // ---- retry delays ----

  datatype Retry = Retry(maxAttempts: int, initial: int, max: int)

  function Attempts(r: Retry): (n: int)
    ensures n >= 1
  {
    if r.maxAttempts > 1 then r.maxAttempts else 1
  }

  /** A 64-bit signed duration after wrap-around. */
  function Wrap64(x: int): (w: int)
    ensures -TWO63 <= w < TWO63
    ensures -TWO63 <= x < TWO63 ==> w == x
  {
    (x + TWO63) % TWO64 - TWO63
  }

  function Pow2(n: nat): (p: int)
    ensures p >= 1
  {
    if n == 0 then 1 else 2 * Pow2(n - 1)
  }

  /** The wait after the given attempt: the shifted initial backoff, capped. */
  function Delay(r: Retry, attempt: int): int
    requires attempt >= 1
  {
    var shifted := Wrap64(r.initial * Pow2(attempt - 1));
    if shifted > r.max then r.max else shifted
  }

  function Delays(r: Retry, n: nat): seq<int> {
    seq(n, i requires 0 <= i => Delay(r, i + 1))
  }

  /** A timer with a negative duration fires at once. */
  function Waited(delays: seq<int>): nat {
    if delays == [] then 0
    else Waited(delays[..|delays| - 1]) + if delays[|delays| - 1] > 0 then delays[|delays| - 1] else 0
  }

  lemma {:induction false} TotalWaitIsBounded(r: Retry, n: nat)
    requires r.max >= 0
    ensures Waited(Delays(r, n)) <= n * r.max
  {
    if n > 0 {
      DelaysSnoc(r, n);
      DelayIsCapped(r, n);
      WaitedSnoc(Delays(r, n - 1), Delay(r, n));
      TotalWaitIsBounded(r, n - 1);
      OneMore(n, r.max);
    }
  }

  lemma DelayIsCapped(r: Retry, attempt: int)
    requires attempt >= 1
    ensures Delay(r, attempt) <= r.max
  {
  }

  lemma OneMore(n: nat, x: int)
    ensures n * x == (n - 1) * x + x
  {
  }

  lemma DelaysSnoc(r: Retry, n: nat)
    requires n > 0
    ensures Delays(r, n) == Delays(r, n - 1) + [Delay(r, n)]
  {
  }

  lemma WaitedSnoc(delays: seq<int>, d: int)
    ensures Waited(delays + [d]) == Waited(delays) + if d > 0 then d else 0
  {
    assert (delays + [d])[..|delays|] == delays;
  }

  ghost predicate Growing(delays: seq<int>) {
    forall i, j :: 0 <= i <= j < |delays| ==> delays[i] <= delays[j]
  }

  /** Backoff never shrinks exactly as long as the largest shift stays inside 64 bits: the first shift
      that leaves them turns negative, and that wait is over before it starts. */
  lemma DelaysGrow(r: Retry, n: nat)
    requires n > 0 && 0 <= r.initial < TWO63 && r.max >= 0
    ensures Growing(Delays(r, n)) <==> r.initial * Pow2(n - 1) < TWO63
  {
    if r.initial * Pow2(n - 1) < TWO63 {
      forall i, j | 0 <= i <= j < n ensures Delays(r, n)[i] <= Delays(r, n)[j] { LaterIsLonger(r, n, i, j); }
    } else {
      var m := FirstOverflow(r.initial, n - 1);
      assert Delays(r, n)[m] == Delay(r, m + 1) < 0 <= Delay(r, m) == Delays(r, n)[m - 1];
    }
  }

  /** The configuration check admits delays that shrink: the fourth wait is over before it starts. */
  lemma DelaysMayShrink()
    ensures var initial := 0x1000_0000_0000_0000; !Growing(Delays(Retry(5, initial, initial), 4))
  {
    var r := Retry(5, 0x1000_0000_0000_0000, 0x1000_0000_0000_0000);
    assert Pow2(3) == 2 * Pow2(2) == 4 * Pow2(1) == 8 * Pow2(0) == 8;
    DelaysGrow(r, 4);
  }

  lemma LaterIsLonger(r: Retry, n: nat, i: nat, j: nat)
    requires i <= j < n && r.initial >= 0 && r.initial * Pow2(n - 1) < TWO63
    ensures Delay(r, i + 1) <= Delay(r, j + 1)
  {
    ShiftsGrow(r.initial, i, j);
    ShiftsGrow(r.initial, j, n - 1);
    var x, y := r.initial * Pow2(i), r.initial * Pow2(j);
    assert Wrap64(x) == x && Wrap64(y) == y;
  }

  lemma ShiftsGrow(initial: int, i: nat, j: nat)
    requires i <= j && initial >= 0
    ensures 0 <= initial * Pow2(i) <= initial * Pow2(j)
  {
    PowMonotone(i, j);
    MulMonotone(initial, Pow2(i), Pow2(j));
  }

  /** The first shift that does not fit: it lies between 2^63 and 2^64. */
  lemma {:induction false} FirstOverflow(initial: int, k: nat) returns (m: nat)
    requires 0 <= initial < TWO63 && initial * Pow2(k) >= TWO63
    ensures 0 < m <= k && 0 <= initial * Pow2(m - 1) < TWO63 <= initial * Pow2(m) < TWO64
  {
    assert k > 0;
    Doubling(initial, k);
    if initial * Pow2(k - 1) < TWO63 {
      MulMonotone(initial, 0, Pow2(k - 1));
      m := k;
    } else {
      m := FirstOverflow(initial, k - 1);
    }
  }

  lemma Doubling(x: int, k: nat)
    requires k > 0
    ensures x * Pow2(k) == 2 * (x * Pow2(k - 1))
  {
  }

  lemma MulMonotone(x: int, a: int, b: int)
    requires x >= 0 && 0 <= a <= b
    ensures 0 <= x * a <= x * b
  {
  }

  lemma {:induction false} PowMonotone(i: nat, j: nat)
    requires i <= j
    ensures Pow2(i) <= Pow2(j)
  {
    if i < j { PowMonotone(i, j - 1); }
  }

  // ---- the session ----

  function Repeat(m: Message, k: nat): seq<Message> { seq(k, _ => m) }

  class Session {
    const remote: Remote
    const scope: Scope
    const dataset: Text
    const retry: Retry
    var stream: bool          // whether a stream is open
    var slept: seq<int>
    var failures: nat         // reported to discovery

    ghost predicate Valid()
      reads this, remote, remote.world
    {
      remote.Valid()
    }

    constructor (remote: Remote, scope: Scope, dataset: Text, retry: Retry)
      requires remote.Valid()
      ensures Valid() && this.remote == remote && this.scope == scope && this.dataset == dataset && this.retry == retry
      ensures !stream && slept == [] && failures == 0
    {
      this.remote, this.scope, this.dataset, this.retry := remote, scope, dataset, retry;
      stream, slept, failures := false, [], 0;
    }

    method Reopen() returns (err: Option<Failure>)
      modifies this`stream
      ensures stream <==> err.None? || old(stream)
    {
      err := *;
      if err.None? { stream := true; }
    }

    method Wait(attempt: nat) returns (err: Option<Failure>)
      requires attempt >= 1
      modifies this`slept
      ensures slept == (if err.None? then old(slept) + [Delay(retry, attempt)] else old(slept))
      ensures err.Some? ==> err.value == ContextDone
    {
      var contextDone: bool := *;
      if contextDone {
        err := Some(ContextDone);
      } else {
        slept := slept + [Delay(retry, attempt)];
        err := None;
      }
    }

    /** Opening the session: any failure is retried, and giving up is reported once. */
    method Open() returns (err: Option<Failure>)
      requires Valid() && !stream
      modifies this`stream, this`slept, this`failures
      ensures stream <==> err.None?
      ensures failures == old(failures) || (err.Some? && failures == old(failures) + 1)
      ensures exists n: nat :: n < Attempts(retry) && slept == old(slept) + Delays(retry, n)
    {
      var attempt := 1;
      while true
        invariant 1 <= attempt <= Attempts(retry)
        invariant !stream && failures == old(failures) && slept == old(slept) + Delays(retry, attempt - 1)
        decreases Attempts(retry) - attempt
      {
        err := Reopen();
        if err.None? { return; }
        var contextDone: bool := *;
        if contextDone || attempt == Attempts(retry) {
          failures := failures + 1;
          return;
        }
        err := Wait(attempt);
        if err.Some? { return; }
        DelaysSnoc(retry, attempt);
        attempt := attempt + 1;
      }
    }

    /** The claim has sent `m` if anything was sent, and its batch is answered if its answer has come. */
    ghost predicate Progress(k: Claim, m: Message, sends: nat, answered: bool)
      requires Valid()
      reads this, remote, remote.world
    {
      remote.Claimed() ==
        if m.ValidateRows? || sends == 0 then k else if answered then Answering(k, m) else Sent(k, m)
    }

    /** Send, and wait for the answer. */
    method SendAndWait(m: Message) returns (response: Response, err: Option<Failure>)
      requires Valid() && remote.MaySend(m)
      modifies remote, remote.world
      ensures Valid() && remote.requests == old(remote.requests) + [m]
      ensures Progress(old(remote.Claimed()), m, 1, err.None? && response.batch == m.batch)
      ensures remote.log == old(remote.log) + if err.None? then [Exchanged(m, response)] else []
    {
      response := Response(0, 0, [], []);
      err := remote.Send(m);
      if err.None? {
        remote.ClaimCalls();
        response, err := remote.Recv(m);
      }
    }

    /** One attempt: reopen if needed, send, and wait for the answer; a failure drops the stream. */
    method Attempt(m: Message) returns (response: Response, err: Option<Failure>, ghost sends: nat)
      requires Valid() && remote.MaySend(m)
      modifies this`stream, remote, remote.world
      ensures Valid() && sends <= 1 && remote.requests == old(remote.requests) + Repeat(m, sends)
      ensures Progress(old(remote.Claimed()), m, sends, err.None? && response.batch == m.batch)
      ensures err.None? ==> sends > 0
      ensures remote.log == old(remote.log) + if err.None? then [Exchanged(m, response)] else []
      ensures stream <==> err.None?
    {
      response, err, sends := Response(0, 0, [], []), None, 0;
      if !stream { err := Reopen(); }
      if err.None? {
        response, err := SendAndWait(m);
        sends := 1;
      }
      if err.Some? { stream := false; }
    }

    /** What has been sent may be sent again, and that changes nothing. */
    lemma SendAgain(k: Claim, m: Message)
      requires Valid() && m.ApplyRows? && remote.Claimed() == Sent(k, m) && Sendable(k, m) && k.answered <= |k.calls| <= k.answered + 1
      requires remote.mine.open && remote.mine.kind == Apply && remote.mine.input.Some?
      ensures remote.MaySend(m) && Sent(Sent(k, m), m) == Sent(k, m) && Answering(Sent(k, m), m) == Answering(k, m)
    {
    }

    /** The claim may send `m`, or has just sent it without an answer. `k` is the claim before. */
    ghost predicate Replaying(k: Claim, m: Message, sends: nat)
      requires Valid()
      reads this, remote, remote.world
    {
      && Progress(k, m, sends, false)
      && (m.ApplyRows? ==>
            && remote.mine.open && remote.mine.kind == Apply && remote.mine.input.Some?
            && Sendable(k, m) && k.answered <= |k.calls| <= k.answered + 1)
    }

    /** One more attempt with the same message. */
    method Replay(m: Message, ghost k: Claim, ghost sends: nat)
      returns (response: Response, err: Option<Failure>, ghost total: nat)
      requires Valid() && Replaying(k, m, sends)
      modifies this`stream, remote, remote.world
      ensures Valid() && sends <= total <= sends + 1 && remote.requests == old(remote.requests) + Repeat(m, total - sends)
      ensures Progress(k, m, total, err.None? && response.batch == m.batch)
      ensures err.Some? ==> Replaying(k, m, total)
      ensures err.None? ==> total > 0
      ensures remote.log == old(remote.log) + if err.None? then [Exchanged(m, response)] else []
      ensures stream <==> err.None?
    {
      if m.ApplyRows? && sends > 0 { SendAgain(k, m); }
      ghost var more;
      response, err, more := Attempt(m);
      total := sends + more;
    }

    /** Send one message and wait for its answer, reopening and replaying it as often as the retry
        configuration allows. The same message is sent every time, at most `Attempts(retry)` times;
        when it is answered, the provider has received it and the stream is still open. */
    method Exchange(m: Message)
      returns (response: Response, err: Option<Failure>, ghost sends: nat, ghost waits: nat)
      requires Valid() && remote.MaySend(m)
      modifies this`stream, this`slept, this`failures, remote, remote.world
      ensures Valid()
      ensures sends <= Attempts(retry) && remote.requests == old(remote.requests) + Repeat(m, sends)
      ensures Progress(old(remote.Claimed()), m, sends, err.None? && response.batch == m.batch)
      ensures err.None? ==> sends > 0
      ensures remote.log == old(remote.log) + if err.None? then [Exchanged(m, response)] else []
      ensures stream <==> err.None?
      ensures waits < Attempts(retry) && slept == old(slept) + Delays(retry, waits)
      ensures failures == old(failures) || (err.Some? && failures == old(failures) + 1)
    {
      sends, waits := 0, 0;
      var attempt := 1;
      ghost var k := remote.Claimed();
      remote.ClaimCalls();
      while true
        invariant Valid() && 1 <= attempt <= Attempts(retry) && sends <= attempt - 1
        invariant failures == old(failures)
        invariant remote.requests == old(remote.requests) + Repeat(m, sends)
        invariant remote.log == old(remote.log) && Replaying(k, m, sends)
        invariant waits == attempt - 1 && slept == old(slept) + Delays(retry, waits)
        decreases Attempts(retry) - attempt
      {
        ghost var before := sends;
        response, err, sends := Replay(m, k, before);
        assert Repeat(m, before) + Repeat(m, sends - before) == Repeat(m, sends);
        if err.None? { return; }
        var contextDone: bool := *;
        if !Transient(err.value, contextDone) || attempt == Attempts(retry) {
          failures := failures + 1;
          return;
        }
        err := Wait(attempt);
        if err.Some? { return; }
        DelaysSnoc(retry, attempt);
        attempt, waits := attempt + 1, attempt;
      }
    }

    /** One batch. A request for another scope or dataset is not sent, and an answer for another batch is
        refused. Success means that the response is the provider's answer to `m`. */
    method Ask(m: Message) returns (response: Response, ok: bool, ghost sends: nat)
      requires Valid() && remote.MaySend(m)
      modifies this`stream, this`slept, this`failures, remote, remote.world
      ensures Valid()
      ensures sends <= Attempts(retry) && remote.requests == old(remote.requests) + Repeat(m, sends)
      ensures Progress(old(remote.Claimed()), m, sends, ok)
      ensures m.scope != scope || m.dataset != dataset ==> !ok && sends == 0
      ensures ok ==> sends > 0 && response.batch == m.batch && stream
      ensures ok ==> remote.log == old(remote.log) + [Exchanged(m, response)]
    {
      sends := 0;
      response, ok := Response(0, 0, [], []), false;
      if m.scope != scope || m.dataset != dataset {
        assert Repeat(m, 0) == [];
        return;
      }
      var err;
      ghost var waits;
      response, err, sends, waits := Exchange(m);
      if err.Some? { return; }
      if response.batch != m.batch {
        failures := failures + 1;
        return;
      }
      ok := true;
    }

    /** One batch to validate: nothing is left with the provider, and the claim has sent nothing to apply. */
    method ValidateBatch(m: Message) returns (response: Response, ok: bool, ghost sends: nat)
      requires Valid() && m.ValidateRows?
      modifies this`stream, this`slept, this`failures, remote, remote.world
      ensures Valid() && remote.Claimed() == old(remote.Claimed())
      ensures sends <= Attempts(retry) && remote.requests == old(remote.requests) + Repeat(m, sends)
      ensures m.scope != scope || m.dataset != dataset ==> !ok && sends == 0
      ensures ok ==> response.batch == m.batch && stream
      ensures ok ==> remote.log == old(remote.log) + [Exchanged(m, response)]
    {
      response, ok, sends := Ask(m);
    }

    /** The next batch to apply. However often it is replayed, it is one batch of the claim, sent at most
        `Attempts(retry)` times; when it is answered it has arrived. */
    method ApplyBatch(m: Message) returns (response: Response, ok: bool, ghost sends: nat)
      requires Valid() && m.ApplyRows? && remote.MaySend(m) && remote.Claimed().answered == |remote.Claimed().calls|
      modifies this`stream, this`slept, this`failures, remote, remote.world
      ensures Valid()
      ensures sends <= Attempts(retry) && remote.requests == old(remote.requests) + Repeat(m, sends)
      ensures m.scope != scope || m.dataset != dataset ==> !ok && sends == 0
      ensures remote.Claimed().calls == old(remote.Claimed().calls) + if sends > 0 then [m] else []
      ensures remote.Claimed().answered == old(remote.Claimed().answered) + if ok then 1 else 0
      ensures ok ==> sends > 0 && response.batch == m.batch && stream && m in remote.world.arrived
      ensures ok ==> remote.log == old(remote.log) + [Exchanged(m, response)]
    {
      response, ok, sends := Ask(m);
      if ok { remote.ClaimArrived(m); }
    }
  }
}
