/** The provider behind its network: the messages it is sent, the effects it makes durable under
    idempotency keys, and what duplicate and late deliveries do to them. */
module Providers {
  import opened Rows
  import opened Jobs
  import opened Hiding

  datatype Issue = Issue(row: int, column: Text, code: Text, message: Text)

  datatype Message =
    | ValidateRows(scope: Scope, dataset: Text, job: Id, batch: int, first: int, rows: seq<Row>)
    | ApplyRows(scope: Scope, dataset: Text, job: Id, batch: int, rows: seq<Row>, key: string)

  datatype Response = Response(batch: int, applied: int, issues: seq<Issue>, normalized: seq<Row>)

  datatype Failure = StreamEnded | Unavailable | ResourceExhausted | DeadlineExceeded | OtherStatus | ContextDone

  // ---- idempotency keys ----

  function Digit(d: int): char
    requires 0 <= d < 10
  {
    "0123456789"[d]
  }

  function Decimal(n: nat): (s: string)
    ensures |s| > 0
    ensures forall i :: 0 <= i < |s| ==> s[i] != ':'
  {
    if n < 10 then [Digit(n)] else Decimal(n / 10) + [Digit(n % 10)]
  }

  /** The idempotency key of a batch: the job id, a colon and the batch number. */
  function Key(job: Id, batch: nat): string {
    job.chars + ":" + Decimal(batch)
  }

  lemma {:induction false} DecimalInjective(a: nat, b: nat)
    requires Decimal(a) == Decimal(b)
    ensures a == b
  {
    var x, y := Decimal(a), Decimal(b);
    assert x[|x| - 1] == Digit(a % 10) && y[|y| - 1] == Digit(b % 10);
    if a >= 10 && b >= 10 {
      assert x[..|x| - 1] == Decimal(a / 10) && y[..|y| - 1] == Decimal(b / 10);
      DecimalInjective(a / 10, b / 10);
    }
  }

  /** Different batches, and different jobs, never share a key. */
  lemma KeyInjective(job: Id, batch: nat, job': Id, batch': nat)
    requires Key(job, batch) == Key(job', batch')
    ensures job == job' && batch == batch'
  {
    var k, d, d' := Key(job, batch), Decimal(batch), Decimal(batch');
    var n, n' := |job.chars|, |job'.chars|;
    assert k[n] == ':' && k[n'] == ':';
    assert k[n + 1..] == d && k[n' + 1..] == d';
    forall i | n < i < |k| ensures k[i] != ':' { assert k[i] == d[i - n - 1]; }
    forall i | n' < i < |k| ensures k[i] != ':' { assert k[i] == d'[i - n' - 1]; }
    assert n == n';
    assert k[..n] == job.chars && k[..n'] == job'.chars;
    DecimalInjective(batch, batch');
  }

  /** The key of some batch of the job. */
  ghost predicate KeyOf(job: Id, key: string) {
    exists n: nat {:trigger Asked(n)} :: Asked(n) && key == Key(job, n)
  }

  lemma KeyIsOf(job: Id, batch: nat)
    ensures KeyOf(job, Key(job, batch))
  {
    assert Asked(batch);
  }

  // ---- the provider's durable idempotency boundary ----

  /** Rows applied once, under the idempotency key of their batch. */
  datatype Effect = Effect(key: string, rows: seq<Row>)

  predicate HasKey(commits: seq<Effect>, key: string) {
    exists i :: 0 <= i < |commits| && commits[i].key == key
  }

  /** What the provider makes of one more delivery, duplicate or not. */
  function Deliver(commits: seq<Effect>, m: Message): seq<Effect> {
    if m.ApplyRows? && !HasKey(commits, m.key) then commits + [Effect(m.key, m.rows)] else commits
  }

  function DeliverAll(commits: seq<Effect>, ms: seq<Message>): seq<Effect> {
    if ms == [] then commits else Deliver(DeliverAll(commits, ms[..|ms| - 1]), ms[|ms| - 1])
  }

  lemma DeliverSnoc(commits: seq<Effect>, ms: seq<Message>, m: Message)
    ensures DeliverAll(commits, ms + [m]) == Deliver(DeliverAll(commits, ms), m)
  {
    assert (ms + [m])[..|ms|] == ms;
  }

  lemma {:induction false} DeliverAllConcat(commits: seq<Effect>, a: seq<Message>, b: seq<Message>)
    ensures DeliverAll(commits, a + b) == DeliverAll(DeliverAll(commits, a), b)
  {
    if b == [] {
      assert a + b == a;
    } else {
      assert (a + b)[..|a + b| - 1] == a + b[..|b| - 1];
      DeliverAllConcat(commits, a, b[..|b| - 1]);
    }
  }

  /** The effects under keys of the job. */
  ghost function Own(job: Id, commits: seq<Effect>): seq<Effect> {
    if commits == [] then []
    else Own(job, commits[..|commits| - 1]) + if KeyOf(job, commits[|commits| - 1].key) then [commits[|commits| - 1]] else []
  }

  /** A message of another job, or one without effect. */
  ghost predicate OtherJob(job: Id, m: Message) {
    m.ApplyRows? ==> !KeyOf(job, m.key)
  }

  lemma HasKeySnoc(commits: seq<Effect>, e: Effect, key: string)
    ensures HasKey(commits + [e], key) <==> HasKey(commits, key) || e.key == key
  {
    if HasKey(commits, key) {
      var i :| 0 <= i < |commits| && commits[i].key == key;
      assert (commits + [e])[i].key == key;
    }
    if e.key == key { assert (commits + [e])[|commits|].key == key; }
  }

  lemma OwnSnoc(job: Id, commits: seq<Effect>, e: Effect)
    ensures Own(job, commits + [e]) == Own(job, commits) + if KeyOf(job, e.key) then [e] else []
  {
    assert (commits + [e])[..|commits|] == commits;
  }

  /** A key of the job is used exactly if it is used among the job's own effects. */
  lemma {:induction false} OwnHasKey(job: Id, commits: seq<Effect>, key: string)
    requires KeyOf(job, key)
    ensures HasKey(commits, key) <==> HasKey(Own(job, commits), key)
  {
    if commits != [] {
      var init, last := commits[..|commits| - 1], commits[|commits| - 1];
      OwnHasKey(job, init, key);
      assert init + [last] == commits;
      HasKeySnoc(init, last, key);
      HasKeySnoc(Own(job, init), last, key);
      assert Own(job, init) + [] == Own(job, init);
    }
  }

  /** The job's own effects are those under its keys. */
  lemma {:induction false} OwnMember(job: Id, commits: seq<Effect>, e: Effect)
    ensures e in Own(job, commits) <==> e in commits && KeyOf(job, e.key)
  {
    if commits != [] {
      var init, last := commits[..|commits| - 1], commits[|commits| - 1];
      OwnMember(job, init, e);
      assert commits == init + [last];
    }
  }

  /** Deliveries for other jobs leave the job's own effects alone. */
  lemma OwnDeliver(job: Id, commits: seq<Effect>, m: Message)
    ensures Own(job, Deliver(commits, m)) == if OtherJob(job, m) then Own(job, commits) else Deliver(Own(job, commits), m)
  {
    if m.ApplyRows? {
      OwnSnoc(job, commits, Effect(m.key, m.rows));
      if KeyOf(job, m.key) { OwnHasKey(job, commits, m.key); }
    }
  }

  lemma DeliverKeeps(commits: seq<Effect>, m: Message, key: string)
    ensures HasKey(commits, key) ==> HasKey(Deliver(commits, m), key)
    ensures m.ApplyRows? ==> HasKey(Deliver(commits, m), m.key)
  {
    if m.ApplyRows? {
      HasKeySnoc(commits, Effect(m.key, m.rows), key);
      HasKeySnoc(commits, Effect(m.key, m.rows), m.key);
    }
  }

  /** Deliveries for other jobs, and of messages whose key is used, change nothing for the job. */
  lemma {:induction false} LateDeliveriesAreHarmless(job: Id, commits: seq<Effect>, ms: seq<Message>)
    requires forall i :: 0 <= i < |ms| ==> OtherJob(job, ms[i]) || HasKey(commits, ms[i].key)
    ensures Own(job, DeliverAll(commits, ms)) == Own(job, commits)
  {
    if ms != [] {
      var before, last := DeliverAll(commits, ms[..|ms| - 1]), ms[|ms| - 1];
      LateDeliveriesAreHarmless(job, commits, ms[..|ms| - 1]);
      OwnDeliver(job, before, last);
      if !OtherJob(job, last) { KeysStay(commits, ms[..|ms| - 1], last.key); }
    }
  }

  /** A key, once used, stays used. */
  lemma {:induction false} KeysStay(commits: seq<Effect>, ms: seq<Message>, key: string)
    ensures HasKey(commits, key) ==> HasKey(DeliverAll(commits, ms), key)
  {
    if ms != [] {
      KeysStay(commits, ms[..|ms| - 1], key);
      DeliverKeeps(DeliverAll(commits, ms[..|ms| - 1]), ms[|ms| - 1], key);
    }
  }

  /** What has arrived has its key used. */
  lemma {:induction false} ArrivedIsUsed(commits: seq<Effect>, ms: seq<Message>, m: Message)
    requires m in ms && m.ApplyRows?
    ensures HasKey(DeliverAll(commits, ms), m.key)
  {
    var init, last := ms[..|ms| - 1], ms[|ms| - 1];
    if m != last {
      assert m in init;
      ArrivedIsUsed(commits, init, m);
    }
    DeliverKeeps(DeliverAll(commits, init), last, m.key);
  }

  ghost predicate DistinctKeys(effects: seq<Effect>) {
    forall i, k :: 0 <= i < k < |effects| ==> effects[i].key != effects[k].key
  }

  /** A key never gets a second effect. */
  lemma {:induction false} KeysStayDistinct(commits: seq<Effect>, ms: seq<Message>)
    requires DistinctKeys(commits)
    ensures DistinctKeys(DeliverAll(commits, ms))
  {
    if ms != [] { KeysStayDistinct(commits, ms[..|ms| - 1]); }
  }

  /** A request and the answer that came back for it. */
  datatype Exchanged = Exchanged(message: Message, response: Response)
}
