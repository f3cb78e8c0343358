/** What the batches of a job leave with a provider that may know some of their keys already, and that
    receives whatever else is under way. */
module Deliveries {
  import opened Rows
  import opened Jobs
  import opened Batching
  import opened Providers

  /** The message that applies a batch; its key is made of the job and the batch number only. */
  function ApplyMessage(scope: Scope, dataset: Text, job: Id, b: ParsedBatch): Message {
    ApplyRows(scope, dataset, job, b.number, b.rows, Key(job, if b.number < 0 then 0 else b.number))
  }

  function Messages(scope: Scope, dataset: Text, job: Id, batches: seq<ParsedBatch>): seq<Message> {
    seq(|batches|, i requires 0 <= i < |batches| => ApplyMessage(scope, dataset, job, batches[i]))
  }

  ghost predicate Sequential(batches: seq<ParsedBatch>) {
    forall i :: 0 <= i < |batches| ==> batches[i].number == i + 1
  }

  /** The message applies batch `n` of the job. */
  predicate AppliesBatch(job: Id, n: nat, m: Message) {
    m.ApplyRows? && m.job == job && m.batch == n && m.key == Key(job, n)
  }

  /** The messages apply batches 1, 2, 3, ... of the job. */
  predicate Numbered(job: Id, calls: seq<Message>) {
    forall i :: 0 <= i < |calls| ==> AppliesBatch(job, i + 1, calls[i])
  }

  lemma KeysDiffer(job: Id, a: nat, b: nat)
    requires a != b
    ensures Key(job, a) != Key(job, b)
  {
    if Key(job, a) == Key(job, b) { KeyInjective(job, a, job, b); }
  }

  lemma NumberedKeys(job: Id, calls: seq<Message>, i: nat, k: nat)
    requires Numbered(job, calls) && i < |calls| && k < |calls| && i != k
    ensures calls[i].key != calls[k].key
  {
    KeysDiffer(job, i + 1, k + 1);
  }

  /** The rows of the messages, one after the other. */
  function RowsIn(calls: seq<Message>): seq<Row> {
    if calls == [] then []
    else RowsIn(calls[..|calls| - 1]) + if calls[|calls| - 1].ApplyRows? then calls[|calls| - 1].rows else []
  }

  lemma BatchesSequential(rows: seq<Row>, size: nat)
    requires size > 0
    ensures Sequential(Batches(rows, size))
  {
    BatchesPartition(rows, size);
    var batches := Batches(rows, size);
    forall i | 0 <= i < |batches| ensures batches[i].number == i + 1 {
      assert Shaped(batches[i], i, i == |batches| - 1, size);
    }
  }

  /** The messages of batches carry their numbers and their rows. */
  lemma {:induction false} MessagesOfBatches(scope: Scope, dataset: Text, job: Id, batches: seq<ParsedBatch>)
    requires Sequential(batches)
    ensures Numbered(job, Messages(scope, dataset, job, batches))
    ensures RowsIn(Messages(scope, dataset, job, batches)) == Flatten(batches)
  {
    if batches != [] {
      var n := |batches| - 1;
      MessagesOfBatches(scope, dataset, job, batches[..n]);
      assert Messages(scope, dataset, job, batches)[..n] == Messages(scope, dataset, job, batches[..n]);
    }
  }

  lemma MessagesSnoc(scope: Scope, dataset: Text, job: Id, batches: seq<ParsedBatch>, b: ParsedBatch)
    ensures Messages(scope, dataset, job, batches + [b])
         == Messages(scope, dataset, job, batches) + [ApplyMessage(scope, dataset, job, b)]
  {
  }

  // ---- which rows the provider holds ----

  /** The rows applied under a key. */
  function RowsUnder(commits: seq<Effect>, key: string): Option<seq<Row>> {
    if commits == [] then None
    else
      var before, e := RowsUnder(commits[..|commits| - 1], key), commits[|commits| - 1];
      if before.Some? then before else if e.key == key then Some(e.rows) else None
  }

  lemma {:induction false} RowsUnderHas(commits: seq<Effect>, key: string)
    ensures RowsUnder(commits, key).Some? <==> HasKey(commits, key)
    ensures RowsUnder(commits, key).Some? ==> Effect(key, RowsUnder(commits, key).value) in commits
  {
    if commits != [] {
      var init, last := commits[..|commits| - 1], commits[|commits| - 1];
      RowsUnderHas(init, key);
      assert init + [last] == commits;
      HasKeySnoc(init, last, key);
    }
  }

  lemma RowsUnderDeliver(commits: seq<Effect>, m: Message, key: string)
    ensures RowsUnder(Deliver(commits, m), key)
         == if RowsUnder(commits, key).Some? then RowsUnder(commits, key)
            else if m.ApplyRows? && m.key == key then Some(m.rows) else None
  {
    if m.ApplyRows? {
      RowsUnderHas(commits, m.key);
      assert (commits + [Effect(m.key, m.rows)])[..|commits|] == commits;
    }
  }

  /** A used key keeps its rows, whatever is delivered. */
  lemma {:induction false} RowsStay(commits: seq<Effect>, ms: seq<Message>, key: string)
    requires HasKey(commits, key)
    ensures RowsUnder(DeliverAll(commits, ms), key) == RowsUnder(commits, key)
  {
    RowsUnderHas(commits, key);
    if ms != [] {
      RowsStay(commits, ms[..|ms| - 1], key);
      RowsUnderDeliver(DeliverAll(commits, ms[..|ms| - 1]), ms[|ms| - 1], key);
    }
  }

  /** If all deliveries under an unused key carry the same rows, these are the rows it gets. */
  lemma {:induction false} RowsAgreed(commits: seq<Effect>, ms: seq<Message>, key: string, rows: seq<Row>)
    requires !HasKey(commits, key)
    requires forall i :: 0 <= i < |ms| && ms[i].ApplyRows? && ms[i].key == key ==> ms[i].rows == rows
    ensures RowsUnder(DeliverAll(commits, ms), key) == None || RowsUnder(DeliverAll(commits, ms), key) == Some(rows)
  {
    RowsUnderHas(commits, key);
    if ms != [] {
      RowsAgreed(commits, ms[..|ms| - 1], key, rows);
      RowsUnderDeliver(DeliverAll(commits, ms[..|ms| - 1]), ms[|ms| - 1], key);
    }
  }

  // ---- the effects of a list of batches ----

  /** The effects of the messages, each under its key. */
  function EffectsOf(calls: seq<Message>): seq<Effect> {
    seq(|calls|, i requires 0 <= i < |calls| =>
      if calls[i].ApplyRows? then Effect(calls[i].key, calls[i].rows) else Effect("", []))
  }

  /** The rows of a sequence of effects. */
  function Contents(effects: seq<Effect>): seq<Row> {
    if effects == [] then [] else Contents(effects[..|effects| - 1]) + effects[|effects| - 1].rows
  }

  lemma {:induction false} EffectContents(job: Id, calls: seq<Message>)
    requires Numbered(job, calls)
    ensures Contents(EffectsOf(calls)) == RowsIn(calls)
  {
    if calls != [] {
      EffectContents(job, calls[..|calls| - 1]);
      assert EffectsOf(calls)[..|calls| - 1] == EffectsOf(calls[..|calls| - 1]);
      assert AppliesBatch(job, |calls|, calls[|calls| - 1]);
    }
  }

  lemma DistinctEffects(job: Id, calls: seq<Message>)
    requires Numbered(job, calls)
    ensures DistinctKeys(EffectsOf(calls))
  {
    forall i, k | 0 <= i < k < |calls| ensures EffectsOf(calls)[i].key != EffectsOf(calls)[k].key {
      assert AppliesBatch(job, i + 1, calls[i]) && AppliesBatch(job, k + 1, calls[k]);
      NumberedKeys(job, calls, i, k);
    }
  }

  /** The provider holds each batch under its key. */
  ghost predicate HoldsBatches(calls: seq<Message>, commits: seq<Effect>) {
    forall i :: 0 <= i < |calls| ==> calls[i].ApplyRows? && RowsUnder(commits, calls[i].key) == Some(calls[i].rows)
  }

  /** The provider holds nothing else under keys of the job. */
  ghost predicate HoldsOnly(job: Id, calls: seq<Message>, commits: seq<Effect>) {
    forall i :: 0 <= i < |commits| && KeyOf(job, commits[i].key) ==> commits[i] in EffectsOf(calls)
  }

  /** Every key of the batches has been used. */
  ghost predicate AllUsed(calls: seq<Message>, commits: seq<Effect>) {
    forall i :: 0 <= i < |calls| ==> calls[i].ApplyRows? && HasKey(commits, calls[i].key)
  }

  /** If there is nothing but the batches, and every key is used, the batches are all there. */
  lemma OnlyHolds(job: Id, calls: seq<Message>, commits: seq<Effect>)
    requires Numbered(job, calls) && HoldsOnly(job, calls, commits) && AllUsed(calls, commits)
    ensures HoldsBatches(calls, commits)
  {
    forall i | 0 <= i < |calls| ensures calls[i].ApplyRows? && RowsUnder(commits, calls[i].key) == Some(calls[i].rows) {
      assert AppliesBatch(job, i + 1, calls[i]);
      KeyIsOf(job, i + 1);
      RowsUnderHas(commits, calls[i].key);
      var rows := RowsUnder(commits, calls[i].key).value;
      var p :| 0 <= p < |commits| && commits[p] == Effect(calls[i].key, rows);
      var k :| 0 <= k < |calls| && EffectsOf(calls)[k] == commits[p];
      assert AppliesBatch(job, k + 1, calls[k]);
      if k != i { NumberedKeys(job, calls, i, k); }
    }
  }

  // ---- what has been used, and what is under way ----

  /** The batch can only end up with its own rows: its key has been used for them, or has not been used
      and nothing under way under it carries other rows. */
  ghost predicate Agrees(batch: Message, commits: seq<Effect>, underWay: seq<Message>)
    requires batch.ApplyRows?
  {
    if HasKey(commits, batch.key) then RowsUnder(commits, batch.key) == Some(batch.rows)
    else forall i :: 0 <= i < |underWay| && underWay[i].ApplyRows? && underWay[i].key == batch.key ==> underWay[i].rows == batch.rows
  }

  ghost predicate AllAgree(calls: seq<Message>, commits: seq<Effect>, underWay: seq<Message>) {
    forall i :: 0 <= i < |calls| ==> calls[i].ApplyRows? && Agrees(calls[i], commits, underWay)
  }

  /** Nothing but the batches is there under keys of the job, and nothing else can get there. */
  ghost predicate OnlyThese(job: Id, calls: seq<Message>, commits: seq<Effect>, underWay: seq<Message>) {
    && HoldsOnly(job, calls, commits)
    && forall i :: 0 <= i < |underWay| && !OtherJob(job, underWay[i]) && !HasKey(commits, underWay[i].key) ==>
         Effect(underWay[i].key, underWay[i].rows) in EffectsOf(calls)
  }

  /** The deliveries are of the batches, of what was under way, or for other jobs. */
  ghost predicate DrawnFrom(job: Id, calls: seq<Message>, underWay: seq<Message>, delivered: seq<Message>) {
    forall i :: 0 <= i < |delivered| ==> delivered[i] in calls || delivered[i] in underWay || OtherJob(job, delivered[i])
  }

  /** Whatever the order and the number of deliveries, agreement puts every batch in its place. */
  lemma AgreementHolds(job: Id, calls: seq<Message>, commits: seq<Effect>, underWay: seq<Message>, delivered: seq<Message>)
    requires Numbered(job, calls) && DrawnFrom(job, calls, underWay, delivered) && AllAgree(calls, commits, underWay)
    requires AllUsed(calls, DeliverAll(commits, delivered))
    ensures HoldsBatches(calls, DeliverAll(commits, delivered))
  {
    forall i | 0 <= i < |calls|
      ensures calls[i].ApplyRows? && RowsUnder(DeliverAll(commits, delivered), calls[i].key) == Some(calls[i].rows)
    {
      var key := calls[i].key;
      assert AppliesBatch(job, i + 1, calls[i]) && Agrees(calls[i], commits, underWay);
      RowsUnderHas(DeliverAll(commits, delivered), key);
      if HasKey(commits, key) {
        RowsStay(commits, delivered, key);
      } else {
        forall k | 0 <= k < |delivered| && delivered[k].ApplyRows? && delivered[k].key == key
          ensures delivered[k].rows == calls[i].rows
        {
          SameKeySameRows(job, calls, underWay, delivered[k], i);
        }
        RowsAgreed(commits, delivered, key, calls[i].rows);
      }
    }
  }

  lemma SameKeySameRows(job: Id, calls: seq<Message>, underWay: seq<Message>, m: Message, i: nat)
    requires Numbered(job, calls) && i < |calls| && AppliesBatch(job, i + 1, calls[i])
    requires m.ApplyRows? && m.key == calls[i].key && (m in calls || m in underWay || OtherJob(job, m))
    requires forall k :: 0 <= k < |underWay| && underWay[k].ApplyRows? && underWay[k].key == calls[i].key ==>
               underWay[k].rows == calls[i].rows
    ensures m.rows == calls[i].rows
  {
    KeyIsOf(job, i + 1);
    if m in calls {
      var k :| 0 <= k < |calls| && calls[k] == m;
      if k != i { NumberedKeys(job, calls, i, k); }
    }
  }

  /** Nothing else gets there, either. */
  lemma {:induction false} OnlyTheseHold(job: Id, calls: seq<Message>, commits: seq<Effect>, underWay: seq<Message>,
                                         delivered: seq<Message>)
    requires Numbered(job, calls) && DrawnFrom(job, calls, underWay, delivered) && OnlyThese(job, calls, commits, underWay)
    ensures HoldsOnly(job, calls, DeliverAll(commits, delivered))
  {
    if delivered != [] {
      var init, m := delivered[..|delivered| - 1], delivered[|delivered| - 1];
      OnlyTheseHold(job, calls, commits, underWay, init);
      if !OtherJob(job, m) {
        KeysStay(commits, init, m.key);
        if !HasKey(commits, m.key) { NewEffect(job, calls, commits, underWay, m); }
      }
    }
  }

  lemma NewEffect(job: Id, calls: seq<Message>, commits: seq<Effect>, underWay: seq<Message>, m: Message)
    requires Numbered(job, calls) && OnlyThese(job, calls, commits, underWay)
    requires (m in calls || m in underWay) && !OtherJob(job, m) && !HasKey(commits, m.key)
    ensures Effect(m.key, m.rows) in EffectsOf(calls)
  {
    if m in calls {
      var k :| 0 <= k < |calls| && calls[k] == m;
      assert EffectsOf(calls)[k] == Effect(m.key, m.rows);
    }
  }

  /** An effect stays, whatever is delivered. */
  lemma {:induction false} EffectStays(commits: seq<Effect>, ms: seq<Message>, e: Effect)
    requires e in commits
    ensures e in DeliverAll(commits, ms)
  {
    if ms != [] { EffectStays(commits, ms[..|ms| - 1], e); }
  }

  /** A batch of one job is foreign to every other. */
  lemma BatchIsForeign(job: Id, other: Id, n: nat, m: Message)
    requires AppliesBatch(other, n, m) && other != job
    ensures OtherJob(job, m)
  {
    forall k: nat ensures Key(other, n) != Key(job, k) {
      if Key(other, n) == Key(job, k) { KeyInjective(other, n, job, k); }
    }
  }

  lemma BatchIsOwn(job: Id, n: nat, m: Message)
    requires AppliesBatch(job, n, m)
    ensures KeyOf(job, m.key) && !OtherJob(job, m)
  {
    KeyIsOf(job, n);
  }

  /** Among the effects of the first batches are the keys of these and of no other. */
  lemma KeysOfFirst(job: Id, calls: seq<Message>, a: nat, k: nat)
    requires Numbered(job, calls) && a <= |calls| && k < |calls|
    ensures calls[k].ApplyRows? && (HasKey(EffectsOf(calls[..a]), calls[k].key) <==> k < a)
  {
    assert AppliesBatch(job, k + 1, calls[k]);
    if k < a {
      assert EffectsOf(calls[..a])[k].key == calls[k].key;
    } else {
      forall i | 0 <= i < a ensures EffectsOf(calls[..a])[i].key != calls[k].key {
        assert AppliesBatch(job, i + 1, calls[i]);
        NumberedKeys(job, calls, i, k);
      }
    }
  }

  /** One more delivery of the batches sent so far. */
  lemma NextBatchArrives(job: Id, calls: seq<Message>, a: nat, k: nat)
    requires Numbered(job, calls) && a <= |calls| <= a + 1 && k < |calls|
    ensures Deliver(EffectsOf(calls), calls[k]) == EffectsOf(calls)
    ensures Deliver(EffectsOf(calls[..a]), calls[k]) == EffectsOf(if k < a then calls[..a] else calls)
  {
    KeysOfFirst(job, calls, |calls|, k);
    KeysOfFirst(job, calls, a, k);
    assert calls[..|calls|] == calls;
    if k >= a { assert EffectsOf(calls) == EffectsOf(calls[..a]) + [Effect(calls[k].key, calls[k].rows)]; }
  }
}
