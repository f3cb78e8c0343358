/** The import-job protocol: users, workers, event delivery and the cleaner as steps on one shared
    state, each step a committed transaction or a single storage access. Any actor may take any
    step at any time, and a step whose guard fails leaves the state alone. */
module Protocol {
  import opened Rows
  import opened Jobs
  import opened Histories
  import opened Providers
  import opened Deliveries

  type History = seq<Entry<Row>>

  datatype Event = Event(change: Change, job: Job)

  datatype Kind = Validation | Apply

  /** What a validation worker has found out when it uploads the normalized file. */
  datatype Report = Report(counts: Counts, normalized: seq<Row>)

  predicate Faithful(r: Report) {
    Balanced(r.counts.total, r.counts.valid, r.counts.invalid) && r.counts.valid == |r.normalized|
  }

  /** A worker that has claimed a job: `version` is the row version its claim created, `report`
      what it stored (validation), `input` what it loaded (apply), `calls` the batches it has sent to
      the provider, of which the first `answered` have been answered. */
  datatype Claim = Claim(id: Id, scope: Scope, kind: Kind, version: int, key: ObjectKey,
                         report: Option<Report>, input: Option<seq<Row>>, calls: seq<Message>, answered: nat, open: bool)

  function NewClaim(id: Id, scope: Scope, kind: Kind, version: int, key: ObjectKey): Claim {
    Claim(id, scope, kind, version, key, None, None, [], 0, true)
  }

  /** `claims` and `history` record the past; no step is guarded by `history`, except that a
      job id is never drawn twice. `sent` is every message ever sent to a provider, which may arrive at
      any time and any number of times; `arrived` is what has arrived, in order. */
  datatype State = State(
    rows: map<Id, Job>,
    outbox: seq<Event>,
    objects: map<ObjectKey, seq<Row>>,
    claims: seq<Claim>,
    history: map<Id, History>,
    sent: seq<Message>,
    arrived: seq<Message>)

  datatype Step =
    | CreateStep(id: Id, scope: Scope, dataset: Text, service: Text, format: Text,
                 key: Text, expires: Time, now: Time, actor: Text)
    | CompleteUploadStep(id: Id, scope: Scope, expected: int, bytes: int, checksum: Text, now: Time, actor: Text)
    | CancelStep(id: Id, scope: Scope, expected: int, now: Time, actor: Text)
    | RetryStep(id: Id, scope: Scope, expected: int, key: Text, expires: Time, now: Time, actor: Text)
    | ConfirmStep(id: Id, scope: Scope, expected: int, key: Text, now: Time, actor: Text)
    | DeliverStep(event: nat, now: Time)
    | StoreNormalizedStep(claim: nat, report: Report)
    | FinishValidationStep(claim: nat, expires: Time, now: Time)
    | LoadNormalizedStep(claim: nat)
    | SendStep(claim: nat, request: Message)
    | AnswerStep(claim: nat)
    | ArriveStep(index: nat)
    | FinishApplyStep(claim: nat, expires: Time, now: Time)
    | FailStep(claim: nat, code: Text, message: Text, expires: Time, now: Time)
    | AbandonStep(claim: nat)
    | DeleteObjectStep(object: ObjectKey)
    | ExpireStep(id: Id, scope: Scope, listed: Status, now: Time)
    | PurgeStep(id: Id, scope: Scope, version: int, before: Time)

  const INIT := State(map[], [], map[], [], map[], [], [])

  /** What a finished validation announces. */
  function ReportChange(r: Report): Change {
    if r.counts.invalid > 0 then ValidationFailedChange else ValidatedChange
  }

  function Find(s: State, scope: Scope, id: Id): Option<Job> {
    if id in s.rows && s.rows[id].scope == scope then Some(s.rows[id]) else None
  }

  /** The unique index on (tenant, application, idempotency_key) admits `key` for job `id`. */
  predicate KeyFree(s: State, scope: Scope, key: Text, id: Id) {
    forall other :: other in s.rows && other != id ==>
      !(s.rows[other].scope == scope && s.rows[other].idempotencyKey == key)
  }

  function Past(s: State, id: Id): History {
    if id in s.history then s.history[id] else []
  }

  /** One transaction: the row, its outbox event if the change is announced, and the record of both. */
  function Commit(s: State, change: Change, j: Job, rows: seq<Row>): State {
    s.(rows := s.rows[j.id := j],
       outbox := if IsAnnounced(change) then s.outbox + [Event(change, j)] else s.outbox,
       history := s.history[j.id := Past(s, j.id) + [Entry(change, j, rows)]])
  }

  function CommitIf(s: State, change: Change, updated: Option<Job>, rows: seq<Row>): State {
    match updated
    case None => s
    case Some(j) => Commit(s, change, j, rows)
  }

  function Close(s: State, c: nat): State
    requires c < |s.claims|
  {
    s.(claims := s.claims[c := s.claims[c].(open := false)])
  }

  predicate Running(s: State, c: nat, kind: Kind) {
    c < |s.claims| && s.claims[c].open && s.claims[c].kind == kind
  }

  /** What the provider holds. */
  function Commits(s: State): seq<Effect> { DeliverAll([], s.arrived) }

  /** The worker may send this message: the next batch of its file when everything before has been
      answered, or the last one again. */
  predicate Sendable(k: Claim, m: Message) {
    if k.answered == |k.calls| then AppliesBatch(k.id, |k.calls| + 1, m)
    else k.calls != [] && m == k.calls[|k.calls| - 1]
  }

  /** The claim after sending. */
  function Sent(k: Claim, m: Message): Claim {
    if k.answered == |k.calls| then k.(calls := k.calls + [m]) else k
  }

  /** Every batch of the file has been sent and answered. */
  predicate AllAnswered(k: Claim) {
    k.input.Some? && k.answered == |k.calls| && RowsIn(k.calls) == k.input.value
  }

  function ClaimStatus(kind: Kind): Status {
    match kind case Validation => Validating case Apply => Applying
  }

  function ClaimChange(kind: Kind): Change {
    match kind case Validation => ValidationClaimed case Apply => ApplyClaimed
  }

  // ---- what each kind of step makes of the row it addresses ----

  function Completing(s: State, id: Id, scope: Scope, expected: int, bytes: int, checksum: Text, now: Time, actor: Text): Option<Job> {
    match Find(s, scope, id) case None => None case Some(j) => CompleteUpload(j, expected, bytes, checksum, now, actor)
  }

  function Canceling(s: State, id: Id, scope: Scope, expected: int, now: Time, actor: Text): Option<Job> {
    match Find(s, scope, id) case None => None case Some(j) => Cancel(j, expected, now, actor)
  }

  function Retrying(s: State, id: Id, scope: Scope, expected: int, key: Text, expires: Time, now: Time, actor: Text): Option<Job> {
    match Find(s, scope, id)
    case None => None
    case Some(j) => if KeyFree(s, scope, key, id) then Retry(j, expected, key, expires, now, actor) else None
  }

  function Confirming(s: State, id: Id, scope: Scope, expected: int, key: Text, now: Time, actor: Text): Option<Job> {
    match Find(s, scope, id)
    case None => None
    case Some(j) => if key == EMPTY || j.confirmKey == key then None else Confirm(j, expected, key, now, actor)
  }

  function Claiming(s: State, id: Id, scope: Scope, kind: Kind, now: Time): Option<Job> {
    match Find(s, scope, id)
    case None => None
    case Some(j) => Jobs.Claim(j, if kind == Validation then Queued else ApplyQueued, ClaimStatus(kind), now)
  }

  function FinishingValidation(s: State, c: Claim, r: Report, expires: Time, now: Time): Option<Job> {
    match Find(s, c.scope, c.id) case None => None case Some(j) => FinishValidation(j, r.counts, expires, now)
  }

  function FinishingApply(s: State, c: Claim, rows: seq<Row>, expires: Time, now: Time): Option<Job> {
    match Find(s, c.scope, c.id) case None => None case Some(j) => FinishApply(j, |rows|, expires, now)
  }

  function Failing(s: State, c: Claim, code: Text, message: Text, expires: Time, now: Time): Option<Job> {
    match Find(s, c.scope, c.id)
    case None => None
    case Some(j) => Fail(j, ClaimStatus(c.kind), code, message, expires, now)
  }

  function Expiring(s: State, id: Id, scope: Scope, listed: Status, now: Time): Option<Job> {
    match Find(s, scope, id) case None => None case Some(j) => if Sweepable(listed) then Expire(j, listed, now) else None
  }

  predicate Purgeable(s: State, id: Id, scope: Scope, listed: int, before: Time) {
    match Find(s, scope, id)
    case None => false
    case Some(j) => j.version == listed && j.status == Expired && j.updatedAt < before
  }

  function TakeClaim(s: State, id: Id, scope: Scope, kind: Kind, now: Time): State {
    match Claiming(s, id, scope, kind, now)
    case None => s
    case Some(j) =>
      var s' := Commit(s, ClaimChange(kind), j, []);
      s'.(claims := s'.claims + [NewClaim(id, scope, kind, j.version, j.normalizedKey)])
  }

  function Next(s: State, step: Step): State {
    match step
    case CreateStep(id, scope, dataset, service, format, key, expires, now, actor) =>
      if id in s.history || !KeyFree(s, scope, key, id) then s
      else Commit(s, CreatedChange, NewJob(id, scope, dataset, service, format, key, expires, now, actor), [])
    case CompleteUploadStep(id, scope, expected, bytes, checksum, now, actor) =>
      CommitIf(s, RequestedChange, Completing(s, id, scope, expected, bytes, checksum, now, actor), [])
    case CancelStep(id, scope, expected, now, actor) =>
      CommitIf(s, CanceledChange, Canceling(s, id, scope, expected, now, actor), [])
    case RetryStep(id, scope, expected, key, expires, now, actor) =>
      CommitIf(s, RetriedChange, Retrying(s, id, scope, expected, key, expires, now, actor), [])
    case ConfirmStep(id, scope, expected, key, now, actor) =>
      CommitIf(s, ApplyRequestedChange, Confirming(s, id, scope, expected, key, now, actor), [])
    case DeliverStep(event, now) =>
      if event >= |s.outbox| then s
      else
        var e := s.outbox[event];
        if e.change == RequestedChange then TakeClaim(s, e.job.id, e.job.scope, Validation, now)
        else if e.change == ApplyRequestedChange then TakeClaim(s, e.job.id, e.job.scope, Apply, now)
        else s
    case StoreNormalizedStep(c, report) =>
      if Running(s, c, Validation) && s.claims[c].report.None? && Faithful(report) then
        s.(objects := s.objects[s.claims[c].key := report.normalized],
           claims := s.claims[c := s.claims[c].(report := Some(report))])
      else s
    case FinishValidationStep(c, expires, now) =>
      if Running(s, c, Validation) && s.claims[c].report.Some? then
        var r := s.claims[c].report.value;
        var change := ReportChange(r);
        CommitIf(Close(s, c), change, FinishingValidation(s, s.claims[c], r, expires, now), r.normalized)
      else s
    case LoadNormalizedStep(c) =>
      if Running(s, c, Apply) && s.claims[c].input.None? && s.claims[c].key in s.objects then
        s.(claims := s.claims[c := s.claims[c].(input := Some(s.objects[s.claims[c].key]))])
      else s
    case SendStep(c, m) =>
      if Running(s, c, Apply) && s.claims[c].input.Some? && Sendable(s.claims[c], m) then
        s.(sent := s.sent + [m], claims := s.claims[c := Sent(s.claims[c], m)])
      else s
    case AnswerStep(c) =>
      if Running(s, c, Apply) && s.claims[c].answered < |s.claims[c].calls|
         && s.claims[c].calls[s.claims[c].answered] in s.arrived then
        s.(claims := s.claims[c := s.claims[c].(answered := s.claims[c].answered + 1)])
      else s
    case ArriveStep(i) =>
      if i < |s.sent| then s.(arrived := s.arrived + [s.sent[i]]) else s
    case FinishApplyStep(c, expires, now) =>
      if Running(s, c, Apply) && AllAnswered(s.claims[c]) then
        var rows := s.claims[c].input.value;
        CommitIf(Close(s, c), SucceededChange, FinishingApply(s, s.claims[c], rows, expires, now), rows)
      else s
    case FailStep(c, code, message, expires, now) =>
      if c < |s.claims| && s.claims[c].open then
        CommitIf(Close(s, c), FailedChange, Failing(s, s.claims[c], code, message, expires, now), [])
      else s
    case AbandonStep(c) =>
      if c < |s.claims| then Close(s, c) else s
    case DeleteObjectStep(name) => s.(objects := s.objects - {name})
    case ExpireStep(id, scope, listed, now) =>
      CommitIf(s, ExpiredChange, Expiring(s, id, scope, listed, now), [])
    case PurgeStep(id, scope, listed, before) =>
      if Purgeable(s, id, scope, listed, before) then s.(rows := s.rows - {id}) else s
  }

  function Run(s: State, steps: seq<Step>): State {
    if steps == [] then s
    else Next(Run(s, steps[..|steps| - 1]), steps[|steps| - 1])
  }

  lemma {:induction false} RunConcat(s: State, a: seq<Step>, b: seq<Step>)
    ensures Run(s, a + b) == Run(Run(s, a), b)
  {
    if b == [] {
      assert a + b == a;
    } else {
      assert (a + b)[..|a + b| - 1] == a + b[..|b| - 1];
      RunConcat(s, a, b[..|b| - 1]);
    }
  }

  // ---- the invariant ----

  function EventsOf(outbox: seq<Event>, id: Id): nat {
    if outbox == [] then 0
    else EventsOf(outbox[..|outbox| - 1], id) + if outbox[|outbox| - 1].job.id == id then 1 else 0
  }

  function Last(h: History): Job
    requires h != []
  {
    h[|h| - 1].job
  }

  /** A job that ever existed has a lawful history, its row is the end of that history, and it has
      one outbox event for each announced change. */
  ghost predicate JobInv(s: State, id: Id) {
    && (id in s.history ==> Chain(s.history[id]) && s.history[id][0].job.id == id)
    && (id in s.rows ==> id in s.history && s.history[id] != [] && s.rows[id] == Last(s.history[id]) && s.rows[id].id == id)
    && EventsOf(s.outbox, id) == Count(Past(s, id), IsAnnounced)
  }

  /** An event is the snapshot its own change left behind. */
  ghost predicate EventInv(s: State, i: int)
    requires 0 <= i < |s.outbox|
  {
    var e := s.outbox[i];
    && e.job.id in s.history
    && 1 <= e.job.version <= |s.history[e.job.id]|
    && IsAnnounced(e.change)
    && s.history[e.job.id][e.job.version - 1].change == e.change
    && s.history[e.job.id][e.job.version - 1].job == e.job
  }

  /** The events of one job are written in version order. */
  ghost predicate EventOrder(s: State, i: int, j: int)
    requires 0 <= i < j < |s.outbox|
  {
    s.outbox[i].job.id == s.outbox[j].job.id ==> s.outbox[i].job.version < s.outbox[j].job.version
  }

  /** A claim is one recorded change of its job. */
  ghost predicate ClaimInv(s: State, i: int)
    requires 0 <= i < |s.claims|
  {
    var c := s.claims[i];
    && c.id in s.history
    && 1 <= c.version <= |s.history[c.id]|
    && s.history[c.id][c.version - 1].change == ClaimChange(c.kind)
    && c.scope == s.history[c.id][0].job.scope
    && c.key == NormalizedObject(c.scope, c.id)
    && (c.report.Some? ==> Faithful(c.report.value))
  }

  ghost predicate ClaimOrder(s: State, i: int, j: int)
    requires 0 <= i < j < |s.claims|
  {
    s.claims[i].id == s.claims[j].id ==> s.claims[i].version < s.claims[j].version
  }

  /** (tenant, application, idempotency_key) is unique. */
  ghost predicate KeyInv(s: State, a: Id, b: Id)
    requires a in s.rows && b in s.rows
  {
    a != b ==> !(s.rows[a].scope == s.rows[b].scope && s.rows[a].idempotencyKey == s.rows[b].idempotencyKey)
  }

  ghost predicate JobsInv(s: State) { forall id :: JobInv(s, id) }

  ghost predicate OutboxInv(s: State) {
    && (forall i :: 0 <= i < |s.outbox| ==> EventInv(s, i))
    && (forall i, j :: 0 <= i < j < |s.outbox| ==> EventOrder(s, i, j))
  }

  ghost predicate ClaimsInv(s: State) {
    && (forall i :: 0 <= i < |s.claims| ==> ClaimInv(s, i))
    && (forall i, j :: 0 <= i < j < |s.claims| ==> ClaimOrder(s, i, j))
  }

  ghost predicate KeysUnique(s: State) {
    forall a, b :: a in s.rows && b in s.rows ==> KeyInv(s, a, b)
  }

  ghost predicate Inv(s: State) {
    JobsInv(s) && OutboxInv(s) && KeysUnique(s) && ClaimsInv(s)
  }

  // ---- every step keeps it ----

  /** A change that may be committed in `s`: a new job, or a legal successor of a present row. */
  ghost predicate Admissible(s: State, change: Change, j: Job) {
    && KeyFree(s, j.scope, j.idempotencyKey, j.id)
    && (if change == CreatedChange then j.id !in s.history && Begins(j)
        else j.id in s.rows && Legal(s.rows[j.id], change, j))
  }

  /** The history of the job after one more change. */
  lemma HistoryGrows(s: State, change: Change, j: Job, rows: seq<Row>)
    requires JobInv(s, j.id) && Admissible(s, change, j)
    ensures Chain(Past(s, j.id) + [Entry(change, j, rows)])
    ensures (Past(s, j.id) + [Entry(change, j, rows)])[0].job.id == j.id
    ensures |Past(s, j.id)| == j.version - 1
  {
    if change == CreatedChange {
      assert Past(s, j.id) == [];
    } else {
      var h := s.history[j.id];
      VersionIsPosition(h, |h| - 1);
      ChainSnoc(h, Entry(change, j, rows));
    }
  }

  lemma EventsSnoc(outbox: seq<Event>, e: Event, id: Id)
    ensures EventsOf(outbox + [e], id) == EventsOf(outbox, id) + if e.job.id == id then 1 else 0
  {
    assert (outbox + [e])[..|outbox|] == outbox;
  }

  /** One more event for the committed job if its change is announced, none for the others. */
  lemma CommitCounts(s: State, change: Change, j: Job, rows: seq<Row>, id: Id)
    requires EventsOf(s.outbox, id) == Count(Past(s, id), IsAnnounced)
    ensures EventsOf(Commit(s, change, j, rows).outbox, id) == Count(Past(Commit(s, change, j, rows), id), IsAnnounced)
  {
    EventsSnoc(s.outbox, Event(change, j), id);
    CountSnoc(Past(s, j.id), Entry(change, j, rows), IsAnnounced);
  }

  lemma CommitKeepsJobs(s: State, change: Change, j: Job, rows: seq<Row>)
    requires JobsInv(s) && Admissible(s, change, j)
    ensures JobsInv(Commit(s, change, j, rows))
  {
    var s' := Commit(s, change, j, rows);
    assert JobInv(s, j.id);
    HistoryGrows(s, change, j, rows);
    forall id ensures JobInv(s', id) {
      assert JobInv(s, id);
      CommitCounts(s, change, j, rows, id);
      if id != j.id {
        assert id in s'.history ==> s'.history[id] == s.history[id];
        assert id in s'.rows ==> s'.rows[id] == s.rows[id];
      } else {
        assert s'.history[id] == Past(s, id) + [Entry(change, j, rows)];
      }
    }
  }

  lemma CommitKeepsEvent(s: State, change: Change, j: Job, rows: seq<Row>, i: nat)
    requires JobInv(s, j.id) && Admissible(s, change, j) && i < |Commit(s, change, j, rows).outbox|
    requires i < |s.outbox| ==> EventInv(s, i)
    ensures EventInv(Commit(s, change, j, rows), i)
  {
    HistoryGrows(s, change, j, rows);
    var s' := Commit(s, change, j, rows);
    assert s'.history[j.id] == Past(s, j.id) + [Entry(change, j, rows)];
    if i < |s.outbox| { assert s'.outbox[i] == s.outbox[i]; } else { assert s'.outbox[i] == Event(change, j); }
  }

  lemma CommitKeepsOrder(s: State, change: Change, j: Job, rows: seq<Row>, i: nat, k: nat)
    requires JobInv(s, j.id) && Admissible(s, change, j) && i < k < |Commit(s, change, j, rows).outbox|
    requires EventInv(s, i) && (k < |s.outbox| ==> EventOrder(s, i, k))
    ensures EventOrder(Commit(s, change, j, rows), i, k)
  {
    HistoryGrows(s, change, j, rows);
  }

  lemma CommitKeepsOutbox(s: State, change: Change, j: Job, rows: seq<Row>)
    requires JobsInv(s) && OutboxInv(s) && Admissible(s, change, j)
    ensures OutboxInv(Commit(s, change, j, rows))
  {
    var s' := Commit(s, change, j, rows);
    assert JobInv(s, j.id);
    forall i | 0 <= i < |s'.outbox| ensures EventInv(s', i) {
      assert i < |s.outbox| ==> EventInv(s, i);
      CommitKeepsEvent(s, change, j, rows, i);
    }
    forall i, k | 0 <= i < k < |s'.outbox| ensures EventOrder(s', i, k) {
      assert EventInv(s, i) && (k < |s.outbox| ==> EventOrder(s, i, k));
      CommitKeepsOrder(s, change, j, rows, i, k);
    }
  }

  lemma CommitKeepsClaim(s: State, change: Change, j: Job, rows: seq<Row>, c: nat)
    requires JobInv(s, j.id) && Admissible(s, change, j) && c < |s.claims| && ClaimInv(s, c)
    ensures ClaimInv(Commit(s, change, j, rows), c)
    ensures s.claims[c].id == j.id ==> s.claims[c].version < j.version
  {
    HistoryGrows(s, change, j, rows);
  }

  lemma CommitKeepsClaims(s: State, change: Change, j: Job, rows: seq<Row>)
    requires JobsInv(s) && ClaimsInv(s) && Admissible(s, change, j)
    ensures ClaimsInv(Commit(s, change, j, rows))
    ensures forall c :: 0 <= c < |s.claims| && s.claims[c].id == j.id ==> s.claims[c].version < j.version
  {
    var s' := Commit(s, change, j, rows);
    assert JobInv(s, j.id);
    forall c | 0 <= c < |s.claims|
      ensures ClaimInv(s', c)
      ensures s.claims[c].id == j.id ==> s.claims[c].version < j.version
    {
      assert ClaimInv(s, c);
      CommitKeepsClaim(s, change, j, rows, c);
    }
    forall c, d | 0 <= c < d < |s'.claims| ensures ClaimOrder(s', c, d) { assert ClaimOrder(s, c, d); }
  }

  lemma CommitKeepsKeys(s: State, change: Change, j: Job, rows: seq<Row>)
    requires KeysUnique(s) && Admissible(s, change, j)
    ensures KeysUnique(Commit(s, change, j, rows))
  {
    var s' := Commit(s, change, j, rows);
    forall a, b | a in s'.rows && b in s'.rows ensures KeyInv(s', a, b) {
      if a in s.rows && b in s.rows { assert KeyInv(s, a, b); }
    }
  }

  lemma CommitKeeps(s: State, change: Change, j: Job, rows: seq<Row>)
    requires Inv(s) && Admissible(s, change, j)
    ensures Inv(Commit(s, change, j, rows))
  {
    CommitKeepsJobs(s, change, j, rows);
    CommitKeepsOutbox(s, change, j, rows);
    CommitKeepsClaims(s, change, j, rows);
    CommitKeepsKeys(s, change, j, rows);
  }

  /** A statement that finds its row and keeps its key may be committed. */
  lemma SuccessorAdmissible(s: State, change: Change, id: Id, j: Job)
    requires KeysUnique(s) && id in s.rows && s.rows[id].id == id
    requires Legal(s.rows[id], change, j) && change != RetriedChange
    ensures Admissible(s, change, j)
  {
    forall other | other in s.rows && other != id
      ensures !(s.rows[other].scope == j.scope && s.rows[other].idempotencyKey == j.idempotencyKey)
    {
      assert KeyInv(s, other, id);
    }
  }

  /** A committed statement keeps the invariant, once its successor row is shown legal. */
  lemma CommitIfKeeps(s: State, change: Change, id: Id, updated: Option<Job>, rows: seq<Row>)
    requires Inv(s) && change != RetriedChange
    requires updated.Some? ==> id in s.rows && Legal(s.rows[id], change, updated.value)
    ensures Inv(CommitIf(s, change, updated, rows))
  {
    if updated.Some? {
      assert JobInv(s, id);
      SuccessorAdmissible(s, change, id, updated.value);
      CommitKeeps(s, change, updated.value, rows);
    }
  }

  /** The part of the invariant about jobs and events does not mention objects, claims or deleted rows. */
  lemma SideEffectKeeps(s: State, s': State)
    requires JobsInv(s) && OutboxInv(s) && KeysUnique(s)
    requires s'.outbox == s.outbox && s'.history == s.history
    requires forall id :: id in s'.rows ==> id in s.rows && s'.rows[id] == s.rows[id]
    ensures JobsInv(s') && OutboxInv(s') && KeysUnique(s')
  {
    forall id ensures JobInv(s', id) { assert JobInv(s, id); }
    forall i | 0 <= i < |s'.outbox| ensures EventInv(s', i) { assert EventInv(s, i); }
    forall i, j | 0 <= i < j < |s'.outbox| ensures EventOrder(s', i, j) { assert EventOrder(s, i, j); }
    forall a, b | a in s'.rows && b in s'.rows ensures KeyInv(s', a, b) { assert KeyInv(s, a, b); }
  }

  lemma DeletionKeeps(s: State, s': State)
    requires Inv(s)
    requires s'.outbox == s.outbox && s'.claims == s.claims && s'.history == s.history
    requires forall id :: id in s'.rows ==> id in s.rows && s'.rows[id] == s.rows[id]
    ensures Inv(s')
  {
    SideEffectKeeps(s, s');
    forall c | 0 <= c < |s'.claims| ensures ClaimInv(s', c) { assert ClaimInv(s, c); }
    forall c, d | 0 <= c < d < |s'.claims| ensures ClaimOrder(s', c, d) { assert ClaimOrder(s, c, d); }
  }

  /** Closing a claim, or recording what it stored or loaded, keeps the invariant. */
  lemma ClaimUpdateKeeps(s: State, c: nat, claim: Claim)
    requires Inv(s) && c < |s.claims|
    requires claim.id == s.claims[c].id && claim.scope == s.claims[c].scope && claim.kind == s.claims[c].kind
    requires claim.version == s.claims[c].version && claim.key == s.claims[c].key
    requires claim.report.Some? ==> Faithful(claim.report.value)
    ensures Inv(s.(claims := s.claims[c := claim]))
  {
    var s' := s.(claims := s.claims[c := claim]);
    SideEffectKeeps(s, s');
    forall d | 0 <= d < |s'.claims| ensures ClaimInv(s', d) { assert ClaimInv(s, d); }
    forall d, e | 0 <= d < e < |s'.claims| ensures ClaimOrder(s', d, e) { assert ClaimOrder(s, d, e); }
  }

  lemma {:induction false} ScopeIsConstant(h: History, i: nat)
    requires Chain(h) && i < |h|
    ensures h[i].job.scope == h[0].job.scope && h[i].job.id == h[0].job.id
  {
    if i > 0 {
      ScopeIsConstant(h, i - 1);
      assert Legal(h[i - 1].job, h[i].change, h[i].job);
    }
  }

  /** What is known of a row that a step finds. */
  lemma RowFacts(s: State, id: Id)
    requires Inv(s)
    ensures id in s.rows ==>
              && Sound(s.rows[id]) && s.rows[id].id == id && id in s.history && s.history[id] != []
              && s.rows[id].scope == s.history[id][0].job.scope
              && s.rows[id].version == |s.history[id]|
  {
    assert JobInv(s, id);
    if id in s.rows {
      EveryRowSound(s.history[id], |s.history[id]| - 1);
      ScopeIsConstant(s.history[id], |s.history[id]| - 1);
      VersionIsPosition(s.history[id], |s.history[id]| - 1);
    }
  }

  lemma TakeClaimKeeps(s: State, id: Id, scope: Scope, kind: Kind, now: Time)
    requires Inv(s)
    ensures Inv(TakeClaim(s, id, scope, kind, now))
  {
    RowFacts(s, id);
    var updated := Claiming(s, id, scope, kind, now);
    if updated.Some? {
      CommitIfKeeps(s, ClaimChange(kind), id, updated, []);
      SuccessorAdmissible(s, ClaimChange(kind), id, updated.value);
      CommitKeepsClaims(s, ClaimChange(kind), updated.value, []);
      ClaimAppendKeeps(Commit(s, ClaimChange(kind), updated.value, []), kind, updated.value);
    }
  }

  /** A claim is recorded together with the change that makes it. */
  lemma ClaimAppendKeeps(s: State, kind: Kind, j: Job)
    requires Inv(s) && j.id in s.history && |s.history[j.id]| == j.version >= 1
    requires s.history[j.id][j.version - 1].change == ClaimChange(kind)
    requires j.scope == s.history[j.id][0].job.scope && j.normalizedKey == NormalizedObject(j.scope, j.id)
    requires forall c :: 0 <= c < |s.claims| && s.claims[c].id == j.id ==> s.claims[c].version < j.version
    ensures Inv(s.(claims := s.claims + [NewClaim(j.id, j.scope, kind, j.version, j.normalizedKey)]))
  {
    var s' := s.(claims := s.claims + [NewClaim(j.id, j.scope, kind, j.version, j.normalizedKey)]);
    SideEffectKeeps(s, s');
    forall c | 0 <= c < |s'.claims| ensures ClaimInv(s', c) {
      if c < |s.claims| { assert ClaimInv(s, c); }
    }
    forall c, d | 0 <= c < d < |s'.claims| ensures ClaimOrder(s', c, d) {
      if d < |s.claims| { assert ClaimOrder(s, c, d); }
    }
  }

  lemma NextKeeps(s: State, step: Step)
    requires Inv(s)
    ensures Inv(Next(s, step))
  {
    match step
    case CreateStep(id, scope, dataset, service, format, key, expires, now, actor) =>
      if Next(s, step) != s {
        CommitKeeps(s, CreatedChange, NewJob(id, scope, dataset, service, format, key, expires, now, actor), []);
      }
    case DeliverStep(event, now) =>
      if event < |s.outbox| {
        TakeClaimKeeps(s, s.outbox[event].job.id, s.outbox[event].job.scope, Validation, now);
        TakeClaimKeeps(s, s.outbox[event].job.id, s.outbox[event].job.scope, Apply, now);
      }
    case DeleteObjectStep(_) => DeletionKeeps(s, Next(s, step));
    case PurgeStep(_, _, _, _) => DeletionKeeps(s, Next(s, step));
    case StoreNormalizedStep(_, _) => WorkerStepKeeps(s, step);
    case FinishValidationStep(_, _, _) => WorkerStepKeeps(s, step);
    case LoadNormalizedStep(_) => WorkerStepKeeps(s, step);
    case SendStep(_, _) => WorkerStepKeeps(s, step);
    case AnswerStep(_) => WorkerStepKeeps(s, step);
    case ArriveStep(_) => DeletionKeeps(s, Next(s, step));
    case FinishApplyStep(_, _, _) => WorkerStepKeeps(s, step);
    case FailStep(_, _, _, _, _) => WorkerStepKeeps(s, step);
    case AbandonStep(_) => WorkerStepKeeps(s, step);
    case _ => RequestKeeps(s, step);
  }

  /** The statements that address a row by its id. */
  lemma RequestKeeps(s: State, step: Step)
    requires Inv(s)
    requires step.CompleteUploadStep? || step.CancelStep? || step.RetryStep? || step.ConfirmStep? || step.ExpireStep?
    ensures Inv(Next(s, step))
  {
    RowFacts(s, step.id);
    match step
    case CompleteUploadStep(id, scope, expected, bytes, checksum, now, actor) =>
      CommitIfKeeps(s, RequestedChange, id, Completing(s, id, scope, expected, bytes, checksum, now, actor), []);
    case CancelStep(id, scope, expected, now, actor) =>
      CommitIfKeeps(s, CanceledChange, id, Canceling(s, id, scope, expected, now, actor), []);
    case RetryStep(_, _, _, _, _, _, _) => RetryKeeps(s, step);
    case ConfirmStep(id, scope, expected, key, now, actor) =>
      CommitIfKeeps(s, ApplyRequestedChange, id, Confirming(s, id, scope, expected, key, now, actor), []);
    case ExpireStep(id, scope, listed, now) =>
      CommitIfKeeps(s, ExpiredChange, id, Expiring(s, id, scope, listed, now), []);
  }

  lemma RetryKeeps(s: State, step: Step)
    requires Inv(s) && step.RetryStep?
    ensures Inv(Next(s, step))
  {
    RowFacts(s, step.id);
    var updated := Retrying(s, step.id, step.scope, step.expected, step.key, step.expires, step.now, step.actor);
    if updated.Some? { CommitKeeps(s, RetriedChange, updated.value, []); }
  }

  lemma WorkerStepKeeps(s: State, step: Step)
    requires Inv(s)
    requires step.StoreNormalizedStep? || step.FinishValidationStep? || step.LoadNormalizedStep?
          || step.SendStep? || step.AnswerStep? || step.FinishApplyStep? || step.FailStep? || step.AbandonStep?
    ensures Inv(Next(s, step))
  {
    if step.claim < |s.claims| {
      if step.FinishValidationStep? || step.FinishApplyStep? || step.FailStep? || step.AbandonStep? {
        assert ClaimInv(s, step.claim);
        ClaimUpdateKeeps(s, step.claim, s.claims[step.claim].(open := false));
        if !step.AbandonStep? { FinishKeeps(s, step); }
      } else {
        ClaimStepKeeps(s, step);
      }
    }
  }

  /** The steps of a worker that change no row. */
  lemma ClaimStepKeeps(s: State, step: Step)
    requires Inv(s)
    requires step.StoreNormalizedStep? || step.LoadNormalizedStep? || step.SendStep? || step.AnswerStep?
    requires step.claim < |s.claims|
    ensures Inv(Next(s, step))
  {
    var c := s.claims[step.claim];
    assert ClaimInv(s, step.claim);
    match step
    case StoreNormalizedStep(_, report) =>
      if Faithful(report) {
        ClaimUpdateKeeps(s, step.claim, c.(report := Some(report)));
        var s1 := s.(claims := s.claims[step.claim := c.(report := Some(report))]);
        DeletionKeeps(s1, s1.(objects := s.objects[c.key := report.normalized]));
      }
    case LoadNormalizedStep(_) =>
      if c.key in s.objects { ClaimUpdateKeeps(s, step.claim, c.(input := Some(s.objects[c.key]))); }
    case SendStep(_, m) =>
      ClaimUpdateKeeps(s, step.claim, Sent(c, m));
      var s1 := s.(claims := s.claims[step.claim := Sent(c, m)]);
      DeletionKeeps(s1, s1.(sent := s.sent + [m]));
    case AnswerStep(_) =>
      ClaimUpdateKeeps(s, step.claim, c.(answered := c.answered + 1));
  }

  lemma FinishKeeps(s: State, step: Step)
    requires Inv(s)
    requires step.FinishValidationStep? || step.FinishApplyStep? || step.FailStep?
    requires step.claim < |s.claims| && Inv(Close(s, step.claim))
    ensures Inv(Next(s, step))
  {
    var c := s.claims[step.claim];
    assert ClaimInv(s, step.claim);
    RowFacts(s, c.id);
    var closed := Close(s, step.claim);
    match step
    case FinishValidationStep(_, expires, now) =>
      if c.report.Some? { ValidationCommitKeeps(closed, c, c.report.value, expires, now); }
    case FinishApplyStep(_, expires, now) =>
      if c.input.Some? { ApplyCommitKeeps(closed, c, c.input.value, expires, now); }
    case FailStep(_, code, message, expires, now) =>
      CommitIfKeeps(closed, FailedChange, c.id, Failing(s, c, code, message, expires, now), []);
  }

  lemma ApplyCommitKeeps(s: State, c: Claim, rows: seq<Row>, expires: Time, now: Time)
    requires Inv(s)
    ensures Inv(CommitIf(s, SucceededChange, FinishingApply(s, c, rows, expires, now), rows))
  {
    RowFacts(s, c.id);
    CommitIfKeeps(s, SucceededChange, c.id, FinishingApply(s, c, rows, expires, now), rows);
  }

  lemma ValidationCommitKeeps(s: State, c: Claim, r: Report, expires: Time, now: Time)
    requires Inv(s) && Faithful(r)
    ensures Inv(CommitIf(s, ReportChange(r),
                         FinishingValidation(s, c, r, expires, now), r.normalized))
  {
    RowFacts(s, c.id);
    CommitIfKeeps(s, ReportChange(r), c.id,
                  FinishingValidation(s, c, r, expires, now), r.normalized);
  }

  /** In every reachable state: lawful histories, outbox accounting, unique keys, recorded claims. */
  lemma {:induction false} RunKeeps(s: State, steps: seq<Step>)
    requires Inv(s)
    ensures Inv(Run(s, steps))
  {
    if steps != [] {
      RunKeeps(s, steps[..|steps| - 1]);
      NextKeeps(Run(s, steps[..|steps| - 1]), steps[|steps| - 1]);
    }
  }
}
