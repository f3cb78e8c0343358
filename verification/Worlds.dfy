/** The shared world the service runs in: the two database tables, the object store and the other
    actors, changing under the feet of every operation. */
module Worlds {
  import opened Rows
  import opened Jobs
  import opened Files
  import opened Providers
  import opened Protocol
  import opened Runs
  import opened Hiding

  /** What nobody else touches: the claim a worker holds, the fresh id a create request has drawn. */
  datatype Mine = Mine(claim: Option<nat>, id: Option<Id>)

  const NOTHING := Mine(None, None)

  predicate ActsOn(step: Step, c: nat) {
    match step
    case StoreNormalizedStep(claim, _) => claim == c
    case FinishValidationStep(claim, _, _) => claim == c
    case LoadNormalizedStep(claim) => claim == c
    case SendStep(claim, _) => claim == c
    case AnswerStep(claim) => claim == c
    case FinishApplyStep(claim, _, _) => claim == c
    case FailStep(claim, _, _, _, _) => claim == c
    case AbandonStep(claim) => claim == c
    case _ => false
  }

  /** A step another actor may take. */
  predicate Foreign(step: Step, mine: Mine) {
    && (mine.claim.Some? ==> !ActsOn(step, mine.claim.value))
    && (mine.id.Some? && step.CreateStep? ==> step.id != mine.id.value)
  }

  /** Normalized files are written from encoded rows only. */
  predicate Writable(c: Codec, step: Step) {
    step.StoreNormalizedStep? ==> Encodable(c, step.report.normalized)
  }

  /** A claim changes only by steps that act on it. */
  lemma ForeignKeepsClaim(s: State, step: Step, c: nat)
    requires c < |s.claims| && !ActsOn(step, c)
    ensures c < |Next(s, step).claims| && Next(s, step).claims[c] == s.claims[c]
  {
  }

  /** An id that nobody else draws stays fresh. */
  lemma ForeignKeepsFresh(s: State, step: Step, id: Id)
    requires Inv(s) && id !in s.history && (step.CreateStep? ==> step.id != id)
    ensures id !in Next(s, step).history
  {
    RowAndEventTogether(s, step);
    if step.CreateStep? {
    } else if Committed(s, Next(s, step), false) {
      var change, j, rows :| change != CreatedChange && CommitShape(s, Next(s, step), change, j, rows);
      assert JobInv(s, j.id);
    }
  }

  /** The objects a step leaves behind were there before or have just been stored. */
  lemma ObjectsStayEncodable(c: Codec, s: State, step: Step)
    requires Writable(c, step) && forall key :: key in s.objects ==> Encodable(c, s.objects[key])
    ensures forall key :: key in Next(s, step).objects ==> Encodable(c, Next(s, step).objects[key])
  {
  }

  datatype DbError = RowNotFound | StaleVersion | DriverFailed

  datatype Result<T, E> = Ok(value: T) | Err(error: E)

  class World {
    const codec: Codec
    var rows: map<Id, Job>
    var outbox: seq<Event>
    var objects: map<ObjectKey, seq<Row>>   // normalized files, by the rows they encode
    var claims: seq<Claim>                  // the workers that were ever started
    var history: map<Id, History>           // a record of what was committed
    var sent: seq<Message>                  // what was ever sent to providers
    var arrived: seq<Message>               // what has arrived there, in order
    ghost var trace: seq<Step>

    function Now(): State
      reads this
    {
      State(rows, outbox, objects, claims, history, sent, arrived)
    }

    /** The invariant, unfolded only where `Look` asks for it. */
    ghost predicate Valid()
      reads this
    {
      forall k {:trigger Asked(k)} :: Asked(k) ==> Sound()
    }

    lemma Look()
      requires Valid()
      ensures Sound()
    {
      assert Asked(0);
    }

    /** The world is where the protocol is after the steps taken so far. */
    ghost predicate Sound()
      reads this
    {
      After(INIT, trace, Now()) && forall key :: key in objects ==> Encodable(codec, objects[key])
    }

    constructor (codec: Codec)
      ensures Valid() && this.codec == codec && trace == []
    {
      this.codec := codec;
      rows, outbox, objects, claims, history, sent, arrived, trace := map[], [], map[], [], map[], [], [], [];
    }

    lemma ValidReached()
      requires Valid()
      ensures Reached(Now()) && Inv(Now())
    {
      Look();
      ReachedInv(Now());
    }

    /** The world after one more step. */
    method Become(s: State, ghost step: Step)
      requires Valid() && s == Next(Now(), step) && Writable(codec, step)
      modifies this
      ensures Valid() && trace == old(trace) + [step] && Now() == s
    {
      Look();
      RunSnoc(INIT, trace, Now(), step);
      ObjectsStayEncodable(codec, Now(), step);
      rows, outbox, objects, claims, history := s.rows, s.outbox, s.objects, s.claims, s.history;
      sent, arrived := s.sent, s.arrived;
      trace := trace + [step];
    }

    /** Anything may happen in between, except to what is `mine`. */
    method Others(mine: Mine)
      requires Valid()
      requires mine.claim.Some? ==> mine.claim.value < |claims|
      requires mine.id.Some? ==> mine.id.value !in history
      modifies this
      ensures Valid() && old(trace) <= trace
      ensures forall i :: |old(trace)| <= i < |trace| ==> Foreign(trace[i], mine)
      ensures mine.claim.Some? ==> mine.claim.value < |claims| && claims[mine.claim.value] == old(claims[mine.claim.value])
      ensures mine.id.Some? ==> mine.id.value !in history
    {
      var more: nat := *;
      while more > 0
        invariant Valid() && old(trace) <= trace
        invariant forall i :: |old(trace)| <= i < |trace| ==> Foreign(trace[i], mine)
        invariant mine.claim.Some? ==> mine.claim.value < |claims| && claims[mine.claim.value] == old(claims[mine.claim.value])
        invariant mine.id.Some? ==> mine.id.value !in history
      {
        var step: Step := *;
        if Foreign(step, mine) && Writable(codec, step) {
          ValidReached();
          if mine.claim.Some? { ForeignKeepsClaim(Now(), step, mine.claim.value); }
          if mine.id.Some? { ForeignKeepsFresh(Now(), step, mine.id.value); }
          Become(Next(Now(), step), step);
        }
        more := more - 1;
      }
    }

    /** Read one row; the database may be out of reach. */
    method Get(scope: Scope, id: Id) returns (r: Result<Job, DbError>)
      ensures r.Ok? ==> Find(Now(), scope, id) == Some(r.value)
      ensures r == Err(RowNotFound) ==> Find(Now(), scope, id).None?
      ensures r != Err(StaleVersion)
    {
      var fails: bool := *;
      if fails { return Err(DriverFailed); }
      r := if id in rows && rows[id].scope == scope then Ok(rows[id]) else Err(RowNotFound);
    }

    /** The row that holds an idempotency key. */
    method GetByKey(scope: Scope, key: Text) returns (r: Result<Job, DbError>)
      ensures r.Ok? ==>
                && r.value.scope == scope && r.value.idempotencyKey == key
                && exists id :: id in rows && rows[id] == r.value
      ensures r == Err(RowNotFound) ==> forall id :: KeyFree(Now(), scope, key, id)
      ensures r != Err(StaleVersion)
    {
      var fails: bool := *;
      if fails { return Err(DriverFailed); }
      if id :| id in rows && rows[id].scope == scope && rows[id].idempotencyKey == key {
        r := Ok(rows[id]);
      } else {
        r := Err(RowNotFound);
      }
    }
  }

  /** What the world was earlier in its own trace. */
  lemma EarlierWorld(w: World, before: seq<Step>, s: State)
    requires w.Valid() && After(INIT, before, s) && before <= w.trace
    ensures Reached(s) && Later(s, w.Now())
  {
    w.Look();
    RunOf(INIT, before, s);
    RunOf(INIT, w.trace, w.Now());
    var more := w.trace[|before|..];
    assert w.trace == before + more;
    RunConcat(INIT, before, more);
    assert After(s, more, w.Now());
  }
}
