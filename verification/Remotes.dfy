/** The provider as the worker of one claim sees it, in the shared world: what it sends may arrive at any
    time and any number of times, among the messages of every other worker. */
module Remotes {
  import opened Jobs
  import opened Providers
  import opened Deliveries
  import opened Protocol
  import opened Effects
  import opened Worlds

  /** The claim once its current batch has been answered. */
  function Answering(k: Claim, m: Message): Claim {
    Sent(k, m).(answered := Sent(k, m).answered + 1)
  }

  class Remote {
    const world: World
    const claim: nat
    ghost const begun: seq<Step>       // the trace at the start
    ghost const mine: Claim            // the claim at the start
    ghost var requests: seq<Message>   // everything sent
    ghost var log: seq<Exchanged>      // the answers received

    /** Nobody else has touched the claim, which has changed by what it sent and was answered only. */
    ghost predicate Valid()
      reads this, world
    {
      && world.Valid() && begun <= world.trace && claim < |world.claims|
      && SameButCalls(mine, world.claims[claim])
    }

    /** The claim as it is now. */
    ghost function Claimed(): Claim
      requires Valid()
      reads this, world
    {
      world.claims[claim]
    }

    ghost predicate MaySend(m: Message)
      requires Valid()
      reads this, world
    {
      m.ApplyRows? ==> mine.open && mine.kind == Apply && mine.input.Some? && Sendable(Claimed(), m)
    }

    constructor (world: World, claim: nat)
      requires world.Valid() && claim < |world.claims|
      ensures Valid() && this.world == world && this.claim == claim
      ensures begun == world.trace && mine == world.claims[claim] && requests == [] && log == []
    {
      this.world, this.claim, begun, mine, requests, log := world, claim, world.trace, world.claims[claim], [], [];
    }

    /** Everybody else goes on. */
    method Drift()
      requires Valid()
      modifies world
      ensures Valid() && Claimed() == old(Claimed())
    {
      world.Others(Mine(Some(claim), None));
    }

    /** Sending may fail, and may reach the provider or not in either case. */
    method Send(m: Message) returns (err: Option<Failure>)
      requires Valid() && MaySend(m)
      modifies this`requests, world
      ensures Valid() && requests == old(requests) + [m]
      ensures Claimed() == if m.ApplyRows? then Sent(old(Claimed()), m) else old(Claimed())
    {
      requests := requests + [m];
      if m.ApplyRows? { Submit(m); }
      Drift();
      err := *;
    }

    method Submit(m: Message)
      requires Valid() && m.ApplyRows? && MaySend(m)
      modifies world
      ensures Valid() && Claimed() == Sent(old(Claimed()), m)
    {
      var step := SendStep(claim, m);
      world.Become(Next(world.Now(), step), step);
    }

    /** The current batch of the claim is `m`, and its answer is awaited. */
    ghost predicate Awaits(m: Message)
      requires Valid()
      reads this, world
    {
      && mine.open && mine.kind == Apply
      && Claimed().answered + 1 == |Claimed().calls| && Claimed().calls[Claimed().answered] == m
    }

    /** An answer for the batch of `m` comes only after the provider has made it durable. Anything else, an
        error or an answer for another batch, says nothing about whether it has acted. */
    method Recv(m: Message) returns (response: Response, err: Option<Failure>)
      requires Valid() && (m.ApplyRows? ==> Awaits(m))
      modifies this`log, world
      ensures Valid()
      ensures Claimed() ==
                if m.ApplyRows? && err.None? && response.batch == m.batch then Answering(old(Claimed()), m) else old(Claimed())
      ensures log == old(log) + if err.None? then [Exchanged(m, response)] else []
    {
      Drift();
      err := *;
      response := *;
      if err.None? {
        if m.ApplyRows? && response.batch == m.batch { Accept(m); }
        log := log + [Exchanged(m, response)];
      }
    }

    /** The batch has arrived, and is answered. */
    method Accept(m: Message)
      requires Valid() && Awaits(m)
      modifies world
      ensures Valid() && Claimed() == Answering(old(Claimed()), m) && m in world.arrived
    {
      ClaimCalls();
      if m !in world.arrived {
        var i :| 0 <= i < |world.sent| && world.sent[i] == m;
        Arrive(i);
      }
      var step := AnswerStep(claim);
      world.Become(Next(world.Now(), step), step);
    }

    method Arrive(i: nat)
      requires Valid() && i < |world.sent|
      modifies world
      ensures Valid() && Claimed() == old(Claimed()) && world.sent == old(world.sent) && old(world.sent[i]) in world.arrived
    {
      var step := ArriveStep(i);
      var s := Next(world.Now(), step);
      assert s.arrived[|s.arrived| - 1] == world.sent[i];
      world.Become(s, step);
    }

    lemma ClaimArrived(m: Message)
      requires Valid() && Claimed().answered == |Claimed().calls| > 0 && Claimed().calls[Claimed().answered - 1] == m
      ensures m in world.arrived
    {
      world.ValidReached();
      ReachedNet(world.Now());
      assert CallsInv(world.Now(), claim);
    }

    lemma ClaimCalls()
      requires Valid()
      ensures Numbered(Claimed().id, Claimed().calls) && Claimed().answered <= |Claimed().calls| <= Claimed().answered + 1
      ensures forall i :: 0 <= i < |Claimed().calls| ==> Claimed().calls[i] in world.sent
    {
      world.ValidReached();
      ReachedNet(world.Now());
      assert CallsInv(world.Now(), claim);
    }
  }

  /** Two stages of one claim that differ in what it has sent and been answered. */
  predicate SameButCalls(a: Claim, b: Claim) {
    b.(calls := a.calls, answered := a.answered) == a
  }
}
