/** Picking provider instances in turn, and the connections kept for them. */
module Connections {
  import opened Jobs
  import opened Numbers

  datatype Instance = Instance(id: Id, service: Text, datasets: seq<Text>, target: Text)

  /** The instances of a service that offer a dataset. */
  function Candidates(instances: seq<Instance>, service: Text, dataset: Text): seq<Instance> {
    if instances == [] then []
    else
      var n := |instances| - 1;
      Candidates(instances[..n], service, dataset) +
      if instances[n].service == service && dataset in instances[n].datasets then [instances[n]] else []
  }

  /** An open network connection; `serial` tells connections to the same target apart. */
  datatype Connection = Connection(serial: nat, target: Text)

  class Provider {
    var connections: map<Id, Connection>
    var cursor: nat                    // a 64-bit counter
    var dials: nat
    ghost var open: set<Connection>    // opened and not closed again
    const registered: bool             // a connection to the registry was opened at the start
    var registryOpen: bool

    /** The open connections are exactly the cached ones, and no two instances share one. */
    ghost predicate Valid()
      reads this
    {
      && cursor < TWO64
      && (forall id :: id in connections ==> connections[id] in open && connections[id].serial < dials)
      && (forall c :: c in open ==> exists id :: id in connections && connections[id] == c)
      && (forall a, b :: a in connections && b in connections && connections[a] == connections[b] ==> a == b)
    }

    constructor (registered: bool)
      ensures Valid() && connections == map[] && open == {} && cursor == 0
      ensures this.registered == registryOpen == registered
    {
      connections, cursor, dials, open := map[], 0, 0, {};
      this.registered, registryOpen := registered, registered;
    }

    /** The next candidate in turn. */
    method Pick(candidates: seq<Instance>) returns (i: nat)
      requires Valid() && candidates != []
      modifies this`cursor
      ensures Valid() && i < |candidates| && i == old(cursor) % |candidates| && cursor == (old(cursor) + 1) % TWO64
    {
      var next := (cursor + 1) % TWO64;
      i := cursor % |candidates|;
      cursor := next;
    }

    /** The connection of an instance: the cached one if it leads to the same target, and a new one in
        its place otherwise. When dialing fails nothing is left of the old one. */
    method Connect(instance: Instance) returns (connection: Option<Connection>)
      requires Valid()
      modifies this`connections, this`dials, this`open
      ensures Valid()
      ensures forall id :: id != instance.id ==>
                (id in connections <==> id in old(connections)) && (id in connections ==> connections[id] == old(connections)[id])
      ensures connection.Some? ==>
                && instance.id in connections && connections[instance.id] == connection.value && connection.value in open
                && connection.value.target == instance.target
      ensures connection.None? ==> instance.id !in connections
      ensures instance.id in old(connections) && old(connections)[instance.id].target == instance.target ==>
                connection == Some(old(connections)[instance.id]) && open == old(open)
    {
      if instance.id in connections && connections[instance.id].target == instance.target {
        return Some(connections[instance.id]);
      }
      if instance.id in connections {
        Drop(instance.id);
      }
      connection := None;
      var fails: bool := *;
      if !fails {
        var c := Connection(dials, instance.target);
        ghost var was := connections;
        connections, dials, open := connections[instance.id := c], dials + 1, open + {c};
        connection := Some(c);
        forall k | k in open ensures exists id :: id in connections && connections[id] == k {
          if k == c {
            assert connections[instance.id] == k;
          } else {
            var id :| id in was && was[id] == k;
            assert connections[id] == k;
          }
        }
      }
    }

    method Drop(id: Id)
      requires Valid() && id in connections
      modifies this`connections, this`open
      ensures Valid() && connections == old(connections) - {id} && open == old(open) - {old(connections)[id]}
    {
      ghost var was := connections;
      open := open - {connections[id]};
      connections := connections - {id};
      forall c | c in open ensures exists other :: other in connections && connections[other] == c {
        var other :| other in was && was[other] == c;
        assert connections[other] == c;
      }
    }

    /** A client for a dataset: the next candidate in turn, and its connection. */
    method Client(instances: seq<Instance>, service: Text, dataset: Text) returns (r: Option<(Instance, Connection)>)
      requires Valid()
      modifies this`connections, this`cursor, this`dials, this`open
      ensures Valid()
      ensures var candidates := Candidates(instances, service, dataset);
        && (candidates == [] ==> r.None? && cursor == old(cursor))
        && (candidates != [] ==> cursor == (old(cursor) + 1) % TWO64)
        && (r.Some? ==>
              && candidates != [] && r.value.0 == candidates[old(cursor) % |candidates|]
              && r.value.0.id in connections && connections[r.value.0.id] == r.value.1
              && r.value.1 in open && r.value.1.target == r.value.0.target)
    {
      var candidates: seq<Instance>, k := [], 0;
      while k < |instances|
        invariant 0 <= k <= |instances| && candidates == Candidates(instances[..k], service, dataset)
      {
        assert instances[..k + 1][..k] == instances[..k] && candidates + [] == candidates;
        if instances[k].service == service && dataset in instances[k].datasets { candidates := candidates + [instances[k]]; }
        k := k + 1;
      }
      assert instances[..|instances|] == instances;
      if |candidates| == 0 { return None; }
      var i := Pick(candidates);
      var refused: bool := *;
      if refused { return None; }
      var connection := Connect(candidates[i]);
      r := if connection.None? then None else Some((candidates[i], connection.value));
    }

    /** Close the connections of the instances, in any order, and then that of the registry; report the
        first failure. Nothing stays open. */
    method Close() returns (failure: Option<Closed>, ghost order: seq<Closed>, ghost failures: set<Closed>)
      requires Valid()
      modifies this`connections, this`open, this`registryOpen
      ensures Valid() && connections == map[] && open == {} && (registered ==> !registryOpen)
      ensures forall id :: id in old(connections) <==> ToInstance(id) in order
      ensures registered <==> ToRegistry in order
      ensures registered ==> order[|order| - 1] == ToRegistry
      ensures First(order, failures, failure)
    {
      failure, order, failures := CloseInstances();
      if registered {
        registryOpen := false;
        var fails: bool := *;
        FirstSnoc(order, failures, failure, ToRegistry, fails);
        if fails && failure.None? { failure := Some(ToRegistry); }
        order, failures := order + [ToRegistry], if fails then failures + {ToRegistry} else failures;
      }
    }

    method CloseInstances() returns (failure: Option<Closed>, ghost order: seq<Closed>, ghost failures: set<Closed>)
      requires Valid()
      modifies this`connections, this`open
      ensures Valid() && connections == map[] && open == {}
      ensures forall id :: id in old(connections) <==> ToInstance(id) in order
      ensures ToRegistry !in order && First(order, failures, failure)
    {
      failure, order, failures := None, [], {};
      while connections != map[]
        invariant Valid() && First(order, failures, failure) && ToRegistry !in order
        invariant forall id :: id in old(connections) <==> id in connections || ToInstance(id) in order
        invariant forall id :: id in connections ==> ToInstance(id) !in order
        decreases |connections|
      {
        var id :| id in connections;
        Drop(id);
        var fails: bool := *;
        FirstSnoc(order, failures, failure, ToInstance(id), fails);
        if fails && failure.None? { failure := Some(ToInstance(id)); }
        order, failures := order + [ToInstance(id)], if fails then failures + {ToInstance(id)} else failures;
      }
      assert open == {} by {
        forall c ensures c !in open {}
      }
    }

    /** A full turn: as many calls in a row as there are candidates. It picks each of them exactly once,
        if and only if the counter does not wrap within it or wraps at a multiple of their number. */
    method Turn(candidates: seq<Instance>) returns (picks: seq<nat>)
      requires Valid() && 0 < |candidates| <= TWO64
      modifies this`cursor
      ensures Valid() && picks == Picks(old(cursor), |candidates|)
      ensures EachOnce(picks, |candidates|) <==> old(cursor) + |candidates| <= TWO64 || TWO64 % |candidates| == 0
    {
      picks := [];
      ghost var c := cursor;
      while |picks| < |candidates|
        invariant Valid() && |picks| <= |candidates| && cursor == (c + |picks|) % TWO64
        invariant forall k :: 0 <= k < |picks| ==> picks[k] == (c + k) % TWO64 % |candidates|
      {
        var i := Pick(candidates);
        NextCursor(c, |picks|);
        picks := picks + [i];
      }
      assert picks == Picks(c, |candidates|);
      RotationIsFair(c, |candidates|);
    }
  }

  lemma NextCursor(c: nat, k: nat)
    ensures ((c + k) % TWO64 + 1) % TWO64 == (c + (k + 1)) % TWO64
  {
  }

  /** What is closed at the end. */
  datatype Closed = ToInstance(id: Id) | ToRegistry

  /** The first of `order` that is among `failures`, all of which occur in it. */
  ghost predicate First(order: seq<Closed>, failures: set<Closed>, first: Option<Closed>) {
    && (forall c :: c in failures ==> c in order)
    && (first.None? ==> failures == {})
    && (first.Some? ==> exists i :: 0 <= i < |order| && FirstAt(order, failures, first.value, i))
  }

  ghost predicate FirstAt(order: seq<Closed>, failures: set<Closed>, c: Closed, i: int)
    requires 0 <= i < |order|
  {
    order[i] == c && c in failures && forall k :: 0 <= k < i ==> order[k] !in failures
  }

  lemma FirstSnoc(order: seq<Closed>, failures: set<Closed>, first: Option<Closed>, c: Closed, fails: bool)
    requires First(order, failures, first) && c !in order
    ensures First(order + [c], if fails then failures + {c} else failures,
                  if fails && first.None? then Some(c) else first)
  {
    var order', failures' := order + [c], if fails then failures + {c} else failures;
    if first.Some? {
      var i :| 0 <= i < |order| && FirstAt(order, failures, first.value, i);
      assert FirstAt(order', failures', first.value, i);
    } else if fails {
      assert FirstAt(order', failures', c, |order|);
    }
  }

  // ---- rotation ----

  /** The picks of `n` consecutive calls with `n` candidates, from counter value `c` on. */
  function Picks(c: nat, n: nat): seq<nat>
    requires n > 0
  {
    seq(n, k requires k >= 0 => (c + k) % TWO64 % n)
  }

  ghost predicate EachOnce(picks: seq<nat>, n: nat) {
    && (forall j, k :: 0 <= j < k < |picks| ==> picks[j] != picks[k])
    && (forall i :: 0 <= i < n ==> i in picks)
  }

  /** Two numbers with the same remainder are at least `n` apart. */
  lemma SameRemainder(a: nat, b: nat, n: nat)
    requires n > 0 && a < b && a % n == b % n
    ensures b - a >= n
  {
    var q, r := a / n, b / n;
    assert a == q * n + a % n && b == r * n + b % n;
    if r <= q { Ordered(r, q, n); } else { Ordered(q + 1, r, n); }
  }

  lemma Ordered(a: nat, b: nat, n: nat)
    requires a <= b
    ensures a * n <= b * n
  {
  }

  /** The only number of a stretch of `n` numbers with remainder `i`. */
  lemma RemainderIn(c: nat, n: nat, i: nat) returns (k: nat)
    requires n > 0 && i < n
    ensures k < n && (c + k) % n == i
  {
    var r := c % n;
    k := if i >= r then i - r else i + n - r;
    var q := c / n;
    assert c == q * n + r;
    if i >= r {
      Remainder(q, n, i);
    } else {
      Remainder(q + 1, n, i);
      assert c + k == (q + 1) * n + i;
    }
  }

  lemma Remainder(q: nat, n: nat, i: nat)
    requires i < n
    ensures (q * n + i) % n == i
  {
    var x := q * n + i;
    var y := x / n;
    assert x == y * n + x % n;
    if y < q { Ordered(y + 1, q, n); } else if q < y { Ordered(q + 1, y, n); }
  }

  /** Dropping whole rounds of the counter does not change the remainder when the rounds are multiples of `n`. */
  lemma WrapIsHarmless(x: nat, n: nat)
    requires n > 0 && TWO64 <= x < 2 * TWO64 && TWO64 % n == 0
    ensures x % TWO64 % n == x % n
  {
    var m := TWO64 / n;
    var y := x - TWO64;
    assert TWO64 == m * n;
    assert y == (y / n) * n + y % n;
    Split(m, y / n, n);
    Remainder(m + y / n, n, y % n);
  }

  lemma Split(a: nat, b: nat, n: nat)
    ensures (a + b) * n == a * n + b * n
  {
  }

  /** In a window without wrap-around, or when the wrap-around keeps the rhythm, the remainders are
      those of the plain counter. */
  lemma PicksAreRemainders(c: nat, n: nat, k: nat)
    requires 0 < n <= TWO64 && c < TWO64 && k < n && (c + n <= TWO64 || TWO64 % n == 0)
    ensures Picks(c, n)[k] == (c + k) % n
  {
    if c + k >= TWO64 { WrapIsHarmless(c + k, n); }
  }

  /** Fair rotation: `n` consecutive calls pick each of `n` candidates exactly once, if and only if the
      64-bit counter does not wrap in between or wraps at a multiple of `n`. */
  lemma RotationIsFair(c: nat, n: nat)
    requires 0 < n <= TWO64 && c < TWO64
    ensures EachOnce(Picks(c, n), n) <==> c + n <= TWO64 || TWO64 % n == 0
  {
    var picks := Picks(c, n);
    if c + n <= TWO64 || TWO64 % n == 0 {
      forall j, k | 0 <= j < k < n ensures picks[j] != picks[k] {
        PicksAreRemainders(c, n, j);
        PicksAreRemainders(c, n, k);
        if picks[j] == picks[k] { SameRemainder(c + j, c + k, n); }
      }
      forall i | 0 <= i < n ensures i in picks {
        var k := RemainderIn(c, n, i);
        PicksAreRemainders(c, n, k);
        assert picks[k] == i;
      }
    } else {
      RotationBreaks(c, n);
    }
  }

  /** Three candidates and a counter about to wrap: one of them is picked twice. */
  lemma UnfairTurn()
    ensures !EachOnce(Picks(TWO64 - 1, 3), 3)
  {
    RotationIsFair(TWO64 - 1, 3);
  }

  /** A wrap-around out of rhythm picks one candidate twice, or leaves one out. */
  lemma RotationBreaks(c: nat, n: nat)
    requires 0 < n <= TWO64 && c < TWO64 && c + n > TWO64 && TWO64 % n != 0
    ensures !EachOnce(Picks(c, n), n)
  {
    var picks, a, r := Picks(c, n), TWO64 - c, TWO64 % n;
    if r <= n - a {
      PickedAgain(c, n, a, r);
    } else {
      forall k | 0 <= k < n ensures picks[k] != r { LeftOut(c, n, a, r, k); }
      assert r !in picks;
    }
  }

  /** The last pick before the wrap-around is picked again after it. */
  lemma PickedAgain(c: nat, n: nat, a: nat, r: nat)
    requires 0 < n <= TWO64 && a == TWO64 - c && 0 < a < n && r == TWO64 % n && 0 < r <= n - a
    ensures a - 1 < a + r - 1 < n && Picks(c, n)[a - 1] == r - 1 == Picks(c, n)[a + r - 1]
  {
    LastRemainder(n);
    assert c + (a - 1) == TWO64 - 1 && c + (a + r - 1) == TWO64 + (r - 1);
    Remainder(0, n, r - 1);
  }

  /** The pick that was due after the wrap-around is left out. */
  lemma LeftOut(c: nat, n: nat, a: nat, r: nat, k: nat)
    requires 0 < n <= TWO64 && a == TWO64 - c && 0 < a < n && r == TWO64 % n && r > n - a && k < n
    ensures Picks(c, n)[k] != r
  {
    if k < a {
      if (c + k) % n == r { SameRemainder(c + k, TWO64, n); }
    } else {
      var y := c + k - TWO64;
      assert 0 <= y < n - a;
      Remainder(0, n, y);
    }
  }

  lemma LastRemainder(n: nat)
    requires n > 0 && TWO64 % n != 0
    ensures (TWO64 - 1) % n == TWO64 % n - 1
  {
    var q, r := TWO64 / n, TWO64 % n;
    assert TWO64 == q * n + r;
    Remainder(q, n, r - 1);
  }
}
