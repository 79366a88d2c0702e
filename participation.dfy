/**
 * The participation rule of `update_coinjoins`: from the clock and a client's delay and
 * stop thresholds, decide whether the client should be mixing, and split the registry
 * into the clients told to start and those told to stop.
 */
module Participation {
  import opened Config

  /** `start_condition`: a stop threshold of 0 means "never stop". */
  function Active(c: Client, block: int, round: int): (r: bool)
    ensures r <==>
      && !(c.stop.0 > 0 && block >= c.stop.0)
      && !(c.stop.1 > 0 && round >= c.stop.1)
      && block >= c.delay.0
      && round >= c.delay.1
  {
    if c.stop.0 > 0 && block >= c.stop.0 then false
    else if c.stop.1 > 0 && round >= c.stop.1 then false
    else if block < c.delay.0 then false
    else if round < c.delay.1 then false
    else true
  }

  /** The clients, in registry order, whose activity at the given clock is `want`. */
  function Selected(clients: seq<Client>, block: int, round: int, want: bool): seq<Client> {
    if clients == [] then []
    else
      var last := clients[|clients| - 1];
      Selected(clients[..|clients| - 1], block, round, want)
        + (if Active(last, block, round) == want then [last] else [])
  }

  /** The loop of `update_coinjoins`: one pass over the registry, appending each client to
      the start list or the stop list. Starting and stopping the clients' mixing is left to
      the callers of this split. */
  method Partition(clients: seq<Client>, block: int, round: int) returns (start: seq<Client>, stop: seq<Client>)
    ensures start == Selected(clients, block, round, true)
    ensures stop == Selected(clients, block, round, false)
  {
    start, stop := [], [];
    var i := 0;
    while i < |clients|
      invariant 0 <= i <= |clients|
      invariant start == Selected(clients[..i], block, round, true)
      invariant stop == Selected(clients[..i], block, round, false)
    {
      var c := clients[i];
      assert clients[..i + 1][..i] == clients[..i];
      if Active(c, block, round) {
        start := start + [c];
      } else {
        stop := stop + [c];
      }
      i := i + 1;
    }
    assert clients[..i] == clients;
  }

  /** `all` is an interleaving of `a` and `b`: both keep their relative order from `all`. */
  predicate Interleaves<T(==)>(all: seq<T>, a: seq<T>, b: seq<T>)
    decreases |all|
  {
    if all == [] then a == [] && b == []
    else
      var x := all[|all| - 1];
      || (a != [] && a[|a| - 1] == x && Interleaves(all[..|all| - 1], a[..|a| - 1], b))
      || (b != [] && b[|b| - 1] == x && Interleaves(all[..|all| - 1], a, b[..|b| - 1]))
  }

  /** Every client lands in exactly one of the two lists, each list keeps registry order. */
  lemma {:induction false} PartitionInterleaves(clients: seq<Client>, block: int, round: int)
    ensures Interleaves(clients, Selected(clients, block, round, true), Selected(clients, block, round, false))
    ensures |Selected(clients, block, round, true)| + |Selected(clients, block, round, false)| == |clients|
  {
    if clients != [] {
      var init := clients[..|clients| - 1];
      var last := clients[|clients| - 1];
      PartitionInterleaves(init, block, round);
      var a, b := Selected(clients, block, round, true), Selected(clients, block, round, false);
      if Active(last, block, round) {
        assert a == Selected(init, block, round, true) + [last];
        assert a[..|a| - 1] == Selected(init, block, round, true);
        assert b == Selected(init, block, round, false);
      } else {
        assert b == Selected(init, block, round, false) + [last];
        assert b[..|b| - 1] == Selected(init, block, round, false);
        assert a == Selected(init, block, round, true);
      }
    }
  }

  /** A client is in the start list iff it is in the registry and active; likewise for stop. */
  lemma {:induction false} SelectedMembers(clients: seq<Client>, block: int, round: int, want: bool, c: Client)
    ensures c in Selected(clients, block, round, want) <==> c in clients && Active(c, block, round) == want
  {
    if clients != [] {
      var init := clients[..|clients| - 1];
      SelectedMembers(init, block, round, want, c);
      assert clients == init + [clients[|clients| - 1]];
    }
  }

  lemma {:induction false} PartitionMultiset(clients: seq<Client>, block: int, round: int)
    ensures multiset(Selected(clients, block, round, true)) + multiset(Selected(clients, block, round, false))
      == multiset(clients)
  {
    if clients != [] {
      var init := clients[..|clients| - 1];
      var last := clients[|clients| - 1];
      PartitionMultiset(init, block, round);
      assert clients == init + [last];
      assert multiset(clients) == multiset(init) + multiset{last};
      var a, b := Selected(init, block, round, true), Selected(init, block, round, false);
      if Active(last, block, round) {
        assert Selected(clients, block, round, true) == a + [last];
        assert multiset(a + [last]) == multiset(a) + multiset{last};
        assert Selected(clients, block, round, false) == b;
      } else {
        assert Selected(clients, block, round, true) == a;
        assert Selected(clients, block, round, false) == b + [last];
        assert multiset(b + [last]) == multiset(b) + multiset{last};
      }
    }
  }

  /** With a clock that never goes back, a client's active period is one contiguous stretch:
      active at two clocks means active at every clock between them. */
  lemma ActiveIsConvex(c: Client, b1: int, r1: int, b2: int, r2: int, b3: int, r3: int)
    requires b1 <= b2 <= b3 && r1 <= r2 <= r3
    requires Active(c, b1, r1) && Active(c, b3, r3)
    ensures Active(c, b2, r2)
  {
  }

  /** Once a nonzero stop threshold is reached, the client stays inactive at every later clock. */
  lemma StopIsFinal(c: Client, b1: int, r1: int, b2: int, r2: int)
    requires b1 <= b2 && r1 <= r2
    requires (c.stop.0 > 0 && b1 >= c.stop.0) || (c.stop.1 > 0 && r1 >= c.stop.1)
    ensures !Active(c, b1, r1) && !Active(c, b2, r2)
  {
  }

  /** A wallet with delay (0, 0) and stop (0, 2) mixes in rounds 0 and 1 and not from round 2 on. */
  lemma StopAfterTwoRounds(c: Client, block: nat, round: nat)
    requires c.delay == (0, 0) && c.stop == (0, 2)
    ensures Active(c, block, round) <==> round < 2
  {
  }
}
