/**
 * `start_clients`: every wallet gets a slot that holds its client once `start_client`
 * succeeds for it; up to RetryPasses passes re-provision the slots still empty, then the
 * empty slots are dropped and the started clients join the registry.
 */
module Population {
  import opened Common
  import opened Config

  /** Retry passes after the first provisioning pass. */
  const RetryPasses: nat := 3

  /** `provision(idx, p)`: whether `start_client` for index `idx` succeeds on pass `p`
      (pass 0 is the first one, passes 1 to RetryPasses are the retries). */
  type Provision = (nat, nat) -> bool

  /** Whether starting client `idx` has succeeded on one of the passes 0 to `p`. */
  predicate StartedBy(provision: Provision, idx: nat, p: nat) {
    provision(idx, p) || (p > 0 && StartedBy(provision, idx, p - 1))
  }

  /** How many times `start_client` has been called for `idx` over passes 0 to `p`: once on
      the first pass, and once more on each later pass that finds it not yet started. */
  function CallsBy(provision: Provision, idx: nat, p: nat): (n: nat)
    ensures 1 <= n <= p + 1
  {
    if p == 0 then 1
    else if StartedBy(provision, idx, p - 1) then CallsBy(provision, idx, p - 1)
    else CallsBy(provision, idx, p - 1) + 1
  }

  /** The slot of wallet `w` (index `idx`) after passes 0 to `p`. */
  function SlotAfter(w: WalletSpec, idx: nat, s: Scenario, provision: Provision, p: nat): Option<Client> {
    if StartedBy(provision, idx, p) then Some(ResolveClient(idx, w, s)) else None
  }

  /** `slots` and `attempts` are those after passes 0 to `p`, wallet `j` under index `base + j`. */
  predicate AtPass(wallets: seq<WalletSpec>, base: nat, s: Scenario, provision: Provision, p: nat,
                   slots: seq<Option<Client>>, attempts: seq<int>)
  {
    && |slots| == |wallets| && |attempts| == |wallets|
    && (forall t :: 0 <= t < |wallets| ==> slots[t] == SlotAfter(wallets[t], base + t, s, provision, p))
    && (forall t :: 0 <= t < |wallets| ==> attempts[t] == CallsBy(provision, base + t, p))
  }

  /** The slots once provisioning is over. */
  function Slots(wallets: seq<WalletSpec>, base: nat, s: Scenario, provision: Provision): (r: seq<Option<Client>>)
    ensures |r| == |wallets|
  {
    seq(|wallets|, j requires 0 <= j < |wallets| => SlotAfter(wallets[j], base + j, s, provision, RetryPasses))
  }

  /** The started clients, in slot order; the empty slots are dropped. */
  function Survivors(slots: seq<Option<Client>>): seq<Client> {
    if slots == [] then []
    else
      var last := slots[|slots| - 1];
      Survivors(slots[..|slots| - 1]) + (if last.Some? then [last.value] else [])
  }

  /** The positions of the empty slots, in increasing order: `restart_idx` less the offset. */
  function EmptySlots(slots: seq<Option<Client>>): (r: seq<nat>)
    ensures forall t: nat :: t in r <==> t < |slots| && slots[t].None?
    ensures forall a, b :: 0 <= a < b < |r| ==> r[a] < r[b]
  {
    if slots == [] then []
    else
      var n := |slots| - 1;
      var init := EmptySlots(slots[..n]);
      assert forall a :: 0 <= a < |init| ==> init[a] < n by {
        forall a | 0 <= a < |init| ensures init[a] < n {
          assert init[a] in init;
        }
      }
      init + (if slots[n].None? then [n] else [])
  }

  // ---------------------------------------------------------------------------
  // One pass.

  /** A started slot stays started and is not provisioned again. */
  lemma {:induction false} SlotSettled(provision: Provision, idx: nat, p: nat, p': nat)
    requires p <= p'
    requires StartedBy(provision, idx, p)
    ensures StartedBy(provision, idx, p')
    ensures CallsBy(provision, idx, p') == CallsBy(provision, idx, p)
    decreases p' - p
  {
    if p < p' {
      SlotSettled(provision, idx, p, p' - 1);
    }
  }

  /** A retry pass on an empty slot: it is filled when this pass starts the client, and the
      slot's call count goes up by one. */
  lemma RetriedSlot(w: WalletSpec, idx: nat, s: Scenario, provision: Provision, pass: nat,
                    slot: Option<Client>, calls: int)
    requires pass >= 1
    requires slot == SlotAfter(w, idx, s, provision, pass - 1) && slot.None?
    requires calls == CallsBy(provision, idx, pass - 1)
    ensures (if provision(idx, pass) then Some(ResolveClient(idx, w, s)) else slot) == SlotAfter(w, idx, s, provision, pass)
    ensures calls + 1 == CallsBy(provision, idx, pass)
  {
  }

  /** A retry pass leaves a filled slot and its call count alone. */
  lemma KeptSlot(w: WalletSpec, idx: nat, s: Scenario, provision: Provision, p: nat, p': nat,
                 slot: Option<Client>, calls: int)
    requires p <= p'
    requires slot == SlotAfter(w, idx, s, provision, p) && slot.Some?
    requires calls == CallsBy(provision, idx, p)
    ensures slot == SlotAfter(w, idx, s, provision, p')
    ensures calls == CallsBy(provision, idx, p')
  {
    SlotSettled(provision, idx, p, p');
  }

  // ---------------------------------------------------------------------------
  // The provisioning loop.

  /** The first pass: one `start_client` call per wallet, wallet `j` as index `base + j`. */
  method FirstPassSlots(wallets: seq<WalletSpec>, base: nat, s: Scenario, provision: Provision)
    returns (slots: seq<Option<Client>>, attempts: seq<int>)
    ensures AtPass(wallets, base, s, provision, 0, slots, attempts)
  {
    slots := [];
    attempts := [];
    var j := 0;
    while j < |wallets|
      invariant 0 <= j <= |wallets|
      invariant AtPass(wallets[..j], base, s, provision, 0, slots, attempts)
    {
      var started := provision(base + j, 0);
      slots := slots + [if started then Some(ResolveClient(base + j, wallets[j], s)) else None];
      attempts := attempts + [1];
      j := j + 1;
    }
    assert wallets[..j] == wallets;
  }

  /** Part way through retry pass `pass`: the slots in `done` hold their state after the pass,
      the others still hold the state they had before it. */
  ghost predicate Retrying(wallets: seq<WalletSpec>, base: nat, s: Scenario, provision: Provision, pass: nat,
                           slots0: seq<Option<Client>>, attempts0: seq<int>,
                           slots: seq<Option<Client>>, attempts: seq<int>, done: set<nat>)
  {
    && |slots0| == |attempts0| == |slots| == |attempts| == |wallets|
    && (forall t :: 0 <= t < |wallets| && t !in done ==> slots[t] == slots0[t] && attempts[t] == attempts0[t])
    && (forall t :: t in done ==>
          t < |wallets|
          && slots[t] == SlotAfter(wallets[t], base + t, s, provision, pass)
          && attempts[t] == CallsBy(provision, base + t, pass))
  }

  /** Bringing slot `i` to its state after the pass extends the slots done by `i`. */
  lemma RetryingStep(wallets: seq<WalletSpec>, base: nat, s: Scenario, provision: Provision, pass: nat,
                     slots0: seq<Option<Client>>, attempts0: seq<int>,
                     slots: seq<Option<Client>>, attempts: seq<int>, done: set<nat>,
                     i: nat, slot: Option<Client>, calls: int)
    requires Retrying(wallets, base, s, provision, pass, slots0, attempts0, slots, attempts, done)
    requires i < |wallets|
    requires slot == SlotAfter(wallets[i], base + i, s, provision, pass)
    requires calls == CallsBy(provision, base + i, pass)
    ensures Retrying(wallets, base, s, provision, pass, slots0, attempts0, slots[i := slot], attempts[i := calls], done + {i})
  {
  }

  /** One retry pass over the empty slots listed in `restart`: each is re-provisioned and,
      when `start_client` succeeds, filled with its own client. */
  method RetryPassSlots(wallets: seq<WalletSpec>, base: nat, s: Scenario, provision: Provision, pass: nat,
                        restart: seq<nat>, slots0: seq<Option<Client>>, attempts0: seq<int>)
    returns (slots: seq<Option<Client>>, attempts: seq<int>)
    requires 1 <= pass <= RetryPasses
    requires AtPass(wallets, base, s, provision, pass - 1, slots0, attempts0)
    requires forall t: nat :: t in restart <==> t < |slots0| && slots0[t].None?
    requires forall a, b :: 0 <= a < b < |restart| ==> restart[a] < restart[b]
    ensures AtPass(wallets, base, s, provision, pass, slots, attempts)
  {
    slots, attempts := slots0, attempts0;
    ghost var done: set<nat> := {};
    var k := 0;
    while k < |restart|
      invariant 0 <= k <= |restart|
      invariant forall a :: 0 <= a < k ==> restart[a] in done
      invariant forall a :: k <= a < |restart| ==> restart[a] !in done
      invariant Retrying(wallets, base, s, provision, pass, slots0, attempts0, slots, attempts, done)
    {
      var i := restart[k];
      assert i in restart;
      RetriedSlot(wallets[i], base + i, s, provision, pass, slots[i], attempts[i]);
      ghost var slots1, attempts1 := slots, attempts;
      var started := provision(base + i, pass);
      if started {
        slots := slots[i := Some(ResolveClient(base + i, wallets[i], s))];
      } else {
        assert slots == slots[i := slots[i]];
      }
      attempts := attempts[i := attempts[i] + 1];
      RetryingStep(wallets, base, s, provision, pass, slots0, attempts0, slots1, attempts1, done, i, slots[i], attempts[i]);
      done := done + {i};
      k := k + 1;
    }
    forall t | 0 <= t < |wallets|
      ensures slots[t] == SlotAfter(wallets[t], base + t, s, provision, pass)
      ensures attempts[t] == CallsBy(provision, base + t, pass)
    {
      if t !in done {
        assert t !in restart;
        KeptSlot(wallets[t], base + t, s, provision, pass - 1, pass, slots[t], attempts[t]);
      }
    }
  }

  /** Provision the wallets, then retry the empty slots for up to RetryPasses passes, stopping
      early once none is empty; `attempts[j]` counts the `start_client` calls for wallet `j`.
      The thread pool's fan-out is sequential here. */
  method ProvisionSlots(wallets: seq<WalletSpec>, base: nat, s: Scenario, provision: Provision)
    returns (slots: seq<Option<Client>>, attempts: seq<int>)
    ensures slots == Slots(wallets, base, s, provision)
    ensures |attempts| == |wallets|
    ensures forall j :: 0 <= j < |wallets| ==> attempts[j] == StartCalls(provision, base + j)
  {
    slots, attempts := FirstPassSlots(wallets, base, s, provision);
    var pass := 1;
    while pass <= RetryPasses
      invariant 1 <= pass <= RetryPasses + 1
      invariant AtPass(wallets, base, s, provision, pass - 1, slots, attempts)
    {
      var restart := EmptySlots(slots);
      if restart == [] {
        assert forall t :: 0 <= t < |slots| ==> t !in restart;
        SettledPass(wallets, base, s, provision, pass - 1, slots, attempts);
        break;
      }
      slots, attempts := RetryPassSlots(wallets, base, s, provision, pass, restart, slots, attempts);
      pass := pass + 1;
    }
    assert AtPass(wallets, base, s, provision, RetryPasses, slots, attempts);
  }

  /** Once no slot is empty, later passes would change nothing. */
  lemma SettledPass(wallets: seq<WalletSpec>, base: nat, s: Scenario, provision: Provision, p: nat,
                    slots: seq<Option<Client>>, attempts: seq<int>)
    requires p <= RetryPasses
    requires AtPass(wallets, base, s, provision, p, slots, attempts)
    requires forall t :: 0 <= t < |slots| ==> slots[t].Some?
    ensures AtPass(wallets, base, s, provision, RetryPasses, slots, attempts)
  {
    forall t | 0 <= t < |wallets|
      ensures slots[t] == SlotAfter(wallets[t], base + t, s, provision, RetryPasses)
      ensures attempts[t] == CallsBy(provision, base + t, RetryPasses)
    {
      KeptSlot(wallets[t], base + t, s, provision, p, RetryPasses, slots[t], attempts[t]);
    }
  }

  /** The number of `start_client` calls for `idx` over the whole of `start_clients`. */
  function StartCalls(provision: Provision, idx: nat): (n: nat)
    ensures 1 <= n <= RetryPasses + 1
  {
    CallsBy(provision, idx, RetryPasses)
  }

  // ---------------------------------------------------------------------------
  // What provisioning leaves.

  lemma {:induction false} SurvivorsMembers(slots: seq<Option<Client>>, c: Client)
    ensures c in Survivors(slots) <==> Some(c) in slots
  {
    if slots != [] {
      var init := slots[..|slots| - 1];
      SurvivorsMembers(init, c);
      assert slots == init + [slots[|slots| - 1]];
    }
  }

  lemma {:induction false} SurvivorsLength(slots: seq<Option<Client>>)
    ensures |Survivors(slots)| == |slots| - |EmptySlots(slots)|
  {
    if slots != [] {
      SurvivorsLength(slots[..|slots| - 1]);
    }
  }

  /** With no empty slot nothing is dropped: the started clients are the slots' contents. */
  lemma {:induction false} SurvivorsOfFull(slots: seq<Option<Client>>)
    requires forall t :: 0 <= t < |slots| ==> slots[t].Some?
    ensures Survivors(slots) == seq(|slots|, t requires 0 <= t < |slots| => slots[t].value)
  {
    if slots != [] {
      SurvivorsOfFull(slots[..|slots| - 1]);
    }
  }

  /** Slot `j` holds the client of index `base + j`, if any. */
  predicate IndexedFrom(slots: seq<Option<Client>>, base: nat) {
    forall t :: 0 <= t < |slots| && slots[t].Some? ==> slots[t].value.index == base + t
  }

  /** The started clients keep the wallets' order: their indices strictly increase and lie in
      [base, base + number of wallets). */
  lemma {:induction false} SurvivorsInOrder(slots: seq<Option<Client>>, base: nat)
    requires IndexedFrom(slots, base)
    ensures var r := Survivors(slots);
      && (forall t :: 0 <= t < |r| ==> base <= r[t].index < base + |slots|)
      && (forall a, b :: 0 <= a < b < |r| ==> r[a].index < r[b].index)
  {
    if slots != [] {
      var init, last := slots[..|slots| - 1], slots[|slots| - 1];
      assert IndexedFrom(init, base);
      SurvivorsInOrder(init, base);
      if last.Some? {
        assert Survivors(slots) == Survivors(init) + [last.value];
        assert last.value.index == base + |init|;
      } else {
        assert Survivors(slots) == Survivors(init);
      }
    }
  }

  lemma SlotsIndexed(wallets: seq<WalletSpec>, base: nat, s: Scenario, provision: Provision)
    ensures IndexedFrom(Slots(wallets, base, s, provision), base)
  {
  }

  /** At most one client per wallet is appended, in wallet order, each with its own index. */
  lemma StartedClients(wallets: seq<WalletSpec>, base: nat, s: Scenario, provision: Provision)
    ensures var r := Survivors(Slots(wallets, base, s, provision));
      && |r| <= |wallets|
      && (forall t :: 0 <= t < |r| ==> base <= r[t].index < base + |wallets|)
      && (forall a, b :: 0 <= a < b < |r| ==> r[a].index < r[b].index)
      && (forall t :: 0 <= t < |r| ==> r[t] == ResolveClient(r[t].index, wallets[r[t].index - base], s))
  {
    var slots := Slots(wallets, base, s, provision);
    SlotsIndexed(wallets, base, s, provision);
    SurvivorsInOrder(slots, base);
    SurvivorsLength(slots);
    SurvivorsResolved(wallets, base, s, provision);
  }

  lemma SurvivorsResolved(wallets: seq<WalletSpec>, base: nat, s: Scenario, provision: Provision)
    ensures var r := Survivors(Slots(wallets, base, s, provision));
      forall t :: 0 <= t < |r| ==>
        base <= r[t].index < base + |wallets| && r[t] == ResolveClient(r[t].index, wallets[r[t].index - base], s)
  {
    var r := Survivors(Slots(wallets, base, s, provision));
    forall t | 0 <= t < |r|
      ensures base <= r[t].index < base + |wallets|
      ensures r[t] == ResolveClient(r[t].index, wallets[r[t].index - base], s)
    {
      SurvivorResolved(wallets, base, s, provision, r[t]);
    }
  }

  /** A started client is the one its own wallet resolves to. */
  lemma SurvivorResolved(wallets: seq<WalletSpec>, base: nat, s: Scenario, provision: Provision, c: Client)
    requires c in Survivors(Slots(wallets, base, s, provision))
    ensures base <= c.index < base + |wallets|
    ensures c == ResolveClient(c.index, wallets[c.index - base], s)
  {
    var slots := Slots(wallets, base, s, provision);
    SurvivorsMembers(slots, c);
    var j :| 0 <= j < |slots| && slots[j] == Some(c);
    assert c == ResolveClient(base + j, wallets[j], s);
  }

  /** When every wallet starts on the first pass, all of them are appended, in order. */
  lemma AllStartFirstPass(wallets: seq<WalletSpec>, base: nat, s: Scenario, provision: Provision)
    requires forall idx :: base <= idx < base + |wallets| ==> provision(idx, 0)
    ensures Survivors(Slots(wallets, base, s, provision))
      == seq(|wallets|, j requires 0 <= j < |wallets| => ResolveClient(base + j, wallets[j], s))
  {
    var slots := Slots(wallets, base, s, provision);
    forall t | 0 <= t < |slots|
      ensures slots[t] == Some(ResolveClient(base + t, wallets[t], s))
    {
      assert provision(base + t, 0);
      SlotSettled(provision, base + t, 0, RetryPasses);
    }
    SurvivorsOfFull(slots);
  }

  /** A wallet whose every pass fails gets all RetryPasses + 1 calls and no client. */
  lemma NeverStarts(w: WalletSpec, idx: nat, s: Scenario, provision: Provision)
    requires forall p: nat :: p <= RetryPasses ==> !provision(idx, p)
    ensures SlotAfter(w, idx, s, provision, RetryPasses) == None
    ensures StartCalls(provision, idx) == RetryPasses + 1
  {
    NeverStartedBy(provision, idx, RetryPasses);
  }

  lemma {:induction false} NeverStartedBy(provision: Provision, idx: nat, p: nat)
    requires p <= RetryPasses
    requires forall q: nat :: q <= RetryPasses ==> !provision(idx, q)
    ensures !StartedBy(provision, idx, p) && CallsBy(provision, idx, p) == p + 1
  {
    assert !provision(idx, p);
    if p > 0 {
      NeverStartedBy(provision, idx, p - 1);
    }
  }

  // ---------------------------------------------------------------------------
  // The write-back of a retry pass.

  /** Corrected: the client restarted for empty slot `j` is written back to slot `j`. */
  function RetryPass(slots: seq<Option<Client>>, wallets: seq<WalletSpec>, base: nat, s: Scenario, provision: Provision, pass: nat): (r: seq<Option<Client>>)
    requires |slots| == |wallets|
  {
    seq(|slots|, j requires 0 <= j < |slots| =>
      if slots[j].None? && provision(base + j, pass) then Some(ResolveClient(base + j, wallets[j], s)) else slots[j])
  }

  /** As written: the client restarted for empty slot `j` is written to position `base + j`
      of the new list; a position past its end raises (None). */
  function RetryPassAsWritten(slots: seq<Option<Client>>, wallets: seq<WalletSpec>, base: nat, s: Scenario, provision: Provision, pass: nat): (r: Option<seq<Option<Client>>>)
    requires |slots| == |wallets|
  {
    if exists j :: 0 <= j < |slots| && slots[j].None? && provision(base + j, pass) && base + j >= |slots| then None
    else
      Some(seq(|slots|, t requires 0 <= t < |slots| =>
        if base <= t && slots[t - base].None? && provision(t, pass)
        then Some(ResolveClient(t, wallets[t - base], s))
        else slots[t]))
  }

  /** The corrected pass is the one the provisioning loop makes: slot `j` moves from pass
      `p - 1` to pass `p`. */
  lemma RetryPassIsPass(wallets: seq<WalletSpec>, base: nat, s: Scenario, provision: Provision, p: nat)
    requires 1 <= p <= RetryPasses
    ensures forall slots: seq<Option<Client>>, attempts: seq<int> ::
      AtPass(wallets, base, s, provision, p - 1, slots, attempts) ==>
        AtPass(wallets, base, s, provision, p, RetryPass(slots, wallets, base, s, provision, p), PassAttempts(slots, attempts))
  {
  }

  /** The call counts after a retry pass: one more for every empty slot. */
  function PassAttempts(slots: seq<Option<Client>>, attempts: seq<int>): seq<int>
    requires |slots| == |attempts|
  {
    seq(|slots|, j requires 0 <= j < |slots| => if slots[j].None? then attempts[j] + 1 else attempts[j])
  }

  /** With an empty registry on entry, as at the start of a run, the offset is 0 and the
      written pass is the corrected one. */
  lemma AsWrittenAtZeroBase(slots: seq<Option<Client>>, wallets: seq<WalletSpec>, s: Scenario, provision: Provision, pass: nat)
    requires |slots| == |wallets|
    ensures RetryPassAsWritten(slots, wallets, 0, s, provision, pass) == Some(RetryPass(slots, wallets, 0, s, provision, pass))
  {
    assert !exists j :: 0 <= j < |slots| && slots[j].None? && provision(0 + j, pass) && 0 + j >= |slots|;
    var r := RetryPassAsWritten(slots, wallets, 0, s, provision, pass);
    assert r.Some?;
    var fixed := RetryPass(slots, wallets, 0, s, provision, pass);
    assert |r.value| == |slots| == |fixed|;
    forall t | 0 <= t < |slots|
      ensures r.value[t] == fixed[t]
    {
      assert t - 0 == t;
    }
    assert r.value == fixed;
  }

  /** With a non-empty registry, restarting the last wallet successfully writes past the end
      of the list: the pass raises instead of keeping the client. */
  lemma AsWrittenRaises(slots: seq<Option<Client>>, wallets: seq<WalletSpec>, base: nat, s: Scenario, provision: Provision, pass: nat)
    requires |slots| == |wallets| && slots != []
    requires base >= 1
    requires slots[|slots| - 1].None? && provision(base + |slots| - 1, pass)
    ensures RetryPassAsWritten(slots, wallets, base, s, provision, pass) == None
    ensures RetryPass(slots, wallets, base, s, provision, pass)[|slots| - 1] == Some(ResolveClient(base + |slots| - 1, wallets[|slots| - 1], s))
  {
    assert var j := |slots| - 1; slots[j].None? && provision(base + j, pass) && base + j >= |slots|;
  }

  /** With a non-empty registry, a restarted client lands in the next slot: it overwrites the
      client there, and its own slot stays empty. */
  lemma AsWrittenMisplaces(c: Client, w0: WalletSpec, w1: WalletSpec, s: Scenario, provision: Provision)
    requires provision(1, 1)
    ensures var r := RetryPassAsWritten([None, Some(c)], [w0, w1], 1, s, provision, 1);
      && r == Some([None, Some(ResolveClient(1, w0, s))])
      && RetryPass([None, Some(c)], [w0, w1], 1, s, provision, 1) == [Some(ResolveClient(1, w0, s)), Some(c)]
  {
    var slots: seq<Option<Client>> := [None, Some(c)];
    assert !exists j :: 0 <= j < |slots| && slots[j].None? && provision(1 + j, 1) && 1 + j >= |slots|;
    var r := RetryPassAsWritten(slots, [w0, w1], 1, s, provision, 1);
    assert r.Some?;
    assert |r.value| == 2;
    assert r.value[0] == None;
    assert r.value[1] == Some(ResolveClient(1, w0, s));
    assert r.value == [None, Some(ResolveClient(1, w0, s))];
    var fixed := RetryPass(slots, [w0, w1], 1, s, provision, 1);
    assert |fixed| == 2 && fixed[0] == Some(ResolveClient(1, w0, s)) && fixed[1] == Some(c);
    assert fixed == [Some(ResolveClient(1, w0, s)), Some(c)];
  }
}
