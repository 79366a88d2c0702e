/**
 * The manager's run-time state and the steps of a run: the client registry, the invoice
 * queue and the two clock counters, updated in place by starting the clients, preparing
 * the invoices, paying the due invoices and ticking the main loop.
 */
module Engine {
  import opened Common
  import opened Config
  import opened Participation
  import opened Payments
  import opened Invoices
  import opened Population
  import opened Clock

  /** How a run ends: a limit reached, the operator's interrupt, or an exception (here a
      payment that failed, the one exception of the loop body that is modelled). */
  datatype Outcome = LimitReached | Interrupted | Terminated

  class Manager {
    const scenario: Scenario
    var clients: seq<Client>
    var invoices: Queue
    var currentRound: int
    var currentBlock: int

    /** The state before a run: no clients, no invoices, both counters 0. */
    constructor (s: Scenario)
      ensures scenario == s
      ensures clients == [] && invoices == map[]
      ensures currentRound == 0 && currentBlock == 0
    {
      scenario := s;
      clients := [];
      invoices := map[];
      currentRound := 0;
      currentBlock := 0;
    }

    /** `start_clients`: wallet `j` is provisioned as index `|clients| + j`; the clients that
        started are appended in wallet order. `attempts[j]` counts the `start_client` calls
        for wallet `j`. */
    method StartClients(wallets: seq<WalletSpec>, provision: Provision) returns (attempts: seq<int>)
      modifies this
      ensures clients == old(clients) + Survivors(Slots(wallets, old(|clients|), scenario, provision))
      ensures invoices == old(invoices)
      ensures currentRound == old(currentRound) && currentBlock == old(currentBlock)
      ensures |attempts| == |wallets|
      ensures forall j :: 0 <= j < |wallets| ==> attempts[j] == StartCalls(provision, old(|clients|) + j)
    {
      var slots;
      slots, attempts := ProvisionSlots(wallets, |clients|, scenario, provision);
      clients := clients + Survivors(slots);
    }

    /** `prepare_invoices`: one invoice per fund of every registered client's own wallet,
        filed under the fund's due time, addressed by `newAddress(index, fund position)`;
        then every bucket is shuffled. */
    method PrepareInvoices(wallets: seq<WalletSpec>, newAddress: (nat, nat) -> string)
      modifies this
      ensures var filled := EnqueueAll(old(invoices), PlanEntries(FundingPlan(clients, wallets), newAddress));
        && invoices.Keys == filled.Keys
        && forall k :: k in invoices ==> multiset(invoices[k]) == multiset(filled[k])
      ensures clients == old(clients)
      ensures currentRound == old(currentRound) && currentBlock == old(currentBlock)
    {
      var plan := FundingPlan(clients, wallets);
      var i := 0;
      while i < |plan|
        invariant 0 <= i <= |plan|
        invariant invoices == EnqueueAll(old(invoices), PlanEntries(plan[..i], newAddress))
        invariant clients == old(clients) && currentRound == old(currentRound) && currentBlock == old(currentBlock)
      {
        var (c, funds) := plan[i];
        invoices := FileFunds(old(invoices), PlanEntries(plan[..i], newAddress), invoices, c, funds, newAddress);
        PlanEntriesStep(plan, newAddress, i);
        i := i + 1;
      }
      assert plan[..i] == plan;
      ShuffleBuckets();
    }

    /** The inner loop of `prepare_invoices`: files one client's funds, in order, onto a queue
        that already holds the entries `done` filed onto `base`. */
    static method FileFunds(ghost base: Queue, ghost done: seq<Entry>, q0: Queue, c: Client, funds: seq<Fund>,
                            newAddress: (nat, nat) -> string) returns (q: Queue)
      requires q0 == EnqueueAll(base, done)
      ensures q == EnqueueAll(base, done + ClientEntries(c, funds, newAddress))
    {
      q := q0;
      var j := 0;
      assert ClientEntries(c, funds[..j], newAddress) == [];
      assert done + [] == done;
      while j < |funds|
        invariant 0 <= j <= |funds|
        invariant q == EnqueueAll(base, done + ClientEntries(c, funds[..j], newAddress))
      {
        var f := funds[j];
        var e := (FundDue(f), Invoice(newAddress(c.index, j), FundValue(f)));
        ClientEntriesStep(c, funds, newAddress, j);
        EnqueueAllStep(base, done + ClientEntries(c, funds[..j], newAddress), e);
        assert done + ClientEntries(c, funds[..j + 1], newAddress) == done + ClientEntries(c, funds[..j], newAddress) + [e];
        q := Enqueue(q, e);
        j := j + 1;
      }
      assert funds[..j] == funds;
    }

    /** `random.shuffle` of every bucket: each becomes some permutation of itself. */
    method ShuffleBuckets()
      modifies this
      ensures invoices.Keys == old(invoices).Keys
      ensures forall k :: k in invoices ==> multiset(invoices[k]) == multiset(old(invoices)[k])
      ensures clients == old(clients)
      ensures currentRound == old(currentRound) && currentBlock == old(currentBlock)
    {
      ghost var q0 := invoices;
      var todo := invoices.Keys;
      while todo != {}
        invariant invoices.Keys == q0.Keys && todo <= q0.Keys
        invariant forall k :: k in invoices ==> multiset(invoices[k]) == multiset(q0[k])
        invariant clients == old(clients) && currentRound == old(currentRound) && currentBlock == old(currentBlock)
        decreases todo
      {
        var k :| k in todo;
        var shuffled := Shuffle(invoices[k]);
        invoices := invoices[k := shuffled];
        todo := todo - {k};
      }
    }

    /** `random.shuffle`: some permutation of `s`, any of them. */
    static method Shuffle(s: seq<Invoice>) returns (r: seq<Invoice>)
      ensures multiset(r) == multiset(s)
    {
      r :| multiset(r) == multiset(s);
    }

    /** `update_invoice_payments`: every bucket due at the current clock is taken out of the
        queue and paid, in some order; a failed payment raises (`ok` false) and leaves the
        buckets not yet reached in the queue. */
    method UpdateInvoicePayments(send: (DueTime, nat) -> SendResult) returns (ok: bool)
      modifies this
      ensures ok <==> forall k :: k in DueKeys(old(invoices), currentBlock, currentRound) ==> BucketPays(old(invoices), k, send)
      ensures ok ==> invoices == NotYetDue(old(invoices), currentBlock, currentRound)
      ensures !ok ==> exists k :: (k in DueKeys(old(invoices), currentBlock, currentRound) && k !in invoices
        && !BucketPays(old(invoices), k, send)
        && forall k' :: k' in old(invoices) && k' !in invoices && k' != k ==> BucketPays(old(invoices), k', send))
      ensures forall k :: k in invoices ==> k in old(invoices) && invoices[k] == old(invoices)[k]
      ensures forall k :: k in old(invoices) && !IsDue(k, currentBlock, currentRound) ==> k in invoices
      ensures clients == old(clients)
      ensures currentRound == old(currentRound) && currentBlock == old(currentBlock)
    {
      var due := DueKeys(invoices, currentBlock, currentRound);
      var rest;
      ok, rest := PayDue(invoices, due, send);
      if ok {
        RemoveDueKeys(invoices, currentBlock, currentRound);
      }
      invoices := rest;
    }

    /** The loop of `update_invoice_payments` over the due keys `due` of `q0`: each bucket is
        popped, then paid; the first failure stops the loop with the popped buckets gone, so
        every bucket gone but the failing one has paid and the others are still in the queue. */
    static method PayDue(q0: Queue, due: set<DueTime>, send: (DueTime, nat) -> SendResult) returns (ok: bool, rest: Queue)
      requires due <= q0.Keys
      ensures ok <==> forall k :: k in due ==> BucketPays(q0, k, send)
      ensures ok ==> rest == q0 - due
      ensures !ok ==> exists k :: (k in due && k !in rest && !BucketPays(q0, k, send)
        && forall k' :: k' in q0 && k' !in rest && k' != k ==> BucketPays(q0, k', send))
      ensures forall k :: k in rest ==> k in q0 && rest[k] == q0[k]
      ensures forall k :: k in q0 && k !in due ==> k in rest
    {
      rest := q0;
      var todo := due;
      while todo != {}
        invariant todo <= due
        invariant rest == q0 - (due - todo)
        invariant forall k :: k in due - todo ==> BucketPays(q0, k, send)
        decreases todo
      {
        var k :| k in todo;
        var bucket := Bucket(rest, k);
        assert bucket == Bucket(q0, k);
        rest := rest - {k};
        var paid, _ := PayInvoices(bucket, BucketSender(send, k));
        if !paid {
          assert !BucketPays(q0, k, send);
          return false, rest;
        }
        todo := todo - {k};
      }
      ok := true;
    }

    /** `update_coinjoins`: the registry split into the clients to start and to stop. */
    method UpdateCoinjoins() returns (start: seq<Client>, stop: seq<Client>)
      ensures start == Selected(clients, currentBlock, currentRound, true)
      ensures stop == Selected(clients, currentBlock, currentRound, false)
    {
      start, stop := Partition(clients, currentBlock, currentRound);
    }

    /** One pass of the main loop: read the round counter, then the block counter, then pay
        the due invoices and only then, when that succeeded, split the registry at the new
        clock. `peek` gives the id store per try, `blockCount` the node's count per try. */
    method Tick(peek: nat -> Option<string>, blockCount: Reader, initialBlock: int, send: (DueTime, nat) -> SendResult)
      returns (ok: bool, start: seq<Client>, stop: seq<Client>)
      modifies this
      ensures currentRound == Retried(old(currentRound), RoundReader(peek), 0)
      ensures currentBlock == Retried(old(currentBlock), BlockReader(blockCount, initialBlock), 0)
      ensures ok <==> forall k :: k in DueKeys(old(invoices), currentBlock, currentRound) ==> BucketPays(old(invoices), k, send)
      ensures ok ==> invoices == NotYetDue(old(invoices), currentBlock, currentRound)
      ensures ok ==> start == Selected(clients, currentBlock, currentRound, true)
      ensures ok ==> stop == Selected(clients, currentBlock, currentRound, false)
      ensures !ok ==> exists k :: (k in DueKeys(old(invoices), currentBlock, currentRound) && k !in invoices
        && !BucketPays(old(invoices), k, send)
        && forall k' :: k' in old(invoices) && k' !in invoices && k' != k ==> BucketPays(old(invoices), k', send))
      ensures forall k :: k in invoices ==> k in old(invoices) && invoices[k] == old(invoices)[k]
      ensures forall k :: k in old(invoices) && !IsDue(k, currentBlock, currentRound) ==> k in invoices
      ensures !ok ==> start == [] && stop == []
      ensures clients == old(clients)
    {
      var round, _ := ReadWithRetry(currentRound, RoundReader(peek));
      currentRound := round;
      var block, _ := ReadWithRetry(currentBlock, BlockReader(blockCount, initialBlock));
      currentBlock := block;
      start, stop := [], [];
      ok := UpdateInvoicePayments(send);
      if ok {
        start, stop := UpdateCoinjoins();
      }
    }

    /** `run` from the clients' start on, from the state the module starts with: start the
        clients, prepare the invoices (`prepared`), then tick while the loop condition
        holds. Tick `t` reads the store through `peek(t, _)` and the node through
        `blockCount(t, _)`; the operator interrupts before tick `interruptAfter`. */
    method Run(provision: Provision, newAddress: (nat, nat) -> string,
               peek: (nat, nat) -> Option<string>, blockCount: (nat, nat) -> Option<int>, initialBlock: int,
               send: (DueTime, nat) -> SendResult, interruptAfter: nat)
      returns (outcome: Outcome, ticks: nat, ghost prepared: Queue)
      requires clients == [] && invoices == map[] && currentRound == 0 && currentBlock == 0
      modifies this
      ensures clients == Survivors(Slots(scenario.wallets, 0, scenario, provision))
      ensures var filled := EnqueueAll(map[], PlanEntries(FundingPlan(clients, scenario.wallets), newAddress));
        && prepared.Keys == filled.Keys
        && forall k :: k in prepared ==> multiset(prepared[k]) == multiset(filled[k])
      ensures forall k :: k in invoices ==> k in prepared && invoices[k] == prepared[k]
      ensures outcome == Terminated <==> exists k :: k in prepared && k !in invoices && !BucketPays(prepared, k, send)
      ensures ticks <= interruptAfter
      ensures outcome == Interrupted ==> ticks == interruptAfter
      ensures outcome == LimitReached ==> !Continues(scenario.rounds, scenario.blocks, currentRound, currentBlock)
      ensures outcome == Terminated ==> ticks >= 1
      ensures outcome != Terminated && ticks >= 1 ==> DueKeys(invoices, currentBlock, currentRound) == {}
    {
      var _ := StartClients(scenario.wallets, provision);
      PrepareInvoices(scenario.wallets, newAddress);
      prepared := invoices;
      ticks := 0;
      while Continues(scenario.rounds, scenario.blocks, currentRound, currentBlock)
        invariant ticks <= interruptAfter
        invariant clients == Survivors(Slots(scenario.wallets, 0, scenario, provision))
        invariant forall k :: k in invoices ==> k in prepared && invoices[k] == prepared[k]
        invariant forall k :: k in prepared && k !in invoices ==> BucketPays(prepared, k, send)
        invariant ticks >= 1 ==> DueKeys(invoices, currentBlock, currentRound) == {}
        decreases interruptAfter - ticks
      {
        if ticks == interruptAfter {
          return Interrupted, ticks, prepared;
        }
        var t, before := ticks, invoices;
        var ok, _, _ := Tick((a: nat) => peek(t, a), (a: nat) => blockCount(t, a), initialBlock, send);
        ticks := ticks + 1;
        if !ok {
          var k :| k in DueKeys(before, currentBlock, currentRound) && k !in invoices && !BucketPays(before, k, send);
          SameBucketPays(before, prepared, k, send);
          return Terminated, ticks, prepared;
        }
        NotYetDueMeaning(before, currentBlock, currentRound);
        forall k | k in prepared && k !in invoices
          ensures BucketPays(prepared, k, send)
        {
          if k in before {
            SameBucketPays(before, prepared, k, send);
          }
        }
      }
      outcome := LimitReached;
    }
  }
}
