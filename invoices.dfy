/**
 * The invoice queue that `prepare_invoices` fills and `update_invoice_payments` drains:
 * a dictionary from due time `(block, round)` to the invoices waiting for it.
 */
module Invoices {
  import opened Common
  import opened Config
  import opened Batching
  import opened Payments

  type Queue = map<DueTime, seq<Invoice>>

  /** A queued invoice together with the due time it is filed under. */
  type Entry = (DueTime, Invoice)

  /** The invoices waiting under `k`; a missing key holds none. */
  function Bucket(q: Queue, k: DueTime): seq<Invoice> {
    if k in q then q[k] else []
  }

  // ---------------------------------------------------------------------------
  // Filling the queue.

  /** Where a fund is filed: a plain amount at (0, 0), an object at its own delays. */
  function FundDue(f: Fund): DueTime {
    match f
    case Amount(_) => (0, 0)
    case Scheduled(_, b, r) => (b.GetOr(0), r.GetOr(0))
  }

  /** The amount a fund asks for; an object without "value" asks for 0. */
  function FundValue(f: Fund): int {
    match f
    case Amount(v) => v
    case Scheduled(v, _, _) => v.GetOr(0)
  }

  /** Append one invoice to the bucket of its due time, creating the bucket if needed. */
  function Enqueue(q: Queue, e: Entry): Queue {
    q[e.0 := Bucket(q, e.0) + [e.1]]
  }

  function EnqueueAll(q: Queue, es: seq<Entry>): Queue {
    if es == [] then q else Enqueue(EnqueueAll(q, es[..|es| - 1]), es[|es| - 1])
  }

  /** The invoices of `es` filed under `k`, in the order of `es`. */
  function EntriesAt(es: seq<Entry>, k: DueTime): seq<Invoice> {
    if es == [] then []
    else
      var e := es[|es| - 1];
      EntriesAt(es[..|es| - 1], k) + (if e.0 == k then [e.1] else [])
  }

  /** A client and the funds it is to receive. */
  type Plan = seq<(Client, seq<Fund>)>

  /** The entries for one client's funds: fund `j` is paid to the client's `j`-th fresh
      address, `newAddress(client index, j)`. */
  function ClientEntries(c: Client, funds: seq<Fund>, newAddress: (nat, nat) -> string): seq<Entry> {
    seq(|funds|, j requires 0 <= j < |funds| => (FundDue(funds[j]), Invoice(newAddress(c.index, j), FundValue(funds[j]))))
  }

  /** The entries of a plan, client after client, each client's funds in order. */
  function PlanEntries(plan: Plan, newAddress: (nat, nat) -> string): seq<Entry> {
    if plan == [] then []
    else
      var last := plan[|plan| - 1];
      PlanEntries(plan[..|plan| - 1], newAddress) + ClientEntries(last.0, last.1, newAddress)
  }

  /** The number of funds in a plan. */
  function PlanFunds(plan: Plan): nat {
    if plan == [] then 0 else PlanFunds(plan[..|plan| - 1]) + |plan[|plan| - 1].1|
  }

  /** As written: `zip(clients, wallets)` pairs the i-th started client with the i-th wallet
      and stops at the shorter of the two. */
  function ZipPlan(clients: seq<Client>, wallets: seq<WalletSpec>): Plan {
    var n := if |clients| <= |wallets| then |clients| else |wallets|;
    seq(n, i requires 0 <= i < n => (clients[i], FundsOf(wallets[i])))
  }

  /** Corrected: every client gets the funds of the wallet it was started from. */
  function FundingPlan(clients: seq<Client>, wallets: seq<WalletSpec>): Plan {
    seq(|clients|, i requires 0 <= i < |clients| =>
      (clients[i], if clients[i].index < |wallets| then FundsOf(wallets[clients[i].index]) else []))
  }

  // ---------------------------------------------------------------------------
  // Draining the queue.

  /** An invoice is due once both counters have reached its due time. */
  predicate IsDue(k: DueTime, block: int, round: int) {
    k.0 <= block && k.1 <= round
  }

  function DueKeys(q: Queue, block: int, round: int): set<DueTime> {
    set k | k in q && IsDue(k, block, round)
  }

  /** What remains after every due bucket has been taken out. */
  function NotYetDue(q: Queue, block: int, round: int): Queue {
    map k | k in q && !IsDue(k, block, round) :: q[k]
  }

  /** The payments of bucket `k` see the calls numbered per bucket. */
  function BucketSender(send: (DueTime, nat) -> SendResult, k: DueTime): nat -> SendResult {
    (c: nat) => send(k, c)
  }

  /** Whether paying bucket `k` of `q` gets through every sub-batch. */
  predicate BucketPays(q: Queue, k: DueTime, send: (DueTime, nat) -> SendResult) {
    PaySchedule(Batched(Bucket(q, k), BatchSize), BucketSender(send, k)).ok
  }

  // ---------------------------------------------------------------------------
  // Counting.

  /** The number of invoices in the queue, over all buckets. */
  ghost function TotalCount(q: Queue): nat
    decreases |q.Keys|
  {
    if q == map[] then 0
    else
      var k :| k in q;
      assert (q - {k}).Keys < q.Keys;
      |q[k]| + TotalCount(q - {k})
  }

  /** The count does not depend on which bucket is counted first. */
  lemma {:induction false} TotalCountRemove(q: Queue, k: DueTime)
    requires k in q
    ensures TotalCount(q) == |q[k]| + TotalCount(q - {k})
    decreases |q.Keys|
  {
    var k' :| k' in q && TotalCount(q) == |q[k']| + TotalCount(q - {k'});
    if k' != k {
      assert (q - {k'}).Keys < q.Keys;
      assert (q - {k}).Keys < q.Keys;
      TotalCountRemove(q - {k'}, k);
      TotalCountRemove(q - {k}, k');
      assert q - {k'} - {k} == q - {k} - {k'};
    }
  }

  /** Replacing one bucket changes the count by the difference in its size. */
  lemma TotalCountUpdate(q: Queue, k: DueTime, s: seq<Invoice>)
    ensures TotalCount(q[k := s]) == TotalCount(q) - |Bucket(q, k)| + |s|
  {
    TotalCountRemove(q[k := s], k);
    assert q[k := s] - {k} == q - {k};
    if k in q {
      TotalCountRemove(q, k);
    } else {
      assert q - {k} == q;
    }
  }

  // ---------------------------------------------------------------------------
  // Properties of filling.

  /** Filing entries adds their due times to the keys and appends to each bucket exactly
      the entries filed under it, in order; no other bucket changes. */
  lemma EnqueueAllBuckets(q: Queue, es: seq<Entry>)
    ensures EnqueueAll(q, es).Keys == q.Keys + (set e | e in es :: e.0)
    ensures forall k :: Bucket(EnqueueAll(q, es), k) == Bucket(q, k) + EntriesAt(es, k)
  {
    EnqueueAllKeys(q, es);
    forall k
      ensures Bucket(EnqueueAll(q, es), k) == Bucket(q, k) + EntriesAt(es, k)
    {
      EnqueueAllBucket(q, es, k);
    }
  }

  lemma {:induction false} EnqueueAllKeys(q: Queue, es: seq<Entry>)
    ensures EnqueueAll(q, es).Keys == q.Keys + (set e | e in es :: e.0)
  {
    if es != [] {
      var init, e := es[..|es| - 1], es[|es| - 1];
      EnqueueAllKeys(q, init);
      assert es == init + [e];
      assert (set x | x in es :: x.0) == (set x | x in init :: x.0) + {e.0};
    }
  }

  lemma {:induction false} EnqueueAllBucket(q: Queue, es: seq<Entry>, k: DueTime)
    ensures Bucket(EnqueueAll(q, es), k) == Bucket(q, k) + EntriesAt(es, k)
  {
    if es == [] {
      assert Bucket(q, k) + [] == Bucket(q, k);
    } else {
      var init, e := es[..|es| - 1], es[|es| - 1];
      EnqueueAllBucket(q, init, k);
      if k == e.0 {
        assert Bucket(EnqueueAll(q, es), k) == Bucket(EnqueueAll(q, init), k) + [e.1];
      } else {
        assert Bucket(EnqueueAll(q, es), k) == Bucket(EnqueueAll(q, init), k);
        assert EntriesAt(es, k) == EntriesAt(init, k) + [];
      }
    }
  }

  /** Every entry filed adds exactly one invoice to the queue. */
  lemma {:induction false} EnqueueAllCount(q: Queue, es: seq<Entry>)
    ensures TotalCount(EnqueueAll(q, es)) == TotalCount(q) + |es|
  {
    if es != [] {
      var init, e := es[..|es| - 1], es[|es| - 1];
      EnqueueAllCount(q, init);
      TotalCountUpdate(EnqueueAll(q, init), e.0, Bucket(EnqueueAll(q, init), e.0) + [e.1]);
    }
  }

  lemma {:induction false} PlanEntriesCount(plan: Plan, newAddress: (nat, nat) -> string)
    ensures |PlanEntries(plan, newAddress)| == PlanFunds(plan)
  {
    if plan != [] {
      PlanEntriesCount(plan[..|plan| - 1], newAddress);
    }
  }

  /** Preparing the invoices of a plan grows the queue by exactly the plan's number of funds. */
  lemma PrepareCount(q: Queue, plan: Plan, newAddress: (nat, nat) -> string)
    ensures TotalCount(EnqueueAll(q, PlanEntries(plan, newAddress))) == TotalCount(q) + PlanFunds(plan)
  {
    EnqueueAllCount(q, PlanEntries(plan, newAddress));
    PlanEntriesCount(plan, newAddress);
  }

  /** A plain amount is filed at (0, 0) for its own value; an object is filed at its
      `delay_blocks`/`delay_rounds` for its "value", each of the three defaulting to 0. */
  lemma FundFiling(c: Client, funds: seq<Fund>, newAddress: (nat, nat) -> string, j: nat)
    requires j < |funds|
    ensures var e := ClientEntries(c, funds, newAddress)[j];
      && e.1.address == newAddress(c.index, j)
      && (funds[j].Amount? ==> e == ((0, 0), Invoice(newAddress(c.index, j), funds[j].amount)))
      && (funds[j].Scheduled? ==>
            e.0 == (funds[j].delayBlocks.GetOr(0), funds[j].delayRounds.GetOr(0))
            && e.1.value == funds[j].value.GetOr(0))
  {
  }

  /** Filing grows one client's entries a fund at a time. */
  lemma ClientEntriesStep(c: Client, funds: seq<Fund>, newAddress: (nat, nat) -> string, j: nat)
    requires j < |funds|
    ensures ClientEntries(c, funds[..j + 1], newAddress)
      == ClientEntries(c, funds[..j], newAddress) + [(FundDue(funds[j]), Invoice(newAddress(c.index, j), FundValue(funds[j])))]
  {
  }

  lemma PlanEntriesStep(plan: Plan, newAddress: (nat, nat) -> string, i: nat)
    requires i < |plan|
    ensures PlanEntries(plan[..i + 1], newAddress) == PlanEntries(plan[..i], newAddress) + ClientEntries(plan[i].0, plan[i].1, newAddress)
  {
    assert plan[..i + 1][..i] == plan[..i];
  }

  lemma EnqueueAllStep(q: Queue, es: seq<Entry>, e: Entry)
    ensures EnqueueAll(q, es + [e]) == Enqueue(EnqueueAll(q, es), e)
  {
    assert (es + [e])[..|es|] == es;
  }

  /** When no client was dropped, pairing by position and pairing by index agree. */
  lemma ZipPlanWithoutDrops(clients: seq<Client>, wallets: seq<WalletSpec>)
    requires |clients| == |wallets|
    requires forall i :: 0 <= i < |clients| ==> clients[i].index == i
    ensures ZipPlan(clients, wallets) == FundingPlan(clients, wallets)
  {
  }

  /** A dropped client shifts the pairing: a later client is paid the funds of the wallet
      before its own, and the last wallet's funds are never queued. */
  lemma ZipPlanMisroutes()
    ensures var c1 := Client(1, ClientName(1), "2.0.4", None, None, (0, 0), (0, 0), FirstClientHostPort + 1);
      var w0 := WalletSpec(Some([Amount(200000)]), None, None, None, None, None, None, None);
      var w1 := WalletSpec(Some([Amount(3000000)]), None, None, None, None, None, None, None);
      && ZipPlan([c1], [w0, w1]) == [(c1, [Amount(200000)])]
      && FundingPlan([c1], [w0, w1]) == [(c1, [Amount(3000000)])]
  {
  }

  /** The corrected plan gives each client its own wallet's funds. */
  lemma FundingPlanOwnFunds(clients: seq<Client>, wallets: seq<WalletSpec>, i: nat)
    requires i < |clients| && clients[i].index < |wallets|
    ensures |FundingPlan(clients, wallets)| == |clients|
    ensures FundingPlan(clients, wallets)[i] == (clients[i], FundsOf(wallets[clients[i].index]))
  {
  }

  // ---------------------------------------------------------------------------
  // Properties of draining.

  /** After draining, no bucket left is due, and every bucket that was not due is unchanged. */
  lemma NotYetDueMeaning(q: Queue, block: int, round: int)
    ensures var r := NotYetDue(q, block, round);
      && (forall k :: k in r <==> k in q && !IsDue(k, block, round))
      && (forall k :: k in r ==> r[k] == q[k])
      && r.Keys == q.Keys - DueKeys(q, block, round)
  {
  }

  /** Taking out the due buckets one by one leaves what NotYetDue keeps. */
  lemma RemoveDueKeys(q: Queue, block: int, round: int)
    ensures q - DueKeys(q, block, round) == NotYetDue(q, block, round)
  {
  }

  /** Whether a bucket pays depends only on its invoices. */
  lemma SameBucketPays(q1: Queue, q2: Queue, k: DueTime, send: (DueTime, nat) -> SendResult)
    requires k in q1 && k in q2 && q1[k] == q2[k]
    ensures BucketPays(q1, k, send) == BucketPays(q2, k, send)
  {
  }

  /** Draining twice at the same clock takes nothing more. */
  lemma NotYetDueIdempotent(q: Queue, block: int, round: int)
    ensures NotYetDue(NotYetDue(q, block, round), block, round) == NotYetDue(q, block, round)
  {
  }

  /** A later clock drains everything an earlier one did and maybe more. */
  lemma NotYetDueMonotone(q: Queue, b1: int, r1: int, b2: int, r2: int)
    requires b1 <= b2 && r1 <= r2
    ensures NotYetDue(NotYetDue(q, b1, r1), b2, r2) == NotYetDue(q, b2, r2)
    ensures NotYetDue(q, b2, r2).Keys <= NotYetDue(q, b1, r1).Keys
  {
  }

  /** Draining removes from the count exactly the invoices of the due buckets. */
  lemma {:induction false} DrainCount(q: Queue, due: set<DueTime>)
    requires due <= q.Keys
    ensures TotalCount(q - due) + DueCount(q, due) == TotalCount(q)
    decreases due
  {
    if due != {} {
      var k :| k in due;
      assert (q - {k}) - (due - {k}) == q - due;
      DrainCount(q - {k}, due - {k});
      TotalCountRemove(q, k);
      DueCountRemove(q, due, k);
    } else {
      assert q - due == q;
      assert Restrict(q, due) == map[];
    }
  }

  /** The buckets `due` of `q`. */
  function Restrict(q: Queue, due: set<DueTime>): Queue {
    map k | k in due && k in q :: q[k]
  }

  /** The number of invoices in the buckets `due` of `q`. */
  ghost function DueCount(q: Queue, due: set<DueTime>): nat {
    TotalCount(Restrict(q, due))
  }

  lemma DueCountRemove(q: Queue, due: set<DueTime>, k: DueTime)
    requires due <= q.Keys && k in due
    ensures DueCount(q, due) == |q[k]| + DueCount(q - {k}, due - {k})
  {
    var m := Restrict(q, due);
    TotalCountRemove(m, k);
    assert m - {k} == Restrict(q - {k}, due - {k});
  }
}
