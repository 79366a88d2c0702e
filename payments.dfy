/**
 * `pay_invoices`: the distributor pays a bucket of invoices in consecutive sub-batches of
 * BatchSize, each sub-batch tried up to SendAttempts times; when a sub-batch runs out of
 * attempts the payment raises and no later sub-batch is sent.
 */
module Payments {
  import opened Common
  import opened Config
  import opened Batching

  const BatchSize: nat := 5
  const SendAttempts: nat := 3

  /** The outcome of one call of the distributor's `send`: accepted, the "timeout" result,
      or an exception (a "Bad Request" one or any other; both are only logged). */
  datatype SendResult = Accepted | TimedOut | Raised(message: string)

  /** The first attempt `j` in [a, SendAttempts) whose call, numbered `n + j`, is accepted. */
  function FirstAccepted(send: nat -> SendResult, n: nat, a: nat): (r: Option<nat>)
    ensures r.Some? ==> a <= r.value < SendAttempts && send(n + r.value).Accepted?
    ensures r.None? && a < SendAttempts ==> !send(n + a).Accepted?
    decreases SendAttempts - a
  {
    if a >= SendAttempts then None
    else if send(n + a).Accepted? then Some(a)
    else FirstAccepted(send, n, a + 1)
  }

  /** The attempts before the accepted one, or all of them when none is accepted, failed. */
  lemma {:induction false} FirstAcceptedMeaning(send: nat -> SendResult, n: nat, a: nat, j: nat)
    requires a <= j < SendAttempts
    ensures var r := FirstAccepted(send, n, a);
      (r.None? || j < r.value) ==> !send(n + j).Accepted?
    decreases SendAttempts - a
  {
    if a < j {
      FirstAcceptedMeaning(send, n, a + 1, j);
    }
  }

  /** The calls one sub-batch uses when its calls are numbered from `n`: up to and
      including the first accepted one, or all SendAttempts when none is. */
  function BatchTries(send: nat -> SendResult, n: nat): (t: nat)
    ensures 1 <= t <= SendAttempts
    ensures FirstAccepted(send, n, 0).Some? ==> t == FirstAccepted(send, n, 0).value + 1
    ensures FirstAccepted(send, n, 0).None? ==> t == SendAttempts
  {
    match FirstAccepted(send, n, 0)
    case Some(a) => a + 1
    case None => SendAttempts
  }

  /** The course of a payment: whether it completed, and the attempts each sub-batch used,
      for the sub-batches that were tried. */
  datatype Payment = Payment(ok: bool, attempts: seq<nat>)

  /** Paying `batches` from sub-batch `i` on, when the calls are numbered from `n`, call `k`
      comes to `send(k)`, and `done` lists the attempts the earlier sub-batches used. */
  function PayFrom(batches: seq<seq<Invoice>>, send: nat -> SendResult, i: nat, n: nat, done: seq<nat>): (p: Payment)
    requires i <= |batches|
    ensures |done| <= |p.attempts| <= |done| + (|batches| - i)
    ensures p.ok ==> |p.attempts| == |done| + (|batches| - i)
    decreases |batches| - i
  {
    if i == |batches| then Payment(true, done)
    else if FirstAccepted(send, n, 0).None? then Payment(false, done + [BatchTries(send, n)])
    else PayFrom(batches, send, i + 1, n + BatchTries(send, n), done + [BatchTries(send, n)])
  }

  /** The number of calls made by sub-batches 0 to `j - 1` of a schedule `a`: the call
      number sub-batch `j` starts at. */
  function Offset(a: seq<nat>, j: nat): nat
    requires j <= |a|
  {
    if j == 0 then 0 else Offset(a, j - 1) + a[j - 1]
  }

  /** The attempts already listed only prefix those of the rest of the payment. */
  lemma {:induction false} PayFromDone(batches: seq<seq<Invoice>>, send: nat -> SendResult, i: nat, n: nat, done: seq<nat>)
    requires i <= |batches|
    ensures PayFrom(batches, send, i, n, done)
      == Payment(PayFrom(batches, send, i, n, []).ok, done + PayFrom(batches, send, i, n, []).attempts)
    decreases |batches| - i
  {
    if i < |batches| && FirstAccepted(send, n, 0).Some? {
      var t := BatchTries(send, n);
      var m: nat := n + t;
      PayFromStep(batches, send, i, n, done, t, m);
      PayFromStep(batches, send, i, n, [], t, m);
      PayFromDone(batches, send, i + 1, m, done + [t]);
      PayFromDone(batches, send, i + 1, m, [] + [t]);
      var q := PayFrom(batches, send, i + 1, m, []);
      assert done + [t] + q.attempts == done + ([t] + q.attempts);
    } else if i < |batches| {
      assert [] + [BatchTries(send, n)] == [BatchTries(send, n)];
    }
  }

  /** The payment from sub-batch `i` on, calls numbered from `n`, continuing after one
      sub-batch accepted with `t` calls. */
  lemma PayFromAccepted(batches: seq<seq<Invoice>>, send: nat -> SendResult, i: nat, n: nat, t: nat, m: nat)
    requires i < |batches| && FirstAccepted(send, n, 0).Some?
    requires t == BatchTries(send, n) && m == n + t
    ensures var q := PayFrom(batches, send, i + 1, m, []);
      PayFrom(batches, send, i, n, []) == Payment(q.ok, [t] + q.attempts)
  {
    PayFromStep(batches, send, i, n, [], t, m);
    PayFromDone(batches, send, i + 1, m, [t]);
    assert [] + [t] == [t];
  }

  /** Sub-batch `j` of `a` is sub-batch `j - 1` of `a[1..]`, started `a[0]` calls later. */
  lemma {:induction false} OffsetTail(a: seq<nat>, j: nat)
    requires 1 <= j <= |a|
    ensures Offset(a, j) == a[0] + Offset(a[1..], j - 1)
  {
    if j > 1 {
      OffsetTail(a, j - 1);
      assert a[1..][j - 2] == a[j - 1];
    }
  }

  /** `a` is the schedule of sub-batches whose calls are numbered from `n`: each uses the
      calls up to its first accepted one, every one but the last is accepted, and the last
      is accepted exactly when the payment completed (`ok`). */
  ghost predicate Follows(send: nat -> SendResult, n: nat, a: seq<nat>, ok: bool)
    decreases |a|
  {
    if a == [] then ok
    else
      && a[0] == BatchTries(send, n)
      && if |a| == 1 && !ok then FirstAccepted(send, n, 0).None?
         else FirstAccepted(send, n, 0).Some? && Follows(send, n + a[0], a[1..], ok)
  }

  /** What Follows says about sub-batch `j`, which starts at call `n + Offset(a, j)`. */
  lemma {:induction false} FollowsAt(send: nat -> SendResult, n: nat, a: seq<nat>, ok: bool, j: nat)
    requires Follows(send, n, a, ok) && j < |a|
    decreases j
    ensures a[j] == BatchTries(send, n + Offset(a, j))
    ensures j < |a| - 1 || ok ==> FirstAccepted(send, n + Offset(a, j), 0).Some?
    ensures j == |a| - 1 && !ok ==> FirstAccepted(send, n + Offset(a, j), 0).None?
  {
    if j > 0 {
      var m := n + a[0];
      FollowsAt(send, m, a[1..], ok, j - 1);
      OffsetTail(a, j);
      SameCall(send, n + Offset(a, j), m + Offset(a[1..], j - 1));
    } else {
      SameCall(send, n + Offset(a, j), n);
    }
  }

  lemma SameCall(send: nat -> SendResult, x: nat, y: nat)
    requires x == y
    ensures BatchTries(send, x) == BatchTries(send, y)
    ensures FirstAccepted(send, x, 0) == FirstAccepted(send, y, 0)
  {
  }

  /** An accepted sub-batch in front of a schedule that follows the later calls. */
  lemma FollowsCons(send: nat -> SendResult, n: nat, t: nat, m: nat, r: seq<nat>, ok: bool)
    requires FirstAccepted(send, n, 0).Some? && t == BatchTries(send, n) && m == n + t
    requires Follows(send, m, r, ok)
    ensures Follows(send, n, [t] + r, ok)
  {
    var a := [t] + r;
    assert a[0] == t && a[1..] == r;
    assert n + a[0] == m;
  }

  /** The attempts of a payment follow its sends. */
  lemma {:induction false} PayFromFollows(batches: seq<seq<Invoice>>, send: nat -> SendResult, i: nat, n: nat)
    requires i <= |batches|
    ensures var p := PayFrom(batches, send, i, n, []);
      Follows(send, n, p.attempts, p.ok)
    decreases |batches| - i
  {
    var p := PayFrom(batches, send, i, n, []);
    if i == |batches| {
      assert p == Payment(true, []);
    } else if FirstAccepted(send, n, 0).Some? {
      var t := BatchTries(send, n);
      var m: nat := n + t;
      PayFromAccepted(batches, send, i, n, t, m);
      PayFromFollows(batches, send, i + 1, m);
      var q := PayFrom(batches, send, i + 1, m, []);
      FollowsCons(send, n, t, m, q.attempts, q.ok);
    } else {
      assert p == Payment(false, [] + [BatchTries(send, n)]);
    }
  }

  /** `pay_invoices`' outer loop in terms of the sends: sub-batch `j` starts at call
      `Offset(attempts, j)` and takes the calls up to its first accepted one; the payment
      completes exactly when every sub-batch is accepted, and when it raises, its last
      sub-batch tried used SendAttempts calls, none accepted, after all earlier ones were. */
  lemma PayScheduleMeaning(batches: seq<seq<Invoice>>, send: nat -> SendResult)
    ensures var p := PaySchedule(batches, send);
      forall j :: 0 <= j < |p.attempts| ==> p.attempts[j] == BatchTries(send, Offset(p.attempts, j))
    ensures var p := PaySchedule(batches, send);
      forall j :: 0 <= j < |p.attempts| - 1 ==> FirstAccepted(send, Offset(p.attempts, j), 0).Some?
    ensures var p := PaySchedule(batches, send);
      p.ok <==> |p.attempts| == |batches|
                && forall j :: 0 <= j < |p.attempts| ==> FirstAccepted(send, Offset(p.attempts, j), 0).Some?
    ensures var p := PaySchedule(batches, send);
      !p.ok ==> (|p.attempts| >= 1 && p.attempts[|p.attempts| - 1] == SendAttempts
                 && FirstAccepted(send, Offset(p.attempts, |p.attempts| - 1), 0).None?)
  {
    var p := PaySchedule(batches, send);
    PayFromFollows(batches, send, 0, 0);
    forall j | 0 <= j < |p.attempts|
      ensures p.attempts[j] == BatchTries(send, Offset(p.attempts, j))
      ensures j < |p.attempts| - 1 || p.ok ==> FirstAccepted(send, Offset(p.attempts, j), 0).Some?
      ensures j == |p.attempts| - 1 && !p.ok ==> FirstAccepted(send, Offset(p.attempts, j), 0).None?
    {
      FollowsAt(send, 0, p.attempts, p.ok, j);
      SameCall(send, 0 + Offset(p.attempts, j), Offset(p.attempts, j));
    }
    if !p.ok {
      assert p.attempts != [];
      var last := |p.attempts| - 1;
      assert FirstAccepted(send, Offset(p.attempts, last), 0).None?;
      assert !(forall j :: 0 <= j < |p.attempts| ==> FirstAccepted(send, Offset(p.attempts, j), 0).Some?);
    }
  }

  /** Paying all of `batches`, the calls numbered from 0. */
  function PaySchedule(batches: seq<seq<Invoice>>, send: nat -> SendResult): (p: Payment)
    ensures |p.attempts| <= |batches|
    ensures p.ok ==> |p.attempts| == |batches|
  {
    PayFrom(batches, send, 0, 0, [])
  }

  /** The arguments of the `send` calls, in order: sub-batch `i` once per attempt it used. */
  function SendCalls(batches: seq<seq<Invoice>>, attempts: seq<nat>): seq<seq<Invoice>>
    requires |attempts| <= |batches|
  {
    if attempts == [] then []
    else
      var i := |attempts| - 1;
      SendCalls(batches, attempts[..i]) + seq(attempts[i], _ => batches[i])
  }

  lemma SendCallsStep(batches: seq<seq<Invoice>>, attempts: seq<nat>, x: nat)
    requires |attempts| < |batches|
    ensures SendCalls(batches, attempts + [x]) == SendCalls(batches, attempts) + seq(x, _ => batches[|attempts|])
  {
    assert (attempts + [x])[..|attempts|] == attempts;
  }

  /** The inner retry loop of `pay_invoices`: send one sub-batch until it is accepted,
      at most SendAttempts times; the calls are numbered from `n`. */
  method SendSubBatch(batch: seq<Invoice>, send: nat -> SendResult, n: nat) returns (accepted: bool, tries: nat)
    ensures accepted == FirstAccepted(send, n, 0).Some?
    ensures tries == BatchTries(send, n)
  {
    tries := 0;
    accepted := false;
    while tries < SendAttempts
      invariant 0 <= tries <= SendAttempts
      invariant !accepted
      invariant FirstAccepted(send, n, 0) == FirstAccepted(send, n, tries)
    {
      var result := send(n + tries);
      tries := tries + 1;
      if result.Accepted? {
        accepted := true;
        break;
      }
    }
  }

  /** The outer loop of `pay_invoices` over the sub-batches, calls numbered from 0. */
  method PayBatches(batches: seq<seq<Invoice>>, send: nat -> SendResult) returns (ok: bool, calls: seq<seq<Invoice>>)
    ensures var p := PaySchedule(batches, send);
            ok == p.ok && calls == SendCalls(batches, p.attempts)
  {
    ghost var attempts: seq<nat> := [];
    ghost var goal := PaySchedule(batches, send);
    var n: nat := 0;
    calls := [];
    var i := 0;
    while i < |batches|
      invariant 0 <= i <= |batches|
      invariant |attempts| == i
      invariant PayFrom(batches, send, i, n, attempts) == goal
      invariant calls == SendCalls(batches, attempts)
    {
      var accepted, tries := SendSubBatch(batches[i], send, n);
      SendCallsStep(batches, attempts, tries);
      calls := calls + seq(tries, _ => batches[i]);
      if !accepted {
        attempts := attempts + [tries];
        ok := false;
        return;
      }
      var next: nat := n + tries;
      PayFromStep(batches, send, i, n, attempts, tries, next);
      attempts := attempts + [tries];
      n, i := next, i + 1;
    }
    ok := true;
  }

  /** One more sub-batch paid: the schedule goes on from the next one. */
  lemma PayFromStep(batches: seq<seq<Invoice>>, send: nat -> SendResult, i: nat, n: nat, done: seq<nat>, t: nat, next: nat)
    requires i < |batches| && FirstAccepted(send, n, 0).Some?
    requires t == BatchTries(send, n) && next == n + t
    ensures PayFrom(batches, send, i, n, done) == PayFrom(batches, send, i + 1, next, done + [t])
  {
  }

  /** `pay_invoices`: `ok` is false exactly when the payment raised; `calls` lists the
      sub-batches handed to `send`, in call order. */
  method PayInvoices(invoices: seq<Invoice>, send: nat -> SendResult) returns (ok: bool, calls: seq<seq<Invoice>>)
    ensures var batches := Batched(invoices, BatchSize);
            var p := PaySchedule(batches, send);
            ok == p.ok && calls == SendCalls(batches, p.attempts)
  {
    ok, calls := PayBatches(Batched(invoices, BatchSize), send);
  }

  lemma {:induction false} AllAcceptedSchedule(batches: seq<seq<Invoice>>, send: nat -> SendResult, i: nat, n: nat, done: seq<nat>)
    requires i <= |batches|
    requires forall k :: send(k).Accepted?
    ensures PayFrom(batches, send, i, n, done) == Payment(true, done + seq(|batches| - i, _ => 1))
    decreases |batches| - i
  {
    if i < |batches| {
      assert FirstAccepted(send, n, 0) == Some(0);
      assert BatchTries(send, n) == 1;
      AllAcceptedSchedule(batches, send, i + 1, n + 1, done + [1]);
      assert (done + [1]) + seq(|batches| - (i + 1), _ => 1) == done + seq(|batches| - i, _ => 1);
    } else {
      assert done + [] == done;
    }
  }

  lemma {:induction false} SendCallsOnce(batches: seq<seq<Invoice>>, m: nat)
    requires m <= |batches|
    ensures SendCalls(batches, seq(m, _ => 1)) == batches[..m]
  {
    if m > 0 {
      assert seq(m, _ => 1)[..m - 1] == seq(m - 1, _ => 1);
      SendCallsOnce(batches, m - 1);
      assert batches[..m] == batches[..m - 1] + [batches[m - 1]];
    }
  }

  /** When every call is accepted, the invoices go out as consecutive sub-batches of at most
      five, in order, one call per sub-batch: ceil(n / 5) calls in all. */
  lemma PayHappyPath(invoices: seq<Invoice>, send: nat -> SendResult)
    requires forall k :: send(k).Accepted?
    ensures var batches := Batched(invoices, BatchSize);
      var p := PaySchedule(batches, send);
      && p.ok
      && SendCalls(batches, p.attempts) == batches
      && Concat(SendCalls(batches, p.attempts)) == invoices
      && |SendCalls(batches, p.attempts)| == (|invoices| + BatchSize - 1) / BatchSize
      && forall i :: 0 <= i < |batches| ==> 0 < |batches[i]| <= BatchSize
  {
    var batches := Batched(invoices, BatchSize);
    AllAcceptedSchedule(batches, send, 0, 0, []);
    assert [] + seq(|batches|, _ => 1) == seq(|batches|, _ => 1);
    SendCallsOnce(batches, |batches|);
    assert batches[..|batches|] == batches;
    BatchedCovers(invoices, BatchSize);
    BatchedCount(invoices, BatchSize);
  }

  /** A "timeout" result and an exception are alike: each uses up one attempt. */
  lemma {:induction false} FirstAcceptedOnlySeesAcceptance(s1: nat -> SendResult, s2: nat -> SendResult, n: nat, a: nat)
    requires forall k :: s1(k).Accepted? <==> s2(k).Accepted?
    ensures FirstAccepted(s1, n, a) == FirstAccepted(s2, n, a)
    decreases SendAttempts - a
  {
    if a < SendAttempts {
      FirstAcceptedOnlySeesAcceptance(s1, s2, n, a + 1);
    }
  }

  /** A "timeout" result and an exception are alike: whichever a failed attempt gives, the
      payment takes the same course. */
  lemma TimeoutLikeError(batches: seq<seq<Invoice>>, s1: nat -> SendResult, s2: nat -> SendResult, i: nat, n: nat, done: seq<nat>)
    requires i <= |batches|
    requires forall k :: s1(k).Accepted? <==> s2(k).Accepted?
    ensures PayFrom(batches, s1, i, n, done) == PayFrom(batches, s2, i, n, done)
  {
    forall m: nat
      ensures FirstAccepted(s1, m, 0) == FirstAccepted(s2, m, 0)
    {
      FirstAcceptedOnlySeesAcceptance(s1, s2, m, 0);
    }
    SameAcceptanceSameSchedule(batches, s1, s2, i, n, done);
  }

  /** Two senders that accept the same sub-batches at the same attempts pay alike. */
  lemma {:induction false} SameAcceptanceSameSchedule(batches: seq<seq<Invoice>>, s1: nat -> SendResult, s2: nat -> SendResult, i: nat, n: nat, done: seq<nat>)
    requires i <= |batches|
    requires forall m: nat :: FirstAccepted(s1, m, 0) == FirstAccepted(s2, m, 0)
    ensures PayFrom(batches, s1, i, n, done) == PayFrom(batches, s2, i, n, done)
    decreases |batches| - i, 1
  {
    if i == |batches| {
    } else if FirstAccepted(s1, n, 0).None? {
      SameFailure(batches, s1, s2, i, n, done);
    } else {
      SameAfterAccepted(batches, s1, s2, i, n, done);
    }
  }

  lemma {:induction false} SameAfterAccepted(batches: seq<seq<Invoice>>, s1: nat -> SendResult, s2: nat -> SendResult, i: nat, n: nat, done: seq<nat>)
    requires i < |batches| && FirstAccepted(s1, n, 0).Some?
    requires forall m: nat :: FirstAccepted(s1, m, 0) == FirstAccepted(s2, m, 0)
    ensures PayFrom(batches, s1, i, n, done) == PayFrom(batches, s2, i, n, done)
    decreases |batches| - i, 0
  {
    var t := BatchTries(s1, n);
    var m: nat := n + t;
    SameTries(s1, s2, n);
    PayFromStep(batches, s1, i, n, done, t, m);
    PayFromStep(batches, s2, i, n, done, t, m);
    SameAcceptanceSameSchedule(batches, s1, s2, i + 1, m, done + [t]);
  }

  lemma SameTries(s1: nat -> SendResult, s2: nat -> SendResult, n: nat)
    requires FirstAccepted(s1, n, 0) == FirstAccepted(s2, n, 0)
    ensures BatchTries(s1, n) == BatchTries(s2, n)
  {
  }

  lemma SameFailure(batches: seq<seq<Invoice>>, s1: nat -> SendResult, s2: nat -> SendResult, i: nat, n: nat, done: seq<nat>)
    requires i < |batches|
    requires FirstAccepted(s1, n, 0) == FirstAccepted(s2, n, 0) == None
    ensures PayFrom(batches, s1, i, n, done) == PayFrom(batches, s2, i, n, done)
  {
    assert PayFrom(batches, s1, i, n, done) == Payment(false, done + [SendAttempts]);
    assert PayFrom(batches, s2, i, n, done) == Payment(false, done + [SendAttempts]);
  }

  /** Every sub-batch that was tried used between 1 and SendAttempts attempts. */
  lemma {:induction false} AttemptsInRange(batches: seq<seq<Invoice>>, send: nat -> SendResult, i: nat, n: nat, done: seq<nat>)
    requires i <= |batches|
    requires forall j :: 0 <= j < |done| ==> 1 <= done[j] <= SendAttempts
    ensures var p := PayFrom(batches, send, i, n, done);
      forall j :: 0 <= j < |p.attempts| ==> 1 <= p.attempts[j] <= SendAttempts
    decreases |batches| - i
  {
    if i < |batches| {
      var t := BatchTries(send, n);
      var next: seq<nat> := done + [t];
      assert forall j :: 0 <= j < |next| ==> 1 <= next[j] <= SendAttempts;
      if FirstAccepted(send, n, 0).Some? {
        var m: nat := n + t;
        PayFromStep(batches, send, i, n, done, t, m);
        AttemptsInRange(batches, send, i + 1, m, next);
      } else {
        assert PayFrom(batches, send, i, n, done).attempts == next;
      }
    }
  }

  /** Only the sub-batches that were tried are ever sent: the calls depend on the prefix
      of the batches alone, so nothing after a failed sub-batch goes out. */
  lemma {:induction false} SendCallsUsePrefix(batches: seq<seq<Invoice>>, attempts: seq<nat>)
    requires |attempts| <= |batches|
    ensures SendCalls(batches, attempts) == SendCalls(batches[..|attempts|], attempts)
    decreases |attempts|
  {
    if attempts != [] {
      var i := |attempts| - 1;
      SendCallsUsePrefix(batches, attempts[..i]);
      SendCallsUsePrefix(batches[..|attempts|], attempts[..i]);
      assert batches[..|attempts|][..i] == batches[..i];
    }
  }

  /** Each sub-batch is sent at most SendAttempts times. */
  lemma {:induction false} SendCallsBound(batches: seq<seq<Invoice>>, attempts: seq<nat>)
    requires |attempts| <= |batches|
    requires forall i :: 0 <= i < |attempts| ==> attempts[i] <= SendAttempts
    ensures |SendCalls(batches, attempts)| <= SendAttempts * |attempts|
  {
    if attempts != [] {
      SendCallsBound(batches, attempts[..|attempts| - 1]);
    }
  }

  /** However the calls go, paying n invoices makes at most SendAttempts * ceil(n / 5) calls,
      and only with sub-batches of the payment's own batching. */
  lemma PayCallsBound(invoices: seq<Invoice>, send: nat -> SendResult)
    ensures var batches := Batched(invoices, BatchSize);
      var calls := SendCalls(batches, PaySchedule(batches, send).attempts);
      && |calls| <= SendAttempts * |batches|
      && |batches| == (|invoices| + BatchSize - 1) / BatchSize
  {
    var batches := Batched(invoices, BatchSize);
    var p := PaySchedule(batches, send);
    AttemptsInRange(batches, send, 0, 0, []);
    assert p == PayFrom(batches, send, 0, 0, []);
    SendCallsBound(batches, p.attempts);
    BatchedCount(invoices, BatchSize);
  }
}
