# Coinjoin simulation manager: a Dafny model

This project models the core of the coinjoin simulation manager (`manager.py`). The manager
starts a Bitcoin node, a WabiSabi coordinator and a set of Wasabi wallet clients, each in a
container. It then funds the clients by paying them invoices, and switches each client's
coinjoin participation on and off as the simulation's round and block counters advance.

The model covers these parts of `manager.py`:

- **Configuration resolution.** How `start_client` settles a wallet's version, anon score
  target, red-coin isolation, delay and stop thresholds, container name and host port.
  The two tuning settings are gated by a lexicographic comparison of version strings.
  The module is `Config`.
- **Provisioning.** In `start_clients`, a first pass starts every wallet. Up to three retry
  passes then restart the slots still empty. Finally the empty slots are dropped and the
  started clients join the registry, in wallet order. The module is `Population`.
- **Invoices.** `prepare_invoices` files one invoice per fund of each client's wallet
  under the fund's due time (delay in blocks, delay in rounds). Each bucket is then shuffled.
  The module is `Invoices`.
- **Payments.** `pay_invoices` splits the invoices into sub-batches of five. Each sub-batch
  gets up to three send attempts; an exception and a "timeout" result both count as a
  failed attempt. When all three attempts fail, the payment raises. The modules are
  `Batching` and `Payments`.
- **Participation.** `start_condition` / `update_coinjoins` split the registry into the
  clients to start and the clients to stop, at the current clock. The module is
  `Participation`.
- **Clock.** `run`'s loop condition, where a limit of 0 means none and either nonzero limit
  stops the run. The round count is taken from the coordinator's id store, one line per
  round. Each of the two counter reads is retried up to three times. The module is `Clock`.
- **Images.** `prepare_image`, `prepare_client_images` and `prepare_images`: each image is
  reused, pulled or built. The module is `Images`.
- **The manager.** The module-level state of the manager (client registry, invoice queue,
  round and block counters) is the class `Engine.Manager`. Its methods `start_clients`,
  `prepare_invoices`, `update_invoice_payments`, one pass of the main loop, and `run` from the
  clients' start on update that state in place. `update_coinjoins` only reads it.

External calls are parameters of the model:

- `provision(idx, pass)` says whether `start_client` for index `idx` succeeds on a given pass.
- `newAddress(index, fund)` stands for `get_new_address`.
- `send(dueTime, callNo)` is the distributor's answer to a call.
- `peek` and `blockCount` are the store and node reads, per tick and attempt.
- `hasImage` is the driver's image lookup.

`random.shuffle` becomes "some permutation". The iteration order of the invoice dictionary
becomes "some order" of the due keys.

Two behaviours of the loop are easy to misread:

- The loop ends as soon as EITHER nonzero limit is reached. `Clock.Continues`,
  `Clock.EitherLimitStops`.
- A successful read replaces a counter even when the new value is lower, so the counters
  are not monotone. `Clock.ReadMayLower`.

## Model

| member | source | states |
|---|---|---|
| Config.VersionGateIsLexicographic | manager.py:201 | the version gate is Python's string order: "2.0.2" is gated, "2.0.4" is not, and "2.0.10" sorts before "2.0.3" and is gated |
| Config.ClientNameRoundTrip | manager.py:219 | the index can be read back from the zero-padded container name `wasabi-client-NNN` |
| Config.ClientNamesDistinct | manager.py:219 | two different indices never get the same container name, also beyond 999 where the padding no longer applies |
| Config.ClientNameWidth | manager.py:219 | below 1000 the name is the prefix followed by exactly three digits |
| Config.VersionGateThreshold | manager.py:201 | a version keeps its tuning settings exactly when it equals 2.0.3 or sorts after it; every version sorting before a gated one is gated |
| Config.ResolveClientSettings | manager.py:194-216 | for `Config.ResolveClient`: the version is the wallet's own, else the scenario default; each tuning setting is the wallet's own when the key is present, a null value included, else the default; a setting is dropped exactly when the version sorts before 2.0.3 |
| Config.NullSettingOverridesDefault | manager.py:196-199 | a wallet key holding null overrides a scenario default of 5: the client gets no target and passes none to its container, while a wallet without the key gets 5 |
| Config.ResolveClientIdentity | manager.py:219-250 | for `Config.ResolveClient`: delay and stop default each component to 0; the name encodes the index and the host port is 37129 + index; different indices give different names and host ports |
| Config.ClientContainerRequest | manager.py:219-237 | for `Config.ClientContainer`: the driver request names the client, runs `prefix + wasabi-client:version`, maps port 37128 to 37129 + index, gives 0.3 CPU and 1024 MB below 2.0.4 and 0.1 CPU and 768 MB otherwise, and passes a setting to the environment only when it is truthy |
| Population.ProvisionSlots | manager.py:264-292 | the provisioning passes leave every wallet's slot holding its resolved client iff `start_client` succeeded on some pass; each wallet gets one call plus one per retry pass that found its slot empty |
| Population.FirstPassSlots | manager.py:267 | the first pass calls `start_client` once per wallet, wallet `j` as index `base + j` |
| Population.RetryPassSlots | manager.py:269-292 | a retry pass restarts exactly the empty slots, each under its own index and wallet, and keeps the filled ones |
| Population.EmptySlots | manager.py:270-278 | the restart list holds exactly the positions of the empty slots, in increasing order |
| Population.CallsBy | manager.py:267-289 | a wallet gets between 1 and `p + 1` calls over passes 0 to `p` |
| Population.StartCalls | manager.py:264-292 | a wallet gets between 1 and 4 `start_client` calls |
| Population.SlotSettled | manager.py:290-292 | a started slot is never retried again: it stays started and its call count stops growing |
| Population.SettledPass | manager.py:280-281 | leaving the passes early when every slot is filled gives the same slots and call counts as running all of them |
| Population.RetryPassIsPass | manager.py:283-292 | the corrected retry pass, as a function, maps the state after pass `p - 1` to the state after pass `p` |
| Population.SurvivorsMembers | manager.py:293-294 | a client is kept iff it filled some slot |
| Population.SurvivorsLength | manager.py:293-296 | the number kept is the number of wallets less the empty slots |
| Population.SurvivorsOfFull | manager.py:280-281 | with every slot filled, nothing is dropped |
| Population.SurvivorsInOrder | manager.py:293-298 | the kept clients keep slot order: indices strictly increase within `[base, base + n)` |
| Population.StartedClients | manager.py:264-298 | the clients added are at most one per wallet, in index order, and each is the resolution of its own wallet |
| Population.SurvivorsResolved | manager.py:264-298 | every client added is the resolution of the wallet at its own index |
| Population.AllStartFirstPass | manager.py:267-281 | when every first start succeeds, all clients are added in wallet order |
| Population.NeverStarts | manager.py:269-296 | a wallet whose start always fails is called four times and dropped |
| Population.NeverStartedBy | manager.py:269-292 | a wallet that never starts gets one call per pass |
| Population.AsWrittenAtZeroBase | manager.py:286-292 | with an empty registry, the retry pass as written coincides with the corrected one |
| Population.AsWrittenRaises | manager.py:290-292 | with a non-empty registry, a restarted last slot is written past the end of the list, which raises |
| Population.AsWrittenMisplaces | manager.py:290-292 | with a non-empty registry, a restarted client overwrites the slot of another wallet's client |
| Invoices.FundFiling | manager.py:309-318 | an integer fund is paid at due time (0, 0); a dictionary fund uses its value and delays, each defaulting to 0; fund `j` goes to the client's `j`-th fresh address |
| Invoices.EnqueueAllBuckets | manager.py:319-322 | filing entries adds exactly their due times as keys, and appends to each bucket the entries filed under it, in order |
| Invoices.EnqueueAllCount | manager.py:319-322 | filing `n` entries adds `n` invoices to the queue |
| Invoices.PlanEntriesCount | manager.py:308-309 | the invoices of a plan are one per fund |
| Invoices.PrepareCount | manager.py:303-322 | preparing the invoices adds one invoice per fund of the plan |
| Invoices.ZipPlanWithoutDrops | manager.py:303-305 | when no client was dropped, pairing by position is pairing by index |
| Invoices.ZipPlanMisroutes | manager.py:303-305 | after a drop, pairing by position gives a client another wallet's funds |
| Invoices.FundingPlanOwnFunds | manager.py:303-305 | the corrected plan pairs every client with the funds of its own wallet |
| Invoices.NotYetDueMeaning | manager.py:394-401 | after the payments, exactly the buckets not yet due remain, unchanged |
| Invoices.RemoveDueKeys | manager.py:394-401 | popping every due key leaves the buckets not yet due |
| Invoices.SameBucketPays | manager.py:400-401 | whether a bucket pays depends only on the invoices filed under its due time |
| Invoices.NotYetDueIdempotent | manager.py:394-401 | a second payment pass at the same clock takes nothing |
| Invoices.NotYetDueMonotone | manager.py:394-401 | a pass at a later clock takes everything an earlier one took, and maybe more |
| Invoices.DrainCount | manager.py:394-401 | the due buckets' invoices plus the remaining ones are all the invoices |
| Batching.Batched | manager.py:335 | every sub-batch is non-empty and holds at most five invoices; all but the last hold exactly five |
| Batching.BatchedCovers | manager.py:335 | the sub-batches concatenate back to the invoices |
| Batching.BatchedCount | manager.py:335 | the number of sub-batches is the invoice count divided by five, rounded up |
| Payments.FirstAccepted | manager.py:336-348 | the attempt found is one whose call was accepted |
| Payments.FirstAcceptedMeaning | manager.py:336-348 | every attempt before the accepted one, or every attempt when none is accepted, failed |
| Payments.BatchTries | manager.py:336-342 | a sub-batch takes between 1 and 3 calls: one more than the index of its accepted attempt, and all 3 when none is accepted |
| Payments.SendSubBatch | manager.py:336-351 | the retry loop of one sub-batch succeeds iff some attempt is accepted, and stops after the accepted one |
| Payments.PayBatches | manager.py:334-355 | the payment succeeds iff every sub-batch is accepted within three attempts; the calls are the sub-batches, in order, each repeated once per attempt, and stop at the first sub-batch that fails |
| Payments.PayInvoices | manager.py:330-355 | `pay_invoices` is the batch payment of its invoices cut into sub-batches of five |
| Payments.PayScheduleMeaning | manager.py:334-355 | attempt count `j` is that of sub-batch `j` on the calls after those of the earlier sub-batches; every sub-batch but the last tried is accepted; the payment succeeds iff every sub-batch is tried and accepted; it fails iff the last sub-batch tried used all 3 calls without acceptance |
| Payments.PayFrom | manager.py:335-351 | the attempts listed are one per sub-batch tried; a successful payment tries every sub-batch |
| Payments.PaySchedule | manager.py:335-351 | at most one attempt count per sub-batch; one for each when the payment succeeds |
| Payments.AllAcceptedSchedule | manager.py:336-342 | when every call is accepted, every sub-batch takes one call |
| Payments.SendCallsOnce | manager.py:335-342 | one call per sub-batch sends exactly the sub-batches |
| Payments.PayHappyPath | manager.py:335-342 | when every call is accepted, the payment succeeds and sends every invoice exactly once, in sub-batches of at most five |
| Payments.FirstAcceptedOnlySeesAcceptance | manager.py:339-348 | which attempt is accepted depends only on which calls were accepted |
| Payments.TimeoutLikeError | manager.py:339-348 | a "timeout" result and an exception lead to the same schedule |
| Payments.SameAcceptanceSameSchedule | manager.py:335-351 | two senders that accept the same attempts give the same schedule |
| Payments.AttemptsInRange | manager.py:336-351 | every sub-batch that was tried used between 1 and 3 attempts |
| Payments.SendCallsUsePrefix | manager.py:335-351 | the calls touch only the sub-batches that were tried |
| Payments.SendCallsBound | manager.py:336 | the calls number at most three per sub-batch tried |
| Payments.PayCallsBound | manager.py:330-355 | a payment makes at most three calls per sub-batch, and there are (n + 4) / 5 sub-batches |
| Participation.Active | manager.py:369-378 | a client participates iff it has not reached a nonzero stop threshold and has reached both delays |
| Participation.Partition | manager.py:380-385 | the loop puts the active clients in `start` and the others in `stop` |
| Participation.PartitionInterleaves | manager.py:380-385 | `start` and `stop` together are the registry, each in registry order |
| Participation.SelectedMembers | manager.py:380-385 | a client is in `start` iff it is registered and active, and in `stop` iff it is registered and inactive |
| Participation.PartitionMultiset | manager.py:380-385 | every registered client is in exactly one of the two lists |
| Participation.ActiveIsConvex | manager.py:369-378 | with a clock that does not go back, a client's active period is one contiguous stretch |
| Participation.StopIsFinal | manager.py:370-373 | once a nonzero stop threshold is reached, the client stays inactive |
| Participation.StopAfterTwoRounds | manager.py:369-378 | a client with no delay and a stop after two rounds is active exactly during rounds 0 and 1 |
| Clock.Continues | manager.py:487-489 | the loop runs iff each limit is 0 or not yet reached |
| Clock.RunsForeverIffNoLimits | manager.py:487-489 | the loop condition alone never ends the run exactly when both limits are 0 |
| Clock.EitherLimitStops | manager.py:487-489 | reaching either nonzero limit stops the run |
| Clock.SplitLines | manager.py:497 | `split("\n")` gives at least one piece, none holding a newline |
| Clock.JoinSplitLines | manager.py:497 | joining the pieces with newlines gives the store back |
| Clock.SplitJoinLines | manager.py:497 | splitting newline-free pieces joined by newlines gives the pieces back |
| Clock.SplitLinesCount | manager.py:497 | the split gives one piece more than the store has newlines |
| Clock.RoundCount | manager.py:492-498 | the round count is the number of newlines in the store |
| Clock.AppendLineAddsRound | manager.py:492-498 | appending one line to the store adds one round |
| Clock.TriesFrom | manager.py:490-510 | a read takes between 1 and 3 tries |
| Clock.ReadWithRetry | manager.py:490-510 | the retry loop keeps the first value read and stops there, or keeps the old value after three failures |
| Clock.RetriedMeaning | manager.py:490-510 | the value kept is the old one when every try failed, otherwise the value of the first try that succeeded |
| Clock.AllTriesFail | manager.py:490-510 | when every try fails, the counter keeps its value after three tries |
| Clock.ReadMayLower | manager.py:492-506 | a successful read replaces the counter even when it is lower |
| Clock.BlockReader | manager.py:506 | the block counter is the node's block count less the count when the loop began |
| Clock.RoundReader | manager.py:492-498 | the round counter is the newline count of the peeked store, when the peek succeeds |
| Images.PrepareImage | manager.py:50-67 | a present image is reused unless a rebuild is forced; otherwise it is pulled when a prefix is set and built from its directory (by default `./containers/<name>`) when not |
| Images.PrefixNeverBuilds | manager.py:50-67 | with a prefix set, an image is never built |
| Images.ForceRebuildOnlyForPresent | manager.py:50-67 | for a missing image, the decision is the same as a forced rebuild of a present one |
| Images.ClientImage | manager.py:71-74 | a client version's image is `wasabi-client:<version>` from `./containers/wasabi-clients/v<first char>/<version>`; an empty version raises |
| Images.PrepareImages | manager.py:78-82 | the first image prepared is the node's and the second the coordinator's, each under its own name and with no directory, also when preparation then raises; the rest are exactly the client images prepared; it raises iff some version is empty, and otherwise prepares one image per version |
| Images.ClientImagesFrom | manager.py:70-75 | it raises iff some version is empty, and then after preparing exactly the images of the versions before the first empty one; otherwise one image per version |
| Images.ClientImagesMatch | manager.py:70-75 | each client image prepared, also before a raise, is that of its own version: under its own name and, when built, from its own directory |
| Images.ClientRunsPreparedImage | manager.py:70-75 | the image a client's container runs is the one prepared for its version |
| Engine.Manager.constructor | manager.py:42-47 | before a run the registry and the queue are empty and both counters are 0 |
| Engine.Manager.StartClients | manager.py:264-298 | the clients that started are appended to the registry in wallet order, with the indices continuing after the registry's size; `attempts` counts the calls per wallet; nothing else changes |
| Engine.Manager.PrepareInvoices | manager.py:301-325 | the queue becomes the old one with every client's funds filed under their due times, each bucket permuted |
| Engine.Manager.FileFunds | manager.py:309-322 | filing one client's funds appends its entries, in fund order, to the entries already filed |
| Engine.Manager.ShuffleBuckets | manager.py:324-325 | every bucket becomes a permutation of itself; the keys stay the same |
| Engine.Manager.Shuffle | manager.py:325 | the result is a permutation of the bucket |
| Engine.Manager.UpdateInvoicePayments | manager.py:394-401 | the pass succeeds iff every due bucket pays; then exactly the buckets not yet due remain; on failure a due bucket that failed has been removed; buckets that are not due always stay, unchanged |
| Engine.Manager.PayDue | manager.py:400-401 | popping and paying the due buckets in any order succeeds iff each of them pays, and removes them all on success |
| Engine.Manager.UpdateCoinjoins | manager.py:368-385 | the registry is split at the current clock into the active clients and the others |
| Engine.Manager.Tick | manager.py:490-513 | one loop pass reads the round counter, then the block counter, then pays the due invoices, and splits the registry only when the payments succeeded; a failed pass has removed a due bucket that did not pay; every bucket not yet due stays, and every bucket that remains was in the queue, unchanged |
| Engine.Manager.Run | manager.py:480-525 | from a fresh manager, the clients are started once and the invoices prepared once (the queue `prepared`); every bucket left is a bucket of `prepared`, unchanged; the run ends by a failed payment exactly when some bucket of `prepared` was taken and did not pay; otherwise it ends by a limit or the interrupt, and after any completed pass no invoice is due at the current clock |

## Left out

- Container drivers, RPC clients, the node, the coordinator and the distributor are left out.
  Their answers enter as the parameters named above, and their messages are not modelled.
- `start_infrastructure`, `fund_distributor`, `init_wasabi_client`, `wait_wallet` and
  `driver.stop` are left out. `wait_wallet` and the driver call feed `provision`.
- `stop_coinjoins`, `store_client_logs`, `store_logs` and `driver.cleanup` are left out.
  They are the `finally` part of `run` and only do I/O.
- Thread pools run their calls one after the other in the model. Their order does not
  affect the results modelled.
- `sleep`, random delays, printing, timestamps and the command-line parser are left out.
- `manager/utils.py` is not part of this model. `utils.batched` is taken to cut a list into
  consecutive chunks of the given size, the last one possibly shorter.
- A fund that is neither an integer nor a dictionary is not modelled. As the first fund
  `prepare_invoices` handles, it raises `UnboundLocalError` when `value` is read at line 318;
  after any other fund, it files the previous fund's `value` again, at due time (0, 0) and to a
  fresh address. The scenario generator only produces integers and dictionaries.
- A wallet or fund key holding null is modelled only for the two tuning settings, where the
  source treats it as "no setting". Elsewhere each key of the model is absent or holds a value.
- `Engine.Manager.Run` models only the payment failure among the exceptions of the loop body.
  It leaves out the exceptions of `prepare_images`, the infrastructure and the initial block read.
- `Engine.Manager.Run` and `Population.ProvisionSlots`: an exception escaping `start_client`
  after its `try` block (in `init_wasabi_client`, or a missing `37128` key in the driver's port
  map, lines 245-248) is not modelled; `provision` answers success or failure only.
- `Engine.Manager.Run` and `Invoices.FundFiling`: an exception from `get_new_address` at line
  318 is not modelled; `newAddress` always returns an address.
- `Engine.Manager.Run` requires a fresh manager (empty registry and queue, counters at 0), as
  at module load; `run` is called once per process.
- `Engine.Manager.Run`: the operator's interrupt is the tick bound `interruptAfter`, so each run
  ends. A run without an interrupt and without limits is not covered.
- `Engine.Manager.Run` does not call `PrepareImages`, because the image steps do not touch
  the manager's state. Image preparation is modelled on its own in `Images`.
- `Images.PrepareImages`: the client versions are a sequence. The source iterates over a
  set in some order, and that order is not modelled.
- `Engine.Manager.PrepareInvoices` uses the corrected pairing of clients with wallets (see
  Findings). The pairing as written is `Invoices.ZipPlan`.
- `Engine.Manager.Run`: its queue `prepared` is built with the corrected pairing
  (`Invoices.FundingPlan`), so after a wallet fails to start it differs from what `run` files.
  The pairing as written is `Invoices.ZipPlan`.
- `Engine.Manager.StartClients`, `Population.ProvisionSlots` and `Population.RetryPassSlots`
  use the corrected retry pass (see Findings). The pass as written is
  `Population.RetryPassAsWritten`.
- `Engine.Manager.StartClients`: a second call after a wallet was dropped would reuse indices.
  `run` calls it once only.
- `Config.ClientContainer`: CPU is kept in tenths to avoid floating point. The node and
  coordinator addresses in the environment are left out.

## Findings

| source | as written | input that shows it | evidently intended | confidence | as-written member | corrected member |
|---|---|---|---|---|---|---|
| manager.py:286-292 | a retried client is written to `new_clients[idx]`, where `idx` counts from the registry's size and not from 0 | a non-empty registry (base 1) with wallet 0's slot empty and wallet 1 started: the restart of index 1 overwrites wallet 1's client and leaves slot 0 empty; an empty last slot is written past the end and raises | write the client to position `idx - len(clients)` | not executed; latent in `run`, which starts clients into an empty registry | Population.RetryPassAsWritten (Population.AsWrittenMisplaces, Population.AsWrittenRaises) | Population.RetryPass (Population.RetryPassIsPass, Population.ProvisionSlots) |
| manager.py:303-305 | clients are paired with wallets by position in `zip(clients, wallets)` | wallet 0 fails to start and wallet 1 starts as client 1: client 1 is paired with wallet 0's funds | pair each client with the wallet at its own index | not executed | Invoices.ZipPlan (Invoices.ZipPlanMisroutes) | Invoices.FundingPlan (Invoices.FundingPlanOwnFunds, Invoices.ZipPlanWithoutDrops) |
