# LedgerDesk, modelled and proved

LedgerDesk is a support desk whose queue, language-model calls and promotion decisions all leave rows in a
hash-chained ledger. This project models its four densest parts in Dafny and proves what they are for.

1. **The SLA queue engine.** A composite priority and its total order (`Priority`), the same order as a
   fixed-width collating text (`Collation`), a binary heap with lazy and linear re-keying (`Heap`), the orders
   read from both (`Order`), the replay as a state machine over ticks (`Schedule`), its timetable and when it
   drains (`Drain`), the replay loop itself (`Replay`), the merge-sort inversion counter (`MergeCount`), Kendall's tau
   (`Kendall`) and the submission folder (`Dedupe`).
2. **The ledger and the spending chokepoint.** Money as text (`Money`), the row digest and verified chains
   (`Chain`), writers contending for a head (`Ledger`, `Append`), promotion attempts through crashes and races
   (`Attempts`), their reconciliation (`Reconcile`), the ceiling under overlapping calls of one process
   (`Budget`) and of several (`Processes`), the question put beforehand for a set (`Admission`), the gateway whose
   cache is the chain (`Wires`, `Gateway`) and what it keeps over any sequence of calls (`Sessions`).
3. **The strict decoder and the canonical printer.** UTF-16 text (`Utf16`), values and their canonical text
   (`Values`), the decoder as functions on the text still to be read (`Grammar`) and as a cursor moved step by
   step (`Decoder`), the three ways they undo each other (`RoundTrip`, `Accepted`, `NormalForm`), and that what is
   printed has an encoding (`Encodable`).
4. **The corpus builder and the weight sweep.** Fisher and Yates (`Shuffle`), the four sets (`Corpus`), the two
   self-tests (`Manifest`) and the rebalancing of weights in hundredths (`Sensitivity`).

`Text` and `Sequences` hold what several modules need: comparison of texts, decimal numerals, permutations, a
stable sort.

Code that changes state in the repository is a class or a method with loops here, proved against a function or
a state machine; the promises are then lemmas about that function, or invariants of every run.

## What the proofs found

- `popNext` claims that after a full pass "the root is correct by construction" (src/alg/simulation.ts:314-315).
  Keys cached earlier are never ahead of current ones, so no entry is ever put back: taken lazily, a heap gives up
  the queue as it stood when the keys were taken, however much later that is (`Order.LazyOrder`). The head is the
  current one, of every set of tickets, exactly when no time has passed, whatever the weights
  (`Order.LazyPopIsCurrentExactlyAtOnce`); a ticket that has breached since is passed over until a rebuild
  (`Order.LazyPopPassesOverBreach`).
- A raw score may leave [0, 1] by the tolerance on the weight sum; it stays inside exactly when the weights do
  not use that tolerance upwards. The stored score always fits (`Priority.RawScoreBound`,
  `Priority.StoredScoreFits`).
- `unserved` is empty "in any world whose service rate stays above its arrival rate"
  (src/alg/simulation.ts:409-410). Every service begins at an instant that the arrivals, the number of agents, the
  handling time and the tick fix beforehand (`Drain.ServicesKeepTheTimetable`), and a replay drains exactly when
  the last of these is within the horizon (`Drain.DrainsExactlyInTime`, `Replay.Replay`). It is when the tick
  divides the handling time (`Drain.DividingTickDrains`); three tickets at once with a handling time of 1 and a tick
  of 10 need until 20 and are given until 13 (`Drain.CoarseTickLeavesSomebody`). With a tick of zero the loop is
  never entered, and nobody is reported unserved.
- Tau is 1 for any candidate whose ranks never fall, also one that repeats ids: one id over and over agrees with
  every baseline (`Kendall.TauReadsTheRanks`, `Kendall.RepeatedIdsReadAsAgreement`). One and no id twice mean the
  same order (`Kendall.TauMeansWhatItSays`).
- The scalar check deletes surrogate pairs before it looks for strays, so two strays that a pair held apart pass
  it. It agrees with well-formedness exactly when no leading surrogate stands before another
  (`Utf16.WellFormedExactlyWhen`, `Utf16.StrandedHalvesPass`). The round trip holds for such text all the same.
- "Within one process the ceiling is then exact under any concurrency" (agents/gateway.ts:467-468): a row that
  lands and is released between a call's sum and its check is in neither figure, and a cut of ten can carry
  eleven (`Budget.StaleSumPassesTheCut`). Over calls of given projections the ceiling holds in every interleaving
  exactly when all that fit alone fit together (`Budget.CeilingHoldsExactlyWhenAllFit`): in the worst schedule,
  every call summing before any goes out, it stops nothing that would be admitted by itself. It is exact when no
  reservation is released between a call's sum and its check (`Budget.LockedRunsKeepTheCut`).
- Across processes the overshoot is said to be at most the number of the others times the largest projection
  (agents/gateway.ts:468-471). With the sum and the check apart, as they are at agents/gateway.ts:693 and :703, one
  process alone commits any amount: the bound holds over all runs exactly when nothing is projected or there is no
  cut (`Processes.PublishedBoundHoldsExactlyWhen`, `Processes.AnyAmount`). Under a lock on sum and check that
  releases and the rows of all processes take too, each process can take the whole cut and no more
  (`Processes.CommittedWithinCutEach`, `Processes.FullWorld`), and the bound holds exactly when there is one
  process, nothing is projected, or one largest call takes the cut (`Processes.LockedBoundHoldsExactlyWhen`); it is
  as published when calls of a process go out one at a time, and that many times it when several do
  (`Processes.OvershootOfRestrainedProcesses`).
- A provider answer of the wrong shape is raised as a provider failure, whose reservation is given back on the
  ground that "nothing was billed" (agents/gateway.ts:770-773, 1123-1137). If it was charged, the charge is in no
  figure (`Budget.ChargedFailureIsUnseen`). What is billed stays within what is recorded and reserved exactly when
  failures charge nothing, or nothing can go out
  (`Budget.NothingIsUnseenExactlyWhenFailuresAreFree`).
- The cache spares only what was written. A call whose answer was refused, timed out or could not be recorded is
  sent, and may be charged, again when it is asked again, as long as what is still reserved for it leaves room
  (`Sessions.AskedTwice`). A probe whose send landed is never sent again (`Sessions.EverySessionKeeps`); so a list of
  calls sends each probe at most once, whatever the calls meet, exactly when no two of them are of one organisation
  and probe and could each go out on the table as it stands before the first (`Sessions.SentOnceExactlyWhen`).
- A pin is checked after a fresh answer and never on a hit (agents/gateway.ts:632-671, 819). A pinned call refused
  for its model is answered by that model when it is asked again; a hit refines the direct call exactly when no
  pin is broken (`Sessions.PinIsForgotten`, `Sessions.HitRefinesDirect`).
- `wouldAdmit` projects the text its caller holds, and the calls are made on what redaction leaves
  (agents/gateway.ts:292-295, 998; src/server/draft/runner.ts:331). Calls that are all checked are admitted, whatever
  each costs, exactly when the projections that travel fit together and no free call stands where the others may
  have come to the cut, because the check refuses at the cut (`Admission.SetsAreAdmittedExactlyWhen`). A call
  answered from the chain is not checked, and needs no room: with the cache on or off, the calls of a set are passed
  at the ceiling, whatever each meets, exactly when each that the table does not answer beforehand has room beside
  all that those before it may take (`Sessions.SetsAreMadeExactlyWhen`). A passed set in which no call has grown is
  made exactly when no free call for the provider stands at the cut (`Sessions.PassedSetsAreMade`). One that has
  grown may be refused with no free call in it: the marker of an address of six characters has sixteen
  (`Sessions.AddressGrows`, `Sessions.GrownSetIsRefused`, `Admission.GrownSetIsRefused`).
- The sum the ceiling reads is one organisation's and the reservations are the process's. An admitted call keeps
  what is committed for an organisation within its cut exactly when it is that organisation's own, or happens to fit
  beside it (`Sessions.CeilingIsOfOneOrganisation`); one organisation's calls, one after another, never pass it
  (`Sessions.OneOrganisationKeepsTheCut`).
- `perturb` may answer null for a weight that stays in range: a distribution of 0.985 and three times 0.005 is
  refused without being moved, because no share can bear what rounding leaves over
  (`Sensitivity.UnevenIsRefused`). Held in hundredths, as published, it answers null exactly out of range
  (`Sensitivity.HundredthsAreBorne`).
- In a run whose last row is another organisation's, every attempt of an append conflicts, whatever the digests
  do (`Append.ForeignRunNeverAppends`), as agents/ledger/pg.ts:23-31 says.

## What is assumed

A digest is any function on texts. Nothing is supposed of it: where a result needs it to tell texts apart, the
result offers the pair of texts it confused as the alternative. A call's answer costs no more than was projected,
and neither does a charge on a call that timed out. Scores and weights are exact reals, times and money
are integers. The rows `Budget` and `Processes` sum are one organisation's, whose calls alone they follow. Other
writers of the table a gateway reads write what it would write itself. The random stream is any stream
in [0, 1).

## Model

| member | source | states |
|---|---|---|
| Priority.KeyOrderIsTotal | src/alg/priority.ts:386-392 | the four-part comparator is antisymmetric, total and transitive |
| Priority.KeysTieOnlyWhenEqual | src/alg/priority.ts:386-392 | it answers zero for equal keys and no others |
| Priority.OnlyHigherPriorityOvertakesBreached | src/alg/priority.ts:386-392 | a younger ticket ahead of a breached one is breached too and has a strictly higher stored priority |
| Priority.StoredScoreFits | src/alg/priority.ts:302-348 | for valid weights the raw score is at most the weight sum and the stored one within [0, 1] in micro-units |
| Priority.RawScoreBound | src/alg/priority.ts:194-205 | the raw score stays in [0, 1] for every ticket and instant exactly when the weights sum to at most one |
| Priority.UrgencyGrows | src/alg/priority.ts:280-290 | urgency never falls with time, through skewed clocks and degenerate windows |
| Priority.UrgencyIsSpentWhenDue | src/alg/priority.ts:280-299 | urgency is one at the due instant, the breach begins the instant after |
| Priority.KeysOnlyImprove | src/alg/priority.ts:302-378 | score and breach only grow with time, so a later key is never behind an earlier one |
| Collation.EncodesExactlyInRange | src/alg/priority.ts:434-448 | the encoding is refused exactly outside seven digits of priority and fifteen of time |
| Collation.ComputedPrioritiesEncode | src/alg/priority.ts:434-438 | the priority of a computed key never trips its guard |
| Collation.ColumnsDecideInTurn | src/alg/priority.ts:442-447 | comparing two encodings as texts reads breach, complemented priority, time and id in that order |
| Collation.CollationAgreesWithComparator | src/alg/priority.ts:457-462 | the sign of the text comparison is the comparator's, and only equal keys tie |
| Heap.QueueHeap.Swap | src/alg/simulation.ts:249-253 | exchanges two entries and keeps the multiset |
| Heap.QueueHeap.SiftUp | src/alg/simulation.ts:255-266 | repairs a heap broken at one upward edge, keeping its entries |
| Heap.QueueHeap.SiftDown | src/alg/simulation.ts:268-290 | makes the part from an index on a heap, in no more swaps than levels, touching nothing before it |
| Heap.QueueHeap.PopRoot | src/alg/simulation.ts:292-301 | takes out the first entry by cached key and leaves a heap of the others |
| Heap.QueueHeap.Push | src/alg/simulation.ts:303-311 | adds one entry keyed at the instant and leaves a heap |
| Heap.QueueHeap.PopNext | src/alg/simulation.ts:313-328 | on any heap, however stale: puts back no more entries than there are, never reaches the throw, loses exactly the returned ticket, whose current key is no later than any cached key left |
| Heap.QueueHeap.Rekey | src/alg/simulation.ts:330-333 | every key is taken again at the instant, the tickets staying where they are |
| Heap.QueueHeap.Heapify | src/alg/simulation.ts:334-336 | makes any entries a heap in at most twice as many swaps as entries |
| Heap.QueueHeap.Rebuild | src/alg/simulation.ts:330-337 | leaves a heap of the same tickets under their current keys, in linearly many swaps |
| Heap.TravelIsLinear | src/alg/simulation.ts:334-336 | the levels a bottom-up rebuild can travel are at most twice the entries |
| Order.DrainedIsTheQueue | src/alg/priority.ts:403-411 | any sorted arrangement of the current keys names the tickets in the queue's order |
| Order.StoredOrderIsTheQueue | src/alg/simulation.ts:598-607 | ordering by the collating text gives the ids of `orderQueue`, whenever the columns hold the keys |
| Order.FillHeap | src/alg/simulation.ts:615-616 | pushing tickets at one instant gives a heap of exactly their current keys |
| Order.HeapOrder | src/alg/simulation.ts:610-624 | draining a filled heap yields exactly the ids of `orderQueue` |
| Order.CachedEarlier | src/alg/simulation.ts:313-326 | keys taken no later than now are never ahead of the current ones, so lazy revalidation puts nothing back |
| Order.LazyOrder | src/alg/simulation.ts:313-328 | a heap keyed at one instant and emptied lazily at any later one gives up the queue as it stood when the keys were taken |
| Order.LazyPopIsCurrentExactlyAtOnce | src/alg/simulation.ts:313-326 | for any weights, the head when the keys were taken is the current head, of every set of tickets in hand, exactly when no time has passed |
| Order.LazyPopPassesOverBreach | src/alg/simulation.ts:313-326 | in any set, a ticket that has breached since is passed over for a head that has not, and the current head is a breached one |
| Schedule.EveryStateKeeps | src/alg/simulation.ts:446-480 | in every reachable state: served, waiting and coming are the arrivals once each; services are in time order; never more at once than agents; nobody waits past an idle agent |
| Schedule.BreachedFirst | src/alg/simulation.ts:457-474 | while a breached ticket waits, whoever is picked up is breached and precedes it |
| Drain.ServicesKeepTheTimetable | src/alg/simulation.ts:446-480 | in every reachable state service number j has begun exactly when its time has come, and began at that time: the first tick that sees arrival j and finds ended the service that many agents before it |
| Drain.BeginsWithinRounds | src/alg/simulation.ts:446-480 | that is at most one hold per round of the agents after the first tick that saw every arrival, and exactly that when all arrive at once |
| Drain.DrainsExactlyInTime | src/alg/simulation.ts:443-482 | for any sorted stream, number of agents, handling time and tick, a replay ends with every arrival served exactly when the last service begins by the horizon |
| Drain.DividingTickDrains | src/alg/simulation.ts:443-444 | a tick that divides the handling time always drains |
| Drain.CoarseTickLeavesSomebody | src/alg/simulation.ts:409-444 | three tickets at once, one agent, a handling time of 1 and a tick of 10 leave somebody unserved |
| Replay.Admit | src/alg/simulation.ts:447-450 | admits exactly the arrivals that are due, each once, and keeps the heap |
| Replay.ServeIdle | src/alg/simulation.ts:459-475 | idle agents take the head of the heap in turn, one each, until either runs out |
| Replay.SweepAndServe | src/alg/simulation.ts:457-476 | the batch is the head of the queue's order, as long as there are idle agents for it; the rest stays queued |
| Replay.BatchHeadsTheOrder | src/alg/simulation.ts:457-475 | a tick's batch is the head of `orderQueue` over the queue it was taken from, id for id |
| Replay.OneTick | src/alg/simulation.ts:446-479 | the loop body takes the state machine one tick on |
| Replay.Drive | src/alg/simulation.ts:429-482 | for a clock that moves forward, the loop's tick count, services and leftovers are those of a complete run of the state machine |
| Replay.Replay | src/alg/simulation.ts:412-482 | refuses no agents, answers empty for no arrivals and for a tick of zero, otherwise reports a complete run, with nobody unserved exactly when the last service begins by the horizon |
| MergeCount.Interleave | src/alg/simulation.ts:558-568 | the merge loop keeps its output sorted and has counted exactly the pairs it has settled |
| MergeCount.Merge | src/alg/simulation.ts:558-570 | merges two sorted runs into a sorted one and returns the pairs inverted across them |
| MergeCount.SortAndCount | src/alg/simulation.ts:554-573 | sorts its range in place, leaves the rest, returns the inversions the range had |
| MergeCount.CountInversions | src/alg/simulation.ts:550-576 | returns the inversions of the values |
| Kendall.InversionsCountPairs | src/alg/simulation.ts:550-576 | that count is the number of pairs i < j with v[i] > v[j] |
| Kendall.InversionExtremes | src/alg/simulation.ts:550-576 | it is none exactly when ascending and all pairs exactly when descending |
| Kendall.KendallTau | src/alg/simulation.ts:530-548 | refuses unequal lengths and unknown ids, otherwise one minus twice the discordant share |
| Kendall.TauReadsTheRanks | src/alg/simulation.ts:530-548 | for any candidate that is not refused tau lies in [-1, 1], is 1 exactly when its ranks never fall and -1 exactly when they always do |
| Kendall.TauMeansWhatItSays | src/alg/simulation.ts:523-548 | against a baseline of distinct ids, tau 1 and no id twice mean the same order and nothing else, and -1 the reverse and nothing else |
| Kendall.TauIsSymmetric | src/alg/simulation.ts:530-548 | tau does not depend on which order is the baseline |
| Kendall.RepeatedIdsReadAsAgreement | src/alg/simulation.ts:537-547 | one id of any baseline repeated throughout scores 1 against it |
| Dedupe.CollapseDuplicates | src/alg/priority.ts:592-616 | the walk returns the fold of its decisions |
| Dedupe.FoldConserves | src/alg/priority.ts:600-613 | every submission is admitted or absorbed, once |
| Dedupe.AbsorbedNamesItsEntry | src/alg/priority.ts:554-576 | an absorbed submission names an admitted entry of its organisation and body, opened strictly less than a window before it |
| Dedupe.FoldSpaces | src/alg/priority.ts:565-612 | admitted entries of one content are at least a window apart in a sorted stream |
| Dedupe.KeysNeverCollide | src/alg/priority.ts:510-616 | admitted keys of a sorted stream are pairwise distinct for every stream exactly when the window is positive |
| Dedupe.KeysIdentify | src/alg/priority.ts:510-512 | two keys are one text only for one content and one anchor |
| Money.TextRoundTrip | agents/canonical.ts:117-124 | reading a formatted amount gives the amount back, for every integer |
| Money.SpentIsExact | agents/ledger/pg.ts:157-173 | the sum read from the texts of costs is the sum of the integers written |
| Money.ProjectionCoversCost | agents/gateway.ts:352-358 | a call within its estimate and allowance never costs more than was projected |
| Utf16.WellFormedExactlyWhen | src/contracts/intake.ts:11-12 | the scalar check establishes well-formed text exactly when no leading surrogate stands before another |
| Utf16.StrandedHalvesPass | src/contracts/intake.ts:11-12 | a pair between the halves of another passes the check and is not well-formed |
| Utf16.CodePointsDetermine | src/contracts/access_canonical.ts:10-18 | no two texts have the same code points, so scalar order ties only equal keys |
| Utf16.SortedKeysAreTheOnlyArrangement | src/contracts/access_canonical.ts:43-53 | sorting an object's keys gives one list, however the host enumerates them |
| Decoder.Cursor.Whitespace | src/contracts/intake.ts:88 | moves the cursor past the four white-space marks |
| Decoder.Cursor.ReadText | src/contracts/intake.ts:89-95 | reads a literal to its first unguarded quote, or throws as the grammar says |
| Decoder.Cursor.ReadValue | src/contracts/intake.ts:96-114 | from any cursor, returns or throws exactly what the grammar reads there and leaves the cursor after it |
| Decoder.Cursor.ReadEntries | src/contracts/intake.ts:102-104 | the member loop refuses repeated keys and accumulates exactly the members read |
| Decoder.Cursor.ReadElements | src/contracts/intake.ts:107 | the item loop accumulates the items in order |
| Decoder.DecodeStrict | src/contracts/intake.ts:83-117 | the whole decoder is the grammar, with bound, length and trailing faults |
| RoundTrip.EscapeReads | src/contracts/access_canonical.ts:30 | every string written is read back, stranded surrogates included |
| RoundTrip.ValueReads | src/contracts/intake.ts:96-114 | canonical text, whatever follows it, reads back as its value or meets the depth limit |
| RoundTrip.ObjectReads | src/contracts/intake.ts:99-105 | an object reads back from its members written in any order |
| RoundTrip.DecodeUndoesCanonical | src/contracts/access_canonical.ts:19-57 | every value the printer accepts decodes to itself within the byte bound and depth 32, and fails with exactly that fault beyond them |
| RoundTrip.CanonicalDetermines | agents/canonical.ts:26-53 | neither printer gives two values one text, at any depth |
| Encodable.PrintedIsWellFormed | src/contracts/access_canonical.ts:19-57 | whatever either printer writes is well-formed text, stranded halves in a value included, so its bytes carry it without loss |
| Accepted.PrintsExactlyPrintable | src/contracts/access_canonical.ts:19-57 | the printer refuses a value exactly when some string, key or number in it cannot be spelled |
| Accepted.DecodedValuesPrint | src/contracts/intake.ts:83-117 | nothing the decoder returns is refused by the printer or too deep to come back |
| NormalForm.EscapeShrinks | src/contracts/access_canonical.ts:30 | a printed string takes no more bytes than any literal that spells it |
| NormalForm.CanonicalIsNormalForm | src/contracts/intake.ts:83-117 | an accepted body's canonical text is no longer than the body, is accepted under the same bound and means the same |
| NormalForm.CanonicalTextIsFixed | src/contracts/access_canonical.ts:19-57 | printing what a canonical text decodes to gives the text back |
| Chain.UnitAlwaysWrites | agents/canonical.ts:26-53 | the ledger's serialiser refuses no value of the model |
| Chain.ColumnsDetermine | agents/ledger/row.ts:103-134 | a row's columns fix the row |
| Chain.HashDeterminesRow | agents/ledger/row.ts:136-167 | two verified rows with one hash are one row, or the digest collides on them |
| Chain.HeadDeterminesChain | agents/ledger/row.ts:136-167 | two verified chains that end in one hash are equal, lengths included, or the digest collides on two of their rows |
| Ledger.HeadIsLast | migrations/0002_ledger.sql:115-116 | on a linked rising chain the highest number is the row inserted last |
| Ledger.VisibleHead | agents/ledger/pg.ts:75-80 | what a tenant reads as the head is a row of its own in that run, if it has any |
| Ledger.InsertAllKeepsRising | migrations/0002_ledger.sql:112-124 | whatever rows are proposed by whomever, accepted ones never fork or break a run |
| Ledger.OnlyTheCurrentHeadAccepts | agents/ledger/pg.ts:291-306 | a row built on a head read earlier is accepted only if that head is still the head, even if digests repeat |
| Ledger.EveryRunKeepsItsChain | agents/ledger/pg.ts:274-368 | over every interleaving of reads and writes each run is numbered 1 to n, linked, with exact running totals |
| Ledger.EveryRunVerifies | agents/ledger/row.ts:141-167 | every chain the writers can reach passes the auditor's check |
| Append.Store.AppendRow | agents/ledger/pg.ts:274-368 | six attempts against any interference: conflicts are retried, other refusals are not, and the table holds exactly the others' rows and the returned one |
| Append.Store.TryOnce | agents/ledger/pg.ts:283-346 | one transaction's verdict, row and effect |
| Append.ReturnedAppendAddsOneRow | agents/ledger/pg.ts:283-346 | a returned append contributes one row, new, last in its run and linked to the row before |
| Append.ForeignHeadConflicts | agents/ledger/pg.ts:23-31 | under another organisation's head, a row built on any row the writer has seen conflicts |
| Append.ForeignRunNeverAppends | agents/ledger/pg.ts:353-358 | while another organisation holds the head, every attempt is lost |
| Append.AloneAppendsExactlyOnOwnHead | agents/ledger/pg.ts:274-368 | with nobody else about, a legal row is accepted exactly when the head is the writer's own and no digest repeats |
| Attempts.EveryRunIsSafe | agents/ledger/promotion_row.ts:969-1065 | through crashes, lost answers, re-runs and races: at most one start, at most one terminal, no terminal without an earlier start, both in place for whoever returns |
| Attempts.StepKeepsSafe | agents/ledger/promotion_row.ts:1005-1065 | each statement of the writer keeps that |
| Attempts.RerunCompletesTheHalf | agents/ledger/promotion_row.ts:1005-1040 | running the mandate again over a dangling start files the terminal alone and returns exactly when the run's head is the writer's own and no digest repeats, and files nothing otherwise |
| Reconcile.ReconcileAttempts | src/alg/promotion_panel.ts:289-328 | the three lists are exactly the two anti-joins and the misnamed, in order, and each verdict holds exactly when it should |
| Reconcile.FilingsTell | src/alg/promotion_panel.ts:289-304 | the reader's rows say of an attempt what the table holds |
| Reconcile.ReconciliationIsExact | src/alg/promotion_panel.ts:289-328 | over every table the writers can leave nothing is orphaned or misnamed and the dangling attempts are exactly the half-filed |
| Budget.EveryRunIsBalanced | agents/gateway.ts:691-813 | over every interleaving within a process, recorded plus pending exceeds the cut by no more than the latest admission overlooked and others wrote since, and billed never exceeds recorded plus reserved but for charged failures |
| Budget.LockedRunsKeepTheCut | agents/gateway.ts:446-473 | when no reservation is released between a call's sum and its check the cut is kept, over every interleaving |
| Budget.CeilingHoldsExactlyWhenAllFit | agents/gateway.ts:691-718 | over calls of given projections every interleaving keeps the cut exactly when those that fit alone fit together |
| Budget.StaleSumPassesTheCut | agents/gateway.ts:691-718 | two calls of one process take a cut of ten to eleven |
| Budget.ReserveKeepsBalanced | agents/gateway.ts:699-763 | what an admission may add is bounded by what settled since its sum |
| Budget.OtherMovesAreEven | agents/gateway.ts:763-813 | timeouts, refused responses, lost rows and releases never free money that may have been spent |
| Budget.ChargedFailureIsUnseen | agents/gateway.ts:766-776 | a failure that was charged is missing from every figure by exactly the charge |
| Budget.NothingIsUnseenExactlyWhenFailuresAreFree | agents/gateway.ts:766-776 | over all runs whose failures charge at most a limit, billed stays within recorded and reserved exactly when the limit or the cut is zero |
| Processes.PublishedBoundHoldsExactlyWhen | agents/gateway.ts:467-473 | with sum and check apart, one largest projection for each other process bounds every overshoot exactly when nothing is projected or there is no cut |
| Processes.AnyAmount | agents/gateway.ts:691-718 | one process alone commits any amount, in calls of one that all sum before any goes out |
| Processes.OvershootIsWhatOthersHaveOut | agents/gateway.ts:467-473 | over every interleaving in which nothing settles between a sum and its check, recorded and pending pass the cut by no more than what each of the others can have out |
| Processes.OvershootOfRestrainedProcesses | agents/gateway.ts:467-473 | under that lock, with at most so many calls out per process, the overshoot is at most so many largest projections for each of the others |
| Processes.CommittedWithinCutEach | agents/gateway.ts:467-473 | under that lock, all processes together commit at most the cut once each |
| Processes.FullWorld | agents/gateway.ts:467-473 | and some interleaving under it commits that much |
| Processes.LockedBoundHoldsExactlyWhen | agents/gateway.ts:467-473 | under that lock the published bound holds exactly when there is no other process, nothing is projected or one such call takes the cut |
| Admission.WouldAdmit | agents/gateway.ts:982-1022 | answers for the set as one call of the summed projection, refuses unknown models, passes in replay |
| Admission.SetsAreAdmittedExactlyWhen | agents/gateway.ts:714-715 | calls that are all checked are admitted, whatever each costs, exactly when their projections fit together and no free call stands where the others may reach the cut |
| Admission.PassedSetsAreAdmitted | agents/gateway.ts:292-295 | a set passed on the text held, none of whose calls has grown, is so exactly when it has no free call at the cut |
| Admission.GrownSetIsRefused | agents/gateway.ts:292-295 | a message of 40 characters meets a cut of 10 and passes, and is refused at 50 |
| Wires.MessageDetermines | agents/gateway.ts:1026-1056 | one message has one enquiry and one list of sources |
| Wires.ProbeDeterminesWire | agents/gateway.ts:607-632 | one cache probe is one provider request, or the digest confuses two texts |
| Wires.MessageLength | agents/gateway.ts:1026-1056 | a message is as long as its enquiry as written and what its sources take |
| Wires.MarkerIsLonger | agents/redaction.ts:9-56 | after any plain words, the marker of an address may be ten characters longer than the address |
| Gateway.FindCached | agents/ledger/pg.ts:135-150 | the earliest row that was not itself a hit, of that organisation and probe, if there is one |
| Gateway.CachedIsDirect | agents/gateway.ts:620-672 | what the chain answers is what the provider would, or the digest confuses the call with one already asked |
| Gateway.HonestAppend | agents/gateway.ts:865-906 | every row stays the provider's priced answer or a free copy of an earlier such row with its probe, response and number |
| Gateway.Process.ServeHit | agents/gateway.ts:632-671 | a hit that is clean and can be written leaves one free row naming its source; any other leaves nothing |
| Gateway.Process.AskProvider | agents/gateway.ts:763-838 | one send, a row exactly when the answer is kept, and the reservation standing exactly when neither a failure nor the row gave it back |
| Gateway.Process.Run | agents/gateway.ts:607-838 | each call comes to one outcome and one set of books, table, reservations and sends, fixed by those it meets |
| Sessions.EverySessionKeeps | agents/gateway.ts:607-838 | from any honest table, over any calls, whatever each meets, and other writers' honest rows between them: rows stay the provider's priced answers or free copies, the in-flight figure is what the sends still hold, a replay sends nothing, and with the cache on a probe is sent again only if no earlier send of it landed |
| Sessions.SentOnceExactlyWhen | agents/gateway.ts:607-838 | a list of calls sends each probe at most once, whatever they meet, exactly when no two of one organisation and probe could each go out on the table before the first |
| Sessions.AskedTwice | agents/gateway.ts:607-813 | a call asked again at once is sent again exactly when its first send did not land and its reservation leaves room |
| Sessions.ReturnedIsDirect | agents/gateway.ts:607-838 | what a call returns is the provider's answer, or the digest confuses two calls; its row carries that text, free and copying an earlier row exactly when nothing was sent |
| Sessions.HitRefinesDirect | agents/gateway.ts:632-671 | a hit comes to what the direct call would, refusals included, exactly when no pin is broken |
| Sessions.PinIsForgotten | agents/gateway.ts:815-830 | a pinned call refused for its model is answered by that model when asked again |
| Sessions.SetsAreMadeExactlyWhen | agents/gateway.ts:620-718 | cache on or off, in replay or not: the calls of a set are passed at the ceiling, whatever each meets, exactly when each that the table does not answer beforehand has room beside all that those before it may take |
| Sessions.FittingSetsAreMade | agents/gateway.ts:620-718 | where the projections fit together, that is exactly when no free call for the provider stands at the cut |
| Sessions.PassedSetsAreMade | agents/gateway.ts:982-1022 | a set passed on the text held, none of whose calls has grown on the way, is made, whatever each meets, exactly when no free call for the provider stands where those before it may reach the cut |
| Sessions.GrownSetIsRefused | agents/gateway.ts:292-295 | an enquiry that redaction lengthened by four characters is refused where the text held was passed |
| Sessions.AddressGrows | agents/redaction.ts:9-56 | an enquiry of plain words and an address is such a one |
| Sessions.CeilingIsOfOneOrganisation | agents/gateway.ts:692-703 | an admitted call keeps an organisation's committed money within the cut, whatever it meets, exactly when it is that organisation's or fits beside it |
| Sessions.OneOrganisationKeepsTheCut | agents/gateway.ts:692-838 | one organisation's calls, one after another, never take what is committed past the cut |
| Shuffle.ShuffleInPlace | quality/gen/corpus.ts:161-168 | the array ends in the order its draws spell |
| Shuffle.ShuffledPermutes | quality/gen/corpus.ts:161-168 | that order is a permutation |
| Shuffle.OrdersDetermineChoices | quality/gen/corpus.ts:161-168 | different choices give different orders of distinct items |
| Shuffle.EveryOrderIsReached | quality/gen/corpus.ts:161-168 | every order is given by some choices |
| Corpus.SortForgetsOrder | quality/gen/corpus.ts:170-172 | items with ids of their own have one sorted arrangement |
| Corpus.ContentForgetsOrder | quality/gen/corpus.ts:405-408 | the content digest does not depend on the order members are handed in |
| Corpus.BuildCorpus | quality/gen/corpus.ts:410-442 | refuses exactly repeated ids, otherwise cuts a permutation of the sorted items |
| Corpus.CutSets | quality/gen/corpus.ts:424-434 | each set is its stretch of the shuffled order |
| Corpus.SetsAreDisjoint | quality/gen/corpus.ts:424-434 | no id is in two sets and every member is an item |
| Corpus.SetsAreFull | quality/gen/corpus.ts:424-434 | the sets hold what they declare exactly when there are items enough |
| Corpus.MarginIsLeftOver | quality/gen/corpus.ts:460-464 | the items past the four sizes are in no set and all the others are in one |
| Manifest.CheckHeadroom | quality/gen/corpus.ts:460-501 | passes exactly when there are items enough, no overlap, a margin, and the declared minimum |
| Manifest.BuiltSetsNeverOverlap | quality/gen/corpus.ts:466-477 | on a build the overlap test fires exactly when the items are too few |
| Manifest.Reconcile | quality/gen/corpus.ts:504-549 | is clean exactly when every hash, count, attribution and signature agrees |
| Manifest.WrittenKindAgrees | quality/gen/corpus.ts:527-543 | a set's ids looked up again give its own content digest |
| Manifest.WrittenReconciles | quality/gen/corpus.ts:553-612 | every corpus and manifest written from a build with room reconcile, whatever the shuffle |
| Sensitivity.DriftBound | src/alg/sensitivity.ts:122-130 | for weights held in hundredths the remainder is at most one hundredth unless the moved weight was all there is |
| Sensitivity.HundredthsAreBorne | src/alg/sensitivity.ts:117-138 | held and moved in hundredths, the moved weight lands on its sum and some other can always bear the remainder, so the second refusal is unreachable |
| Sensitivity.HundredthsStayValid | src/alg/sensitivity.ts:138-145 | and all four that are handed out are non-negative |
| Sensitivity.UnevenIsRefused | src/alg/sensitivity.ts:117-138 | 0.985 and three times 0.005 is refused without being moved |
| Sensitivity.Perturb | src/alg/sensitivity.ts:117-145 | for any weights: null exactly when the target leaves [0, 100] or no other can bear the remainder; otherwise the four sum to 100, each other is its rounded share but the largest, which carries the remainder, and the final check fails only on a negative one |

## Left out

- Replay.Drive: a tick of zero, with which the loop is never entered (`Replay.Replay` answers it), and a negative one, with which the clock runs backwards and the loop need not end.
- Replay.Replay: a negative tick, for the same reason.
- Replay: snapshots, peak length, waits, percentiles and the breach rate, which are read off the services; the agents' times are a sequence that is reassigned, not an array.
- Priority: rounding of binary floating point; scores are exact and quantised half up. Anomaly labels and the check of the evaluation instant.
- Collation.EncodesExactlyInRange: from 1e21 on the host prints an instant in exponent form, shorter than fifteen characters, so the source's length guard lets it pass where the model refuses.
- Heap: `size`, `peekKey` and `contents`, which only read.
- `generateArrivals`, `topKOverlap`, `rankSnapshot` and reopening a ticket.
- Money: `audToMicro` and `formatConfidence`, which round binary fractions; the numeric reader's precision beyond safe integers.
- Values: numbers that are not integers, so sampling parameters enter as any value of the model; `canonicalJson` of integers beyond 2^53, which the host prints rounded.
- Decoder.DecodeStrict: the observation-number mode, the UTF-8 decoding of the bytes (the text it yields is the input, and its length in bytes is computed) and which exception a host raises for bad escapes.
- The closed-shape validators of intake, access and preparation, and route templates.
- Ledger: the checks on agent identity and on splits, and the isolation level; cost, latency and restarts are among a row's other columns.
- Ledger: the audit chain, which has the same shape per organisation; checkpoints and their anchors.
- Attempts: the payload validators, of which only the outcome's alphabet is kept; a start that fails is not retried within a run, as in the source.
- Reconcile.ReconciliationIsExact: speaks of the whole table; a reader of one run sees halves if an attempt was resumed under another run.
- Budget: one process is modelled step by step, others as rows that appear; deadlines and timers are a step that may happen.
- Processes: what a process hears of the others is their rows, when it next sums the chain.
- Gateway: redaction, canaries, leak scans and the refusal of an emptied enquiry are fixed verdicts or left to the caller; confidence, latency, the audit event of a cut and the literals check. A source number identifies a row within its run only.
- Gateway.Process.Run: one call at a time; overlapping calls are the subject of the budget module.
- Corpus: templates, labels and the product of their slots; the generator's stream is any stream; files are written and read back unchanged; the serialisations digests are taken over are any functions.
- Sensitivity: the reports built on the sweep.
- Redaction patterns, SQL and its roles, HTTP, the interface and published wording.
