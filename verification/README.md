# Arbor, modelled and proved in Dafny

Arbor is an in-network AllReduce.  A responder hands out credits; routers bind a
slot to each credit and push its index on a small stack in the packet;
requesters answer with data; routers fold the data level by level while popping
the stack; the responder commits one result per offset.  Loss falls back to a
repair path that bypasses aggregation.  `dafny verify dfyconfig.toml` checks all
of it.

## The four systems

**Routers and reduction, end to end** (`protocol/router.c`,
`protocol/responder.c`). `Reduction` is int32 arithmetic and the reduction of
inputs over a set of ranks. `RouterModel` is the slot table as functions,
`Router` the class that updates the arrays, `RouterHistory` what a slot knows
after any run.  `ResponderModel`, `Responder` and `ResponderHistory` do the same
for one credit entry, and `ResponderEffects` says what each arrival does to it and
exactly which runs commit or finish it. `AggregationSystem` puts routers, a lossy reordering
network and the responder together, with the set of contributors of each packet
and slot as history, and proves that counting without identities is exact, for
pulled data and for the header-only acknowledgements of a push alike.
`ResponderCallModel`, `ResponderCallHistory`, `ResponderTable`, `ResponderCall`
and `ResponderCallResults` are the whole call of a responder: the table of entry
objects, the credit cursor, the binding of payloads to credits, and END.
`ResponderPayloads` follows every committed response to the one packet that first
carries it, and `ResponderRepair` the switch of an offset to the repair path.
`WholeSystem` runs any number of such calls on that network: once a call has sent
END, every offset is exact or acknowledged by everybody. `EndHandshake` follows
END and its acknowledgements over all the messages of a channel.

**Lossless completeness** (`Lossless`, `LosslessRun`, `FanIn`, `Multicast`,
`PlannedRun`).  On any configured tree a credit's stack is the path of its LEVEL
routers, and the planner's fan-ins match exactly for masks made of whole blocks,
the default ones among them.  A run binds the credit at one router after the
other, while requesters already reached answer and other credits and requests use
the same slot tables; if each router sees fewer bindings than it has slots before
its last answer has passed, every interleaving ends with one master that counts
everybody. `PlannedRun` puts stack, plan and run together.

**The host protocol** (`reference/arbor-host.cc`, with `protocol/requester.c` in
`Requester` and `RequesterHistory`).  `HostModel` is the step relation,
`HostResponder` and `HostRequester` the classes that update the channel state in
place, the `Host*Invariant`, `HostGlobal`, `HostCounting` and `HostPlan` modules
the invariants, and `HostSystem` the theorems over every run: implicit
acknowledgement, END safety, the registration gate, the matching of payloads and
credits, and credit accounting.  `HostPackets` says which packets each side has
sent in every reachable state, `HostEffects` what each arriving packet and each
timer does.

**Sequence space, rings, pacing, wire format** (`SequenceSpace`, `Rings`,
`Pacing`, `Wire`, `ReferenceSwitch`).  Circular reservations and lookups, the
send queue and the receive ring, rate bounds over whole runs, two header codecs
and the in-place stack rewriting, and the comparison of the C++ switch with the C
router.

## Where a property fails

Each of these keeps the code as it is, shows an input, and states exactly when
the property holds.

- A push call sends END only while handling a full aggregated acknowledgement
  (`PushEndsIff`): the branch that completes a committed offset by repair
  continues before the END test.  If the last offset completes that way the call
  waits for acknowledgements of an END it never sends (`PushCallCanStall`), and
  with one requester, where nothing is ever aggregated, no run sends END
  (`UnaggregatedPushNeverEnds`).
- END is matched by an 8-bit id and a 24-bit first sequence number, and a fresh row
  of the responder's table says epoch 0 until the first REGISTER.  An old
  acknowledgement left in the queue can therefore fill the mask of a later call under
  the same id, which then returns with nobody holding its message.  Message 0 has
  epoch 0, so this is so for message 256 of every channel (`ReturnMeansHeldIff`,
  `ChannelIsSafeIff`, `ReturnsEarly`).
- The acknowledgement of a push offset by a single requester is answered by a
  replay instead of being counted (`SingleRequesterPushNeedsRepair`).
- Repair mode lets one kind of normal packet through: an unaggregated one with a
  single requester, for an entry not yet committed (`LateMasterChangesNothing`).
- The router ORs ECN code points, so ECT(1) beside ECT(0) reads as CE
  (`OrAllIsCe`, `MixedEctReadsAsCe`).
- The planned fan-ins count ranks, not requesters.  They fit exactly when the
  responder's mask is made of whole blocks of four (of two in a group of two), the
  responder excepted (`PlanFitsIff`); otherwise some router waits for more than can
  come (`MisfitWaits`, `SparseMaskMisfits`).
- The requester's offset ring forgets an offset one ring length away, so a
  repeated normal credit is answered twice (`SuppressedIffMarked`,
  `AliasAnswersTwice`).
- A normal credit that finds its queue full when it first comes is never answered,
  however often it is repeated, because the ring has noted it already; it is
  answered exactly if there was room (`AnsweredIffRoom`).  `QueueCanFill` is the run:
  as many credits as the queue holds between two rounds of answering.
- END-timeout tops up the repair bucket with a smaller cap than the repair that
  computed its waiting time; the retry survives exactly when its charge fits the
  burst (`RetrySurvivesTailRefill`).
- The C++ switch accepts a first contribution larger than the fan-in, and that
  slot never completes (`DecisionsAgreeIff`, `OversizedFirstSticks`).
- Pushing on a full stack wraps the depth to zero in the C router
  (`PushCommutes`); the two AGG_MISS rewritings differ for payload kinds other
  than DATA (`AggMissCommutes`); half-space comparison of numbers less than 2^24
  apart is right exactly below distance 2^23 (`BeforeAgreesIff`, `BeforeFailsAtHalf`).

## Assumptions, as the code needs them

The network loses and reorders at will, and repeats repair requests, but does not
duplicate normal requests, which routers count without identities; in
`EndHandshake` it repeats everything.  A reported miss may reach the responder
late, often, or never.  Requesters send only after a credit.  Both
sides submit messages of the same sizes in the same order, use the same operation,
and reduce int32 words.  In `HostSystem` a normal request reaches the responder
unaggregated only from the one requester of its group or, for a push, when control
aggregation is off; any other stops the responder (`HostModel.OnRequest`).  Table
sizes are symbolic.

## Model

| member | source | states |
|---|---|---|
| `AggregationSystem.CommittedOffsetsAreExact` | protocol/responder.c:1470-1619 | End to end: in every run of routers, lossy reordering network and responder, with slots overwritten, AGG_MISS and repair mixed in freely, each word of a committed pull offset is the maximum, the minimum or the sum modulo 2^32 of every requester's word and the responder's own, each taken once, and each word of a committed push offset is the responder's own |
| `AggregationSystem.DonePushIsAcknowledged` | protocol/responder.c:1512-1577 | A push offset counts as done only if every requester's acknowledgement arrived, each exactly once through the routers' anonymous counts, or every requester's repair did |
| `AggregationSystem.CountsAreContributors` | protocol/router.c:594-659 | In every reachable state the contributors of a credit, of payloads and of header-only acknowledgements alike, sit in pairwise disjoint places (unsent, in flight, in a slot, arrived), and the count in each live slot or packet is the size of its set: bare counting is a faithful proxy for a set of requesters |
| `AggregationSystem.ReachableInv` | protocol/router.c:871-988 | The joint invariant of routers, network and responder entries holds in every reachable state, over any interleaving, loss and overwriting |
| `AggregationSystem.FullCountMeansEveryRequester` | protocol/responder.c:1478-1491 | A packet whose count equals the number of requesters carries all of them and their full reduction: why the responder may trust the count alone |
| `AggregationSystem.MissesAreLost` | protocol/router.c:922-936 | In every reachable state a reported miss names an issued offset and a request that carried some of its contributors; their contributions are in no router, packet or entry any more, so no packet of that offset can reach the full count |
| `AggregationSystem.MissPutsOnRepair` | protocol/responder.c:1333-1350 | The offset a report names, if it is not committed, is the one that goes on the repair path, and nothing else changes |
| `AggregationSystem.DeliveredPacketIsHonest` | protocol/responder.c:1478-1619 | Whatever the network can deliver, data or acknowledgement, meets the assumption under which a responder entry is exact |
| `AggregationSystem.MergeIsExact` | protocol/router.c:661-679 | For disjoint groups the merged count is the sum and the merged register is the reduction over the union |
| `AggregationSystem.AcceptKeepsSlot` | protocol/router.c:613-679 | An accepted packet leaves the slot holding exactly the reduction and the number of its contributors, and the master built from it carries them |
| `AggregationSystem.RouterRequestKeepsInv` | protocol/router.c:848-988 | Whatever a router does with a request (pass, pop, absorb, complete, report a miss) keeps the contributor sets disjoint and exact |
| `AggregationSystem.RouterCreditKeepsInv` | protocol/router.c:387-401 | Binding a credit, even over a slot still in use, only loses contributions and never mixes two credits |
| `Reduction.WrapAdd` | protocol/router.c:672-677 | int32 addition is the mathematical sum up to a multiple of 2^32, inside the int32 range |
| `Reduction.CombineWordLaws` | protocol/router.c:670-678 | SUM modulo 2^32, MAX and MIN are commutative and associative on int32 |
| `Reduction.CombineWordMeans` | protocol/router.c:670-678 | MAX of two words is at least both and one of them, MIN at most both and one of them, and SUM congruent to their sum modulo 2^32 |
| `Reduction.FoldReduces` | protocol/responder.c:1008-1037 | Each word of a reduction over a set of ranks is the largest, the smallest, or congruent modulo 2^32 to the integer sum of those ranks' words |
| `Reduction.FoldWith` | protocol/responder.c:656-690 | Combining one more rank's input with a reduction is the reduction over one more rank |
| `Reduction.FirstContribution` | protocol/router.c:942-951 | Copying the first MAX/MIN payload makes the cleared register act as a unit for every operation |
| `Reduction.FoldUnion` | protocol/responder.c:1008-1037 | The reduction over a union of disjoint rank sets is the combination of the two reductions, in whatever order the ranks come |
| `RouterModel.HandleRequest` | protocol/router.c:871-988 | Every request leaves the slot table consistent: count at most fan-in, completed slots frozen, rows aligned, and what is sent on is well-formed |
| `RouterModel.AcceptKeepsSlot` | protocol/router.c:613-659 | slot_accept never lets a count pass the fan-in, and a slot that meets it is closed |
| `RouterModel.MissNamesRequest` | protocol/router.c:871-936 | Whenever the router reports a miss, in whichever branch, it names the port and the offset of the very request, and its state is as before |
| `RouterModel.FindSlot` | protocol/router.c:566-576 | The first live slot of a credit, and none before it is live for that credit |
| `RouterModel.BindCredit` | protocol/router.c:387-401 | A credit gets a slot inside the table and the table stays consistent |
| `Router.Router.FindSlotForCredit` | protocol/router.c:566-576 | The scan over the slot array returns the first live slot of the credit, or none |
| `Router.Router.ResetForCredit` | protocol/router.c:550-564 | The slot belongs to the new credit alone, its row is zero, and every other slot and row is untouched |
| `Router.Router.OnCredit` | protocol/router.c:387-401 | The in-place credit branch takes the model's slot and advances the round-robin cursor as the model does |
| `Router.Router.AcceptInto` | protocol/router.c:613-659 | The in-place slot_accept answers 1, 0 or -1 as the model does, and changes only that slot |
| `Router.Router.AccumulatePayload` | protocol/router.c:661-679 | The word loop leaves the row folded with the payload and every other row as it was |
| `Router.Router.FoldContribution` | protocol/router.c:920-952 | Register and stored master after one accepted contribution, ECN bits merged |
| `Router.Router.EmitMaster` | protocol/router.c:961-968 | The master sent carries the register's words, the count, and one level less; the slot is frozen |
| `Router.Router.OnRequest` | protocol/router.c:848-988 | The array-updating request branch computes exactly the model's next state and output |
| `RouterHistory.SlotIsItsHistory` | protocol/router.c:613-692 | After any run a bound slot is the exact summary of the requests it took since its binding: register, count, master, and frozen exactly when the count met the fan-in |
| `RouterHistory.TakeExplained` | protocol/router.c:613-692 | Taking in one more request extends a slot's history by exactly that request |
| `RouterHistory.MasterFreezesSlot` | protocol/router.c:622-625 | A slot emits one master per binding, and only the next binding changes it afterwards |
| `RouterHistory.OwnersStayDistinct` | protocol/router.c:566-576 | Over any run no two unforwarded slots have the same owner |
| `RouterHistory.BoundSlotSurvives` | protocol/router.c:387-401 | A binding survives every run with fewer new bindings than the table has slots |
| `RouterHistory.OtherEventsKeepSlot` | protocol/router.c:387-401 | Only a credit that binds the slot and a request it accepts change it |
| `RouterHistory.CeExactlyWhenSomeContributionIs` | protocol/router.c:681-692 | With ECT(0) and CE inputs (section 5 of RFC 3168) the master is CE exactly when some contribution was |
| `RouterHistory.OrAllIsCe` | protocol/router.c:681-692 | For all inputs: CE exactly when some contribution was CE or both ECT code points met |
| `RouterHistory.MixedEctReadsAsCe` | protocol/router.c:681-692 | The counterexample outside those inputs: ECT(1) beside ECT(0) reads as CE though nobody marked it |
| `RouterHistory.OutputIs` | protocol/router.c:848-988 | For every request what leaves the router: passed unchanged at a relay or with an empty stack, reported when no slot takes it, popped with fan-in 1, otherwise absorbed, or answered with a master exactly if the count then is the fan-in |
| `RouterHistory.CreditGetsSlot` | protocol/router.c:387-401 | A credit always gets a slot that waits for its port, offset and responder: the one it had, and then nothing changes, or the next in rotation, emptied, with every other slot as before |
| `RouterHistory.MasterIsItsHistory` | protocol/router.c:960-988 | Over every run a master carries the reduction of the payloads its slot took in since it was bound, the sum of their counts, which is the fan-in, their merged ECN bits, and the first one's header one level up |
| `ResponderModel.OnRequest` | protocol/responder.c:1442-1619 | Every arrival keeps an entry consistent; done implies committed with every requester counted |
| `ResponderModel.ResultWords` | protocol/responder.c:656-690 | Each word of a result is the local word combined with the remote one, the local word alone beyond the remote reduction, or the remote word and zeros without a local source |
| `ResponderModel.ResultIsReduction` | protocol/responder.c:656-690 | Combining the requesters' reduction with the local source gives the reduction over the requesters and the responder's own rank, word by word a maximum, a minimum or a sum |
| `Responder.CreditEntry.AccumulateWords` | protocol/responder.c:1022-1036 | The word loop leaves the accumulator folded with the payload |
| `Responder.CreditEntry.AccumulateRequesterInput` | protocol/responder.c:1008-1037 | Deduplicated by its own bitmap, in place, the result buffer untouched |
| `Responder.CreditEntry.BuildResultPayload` | protocol/responder.c:656-690 | The two loops leave the local source reduced with the remote words in the result buffer |
| `Responder.CreditEntry.MarkEntryDone` | protocol/responder.c:626-638 | Reports done exactly when the entry becomes done |
| `Responder.CreditEntry.CommitEntryResponse` | protocol/responder.c:1055-1090 | Stores the result, commits, and counts the entry if every requester is covered |
| `Responder.CreditEntry.TryEnterRepair` | protocol/responder.c:716-738 | An entry not yet done changes to the repair path before any budget is consulted |
| `Responder.CreditEntry.OnInput` | protocol/responder.c:1559-1619 | The accumulate-and-commit half of the request branch, in place |
| `Responder.CreditEntry.OnArrival` | protocol/responder.c:1442-1619 | The in-place request branch has exactly the effect of the model on entry, action and count |
| `ResponderHistory.CommittedResultIsExact` | protocol/responder.c:1559-1619 | Over every run of honest arrivals, repeated and reordered at will, each word of a committed result is the maximum, minimum or sum modulo 2^32 over every requester and the responder itself, and the repair accumulator is the reduction over exactly the ranks of its bitmap |
| `ResponderHistory.CommittedResultIsFinal` | protocol/responder.c:1559-1577 | No event changes a committed result or commits a second time |
| `ResponderHistory.DoneIsCountedOnce` | protocol/responder.c:626-638 | A request counts its entry exactly when the entry goes from not done to done |
| `ResponderHistory.SwitchSetsMode` | protocol/responder.c:716-738 | Switching an entry that is not done leaves it in repair mode, and every other field as it was |
| `ResponderHistory.RequestKeepsMode` | protocol/responder.c:1442-1619 | No request takes an entry into repair mode or out of it |
| `ResponderHistory.LateMasterChangesNothing` | protocol/responder.c:1492-1502 | Repair mode is an atomic switch: a later normal packet leaves the entry alone if and only if it is not the one case let through, an unaggregated packet for an uncommitted entry with one requester; not let through, it also counts and commits nothing |
| `ResponderHistory.NormalAcknowledgementCounts` | protocol/responder.c:1520-1543 | Exactly when a normal packet completes a committed entry: a full aggregated header-only acknowledgement outside repair mode |
| `ResponderHistory.SingleRequesterPushNeedsRepair` | protocol/responder.c:1559-1577 | With one requester the acknowledgement of a push offset is answered by a replay and not counted; only repair completes it |
| `ResponderEffects.ActionIs` | protocol/responder.c:1442-1619 | Exactly which arrivals are dropped, replayed to, counted, acknowledged or a protocol violation |
| `ResponderEffects.RepairJoins` | protocol/responder.c:1559-1619 | A repair request adds its sender to the repair set and, once per sender, its payload to the repair reduction; with the last requester's the entry is done, and commits that reduction if it had not committed |
| `ResponderEffects.NormalJoins` | protocol/responder.c:1578-1619 | A normal packet adds its payload once per sender to the entry's own reduction, and commits that one exactly when the count or the bitmap is full |
| `ResponderEffects.AckCompletes` | protocol/responder.c:1520-1543 | A full acknowledgement completes the entry, which commits the responder's own data if it had not committed |
| `ResponderEffects.OperationIs` | protocol/responder.c:1458-1461 | An entry without any input takes the operation of each packet it can read, any other keeps its own |
| `ResponderEffects.OthersChangeNothing` | protocol/responder.c:1470-1557 | What is dropped or answered by a replay changes nothing but that |
| `ResponderEffects.PushDoneIff` | protocol/responder.c:1512-1577 | Over every run, whatever arrives, a push offset is done if and only if every requester's repair request came, or a full acknowledgement did, as a repair request or before the switch to repair |
| `ResponderEffects.PullCommitsIff` | protocol/responder.c:1470-1619 | Over every run of payload requests a pull offset commits if and only if every requester's repair request came, or a packet with all inputs did before the switch to repair |
| `ResponderRepair.MissSwitches` | protocol/responder.c:1333-1350 | AGG_MISS puts an issued, uncommitted offset on the repair path and changes nothing else in the call; for any other offset it changes nothing |
| `ResponderRepair.TimeoutSwitches` | protocol/responder.c:1039-1054 | When timers run out, exactly the due offsets that are not done are on the repair path, and nothing else changes |
| `ResponderRepair.ModeIff` | protocol/responder.c:1230-1636 | After any event of a call an offset is on the repair path if and only if it was before or the event puts it there |
| `ResponderRepair.ModeStays` | protocol/responder.c:716-738 | Over every later run an offset stays on the repair path |
| `ResponderRepair.SwitchClosesNormalPath` | protocol/responder.c:1492-1502 | Once an AGG_MISS or a timeout has switched an offset, then after any further run a normal request for it changes nothing in the call, but for the one case let through |
| `ResponderCallHistory.StepKeeps` | protocol/responder.c:1230-1636 | Every event of a call keeps the table, the counters, the credit-payload matching and the waiting queue consistent |
| `ResponderCallHistory.ReachableInv` | protocol/responder.c:1230-1636 | That consistency holds in every state a call can reach, whatever arrives |
| `ResponderCallHistory.CreditsAreConserved` | protocol/responder.c:626-638 | In every reachable state done_count is the number of done entries, and credits sent are exactly those outstanding or done |
| `ResponderCallHistory.EndMeansAllDone` | protocol/responder.c:1621-1631 | Whenever END was sent, every offset is committed and done, no credit is outstanding, and the call fitted into the table |
| `ResponderCallHistory.PullEndsWhenDone` | protocol/responder.c:1621-1631 | In every reachable state a pull call has sent END if and only if all its offsets are done |
| `ResponderCallHistory.PushEndsIff` | protocol/responder.c:1520-1577 | A condition known before the request is handled: a push call sends END on it if and only if it is an aggregated acknowledgement with the full count, for an entry outside repair mode or as a repair request itself, and every other offset is done |
| `ResponderCallHistory.UnaggregatedPushNeverEnds` | protocol/responder.c:1563-1577 | In every run without aggregated requests, which is every run with one requester, a push call never sends END |
| `ResponderCallHistory.PushCallCanStall` | protocol/responder.c:1563-1577 | The run that shows it: a reachable state with everything done, nothing outstanding, and END not sent |
| `ResponderCallHistory.BindingIsForever` | protocol/responder.c:926-1006 | Over every run each packet that carries a credit carries the payload chosen when the credit was issued, with an unchanged result |
| `ResponderCallHistory.BindingIsStable` | protocol/responder.c:926-1006 | One event never changes what a credit carries, which credit carries a payload, or a committed result |
| `ResponderCallHistory.TriggerCarriesBinding` | protocol/responder.c:716-777 | The payload of a repair trigger is exactly the bound one: the predecessor search never finds another and the availability check never drops it |
| `ResponderCallHistory.FlushSendsAll` | protocol/responder.c:908-924 | Flushing sends exactly the waiting responses, once each, in commit order |
| `ResponderCallHistory.ReserveInOrder` | protocol/responder.c:779-829 | Credits are reserved one by one in order while the table has room; the cursor never meets a credit already sent |
| `ResponderCallHistory.CursorStops` | protocol/responder.c:779-829 | In any state the cursor stops at the first offset whose credit was not sent and reserves it exactly if the message goes that far and the table has room |
| `ResponderCallHistory.OutsidersChangeNothing` | protocol/responder.c:1409-1442 | A packet for an offset outside the message, or one the table has no room for, changes nothing |
| `ResponderCallHistory.PendingFits` | protocol/responder.c:881-895 | As long as an entry is uncommitted the waiting queue has room for it, so no response is dropped |
| `ResponderPayloads.CommitQueues` | protocol/responder.c:881-895 | A request that commits its offset puts the response last in the queue, any other leaves the queue alone |
| `ResponderPayloads.CreditCarries` | protocol/responder.c:926-1006 | A pull credit carries the response that has waited longest, a push credit its own payload, and every other offset keeps its bindings |
| `ResponderPayloads.ResponsesAreConserved` | protocol/responder.c:881-1006 | Over every run a committed response is in exactly one place, waiting, on one credit, or sent alone once, and an uncommitted one nowhere |
| `ResponderCall.TableSize` | protocol/responder.c:640-654 | The table is full exactly when it holds as many distinct offsets as rows |
| `ResponderCall.RowWritten` | protocol/responder.c:640-654 | Writing a row changes the table at that row's offset only and keeps offsets unique |
| `ResponderCall.CallTable.FindEntry` | protocol/responder.c:640-654 | Finds the offset's row or allocates the first free one; fails exactly when the offset is new and the table full |
| `ResponderCall.CallTable.HandleRequest` | protocol/responder.c:1409-1632 | The request branch in place, down to the accumulators of the entry it finds: table, counters, queue and END end up exactly as in the model |
| `ResponderTable.EntryTable.FindRow` | protocol/responder.c:640-654 | The offset's row, or the first free one cleared in place; -1 exactly when the offset is new and no row is free |
| `ResponderTable.EntryTable.Scan` | protocol/responder.c:640-647 | The search loop: the row in use for the offset, or else the first free one |
| `ResponderTable.EntryTable.Arrive` | protocol/responder.c:1442-1619 | A request that reaches one row's entry object changes that row as the model says and no other |
| `ResponderTable.EntryTable.CommitOwn` | protocol/responder.c:926-1006 | A push credit's entry commits the local data in its own buffer and carries it, other rows untouched |
| `ResponderCall.FoundMeans` | protocol/responder.c:640-654 | What finding a row means for the table as a map from offsets: one entry looked up or added, or the table is full |
| `ResponderCall.CallTable.ReserveCredit` | protocol/responder.c:779-829 | The cursor loop reserves exactly the model's credit |
| `ResponderCall.CallTable.MaybeIssueCredits` | protocol/responder.c:926-1006 | Push credits commit and carry their own payload, pull credits take the head of the queue, as in the model |
| `ResponderCall.CallTable.BindNext` | protocol/responder.c:975-993 | The head of the queue leaves it and, if committed and unbound, is linked both ways with the credit |
| `ResponderCall.CallTable.FlushHead` | protocol/responder.c:913-923 | One turn of the flush: sent exactly when stored and unbound |
| `ResponderCall.CallTable.FlushPendingResponses` | protocol/responder.c:908-924 | Empties the queue and sends what the model says, in order |
| `ResponderCall.CallTable.HandleAggMiss` | protocol/responder.c:1333-1350 | Only an uncommitted, undone, not yet repairing entry changes to repair |
| `ResponderCall.CallTable.TimeoutRepair` | protocol/responder.c:1039-1054 | Exactly the due entries change to repair |
| `ResponderCallResults.PullCallIsExact` | protocol/responder.c:1230-1636 | In every run of a pull call with honest requests each word of every done offset is the maximum, minimum or sum over all requesters and the responder itself, and by the time END is sent all offsets are done |
| `ResponderCallResults.StepIsExact` | protocol/responder.c:1230-1636 | Each event of a pull call keeps every entry exact |
| `WholeSystem.EndMeansAnswered` | protocol/responder.c:1230-1636 | Routers, lossy network and any number of calls together: whenever a call has sent END, each word of every offset it pulls is the maximum, minimum or sum over all requesters and the responder itself, and every offset it pushes holds the responder's own data and has been acknowledged by all of them |
| `WholeSystem.NextKeeps` | protocol/responder.c:1230-1636 | Every step of that system keeps the calls' tables and the entries the packets speak of the same and exact |
| `EndHandshake.ReturnMeansHeldIff` | protocol/responder.c:1230-1364 | END safety over every run of responder, requesters and a network that repeats old packets: as long as no two messages in a row under an id start at the same 24-bit number, the calls for a message return only when every requester holds it, if and only if no earlier message under its id starts at its number or at 0 |
| `EndHandshake.ChannelIsSafeIff` | protocol/responder.c:1157-1182 | For a whole channel: that holds for all its messages exactly if there are at most 256 of them, since message 256 takes the id of message 0, whose epoch is the one a fresh row starts with |
| `EndHandshake.ReturnsEarly` | protocol/responder.c:1352-1363 | The run that shows it, for every message that is not clear: old acknowledgements fill the mask and the call returns with nobody holding the message |
| `EndHandshake.ReturnedIsHeld` | protocol/responder.c:1230-1231 | A call for a clear message has returned only if every requester holds the message |
| `EndHandshake.AckIsHonest` | protocol/host.c:169-201 | An acknowledgement that fits a clear message's row, from a call or from a tombstone, comes from a requester that holds the message |
| `EndHandshake.ClearBeforeWrap` | protocol/host.c:224-248 | Until the 24-bit numbers wrap, the messages at risk are exactly those after message 0 that take id 0 again |
| `EndHandshake.QuietRun` | protocol/requester.c:498-516 | Without such a repeated start the handshake can always be completed message after message |
| `EndHandshake.StepKeeps` | protocol/host.c:169-201 | Every step keeps what acknowledgements and tombstones rest on: a closed call with that id and epoch, whose message is held |
| `EndHandshake.EndedMeansSent` | protocol/requester.c:421-435 | Over every run a requester takes a message as ended only if END was sent with both its id and its first sequence number |
| `EndHandshake.TombstoneAnswers` | protocol/requester.c:421-435 | END of a message whose tombstone stands is acknowledged whenever it comes again, so a lost END_ACK is made good |
| `HostSystem.StepKeeps` | reference/arbor-host.cc:274-1087 | Every step of responder and requesters, over a network that loses, reorders and repeats, keeps the joint invariant |
| `HostSystem.ReachableInv` | reference/arbor-host.cc:274-1087 | The joint invariant holds in every reachable state |
| `HostSystem.ImplicitAcknowledgement` | reference/arbor-host.cc:424-483 | Once a credit is done, the payload it carried has reached every requester, though nobody acknowledged it |
| `HostSystem.FinishedMessageIsDelivered` | reference/arbor-host.cc:1060-1085 | A message the responder has forgotten was issued completely, each result first-sent exactly once, and every requester holds all of it |
| `HostSystem.ReclaimedMessageIsHeld` | reference/arbor-host.cc:529-563 | A requester that forgot a message had received all of it |
| `HostSystem.MissingPayloadIsRecoverable` | reference/arbor-host.cc:959-988 | A committed payload somebody still misses is either carried by no credit, or by a live credit that is not done |
| `HostSystem.RepairReplays` | reference/arbor-host.cc:893-988 | Repair of a credit resends exactly the payload that rides on it |
| `HostSystem.ReplayTailReaches` | reference/arbor-host.cc:1026-1046 | With budget for the message the tail replay reaches every payload no credit carries |
| `HostSystem.EndTimeoutReplays` | reference/arbor-host.cc:1007-1058 | END-timeout resends every payload of its message that no credit carries |
| `HostSystem.GateHolds` | reference/arbor-host.cc:430-461 | Nothing reaches a requester ahead of its own submissions: its violation counter stays 0 and no fail-fast check of the responder fires, that for a lone normal request included when the switches only let those through that they should |
| `HostSystem.CreditAccounting` | reference/arbor-host.cc:608-714 | In every reachable state the outstanding counters equal the numbers of undone entries, in total and per subchannel, and each message's done counter its done entries |
| `HostSystem.BindingIsMatching` | reference/arbor-host.cc:698-703 | boundPayload and boundBy are mutually inverse, and nothing waits in the queue after an event |
| `HostSystem.FirstSentExactlyOnce` | reference/arbor-host.cc:727-757 | Every committed result is first-sent exactly once, and nothing else is |
| `HostPackets.ResponderSendsItsDue` | reference/arbor-host.cc:598-866 | In every reachable state the responder has sent each issued credit, each committed payload, with its credit if it is bound to one, REGISTER_ACK for exactly the subchannels everybody registered on, and END for exactly the messages whose offsets are all done; and what everybody answered is done |
| `HostPackets.RequesterSendsItsDue` | reference/arbor-host.cc:453-563 | In every reachable state an offset of a live message is marked sent if and only if its normal request was sent, and END_ACK was sent for exactly the messages submitted and forgotten |
| `HostPackets.CreditIsAnswered` | reference/arbor-host.cc:453-483 | A credit for a live offset is answered, a repair one by a repair request and a first normal one by a normal request, unless its message is pulled and complete; nothing else is sent |
| `HostPackets.ResponseIsAnswered` | reference/arbor-host.cc:424-483 | The payload of a response is held and counted before its credit is answered, so a pull that it completes is not asked for again |
| `HostPackets.StrayCredit` | reference/arbor-host.cc:453-461 | A credit for an offset no live message covers is not answered, and is a violation if and only if it is ahead of what was submitted |
| `HostPackets.StrayPayload` | reference/arbor-host.cc:430-439 | The same for a payload |
| `HostPackets.PayloadIsTaken` | reference/arbor-host.cc:429-451 | A payload of a live message is held afterwards, and counted exactly if it is new |
| `HostPackets.EndIsAnswered` | reference/arbor-host.cc:529-563 | END is acknowledged exactly for a complete live message, which leaves a tombstone, or when its tombstone says it was received |
| `HostPackets.BeaconSends` | reference/arbor-host.cc:378-413 | REGISTER goes out exactly while the message is live, incomplete and not acknowledged on that subchannel |
| `HostPackets.AckSilencesBeacon` | reference/arbor-host.cc:415-422 | After REGISTER_ACK no further beacon is sent for that subchannel |
| `HostEffects.MasterCompletes` | reference/arbor-host.cc:784-817 | In every reachable state a master commits and finishes its offset if and only if its count is the number of requesters and the offset is not waiting for repair; any other changes nothing |
| `HostEffects.InputCounts` | reference/arbor-host.cc:759-818 | A single input counts for its sender, once, and the last one missing commits and finishes the offset |
| `HostEffects.MisplacedStops` | reference/arbor-host.cc:759-818 | The only request that stops the responder is one no switch merged and that is not for repair, in a group of several whose switches merge header-only requests as well |
| `HostEffects.OutstandingIsBounded` | reference/arbor-host.cc:598-725 | In every reachable state at most 2^20 credits are out |
| `HostEffects.RegisterCounts` | reference/arbor-host.cc:567-590 | A registration counts for its sender, and is acknowledged exactly when everybody has registered |
| `HostEffects.EndAckCounts` | reference/arbor-host.cc:1060-1085 | An END acknowledgement counts for its sender; the message and exactly its entries go when it was the last one and every offset is done |
| `HostEffects.EndTimeoutSends` | reference/arbor-host.cc:1007-1058 | With budget for the message the END timeout sends END and exactly the committed payloads of the message that no credit carries, once each, and changes nothing else |
| `HostEffects.EndIsRepeated` | reference/arbor-host.cc:1048-1058 | With any budget it sends END once more |
| `HostEffects.TimeoutRepairs` | reference/arbor-host.cc:870-957 | A credit's timer repairs its offset exactly if that is not done: repair mode is set for it alone and, if the budget covers it, one repair credit leaves with the bound payload |
| `HostEffects.MissRepairs` | reference/arbor-host.cc:881-957 | AGG_MISS does the same exactly if the offset is neither committed nor repairing |
| `HostGlobal.GateKeepsCursor` | reference/arbor-host.cc:614-625 | A credit is issued only for an offset every requester has already submitted |
| `HostGlobal.RepairCarries` | reference/arbor-host.cc:900-988 | A repair credit carries the bound payload unless everyone holds it |
| `HostGlobal.OnRequestGlobal` | reference/arbor-host.cc:759-818 | Whoever a request speaks for had asked for that credit, so marking it as consumed is justified |
| `HostGlobal.IssueAllGlobal` | reference/arbor-host.cc:598-725 | A round of issuing keeps what all packets in flight and all marks promise |
| `HostGlobal.EraseGlobal` | reference/arbor-host.cc:1074-1085 | Forgetting a finished message loses nothing somebody still needs |
| `HostGlobal.OnEndAckGlobal` | reference/arbor-host.cc:1060-1085 | An END acknowledgement is accepted only from a requester that holds the message |
| `HostResponderInvariant.OnRequestKeeps` | reference/arbor-host.cc:759-866 | A request, with all commits, issues and flushes it causes, keeps tables, matching and counters and leaves no payload waiting |
| `HostResponderInvariant.IssueOneKeeps` | reference/arbor-host.cc:637-714 | Issuing one credit keeps the matching, the counters and the first-send counts |
| `HostResponderInvariant.MarkDoneKeeps` | reference/arbor-host.cc:848-866 | Finishing an offset never finds a counter at zero, so the negative-outstanding abort is unreachable |
| `HostResponderInvariant.EraseKeeps` | reference/arbor-host.cc:1074-1085 | Erasing a finished message's entries keeps every other message's bookkeeping |
| `HostResponderInvariant.EnterRepairKeeps` | reference/arbor-host.cc:893-957 | The change to repair touches neither matching nor counters |
| `HostResponderInvariant.ReplayTailSends` | reference/arbor-host.cc:1026-1046 | Tail replay only sends, and only payloads no credit carries |
| `HostResponderInvariant.HeadHasOwner` | reference/arbor-host.cc:698-703 | The payload at the head of the queue always has a live owner, so a piggyback never aborts |
| `HostRequesterInvariant.OnResponseKeeps` | reference/arbor-host.cc:424-483 | A response keeps the requester's tables, its delivered counters and the justification of what it sent |
| `HostRequesterInvariant.OnResponseHolds` | reference/arbor-host.cc:424-483 | The payload on a response is held before its credit is answered |
| `HostRequesterInvariant.OnEndKeeps` | reference/arbor-host.cc:529-563 | END is acknowledged, and the message reclaimed, only when it was received in full |
| `HostRequesterInvariant.UncoveredHeld` | reference/arbor-host.cc:430-461 | A failed lookup below the cursor always means a completed and reclaimed message |
| `HostPlan.PlanDisjoint` | reference/arbor-host.cc:152-188 | Messages submitted in the same order on both sides occupy disjoint offsets |
| `HostCounting.AllDone` | reference/arbor-host.cc:848-866 | A message whose done counter reached its total has every offset done |
| `HostResponder.ResponderChannel.FindRespMessage` | reference/arbor-host.cc:209-226 | The last message starting at or before the offset is the only one that can cover it |
| `HostResponder.ResponderChannel.Submit` | reference/arbor-host.cc:152-167 | The in-place submission, credits included, computes the model's state |
| `HostResponder.ResponderChannel.PickSubchannel` | reference/arbor-host.cc:616-637 | The first open subchannel in rotation, and none only when all gates are closed |
| `HostResponder.ResponderChannel.AdvanceGates` | reference/arbor-host.cc:638-666 | Rotation cursor and deadlines after one credit |
| `HostResponder.ResponderChannel.ReserveCredit` | reference/arbor-host.cc:641-654 | Accounts for the credit and creates its entry as the model does |
| `HostResponder.ResponderChannel.SendResponseFor` | reference/arbor-host.cc:727-749 | A first send counts once and carries the credit given |
| `HostResponder.ResponderChannel.PushData` | reference/arbor-host.cc:670-697 | A push credit carries its own payload, committed at once |
| `HostResponder.ResponderChannel.PiggybackCredit` | reference/arbor-host.cc:698-703 | A pull credit takes the oldest waiting payload, linked both ways |
| `HostResponder.ResponderChannel.SendCredit` | reference/arbor-host.cc:668-714 | The carrier of a fresh credit: its own payload, the oldest waiting one, or none |
| `HostResponder.ResponderChannel.IssueOn` | reference/arbor-host.cc:637-714 | One credit on an open subchannel leaves its window respected |
| `HostResponder.ResponderChannel.IssueRound` | reference/arbor-host.cc:608-717 | One round issues at most one credit, and none only when stalled |
| `HostResponder.ResponderChannel.IssueCredits` | reference/arbor-host.cc:598-725 | Windows are never exceeded, every credit found its pacing gate open and pushed its deadline on, and the loop stops only when every gate is closed |
| `HostResponder.ResponderChannel.FlushPendingResponses` | reference/arbor-host.cc:751-757 | First-sends everything no credit picked up, and empties the queue |
| `HostResponder.ResponderChannel.FlushHead` | reference/arbor-host.cc:751-757 | One turn of the flush takes the head of the queue and first-sends it without a credit, as in the model |
| `HostResponder.ResponderChannel.StartEndHandshake` | reference/arbor-host.cc:992-1005 | END goes to every subchannel and the handshake is marked pending |
| `HostResponder.ResponderChannel.CheckEnd` | reference/arbor-host.cc:843-845 | The handshake starts exactly when the last offset is done |
| `HostResponder.ResponderChannel.RetireCredit` | reference/arbor-host.cc:852-864 | Both counters drop by one and the entry is done |
| `HostResponder.ResponderChannel.CheckDone` | reference/arbor-host.cc:848-866 | A committed offset with a full bitmap is done and its budget is reissued, as in the model |
| `HostResponder.ResponderChannel.CommitEntry` | reference/arbor-host.cc:820-846 | The commit cascade of queueing, issuing and flushing computes the model's state |
| `HostResponder.ResponderChannel.OnRequest` | reference/arbor-host.cc:759-818 | A master with its count or a single input is processed as in the model |
| `HostResponder.ResponderChannel.SettleEntry` | reference/arbor-host.cc:808-817 | Commit or completion once the bitmap is updated |
| `HostResponder.ResponderChannel.OnRegister` | reference/arbor-host.cc:567-590 | A full registration bitmap is acknowledged and opens the gate |
| `HostResponder.ResponderChannel.EnterRepair` | reference/arbor-host.cc:893-957 | Repair is entered and the credit resent when the budget covers it; otherwise the wait that would suffice is returned |
| `HostResponder.ResponderChannel.OnCreditTimeout` | reference/arbor-host.cc:870-879 | Repairs the credit, at the bucket's expense, unless it is done |
| `HostResponder.ResponderChannel.OnAggMiss` | reference/arbor-host.cc:881-891 | Repairs the credit unless it is committed, done or already repairing |
| `HostResponder.ResponderChannel.OnEndTimeout` | reference/arbor-host.cc:1007-1058 | Replays unbound payloads in order exactly as far as the topped-up tokens go, charges them, then repeats END |
| `HostResponder.ResponderChannel.ReplayTailResponses` | reference/arbor-host.cc:1026-1046 | The replay loop sends exactly what the model's replay sends, and leaves the tokens it leaves |
| `HostResponder.ResponderChannel.OnEndAck` | reference/arbor-host.cc:1060-1072 | Forgets the message exactly when all requesters acknowledged and all offsets are done |
| `HostResponder.ResponderChannel.FinishMessage` | reference/arbor-host.cc:1074-1085 | Drops the message and exactly its entries, offset by offset |
| `HostRequester.RequesterChannel.FindReqMessage` | reference/arbor-host.cc:228-244 | The predecessor lookup finds the one covering message |
| `HostRequester.RequesterChannel.Submit` | reference/arbor-host.cc:169-188 | Registers the message on every subchannel, as in the model |
| `HostRequester.RequesterChannel.DeliverPayload` | reference/arbor-host.cc:429-451 | A payload is counted once, and a future one counts as a violation |
| `HostRequester.RequesterChannel.ConsumeCredit` | reference/arbor-host.cc:453-482 | A normal credit is answered once, a repair credit each time |
| `HostRequester.RequesterChannel.OnResponse` | reference/arbor-host.cc:424-483 | Payload first, then credit, as in the model |
| `HostRequester.RequesterChannel.OnRegisterAck` | reference/arbor-host.cc:415-422 | The subchannel counts as registered |
| `HostRequester.RequesterChannel.RegisterBeaconTick` | reference/arbor-host.cc:378-413 | Confirmed items leave the front, the first one still awaited is sent and moves to the back |
| `HostRequester.RequesterChannel.OnEnd` | reference/arbor-host.cc:529-563 | Acknowledges a complete message and reclaims it, or repeats the acknowledgement of a reclaimed one |
| `HostRequester.RequesterChannel.Reclaim` | reference/arbor-host.cc:553-562 | Leaves a tombstone under the message id and releases exactly the message's offsets |
| `HostResponder.BurstPerInstant` | reference/arbor-host.cc:608-666 | However many credits one event issues, a paced subchannel gets at most the allowed burst at one instant |
| `HostResponder.BurstAfterIdle` | reference/arbor-host.cc:608-666 | After an idle spell a burst passes the gates if and only if it gives each paced subchannel no more than the allowed burst, the others any number |
| `HostResponder.DeadlineClimbs` | reference/arbor-host.cc:655-657 | Each credit of a burst pushes its subchannel's deadline one gap further |
| `HostResponder.FundedTailIsReplayed` | reference/arbor-host.cc:1020-1046 | When the topped-up tokens cover the whole tail, exactly its cost is charged and every payload no credit carries is resent |
| `HostResponder.ReplayStops` | reference/arbor-host.cc:1026-1046 | The replay stops at the first payload the tokens left do not cover: everything unbound before it is resent and paid for, nothing after it |
| `HostResponder.Afford` | reference/arbor-host.cc:1026-1046 | Tail replay never drives the tokens below zero |
| `Pacing.RateBound` | reference/arbor-cc.h:172-179 | Over any run n credits with burst B span at least (n - B) gaps |
| `Pacing.BurstIsExact` | reference/arbor-cc.h:172-179 | The bound is tight: from an idle spell exactly B credits pass at one instant, no more |
| `Pacing.LastIsPaced` | reference/arbor-cc.h:172-179 | A deadline never advances by less than one gap per credit |
| `Pacing.DeadlineIs` | reference/arbor-cc.h:172-179 | The next deadline is the clock without pacing, otherwise the later of one gap after the last one and one gap after the earliest moment the debt limit allows |
| `Pacing.UnpacedPasses` | reference/arbor-cc.h:172-179 | Without pacing a run passes the gate as soon as its first credit does |
| `Pacing.BudgetBound` | reference/arbor-host.cc:928-946 | Over any run the bytes charged are covered by initial tokens plus rate times elapsed time, and tokens never go negative |
| `Pacing.Charge` | reference/arbor-host.cc:928-946 | A charge succeeds exactly when the topped-up bucket covers it, and never leaves it negative |
| `Pacing.RefillWaitSuffices` | reference/arbor-host.cc:936-957 | The computed refill wait funds the retry if nothing else touches the bucket |
| `Pacing.RetrySurvivesTailRefill` | reference/arbor-host.cc:1020-1034 | The retry still succeeds when END-timeout tops up the same bucket in between, if and only if the charge fits the burst |
| `SequenceSpace.OverlapIsSharing` | protocol/host.c:218-222 | The two-sided containment test is exact: circular ranges overlap if and only if they share a number |
| `SequenceSpace.BeforeAgrees` | reference/arbor-wire.h:177-179 | Half-space comparison agrees with the unbounded order for distances below 2^23 |
| `SequenceSpace.BeforeFailsAtHalf` | reference/arbor-wire.h:177-179 | ... and fails at exactly 2^23 |
| `SequenceSpace.BeforeAgreesIff` | reference/arbor-wire.h:177-179 | Of two numbers less than 2^24 apart both comparisons agree with the unbounded order if and only if they are less than 2^23 apart |
| `SequenceSpace.ContainsAgrees` | wire/arbor_wire.h:226 | Inside one window of the space circular containment is plain containment |
| `SequenceSpace.ReservedKeepsDisjoint` | protocol/host.c:224-248 | A reservation nobody blocks keeps live ranges pairwise disjoint modulo 2^24 |
| `SequenceSpace.AcquireKeepsWindow` | protocol/host.c:231-245 | The age test keeps all live messages inside one half window, so the circular table pictures unbounded reservations |
| `SequenceSpace.RollbackKeepsWindow` | protocol/host.c:250-258 | Taking a reservation back keeps the window if and only if nothing live lies in what is taken back |
| `SequenceSpace.AgeTestSuffices` | protocol/host.c:231-240 | Inside the window the age test alone decides; the overlap test never fires |
| `SequenceSpace.ReservationRefusedIff` | protocol/host.c:224-248 | In unbounded numbers a reservation is refused if and only if it is empty, larger than half the space, or some other live message began half the space ago or earlier |
| `SequenceSpace.OwnsAgrees` | protocol/host.c:260-294 | Inside the window the circular lookup answers the unbounded question |
| `SequenceSpace.CoverIsPrevOrLast` | reference/arbor-host.cc:209-244 | Only the predecessor, or wrapping round the last element, can cover a number |
| `SequenceSpace.FindInOrderedMap` | reference/arbor-host.cc:209-244 | upper_bound, predecessor, then last element: finds the covering message whenever one exists |
| `SequenceSpace.MessageTable.ReserveSequence` | protocol/host.c:224-248 | Reserves the next numbers, disjoint from all live ranges, or refuses and changes nothing |
| `SequenceSpace.MessageTable.Acquire` | protocol/host.c:326-350 | Takes the first free slot in rotation with a disjoint range, or leaves the table as it was |
| `SequenceSpace.MessageTable.Release` | protocol/requester.c:79-92 | Frees exactly one slot and its numbers |
| `SequenceSpace.MessageTable.Rollback` | protocol/host.c:250-258 | Undoes the last reservation exactly when nothing was reserved after it |
| `SequenceSpace.MessageTable.Find` | protocol/host.c:260-294 | For every hint, the unique message that owns the number, or none |
| `Rings.FlushPartitions` | protocol/responder.c:233-284 | With any clock a flush sends and keeps exactly the queue between them, each frame once, and keeps nothing due at its last look |
| `Rings.FlushAtOneInstant` | protocol/responder.c:233-284 | With a still clock a flush sends exactly the due frames and keeps exactly the others, both in FIFO order |
| `Rings.SendQueue.Enqueue` | protocol/responder.c:205-231 | Refused exactly when the frame is malformed or the ring is full; otherwise last in the queue |
| `Rings.SendQueue.Visit` | protocol/responder.c:244-253 | A due slot is transmitted and blanked, any other left alone |
| `Rings.SendQueue.Scan` | protocol/responder.c:241-256 | Transmits exactly the due frames in order and blanks exactly their slots |
| `Rings.SendQueue.MoveUp` | protocol/responder.c:262-271 | One frame moves to the write position without disturbing what was moved before |
| `Rings.SendQueue.MoveAllUp` | protocol/responder.c:259-272 | All waiting frames end up contiguous from the tail, in their original order |
| `Rings.SendQueue.Compact` | protocol/responder.c:258-274 | The ring holds exactly the waiting frames, in order, without holes |
| `Rings.SendQueue.SkipBlanks` | protocol/responder.c:275-279 | After compaction the tail skips nothing that waits |
| `Rings.SendQueue.Pass` | protocol/responder.c:240-281 | One pass sends the due frames and leaves the rest, and says whether it sent any |
| `Rings.SendQueue.FlushSendQueue` | protocol/responder.c:233-284 | The outer loop terminates, because each repeating pass removes a frame, with the state the specification gives |
| `Rings.PlaceIsModulo` | protocol/host.c:546-585 | Stepping round the ring by comparison is the source's arithmetic modulo the ring size |
| `Rings.Connection.Push` | protocol/host.c:471-541 | A full ring drops the packet, otherwise it is last |
| `Rings.Connection.Pop` | protocol/host.c:546-556 | Takes the oldest packet, for all head and tail positions |
| `Rings.Connection.FindFirst` | protocol/host.c:565-570 | Finds the first packet of the asked message |
| `Rings.Connection.CloseGap` | protocol/host.c:572-578 | The shifting loop removes exactly one element from the middle, for all wrap positions |
| `Rings.Connection.PopMatching` | protocol/host.c:560-585 | Removes exactly the first packet of the asked message and keeps every other in order |
| `Rings.TakeFirst` | protocol/host.c:560-585 | Taking one message's first packet leaves every other message's stream as it was |
| `Rings.OwnPacketsInOrder` | protocol/host.c:558-585 | Under any interleaving of consumers each message sees its own packets in arrival order, without loss or repetition |
| `LosslessRun.LosslessCompleteness` | protocol/router.c:387-401 | The credit binds a slot at each router it reaches, requesters answer as soon as it has reached them, and other credits and requests use the same tables, with fewer bindings at a router than it has slots until the last answer has passed: once nothing can move exactly one master has emerged, it counts all requesters, and no AGG_MISS was produced |
| `LosslessRun.NoMisses` | protocol/router.c:876-936 | No interleaving of credit, answers and other traffic makes a router report a miss for the credit |
| `LosslessRun.MoveKeeps` | protocol/router.c:871-988 | A binding, an answer, a climb, or an event of another credit keeps every rank in exactly one place and every bound slot the credit's own |
| `LosslessRun.RunIsShort` | protocol/router.c:871-988 | A run makes at most as many moves of its own as there was to do, whatever traffic runs between them |
| `LosslessRun.NeverStuck` | protocol/router.c:871-988 | At any point of any run that is not quiet the credit can reach another router, a requester can answer, or an answer can climb |
| `PlannedRun.CreditComesBackWhole` | runtime/runtime_common.c:53-96 | Stack, plan and tree composed: where the responder's mask is made of whole blocks, every lossless run of answers built from the stack the credit arrives with and the planned fan-ins ends with one master of all requesters in the mask at the responder, and no miss |
| `PlannedRun.DefaultGroupOk` | runtime/runtime_common.c:27-32 | A default mask is such a mask, and there the master counts n - 1 requesters |
| `PlannedRun.PlannedIsStacked` | runtime/runtime_common.c:53-96 | The stack a requester received and its planned fan-ins are what the completeness theorem asks of a request |
| `PlannedRun.PlannedNeverStuck` | runtime/runtime_common.c:53-96 | At any point of a planned run that is not quiet some planned move is possible |
| `Lossless.AcceptsAll` | protocol/router.c:613-659 | None of slot_accept's checks can fail for a packet of the credit |
| `Lossless.QuietMeansOneMaster` | protocol/router.c:960-988 | A quiet state has no contribution left in any slot and one master carrying everyone |
| `Lossless.StepKeeps` | protocol/router.c:871-988 | Sends, pops, absorptions and completions keep every rank in exactly one place |
| `Lossless.BindKeeps` | protocol/router.c:387-401 | A router may bind its slot in the middle of a run, while other branches already answer |
| `Lossless.DepthsFall` | protocol/router.c:871-988 | No step sends an input back down, so a slot everyone has passed is never needed again |
| `FanIn.CountBits32` | runtime/runtime_common.c:34-41 | The clearing loop counts exactly the set bits |
| `FanIn.ClearingDropsOne` | runtime/runtime_common.c:34-41 | x & (x - 1) removes exactly one of the bits of x |
| `FanIn.DefaultNeighbourMask` | runtime/runtime_common.c:27-32 | The mask has exactly the bits of the other ranks |
| `FanIn.CollectFanins` | runtime/runtime_common.c:75-83 | The levels of the plan, root first |
| `FanIn.PlanRequestFaninStack` | runtime/runtime_common.c:53-96 | Fills the output with the plan, keeping the levels nearest the requester when the output is short |
| `FanIn.BlockCountIsSize` | runtime/runtime_common.c:60-74 | A block's fan-in is the number of ranks in it other than the responder, requesters or not |
| `FanIn.MidIsSumOfLeaves` | runtime/runtime_common.c:60-74 | A middle block's fan-in is the sum over its leaf blocks |
| `FanIn.PlanFitsIff` | runtime/runtime_common.c:53-96 | With the requesters the mask names, the planned fan-ins are the numbers of requesters below each router if and only if the mask is made of whole blocks of four (of two when n <= 2), the responder excepted |
| `FanIn.MisfitWaits` | runtime/runtime_common.c:53-96 | For every other mask some requester's router waits for more contributions than there are requesters below it |
| `FanIn.SparseMaskMisfits` | runtime/runtime_common.c:53-96 | The input that shows it: four ranks, responder 0, mask {1, 2} |
| `FanIn.HalfMaskFits` | runtime/runtime_common.c:53-96 | A mask that leaves ranks out and fits: eight ranks, responder 0, mask {4, 5, 6, 7}, every plan 4, 4, 2 |
| `FanIn.DefaultPlanFits` | runtime/runtime_common.c:53-96 | Default masks are made of whole blocks, so the fan-ins fit for every rank count |
| `FanIn.PlannedTreeOk` | runtime/runtime_common.c:53-96 | The levels of the plan form a tree: shared levels at the same depth below the same levels, the root above everyone |
| `Multicast.CreditReachesEachOnce` | protocol/router.c:416-435 | On any configured tree a credit reaches each host exactly once |
| `Multicast.StackIsPath` | protocol/router.c:353-436 | The stack a host receives lists exactly the LEVEL routers on its route, top first; RELAY routers add nothing, and other branches may still be unreached |
| `Multicast.ClimbConsumesOwn` | protocol/router.c:864-900 | Climbing a route consumes exactly the entries of its LEVEL routers |
| `Multicast.AnswerRetracesCredit` | protocol/router.c:259-323 | The answer meets the same LEVEL routers in reverse, each finds its own entry on top, and the responder sees depth 0 |
| `Multicast.PathsAgree` | protocol/router.c:353-436 | Two routes share a LEVEL router only at the same depth, below the same routers |
| `Multicast.ConfiguredTreeOk` | protocol/router.c:222-246 | The LEVEL routers of any configured tree with at most three per path form a tree in the same sense |
| `Wire.ParseUndoesEncode` | wire/arbor_wire.h:245-281 | Parsing what was written returns the header if and only if it was canonical |
| `Wire.EncodeUndoesParse` | wire/arbor_wire.h:245-281 | Writing what was parsed returns the bytes if and only if version and reserved byte were well-formed |
| `Wire.LayoutExample` | wire/arbor_wire.h:245-281 | The 20 bytes of one concrete header, field by field |
| `Wire.WriteHeader` | wire/arbor_wire.h:269-281 | The C writer produces the 20 bytes of the format, for every header |
| `Wire.WriteStack` | wire/arbor_wire.h:275-278 | The stack loop writes each level's index and fan-in and nothing else |
| `Wire.Serialize` | reference/arbor-wire.h:88-107 | The C++ writer produces the same 20 bytes |
| `Wire.CreditPushLoc` | protocol/router.c:578-584 | The in-place push, byte by byte |
| `Wire.PushCommutes` | protocol/router.c:578-584 | Pushing on bytes is pushing on the stack if and only if the depth is below 3; on a full stack the depth wraps to 0 |
| `Wire.RequestPopLevel` | protocol/router.c:586-592 | The in-place pop, byte by byte |
| `Wire.PopCommutes` | protocol/router.c:586-592 | Popping removes exactly the top index, and nothing from an empty stack |
| `Wire.PopUndoesPush` | protocol/router.c:578-592 | Pop undoes push |
| `Wire.MasterFinalizeHeader` | protocol/router.c:594-600 | The in-place finalize, byte by byte |
| `Wire.FinalizeCommutes` | protocol/router.c:594-600 | On a non-empty stack finalizing marks a master, consumes one level and stores the whole count |
| `Wire.RewriteToAggMiss` | wire/arbor_wire.h:311-322 | The in-place rewrite, byte by byte |
| `Wire.AggMissCommutes` | reference/arbor-wire.h:145-155 | The two AGG_MISS rewritings agree if and only if the payload kind is DATA; offset and message id survive |
| `Wire.MissKeepsIdentity` | wire/arbor_wire.h:311-322 | The rewritten packet is an AGG_MISS with an empty stack that still names the message, the offset, the operation and the type of the request |
| `Requester.RequestCall.OnPayload` | protocol/requester.c:351-366 | A payload is counted once |
| `Requester.RequestCall.OnCredit` | protocol/requester.c:375-417 | A credit is dropped for a completed pull offset or when the ring suppresses it; otherwise remembered, and queued on its subchannel if there is room |
| `Requester.RequestCall.AnswerNext` | protocol/requester.c:477-495 | The oldest credit of the first subchannel in rotation is answered and marked in the ring |
| `Requester.RequestCall.MarkAnswered` | protocol/requester.c:489-492 | The ring notes an answer only if it still remembers the offset |
| `Requester.RequestCall.OnEnd` | protocol/requester.c:421-435 | END of this message is remembered per subchannel; one of another message is acknowledged at once exactly if its tombstone matches id and start |
| `Requester.RequestCall.TryFinish` | protocol/requester.c:498-516 | END is acknowledged on the subchannels it came on, and leaves a tombstone, only with every payload of the message received |
| `Requester.EndTombstones.Record` | protocol/host.c:160-167 | The tombstone of an id is replaced, all others stay |
| `Requester.AllDone` | protocol/requester.c:498 | The completed counter reaches the total exactly when every flag is set |
| `RequesterHistory.SuppressedIffMarked` | protocol/requester.c:379-390 | A normal credit is dropped if and only if the last credit that shares its place in the ring was for the same offset, and was normal or has been answered since |
| `RequesterHistory.CreditIsNoted` | protocol/requester.c:375-417 | A credit changes nothing exactly if its payload completed a pull or it repeats a normal credit the ring remembers; any other is the last noted of its class and goes to the end of its queue if there is room |
| `RequesterHistory.CompletedIsReceived` | protocol/requester.c:351-366 | In every run an offset counts as completed if and only if its payload has come |
| `RequesterHistory.RingIsHistory` | protocol/requester.c:94-106 | In every run of payloads, credits and answers the ring holds what the credits noticed and answered so far say, and no queued credit lies outside the message |
| `RequesterHistory.SuppressedInSmallCalls` | protocol/requester.c:379-390 | In a call that fits the ring, without repair for an offset, its normal credits are dropped exactly from the first one on |
| `RequesterHistory.AnsweredOnceInSmallCalls` | protocol/requester.c:375-495 | In every run of a call that fits the ring, without repair for an offset, its normal credit is answered at most once, however often it comes |
| `RequesterHistory.AnsweredIffRoom` | protocol/requester.c:108-126 | And once nothing waits any more it has been answered if and only if its queue had room when it first came |
| `RequesterHistory.AccountKept` | protocol/requester.c:375-495 | The books behind both: at any time it is queued or answered once if its queue had room when it first came, and neither otherwise |
| `RequesterHistory.DroppedCreditStaysDropped` | protocol/requester.c:108-126 | A normal credit that first came when its queue was full is never queued or answered in the whole run |
| `RequesterHistory.QueueCanFill` | protocol/requester.c:108-126 | The run that shows it: in every call with two offsets and any queue size, repair credits for one fill the queue and the other's first credit is lost |
| `RequesterHistory.CanDrain` | protocol/requester.c:477-495 | Every run can be continued, by answering alone, until no credit waits |
| `RequesterHistory.AliasAnswersTwice` | protocol/requester.c:94-106 | In a call longer than the ring an offset one ring away makes the same normal credit be answered twice without any repair |
| `Requester.DequeueCredit` | protocol/requester.c:128-139 | The oldest credit of the first non-empty subchannel from the cursor |
| `ReferenceSwitch.Switch.BindCredit` | reference/arbor-switch-node.cc:205-245 | The next slot in rotation, whatever it holds |
| `ReferenceSwitch.Switch.HandleUpstream` | reference/arbor-switch-node.cc:306-436 | A request is passed on (with fan-in 1, or header-only with control aggregation off), reported as missed, or its contribution is in the slot's count; the count leaves in a master exactly when it meets the fan-in; a slot stays within its fan-in if the request does; and wherever the C router holds the same slot both act alike and stay alike |
| `ReferenceSwitch.Switch.Count` | reference/arbor-switch-node.cc:361-436 | The same for the count-or-miss half, on one slot in place |
| `ReferenceSwitch.StepsAgree` | reference/arbor-switch-node.cc:376-436 | One request within its fan-in has the same outcome at both machines and keeps their slots twins |
| `ReferenceSwitch.DecisionsAgreeIff` | reference/arbor-switch-node.cc:376-398 | At a slot they both own, switch and router decide differently if and only if the request is a first contribution larger than its fan-in |
| `ReferenceSwitch.CountingKeepsTwins` | reference/arbor-switch-node.cc:400-417 | Counting the same request keeps the two slots equal and agreeing on completion |
| `ReferenceSwitch.TwinsAgreeOnRuns` | reference/arbor-switch-node.cc:376-436 | On every run of requests within their fan-ins the two machines miss, hold and complete alike |
| `ReferenceSwitch.OversizedFirstSticks` | reference/arbor-switch-node.cc:381-412 | The oversized first contribution: the router reports a miss, the switch's slot can never complete |

## Left out

- HostModel: offsets are unbounded numbers there; `SequenceSpace.BeforeAgrees`, `OwnsAgrees` and `FindInOrderedMap` say when the 24-bit arithmetic agrees with them.
- HostResponder.ResponderChannel.FindRespMessage: looks up the predecessor without the wrap fallback, which unbounded offsets never need; `SequenceSpace.FindInOrderedMap` has the fallback.
- HostRequester.RequesterChannel.FindReqMessage: as FindRespMessage.
- HostResponder.ResponderChannel.EnterRepair: the sizes charged to the repair budget are a parameter, and the abort after too many retries is not modelled.
- HostResponder.ResponderChannel.OnEndTimeout: the size of each replayed payload is a parameter, and the abort after too many retries is not modelled.
- HostResponder.ResponderChannel.OnCreditTimeout: inherits both from EnterRepair.
- HostResponder.ResponderChannel.OnAggMiss: inherits both from EnterRepair.
- HostResponder.ResponderChannel.IssueCredits: the maximality of issuing is stated for the dynamic policy without a channel rate cap; the periodic rate update and the timer for the next deadline are left out.
- HostSystem.StepKeeps: values are abstract there (the simulator reduces none) and offsets unbounded; the contributors of a master are given, and that its count is their number is proved for the C routers in AggregationSystem, for data and acknowledgements.
- HostSystem.ReachableInv: the same abstractions as HostSystem.StepKeeps.
- HostSystem.ImplicitAcknowledgement: the same abstractions as HostSystem.StepKeeps.
- HostSystem.FinishedMessageIsDelivered: the same abstractions as HostSystem.StepKeeps.
- ResponderCall.CallTable.HandleRequest: sequence numbers are relative to the call's message, and the message lookup before it is in SequenceSpace.
- ResponderCallHistory.StepKeeps: requests and AGG_MISS arrive only for credits already sent; the repair budget, retry limits and END retries are not part of a call's state.
- ResponderCall.CallTable.MaybeIssueCredits: the window and pacing gates around it are not repeated here (reference/arbor-host.cc has the same gates, in HostResponder).
- ResponderCall.CallTable.TimeoutRepair: which entries are due, and the repair budget, are a parameter.
- Requester.RequestCall.OnCredit: the per-subchannel credit rings are sequences with a limit (ring arithmetic is proved in Rings); packets of other messages, and the check for offsets not yet submitted, come before this step.
- LosslessRun.LosslessCompleteness: one credit on one tree at a time; its other traffic is arbitrary events of other owners at the same routers.
- Pacing.BudgetBound: tokens are real numbers, without floating-point rounding.
- FanIn.PlannedTreeOk: groups of at most 256 ranks, since a larger fan-in does not fit its byte; the source's 32-bit rank masks stop at 32.
- ReferenceSwitch.Switch.HandleUpstream: residence statistics, hash addressing and the multicast of responses are left out.
- ReferenceSwitch.Switch.BindCredit: hash addressing, statistics and the push on the header are left out.
- Responder.CreditEntry.TryEnterRepair: the budget, the attempt limit and the trigger that is sent are left out.
- EndHandshake.StepKeeps: ids are taken in rotation, an id is taken again only after the call that had it has returned, and both sides agree on them (the source skips ids still in use); one subchannel stands for all; calls that fail, retry limits and the check that a reservation overlaps no live one are left out; the responder's rows are values here.
- Wire.WriteHeader: the 20 Arbor bytes; Ethernet, IPv4 and UDP headers, checksums and port numbers are not part of this model.
- Threads, locks, packet capture and clocks: each locked region is one step, and times are inputs.
- Configuration parsing, topology files, the command-line programs and the workload driver.
- Congestion control in floating point (Oscar, TIMELY, Swift, DCQCN) and the rate sample that the responder never applies.
- Reduction of float words, and buffers that are not packet aligned.
- Liveness under loss: retries are bounded and calls may time out.
