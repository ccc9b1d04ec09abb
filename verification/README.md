# Verified models of the die-to-die transport and the collectives

WaferAI-SIM simulates a wafer of neural-processing dies. This project models the two parts of it whose
correctness is an argument about protocols rather than about numbers, and proves that argument:

* **the die-to-die link.** The bounded link (finite queues, latency, rational token buckets, credit returns)
  is closed by its credit-counting sender; the production link (whole-flow store and forward, inflight stage,
  receive stage) is closed by an upstream that keeps the whole-flow protocol and by shared reservation ledgers
  that other links and flows change at will, and all the links of a group are joined by their arbiter. Every
  hardware signal is one register: what is written in one cycle is read in the next.
* **the collectives.** The per-rank planner, the barrier, rendezvous execution of all plans together, in-network
  integer reduction, the gather reorder buffer, the multicast tree check and the bit-exact wire formats.

Objects the simulator updates in place are classes (`LinkUnit`, `SafLinkUnit`, `Unit`, `LinkGroups`,
`WholeFlowSafAdmission`, `Planner`, `BarrierRuntime`, `CollOperandMatchBuffer`, `GatherReorderBuffer`,
`Validator`, `DynamicPortTable`). Each of their methods is tied to a function on values, and the theorems are
about those functions over all inputs and all runs. What each such function answers is also stated apart from it:
by histories, counts, bit ranges and descriptor fields.

| Files | Subject |
|---|---|
| `Rates`, `TokenBucket`, `BoundedLink`, `CreditLoop`, `LinkTiming`, `Throughput` | the bounded link, its credit law, when each packet leaves, its exact throughput |
| `FlowLedger`, `SafRuntime`, `SafRuntimeUnit`, `SafAgreement`, `SafReservation` | whole-flow admission over many links and groups |
| `GroupArbiter`, `SafLink`, `SafContent`, `SafGroup`, `SafSafety`, `SafTiming`, `SafProgress`, `SafDrain` | the production link and the arbiter it asks: content, fairness, safety, timing, progress |
| `SafFleet`, `SafFleetDrain` | all links of a group together, each with its own upstream: no errors, bounded waits, bounded drains |
| `DieMesh`, `LinkTable`, `DieRoute`, `StripedReservation`, `DynamicPorts` | the die mesh, its link table, routes, exits |
| `CollTypes`, `CollPlan`, `CollFit`, `PlanOrder`, `Barrier`, `CollRun`, `CollMain` | planning and running a collective |
| `Reduction`, `MatchBuffer`, `ReorderBuffer`, `TreeValidator` | reduction, reordering and multicast trees |
| `Wire`, `FabricWire`, `DescriptorWire`, `WireLayout` | wire formats |

## Where the code falls short of what it says

* A group of all 65536 core ids passes validation, but its 16-bit rank count is zero. Exactly that group is
  left uncovered by the planner (`CollFit.CoversIff`, with `CollFit.EveryCoreUncovered` as the instance), is
  refused by the barrier for five operations (`CollMain.NeverFailsIff`, with `CollMain.EveryCoreRefused`), and
  cannot be sent (`DescriptorWire.RoundTripsIff`, `DescriptorWire.EveryCoreUnsendable`).
* The descriptor decoder ignores unused bits, so it accepts wires the encoder never writes
  (`DescriptorWire.UncleanAccepted`). `DescriptorWire.CanonicalIffClean` says which: those with a non-zero unused
  bit. The COLL_DATA and operand decoders have no such slack.

The header comment on the bounded link promises a packet per cycle once the depth reaches the bandwidth-delay
product, and that promise is kept: `Throughput.BdpIsExact` shows the depth formula exact in both directions, and
`Throughput.ShallowRate` what a shallower link does instead.

## Model

| member | source | states |
|---|---|---|
| Rates.BdpCovers | llm/include/die/port.h:142-145 | the bandwidth-delay depth is the least depth that carries one credit round trip's packets |
| Rates.ServiceCyclesLeast | llm/include/die/behavioral.h:60-69 | the closed-form service time is the first cycle in which the packets' tokens have been earned |
| TokenBucket.WindowBound | llm/src/die/d2d_link.cpp:348-397 | under any demand, no window delivers more than one packet above its earned rate |
| TokenBucket.SteadyWindow | llm/src/die/d2d_link.cpp:348-397 | while backlogged and past the first cycle, every window of `den` cycles delivers exactly `num` packets |
| TokenBucket.EnoughIffAffordable | llm/src/die/d2d_link.cpp:368-397 | the bucket lets a packet go exactly if that keeps every window, from reset on, within the rate |
| TokenBucket.ServiceCyclesIsSchedule | llm/include/die/behavioral.h:60-69 | from an empty bucket, `packets` packets have left by cycle `n` if and only if `n` reaches the closed-form service time: formula and cycle model agree |
| BoundedLink.LinkUnit.ForwardBounded | llm/src/die/d2d_link.cpp:347-461 | one cycle of the link object, in the source's order (credits, delivery, cap, control, acceptance last), is the step function on its whole state, outputs included |
| CreditLoop.RunConserves | llm/src/die/d2d_link.cpp:350-444 | on every run, for any demand, downstream and arbiter: each of the `depth` slots is a credit, on the wire, queued, on its way home or pulsed; nothing is ever refused for want of room; what was sent is what came out, then the queue, then the wire |
| CreditLoop.PulseIffDelivered | llm/src/die/d2d_link.cpp:350-366 | a credit is pulsed in a cycle if and only if a packet was delivered `max(latency, 1)` cycles before |
| CreditLoop.DeliveriesAreBucket | llm/src/die/d2d_link.cpp:368-397 | in any window of any run the link's deliveries are the token bucket's under that window's demand |
| CreditLoop.RunRateBound | llm/src/die/d2d_link.cpp:368-397 | no window of any run delivers more than one packet above the configured rate |
| LinkTiming.DataLeavesIff | llm/src/die/d2d_link.cpp:368-397 | on every run a data packet leaves in a cycle if and only if the downstream is ready, the group grants it, one was sent `max(latency, 1) + 1` cycles before and has not left, and no window's rate is exceeded; it is the oldest |
| LinkTiming.CtrlLeavesIff | llm/src/die/d2d_link.cpp:399-414 | a control packet leaves in a cycle if and only if the downstream is ready for it and one is due |
| LinkTiming.OutputsShow | llm/src/die/d2d_link.cpp:373-456 | the link hands on what leaves, and asks for more exactly while the packets that reached it and have not left are fewer than its depth |
| LinkTiming.NothingVanishes | llm/src/die/d2d_link.cpp:420-444 | whatever is sent, the queue stays within its depth and an arrival is queued, or counted refused exactly when no slot is free |
| Throughput.RoundTripApart | llm/include/die/port.h:131-140 | on every run, delivery `k + depth` comes at least one credit round trip after delivery `k` |
| Throughput.FirstDeliveryExact | llm/src/die/v1_link_selftest.cpp:71-104 | with a greedy sender and a ready downstream the first delivery is in one fixed cycle, whatever the depth |
| Throughput.Sustains | llm/src/die/d2d_link.cpp:347-433 | at any pace that neither tokens nor round trip forbid, the k-th later packet meets its deadline and has left by it |
| Throughput.BdpSustainsRate | llm/include/die/port.h:142-145 | at the bandwidth-delay depth the greedy loop's k-th later packet has left within `ceil(k * den / num)` cycles of the first |
| Throughput.ShallowRate | llm/src/die/d2d_link.cpp:342-347 | below the bandwidth-delay depth the link delivers exactly `depth` packets per round trip |
| Throughput.BdpIsExact | llm/include/die/port.h:131-145 | the greedy loop keeps its nominal schedule, in every prefix, if and only if the depth reaches the bandwidth-delay formula |
| FlowLedger.WholeFlowSafAdmission.constructor | llm/include/common/flow.h:67-75 | a new ledger is empty and valid |
| FlowLedger.WholeFlowSafAdmission.Reserve | llm/include/common/flow.h:77-97 | a refused flow changes nothing; an admitted one is recorded whole; the total stays the sum of the records and within capacity |
| FlowLedger.WholeFlowSafAdmission.Release | llm/include/common/flow.h:99-109 | the recorded count comes back; the total never goes negative |
| FlowLedger.AdmissionIs | llm/include/common/flow.h:77-97 | each refusal of a flow, and its admission, by size, key and the sum of the standing reservations |
| FlowLedger.RemoveUndoesAdd | llm/include/common/flow.h:93-108 | releasing a reservation restores the ledger exactly |
| SafRuntimeUnit.Unit.ReserveSafPlans | llm/src/die/port_config.cpp:154-236 | preflight, commit and rollback loops: every plan is reserved on every link and group of its path, or all ledgers and flow maps are as before and the outcome names the first failing check |
| SafRuntimeUnit.Unit.ReleaseWholeFlowSafLink | llm/src/die/port_config.cpp:269-306 | one hop's release, with its checks and the ledger's own error in order, from any sound ledgers; a refused release changes nothing |
| SafAgreement.ReserveAgrees | llm/src/die/port_config.cpp:160-235 | a reservation, admitted or not, keeps link ledgers, group ledgers and both flow maps views of one set of claims |
| SafAgreement.ReserveSound | llm/src/die/port_config.cpp:200-235 | an admitted reservation leaves every single ledger sound, whether or not the ledgers agree with one another |
| SafReservation.CommitCannotFail | llm/src/die/port_config.cpp:200-228 | for distinct keys on paths that repeat no link and no group, the commit-mismatch errors are unreachable, and admission is exactly positive sizes, idle keys, room on every link and in every group |
| SafReservation.RefusalsAre | llm/src/die/port_config.cpp:160-235 | why a reservation is refused: the first plan with a bad size or active key, else a link whose hops need more than it has left, else such a group |
| SafReservation.ReleaseIff | llm/src/die/port_config.cpp:269-294 | in an agreeing state a release succeeds if and only if the flow holds that many packets on that link; the group checks are never the ones to fail |
| SafReservation.ReleaseRefusalsAre | llm/src/die/port_config.cpp:269-294 | why a release is refused: the flow holds nothing on that link, or another count |
| SafReservation.ReleaseAgrees | llm/src/die/port_config.cpp:296-305 | a release keeps all four views in agreement and takes away that one claim |
| SafReservation.GroupTotalAlways | llm/src/die/port_config.cpp:136-306 | in every state reachable by reservations and releases a group's reserved total is the sum over its member links, and within capacity |
| SafReservation.LinksDetermine | llm/src/die/port_config.cpp:48-52 | in agreeing states the link ledgers determine the group ledgers and both flow maps |
| SafReservation.ReleaseAllFrees | llm/src/die/port_config.cpp:296-305 | releasing standing claims, in any order, removes those claims and no others |
| SafReservation.ReleaseUndoesReserve | llm/src/die/port_config.cpp:200-306 | releasing each hop of an admitted reservation once, in any order, restores every ledger and map |
| GroupArbiter.LinkGroups.constructor | llm/src/die/port_config.cpp:100-105 | every link group gets an idle arbiter |
| GroupArbiter.LinkGroups.LinkGroupGrant | llm/src/die/port_config.cpp:107-134 | one call: a link outside the table or in no group has its request; otherwise the missing-arbiter and regressing-cycle errors, which change nothing, or the rollover on a new cycle, the registered request and the answer; once initialised the missing-arbiter error is unreachable |
| GroupArbiter.CycleState | llm/src/die/port_config.cpp:119-132 | the state a cycle leaves depends only on the set of links that asked in it |
| GroupArbiter.CycleAnswer | llm/src/die/port_config.cpp:119-133 | a call is granted exactly if it asks and its link is the cycle's one pick |
| GroupArbiter.GrantedIff | llm/src/die/port_config.cpp:119-133 | a cycle's grant goes to the lowest asker of the cycle before that is above the last winner, or to the lowest of all, and only if it asks again |
| GroupArbiter.OrderIndependent | llm/src/die/port_config.cpp:107-134 | permuting a cycle's calls changes neither the next state nor any answer, and at most one link wins |
| GroupArbiter.RoundIsCalls | llm/src/die/port_config.cpp:119-133 | the fairness argument's round is what a cycle's calls come to, in any order |
| GroupArbiter.WinsInTurn | llm/src/die/port_config.cpp:119-133 | a member that keeps asking is granted within as many cycles as the group has members, whatever the others ask |
| SafLink.SafLinkUnit.ForwardBoundedSaf | llm/src/die/d2d_link.cpp:469-659 | one cycle of the production link object and of the ledgers it releases to: new state, outputs, or the first contract error, as specified |
| SafContent.StepFaithful | llm/src/die/d2d_link.cpp:477-641 | one cycle keeps the account of every packet captured, waiting, departed and delivered |
| SafContent.CarriesWholeFlows | llm/src/die/d2d_link.cpp:477-641 | on every run: delivered, received and inflight packets are the departures in order; memory flits apart those are a prefix of completed flows laid end to end, each with its declared count; nothing is lost or copied; the ready-queue mismatch is unreachable |
| SafGroup.RequestPersists | llm/src/die/d2d_link.cpp:504-561 | an ungranted request of the store-and-forward stage is made again in the next cycle, whatever happens in between |
| SafGroup.RequestIsServed | llm/src/die/port_config.cpp:107-134 | hence a link that starts asking is granted within as many further cycles as its group has members |
| SafGroup.GroupCycleIsCalls | llm/src/die/port_config.cpp:119-133 | the arbiter's state in a group's cycle is what the links' own calls come to, in any order |
| SafGroup.GroupReadsAnswers | llm/src/die/d2d_link.cpp:510-512 | in a group's cycle each link reads exactly the answer to its own call, whatever the order of the calls |
| SafGroup.AskingLinkSends | llm/src/die/d2d_link.cpp:504-561 | a whole group under its own arbiter: a link that asks sends a packet in that cycle or within as many further cycles as the group has links, unless an error ends the simulation first |
| SafSafety.NoErrorReachable | llm/src/die/d2d_link.cpp:504-641 | under the whole-flow protocol no error of the link or of its releases is reachable on any run, other flows and links coming and going and keys being reused; credits are conserved on both channels |
| SafSafety.OccupancyBelowClaims | llm/src/die/d2d_link.cpp:606-614 | on every run the flows' occupancy is at most what the ledger has reserved on the link, which is at most the stage's depth |
| SafSafety.UnfinishedFlowHasCredit | llm/src/die/v1_link_selftest.cpp:186-243 | in any reachable state with nothing ready to leave, an unfinished flow still has a credit in hand, coming back, or spent on the wire |
| SafSafety.ProtocolRunCarriesWholeFlows | llm/src/die/d2d_link.cpp:477-641 | the safety and content results meet: under the protocol the link never stops and carries whole flows unchanged |
| SafTiming.HandedOnIff | llm/src/die/d2d_link.cpp:477-487 | a packet goes to the router in a cycle if and only if the router is ready and one had reached the receive stage; it is the next that entered the pipe |
| SafTiming.ReachesIff | llm/src/die/d2d_link.cpp:489-502 | a packet reaches the receive stage in a cycle if and only if there is room and the oldest in the pipe entered it at least `max(latency, 1)` cycles before |
| SafTiming.LatencyKept | llm/src/die/d2d_link.cpp:489-530 | no packet reaches the receive stage before its latency is up |
| SafTiming.DepartsIff | llm/src/die/d2d_link.cpp:504-561 | a packet enters the pipe in a cycle if and only if the group grants it, something whole waits, the pipe has room and neither rate is exceeded in any window; memory flits first, each kind in order |
| SafTiming.WindowsBounded | llm/src/die/d2d_link.cpp:470-561 | in no window does the link send more than one packet above the port's rate or its own |
| SafTiming.CtrlHandedOnIff | llm/src/die/d2d_link.cpp:563-580 | a control packet is handed on in a cycle if and only if the router is ready for it and one is due; in order of arrival |
| SafTiming.OutputsShow | llm/src/die/d2d_link.cpp:484-657 | the link hands on what leaves, and asks for more exactly while captured less departed packets, and waiting control packets, are fewer than it may hold |
| SafTiming.CompletesAtTail | llm/src/die/d2d_link.cpp:604-641 | what comes in is captured, and a flow becomes whole exactly when its tail does |
| SafTiming.ReturnsAtTail | llm/src/die/d2d_link.cpp:533-546 | a flow's announced claim goes back in the cycle its last stored packet enters the pipe, and in no other |
| SafTiming.GoesThroughIff | llm/src/die/d2d_link.cpp:581-641 | a cycle goes through if and only if its arrivals fit: room, a request of a fitting size for an unused key, data that is the next packet of an announced flow, its tail in the numbered place |
| SafTiming.ControlErrors | llm/src/die/d2d_link.cpp:581-597 | which error a control packet meets |
| SafTiming.DataErrors | llm/src/die/d2d_link.cpp:606-640 | which error a data packet meets |
| SafProgress.NextIsSent | llm/src/die/d2d_link.cpp:463-468 | without memory flits, an announced flow's next packet is sent in the very cycle it is offered: reservation leaves it a credit whatever the other flows do |
| SafProgress.SentAtFullRate | llm/src/die/v1_link_selftest.cpp:226-238 | from any reachable state an announced flow sends one packet a cycle until done, over any run of the other flows, the downstream and the arbiter |
| SafDrain.AlwaysBounded | llm/src/die/d2d_link.cpp:489-561 | on every run the buckets, the pipe and the receive stage stay within their configured bounds, and no packet is stamped further ahead than the latency |
| SafDrain.ReservedFlowDrains | llm/src/die/d2d_link.cpp:463-561 | no starvation: an announced flow whose remaining packets are offered one a cycle has drained and returned its claim within those cycles, one more, and `depth + 1` times the open link's pace, other flows coming and going freely |
| SafFleet.StepExists | llm/src/die/d2d_link.cpp:504-641 | a whole group under protocol-keeping upstreams can always take its next cycle: no link of it meets an error, whatever the outside does |
| SafFleet.StepIsCalls | llm/src/die/port_config.cpp:107-134 | in such a cycle the arbiter's next state, and the answer each link reads, are those of the links' calls, in any order |
| SafFleet.AskingLinkSends | llm/src/die/d2d_link.cpp:504-561 | on every run of the group a link that asks sends a packet in that cycle or within as many further cycles as the group has links; no error can come first |
| SafFleetDrain.GroupedFlowDrains | llm/src/die/d2d_link.cpp:463-561 | no starvation in a group: an announced flow offered one packet a cycle has drained within those cycles, one more, and `depth + 1` times the link's pace and its wait for the arbiter, all other links and flows doing as they please |
| DieMesh.HopNearer | llm/include/utils/router_utils.h:17-31 | the first-hop direction leads to a die of the mesh that is exactly one step nearer |
| DieMesh.NeighbourBack | llm/src/die/port_config.cpp:985-1008 | going one way and back returns to the same die |
| DieMesh.NeighbourIs | llm/src/die/port_config.cpp:994-1008 | east and west are the next dies of the row, north and south a row's length away; at the edge there is none |
| DieMesh.DiePathExact | llm/include/utils/router_utils.h:26-31 | the dimension-ordered path has exactly the Manhattan distance in hops, each die one step nearer, ending at the destination |
| DieMesh.DiePathSimple | llm/include/utils/router_utils.h:17-31 | no die is visited twice |
| DieMesh.RowThenColumn | llm/include/utils/router_utils.h:17-25 | the path runs along its own row until it is in the destination's column, then along that column |
| LinkTable.MirrorBack | llm/src/die/port_config.cpp:1028-1036 | on a template with at most one port per side and index, mirroring is its own inverse |
| LinkTable.PairedIff | llm/src/die/port_config.cpp:1028-1050 | a port is paired if and only if a port sits at the same place of the opposite side with the same bandwidth, latency and group |
| LinkTable.TableIs | llm/src/die/port_config.cpp:1016-1061 | the built table holds exactly the links between facing ports of neighbouring dies, with those ports' numbers and settings |
| LinkTable.AllOrigins | llm/src/die/port_config.cpp:1060-1068 | no port of a die starts two links |
| LinkTable.Reciprocal | llm/src/die/port_config.cpp:1069-1081 | every link has its exact reverse in the table |
| LinkTable.BuildLinks | llm/src/die/port_config.cpp:1016-1082 | the construction loops succeed if and only if every port with a neighbour has a compatible mirror, build the whole table, and never fail either post-check |
| DieRoute.BuildRoute | llm/include/die/behavioral.h:102-137 | the route loop ends on the dimension-ordered dies, its links join up and number the Manhattan distance; it never leaves the mesh, and with a built table and first-hop exits never fails |
| DieRoute.WholeFlowSafPath | llm/src/die/port_config.cpp:75-92 | following each link to wherever it leads terminates; it finds that route if and only if every die of it has a link at its chosen exit |
| DieRoute.ReadyRoutes | llm/src/die/port_config.cpp:75-92 | a built table with exits of the first-hop direction has such a link everywhere, so the missing-link error is unreachable |
| DieRoute.RouteIsExclusive | llm/src/die/port_config.cpp:75-92 | a route repeats no link and no directed die pair, so no ledger twice |
| DieRoute.StripesSameLength | llm/include/die/behavioral.h:162-166 | all stripes take the same number of links: the inconsistent-hop-count error is unreachable |
| StripedReservation.ReserveStripedWholeFlowSafPaths | llm/src/die/port_config.cpp:252-267 | the production entry point: its rejections, a missing link on some stripe's way, or all stripes' whole routes reserved, or nothing changed |
| StripedReservation.ReadyStripe | llm/src/die/port_config.cpp:75-92 | over a built table with exits of the first-hop direction no stripe of the entry point misses a link |
| StripedReservation.StripesAdmittedIff | llm/src/die/port_config.cpp:200-228 | for stripes on the mesh's own routes the commit-mismatch errors are unreachable, and admission is exactly positive sizes, idle keys and room |
| DynamicPorts.DynamicPortTable.SelectPort | llm/src/die/port_config.cpp:1191-1226 | a pinned flow keeps its port; a new one takes the first least-loaded port from its start; each load stays the number of live pins, the total selections less releases |
| DynamicPorts.DynamicPortTable.ReleasePort | llm/src/die/port_config.cpp:1231-1253 | a release succeeds exactly on a live pin; the underflow and mismatch errors are unreachable |
| DynamicPorts.PinnedKeepsValid | llm/src/die/port_config.cpp:1221-1224 | a selection keeps every load equal to the live pins there, and the totals in step |
| DynamicPorts.FreedKeepsValid | llm/src/die/port_config.cpp:1240-1252 | so does a release, whose load was positive |
| DynamicPorts.SelectionsStayBalanced | llm/src/die/port_config.cpp:1209-1220 | over any run of selections without releases from balanced loads, loads of one direction of one die differ by at most one |
| CollTypes.GroupSize | llm/include/dte/coll_types.h:112-119 | a validated group names each core once and has at most 65536 ranks |
| CollTypes.PartsTile | llm/include/dte/coll_types.h:135-144 | the ranks' parts follow one another from zero to the whole count, sizes differing by at most one and never growing |
| CollTypes.PartOf | llm/include/dte/coll_types.h:135-144 | every element lies in exactly one rank's part |
| CollPlan.PlanTier0Collective | llm/include/dte/coll_plan.h:20-104 | every rank's plan, as the loops push it, is its own view of one script; rejected exactly when a check fails |
| CollPlan.PlannedIff | llm/include/dte/coll_plan.h:20-24 | what all checks come to: a descriptor is planned if and only if its fields meet these conditions, listed one by one |
| CollFit.PlansMatch | llm/include/dte/coll_plan.h:29-33 | for every pair of ranks, the sends of one plan and the receives of the other are the same transfers in the same order: phase, size and offset |
| CollFit.SharedBarriers | llm/include/dte/coll_plan.h:26-28 | all plans have the same barriers in the same order |
| CollFit.ConsecutivePhasesDiffer | llm/include/dte/coll_plan.h:35-59 | consecutive barriers differ even where 16-bit phases wrap |
| CollFit.CoversExactly | llm/include/dte/coll_plan.h:35-101 | each pair an operation must connect is served by exactly one send and its receive, with the phase, size and offset the descriptor's fields give, and no other pair by any |
| CollFit.CoversIff | llm/include/dte/coll_plan.h:24 | an operation connects all its pairs if and only if the group has fewer than 65536 ranks |
| CollFit.EveryCoreUncovered | llm/include/dte/coll_plan.h:24 | the instance: a valid broadcast over every core id is planned as no transfer at all |
| CollFit.SlicesTile | llm/include/dte/coll_plan.h:46-53 | the scattered slices and the root's own tile the reduced chunk without gap, overlap or wrap |
| PlanOrder.ActionsInPhase | llm/include/dte/coll_plan.h:35-101 | every action of a plan stands between its phase's barriers: its phase counts the barriers before it, in 16 bits |
| PlanOrder.BarrierCount | llm/include/dte/coll_plan.h:35-101 | how many barriers each operation has |
| PlanOrder.RootCombinesOnce | llm/include/dte/coll_plan.h:42-44 | in a reduction the root combines once, after all contributions; no other plan combines |
| PlanOrder.SendsAscend | llm/include/dte/coll_plan.h:35-101 | within a phase a plan's sends go to ever higher ranks |
| Barrier.BarrierRuntime.WaitCollectiveBarrier | llm/src/dte/coll_runtime.cpp:58-79 | arrival up to the wait: the checks in order, a refused call changing nothing, the entry created or joined, the last arrival going straight on |
| Barrier.ArrivalIs | llm/src/dte/coll_runtime.cpp:58-76 | each answer to an arrival, by the group's size and tree, who has arrived and how many |
| Barrier.TablesAre | llm/src/dte/coll_runtime.cpp:63-82 | what an arrival and a departure leave in the map; no other barrier is touched |
| Barrier.BarrierRuntime.Resume | llm/src/dte/coll_runtime.cpp:79-82 | a released rank is counted out, the last one erasing the entry |
| Barrier.EnterOrderly | llm/src/dte/coll_runtime.cpp:66-79 | a rank entering in turn is never refused, and the map stays the record of who is inside which barrier |
| Barrier.LeaveOrderly | llm/src/dte/coll_runtime.cpp:80-82 | leaving an open barrier keeps it so |
| Barrier.EndEmpty | llm/src/dte/coll_runtime.cpp:80-96 | when all ranks have passed all barriers the map is empty |
| CollRun.StepSound | llm/src/dte/coll_runtime.cpp:58-82 | every step of the joint run succeeds and keeps each rank at a position of the one script, the barrier map matching |
| CollMain.DeadlockFree | llm/src/dte/coll_runtime.cpp:58-96 | in every reachable state of all plans run together no barrier call has failed, and unless all are done some step is possible |
| CollMain.RunsAreFinite | llm/include/dte/coll_plan.h:20-104 | every run has at most two steps for each planned action |
| CollMain.FinishesClean | llm/src/dte/coll_runtime.cpp:80-98 | a finished run leaves no barrier entry and no one blocked |
| CollMain.BarriersHold | llm/src/dte/coll_runtime.cpp:75-79 | no rank passes a barrier before every rank has arrived at it |
| CollMain.EndsAgree | llm/include/dte/coll_plan.h:29-33 | whenever a send meets a receive, both planned the same size and offset |
| CollMain.OneScript | llm/include/dte/coll_plan.h:20-24 | the script does not depend on whose copy of the descriptor it is made from |
| CollMain.NeverFailsIff | llm/src/dte/coll_runtime.cpp:58-62 | over all planned collectives: the barrier never refuses a rank if and only if the group has fewer than 65536 ranks or all the operation's barriers are inside its rank loop |
| CollMain.EveryCoreRefused | llm/src/dte/coll_runtime.cpp:58-62 | the instance: the broadcast over every core id is planned, and some run of it fails at a barrier |
| Reduction.LaneOfReduce | llm/include/dte/coll_innetwork_reduce.h:106-122 | each valid lane of a reduction is that lane folded over the operands: sums modulo the width, unsigned or signed maxima |
| Reduction.MaxIsMaximum | llm/include/dte/coll_innetwork_reduce.h:110-117 | MAX: each lane of the result is one of the operands' lanes and, unsigned or in two's complement, no less than any |
| Reduction.SumIsSum | llm/include/dte/coll_innetwork_reduce.h:108-120 | SUM: each lane of the result is the integer sum of the operands' lanes modulo two to the lane's width |
| Reduction.WordLaneIs | llm/include/dte/coll_innetwork_reduce.h:107 | a lane's bytes, least significant first |
| Reduction.RestIsZero | llm/include/dte/coll_innetwork_reduce.h:105-121 | past the lanes the result is zero |
| Reduction.FoldPermutes | llm/include/dte/coll_innetwork_reduce.h:108-118 | the order of the values does not matter |
| Reduction.TreeIsFlat | llm/include/dte/coll_innetwork_reduce.h:99-123 | a reduction tree of any shape computes, bit for bit, the flat reduction of its leaves |
| Reduction.ShapeAndOrderIrrelevant | llm/include/dte/coll_innetwork_reduce.h:99-123 | two trees over the same operands agree, whatever their shapes and arrival orders |
| MatchBuffer.ReduceIntegerOperands | llm/include/dte/coll_innetwork_reduce.h:99-123 | the 64-bit accumulator loop with its final mask computes the lane-wise fold, rest of the payload zero, and fails exactly on unsupported modes |
| MatchBuffer.CollOperandMatchBuffer.OpenMatch | llm/include/dte/coll_innetwork_reduce.h:134-143 | opening a match: its errors, its refusal at capacity, its new entry |
| MatchBuffer.OpenIs | llm/include/dte/coll_innetwork_reduce.h:134-143 | each answer to opening a match, and the entry it makes |
| MatchBuffer.CollOperandMatchBuffer.AcceptOperand | llm/include/dte/coll_innetwork_reduce.h:144-154 | accepting an operand: the status by the checks in order, and the operand count staying the sum over matches and within capacity |
| MatchBuffer.AnswerIs | llm/include/dte/coll_innetwork_reduce.h:144-154 | each answer to an operand, by who is expected, who was heard, mode and room, and what is recorded |
| MatchBuffer.CollOperandMatchBuffer.ConsumeMatch | llm/include/dte/coll_innetwork_reduce.h:155-164 | a completed match yields the reduction of its operands and frees its header and slots; an incomplete one nothing |
| MatchBuffer.ConsumeIs | llm/include/dte/coll_innetwork_reduce.h:155-164 | a consumed match is gone, its header and slots free, all others as they were |
| MatchBuffer.FeedHolds | llm/include/dte/coll_innetwork_reduce.h:144-154 | after any offers a match holds exactly those it has taken, one from each child heard |
| MatchBuffer.ResultIgnoresArrivals | llm/include/dte/coll_innetwork_reduce.h:144-164 | two completed matches that took the same operands give the same result, in whatever order they came |
| MatchBuffer.ResultIsReduction | llm/include/dte/coll_innetwork_reduce.h:144-164 | if each child only ever offers one operand, a completed match's result is the reduction of what the expected children sent: order, repeats, refusals and strays do not matter |
| MatchBuffer.NetworkIsFlat | llm/include/dte/coll_innetwork_reduce.h:99-164 | a network of match buffers of any shape, each fed in any order, puts out bit for bit the flat reduction of all its operands |
| ReorderBuffer.GatherReorderBuffer.Setup | llm/src/dte/coll_reorder.cpp:11-28 | construction fails exactly on no slots, zero depth, zero ports or a repeated packet, in that order |
| ReorderBuffer.GatherReorderBuffer.AcceptPacket | llm/src/dte/coll_reorder.cpp:36-57 | accepting a packet: status and new state; occupancy stays the number of received slots and at most the depth |
| ReorderBuffer.AnswerIs | llm/src/dte/coll_reorder.cpp:36-57 | each answer to an expected packet: duplicate, wrong offset, taken if two entries are free or one is and the head is in or is this packet, refused otherwise; and what is recorded |
| ReorderBuffer.UnknownIff | llm/src/dte/coll_reorder.cpp:30-40 | a packet is unknown exactly if no slot expects it |
| ReorderBuffer.GatherReorderBuffer.CommitCycle | llm/src/dte/coll_reorder.cpp:59-71 | the commit loop moves received heads in order, up to the port count; the committed slots stay a prefix |
| ReorderBuffer.CommitIs | llm/src/dte/coll_reorder.cpp:59-71 | a commit takes the received packets at the head, up to the port count, and stops at the first gap |
| ReorderBuffer.HeadNeverFull | llm/src/dte/coll_reorder.cpp:46-52 | a missing head is never refused for want of room |
| ReorderBuffer.RetriesComplete | llm/src/dte/coll_reorder.cpp:36-71 | for any arrival order with retries, at any depth, each round advances the stream, so as many rounds as packets complete it |
| ReorderBuffer.DrainsAtPortRate | llm/src/dte/coll_reorder.cpp:59-71 | once all packets are in, `k` further commits move the stream on by exactly `k` until it is complete |
| TreeValidator.CollectEdges | llm/src/dte/coll_multicast.cpp:72-89 | the entry loop collects exactly the tree's edges and deliveries, and fails exactly if an edge leaves the mesh |
| TreeValidator.Validator.Dfs | llm/src/dte/coll_multicast.cpp:90-97 | the recursive search fails only on a cycle reachable from the root; otherwise visited nodes grow and nodes in progress are restored; it terminates as unvisited nodes shrink |
| TreeValidator.ValidateCollectiveTree | llm/src/dte/coll_multicast.cpp:69-102 | accepts exactly the trees on the mesh with no cycle reachable from the root whose other targets are all reached and delivered to |
| Wire.UnpackPack | llm/include/dte/coll_multicast.h:40-53 | reading the consecutive bit fields of a written word gives every field back |
| Wire.PackUnpack | llm/include/dte/coll_multicast.h:57-79 | writing back the fields read gives the same bits: the layouts have no gaps |
| FabricWire.DataRoundTrip | llm/include/dte/coll_multicast.h:34-79 | every COLL_DATA header that encodes decodes to itself |
| FabricWire.DataCanonical | llm/include/dte/coll_multicast.h:34-79 | every accepted COLL_DATA wire is the encoding of its header |
| FabricWire.OperandRoundTrip | llm/include/dte/coll_innetwork_reduce.h:45-90 | every reduce operand that encodes decodes to itself |
| FabricWire.OperandCanonical | llm/include/dte/coll_innetwork_reduce.h:45-90 | every accepted pair of operand wires is the encoding of its operand |
| FabricWire.KindsDisjoint | llm/include/dte/coll_innetwork_reduce.h:18-30 | no 256 bits are recognised as two kinds of flit |
| FabricWire.DecodedIsRecognised | llm/include/dte/coll_multicast.h:18-24 | what the COLL_DATA decoder accepts the recogniser accepts; the converse holds for lengths up to 128 |
| FabricWire.OperandIsRecognised | llm/include/dte/coll_innetwork_reduce.h:18-30 | operand wires that decode are recognised as header and payload; recognised ones are never badly framed |
| WireLayout.DataRead | llm/include/dte/coll_multicast.h:57-79 | which bits each COLL_DATA field is read from, and the marks that make the decoder refuse |
| WireLayout.DataWritten | llm/include/dte/coll_multicast.h:34-55 | the encoder writes the same fields to the same bits |
| WireLayout.OperandRead | llm/include/dte/coll_innetwork_reduce.h:68-90 | which bits each operand field is read from, codes as numbers, and its framing |
| WireLayout.OperandWritten | llm/include/dte/coll_innetwork_reduce.h:45-66 | the encoder writes them there |
| DescriptorWire.SerializeCollDescriptor | llm/include/dte/coll_codec.h:15-50 | the encoder, its id loop writing sixteen bits at a time into blank segments, produces the layout of the fields |
| DescriptorWire.DeserializeCollDescriptor | llm/include/dte/coll_codec.h:52-99 | the decoder: its errors in order, or the descriptor of the fields read |
| DescriptorWire.DescriptorRoundTrip | llm/include/dte/coll_codec.h:15-99 | a descriptor that encodes, with a group of any length, decodes to itself |
| DescriptorWire.RoundTripsIff | llm/include/dte/coll_codec.h:16-18 | a valid descriptor survives the wire if and only if its group has fewer than 65536 cores |
| DescriptorWire.EveryCoreUnsendable | llm/include/dte/coll_codec.h:17-18 | the instance: a valid broadcast over every core id cannot be sent |
| DescriptorWire.CanonicalIffClean | llm/include/dte/coll_codec.h:52-99 | an accepted wire is the one the encoder writes if and only if all its unused bits are zero |
| DescriptorWire.UncleanAccepted | llm/include/dte/coll_codec.h:52-99 | every descriptor that can be sent is also decoded from a wire the encoder never writes |
| WireLayout.DescriptorRead | llm/include/dte/coll_codec.h:52-99 | which bits each descriptor field and each core id is read from, codes as numbers |
| WireLayout.DescriptorErrors | llm/include/dte/coll_codec.h:53-76 | which wires are refused before validation, by their bits |
| WireLayout.DescriptorWritten | llm/include/dte/coll_codec.h:15-50 | the encoder writes every field to those bits |

## Left out

* Statistics, log lines, stall and peak counters (except the refused packets whose count is proved to stay zero).
* The SystemC kernel: each signal is a register read one cycle after it is written; events, threads and delta
  cycles are not modelled.
* Exceptions are outcome values. Sums of `int` packet needs are unbounded here; the source's can overflow.
* The router and DTE implementations: exit selection (`CrossDieSelectExit`) is a parameter of the routes, with
  its documented contract, and dynamic pins taken while a path is computed are not undone by a refused reservation.
* V5LinkGroupGrant as called from `forward_bounded`: a parameter of the link's inputs; `SafGroup` joins it to
  the arbiter for the production link.
* `V5StableHash`, the sorting of candidate ports, and the selection policies other than the dynamic one.
* `EstimateD2DBehavioralStriped` beyond its hop counts, the behavioural event table, and the functional FIFO mode.
* Fairness of flows against memory flits, which the production link serves first.
* The tree release at a final barrier (`EraseCollectiveTree`): the joint run passes tree 0, and one collective
  runs at a time.
* ReduceRx and gather arrival processing, multicast fork scheduling and tree tables, service-cycle costs.
* Parsing and field-by-field rejection of configurations, host lanes, memory stacks, workloads.
- SafFleet.AskingLinkSends: gives each link its own view of the reservations, changed from outside at will, so its runs include those of one shared ledger without stating that the views are one.
- SafDrain.ReservedFlowDrains: supposes every request of the link granted, as an ungrouped link's are, because the grouped link is the subject of `SafFleetDrain.GroupedFlowDrains`.
- StripedReservation.ReserveStripedWholeFlowSafPaths: supposes that a chosen exit, where it has a link, leads along the first hop towards the destination, because the exit search itself is not part of this model.
- MatchBuffer.CollOperandMatchBuffer.AcceptOperand: keeps the expected and received bitmaps as sets of child numbers, so it does not model their 64-bit words.
- DynamicPorts.DynamicPortTable.SelectPort: keeps loads by die and port instead of one flat index, and its start position is a parameter.
- CollMain.DeadlockFree: is about groups of fewer than 65536 ranks, the others being the subject of `NeverFailsIff`.
