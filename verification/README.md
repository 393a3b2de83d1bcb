# PacketBalance, modelled and proved

PacketBalance is a layer 4 load balancer. A daemon (the control plane) edits a few kernel maps, one
write at a time; an XDP program (the data plane) reads them for every packet, encapsulates the packet
and sends it to a real server. This project models both planes, the ring construction between them and
the text forms of addresses, and proves what each keeps.

The model has three layers.

- **Functions on values** say what every operation does, map writes included: `Reals` (the real
  table), `Control` (VIPs, members, health, neighbours, reload, start), `DataPlane` (one packet is one
  step), `Ring` (the ring of a set of weighted addresses). A control-plane state carries the record of
  every map state it has passed through, so "between any two writes" is a statement about that record.
- **Classes and methods with loops** do the same in place, as the source does, and are proved equal to
  the functions: `RealTable.Table`, `LbState.Daemon`, `RingMap`, `BuildMaglev`, `BuildRing`,
  `Encap.Buffer`, `Xdp.Program`, `Text`, `VipText`, `ConfigCheck`.
- **Laws** about the functions: `Primes`, `Schedule`, `Maglev`, `RingLaws`, `SlotShares` (the ring);
  `ControlLaws`, `MemberLaws`, `ReleaseLaws`, `OpLaws`, `EventLaws`, `VipLaws`, `VipOps`, `ReloadLaws`,
  `ApplyLaws`, `Published`, `Capacity`, `Budget`, `Convergence`, `Completeness`, `OneTurn`, `Outcome`,
  `StartLaws`, `Restart`, `Hitless`, `Repair` (one operation of the control plane); `Calls`, `Evolution`,
  `Akin`, `Soundness`, `Standing`, `Missing`, `Exposure`, `Owners`, `Lifetimes`, `Aftermath` (its runs);
  `Unfinished`, `LeftBehind`, `MissedReal`, `StaleFlag` (runs that end badly); `Flows`, `Stickiness`,
  `Counters`, `Checksum` (the data plane); `Failover`, `Interleaving`, `Handover` (both planes).

Five predicates carry the control plane. `Maps.MapsSafe`: every VIP in the VIP map has a whole ring,
ids are distinct, and no slot names a real without an address and a MAC. `ControlLaws.Inv`: the table
and the maps mirror each other, every map state so far was safe, references are exact, generations
count installs, health is what the counted reports make of it. `OpLaws.Good`: `Inv`, and rings name only
referenced addresses. `OpLaws.Neat`: in addition every VIP is published with exactly the ring of its
members recorded in_ring, all of them eligible. `Soundness.Sound`: like some good state in everything but
flags, the VIP map and the record of map states. Every call keeps a daemon sound, without exception; it
stays good exactly as long as no reload publishes a VIP that never got its ring, and neat while reloads
complete.

The backend hashes and the flow hash are arbitrary functions. The byte order of the machine is a
parameter. Probe results, neighbour answers (never the zero MAC), the clock, evictions, failed
inserts and the headroom of a packet buffer are inputs. Map updates succeed.

What a reload does is computed from its `Outcome.Basis` alone: the members of the VIPs that stay, the
addresses an earlier failed reload left behind, the MACs known and whether the hash mode changes. VIPs take
their turns in the order of the configuration and addresses in ascending order, so the basis says which turn
finds the ids it needs (`Outcome.FitsAt`), where the reload stops, which members each VIP then has, which of
them are in its ring and which usable ones are not. `Soundness.ReloadOutcome` is that statement, for every
state a run can reach and for reloads that complete and that fail.

## Where the code differs from what it promises

- A reload that runs out of real ids while it creates a VIP leaves that VIP listed without a ring
  (`Unfinished.CreationStops`). A later reload that changes that VIP's no_conntrack flag writes its VIP
  map entry before any ring exists, so the comment that the data plane can never match a VIP without a
  ring does not hold. `Unfinished.UnsafeRun` is such a run: a start and two reloads, each with a valid
  configuration. `Exposure.ReloadSafeIff` and `Lifetimes.RunSafeIff` say exactly when it happens: when a
  reload gets to a VIP whose flags it changes and which never got a ring. Both take a daemon that does not
  hold, under the vip_id of such a VIP, a ring it did not install. `Owners.StartOwns` gives that after a
  start on maps whose every ring has a VIP map entry. A predecessor killed between the write of a ring and
  of its entry, or between their deletions, leaves a ring without one. For a VIP that then gets its id by
  chance one direction remains, `Lifetimes.RunIsGood`, and for its own turn the exact `Exposure.ReloadVipSafeIff`.
- `Aftermath.RunIsSafeButRings`: a ring that is not there is all that can be wrong with the maps after any
  call of any run. `Repair.StartRepairs` and `Aftermath.NextStartRepairs`: the next daemon's start, once
  complete, has put it right, and makes nothing worse on the way.
- After a reload that ran out of ids, a reload that completes does not put everything right. The VIP left
  unfinished gets its members and its ring but no VIP map entry (`Unfinished.UnsafeRun`, its last part). A
  VIP whose old ring was kept can go on sending to a real that is no longer configured
  (`LeftBehind.RemovedRealStays`), because the member was dropped from the VIP before the failure and
  nothing counts as changed afterwards. In the same way a real can stay out of the ring for good: the failed
  reload had set its weight, so the completed one sees nothing to rebuild (`StaleFlag.UsableRealUnseen`).
  `Soundness.ReloadConverges` says for every state what a completed reload leaves: which VIPs are in the VIP
  map (`Soundness.PublishedIff`), which addresses are live (`Soundness.LiveAddresses`), which rings are those
  of the configured mode and of the members recorded in_ring (`ReloadLaws.RingDone`, part of it), which
  members are recorded in_ring, and which usable ones are missing (`Soundness.RealsConverged`, part of it),
  each as an if and only if.
- The header of the ring builder promises shares within 1 % (Maglev) or one slot per backend (modulo).
  Neither is a bound of the code: weights 1 and 3 on two slots (`SlotShares.NotWithinPercent`), weights 3
  and 3 on three slots (`SlotShares.NotWithinOneSlot`). `SlotShares.SharesIff` gives the exact condition
  for each, in terms of the weights and the ring size; the first always holds when a ring has at least
  100 slots per unit of weight.
- A usable real, one with weight, up, not draining and its MAC known, can be missing from a ring. There are
  two causes. A MAC learnt while one VIP gains a member does not rebuild other VIPs that share the real
  (`MissedReal.MissedRun`); and a reload that fails has set weights without rebuilding
  (`StaleFlag.UsableRealUnseen`). `Missing.AddRealCompleteIff` says exactly when adding a real does it,
  `Missing.ApplyCompleteIff` when one turn of a reload does, completed or failed, for the VIP whose turn it
  is and for every other, and `Missing.ReloadCompleteIff` when a whole reload does, completed or failed; for
  a completed one `Outcome.MissedWhenDone` names the reals. `Missing.OtherCallsComplete`: no other call does
  it, and `Missing.NeighborCompletes`: a MAC learnt by the resolver reaches every ring. The other direction,
  in a ring implies eligible, is part of `Neat`.

## Model

| member | source | states |
|---|---|---|
| Primes.NoZeroDivisors | src/core/maglev.cpp:48-50 | Euclid's lemma: modulo a prime, two non-zero factors never multiply to zero, so no two steps of a walk meet |
| Primes.WalkCoversIffPrime | src/core/maglev.cpp:48-50 | every (offset, skip) walk visits all M slots once if M is prime, and only then for all skips |
| Primes.RingSizeIsPrime | include/packetbalance/abi.h:35-36 | 65537 is prime |
| Schedule.Shares | src/core/maglev.cpp:56-61 | among the first t interleaved turns backend i has between floor(t/W)*w_i and (floor(t/W)+1)*w_i |
| Schedule.TurnsAddUp | src/core/maglev.cpp:81-93 | the turns of all backends among the first t add up to t |
| Schedule.EqualShares | src/core/maglev.cpp:51-54 | backends of equal weight never differ by more than one turn |
| Maglev.FindsRoom | src/core/maglev.cpp:86-91 | while a slot is free, the backend whose turn it is finds one on its permutation |
| Maglev.TurnClaims | src/core/maglev.cpp:86-91 | a turn claims the first free slot of the backend's permutation, scanned from index 0 |
| Maglev.ScanFrom | src/core/maglev.cpp:63-66 | a scan from a cursor past taken slots only ends where the scan from 0 ends |
| Maglev.RingIsFull | src/core/maglev.cpp:79-94 | after M turns every slot has an owner |
| Maglev.NothingBetterWasFree | src/core/maglev.cpp:49-54 | every slot a backend prefers to one it got was claimed on an earlier turn |
| Maglev.SlotCounts | src/core/maglev.cpp:56-61 | slot counts are the turn counts, whatever the hashes: floor(M/W)*w_i <= count_i <= (floor(M/W)+1)*w_i, adding up to M |
| Maglev.EqualWeightsEqualSlots | src/core/maglev.cpp:51-53 | equal weights differ by at most one slot |
| BuildMaglev.Probe | src/core/maglev.cpp:86-88 | the probe loop ends, at the first free place of the permutation from the cursor on |
| BuildMaglev.OnePass | src/core/maglev.cpp:82-93 | one pass is the next turns of the schedule, and stops when the ring is full |
| BuildMaglev.Build | src/core/maglev.cpp:67-95 | the moving-cursor fill ends and returns the ring of the paper's simple form; a backend looks at exactly the places its cursor passes, at most M, and all of them together at most N*M |
| SlotShares.BackendSlots | src/core/maglev.cpp:56-61 | in the ring that build_ring returns, in either mode, a backend's real_id stands in (M/W)*w slots and as many more as the schedule or the list gives it in the first M mod W turns |
| SlotShares.SharesIff | include/packetbalance/maglev.h:40-41 | for every backend list and size: within 1 % (Maglev) and within one slot (modulo) hold exactly under a condition on weights and M; the first whenever 100*W <= M |
| SlotShares.NotWithinPercent | include/packetbalance/maglev.h:40-41 | weights 1 and 3 on two slots: the share is not within 1 % |
| SlotShares.NotWithinOneSlot | include/packetbalance/maglev.h:40-41 | weights 3 and 3 on three slots: the share is not within one slot |
| Ring.AddrRingIsWhole | src/core/maglev.cpp:126-131 | a ring is empty when no backend has weight and otherwise every slot has a listed address, in both modes |
| Ring.ListUnique | src/core/maglev.cpp:21-26 | there is one ascending listing of a set of addresses |
| BuildRing.SortByAddr | src/core/maglev.cpp:24-26 | the result is sorted and holds the same weighted backends, each as often |
| BuildRing.ActiveSorted | src/core/maglev.cpp:21-38 | fails exactly when two weighted backends share an address; otherwise the weighted backends, strictly ascending |
| BuildRing.BuildModulo | src/core/maglev.cpp:101-108 | slot s holds entry s mod L of the list of backends repeated by weight |
| BuildRing.Build | src/core/maglev.cpp:126-131 | returns the ring of the set of (address, weight) pairs under the caller's numbering, or the duplicate error; the size is any in modulo mode, a prime in Maglev mode |
| RingLaws.OrderDoesNotMatter | src/core/maglev.cpp:18-26 | reordering the input changes nothing, error case included |
| RingLaws.DrainingIsRemoval | src/core/maglev.cpp:22-24 | zero-weight backends may as well be left out |
| RingLaws.RenumberingMovesNothing | src/core/maglev.cpp:18-26 | the ring of renumbered backends is the renumbered ring |
| RingLaws.SamePairsSameAddresses | src/core/maglev.cpp:18-26 | under any two numberings a slot names the same address |
| Maps.GuardedWriteIsSafe | src/daemon/lb_state.cpp:160-205 | a write that meets its guard keeps the maps safe, for each of the nine kinds of write |
| Reals.ReuseTakesALap | src/daemon/real_table.cpp:83-94 | between two allocations of one id the cursor passes every other id, within a lap exactly once |
| Reals.FullIffTaken | src/daemon/real_table.cpp:83-94 | the search around the cursor fails exactly when all of 1..511 are in use |
| Reals.CreateRoundRobin | src/daemon/real_table.cpp:83-94 | the id handed out is free, never 0, and a reused id waited a full lap |
| Reals.AcquireOk | src/daemon/real_table.cpp:78-95 | fails exactly for 0.0.0.0 or a new address on a full table; otherwise one more reference, table and maps consistent, nothing live changes at any write |
| Reals.ReleaseOk | src/daemon/real_table.cpp:97-106 | releasing keeps table and maps consistent and safe once the id is off every reachable ring |
| Reals.SetMacOk | src/daemon/real_table.cpp:129-135 | a new MAC keeps ids, references and known MACs, and a first MAC changes nothing live |
| Reals.PutSlotSafe | src/daemon/real_table.cpp:137-163 | the write order keeps the maps safe between the two writes, for filling, updating and freeing |
| Reals.AdoptOk | src/daemon/real_table.cpp:46-65 | everything live in safe maps is known again under its old id, with no references |
| Reals.DropOk | src/daemon/real_table.cpp:67-76 | frees exactly the slots without references; the others keep address and MAC at every write |
| RealTable.Table.NextFree | src/daemon/real_table.cpp:83-86 | the loop finds the first free id from the cursor on within one lap, and restores the cursor if there is none |
| RealTable.Table.Acquire | src/daemon/real_table.cpp:78-95 | does in place what `Reals.Acquire` says |
| RealTable.Table.Release | src/daemon/real_table.cpp:97-106 | does in place what `Reals.Release` says |
| RealTable.Table.SetMac | src/daemon/real_table.cpp:129-135 | does in place what `Reals.SetMac` says, and tells whether anything changed |
| RealTable.Table.WriteSlot | src/daemon/real_table.cpp:143-163 | two ordered map writes |
| RealTable.Table.Adopt | src/daemon/real_table.cpp:46-65 | does in place what `Reals.Adopt` says |
| RealTable.Table.DropUnreferenced | src/daemon/real_table.cpp:67-76 | does in place what `Reals.Drop` says |
| RingMap.InstallRing | src/daemon/ring_map.cpp:33-55 | a ring of the wrong size is refused; otherwise one store of the whole ring |
| RingMap.RemoveRing | src/daemon/ring_map.cpp:57-61 | the ring is gone, whether it was there or not |
| Members.EnumeratedRing | src/daemon/lb_state.cpp:298-309 | build_ring of the gathered members never fails and is the ring of those in_ring |
| Members.Gather | src/daemon/lb_state.cpp:298-306 | every member once, with in_ring decided anew and weight 0 if not in the ring |
| ControlLaws.RebuildOk | src/daemon/lb_state.cpp:298-315 | a rebuild keeps the invariant and leaves the VIP's ring equal to the ring of its members in_ring, all eligible |
| ControlLaws.RebuildLeaves | src/daemon/lb_state.cpp:298-315 | a rebuild touches no other VIP, ring, id or MAC |
| MemberLaws.AddMemberOk | src/daemon/lb_state.cpp:222-237 | a member joins with one more reference and no live entry changes; without an id nothing happens |
| MemberLaws.MergeOk | src/daemon/lb_state.cpp:115-128 | new members join and weights are set, for the wanted addresses only; members that were there keep health, drain state and identity |
| ReleaseLaws.UnheldIsUnused | src/daemon/lb_state.cpp:239-241 | an address nobody holds is on no ring a packet can reach |
| ReleaseLaws.ReleaseAllOk | src/daemon/lb_state.cpp:129-130 | giving back pending references keeps every map state safe and every other VIP as it is |
| OpLaws.ChangeOk | src/daemon/lb_state.cpp:260-267 | edit, rebuild, release: safe at every write, VIP settled, nobody else touched |
| OpLaws.AddRealOk | src/daemon/lb_state.cpp:247-258 | refused exactly for the API's reasons, and then nothing changes; otherwise the run invariants hold again |
| OpLaws.DelRealOk | src/daemon/lb_state.cpp:260-267 | succeeds exactly for a member of a known VIP; the id is released only after the ring is replaced |
| OpLaws.SetWeightOk | src/daemon/lb_state.cpp:269-278 | refused exactly for a weight above the limit or a member that is not there, and then nothing changes; otherwise the member has the new weight, no other record changes but in_ring, and the ring is the one of the new weights |
| OpLaws.SetDrainingOk | src/daemon/lb_state.cpp:280-289 | refused exactly for a member that is not there; otherwise the member has the new drain state, no other record changes but in_ring, and the ring has it or not accordingly |
| EventLaws.ReportHealthOk | src/daemon/lb_state.cpp:331-371 | a result that does not count changes nothing; one that does moves its own member's counters and no other record but, on a flip, in_ring, and a ring is installed exactly on a flip |
| Evolution.GoneIsRetired | src/daemon/lb_state.cpp:222-245 | once a member is gone, or back as another incarnation, no member has its old incarnation |
| Evolution.RemovedNeverCounts | src/daemon/lb_state.cpp:331-342 | a probe of a member that is gone never counts again, whatever calls follow, re-adding the same address included |
| EventLaws.CountersOverRuns | src/daemon/lb_state.cpp:347-363 | in every reachable state the counters are the lengths, modulo 2^32, of the runs at the end of the member's own counted reports |
| EventLaws.FlipNeedsReports | src/daemon/lb_state.cpp:351-369 | whatever happened in between, a flip is the last of `fall` failures or `rise` successes in a row |
| EventLaws.NeighborResolvedOk | src/daemon/lb_state.cpp:393-417 | resolving a neighbour keeps every ring right, also those it does not rebuild; that newly usable reals enter the rings is `Missing.NeighborCompletes` |
| Health.CountersAreRuns | src/daemon/lb_state.cpp:347-363 | the 32-bit counters are the lengths of the current run of equal outcomes |
| Health.UpIsHysteresis | src/daemon/lb_state.cpp:351-369 | with fixed thresholds, up and down are hysteresis over the outcomes, said without counters |
| Health.FlipNeedsARun | src/daemon/lb_state.cpp:351-369 | a flip needs a full run of the threshold's length |
| Health.FlipsAreBounded | src/daemon/lb_state.cpp:351-369 | no report pays for two flips, so rebuilds are bounded by reports |
| VipLaws.PublishSafeIff | src/daemon/lb_state.cpp:188-193 | writing a VIP map entry keeps the maps safe exactly when the VIP's ring is there and whole |
| VipLaws.EnterOk | src/daemon/lb_state.cpp:165-180 | an adopted VIP keeps its vip_id; a new one gets the least id that no known or adopted VIP has; refused is only a new one, exactly when all 64 are taken |
| VipLaws.CreateVipOk | src/daemon/lb_state.cpp:160-186 | no live entry changes at any write; a completed creation is published with the ring of exactly the wanted members, under its old id if adopted |
| VipOps.AddVipOk | src/daemon/lb_state.cpp:207-211 | refused exactly when the VIP exists or all 64 ids are taken, and then nothing changes |
| VipOps.DeleteVipOk | src/daemon/lb_state.cpp:195-205 | entry, ring, references: safe at every write, no other VIP touched |
| VipOps.DelVipOk | src/daemon/lb_state.cpp:213-217 | succeeds exactly for a known VIP, which then is neither in the model nor in the VIP map |
| Capacity.FullMeans511 | src/daemon/real_table.cpp:83-95 | a full table holds 511 different addresses |
| Budget.MergeExact | src/daemon/lb_state.cpp:116-128 | the loop over the wanted members gets, in ascending order, exactly as far as live and wanted addresses fit 511 ids; it succeeds exactly if it gets to the end, and those it got to have the wanted weight |
| Budget.EntersIff | src/daemon/lb_state.cpp:151-180 | a VIP new to the daemon gets a vip_id exactly if it and those known and adopted are at most 64 |
| OneTurn.TurnExact | src/daemon/lb_state.cpp:97-131 | one VIP of a reload or start, complete or not: it completes exactly if there are a vip_id and real ids for all its addresses; which members it then has, at which weight, which in_ring, which MACs are known and which addresses live |
| Capacity.VipIdLeft | src/daemon/lb_state.cpp:151-158 | a vip_id is left while those in use, adopted and wanted are at most 64 |
| Soundness.ReloadOutcome | src/daemon/lb_state.cpp:97-131 | a reload from any state a run can reach stops at the first VIP the basis has not ids enough for, completes if there is none, and leaves exactly the members, weights, in_ring flags and known MACs the basis says |
| Soundness.ReloadConverges | src/daemon/lb_state.cpp:77-131 | a reload from any state a run can reach keeps the daemon sound; a completed one leaves exactly the configured VIPs, flags, members and weights, members that stay keep health and drain state, and VIP map, rings, in_ring flags, missing reals and live addresses are described exactly, also where they are not what was configured |
| Soundness.ReloadEndsIff | src/daemon/lb_state.cpp:101-131 | a reload completes exactly if, counting in turn, each VIP finds a vip_id and real ids |
| Soundness.PublishedIff | src/daemon/lb_state.cpp:101-111 | from any state a run can reach, after a completed reload a configured VIP is in the VIP map exactly if new to the daemon, in it before, or given other flags, and its entry is the new or the old one accordingly; an unconfigured one exactly if it was there without the daemon knowing it |
| Soundness.LiveAddresses | src/daemon/lb_state.cpp:101-131 | after a completed reload the live addresses, in the table and in `reals`, are exactly the configured ones and those whose reference a failed reload left behind |
| Soundness.ReloadEndsIfRoom | src/daemon/lb_state.cpp:101-131 | so it does, in whatever order the VIPs stand, if the addresses in use and the configured ones together fit 511 ids |
| Exposure.ReloadVipSafeIff | src/daemon/lb_state.cpp:106-111 | one VIP of a reload passes through an unsafe map state exactly when its flags change and it has no whole ring |
| Exposure.GetsToIff | src/daemon/lb_state.cpp:97-131 | a reload from any state a run can reach gets to VIP i exactly if, by the basis, all before it find their ids |
| Exposure.ReloadSafeIff | src/daemon/lb_state.cpp:97-131 | a whole reload passes through an unsafe map state exactly when it gets to a VIP that never got a ring and changes its flags, provided no VIP that never got a ring finds one under its vip_id (a killed predecessor can leave one) |
| Convergence.ReloadAgain | src/daemon/lb_state.cpp:77-131 | a second reload of the same configuration makes one write, the config record, and changes nothing else |
| StartLaws.AdoptInv | src/daemon/lb_state.cpp:47-60 | on any safe maps a new daemon starts with the invariant holding |
| StartLaws.StartVips | src/daemon/lb_state.cpp:97-131 | until the clean-up of a start the maps only grow, whether or not there are ids for everything |
| Restart.PurgeOk | src/daemon/lb_state.cpp:133-142 | pinned VIPs not in the configuration go, safely, and nothing configured is touched |
| Restart.UnreferencedIsUnused | src/daemon/lb_state.cpp:143 | an id without references is on no reachable ring |
| Hitless.HitlessRestart | src/daemon/lb_state.cpp:77-146 | from any safe maps and any configuration: no write of the first apply is unsafe or changes the vip_id of a configured VIP or the address or MAC of a configured real; once complete the ids are the same and the daemon conforms |
| Hitless.StartEndsIff | src/daemon/lb_state.cpp:77-146 | a start on safe maps completes exactly if pinned and configured reals fit 511 ids and pinned and configured VIPs 64 |
| Repair.StartRepairs | src/daemon/lb_state.cpp:77-146 | from maps that are safe but for VIPs without a ring: a start completes under the same condition, no write makes anything unsafe that was safe or changes the vip_id of a configured VIP or the address or MAC of a configured real, and once complete the maps are safe, every VIP has its ring and the daemon conforms |
| Owners.StartOwns | src/daemon/lb_state.cpp:133-146 | after a completed start on safe maps whose every ring has a VIP map entry, every ring in the maps belongs to a VIP that was given one |
| Lifetimes.RunIsGood | src/daemon/lb_state.cpp:77-417 | a run passes through no unsafe map state as long as no reload publishes a VIP without a ring |
| Lifetimes.StepSound | src/daemon/lb_state.cpp:77-417 | every call keeps a daemon sound, without exception |
| Lifetimes.RunIsSound | src/daemon/lb_state.cpp:77-417 | so does every run, whatever fails on the way |
| Lifetimes.RunSafeIff | src/daemon/lb_state.cpp:77-417 | a run that starts with every ring owned, as `Owners.StartOwns` gives it, passes through an unsafe map state exactly when one of its reloads gets to change the flags of a VIP that never got its ring |
| Lifetimes.RunIsNeat | src/daemon/lb_state.cpp:269-315 | while reloads complete, after every call each VIP's ring is the ring of its members in_ring, all eligible |
| Lifetimes.EveryLifeIsSafe | src/daemon/lb_state.cpp:77-146 | any number of daemons, each killed after any of its writes and followed by the next, from one safe plane: the maps are safe at every write, if no reload publishes a VIP without a ring; nothing is asked of the maps the later ones find |
| Aftermath.RunIsSafeButRings | src/daemon/lb_state.cpp:77-417 | a run that starts with every ring owned: after every call, unsafe and failed reloads included, the maps are safe but for VIPs without a ring |
| Aftermath.NextStartRepairs | src/daemon/lb_state.cpp:77-146 | so the start of a daemon that follows between any two calls completes exactly if the ids suffice, and then the maps are safe and as configured |
| Unfinished.CreationStops | src/daemon/lb_state.cpp:181-184 | on a full table, every ring owned, a new VIP that needs one more real stays listed, and no ring has its id |
| Unfinished.UnsafeRun | src/daemon/lb_state.cpp:101-131 | a start with 511 reals, a reload that lists a new VIP with a new real first, and a third valid configuration: with the new VIP's flag changed the maps become unsafe; with it unchanged the reload completes and the VIP is in no VIP map |
| LeftBehind.RemovedRealStays | src/daemon/lb_state.cpp:112-131 | a start, a reload that trades a real for one too many and fails, and a completed reload: every ring slot of the VIP still names a real that is configured nowhere |
| StaleFlag.UsableRealUnseen | src/daemon/lb_state.cpp:112-131 | a start and three reloads, each with a valid configuration, of which the second fails and the last completes: a real configured with weight, up, not draining and its MAC known is in no slot of its VIP's ring |
| Missing.AddRealCompleteIff | src/daemon/lb_state.cpp:222-258 | adding a real to one VIP leaves its own ring with every usable member, and that of another exactly as before unless the other shares the real and was waiting for just its MAC |
| Missing.MergeCompleteIff | src/daemon/lb_state.cpp:115-128 | the same for the loop that merges the wanted members of a VIP, in terms of the wanted addresses the ids reach and those already members |
| Missing.ApplyEndsIff | src/daemon/lb_state.cpp:101-131 | one turn of a reload from any state a run can reach completes exactly if there are a vip_id and real ids for all its addresses |
| Missing.ApplyCompleteIff | src/daemon/lb_state.cpp:101-131 | one turn, completed or failed: completed, its VIP misses no usable real exactly if it is new, rebuilt or missed none before; failed, exactly if no member is usable at its new weight and not in_ring; any other VIP exactly if it missed none and none that joined wakes one of its members |
| Missing.ReloadCompleteIff | src/daemon/lb_state.cpp:97-131 | a whole reload, completed or failed, leaves a configured VIP missing no usable real exactly if the basis says none is missed |
| Outcome.MissedWhenDone | src/daemon/lb_state.cpp:97-131 | missed by a completed reload are exactly the reals with weight, up, not draining and a known MAC whose VIP was rebuilt before the MAC was learnt, or was not rebuilt and did not have them in_ring |
| Missing.NeighborCompletes | src/daemon/lb_state.cpp:393-417 | a neighbour that resolves puts every real it makes usable into the rings of all VIPs that hold it, and no VIP loses one |
| Missing.OtherCallsComplete | src/daemon/lb_state.cpp:207-417 | no other call takes or leaves an eligible real out of a ring |
| MissedReal.MissedRun | src/daemon/lb_state.cpp:222-258 | two VIPs, one real, the MAC known only when the second adds it: the first VIP's ring misses an eligible real |
| LbState.Daemon.Rebuild | src/daemon/lb_state.cpp:298-315 | does in place what `Control.Rebuild` says |
| LbState.Daemon.Merge | src/daemon/lb_state.cpp:116-128 | the loop over the wanted members does what `Control.Merge` says |
| LbState.Daemon.AllocateId | src/daemon/lb_state.cpp:151-158 | the least id neither in use nor adopted |
| LbState.Daemon.CreateVip | src/daemon/lb_state.cpp:165-186 | does in place what `Control.CreateVip` says |
| LbState.Daemon.DeleteVip | src/daemon/lb_state.cpp:195-205 | does in place what `Control.DeleteVip` says |
| LbState.Daemon.AddVip | src/daemon/lb_state.cpp:207-211 | does in place what `Control.AddVip` says, keeps the daemon sound, and good if it was, returns the vip_id |
| LbState.Daemon.DelVip | src/daemon/lb_state.cpp:213-217 | does in place what `Control.DelVip` says and keeps the daemon sound, and good if it was |
| LbState.Daemon.AddReal | src/daemon/lb_state.cpp:247-258 | does in place what `Control.AddReal` says, keeps the daemon sound, and good if it was, returns the real_id |
| LbState.Daemon.DelReal | src/daemon/lb_state.cpp:260-267 | does in place what `Control.DelReal` says and keeps the daemon sound, and good if it was |
| LbState.Daemon.SetWeight | src/daemon/lb_state.cpp:269-278 | does in place what `Control.SetWeight` says and keeps the daemon sound, and good if it was |
| LbState.Daemon.SetDraining | src/daemon/lb_state.cpp:280-289 | does in place what `Control.SetDraining` says and keeps the daemon sound, and good if it was |
| LbState.Daemon.ReportHealth | src/daemon/lb_state.cpp:331-371 | does in place what `Control.ReportHealth` says and keeps the daemon sound, and good if it was |
| LbState.Daemon.NeighborResolved | src/daemon/lb_state.cpp:393-417 | does in place what `Control.NeighborResolved` says and keeps the daemon sound, and good if it was |
| LbState.Daemon.ReloadVip | src/daemon/lb_state.cpp:97-130 | does in place what `Control.ReloadVip` says, on any sound daemon |
| LbState.Daemon.AdoptAll | src/daemon/lb_state.cpp:47-60 | the loop over the pinned VIP map adopts every vip_id |
| LbState.Daemon.Apply | src/daemon/lb_state.cpp:77-146 | does in place what `Control.Start` or `Control.Reload` says; a reload keeps the daemon sound, and good if it was and no VIP without a ring is published; a completed first apply leaves everything in order |
| ConfigCheck.Validate | src/core/config.cpp:62-98 | accepts exactly the valid documents |
| ConfigCheck.ValidFits | src/core/config.cpp:62-98 | a valid configuration lists no VIP twice and has room for its reals |
| Packet.QuotedReplyIsTheFlow | bpf/packetbalance.bpf.c:440-483 | a frag-needed message that quotes a VIP's reply is about the flow of the client's own packets |
| Packet.ParsedFacts | bpf/packetbalance.bpf.c:486-572 | a parsed packet has a full IPv4 header, a total length within the frame, and is TCP or UDP at heart |
| Checksum.TwoFoldsSuffice | bpf/packetbalance.bpf.c:289-291 | for ten words two folds lose no carry and a third would change nothing |
| Checksum.OrderIndependent | bpf/packetbalance.bpf.c:276-279 | a header that verifies in one byte order verifies in the other |
| Checksum.ChecksumVerifies | bpf/packetbalance.bpf.c:280-293 | the header with its checksum filled in verifies in either byte order |
| Checksum.Ipv4Csum | bpf/packetbalance.bpf.c:280-293 | the summing loop returns the complement of the folded sum |
| Encap.MixBits | bpf/packetbalance.bpf.c:321-330 | under the mask the outer source has the prefix's bits, elsewhere the hash's |
| Encap.EncapsulatedFacts | bpf/packetbalance.bpf.c:298-351 | bytes from 34 on are the input's from 14 on, the outer length is inner + 20 untruncated, the header verifies, the destination is the real and the source lies in the prefix |
| Encap.Buffer.EncapIpip | bpf/packetbalance.bpf.c:298-351 | rewrites the buffer to that frame, or fails with it untouched when there is no headroom |
| DataPlane.StepTable | bpf/packetbalance.bpf.c:207-270 | a frame changes the connection table exactly as its real selection does |
| DataPlane.StepVerdict | bpf/packetbalance.bpf.c:355-423 | a packet is sent, encapsulated, to the picked real if that has an address and a MAC and there is headroom, and dropped otherwise |
| Flows.StepIsPlain | bpf/packetbalance.bpf.c:191-270 | with a table filled under the ring in force, a packet's fate is that of the program without a table |
| Flows.TransparentCache | bpf/packetbalance.bpf.c:191-270 | the same for whole runs from an empty table: any interleaving of CPUs, evictions, SYNs, RSTs, ICMP and conntrack flags |
| Stickiness.Provenance | bpf/packetbalance.bpf.c:227-269 | in any run an entry that can hit names a real this same CPU read off that VIP's ring for that flow earlier in the run |
| Stickiness.NeverIdZero | bpf/packetbalance.bpf.c:229-253 | over safe maps no such entry names id 0 |
| Stickiness.EntryLasts | bpf/packetbalance.bpf.c:202-269 | an entry keeps its real until eviction, a bare SYN or an emptied slot, whatever the rings do |
| Stickiness.FlowSticks | bpf/packetbalance.bpf.c:227-269 | meanwhile the flow's packets, and ICMP quoting its replies, go to that real |
| Stickiness.NeverInserts | bpf/packetbalance.bpf.c:191-201 | what may not insert adds no key and changes no entry's real |
| Stickiness.IcmpAndRstMayNot | bpf/packetbalance.bpf.c:542-549 | ICMP and RST segments may not insert |
| Counters.ForwardBalances | bpf/packetbalance.bpf.c:355-423 | per VIP: packets = tx + drop_mtu + drop_no_real + drop_adj_head and packets - drop_mtu = ct_hit + hash |
| Counters.Conservation | bpf/packetbalance.bpf.c:137-161 | on every CPU after every run: frames = passes + global drops + VIP packets, and per-real packets add up to tx |
| Counters.TotalsBalance | src/daemon/map_reader.cpp:42-56 | the sums over the CPUs are balanced too |
| Counters.FramesAdd | src/daemon/map_reader.cpp:42-56 | for the frames of all CPUs together |
| Counters.ReadCounters | src/daemon/map_reader.cpp:42-47 | the loop adds one row up over the CPUs, a VIP's or the global one |
| Xdp.Program.PickReal | bpf/packetbalance.bpf.c:207-270 | updates the table in place as `DataPlane.PickReal` says |
| Xdp.Program.Forward | bpf/packetbalance.bpf.c:355-423 | updates table, counters and buffer as `DataPlane.Forward` says |
| Xdp.Program.Run | bpf/packetbalance.bpf.c:486-572 | handles a frame in its buffer as `DataPlane.Step` says |
| Failover.SlotMeansAddress | bpf/packetbalance.bpf.c:171-181 | the slot of a hash holds the id of the address the set of pairs gives it, live under that id |
| Failover.FailoverAgrees | bpf/packetbalance.bpf.c:207-270 | two load balancers with the same pairs in the ring, mode and prefix (and, for an ICMP frame, the same icmp_pmtu) send a frame to the same outer destination from the same outer source, or both drop it, whatever their ids, history and tables |
| Failover.RingPlacedIsSendable | bpf/packetbalance.bpf.c:389-407 | at every safe map state a packet placed by the ring can be sent unless the VIP's ring is empty |
| Failover.EmptyRingIff | src/daemon/lb_state.cpp:298-309 | a settled VIP's ring is empty exactly when no member is in it |
| Interleaving.LifeNeverIdZero | bpf/packetbalance.bpf.c:229-253 | a whole life of a daemon that publishes no VIP without a ring, with packets on any CPU between any two of its writes: every packet finds safe maps, and no entry ever names id 0 or an id outside the table |
| Handover.TrackedAcrossRestart | src/daemon/real_table.cpp:46-76 | with packets on any CPU between any two writes of a restart, every packet of a tracked flow on a configured real goes to the address it went to before, until its entry is evicted or the flow starts anew |
| Text.ParseIpv4 | include/packetbalance/vipspec.h:18-42 | the loop returns what the reading of four octets gives |
| Text.Ipv4Accepts | include/packetbalance/vipspec.h:18-42 | accepted are exactly four dot-separated groups of one to three digits, each at most 255 |
| Text.Ipv4RoundTrip | include/packetbalance/vipspec.h:56-61 | parsing a printed address gives it back |
| Text.Ipv4NormalForm | include/packetbalance/vipspec.h:18-61 | printing a parsed address is a normal form: it parses to the same address, and only equal addresses share it |
| VipText.ParsePort | include/packetbalance/vipspec.h:45-54 | accepted are exactly one to five digits with a value in 1..65535, and the result is that value |
| VipText.PortRoundTrip | include/packetbalance/vipspec.h:63-73 | the two byte-order conversions undo each other, in both orders |
| VipText.ParseVip | include/packetbalance/vipspec.h:81-94 | splits at the last colon and the last slash, with the errors in the source's order |
| VipText.VipRoundTrip | include/packetbalance/vipspec.h:81-99 | parsing a printed VIP gives it back, for ports 1..65535 and both protocols |
| VipText.ParseCidr | src/core/config.cpp:36-60 | does what `VipText.CidrOf` says |
| VipText.ParsedIsCidr | src/core/config.cpp:36-60 | a parsed prefix has the mask of its length and no bits outside it |
| VipText.CidrRoundTrip | src/core/config.cpp:34-60 | parsing a printed prefix gives it back, for lengths 0..32 |

## Left out

- Loader, attach modes, pinning and file descriptors; of these only "maps survive the process" is modelled.
- API and metrics servers, the command line tool, JSON, YAML, logging and options.
- Sockets, ARP reads and timers; which members are probed at all (`health_targets`) and which neighbours are asked for.
- Failed map updates, except a failed insert into the connection table.
- Wall-clock fields, build timing and the read-only views of the daemon's state.
- Hash quality, `ring_disruption` and Maglev's 1/N disruption: facts about particular hashes with no worst-case bound.
- Interleaving finer than one packet, and the branch of the XDP program that exists for the BPF verifier only.
- 64-bit wrap-around of the data plane's counters and of incarnations and generations.
- Counter resets: their writes are in the record of map states, the counters of a run are followed without them.
- A first apply that fails: the daemon exits, so it is followed to the failure and then by the next daemon.
- Measurement tools, lab scripts and result rendering.
- Exposure.ReloadSafeIff: not stated where a VIP that never got a ring finds one a killed daemon left under its vip_id; whether that ring is safe depends on which of its reals later calls release, and `Exposure.ReloadVipSafeIff` covers the turn itself.
- Lifetimes.RunSafeIff: the same, for runs; nothing in them creates such a ring.
- Owners.StartOwns: the same, for maps with a ring but no VIP map entry for it; a start replaces such a ring only if a VIP gets its id.
- Aftermath.RunIsSafeButRings: after calls, not between two writes of one call.
- LbState.Daemon.DeleteVip: erases the daemon's own record of the VIP before the releases instead of after them; all of it happens under the daemon's lock.
- LbState.Daemon.ReloadVip: decides whether the ring changes by comparing before the loop instead of collecting a flag in it.
- Members.Gather: takes the members in any order, which the ring does not depend on.
- DataPlane.StepTable: vip_ids are taken to be below 64, as in every safe state of the maps.
