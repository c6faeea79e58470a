# Verification of the relay panel

The panel keeps three copies of its configuration in step: the database
tables, the running sing-box core and the kernel's list of IPv6 addresses. It
also hands out ports, tags and addresses, meters traffic, and sends commands to
remote agents. This project models the code that does so and proves what it
keeps, with a failure possible at every step.

`dafny verify dfyconfig.toml` checks everything. The modules, by subject:

| subject | modules |
|---|---|
| shared values | `RelayItems`, `Collections` |
| rotation and creation of relay pools | `RelayPanel`, `RelayRotation`, `RelayCreation`, `RelayRepair`, `PortRange`, `Ipv6Allocation`, `EgressCheck` |
| route rules and what they mean | `RouteRules`, `RouteMeaning` |
| saves and the running inbounds | `InboundUsers`, `ClientSaves`, `InboundSaves`, `HotUpdate`, `ConfigSaves`, `Revision` |
| client accounts and traffic | `ClientAccounts`, `TrafficCounters`, `TrafficStats`, `TrafficSaving`, `Downsampling` |
| agents | `CommandHub`, `LatencyProbe` |
| bulk additions and upstream lists | `QuickAdd`, `SocksText`, `Text`, `Decimal` |

How things are modelled:

- The database is a value of maps; a transaction works on a copy and commits it
  or drops it. Whether a statement, a commit, a core operation, a probe or an
  address command works is a parameter of the operation (`Faults` and the
  like), so every theorem holds for every combination of failures.
- The core is an optional running configuration. A ghost trace records core
  and kernel after every step of a rotation or creation, and "at every moment"
  speaks about that trace.
- What an operation commits is computed by functions that mirror the code; each
  main operation is also told by its outcome, in the columns of the tables, the
  entries of the kernel and the fields of the request alone
  (`RotationOutcome`, `CreationOutcome`, `ConfigUpdated`, `SavedAs`,
  `ServesExactly`, `RowsDepletedAt`, `PoolRepaired` and the like).
- Random bytes, random tags and probe results are parameters. Where a loop in
  the source draws until something fits, the model is given the draws.
- Concurrency is modelled as methods that each run one locked region or one
  channel operation; any order of them may happen (`CommandHub.Hub.Run`,
  `EgressCheck.Pool.Run`, the interference in `TrafficCounters`).

Where the code does not do what one would expect, the project says exactly when
it does, and a lemma gives an input for which it does not:

- Removing a pool gives back the rule list exactly when the pool had claimed no
  rule before, and the whole configuration exactly when the reserved resolver
  was present just when it was used
  (`RouteMeaning.RemovalLosesUserRule`, `RouteMeaning.RemovalDropsUnusedResolver`).
- Retiring an old address is safe exactly when no outbound of the new
  configuration shares it (`RelayRotation.SharedAddressIsRetired`).
- Patching the running inbounds equals a rebuild exactly when the change is
  covered, which a caller can check on the request and the stored rows. It is
  not when a request names a served stored client as new
  (`ConfigSaves.TakeoverIsMissed`), when a bulk edit meets a client whose stored
  credentials carry another name (`ConfigSaves.UnlabelledBulkEditIsMissed`), or
  when a client already lists an id that is only now given out
  (`ConfigSaves.StaleIdIsMissed`).
- After a failed save the core keeps the patch when another core operation is
  in progress, which then differs from what the tables build
  (`ConfigSaves.BlockedRestoreIsMissed`).
- A checked save can commit and still report an error, when the core does not
  follow. Changes made outside the lock may slip between its check and its
  commit (`Revision.ChangeSlipsIn`); a run is free of that exactly when no
  committing save had such a change while it ran.
- Traffic already swapped out of the counters is lost when the save of a report
  rolls back, and what connections add after the core is closed is never
  reported; `TrafficSaving.Run` accounts for both.

## Model

| member | source | states |
|---|---|---|
| `RelayRotation.RotateRelayItems` | service/relay.go:1529-1734 | One rotation with a failure possible at every step. Success: exactly the items asked for have moved, each to a free address of its own network and to the same outbound; pool row, rotation times, refresh links, change log and kernel are told field by field and nothing else changes; the core runs the new configuration. Failure: the tables are untouched and, when the undo steps work, kernel and core are as before. With stored addresses assigned and distinct, everything the core binds is assigned at every moment |
| `RelayRotation.RotationRotatesTables` | service/relay.go:1629-1677 | What the committed tables are: the pool's items, times and interval, the links of the moved items' inbounds, their outbounds, and no other row |
| `RelayRotation.RotationRotatesKernel` | service/relay.go:1589-1721 | The kernel afterwards: the new addresses, the old ones without those of moved items this panel had added |
| `RelayRotation.PossibleIsPlanned` | service/relay.go:1529-1587 | With an IPv6 pool, a concerned item, rotatable items on direct outbounds and a sensible interval, only the random draws can keep a rotation from being planned |
| `RelayRotation.PlansFit` | service/relay.go:1560-1587 | A plan moves exactly the items asked for: all of them, or the first one with the tag |
| `RelayRotation.RotatePlanned` | service/relay.go:1589-1721 | Add, wait, probe, switch, then clean up or retire: the same guarantees for any planned set of replacements |
| `RelayRotation.AddAndSwitch` | service/relay.go:1589-1710 | Up to the commit the kernel has exactly the old addresses and the additions so far, none of which was there before |
| `RelayRotation.RotateInTransaction` | service/relay.go:1611-1710 | Draft, core restart, log, commit; undone before returning on failure; nothing outside the old and the draft configuration ever runs |
| `RelayRotation.DraftIsBacked` | service/relay.go:1589-1721 | The rotated configuration binds only assigned addresses, also once the retired ones are gone |
| `RelayRotation.RetirementIsSafeExactlyWhenUnshared` | service/relay.go:1714-1721 | Dropping the retired addresses is safe exactly when no outbound of the new configuration still binds one of them |
| `RelayRotation.SharedAddressIsRetired` | service/relay.go:1714-1721 | An outbound outside the rotation that binds the rotated address is left binding an address that is gone |
| `RelayRotation.PointingIsExact` | service/relay.go:1736-1767 | Pointing outbounds at new addresses touches only the items' own IPv6 outbounds |
| `RelayRotation.PointingGivesEachItsAddress` | service/relay.go:1736-1774 | Afterwards each item's IPv6 outbound binds that item's address, with the IPv6-only strategy where the mode asks for it |
| `RelayRotation.UpdateRotatedOutbounds` | service/relay.go:1736-1767 | The update loop computes that function of the rows, or fails on a missing outbound |
| `RelayRotation.SelectItems` | service/relay.go:1560-1579 | Either all items, or the one item with the given inbound tag, or a refusal |
| `RelayRotation.ReplacedExactly` | service/relay.go:1584-1587 | Exactly the selected items of the pool change |
| `RelayPanel.SwitchAndCommit` | service/relay.go:1234-1261 | Commits exactly when no step fails; otherwise the tables are the old ones and the core is back on the old configuration or down |
| `RelayPanel.AddAll` | service/relay.go:1599-1604 | Addresses are added one by one up to the first refusal; what was added was not there before |
| `RelayPanel.DeleteAll` | service/relay.go:1591-1598 | Deletions that fail are passed over; nothing else goes |
| `RelayPanel.Panel.AddAddress` | service/relay.go:2175-2198 | An address the interface already has, or an invalid one, is refused without effect |
| `RelayPanel.Panel.StopCore` | core/main.go:96-104 | Stopping forgets the instance even when closing it reports an error |
| `RelayPanel.Panel.StartCore` | core/main.go:60-94 | A start that fails leaves no instance |
| `RelayCreation.CreateRelay` | service/relay.go:1018-1265 | One creation with a failure possible at every step. Success: each item has its inbound, outbounds and client row, on consecutive ports nobody listened on, from the lowest start the request allows; pool row, links, change log, route rules and kernel are told field by field and every older row is unchanged; every item routes as intended. Failure: nothing remains when the undo steps work. What the core binds is assigned throughout |
| `RelayCreation.CreationCreatesTables` | service/relay.go:1065-1232 | What the committed tables are, in the fields of request, items and rows |
| `RelayCreation.FirstFitIsChosen` | service/relay.go:2454-2489 | The start of the ports is the least one from the requested start on whose range no stored inbound listens in, or there is none up to 65535 |
| `RelayCreation.CreationOnKernel` | service/relay.go:1039-1054 | Exactly the lacking addresses come to the kernel, each for the first item that has it |
| `RelayCreation.NothingHindersCreation` | service/relay.go:1065-1232 | With fresh tags, a free range of ports, a new pool id and the reserved server tag in order the tables accept a creation |
| `RelayCreation.CreationRoutes` | service/relay.go:1119-1232 | In the committed configuration every item gives its intended egress for every connection |
| `RelayCreation.AssignAddresses` | service/relay.go:1039-1054 | Exactly the missing addresses are added and flagged; one that may not be added stops the batch |
| `RelayCreation.CreateInTransaction` | service/relay.go:1065-1261 | Ports, rows, rules, core switch and commit as one step |
| `RelayCreation.InsertRows` | service/relay.go:1119-1218 | The rows of all items, failing on the first tag that is taken |
| `RelayCreation.InsertionIsExact` | service/relay.go:1119-1218 | The inserted rows extend the old tables: no inbound, outbound or client row is overwritten, each item has its own inbound on its own port and a client row for it, the outbounds its tags name send from its own address or to its own upstream as the mode says, and no other address becomes bound |
| `RelayCreation.CreatedPoolRoutes` | service/relay.go:1119-1232 | Once a pool is created every one of its items gives its intended egress |
| `RelayCreation.CreationBinds` | service/relay.go:1119-1250 | The committed configuration binds only what was bound before and the items' addresses |
| `RouteRules.UpdateRouteRules` | service/relay.go:2491-2632 | The rules made for an item's inbound go, told by the rule's and the item's fields; all others stay in their order behind the new ones, all of which are made for an item; the reserved resolver is there just when a rule uses it and no other server moves; refused exactly when the reserved tag belongs to another kind of server |
| `RouteRules.OthersStay` | service/relay.go:2524-2550 | A rule is missing afterwards exactly when, for an item whose inbound it names, it routes to one of the item's tags, or resolves through the reserved server for an item with an IPv4 outbound, or rejects IP version 4; the others keep their order |
| `RouteRules.UpdateIsTold` | service/relay.go:2491-2672 | The update as a whole, told by fields |
| `RouteRules.ResolverFollows` | service/relay.go:2634-2672 | The resolver among the servers, told by fields |
| `RouteRules.FilterRules` | service/relay.go:2524-2550 | The loop drops the rules the target maps claim, in order |
| `RouteRules.GenerateRules` | service/relay.go:2551-2619 | The generated rules of all items, in item order |
| `RouteRules.TargetInbounds` | service/relay.go:2674-2693 | The inbounds of a rule that belong to the pool |
| `RouteRules.UpdateResolver` | service/relay.go:2644-2672 | The resolver list with the reserved server present or absent |
| `RouteRules.TargetsDescribeItems` | service/relay.go:2509-2522 | The target maps hold what the items say |
| `RouteMeaning.ItemMeaning` | service/relay.go:2551-2619 | First-match evaluation of an item's rules gives its intended egress, for every destination and any rules behind them |
| `RouteMeaning.AppleItemMeaning` | service/relay.go:2557-2584 | Apple-ID items: listed domains to the own IPv4 outbound, other IPv4 rejected, the rest to the IPv6 outbound |
| `RouteMeaning.PairedItemMeaning` | service/relay.go:2585-2609 | Paired items: split by family, IPv6 winning for dual-stack destinations |
| `RouteMeaning.AddedPoolMeaning` | service/relay.go:2551-2632 | After a pool is added every item routes as intended, whatever rules were there |
| `RouteMeaning.ForeignInboundsUnaffected` | service/relay.go:2524-2550 | Adding or removing a pool changes nothing for an inbound that no claimed rule names |
| `RouteMeaning.AddingTwiceIsAddingOnce` | service/relay.go:2509-2632 | Adding the same pool twice equals adding it once |
| `RouteMeaning.RemovalUndoesAddition` | service/relay.go:2509-2632 | Removal gives back the rule list exactly when the pool claimed no rule of it before |
| `RouteMeaning.RemovalRestoresConfiguration` | service/relay.go:2619-2672 | Removal gives back the whole configuration exactly when the resolver was present just when used |
| `RouteMeaning.RemovalLosesUserRule` | service/relay.go:2524-2550 | A user's reject rule for the pool's inbound does not come back |
| `RouteMeaning.AdBlockSurvives` | service/relay.go:2545-2549 | A user's reject rule without an IP version for a pool's inbound survives addition and removal |
| `RouteMeaning.RemovalDropsUnusedResolver` | service/relay.go:2644-2672 | A local resolver that was present but unused does not come back |
| `RouteMeaning.ResolverFollowsRules` | service/relay.go:2634-2672 | The update fails exactly when the reserved tag is another kind of server; otherwise the resolver is there just when used |
| `RouteMeaning.ResolverConsistentOverRuns` | service/relay.go:2634-2672 | The same after every call of any sequence of updates |
| `RouteMeaning.ItemRulesAreClaimed` | service/relay.go:2524-2619 | Whatever the compiler writes for an item, a later update recognises as the pool's |
| `Ipv6Allocation.RandomRelayIPv6` | service/relay.go:2157-2173 | In place on the bytes: the first prefix bits of the base (section 2.3 of RFC 4291), the others from the random source |
| `Ipv6Allocation.SpliceBits` | service/relay.go:2157-2173 | Bit by bit: base inside the prefix, draw outside |
| `Ipv6Allocation.SpliceCoversPrefix` | service/relay.go:2157-2173 | Every address of the network is reached by some draw |
| `Ipv6Allocation.RotationMovesEveryItem` | service/relay.go:1776-1809 | Every item gets a new address of its prefix, pairwise distinct, unoccupied, neither the old nor the masked base, and no other field changes but the flag |
| `Ipv6Allocation.PrepareRotatedItems` | service/relay.go:1776-1809 | The loop computes that selection, with its failures |
| `Ipv6Allocation.OnlyDrawsFail` | service/relay.go:1776-1809 | A selection of rotatable items fails only when a draw fails or none of the 4096 draws for some item suits |
| `Ipv6Allocation.PickedIsFree` | service/relay.go:1785-1802 | The first draw that suits, of at most 4096; without a result only when none of the draws suits or the random source fails |
| `Ipv6Allocation.ExplicitBase` | service/relay.go:2028-2052 | An explicit base is accepted only when public and when its prefix holds the requested number of addresses |
| `Ipv6Allocation.ExplicitBaseIsExact` | service/relay.go:2034-2043 | An explicit base is accepted exactly when it is public and its network has host bits and more addresses than requested |
| `Ipv6Allocation.FillAddresses` | service/relay.go:1966-2026 | Requested addresses are admitted exactly when they qualify; the drawn ones are distinct, inside the network and not the base; an unfinished loop still has a free candidate, one that is accepted when the network is global |
| `Ipv6Allocation.EveryDrawCounts` | service/relay.go:2000-2010 | An unfinished pool has taken every address drawn that it may take; what it has beyond the requested ones was drawn |
| `Ipv6Allocation.FreeCandidateExists` | service/relay.go:2040-2043 | When the capacity check passes a free candidate exists at every turn, by counting |
| `Ipv6Allocation.NetworkSize` | service/relay.go:2040-2043 | A network of p prefix bits has 2^(128-p) addresses |
| `Ipv6Allocation.MaskedDecidesPrefix` | service/relay.go:2000-2010 | Comparing masked addresses decides whether two addresses share a network |
| `RelayRepair.RepairSeparates` | service/relay.go:703-753 | After the loop the repaired items have outbounds to themselves with their own server and credentials; no write disturbed an earlier one; unclaimed outbounds and other item fields are untouched |
| `RelayRepair.RepairedExactly` | service/relay.go:711-722 | Which items are repaired: those with an upstream whose outbound is there when their turn comes |
| `RelayRepair.RepairPairedPool` | service/relay.go:703-753 | Each item with an upstream whose outbound is there has a SOCKS outbound to itself that sends to that upstream; other items, other fields and other outbounds are as before; the pool row changes exactly when a tag did |
| `RelayRepair.RepairWorks` | service/relay.go:711-741 | With SOCKS outbounds and new tags for the clones a repair succeeds |
| `PortRange.NextRelayPortRange` | service/relay.go:2470-2489 | The least start at or above the preferred one whose whole range is free and within 65535; an error exactly when there is none |
| `PortRange.FirstFitIsLeast` | service/relay.go:2470-2489 | The specification is the least fitting start |
| `PortRange.SkipConflict` | service/relay.go:2478-2486 | Going on behind the conflict never skips a fitting start |
| `EgressCheck.ValidateRelayIPv6Egress` | service/relay.go:2292-2362 | No error exactly when every address is valid and reachable; a reported address genuinely is not |
| `EgressCheck.CollectAddresses` | service/relay.go:2293-2310 | The distinct addresses of the items, empty ones skipped, invalid ones refused |
| `EgressCheck.Pool.Run` | service/relay.go:2312-2353 | In every schedule of the workers: they finish, and fail exactly when some address is unreachable |
| `EgressCheck.Pool.Return` | service/relay.go:2338-2346 | The worker holds its verdict: a failure before any report is genuine; after cancellation it may not be, and does not count |
| `EgressCheck.Pool.Report` | service/relay.go:2339-2343 | Only the first report counts and stays recorded, and it cancels the others |
| `InboundUsers.GetAllConfig` | service/inbounds.go:241-303 | The rebuild has one inbound for every sing-box row, under its tag, serving exactly the enabled clients that list it and have credentials of its kind, shown as stored except that VLESS rows without TLS lose the vision flow |
| `InboundUsers.BuildServesExactly` | service/inbounds.go:241-303 | The same of the reference that patching is compared with |
| `InboundUsers.FirstOccurrenceGoes` | service/inbounds.go:296-299 | Removing the flow takes out its first occurrence and goes on behind it |
| `InboundUsers.NoOccurrenceStays` | service/inbounds.go:296-299 | And leaves a text without it alone |
| `InboundUsers.PartsDecideUsers` | service/inbounds.go:272-303 | Users depend only on the credentials of enabled clients that list the inbound |
| `InboundUsers.RestartIsExact` | service/inbounds.go:372-406 | Restarting some inbounds turns the old build into the new one exactly when no other inbound's users changed |
| `ClientSaves.Save` | service/client.go:50-188 | Each action does to the table of clients what the request asks: stored clients have the requested columns, with credentials under their own names; bulk edits keep the stored credentials; deletions take exactly the named ids; nobody else changes. The reported inbounds and the refusals are the source's |
| `ClientSaves.SaveIsAsked` | service/client.go:50-188 | The same of the specified tables, for every action and list, with the ids new clients get |
| `ClientSaves.FindInboundsChanges` | service/client.go:613-645 | Both lists when credentials, name or state changed, their difference otherwise |
| `ClientSaves.UnionUintArray` | util/common/array.go:4-17 | The union without repetition |
| `ClientSaves.DiffUintArray` | util/common/array.go:21-45 | The symmetric difference |
| `HotUpdate.ReportIsExact` | service/client.go:50-188 | For every action and any list of clients: the reported inbounds are enough exactly under a condition on the request and the stored rows, that no written client is shown differently in an unreported inbound |
| `HotUpdate.ReportCoversChanges` | service/client.go:50-188 | When new clients take no stored id and a bulk edit finds labelled credentials, every inbound whose users change is reported |
| `HotUpdate.TakingOverIsExact` | service/client.go:55-111 | New clients, one or many, may take over stored ids exactly when no stored one was shown in an unreported inbound it listed |
| `HotUpdate.BulkEditIsExact` | service/client.go:112-140 | A bulk edit of any list of clients is covered exactly when relabelling the named clients' stored credentials shows no difference in the unreported inbounds |
| `HotUpdate.SavedStaysLabelled` | service/client.go:590-611 | Every save leaves every client's credentials carrying its name when they did before |
| `InboundSaves.PatchIsExact` | service/inbounds.go:104-219 | Patching the core for an inbound save equals rebuilding from the saved tables exactly under a condition on the request: no taking over of a row under another tag or core, nobody served by an id only now given out, no unknown row beside an empty tag |
| `InboundSaves.NewUsers` | service/inbounds.go:325-370 | The users a new inbound starts with are those of a rebuild exactly when no client outside the list already refers to its id |
| `InboundSaves.StoredElsewhere` | service/client.go:263-358 | A save leaves the users of every other row alone, and the tables consistent |
| `InboundSaves.RowIsSaved` | service/inbounds.go:104-219 | The row is written or gone, under the requested or the next id; selected clients list a new inbound last, a deleted one leaves every list in order |
| `InboundSaves.UpdateClientsOnInboundAdd` | service/client.go:263-311 | The selected clients list the new inbound |
| `InboundSaves.UpdateClientsOnInboundDelete` | service/client.go:313-358 | No client lists the deleted inbound, and nothing else changes |
| `ConfigSaves.Server.SaveLocked` | service/config.go:440-565 | Tables change all or nothing, and as the request asks; after a commit the running inbounds equal a rebuild exactly when the change is covered, and then serve exactly whom the tables say; after a rollback they equal a rebuild unless another core operation blocks the restore, and then the patch stays |
| `ConfigSaves.AcceptableExactly` | service/config.go:471-493 | Requests are refused exactly for clients or rows that are not there and for tags another row has |
| `ConfigSaves.PatchedBuildIsExact` | service/config.go:471-493 | For client and inbound saves alike, patching the running inbounds equals rebuilding them exactly under a condition on the request and the stored rows |
| `ConfigSaves.OrdinarySavesAreCovered` | service/config.go:471-493 | Saves whose new rows get new ids are covered when stored credentials carry their names, inbounds have tags and no client lists an id never given out |
| `ConfigSaves.TakeoverIsMissed` | service/client.go:55-85 | The save of a new client under the id of a stored one, which drops that one's inbound, leaves the core different from a rebuild |
| `ConfigSaves.UnlabelledBulkEditIsMissed` | service/client.go:112-140 | A bulk edit that changes nothing about a client whose stored credentials carry another name leaves the core different from a rebuild |
| `ConfigSaves.StaleIdIsMissed` | service/inbounds.go:104-175 | A new inbound that gets an id which a client already lists leaves the core different from a rebuild |
| `ConfigSaves.BlockedRestoreIsMissed` | service/config.go:450-462 | The deletion of a served client is covered, but its patch differs from what the old tables build, and stays when the save fails while the core is busy |
| `ConfigSaves.Server.RestartInbounds` | service/inbounds.go:372-406 | Every listed sing-box inbound is taken out and added again |
| `ConfigSaves.Server.SaveInbound` | service/inbounds.go:104-219 | The steps on core and rows, in the source's order, with their failures |
| `ConfigSaves.Server.RestartSingBoxCore` | service/config.go:175-199 | Stop, rebuild, start; nothing while another core operation runs |
| `ConfigSaves.Server.Recover` | service/config.go:450-462 | A running core is rebuilt after a failed save |
| `ClientAccounts.ClientTable.DepleteClients` | service/client.go:406-470 | All or nothing, column by column: the reset, then those over volume or past expiry are cut off and no enabled client is either; the returned ids are the inbounds of the clients turned on or off |
| `ClientAccounts.ClientTable.ResetClients` | service/client.go:472-553 | Column by column: a used delayed client starts, with expiry or first period counted from now; a period that is over starts anew with its usage moved to the totals; every other row stays |
| `ClientAccounts.RowsAreAt` | service/client.go:406-553 | The specified rows have those columns |
| `ClientAccounts.ReturnedAreTurned` | service/client.go:406-553 | The inbounds returned are exactly those of clients turned on or off |
| `ClientAccounts.DepletionIsComplete` | service/client.go:406-470 | Afterwards no enabled client is over volume or past expiry, and nobody is disabled otherwise |
| `TrafficSaving.StartedClientEnds` | service/client.go:406-485 | A used delayed client is cut off by the first depletion after its days are over, whatever traffic, resets and depletions lie in between |
| `ClientAccounts.DepletionReportsChanges` | service/client.go:406-553 | Every inbound not returned shows the same users, so restarting the returned ones brings the core to the rebuilt state |
| `ClientAccounts.ClientTable.ResetAllClientsTraffic` | service/client.go:557-588 | Afterwards everybody is enabled with no traffic in the period, all-time totals are what they were, and clients that needed no reset are untouched; nothing changes when the statement fails |
| `TrafficCounters.StatsTracker.GetStats` | core/tracker_stats.go:86-153 | With any additions between any two swaps: what was counted for a figure is what was reported plus what its cells hold, and a report carries at least what its counters held at the start |
| `TrafficCounters.StatsTracker.GetReadCounters` | core/tracker_stats.go:45-64 | A connection counts into the cells of its inbound, outbound and user |
| `TrafficCounters.StatsTracker.AddTraffic` | core/tracker_stats.go:76-84 | Adding without the lock keeps the balance |
| `TrafficCounters.StatsTracker.Reset` | core/tracker_stats.go:37-43 | Counters are forgotten; their cells stay in the balance |
| `TrafficStats.MergingLosesNothing` | service/stats.go:109-120 | Upserting keeps every figure's total, adds bucket by bucket, and never makes two rows of one bucket |
| `TrafficStats.DedupStats` | database/db.go:138-168 | Afterwards no two rows share a bucket; every bucket keeps its traffic and its smallest id; a table without duplicates is untouched |
| `TrafficSaving.StatsStore.SaveStats` | service/stats.go:24-121 | Accounts and buckets change together: each account takes in the traffic reported under its name and nothing else, the buckets all rows at the bucket time |
| `TrafficSaving.BucketsReceiveAll` | service/stats.go:105-120 | A figure's stored traffic grows by exactly what was reported for it, all in the bucket of the save |
| `TrafficSaving.RunsConserveTraffic` | service/client.go:472-588 | Over any run of saves, resets and depletions a client's all-time figures grow by exactly the traffic reported under its name |
| `TrafficSaving.CountedIsAccountedFor` | service/stats.go:60-103 | What a user's cells counted is what its account grew by, what was lost with rolled back reports, and what the cells still hold |
| `TrafficSaving.Run` | service/stats.go:24-121 | The same over any run of connections, reports, depletions and resets, whose saves may each roll back; nothing is lost when every report's save commits |
| `Downsampling.DownsampleStats` | service/stats.go:160-186 | Every index is below the number of buckets and each bucket holds exactly the traffic of its rows |
| `Downsampling.DownsamplingLosesNothing` | service/stats.go:160-186 | The buckets together hold all traffic of each direction |
| `Downsampling.BucketHoldsItsTimes` | service/stats.go:162-178 | A row of the window falls into the bucket whose span holds its time |
| `Downsampling.NumBuckets` | service/stats.go:148-155 | Between 1 and 360 buckets, none narrower than a stored one |
| `CommandHub.Hub.Run` | service/agent_hub.go:97-424 | After any steps in any order: finished commands and logged outcomes correspond one to one, each the received answer under its own id or the timeout; answers were heard from an agent or when the session failed; a result on its way is never lost to the steps of others |
| `CommandHub.Hub.Perform` | service/agent_hub.go:194-224 | A result for a waiting command of a registered session is on its way from the message on, and no step but the dispatcher's own takes it off |
| `CommandHub.Hub.Settle` | service/agent_hub.go:194-224 | A result on its way can always be brought into the channel and logged as the answer |
| `CommandHub.Hub.Receive` | service/agent_hub.go:400-403 | A dispatcher receives at most one value, its own, and never an empty one from a closed channel |
| `CommandHub.Hub.AwaitOutcome` | service/agent_hub.go:398-423 | A sent command can always finish, with exactly one logged outcome |
| `CommandHub.Hub.LogResult` | service/agent_hub.go:402-413 | The answer is logged once, under the command's id |
| `CommandHub.Hub.LogTimeout` | service/agent_hub.go:414-423 | A timed out command never had an answer and is logged once |
| `CommandHub.Hub.RemoveExpired` | service/agent_hub.go:415-417 | After the removal no later result finds the command; other commands stay pending |
| `CommandHub.Hub.FindTarget` | service/agent_hub.go:194-211 | A result finds a handler exactly when a registered session has the command pending |
| `CommandHub.Hub.TakePending` | service/agent_hub.go:212-219 | Removing the entry decides who sends; later ones find nothing |
| `CommandHub.Hub.Deliver` | service/agent_hub.go:220-223 | The value goes into the channel if it is empty |
| `CommandHub.Hub.FailPending` | service/agent_hub.go:169-180 | Every pending command of the session gets the message and a closed channel, and no other is touched |
| `CommandHub.Hub.UnregisterSession` | service/agent_hub.go:117-123 | A replaced session never takes its successor away |
| `CommandHub.Hub.SendFails` | service/agent_hub.go:391-396 | The entry goes and no other; the channel is closed afterwards without looking |
| `CommandHub.CommandLog.Append` | service/agent_hub.go:564-576 | Each node's log is its newest fifty entries |
| `LatencyProbe.Probes.Probe` | service/agent_hub.go:275-302 | At most one ping is outstanding in a session; old ones are given up first |
| `LatencyProbe.Probes.HandlePong` | service/agent_hub.go:226-250 | A pong counts only while its ping is outstanding, hence at most once |
| `LatencyProbe.Probes.FailPings` | service/agent_hub.go:148-156 | A session that ends gives up its pings, with one failed sample each |
| `QuickAdd.AllocatePorts` | service/remote_quick_add.go:227-248 | Ports in range, distinct, unused, each the first free one after its predecessor with wrap-around; an error exactly when too few are free |
| `QuickAdd.NextFree` | service/remote_quick_add.go:229-241 | The first free port from a start on, or none when all are used |
| `QuickAdd.FreeTag` | service/remote_quick_add.go:257-260 | The search for an unused copy ends and finds the first unused one |
| `QuickAdd.AllocateTags` | service/remote_quick_add.go:252-263 | Tags distinct and unused, each the first unused copy of its initial tag |
| `QuickAdd.AllocateRemoteQuickAdd` | service/remote_quick_add.go:216-265 | Both together, the tags being first unused copies of the requested base tag or, without one, of the protocol's name with the first port |
| `QuickAdd.CopiesDiffer` | service/remote_quick_add.go:257-260 | Copies with different numbers are different tags |
| `Revision.ConfigStore.SaveWithRevision` | service/config.go:416-432 | Nothing is committed on a stale revision; a success strictly raises it, with only changes made outside the lock in between |
| `Revision.ConfigStore.Save` | service/config.go:434-438 | An unchecked save commits its row or nothing |
| `Revision.AtMostOnePerRevision` | service/config.go:416-432 | Of several checked saves naming one revision at most one commits |
| `Revision.DirectlyOnTop` | service/config.go:410-432 | Over any run, a checked save sits directly on the revision it named exactly when nothing was changed outside the lock while it ran itself |
| `Revision.RunIsLinearExactly` | service/config.go:410-432 | A run has every checked save directly on its revision exactly when none of its committing saves had a change outside the lock while it ran |
| `Revision.ChangeSlipsIn` | service/config.go:416-432 | One change recorded by a job during a checked save is enough for it to commit behind that change |
| `Revision.ConfigStore.Run` | service/config.go:410-438 | Saves, checked saves and outside changes in any order leave the table the run lemmas speak about |
| `Revision.ConfigStore.QuickAddChain` | service/remote_quick_add.go:113-160 | The saves of a quick add chain on each other's revisions; when all succeed no other locked save came between them |
| `SocksText.TextRoundTrip` | service/relay.go:2746-2781 | Reading newline-joined export lines gives back the same servers, ports, users and passwords in order |
| `SocksText.LineRoundTrip` | service/relay.go:2783-2860 | One exported line reads back as the same upstream, for hostnames and IPv4 or IPv6 addresses |
| `SocksText.LoginLineIsRead` | service/relay.go:2810-2818 | "user:password@host:port" reads as that server and login, bracketed addresses and passwords with colons included |
| `SocksText.ServerFirstIsRead` | service/relay.go:2810-2818 | "host:port@user:password" does exactly when the password is no number; otherwise login and server are swapped |
| `SocksText.EndpointLineIsRead` | service/relay.go:2826-2833 | "host:port" reads as that server without credentials |
| `SocksText.FourFieldsAreRead` | service/relay.go:2821-2825 | Four fields between any separators read as server, port, user and password |
| `SocksText.FourFieldsLoginFirstAreRead` | service/relay.go:2821-2825 | And with the login first, when the password is no number |
| `SocksText.AcceptedIsSound` | service/relay.go:2732-2744 | Whatever the form, an accepted line has a port and a server one can dial |
| `SocksText.CommentsDoNotCount` | service/relay.go:2746-2781 | Blank lines and comments do not count |
| `SocksText.JsonIsRead` | service/relay.go:2751-2781 | Text that starts like JSON and reads as an error or a list is that |
| `SocksText.UrlLineIsRead` | service/relay.go:2783-2806 | A line with "://" is read by the URL library and checked |
| `SocksText.ParseRelayUpstreams` | service/relay.go:2746-2781 | The loop over lines computes the specified reading |
| `Text.SplitOfJoined` | service/relay.go:2835-2858 | Splitting at a separator undoes joining |
| `Decimal.PrintParse` | service/relay.go:3011-3014 | Reading a printed number gives it back |

## Left out

- DeleteRelay, SetRelayRotation and the due-rotation timer: deletion is a creation's clean-up without its checks; the others only set schedule columns.
- TLS, outbound, service, endpoint and settings saves: they patch other parts of the core; a row's TLS block is part of its `body`.
- HTTP handlers, WebSocket frames, terminals, RPC dispatch (the same protocol as commands), share links and subscription links.
- The Xray process: saves that touch it count as one of the failing steps.
- sing-box itself: starting, adding and removing inbounds are steps that work or fail; the rule evaluator in `RouteMeaning` has first match, a non-final `resolve` and rejection, and treats a lookup without an address as unresolvable.
- An inbound without a tag gets a positional name from sing-box; the model treats the empty tag as a tag.
- JSON bytes, SQL text and GORM: rows are records, statements of one transaction fail together where the code handles them alike. Two spellings of the same credentials are told apart only by a `spelling` mark.
- The textual list of client ids a new inbound starts with: both readers of that text are taken to agree, as they do for plain decimal ids.
- CreateRelay's normalisation of the request (protocol, transport, names) and the exact client credentials: they are parameters.
- The direct-outbound repair before and after the paired repair loop: single-row rewrites without interaction.
- Addresses found by detection instead of an explicit base have no capacity check, so no capacity is claimed for them.
- Finding the interface of an explicit base: it is a listing of the host's interfaces.
- IPv4-mapped IPv6 addresses: the egress check would accept them, the model's address text has none.
- Concurrency of a save with a rotation or a depletion job: those paths take other locks; in `Revision` they appear as changes outside the lock, in `ConfigSaves` not at all.
- The cooldown after a failed core start: it is one of the reasons a start fails.
- 64-bit wrap-around of traffic sums and of times: the counters are unbounded integers.
- Client edits overwrite the traffic columns with what the request carries; conservation is stated for saves of reports, resets and depletions.
- The list of recently online names and the time stamps of clients.
- CommandHub.Hub.SendFails: single closing of the channel is not claimed after a failed send, because the source closes it without checking who removed the entry.
- CommandHub.Hub.FailPending: the pending maps of all sessions are one set of command ids, each with its session; ids are unique.
- LatencyProbe.Probes.HandlePong: how many samples a ping yields is not claimed when its write failed after something else settled it.
- Ipv6Allocation.FillAddresses: the source draws without bound; the model is given finitely many draws and shows that an unfinished search still has a free candidate.
- SocksText.TextRoundTrip: URL entries, JSON lists and the test for a numeric address are library calls and enter as parameters; servers starting with a brace or a byte order mark are excluded.
- TrafficCounters.StatsTracker.GetReadCounters: the three maps of counters are one map keyed by kind and name.
