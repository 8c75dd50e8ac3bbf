# Verified model of the RGB Lightning node's accounting

A Dafny model of the parts of the node that decide who owns which RGB amount: the channel
ledger every node keeps for itself, the swap protocol between a maker and a taker, the
funding of RGB channels, the sweep of closed channels, the stores behind them, and the text
and stream formats they depend on. `dafny verify dfyconfig.toml` checks the project.

## How the model is laid out

| files | what they model |
|---|---|
| `Ledger`, `Conservation`, `SwapSettlement` | N nodes, each with its own view of its channels, moved only by the node's own payment events; every interleaving of payments, any order in which a directory is listed |
| `SwapOffer`, `SwapRoute`, `SwapMachine`, `SwapHandlers` | the offer, the circular route and its amounts, the taker's check, the status machine with its lazy sweep |
| `Stores`, `Payments` | the five write-through stores and the life of outbound payments |
| `Funding` | the one-slot pending transfer, the broadcast gate, replays and crashes, the send lock |
| `Sweep` | grouping closed-channel outputs by contract, the memo of sweep transactions |
| `Text`, `Hex`, `Decimal`, `SwapString`, `PeerFile`, `Revocation`, `Backup` | the formats and their round trips |
| `Balances` | reported channel balances and locked amounts |
| `Wrappers`, `Types`, `Sums` | shared vocabulary |

Code that updates state in place is a class whose methods are proved against functions on
values; theorems over whole runs are lemmas about those functions. A handler is one step on
the stores, as each map's lock guard is moved into the function that saves it.

## What is assumed about code outside the repository

- `update_rgb_channel_amount` moves `offered` from local to remote and `received` from remote
  to local, and does nothing for a channel without RGB information (`src/test/multi_hop.rs:181-188`).
- Nothing is assumed about what the directories hold. The ledger theorems that need right scans
  ask for `RightlyScanned`: each scan stops at a record of its own end's amount and channel.
  `RightIffRightlyScanned` shows that this is necessary, `RightInAnyOrderIff` what it takes in
  whatever order a directory is listed, and `SingleAttemptsScanRight` that it holds when no
  record of an earlier attempt under the same hash is left.
- API handlers hold the state guard for their whole body, which keeps them apart from locking and
  unlocking but not from the event handler. That no event is handled between the steps of a
  query or a call is assumed; `WriteBackOverwrites` shows what it would do to a query.
- An end of a payment is not also one of its intermediate nodes, and each event is delivered once.
- An HTLC carries its leg's requested value plus the fees of the nodes it still has to pay
  (`src/test/swap_roundtrip_multihop_buy.rs:248-279`).
- The network answers a broadcast it already knows with an error that says so; where a
  theorem needs this it says `!reaccepts`, or counts acceptances.
- The channel manager reports a failure only for payments it has not reported as sent.
- Contract ids and socket addresses print to texts that parse back and hold no separator;
  the cipher opens what it sealed and adds a 16-byte tag; reads fill the buffer.

## What the proofs turned up

- `maker_execute` adds the minimum HTLC amount to the BTC quantity in 64 bits. For quantities
  so large that this wraps (a debug build panics instead), the composed HTLC fails the taker's
  check; for all others it passes. `ComposedRoutePasses` has the exact condition.
- `maker_execute` panics when it executes an offer this node did not make and the offer is
  expired or otherwise payable, since the status update unwraps a missing entry. It also panics
  on offers of its own while a channel the payment may come back over lacks forwarding
  information or a short id. `Panics` lists these and those of the event handlers on swaps, so
  far as they do not come from files, other crates or arithmetic.
- An HTLC that is not flagged as a swap is refused, but the handler goes on and decides again.
- The taker's check says nothing about RGB that leaves when BTC is given, nor about the contract
  named beside an outgoing RGB amount. `GivesOnlyAgreedIff` says that these two are all it lacks.
- When a payment is tried again under its hash over another channel and the record of the
  first attempt is still in the directory, the order of the listing decides which channel moves.
  `ScanIsRightIff` has the exact condition. Each view's total is kept in any case.
- The sweep looks only at whether the posting task of a consignment died: an error that posting
  returns is dropped, the transaction is kept as swept, and no later sweep posts the consignment.
- The taker forwards an HTLC that realises a stored offer at any time and as often as one comes,
  whether the offer is expired, failed or has succeeded.
- A peer is not deleted when the caller writes its key in upper case: only the text the file
  itself prints removes the line.
- A swap that a query finds overdue is shown with its new status but with the time stamps of
  the snapshot, so without `completed_at` until the next query.
- The contract transfer is not executed exactly once: if it fails after the broadcast, the
  replay completes without it. `TransferredIffFollowedThrough` says when it happens. A network
  that accepts the transaction again makes a transfer that could not be saved happen again.
- The send lock is cleared by a restart, by `DiscardFunding` of any channel and by a replayed
  `ChannelPending` of another channel, after which the pending slot can describe another channel
  than the one being completed. `ForeignReleaseMisdirects` covers every kind of step.
- A crash right after the pending slot was removed leaves the opening stuck: every replay fails
  on the missing slot. `CompletesIff` says exactly when a sequence of attempts completes.
- The sweep colours contract v at output index v although its recipient stands behind the
  caller's own outputs; the two agree exactly when the caller asks for none.
- The taker's `saturating_sub` comparison is exact because the parser refuses a zero quantity.
- A revoked token's empty identifier is kept in memory but not across a restart.

## Model

| member | source | states |
|---|---|---|
| Ledger.NodeLedger.UpdateForPayment | src/ldk.rs:580-606 | the directory scan applies the first eligible HTLC record and nothing else |
| Ledger.NodeLedger.UpdateRgbChannelAmount | src/ldk.rs:602 | offered moves from local to remote, received back |
| Ledger.NodeLedger.Handle | src/ldk.rs:994-1027 | forwarded, claimed and sent events as changes of the node's views; panics, before anything moves, on a forwarding without both channel ids |
| Ledger.FirstEligible | src/ldk.rs:588-595 | the entry the scan stops at is eligible, and no earlier one is |
| Ledger.ScanStopsAt | src/ldk.rs:588-604 | in terms of the records' fields: the scan stops at the first record of the hash, a swap's of the other direction aside, and moves its amount in its channel in the direction of the end |
| Ledger.ScanIsRightIff | src/ldk.rs:588-605 | for any directory, payment and end of it: a scan moves what that end should iff the first eligible record has its amount on its channel, or there is none and nothing is to move |
| Ledger.RightInAnyOrderIff | src/ldk.rs:582-605 | a scan is right in every order of the listing iff every eligible record fits and there is one if anything is to move |
| Ledger.ScanFindsOwnRecord | src/ldk.rs:588-605 | with the records of a single attempt under the hash the scan finds that end's own record, whatever else is listed; for a swap the direction selects it |
| Ledger.StaleRecordMisleads | src/ldk.rs:588-604 | beside an eligible record that does not fit, some order of the listing makes the scan right and some makes it wrong |
| Ledger.OwnEndOnly | src/ldk.rs:593-595 | the only record of a payment at its sender or receiver that is not skipped is the first or last hop's |
| Ledger.HandledMoves | src/ldk.rs:1010-1027 | handling a position of a payment moves exactly that position's amounts in that node's views, iff its scan is right |
| Ledger.FlowOfSettle | src/ldk.rs:1010-1027 | a handled event counts once, for its own node |
| Ledger.NoFlowElsewhere | src/ldk.rs:580-606 | payments never touch channels off their route |
| Ledger.ReachableViews | src/ldk.rs:871-893 | over every run with right scans, every view is its opening amounts plus what handled events moved |
| Ledger.RightIffRightlyScanned | src/ldk.rs:580-606 | the views are as expected at every point of a run iff every scan in it is right |
| Ledger.SingleAttemptsScanRight | src/ldk.rs:588-605 | without records of earlier attempts every scan of a run is right |
| Ledger.AmountsKept | src/ldk.rs:580-606 | over every run, whatever the directories hold, each view keeps local+remote and its contract |
| Conservation.EventsAgainstHops | src/ldk.rs:1010-1027 | the events at both ends of a channel cancel hop by hop |
| Conservation.ViewsMirror | src/ldk.rs:580-606 | over every run with right scans: local+remote constant, views differ by exactly the HTLCs handled at one end only, and mirror each other at quiescence |
| Conservation.TotalsConserved | src/ldk.rs:1010-1027 | over every run with right scans: per-asset totals of all nodes are the opening amounts plus what is in flight |
| Conservation.WealthOfEvents | src/ldk.rs:580-606 | a node owns what it put in plus what its own handled events brought |
| Conservation.SwapPaymentDelta | src/ldk.rs:593-605 | a completed swap brings the taker to minus from, the maker the opposite, others zero, per asset |
| Conservation.SwapSettles | src/ldk.rs:593-605 | in every run with right scans, next to any openings and other payments: what a node owns is its own funding, what other payments brought, and the agreed legs of the completed swap |
| Conservation.SwapMovesAgreedLegs | src/ldk.rs:593-605 | the same as a change of wealth between a state before and a state after the swap |
| SwapSettlement.ComposedIsSwapRoute | src/routes.rs:2711-2726 | the composed hops carry the agreed asset and quantity of their leg |
| SwapSettlement.AgreedSwapSettles | src/routes.rs:2658-2726 | from the offer to every node's balance, in every run with right scans: exactly the two agreed quantities change hands beside funding and other payments |
| SwapSettlement.AgreedSwapAlone | src/routes.rs:2658-2726 | the same between two states with nothing else going on |
| SwapRoute.ComposeRoute | src/routes.rs:2699-2740 | the in-place edits and the chaining yield the composed route, or the fee that is too high |
| SwapRoute.ComposedHops | src/routes.rs:2695-2726 | hop by hop: composing changes the RGB of a leg's hops, the fee into the joint and the flag out of it, and nothing else |
| SwapRoute.OverpaymentIsTotalFee | src/routes.rs:2728-2734 | what the maker sends above the first leg's value is the rev/skip/sum fold |
| SwapRoute.NodesKeepTheirFees | src/routes.rs:2702-2708 | each intermediate node keeps its fee, the taker exactly the difference of the legs |
| SwapRoute.CheckIsExact | src/ldk.rs:1311-1346 | for every offer the parser accepts, the three-case check passes exactly the HTLCs that realise the agreed legs |
| SwapRoute.CheckSoundIffPriced | src/ldk.rs:1322-1333 | among offers of different assets, the check is sound exactly if it is not a sale for zero BTC |
| SwapRoute.GivesOnlyAgreedIff | src/ldk.rs:1312-1368 | the taker gives nothing beyond the agreed legs exactly if the check passes, no RGB leaves with BTC given, and the contract named is the outgoing channel's |
| SwapRoute.CheckLetsMoreThrough | src/ldk.rs:1312-1368 | for every acceptable offer an HTLC passes the check that names any contract, with any amount when BTC is given |
| SwapRoute.ComposedRoutePasses | src/routes.rs:2658-2740 | the composed HTLC passes the taker's check iff the BTC quantity does not wrap, and gives only what was agreed unless the router put RGB on the BTC leg; swap flag at the taker only; overpayment is the fee fold; leg values are 3000000 msat and the BTC quantity |
| SwapRoute.LargestQuantityFails | src/routes.rs:2666-2670 | at an offer of the largest BTC quantity the sum wraps and the taker refuses the composed HTLC |
| SwapRoute.SwapMsatBalance | src/routes.rs:2736-2740 | the maker pays all fees, less than the maximum, the taker none |
| SwapMachine.StepKeepsConsistent | src/ldk.rs:168-210 | every handler keeps time stamps fitting statuses and forwarded HTLCs agreed, even when it panics, and panics exactly in the listed cases |
| SwapMachine.RunsAreConsistent | src/ldk.rs:168-210 | the same at every step of every run with panics and restarts; unwraps of time stamps never fail and Waiting is never set back |
| SwapMachine.OwnOfferPanics | src/routes.rs:2641-2645 | a run in which this node executes its own offer and panics for want of forwarding information |
| SwapMachine.InitStores | src/routes.rs:2807-2865 | what making an offer stores, field by field, and when it is refused |
| SwapMachine.TakenStores | src/routes.rs:3710-3731 | what taking an offer stores, and when it is refused |
| SwapMachine.ExecutedBecomes | src/routes.rs:2613-2798 | what becomes of an own swap that is executed: expired, pending, failed or unchanged, with its time stamps, and when; nothing else changes |
| SwapMachine.ClaimedOrSentSucceeds | src/ldk.rs:873-895 | a claimed or sent maker swap succeeds and has completed now; nothing else changes |
| SwapMachine.FailedFails | src/ldk.rs:956-988 | a maker swap whose payment fails has failed and completed now; nothing else changes |
| SwapMachine.ForwardedSucceeds | src/ldk.rs:1029-1031 | a forwarded taker swap succeeds and has completed now; nothing else changes |
| SwapMachine.InterceptedBecomes | src/ldk.rs:1281-1371 | over the fields of the interception: the HTLC is forwarded as it came exactly if the amounts and the contracts of the channels it comes in and goes out by are as agreed; the swap is pending or failed from now on |
| SwapMachine.InterceptedElsewhere | src/ldk.rs:1258-1309 | without an offer, a channel or the early refusal taken, nothing changes |
| SwapMachine.ComposedIsForwarded | src/ldk.rs:1281-1371 | from the maker's route to the taker's decision: the composed HTLC, arriving over channels of the agreed assets, is forwarded iff the BTC quantity does not wrap |
| SwapMachine.ForwardsExactlyAgreedSwaps | src/ldk.rs:1258-1371 | an HTLC is forwarded exactly when the stored offer's legs are realised and everything the handler unwraps is there; else the swap fails |
| SwapMachine.ForwardsAgainAndAgain | src/ldk.rs:1298-1371 | every HTLC that realises a stored offer is forwarded, at any time, in any status and any number of times |
| SwapMachine.WriteBackOverwrites | src/routes.rs:2293-2299 | a success reported between the reading and the write-back of a query is overwritten by a failure |
| SwapMachine.SweepSettles | src/routes.rs:2284-2300 | sweeping a store leaves nothing overdue, changes only overdue swaps and is idempotent |
| SwapMachine.PendingLastsADay | src/routes.rs:2288-2292 | a pending swap is given 86400 seconds, to the second |
| SwapMachine.ListingSweeps | src/routes.rs:2278-2327 | after listing nothing stored is overdue; listing or asking again changes nothing |
| SwapMachine.GettingAgreesWithListing | src/routes.rs:2342-2386 | asking for one swap sweeps that one as listing would and no other |
| SwapHandlers.MakerInitSwap | src/routes.rs:2804-2851 | refuses same-asset and unfunded offers, else stores a waiting swap |
| SwapHandlers.TakeSwap | src/routes.rs:3703-3734 | refuses expired and unfunded offers, else stores a waiting swap |
| SwapHandlers.MakerExecuteSwap | src/routes.rs:2595-2802 | expiry, route hints, routes, fee and send outcome as one step; a route is sent exactly for a payable offer of its own, and it is the composed one |
| SwapHandlers.HandlePaymentClaimed | src/ldk.rs:871-885 | a maker swap succeeds, any other hash becomes an inbound payment; panics if the receiver is not named |
| SwapHandlers.HandlePaymentSent | src/ldk.rs:893-907 | a maker swap or an outbound payment succeeds; panics if neither is stored |
| SwapHandlers.HandlePaymentFailed | src/ldk.rs:956-990 | a maker swap or an outbound payment fails; panics if neither is stored |
| SwapHandlers.HandlePaymentForwarded | src/ldk.rs:1007-1031 | a taker swap succeeds; panics, before it touches the swap, if a channel is not named |
| SwapHandlers.HandleHtlcIntercepted | src/ldk.rs:1248-1371 | refuses an unflagged HTLC and goes on, looks up both channels, then forwards or fails as the machine does |
| SwapHandlers.FailsWhitelist | src/ldk.rs:1311-1346 | the three-case comparison rejects exactly what the check does not admit |
| SwapHandlers.MapSwap | src/routes.rs:2284-2313 | shows the current status and writes it back only if it changed |
| SwapHandlers.ListTakerSwaps | src/routes.rs:2316-2323 | iterating a snapshot in any order while updating the live map equals sweeping the map |
| SwapHandlers.ListMakerSwaps | src/routes.rs:2317-2327 | the same for the maker's swaps |
| SwapHandlers.ListAllSwaps | src/routes.rs:2278-2327 | both stores are swept and shown |
| SwapHandlers.GetOneSwap | src/routes.rs:2367-2386 | one swap is swept and shown, or not found |
| SwapHandlers.ShownIsStored | src/routes.rs:2301-2312 | what a query shows has the stored status, and is what is stored unless the swap was just swept |
| Stores.UnlockedAppState.Restart | src/disk.rs:158-224 | a restart is the identity on all five stores |
| Stores.UnlockedAppState.AddMakerSwap | src/ldk.rs:168-172 | inserts and saves |
| Stores.UnlockedAppState.UpdateMakerSwapStatus | src/ldk.rs:174-186 | status and time stamp, saved; panics on unknown swaps and Waiting |
| Stores.UnlockedAppState.AddTakerSwap | src/ldk.rs:192-196 | inserts and saves |
| Stores.UnlockedAppState.UpdateTakerSwapStatus | src/ldk.rs:198-210 | status and time stamp, saved; panics on unknown swaps and Waiting |
| Stores.UnlockedAppState.AddInboundPayment | src/ldk.rs:236-240 | inserts and saves |
| Stores.UnlockedAppState.UpsertInboundPayment | src/ldk.rs:299-331 | keeps amount and creation time of a known payment, saved |
| Stores.UnlockedAppState.AddOutboundPayment | src/ldk.rs:242-258 | adds only if absent or failed; memory and file agree on the early return too |
| Stores.UnlockedAppState.FailOutboundPendingPayments | src/ldk.rs:260-277 | reconciles the map; saves only on change yet file and memory agree |
| Stores.UnlockedAppState.UpdateOutboundPayment | src/ldk.rs:333-347 | status and preimage, saved |
| Stores.UnlockedAppState.UpdateOutboundPaymentStatus | src/ldk.rs:349-355 | status, saved |
| Stores.UnlockedAppState.AddChannelId | src/ldk.rs:361-371 | inserts and saves |
| Stores.UnlockedAppState.DeleteChannelId | src/ldk.rs:373-390 | removes one temporary id of the channel if there is one; file and memory agree either way |
| Payments.Send | src/routes.rs:3601-3645 | adding, sending and failing a payment as one step |
| Payments.SucceededIsAbsorbing | src/ldk.rs:242-355 | over every run with re-adds, replays and restarts a succeeded payment stays succeeded |
| Payments.ReaddedOnlyWhenFailed | src/ldk.rs:247-256 | a request replaces a stored payment only if it had failed |
| Payments.ReconciliationIsExact | src/ldk.rs:2204-2214 | startup fails exactly the pending payments the channel manager does not know |
| Payments.ReportsAreStored | src/ldk.rs:333-355 | a report changes status, time and, when sent, preimage of the payment it names, and nothing else |
| Funding.FundingVout | src/f1r3fly_rgb_adapter.rs:1271-1282 | the last of the largest outputs that are not OP_RETURN |
| Funding.FundingNode.SendBegin | src/f1r3fly_rgb_adapter.rs:1183-1205 | the slot records the contract and the amount of a fungible asset, or one of a unique asset |
| Funding.FundingNode.SendEnd | src/f1r3fly_rgb_adapter.rs:1212-1464 | the broadcast-gated sequence with a fate for each step |
| Funding.FundingNode.Open | src/routes.rs:2967-3172 | refuses while the lock is held, writes the slot, takes the lock, releases it on failure |
| Funding.FundingNode.HandleFundingGenerationReady | src/ldk.rs:647-802 | writes the slot again and keeps the transaction, also when a replay builds the same one |
| Funding.FundingNode.HandleChannelPending | src/ldk.rs:1137-1183 | completes or replays; the lock goes only on completion; an acceptor transfers nothing |
| Funding.OpeningBecomes | src/routes.rs:2967-3153 | lock, slot and channel after an opening, refused, failed or created; the slot holds what was asked for |
| Funding.GenerationBecomes | src/ldk.rs:647-802 | lock, slot, channel and kept transaction after a funding was generated, replayed or refused |
| Funding.BtcCompletes | src/ldk.rs:1150-1164 | a funding without RGB is broadcast and completes if that is reported |
| Funding.RgbCompletes | src/ldk.rs:1150-1164 | a funding with RGB frees the lock exactly if the attempt completes |
| Funding.AttemptEffects | src/f1r3fly_rgb_adapter.rs:1286-1464 | what one attempt can change: slot only on success, no second call, when the contract is called, what is locked |
| Funding.TransfersAreGated | src/f1r3fly_rgb_adapter.rs:1286-1308 | over every run: calls at most as often as accepted broadcasts; locked outputs stem from successful calls with the same amount |
| Funding.TransferredIffFollowedThrough | src/f1r3fly_rgb_adapter.rs:1286-1464 | for any failures and replays on any network the transfer is reported exactly if some accepted broadcast was followed through before the slot went |
| Funding.OneChanceOnly | src/f1r3fly_rgb_adapter.rs:1290-1303 | on a network that accepts a transaction once, only the attempt that was accepted can follow through |
| Funding.GateIsTight | src/f1r3fly_rgb_adapter.rs:1286-1440 | the bound on calls is reached for every number of acceptances, by transfers that could not be saved |
| Funding.CompletesIff | src/f1r3fly_rgb_adapter.rs:1226-1464 | a sequence of attempts completes iff the first that gets to remove the slot does not crash right after removing it |
| Funding.LostSlotIsStuck | src/f1r3fly_rgb_adapter.rs:1460-1461 | after such a crash and a restart every replay leaves the node as it is |
| Funding.SkippedTransfer | src/f1r3fly_rgb_adapter.rs:1296-1301 | a transfer that fails after the broadcast is skipped by the replay |
| Funding.StepKeepsExclusive | src/ldk.rs:1150-1164 | each step keeps the slot describing the channel being opened |
| Funding.CallsMatchTheirChannel | src/routes.rs:2967-3172 | while only the opening channel releases the lock, each call moves the contract and the amount asked for, one of a unique asset, of the channel it funds |
| Funding.FundingFromFresh | src/f1r3fly_rgb_adapter.rs:1286-1464 | both from a fresh node, over every run |
| Funding.ForeignReleaseMisdirects | src/ldk.rs:1164-1244 | after a release of the lock by any step that is not the own event of the channel underway, one more opening makes its completion move the other's transfer |
| Funding.ReplayTakesSlot | src/ldk.rs:1150-1164 | a replayed completion of another channel that the network accepts moves the transfer of the channel underway itself and leaves it stuck |
| Sweep.RgbOutputSpender.GroupByContract | src/ldk.rs:1418-1502 | the grouping loop; fails exactly if a coloured descriptor's witness fails |
| Sweep.GroupingGroups | src/ldk.rs:1462-1501 | one entry per contract, indices 0..n-1 in first-seen order, per-contract sums, recipients at outputs.len()+index |
| Sweep.SeenIsBrought | src/ldk.rs:1440-1446 | the contracts grouped are exactly those brought with a non-zero amount |
| Sweep.RecipientsDiffer | src/ldk.rs:1467-1487 | different contracts have different recipients |
| Sweep.NothingLostInGrouping | src/ldk.rs:1491-1497 | the entries together carry everything the descriptors bring |
| Sweep.ColoredIndexIsPosition | src/ldk.rs:1527-1536 | the coloured index is the recipient's position iff the caller has no outputs of its own |
| Sweep.ColoredAsTransferred | src/ldk.rs:1492-1536 | a coloured transaction carries exactly the contracts of which something was transferred, each with all that was |
| Sweep.ColoredCompletely | src/ldk.rs:1483-1536 | indices 0..n-1 without a gap, one output of 546 sat each, and together everything transferred |
| Sweep.ColoredByFirstOccurrence | src/ldk.rs:1466-1501 | the indices follow the first occurrence of the contracts |
| Sweep.RgbOutputSpender.PostConsignments | src/ldk.rs:1569-1602 | posts one consignment per contract, to its recipient, at index plus one; fails iff a task dies, and drops an error that posting returns |
| Sweep.PostedExactly | src/ldk.rs:1588-1601 | a kept transaction has exactly those consignments posted whose posting returned no error |
| Sweep.RgbOutputSpender.SpendSpendableOutputs | src/ldk.rs:1402-1611 | memoised transactions come back unchanged and post nothing; a new one carries a grouping, is kept in memory and on disk, and has exactly the error-free consignments posted, to new recipients |
| Sweep.RgbOutputSpender.SweepAgain | src/ldk.rs:1411-1417 | the same descriptors give the same coloured transaction, across restarts, another sweep and whatever changed; what was not posted at first stays so |
| Hex.HexStr | src/utils.rs:273-279 | prints the two digits of every byte |
| Hex.HexStrToVec | src/utils.rs:289-308 | the shift-register loop decodes pairs of digits, drops an odd one, refuses anything else |
| Hex.DecodedEncoded | src/utils.rs:273-308 | decoding inverts encoding for all byte strings |
| Hex.EncodedDecoded | src/utils.rs:289-308 | encoding inverts decoding up to case and an odd last digit |
| Hex.ValueIs | src/utils.rs:295-300 | the digits of both cases and no other character have a value, that of their position |
| Decimal.ParsedPrinted | src/swap.rs:159-163 | a printed number parses to itself exactly if it fits in 64 bits |
| Decimal.ParsedForms | src/swap.rs:159-163 | one plus sign and leading zeros are accepted, and otherwise only digits |
| SwapStrings.FromStr | src/swap.rs:135-203 | parsed offers have positive quantities and expiry and different assets |
| SwapStrings.AcceptedIff | src/swap.rs:135-203 | a string is accepted as a swap iff it is six texts that spell it, with five slashes between them and none in them |
| SwapStrings.WrongPartsIff | src/swap.rs:144-146 | any other number of slashes is refused as such, before anything is read |
| SwapStrings.UnreadableIff | src/swap.rs:165-173 | one of six texts that names nothing makes the string unreadable |
| SwapStrings.FromStrOfDisplay | src/swap.rs:111-203 | what parsing a printed swap gives, errors included |
| SwapStrings.RoundTrip | src/swap.rs:111-203 | the round trip holds exactly for acceptable offers |
| SwapStrings.ParsePrintParse | src/swap.rs:135-203 | parse, print, parse equals parse for every accepted string |
| SwapStrings.DisplayIsInjective | src/swap.rs:111-130 | different acceptable offers print differently |
| Backup.EncryptFile | src/backup.rs:278-319 | the chunk loop; fails exactly if the counter runs out |
| Backup.DecryptFile | src/backup.rs:321-359 | the chunk loop on any bytes |
| Backup.DecryptedIff | src/backup.rs:338-355 | any bytes decrypt iff their full chunks leave the last counter free, each opens under its own counter and the rest as the last; they decrypt to the openings in order |
| Backup.EmptyReadIff | src/backup.rs:345-346 | decryption ends on an empty read iff there are full chunks only |
| Backup.EncryptedChunk | src/backup.rs:300-305 | full chunk k is sealed under counter k, not as the last |
| Backup.EncryptedLast | src/backup.rs:306-311 | what is left over, even nothing, is sealed under the next counter, as the last |
| Backup.CiphertextLength | src/backup.rs:19-20 | n + 16*(n/239+1) bytes |
| Backup.DecryptedEncrypted | src/backup.rs:298-355 | decryption returns the plaintext, exactly if its chunks leave the last counter free, and never ends on an empty read |
| PeerFiles.PeerFile.Persist | src/disk.rs:75-107 | drops the key's line, appends the new one |
| PeerFiles.PeerFile.Delete | src/disk.rs:109-123 | drops the lines that start with the text |
| PeerFiles.PeerFile.ReadPeers | src/disk.rs:125-143 | inserts each parsed line, stops at the first error |
| PeerFiles.ReadsIff | src/disk.rs:125-143 | any file reads iff each line names a key with an address |
| PeerFiles.ReadsLastLine | src/disk.rs:125-143 | a key has the address of its last line, and is there iff a line names it |
| PeerFiles.ReadErrorIs | src/disk.rs:138-140 | the first line that names none ends the reading with its error |
| PeerFiles.KeptIs | src/disk.rs:81-85 | any lines that start with the text, once trimmed, go; the others stay, trimmed and in order |
| PeerFiles.ParsedPeerIs | src/utils.rs:323-349 | key and address of any text, and which error comes first |
| PeerFiles.ParsedKeyIff | src/utils.rs:281-287 | a key is 66 digits of either case that decode to a valid one |
| PeerFiles.LineParses | src/utils.rs:323-349 | a written line parses to its key and address |
| PeerFiles.PersistHeld | src/disk.rs:80-101 | persisting refines a map update, through the empty-file cases |
| PeerFiles.DeleteHeld | src/disk.rs:110-121 | deleting by the key as printed refines a map removal |
| PeerFiles.DeleteByText | src/routes.rs:1598-1618 | deleting by any text that names a key removes its entry iff the text is the key as printed, and no other entry |
| PeerFiles.FileRefinesMap | src/disk.rs:75-143 | any sequence of operations, deletions by any text included, reads back as the map it stands for, one line per key, no blank line |
| Revocation.AuthState.RevokeToken | src/auth.rs:190-243 | revokes in memory, then replaces the file with one hexadecimal line per identifier |
| Revocation.AuthState.IsTokenRevoked | src/auth.rs:245-249 | refused iff an identifier is shared |
| Revocation.AuthState.LoadRevokedTokens | src/auth.rs:255-311 | skips blank lines and comments, fails on anything not hexadecimal |
| Revocation.LoadedIff | src/auth.rs:277-309 | any file loads iff each line is blank, a comment or hexadecimal, as the identifiers of the latter |
| Revocation.LoadInvertsBody | src/auth.rs:190-311 | printing in any order and loading is the identity on non-empty identifiers |
| Revocation.RevocationsLast | src/auth.rs:190-311 | over every run of revocations and restarts every token sharing a revoked non-empty identifier is refused |
| Balances.AssetBalance | src/routes.rs:1279-1295 | the sums of one contract |
| Balances.AmountsAre | src/routes.rs:1291-1294 | outbound adds up what is local, inbound what is remote, of that contract only |
| Balances.OffchainBalances | src/routes.rs:1983-2003 | the one-pass grouped totals equal, for each contract, its own sums |
| Balances.MaxLocalRgbAmount | src/utils.rs:393-410 | the largest local amount of the contract |
| Balances.LockedUtxos.Track | src/f1r3fly_rgb_adapter.rs:2712-2753 | inserts or replaces the entry |
| Balances.LockedUtxos.Release | src/f1r3fly_rgb_adapter.rs:2756-2784 | removes the entry, or nothing |
| Balances.LockedUtxos.GetLockedAmount | src/f1r3fly_rgb_adapter.rs:2787-2819 | the scan in any order gives the contract's total |
| Balances.TotalWithout | src/f1r3fly_rgb_adapter.rs:2801-2815 | the total does not depend on the order of the entries |
| Balances.LockedIsStillTracked | src/f1r3fly_rgb_adapter.rs:2712-2819 | after any operations the total is what is tracked and neither released nor replaced since |

## Left out

- Ledger.NodeLedger.UpdateRgbChannelAmount: amounts are unbounded integers; whether the other crate's 64-bit subtraction can underflow depends on which HTLCs the Lightning library admits, and is not part of this model.
- Ledger.NodeLedger.UpdateForPayment: a directory entry is its channel, hash and record; that a hash could straddle the channel id and the hash in a file name is not modelled.
- Multi-path RGB payments, re-delivered payment events and closing channels in the ledger: one HTLC per hop, each event once, channels stay open.
- SwapRoute.Composed: fees are unbounded integers, since the router bounds every route's fees far below 64 bits; the additions to the quantities, which come from the offer, do wrap.
- SwapHandlers.HandleHtlcIntercepted: what the channel manager answers to a decision is an input; that it takes only one per HTLC is not part of this model.
- SwapMachine.Panics: failing file operations, which the code unwraps everywhere, and arithmetic overflow in a debug build are not among its cases.
- SwapHandlers.ListAllSwaps: one reading of the clock per call, where the code reads it several times.
- Sweep.RgbOutputSpender.PostConsignments: a posting task that dies is taken to have posted nothing.
- Mutexes poisoned by a panic: after a panic the node is taken to restart from its files.
- Funding.FundingNode.HandleChannelPending: the asset an acceptor saves from the consignment.
- Terminal swap statuses are not absorbing in the code and nothing here claims they are.
- Funding.Schema: the fourth asset schema, on which opening a channel stops with a panic.
- Funding.FundingNode.HandleFundingGenerationReady: building and signing the transaction cannot fail here; in the code such a failure is a panic.
- The witness ids claimed when a channel closes: they agree with the funding's only if the funding output is the largest.
- Sweep.RgbOutputSpender.SpendSpendableOutputs: colouring, signing and the transaction itself are abstract; a collision of the 64-bit hash of two descriptor lists is possible here as in the code.
- Revocation.AuthState.RevokeToken: concurrent revocations, whose file writes may be reordered, are not modelled.
- PeerFiles.PeerFile.Delete: texts that name a key are hexadecimal ones of 66 digits or more; other texts are refused before.
- Balances.OffchainBalances: sums are unbounded integers.
- Truncation of a backup at a chunk boundary, which the decryptor accepts.
- HTTP routing, logging, argument parsing, network services, key derivation, archives, and the exclusion between lock and unlock.
