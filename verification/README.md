# The money core of the platform, modelled and proved

The model takes the platform's tables as one database value and every transaction body as one step on it. It covers the wallet
ledger and its reservations, policy limits, the P2P allocation protocol, direct withdrawals and deposits, spot trades, physical
custody movements, and remittances with multi-leg groups that settle earlier remittances.

## How the project is laid out

- `Base`, `Sums`: identifiers, results, and sums over tables.
- `Policy`: the rule selector, as pure functions.
- `Accounts`, `Limits`: reservations, counters and postings as functions on values, with what each operation does to the books
  of its own reference and to nothing else (`Effect`, `QuotaEffect`).
- `State`: the tables and the invariant `Inv`. Everything that carries the reference of a request, on the wallet and on the limits,
  is what the request's status implies (`Explained`); totals of P2P requests are sums over allocations; settlement links stay
  within their bounds; balances come to what came in from outside and has not gone out.
- `Frames`: what a transaction on one reference leaves alone, and what no transaction takes back.
- `Withdrawals`, `Deposits`, `Trades`, `Custody`, `Remittances`, `P2P`: each transaction body as a function from database to database,
  or to the exception it throws, with proofs that it keeps `Inv` (`P2PInvariant` holds those for `P2P`).
- `P2PProtocol`: evidence, final states, offered actions and the expiry sweep of P2P allocations. `Files`: deleting a stored file, and
  the proofs it stood for.
- `Machine`, `Runs`, `Caps`, `Guarantee`: the platform as a state machine, and what holds over every run.
- `Records`, `Asked`, `Receipts`, `Groups`, `Decisions`: the same in the words of the requests. The row that a request makes and what later
  steps may write of it; what it then pays, over any run, in its own arguments; which postings its row points at; groups by their legs; which
  decisions each status allows. They say nothing through the functions that compute these.
- `Proofs`: proofs of payment over every run, with files deleted in between.
- `Fineness`: what a custody request of negative fineness does to promises and limits.
- `Interleaving`: reservations, their settlement and postings as concurrent transactions, statement by statement; `TotalsRace`: the
  stored totals of P2P requests, `SettlementRace`: groups that settle the same remittances, `DepositRace`: the decisions on one deposit,
  each under concurrent transactions. `Alone`: run alone, these do what the functions of the services do.
- `Store`, `AccountsService`, `LimitsService`, `WithdrawalsService`, `DepositsService`, `TradesService`, `CustodyService`,
  `RemittancesService`, `P2PService`, `FilesService`: the same transactions as imperative code that rewrites the tables in place, with the source's
  loops, running totals and early exits; each is proved equal to its function, and to change nothing when it throws.

Money is an integer number of minor units. Account creation, fresh identifiers, the idempotency keys of create requests and the
rollback of a failing transaction are modelled; clocks, resolved policy limits, file lookups and destination lookups are parameters of the steps.

## What came out

These are places where the code does not do what one would expect, each with the exact condition under which it does.

- A custody request does not check the sign of the fineness. A movement out whose weight comes out negative lends out what is not
  there: a later movement out is accepted that can never be approved. In either direction it also lets the limits be exceeded. From any
  sound state, promises and limits hold over everything that may follow exactly when the weight does not come out negative, that is when
  gross weight times fineness is above -375, or the request makes nothing new (`Fineness.PromiseKeptIff`, `Fineness.CapsHoldIff`); two
  runs of three requests from an empty platform show it (`Fineness.NothingToGive`, `Fineness.FiveExceeded`). It is the only step of the
  state machine that can break the invariant.
- A P2P deposit of nothing, or less, keeps the status it was created with, though its totals say it is settled: the stored status is
  the derived one exactly when the amount is positive (`P2PProtocol.DepositStatusIff`, `P2PProtocol.DepositOfNothing`).
- A trade of the house with itself, or of IRR for IRR, can never be reversed, because of the unique index on postings
  (`Trades.ReverseSucceedsIff`).
- A pending remittance that a group settles, even in part, can be neither approved, rejected nor cancelled any more, and its funds
  stay reserved for ever (`Runs.PendingStranded`).
- In the modes that take confirmations by timestamp, settling is offered on an allocation that was confirmed and then cancelled, and
  refused (`P2PProtocol.FinalizeOffered`, `P2PProtocol.CancelledStillOffered`). In receiver mode an allocation the administrator
  verified never settles, whatever happens afterwards (`P2PProtocol.VerifiedNotFinalizable`, `Runs.VerifiedStuck`).
- The one instant at which an assigned allocation takes no proof and is not overdue is its expiry time (`P2PProtocol.AtExpiry`).
- A group rule that names no group matches a user who is in none, but the query that loads the rules does not return it
  (`Policy.UngroupedRule`). The loaded rules select what all rules select exactly when the user is in a group, or has an eligible rule of
  their own, or there is no eligible rule of that kind (`Policy.LoadingSelects`); for the level of KYC reported, `Policy.LoadingRequires`
  gives the condition.
- Releasing and consuming a reservation read it before they lock the account. Two of them on one held reservation stay serial exactly
  when both callers hold the row of the request, which all callers in the platform do (`Interleaving.SerialIffExclusive`); otherwise the
  amount can be unblocked twice (`Interleaving.UnguardedRace`).
- Settling, cancelling and expiring an allocation read the totals of its two requests before they lock them. Two such transactions on
  allocations of one withdrawal, or of one deposit, that move the same total can lose one of the two updates: the totals are right after
  every interleaving exactly when transactions that share a total all read it after locking it, as assigning does
  (`TotalsRace.TotalsKeptIff`, `TotalsRace.UpdateLost`).
- Cancelling a deposit reads it without locking it, and writes what that reading called for. Between a cancellation and an approval of one
  pending deposit, the deposit can end up cancelled with its credit posted. Its postings agree with its status after every interleaving
  exactly when it is not pending any more, or nobody approves it, or whoever cancels locks it first (`DepositRace.PostingsAgreeIff`,
  `DepositRace.CancelledCredited`).
- A group reads the remittances it settles, and what is settled of them, without locking them. Two groups that share one can each find just
  enough left and together settle it beyond its amount: bounds and statuses are right after every interleaving exactly when groups that
  share a remittance all read it after locking it (`SettlementRace.BoundsKeptIff`, `SettlementRace.SettledTwice`).
- The limit of two proof submissions counts the files that are attached, and an administrator who deletes a file by force takes it out of
  that count. Over every run no more submissions succeed than two and one for each attachment dropped, so two when no file is deleted
  (`Proofs.SubmissionsBounded`); and for every number of attachments dropped there is a run from an empty platform in which that many do:
  with one file deleted, three (`Proofs.BoundMet`).
- Nothing looks at the proofs again once they were submitted: in every confirmation mode an allocation can settle with none left attached
  (`Proofs.SettledUnproved`). What does hold of every settled allocation is that proof was submitted and the mode's confirmations were
  given, and something is still attached exactly when not everything was dropped (`Proofs.SettledOnEvidence`).
- A quote is used up before the transaction that looks for an earlier trade, so a retry that comes with the same quote throws although its
  key is known; one that comes with a new quote finds the trade (`Runs.TradeReplays`). The lookup by quote never finds anything as long as
  the lock grants each quote once (`Runs.QuoteNeverFound`). A trade that is found again by its quote does not store the key it was asked for
  with, so the key alone does not find it later (`Trades.CreateSucceedsIff`).

## Model

| member | source | states |
|---|---|---|
| AccountsService.GetOrCreateAccount | src/modules/accounts/accounts.service.ts:60-92 | opens a missing account with zero figures, leaves an open one as it is, and returns its row |
| AccountsService.ReserveFunds | src/modules/accounts/accounts.service.ts:126-185 | the new wallet is the specified one: repeated reservations change nothing, released ones and too little usable capacity throw |
| AccountsService.ReleaseFunds | src/modules/accounts/accounts.service.ts:187-242 | releases a reserved reservation and unblocks its amount; nothing else of the database changes |
| AccountsService.ConsumeFunds | src/modules/accounts/accounts.service.ts:244-297 | consumes a reserved reservation and unblocks its amount; a released one throws |
| AccountsService.ApplyTransaction | src/modules/accounts/accounts.service.ts:299-377 | posts a delta that leaves blocked and minimum balance covered, refuses a second posting on the same side of an account under one reference |
| Accounts.PostAllIff | src/modules/accounts/accounts.service.ts:299-377 | a series of postings goes through one after the other exactly when all of them are payable at once |
| Accounts.ReservationPays | src/modules/accounts/accounts.service.ts:277-292 | in a sound wallet a held reservation can be consumed and its amount debited, and exactly that is posted and changed |
| Accounts.TransferPays | src/modules/accounts/accounts.service.ts:277-364 | a transfer of held funds never fails, not even to the sender's own account, and posts one debit and one equal credit |
| Accounts.SplitHoldEffect | src/modules/p2p-allocations/p2p-allocations.service.ts:2016-2041 | cutting a slice off a reservation keeps the account row and every blocked balance right, and touches no third reference |
| Accounts.MergeHoldEffect | src/modules/p2p-allocations/p2p-allocations.service.ts:2070-2090 | joining a slice again restores the whole reservation, keeps blocked balances right, and touches no third reference |
| Guarantee.ReservationHonoured | src/modules/accounts/accounts.service.ts:160-181 | once funds are reserved, any operations under other references may come in between: consuming and debiting still succeeds |
| Guarantee.GuardsNeverFire | src/modules/accounts/accounts.service.ts:222-225 | the guards against a negative blocked balance never fire |
| Guarantee.WithdrawalFates | src/modules/withdrawals/withdrawals.service.ts:295-495 | a direct withdrawal is pending, approved, or rejected or cancelled exactly when all its reservations are reserved, consumed, or released |
| Guarantee.TradeFates | src/modules/trades/trades.service.ts:451-980 | the same for trades, a reversed one keeping its reservations consumed |
| Guarantee.MovementFates | src/modules/physical-custody/physical-custody.service.ts:168-345 | the same for custody movements |
| Guarantee.PostedByStatus | src/modules/deposits/deposits.service.ts:177-345 | a withdrawal has posted its amount exactly when approved; a deposit nets its amount when approved and nothing otherwise, reversed included |
| Guarantee.WithdrawalCharged | src/modules/withdrawals/withdrawals.service.ts:150-176 | the limit reservations of a withdrawal sit on exactly the usages of its user for withdrawals, on its day and in its month, with what is not assigned of it; those of a live allocation on the same, with its amount |
| Guarantee.TradeCharged | src/modules/trades/trades.service.ts:178-322 | those of a trade on exactly the usages of its side, by its total, and by its quantity where its product has a metric |
| Guarantee.MovementCharged | src/modules/physical-custody/physical-custody.service.ts:118-151 | those of a movement on exactly the usages of its direction, by its pure weight |
| Guarantee.RemittanceCharged | src/modules/remittances/remittances.service.ts:268-294 | those of a remittance made on its own on exactly the usages of its sender and instrument, by its amount |
| LimitsService.Reserve | src/modules/policy/limits.service.ts:32-153 | refuses without KYC or over the limit, before it looks for an earlier reservation; otherwise reserves once per reference and usage |
| LimitsService.Consume | src/modules/policy/limits.service.ts:155-185 | the loop over reservations, in any order, comes to consuming all that are not consumed |
| LimitsService.Release | src/modules/policy/limits.service.ts:187-216 | the loop, in any order, comes to releasing all that are reserved |
| Limits.ConsumeLimitEffect | src/modules/policy/limits.service.ts:155-185 | counters keep agreeing with reservations, provided nothing of the reference was released before |
| Limits.ReserveBothEffect | src/modules/policy/limits.service.ts:104-146 | day and month are charged, counters agree with reservations, and a repeated reservation stands as it was first made |
| Limits.ReserveBothIff | src/modules/policy/limits.service.ts:104-112 | a request is charged exactly when its day and its month both allow it as they stood before it |
| Limits.ChargedIff | src/modules/policy/limits.service.ts:32-112 | a request is charged exactly when every usage of its user, action, metric and scope, on its day and in its month, allows the amount; said without the keys that the model builds for them |
| Limits.ChargedExactly | src/modules/policy/limits.service.ts:53-146 | then each of these usages has the amount reserved, once, under the reference of the request, and no other counter or reservation changes |
| Limits.SplitLimitEffect | src/modules/p2p-allocations/p2p-allocations.service.ts:2043-2066 | slices are cut off all usages alike, and every counter stays right |
| Limits.MergeLimitEffect | src/modules/p2p-allocations/p2p-allocations.service.ts:2091-2109 | slices go back to the reservations they came from, and every counter stays right |
| Caps.StepCaps | src/modules/policy/limits.service.ts:104-216 | no step of the platform takes used plus reserved volume of a usage over a cap that bounds the limit resolved for it, if the step charges it at all |
| Caps.CapHolds | src/modules/policy/limits.service.ts:104-216 | if wherever a usage is charged the limit resolved for it is at most some cap, used plus reserved volume stays within it over every run |
| Caps.RulesCap | src/modules/policy/policy-resolution.service.ts:123-160 | rules that all stay below a cap resolve to a limit below it |
| Policy.ComparePreorder | src/modules/policy/policy-resolution.service.ts:227-241 | the comparison of rules is a total preorder, and ties exactly the rules that agree on all five keys; which way each key goes is `Policy.SelectedGoesFirst` |
| Policy.SelectedIsFirst | src/modules/policy/policy-resolution.service.ts:123-158 | sorting and taking the first yields the first, in the order of the list, of the least among the matching rules whose KYC level the user has, and one is found whenever there is one |
| Policy.SelectedGoesFirst | src/modules/policy/policy-resolution.service.ts:187-241 | in the fields alone: no rule that applies has a narrower scope than the selected one; at that scope none a narrower selector, at those none a smaller priority, 100 where none is given, at those none is updated later, and then none created later; its limit is what is resolved |
| Policy.ResolvePermuted | src/modules/policy/policy-resolution.service.ts:123-160 | permuting the rules changes the selection only between tied rules, and the required KYC level not at all |
| Policy.KycRequiredIsLeast | src/modules/policy/policy-resolution.service.ts:141-144 | the level reported is the least one at which more rules become eligible, and none is reported exactly when no level opens any |
| Policy.LoadingSelects | src/modules/policy/policy-resolution.service.ts:162-178 | the loaded rules select what all rules select exactly when the user is in a group, or a rule of the user's own is eligible, or no eligible group rule names no group |
| Policy.LoadingRequires | src/modules/policy/policy-resolution.service.ts:141-178 | and report the same KYC level exactly when the user is in a group, or every blocked group rule is matched in level by a blocked rule that is loaded |
| Policy.LoadedMayApply | src/modules/policy/policy-resolution.service.ts:162-185 | a rule is loaded exactly when some request of the user, of whatever product and level, has it as a candidate, but for group rules when the user is in no group |
| Policy.UngroupedRule | src/modules/policy/policy-resolution.service.ts:205-209 | the exception, on a concrete rule |
| WithdrawalsService.Create | src/modules/withdrawals/withdrawals.service.ts:75-203 | the transaction writes the specified state, or returns the request found under the idempotency key, or throws and changes nothing; every invariant holds on |
| WithdrawalsService.Approve | src/modules/withdrawals/withdrawals.service.ts:295-365 | the transaction writes the specified state, or throws and changes nothing; every invariant holds on |
| WithdrawalsService.Reject | src/modules/withdrawals/withdrawals.service.ts:367-405 | the same for rejection |
| WithdrawalsService.Cancel | src/modules/withdrawals/withdrawals.service.ts:456-495 | the same for cancellation, of pending and of rejected requests |
| Withdrawals.ApproveSucceeds | src/modules/withdrawals/withdrawals.service.ts:295-365 | approving a pending withdrawal never fails: its funds were reserved; it posts the amount and consumes all reservations |
| Withdrawals.CreateSucceedsIff | src/modules/withdrawals/withdrawals.service.ts:75-203 | a withdrawal is accepted exactly when its amount is positive and its key is known, or it can be spared, fits day and month, and has a destination where it needs one; a new one is then held, a known one reserves nothing |
| Withdrawals.CreateKeepsInv | src/modules/withdrawals/withdrawals.service.ts:75-203 | a created withdrawal keeps every invariant and touches no other request's books |
| Withdrawals.ApproveKeepsInv | src/modules/withdrawals/withdrawals.service.ts:295-365 | so does an approval, however often it is asked for |
| Withdrawals.RejectKeepsInv | src/modules/withdrawals/withdrawals.service.ts:367-405 | so does a rejection |
| Withdrawals.CancelKeepsInv | src/modules/withdrawals/withdrawals.service.ts:456-495 | so does a cancellation, also after a rejection, which released everything before |
| Records.NewWithdrawal | src/modules/withdrawals/withdrawals.service.ts:131-148 | a new withdrawal has a row of the user, amount, purpose and day asked for, waiting for assignment if it is P2P and pending if not; no other row changes |
| Records.WithdrawalRejected | src/modules/withdrawals/withdrawals.service.ts:367-405 | a rejection that goes through leaves the withdrawal rejected, and nothing else about any row changes but by the statuses allowed |
| Records.WithdrawalCancelled | src/modules/withdrawals/withdrawals.service.ts:456-495 | a cancellation leaves it cancelled where it was pending or rejected, and as it was otherwise |
| Decisions.OnWithdrawal | src/modules/withdrawals/withdrawals.service.ts:295-495 | by status, when approving, rejecting and cancelling go through, when they change nothing, and when they are refused |
| Asked.WithdrawalPays | src/modules/withdrawals/withdrawals.service.ts:75-365 | a new direct withdrawal, whatever happens afterwards, keeps its terms; it has debited its user by the amount asked for exactly once it is approved, and posted nothing otherwise |
| Receipts.WithdrawalNamed | src/modules/withdrawals/withdrawals.service.ts:333-358 | the posting that an approved withdrawal points at is its debit, for good |
| DepositsService.Approve | src/modules/deposits/deposits.service.ts:177-233 | the transaction writes the specified state, or throws and changes nothing; every invariant holds on |
| DepositsService.Cancel | src/modules/deposits/deposits.service.ts:307-355 | the same for cancellation and reversal, taken as one transaction after the other |
| Records.NewDeposit | src/modules/deposits/deposits.service.ts:55-86 | a new deposit has a row of the user, amount and purpose asked for, with all of it remaining if it is P2P |
| Records.DepositRejected | src/modules/deposits/deposits.service.ts:235-263 | a rejection leaves the deposit rejected |
| Records.DepositCancelled | src/modules/deposits/deposits.service.ts:307-355 | a cancellation leaves it cancelled where it was pending or rejected, reversed where it was approved, and as it was otherwise |
| Decisions.OnDeposit | src/modules/deposits/deposits.service.ts:177-355 | by status, when the decisions on a deposit go through, when they change nothing, and when they are refused |
| Asked.DepositPays | src/modules/deposits/deposits.service.ts:55-345 | a new direct deposit keeps its terms over every run, and nets its amount on the account of its user exactly while it is approved |
| Receipts.DepositNamed | src/modules/deposits/deposits.service.ts:203-225 | the posting that an approved deposit points at is its credit, for good |
| DepositRace.CancelledCredited | src/modules/deposits/deposits.service.ts:308-321 | a cancellation that has read a pending deposit, and an approval before it writes: the deposit is cancelled and its credit stays |
| DepositRace.PostingsAgreeIff | src/modules/deposits/deposits.service.ts:177-345 | postings agree with the status after every interleaving of decisions on a deposit exactly when it is not pending, or nobody approves, or whoever cancels locks it before reading it |
| Alone.DepositAlone | src/modules/deposits/deposits.service.ts:177-345 | the concurrent model of a decision, run alone from its first statement to its last, leaves the row and postings that the transaction leaves |
| Deposits.ApproveKeepsInv | src/modules/deposits/deposits.service.ts:177-233 | an approval posts once, keeps every invariant and touches no other request's books |
| Deposits.ReverseKeepsInv | src/modules/deposits/deposits.service.ts:325-345 | an approved deposit can be cancelled exactly when its account can give the amount back, and then every invariant holds on |
| TradesService.CreateWithQuoteLock | src/modules/trades/trades.service.ts:86-215 | throws what the quote lock throws before anything is looked up, then on a mismatch of sides; with a granted quote it does what the transaction does; every invariant holds on |
| TradesService.Create | src/modules/trades/trades.service.ts:127-215 | the transaction, which runs only with a quote that was granted: it writes the specified state, or returns the trade found under the key or the quote, or throws and changes nothing |
| TradesService.Approve | src/modules/trades/trades.service.ts:451-632 | the same for approval, with its four postings in order: state written or nothing changed, invariants kept |
| TradesService.Cancel | src/modules/trades/trades.service.ts:876-924 | the same for cancellation |
| TradesService.Reject | src/modules/trades/trades.service.ts:1029-1073 | the same for rejection |
| TradesService.Reverse | src/modules/trades/trades.service.ts:926-980 | the same for reversal, with its loop over the postings of the trade |
| Trades.CreateSucceedsIff | src/modules/trades/trades.service.ts:127-353 | with a quote that was granted, a trade is accepted exactly when quantity and price are positive and its key or its quote is known, or up to four limits allow it and what is to be given can be spared: total to buy, quantity to sell; that much is then held, and nothing for a known one; the row is `Records.NewTrade` |
| Records.NewTrade | src/modules/trades/trades.service.ts:145-176 | a new trade has a row of the client, instrument, side and quantity asked for and of quantity times price, with the metric and product of the quote, pending |
| Asked.TradePays | src/modules/trades/trades.service.ts:86-618 | asked for with a granted quote and approved at any later time, a trade has moved the quantity asked for of the instrument of the quote against quantity times its price, between client and house; not approved, nothing |
| Records.TradeRejected | src/modules/trades/trades.service.ts:1029-1073 | a rejection leaves the trade rejected |
| Records.TradeCancelled | src/modules/trades/trades.service.ts:876-924 | a cancellation leaves it cancelled |
| Decisions.OnTrade | src/modules/trades/trades.service.ts:451-980 | by status, when the decisions on a trade go through, when they change nothing, and when they are refused |
| Trades.ApprovedNets | src/modules/trades/trades.service.ts:475-618 | on every account an approved trade nets what it moves between client and house: its total one way, its quantity the other, both on one account for IRR, nothing for the house with itself |
| Trades.ApproveSucceedsIff | src/modules/trades/trades.service.ts:451-618 | approving a pending trade succeeds exactly when the house can give its side; the client's side never fails |
| Trades.ApproveKeepsInv | src/modules/trades/trades.service.ts:451-618 | it keeps every invariant and the total of every instrument, also when accounts coincide |
| Trades.CreateKeepsInv | src/modules/trades/trades.service.ts:87-215 | creating a trade keeps every invariant, whichever usages its two limits fall on |
| Trades.DropKeepsInv | src/modules/trades/trades.service.ts:876-924 | rejecting or cancelling a pending trade keeps every invariant |
| Trades.ReverseSucceedsIff | src/modules/trades/trades.service.ts:926-975 | an approved trade can be reversed exactly when its four accounts differ and both receivers can give back |
| Trades.ReverseKeepsInv | src/modules/trades/trades.service.ts:926-975 | a reversal keeps every invariant and the total of every instrument |
| Trades.ReversalUndoes | src/modules/trades/trades.service.ts:926-975 | after a reversal the trade nets nothing on any account, and a second reversal changes nothing |
| CustodyService.Request | src/modules/physical-custody/physical-custody.service.ts:68-166 | the transaction writes the specified state, or returns the movement found under the key, or throws and changes nothing; every invariant holds on unless the weight comes out negative |
| CustodyService.Approve | src/modules/physical-custody/physical-custody.service.ts:168-250 | state written or nothing changed, invariants kept, for approval in both directions |
| CustodyService.Cancel | src/modules/physical-custody/physical-custody.service.ts:257-305 | the same for cancellation |
| CustodyService.Reject | src/modules/physical-custody/physical-custody.service.ts:307-345 | the same for rejection |
| Custody.RequestSucceedsIff | src/modules/physical-custody/physical-custody.service.ts:68-166 | a movement is accepted exactly when the gross weight is positive and its key is known, or day and month allow the pure weight (`Custody.EquivNearest`) and, going out, the gold can be spared |
| Custody.EquivNearest | src/modules/physical-custody/physical-custody.service.ts:51-55 | the pure weight is the whole number of units nearest to weight times fineness over 750, and a tie goes away from zero |
| Records.NewMovement | src/modules/physical-custody/physical-custody.service.ts:103-116 | a new movement has a row of the user and direction asked for, with that weight, pending |
| Asked.MovementPays | src/modules/physical-custody/physical-custody.service.ts:51-250 | once approved, whenever that is, it has moved the nearest pure weight of what was asked for between user and house, in the direction asked for; before, nothing |
| Records.MovementRejected | src/modules/physical-custody/physical-custody.service.ts:307-345 | a rejection leaves the movement rejected |
| Records.MovementCancelled | src/modules/physical-custody/physical-custody.service.ts:257-305 | a cancellation leaves it cancelled, or rejected where it was |
| Decisions.OnMovement | src/modules/physical-custody/physical-custody.service.ts:168-345 | by status, when the decisions on a movement go through, when they change nothing, and when they are refused |
| Custody.ApprovedNets | src/modules/physical-custody/physical-custody.service.ts:200-232 | on every account an approved movement nets its pure weight between user and house, in the right direction, and nothing for the house itself |
| Custody.RequestKeepsInv | src/modules/physical-custody/physical-custody.service.ts:51-166 | a request keeps the invariant exactly when it repeats an earlier one or its weight does not come out negative |
| Fineness.PromiseKeptIff | src/modules/physical-custody/physical-custody.service.ts:51-250 | after a movement out is requested, all pending movements out can be approved over every admissible run exactly when its weight does not come out negative, or it is not new |
| Fineness.CapsHoldIff | src/modules/physical-custody/physical-custody.service.ts:51-305 | after a request, whatever the limits and whatever follows, used plus reserved volume stays within them exactly when its weight does not come out negative, or it makes nothing new |
| Fineness.NothingToGive | src/modules/physical-custody/physical-custody.service.ts:51-250 | from an empty platform, three requests leave a pending movement out whose approval throws for lack of gold |
| Fineness.FiveExceeded | src/modules/physical-custody/physical-custody.service.ts:51-305 | from an empty platform, with a daily limit of five, three requests leave 1005 used and reserved |
| Custody.ApproveSucceedsIff | src/modules/physical-custody/physical-custody.service.ts:168-240 | approving a movement out never fails; one in succeeds exactly when the house has the gold, or is the user |
| Custody.ApproveKeepsInv | src/modules/physical-custody/physical-custody.service.ts:168-250 | approval keeps every invariant and the total of gold |
| Custody.DropKeepsInv | src/modules/physical-custody/physical-custody.service.ts:257-345 | a pending movement can always be cancelled or rejected, and every invariant holds on |
| RemittancesService.Create | src/modules/remittances/remittances.service.ts:212-310 | the transaction writes the specified state, or returns the remittance found under the key, or throws and changes nothing; every invariant holds on |
| RemittancesService.Approve | src/modules/remittances/remittances.service.ts:346-421 | state written or nothing changed, invariants kept, for approval |
| RemittancesService.Reject | src/modules/remittances/remittances.service.ts:423-465 | the same for rejection |
| RemittancesService.CancelByUser | src/modules/remittances/remittances.service.ts:467-509 | the same for cancellation by the sender |
| RemittancesService.CreateGroup | src/modules/remittances/remittances.service.ts:756-1087 | the same for groups: check of the totals, accounts, pending rows, postings, settlement |
| RemittancesService.Settle | src/modules/remittances/remittances.service.ts:978-1036 | the loop over its two maps of running totals decides and writes what the specification decides and writes |
| RemittancesService.FindOpenObligations | src/modules/remittances/remittances.service.ts:636-700 | returns the open rows of a user with what is settled and what remains |
| Remittances.CreateSucceedsIff | src/modules/remittances/remittances.service.ts:212-310 | a remittance is accepted exactly when it goes to somebody else, is positive, and its key is known, or it fits day and month and can be spared; a new one is then held |
| Records.NewRemittance | src/modules/remittances/remittances.service.ts:253-266 | a new remittance has a row of the sender, receiver, instrument and amount asked for, pending |
| Asked.RemittancePays | src/modules/remittances/remittances.service.ts:212-421 | once posted, whenever that is, it has moved the amount asked for from its sender to the receiver asked for; before, nothing |
| Records.CancelledBySender | src/modules/remittances/remittances.service.ts:467-509 | nobody but its sender cancels a remittance |
| Decisions.OnRemittance | src/modules/remittances/remittances.service.ts:346-509 | by status, when the decisions on a remittance go through, when they change nothing, and when they are refused, to other users as if there were none |
| Decisions.OthersChangeNothing | src/modules/remittances/remittances.service.ts:467-485 | as a step of the platform, cancelling a remittance by anybody but its sender changes nothing; nor do proof by anybody but the payer and an answer by anybody but the receiver |
| Remittances.PostedNets | src/modules/remittances/remittances.service.ts:375-415 | a posted remittance, single or in a group, has moved its amount from sender to receiver |
| Remittances.ApproveKeepsInv | src/modules/remittances/remittances.service.ts:346-421 | approving a pending remittance never fails, keeps every invariant and the total of its instrument |
| Remittances.SettleAllIff | src/modules/remittances/remittances.service.ts:978-1036 | the running checks accept exactly when amounts are positive, instruments match, each leg covers what it settles and each source what is settled of it; statuses are those of the sums |
| Remittances.SettleOrder | src/modules/remittances/remittances.service.ts:978-1036 | neither acceptance nor result depends on the order of the settlement inputs |
| Remittances.LegsKeepInv | src/modules/remittances/remittances.service.ts:885-950 | after the check of the totals no posting of a group fails, and every invariant holds after each leg |
| Remittances.CreateGroupSucceedsIff | src/modules/remittances/remittances.service.ts:756-1087 | a group is created exactly when its legs are good, affordable together, and settle no more than they may; then every invariant holds on, totals of instruments included |
| Groups.GroupAccepted | src/modules/remittances/remittances.service.ts:756-1087 | the same in the words of the legs: each is positive and for somebody else, all of an instrument fit what the sender can spare, each settles no more than its own amount, and what all of them settle of a source, in its instrument, fits what is left of it |
| Groups.GroupPays | src/modules/remittances/remittances.service.ts:870-955 | each leg leaves a row of its receiver, of whom it is on behalf of, and of its instrument and amount, and has moved that amount from the sender to that receiver |
| Groups.GroupLinks | src/modules/remittances/remittances.service.ts:978-1028 | links from a leg come to what the leg asks to settle, links into a source to what they were and what all legs ask |
| Groups.GroupSettles | src/modules/remittances/remittances.service.ts:1003-1035 | a remittance made before keeps everything but its status: completed when what is settled of it comes to its amount, partial when it comes to less, as it was when nothing more is |
| Remittances.LinksBounded | src/modules/remittances/remittances.service.ts:1003-1035 | with groups taken one after the other, links into a source and from a leg stay within their amounts; a linked source is completed exactly when the links cover it |
| Remittances.NoneSkipped | src/modules/remittances/remittances.service.ts:654-664 | with groups taken one after the other, the view of open obligations skips no pending or partial remittance, and what it reports as remaining is positive |
| SettlementRace.SettledTwice | src/modules/remittances/remittances.service.ts:960-1036 | two groups that share a source, of which one reads before it locks, can settle it beyond its amount |
| SettlementRace.BoundsKeptIff | src/modules/remittances/remittances.service.ts:960-1036 | from every sound table, links stay within amounts and statuses right after every interleaving exactly when groups that share a source all read it after locking it |
| Alone.GroupAlone | src/modules/remittances/remittances.service.ts:960-1036 | the concurrent model of a group, run alone, fits what it reads and leaves on the remittances made before the links and statuses that the transaction leaves |
| Runs.SettledStaysFrozen | src/modules/remittances/remittances.service.ts:1029-1035 | once something of a remittance is settled, nothing that carries its reference ever changes |
| Runs.PendingStranded | src/modules/remittances/remittances.service.ts:357-363 | a pending remittance that a group settles keeps its funds reserved for ever |
| P2PService.Assign | src/modules/p2p-allocations/p2p-allocations.service.ts:1088-1246 | assigns everything or nothing, with the loop's running totals and map of deposit figures; returns the new allocations, or those stored under the key |
| P2PService.SubmitProof | src/modules/p2p-allocations/p2p-allocations.service.ts:1329-1440 | writes the specified state, or throws the first failing check and changes nothing |
| P2PService.ReceiverConfirm | src/modules/p2p-allocations/p2p-allocations.service.ts:1509-1562 | the same for the receiver's answer |
| P2PService.AdminVerify | src/modules/p2p-allocations/p2p-allocations.service.ts:1564-1605 | the same for the administrator's |
| P2PService.Finalize | src/modules/p2p-allocations/p2p-allocations.service.ts:1607-1753 | the same for settlement |
| P2PService.Cancel | src/modules/p2p-allocations/p2p-allocations.service.ts:1756-1835 | the same for cancellation |
| P2PService.SplitReservationForAllocation | src/modules/p2p-allocations/p2p-allocations.service.ts:2016-2067 | the loop over limit reservations, in any order, cuts the slice off all of them; missing or insufficient funds throw |
| P2PService.MergeReservationBack | src/modules/p2p-allocations/p2p-allocations.service.ts:2070-2109 | the loop, in any order, gives the slice back everywhere and deletes it |
| P2PService.ExpireAllocations | src/modules/p2p-allocations/p2p-allocations.service.ts:1951-2014 | sweeps exactly the overdue allocations; from a sound state none is left, the count is their number, and the state is sound |
| P2PInvariant.AssignOneIff | src/modules/p2p-allocations/p2p-allocations.service.ts:1142-1180 | a slice is assigned exactly when the deposit is P2P and has room; the guards on the reservation it is cut from never fire; every invariant holds on |
| P2PInvariant.AssignSucceedsIff | src/modules/p2p-allocations/p2p-allocations.service.ts:1093-1246 | an assignment succeeds exactly when its items are there and positive, the requests P2P, their sum fits the withdrawal and each deposit's share, repeats included, fits the deposit; then one allocation per item is made |
| P2PInvariant.RequestAssigned | src/modules/p2p-allocations/p2p-allocations.service.ts:555-565 | what is assigned are the items of the request, or else its deposit before its candidate with its amount; and never without a destination to pay to |
| Asked.AllocationPays | src/modules/p2p-allocations/p2p-allocations.service.ts:1088-1745 | each item of an assignment makes an allocation of its amount between withdrawal and deposit; once that has settled, whenever that is, it has moved the amount from who asked for the payout to who asked for the deposit; before, nothing |
| P2PInvariant.AssignKeepsInv | src/modules/p2p-allocations/p2p-allocations.service.ts:1088-1246 | every invariant holds after an assignment |
| Runs.ReplayLater | src/modules/p2p-allocations/p2p-allocations.service.ts:1105-1113 | repeated under its key, after any further steps, an assignment returns the stored response and changes nothing |
| Runs.WithdrawalReplays | src/modules/withdrawals/withdrawals.service.ts:86-96 | repeated under its key, after any further steps and with any amount, a withdrawal request returns the earlier one and reserves nothing |
| Runs.TradeReplays | src/modules/trades/trades.service.ts:106-143 | a trade made under a key is found again under it, after any further steps, exactly when the retry comes with a quote that is granted, with the same side; with one that is refused, such as the one used before, it throws |
| Runs.QuoteReplays | src/modules/trades/trades.service.ts:145-151 | if the quote lock were to grant a quote twice, the transaction would still make one trade of it: under whatever key is not known, the earlier trade is returned |
| Runs.QuoteNeverFound | src/modules/trades/trades.service.ts:106-151 | as long as the lock grants each quote once, the lookup by quote finds nothing, over every run |
| Runs.FoundWasAsked | src/modules/trades/trades.service.ts:134-143 | over every run, a request is found only under a key or quote that an earlier request of the same user and service carried |
| Runs.MovementReplays | src/modules/physical-custody/physical-custody.service.ts:84-93 | the same as for withdrawals, for a custody movement |
| Runs.RemittanceReplays | src/modules/remittances/remittances.service.ts:242-251 | and for a remittance |
| P2PInvariant.UnassignedHeld | src/modules/p2p-allocations/p2p-allocations.service.ts:2016-2109 | what is not assigned of a P2P withdrawal is what its reservation holds, in funds and on day and month, and its status is the derived one, which `P2PProtocol.WithdrawalLabelled` spells out |
| P2PInvariant.SliceKnown | src/modules/p2p-allocations/p2p-allocations.service.ts:2016-2109 | a live allocation has a reserved slice of its amount, a settled one a consumed slice and one debit with one equal credit, a cancelled or expired one nothing |
| P2PProtocol.HeldIsUnsettled | src/modules/p2p-allocations/p2p-allocations.service.ts:2016-2109 | all funds still held for a P2P withdrawal come to its amount less what has settled |
| P2PInvariant.TotalsOrdered | src/modules/p2p-allocations/p2p-allocations.service.ts:1717-1739 | settled is at most assigned, assigned at most the amount, and a deposit's remaining amount is what is not assigned |
| P2PInvariant.TotalsMoved | src/modules/p2p-allocations/p2p-allocations.service.ts:1192-1224 | stored totals and statuses of both requests stay the sums over allocations, whatever one allocation does; what each status says is `P2PProtocol.WithdrawalLabelled` and `P2PProtocol.DepositLabelled` |
| P2PProtocol.WithdrawalLabelled | src/modules/p2p-allocations/p2p-status.util.ts:32-51 | each status of a P2P withdrawal says in amounts what its allocations have assigned and settled: settled all, some of it, or none with all, some or nothing assigned |
| P2PProtocol.DepositLabelled | src/modules/p2p-allocations/p2p-status.util.ts:53-72 | and so does each status of a P2P deposit of a positive amount |
| P2PProtocol.DepositStatusIff | src/modules/p2p-allocations/p2p-status.util.ts:53-72 | a deposit's status is the derived one exactly when its amount is positive |
| P2PProtocol.DepositOfNothing | src/modules/deposits/deposits.service.ts:55-86 | a deposit created with an amount of zero or less waits for assignment, though its totals say it is settled |
| P2PInvariant.FinalizeSucceedsIff | src/modules/p2p-allocations/p2p-allocations.service.ts:1618-1715 | settling succeeds exactly when the allocation is settled already or live and confirmed as the mode demands: funds never lack |
| P2PProtocol.FinalizeAccepted | src/modules/p2p-allocations/p2p-allocations.service.ts:155-193 | the same spelled out mode by mode |
| P2PProtocol.FinalizeRefused | src/modules/p2p-allocations/p2p-allocations.service.ts:1632-1656 | what refuses one that cannot settle: its status, then its expiry while nothing was submitted, then the want of confirmations |
| P2PProtocol.ConfirmedSettles | src/modules/p2p-allocations/p2p-allocations.service.ts:155-193 | where one confirmation is enough, the confirmation makes the allocation settle at once |
| P2PProtocol.DecisionRecorded | src/modules/p2p-allocations/p2p-allocations.service.ts:1607-1835 | settling leaves an allocation settled; cancelling leaves it cancelled, or expired where it was |
| Receipts.SettlementNamed | src/modules/p2p-allocations/p2p-allocations.service.ts:1683-1715 | the postings that a settled allocation points at are the debit of the receiver and the credit of the payer, each of its amount, for good |
| P2PInvariant.FinalizeKeepsInv | src/modules/p2p-allocations/p2p-allocations.service.ts:1607-1753 | settling keeps every invariant and the total of IRR, also when payer and receiver are one |
| P2PInvariant.SettledNets | src/modules/p2p-allocations/p2p-allocations.service.ts:1677-1705 | a settled allocation has moved its amount from the receiver of the payout to its payer, and nothing when they are one |
| P2PInvariant.FinalizeOnce | src/modules/p2p-allocations/p2p-allocations.service.ts:1618-1664 | settling again posts nothing and changes nothing |
| P2PInvariant.CancelKeepsInv | src/modules/p2p-allocations/p2p-allocations.service.ts:1756-1818 | cancelling, disputed allocations included, keeps every invariant |
| P2PInvariant.ExpireOneKeepsInv | src/modules/p2p-allocations/p2p-allocations.service.ts:1965-2010 | one transaction of the sweep keeps every invariant, whatever happened since the selection |
| P2PProtocol.Sweep | src/modules/p2p-allocations/p2p-allocations.service.ts:1951-2014 | a sweep run alone moves exactly the overdue allocations, leaves none, changes no other, and is sound after each transaction |
| P2PProtocol.AtExpiry | src/modules/p2p-allocations/p2p-allocations.service.ts:208-210 | an assigned allocation takes no proof and is not overdue exactly at its expiry time |
| P2PProtocol.FinalizeEvolves | src/modules/p2p-allocations/p2p-allocations.service.ts:155-193 | settling moves along the protocol and rests on the evidence of the mode |
| P2PProtocol.ProofOffered | src/modules/p2p-allocations/p2p-allocations.service.ts:400-407 | proof is accepted exactly when it is offered |
| P2PProtocol.ConfirmOffered | src/modules/p2p-allocations/p2p-allocations.service.ts:408-410 | confirming and disputing are accepted where offered; exactly where else they are accepted |
| P2PProtocol.VerifyOffered | src/modules/p2p-allocations/p2p-allocations.service.ts:473-480 | verifying is accepted exactly where it is offered |
| P2PProtocol.AdminAnswers | src/modules/p2p-allocations/p2p-allocations.service.ts:1564-1605 | after the administrator has answered the allocation is verified exactly when the answer was yes and disputed exactly when it was no, and nothing else is written |
| P2PProtocol.ReceiverAnswers | src/modules/p2p-allocations/p2p-allocations.service.ts:1533-1562 | the same for the receiver; a yes after the administrator leaves the allocation verified |
| P2PProtocol.ConfirmAccepted | src/modules/p2p-allocations/p2p-allocations.service.ts:1509-1533 | an answer is taken exactly from the receiver of the payout, in a mode that asks for one, while there is something to answer; anybody else is forbidden it |
| P2PProtocol.SubmitAccepted | src/modules/p2p-allocations/p2p-allocations.service.ts:1329-1408 | proof is taken exactly from the payer, with files that are there and the payer's own; anybody else is forbidden it |
| P2PProtocol.SubmissionRecorded | src/modules/p2p-allocations/p2p-allocations.service.ts:1408-1434 | a submission attaches its files in order to this allocation and marks it |
| Runs.RefusedNeverSettles | src/modules/p2p-allocations/p2p-allocations.service.ts:1533-1646 | after the administrator or the receiver has refused an allocation, over every run and in every mode, it is disputed or cancelled and never settles |
| P2PProtocol.CancelOffered | src/modules/p2p-allocations/p2p-allocations.service.ts:473-480 | cancelling changes an allocation exactly where it is offered, and one in dispute besides |
| P2PProtocol.FinalizeOffered | src/modules/p2p-allocations/p2p-allocations.service.ts:395-400 | settling is accepted where offered, except on a cancelled allocation, which the single-confirmer modes cannot show |
| P2PProtocol.CancelledStillOffered | src/modules/p2p-allocations/p2p-allocations.service.ts:395-400 | an allocation cancelled right after the receiver confirmed it keeps being offered for settlement, which throws |
| P2PProtocol.VerifiedNotFinalizable | src/modules/p2p-allocations/p2p-allocations.service.ts:164-170 | in receiver mode an allocation the administrator verified does not settle |
| Runs.VerifiedStuck | src/modules/p2p-allocations/p2p-allocations.service.ts:164-170 | over every run in receiver mode an allocation the administrator verified stays so, or becomes disputed or cancelled; it never settles |
| FilesService.DeleteFileAsAdmin | src/modules/files/files.service.ts:283-306 | a file that is attached is refused unless forced; forced, every proof it stood for is dropped, of whichever allocation, and nothing else changes |
| Files.DeleteAccepted | src/modules/files/files.service.ts:283-305 | a file is deleted exactly when it is there and, unless forced, neither an allocation nor anything else refers to it |
| Proofs.SubmissionsBounded | src/modules/p2p-allocations/p2p-allocations.service.ts:1375-1408 | over every run, no step barred, the proofs attached are those attached before and since less those dropped with deleted files, and no more submissions succeed than two and one for each dropped |
| Proofs.BoundMet | src/modules/files/files.service.ts:297-301 | that many can succeed: for every number of dropped attachments there is a run from an empty platform with two submissions more |
| Runs.SettledHaveEvidence | src/modules/p2p-allocations/p2p-allocations.service.ts:155-193 | over every run with one mode, no step barred, proof was submitted to every settled allocation and it has the confirmations of the mode, and no others in the single-confirmer modes |
| Proofs.SettledOnEvidence | src/modules/p2p-allocations/p2p-allocations.service.ts:1375-1427 | and some proof is still attached to it exactly when fewer attachments were dropped than made |
| Proofs.SettledUnproved | src/modules/p2p-allocations/p2p-allocations.service.ts:155-193 | in every mode there is a run from an empty platform that settles an allocation with no proof attached |
| Runs.AllocationsEnd | src/modules/p2p-allocations/p2p-allocations.service.ts:1632-1646 | over every run the row of an allocation only reaches the states its protocol reaches; settled, cancelled and expired rows never change again |
| Machine.AdjustKeepsInv | src/modules/users/foundation.controller.ts:318-330 | an adjustment by an administrator keeps every invariant, as money from outside |
| Machine.StepEvolves | src/modules/p2p-allocations/p2p-allocations.service.ts:1607-1835 | every step of every service moves allocations only along the protocol and takes back no stored response and no indexed request, whatever the rest of the state |
| Machine.StepProgresses | src/common/db/tx.util.ts:44-60 | every admissible step of every service also keeps every invariant and leaves settled remittances' books alone |
| Runs.RunSound | src/common/db/tx.util.ts:44-60 | all invariants hold after every run |
| Runs.RunSafe | src/modules/accounts/accounts.service.ts:126-364 | in every reachable state blocked balances are sums of reservations, balances sums of postings, promises covered, counters sums of reservations, and instrument totals conserved |
| Records.RunFollows | src/common/db/tx.util.ts:44-60 | over every run the terms of every request stay what they were, and its status only moves where its decisions take it |
| Receipts.RunGrows | src/modules/accounts/accounts.service.ts:299-377 | the ledger only grows: no posting is ever changed or removed, whatever the state |
| Interleaving.NextConsistent | src/modules/accounts/accounts.service.ts:136-364 | no statement of any concurrent reservation, settlement or posting disturbs another, where settlements of one reservation hold its request |
| Interleaving.EveryInterleavingIsSerial | src/modules/accounts/accounts.service.ts:139-364 | then every interleaving commits what the jobs do one after the other in the order in which they end, reports the same, and overdraws or over-reserves no account |
| Interleaving.UnguardedRace | src/modules/accounts/accounts.service.ts:196-236 | two settlements of one held reservation, one of them without its request locked, have an interleaving that is as no serial run |
| Interleaving.SerialIffExclusive | src/modules/accounts/accounts.service.ts:187-297 | where reservations settled more than once are held, every interleaving is serial exactly when all those settlements hold their request |
| TotalsRace.UpdateLost | src/modules/p2p-allocations/p2p-allocations.service.ts:1609-1745 | a transaction that reads the totals before it locks them can lose what any other adds to the same total |
| TotalsRace.TotalsKeptIff | src/modules/p2p-allocations/p2p-allocations.service.ts:1115-1818 | stored totals are right after every interleaving exactly when all transactions that share a total read it after locking it |
| Alone.AssignmentAlone | src/modules/p2p-allocations/p2p-allocations.service.ts:1115-1224 | the job that assigns an item, run alone, leaves on both requests the totals that the transaction leaves |
| Alone.SettlementAlone | src/modules/p2p-allocations/p2p-allocations.service.ts:1607-1745 | so does the job that settles |
| Alone.GivingBackAlone | src/modules/p2p-allocations/p2p-allocations.service.ts:1756-1818 | and the one that cancels, or expires |

## Left out

- Alone.DepositAlone: of deposits of zero or more, as `DepositRace` has no approval that throws because the account cannot bear a negative amount.
- Decimal places and rounding: amounts are exact integers; the columns of P2P amounts round, which is not modelled.
- Interleaving.EveryInterleavingIsSerial: starts from open accounts, since two transactions that open the same account at once collide on its unique index and one of them is retried.
- P2PService.SplitReservationForAllocation: reads the reservation of the withdrawal on the receiver's IRR account, the only one it ever has, where the query names no account.
- P2P transactions are taken as a whole by the state machine; statement by statement only their stored totals are modelled (`TotalsRace`), not the statuses derived from them.
- DepositsService.Cancel: taken as a whole by the state machine, as are all decisions on deposits; statement by statement only the row and its postings are modelled (`DepositRace`), not the account they are posted to.
- Remittances.LinksBounded: holds for groups taken one after the other; what concurrent groups do is stated in `SettlementRace`, where locks on several rows are taken at once.
- Quote locks: what the lock answers is a parameter, as the script that grants quotes is commented out in the repository (src/modules/market/quotes/quote-lock.service.ts:219-220), where the call therefore throws for every quote.
- Lookups of users and instruments: every user and instrument named is taken to exist.
- Limits resolve outside the steps: a step is given the limit and KYC level that `Policy` resolves for each usage.
- Files and payment destinations: whether they are found and belong to the user are parameters, and so is whether a file is attached to anything but allocations.
- Forward trades, cash settlement and price ingestion.
- Gold lots, which credit both sides on purpose, are outside the conservation statement.
- The accounting outbox, notifications, view text, lists, filters and statements: no effect on money.
- Deadlocks and retries: they depend on the database.
