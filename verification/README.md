# Name registrar auction, modelled in Dafny

The registrar sells account names with a sealed-bid, second-price auction
that runs in two rounds.

1. **Bid.** Each bidder stores a commitment, which is an encoding of the
   bid amount and a salt.
2. **Reveal.** The bidder opens the commitment by sending that amount and
   salt, with the amount attached as a deposit.

Once the auction is settleable:

- the highest revealer may `claim` the name, provided the second-highest
  revealed value is positive;
- `withdraw` pays a bidder back the amount recorded for it.

Whether a name may be auctioned yet depends on how many whole auction
periods ("weeks") have passed since the registrar launched. A name's hash
modulo 52 is its cohort, and the name opens in its cohort's week.

The repository contains the contract twice:

- `contracts/rust/src/lib.rs` is the complete version. It is modelled as a
  state machine. Each public operation is a pure function of:
  - the registrar state;
  - the call environment: current block, caller and attached deposit;
  - the operation's arguments.

  Each operation returns whether it succeeded, the new state and the
  promises it issued, as values of type `Effect`.
- `src/lib.rs` is the earlier version. It opens each name in one week
  only and refuses re-bids. Its windows are half-open: bidding ends one
  block earlier, and revealing and withdrawing start one block earlier.
  It reads auctions by value and never writes them back, and its `claim`
  is commented out. Only its accept/reject logic is modelled.

Modules:

- `Types`: entities (`Bid`, `Auction`, `Registrar`), the call environment,
  promises, and the `Primitives` record that stands for hashing and
  commitment encoding.
- `Phases`: the phase windows of the complete version, as predicates on the
  number of blocks elapsed since the auction opened.
- `TopTwo`: the single-pass winner scan inside `claim`, in two forms:
  - a functional fold over `(party, value)` pairs;
  - the loop as written in the contract (`SelectWinner`), proved equal to
    the fold.

  Both are proved against a specification stated over positions: the
  highest value, the second value and the winner, which is the first entry
  holding the highest value. Only the two values are independent of the
  iteration order.
- `Contract`: `new`, `bid`, `reveal`, `withdraw` and `claim` of the
  complete version.
- `ContractProps`: properties that relate operations to each other and
  describe the outcome of the auction. As in `TopTwo`, the winner is
  identified by its position in the reveal order; only the highest value
  and the price are independent of that order.
- `Sums`, `Ledger`: the money held in custody. A `World` adds two running
  totals to the registrar: the deposits taken in by successful reveals,
  and the Transfer promises paid out. Every call, in any order, keeps this
  invariant:

  paid out + still owed to bidders ≤ taken in

  Withdraw and claim pay out exactly what they take off the books.
- `EarlyContract`: the gates of the earlier version, compared with the
  complete version.
- `Scenarios`: concrete runs from the earlier version's tests, replayed
  against the complete version.

Parameters instead of code:

- The name hash (`DefaultHasher`) and the commitment encoding (`bs58`
  encoding of the amount's decimal string followed by the salt) are the
  function fields of `Primitives`. The commitment is only compared for
  equality. The hash is used only through its residue modulo 52, which is
  compared with the number of weeks since launch.
- Blocks, the caller and the attached deposit are fields of `Env`.
- `HashMap` iteration order is passed to `claim` as two sequences,
  `bidOrder` and `revealOrder`. These must list the keys of the bids map
  and of the reveals map exactly once each.
- The contract subtracts block heights as unchecked `u64` values and divides
  by the auction period. The operations therefore require:
  - the clock is not behind the auction's start block (a reveal whose
    deposit differs from its amount is refused before that subtraction, so
    it needs no such condition);
  - on a first bid, the clock is not behind the launch block and the
    auction period is positive.

  In `Ledger.Apply`, a call that would break these aborts and leaves the
  world unchanged.

Five behaviours of the code worth knowing:

- **Ties for the highest value.** The scan replaces the leader only on a
  strictly greater value, so the winner is the first revealer in iteration
  order to hold the highest value.
- **Repeat reveals.** A second identical reveal in the reveal window is
  accepted (`ContractProps.RepeatRevealAccepted`). The commented-out test at
  src/lib.rs:756 expects this.
- **Re-bids.** In the complete version a re-bid overwrites the caller's
  earlier bid. The earlier version refuses it.
- **A claim can be repeated.** The header comment of
  contracts/rust/src/lib.rs describes a "done" state in which the auction's
  state is cleared once the name is claimed. The code has no such state. A
  claim leaves the bids and the reveals in place, so the same winner's
  claim succeeds again and again promises to create the account and add the
  key (`ContractProps.ClaimRepeatable`).
- **Commitments are not binding.** The commitment is the base58 encoding
  of the amount's decimal digits followed by the salt, with no separator.
  So amount 1000 with salt "123", amount 100 with salt "0123" and amount
  10001 with salt "23" all give the same commitment, and a bidder can pick
  among such amounts at reveal time. The model keeps the encoding as an
  uninterpreted function and proves nothing that relies on binding.

## Model

| member | source | states |
|---|---|---|
| Contract.New | contracts/rust/src/lib.rs:52-59 | the registrar starts at the current block with the given periods and no auctions, so it is well formed |
| Contract.PlaceBid | contracts/rust/src/lib.rs:66-124 | succeeds exactly when an existing auction is still inside its bid period, or when a new name's cohort is at or below the number of weeks since launch (cumulative opening). A new auction starts now and holds only the caller's bid {0, commitment}. On an existing auction only the caller's entry is (over)written. It issues no promises, a failure changes nothing, and revealers stay among the bidders |
| Contract.Reveal | contracts/rust/src/lib.rs:129-177 | succeeds exactly when the deposit equals the amount, the auction exists, `ap < now-start <= ap+rp` holds, the caller has a bid, and the stored commitment equals commit(amount, salt). On success it sets the caller's bid amount and reveal to the amount and changes nothing else; a failure changes nothing |
| Contract.Withdraw | contracts/rust/src/lib.rs:182-217 | succeeds exactly when the auction exists and is settleable and the caller has bid. It then issues one transfer of the caller's recorded amount and zeroes it, changing nothing else |
| Contract.ZeroOthers | contracts/rust/src/lib.rs:291-298 | definition: every bid keeps its commitment, and every bid except the winner's has its amount set to 0 |
| Contract.Refunds | contracts/rust/src/lib.rs:291-298 | every refund is a transfer to a bidder other than the claimer, for that bidder's recorded amount, and every such bidder listed in the order gets one |
| Contract.RefundsListed | contracts/rust/src/lib.rs:291-292 | refunds go only to bidders the iteration lists |
| Contract.RefundsOnce | contracts/rust/src/lib.rs:291-298 | over an iteration without repeats, no refund is issued twice and there is one per listed bidder other than the claimer |
| Contract.RefundsOfEnumeration | contracts/rust/src/lib.rs:291-298 | when the iteration lists each bidder once, every bidder other than the claimer is refunded exactly once and the number of refunds is the number of bids minus the claimer's own |
| Contract.Claim | contracts/rust/src/lib.rs:220-305 | succeeds exactly when the auction is settleable, the scanned second-highest value is non-zero and the scanned winner is the caller. It then promises to create the account and add the key, refunds every other bidder, zeroes their amounts, and leaves the winner's bid, the reveal map and the start block unchanged; a failure changes nothing |
| Contract.Winner | contracts/rust/src/lib.rs:239-262 | definition: the scan run over the reveal map's entries in its iteration order |
| ContractProps.ClaimRefundsEachOnce | contracts/rust/src/lib.rs:283-298 | a successful claim's transfers have no repeats, and there are exactly as many as there are bids other than the winner's |
| TopTwo.Step | contracts/rust/src/lib.rs:244-261 | definition: the first entry seeds the highest value and the winner; later, a value strictly above `second` replaces it, and one strictly above `highest` also takes over `highest` and the winner |
| TopTwo.Fold | contracts/rust/src/lib.rs:239-262 | definition: the scan of all entries front to back, starting from 0, 0 and the empty name |
| TopTwo.StepKeepsTopTwo | contracts/rust/src/lib.rs:244-261 | one iteration of the scan keeps the top-two specification, and the winner moves to the new entry exactly when its value is strictly greater than the current highest |
| TopTwo.FoldIsTopTwo | contracts/rust/src/lib.rs:239-262 | after the scan, `highest` is the maximum value and `winner` holds the first entry reaching it. `second` is the largest value once that one entry is set aside, counting duplicates of the maximum, or 0 if there is no other entry |
| TopTwo.SelectWinner | contracts/rust/src/lib.rs:239-262 | the loop with its first-entry flag and swap computes exactly the functional scan, returns 0, 0 and "" for no reveals, and otherwise meets the top-two specification |
| Phases.Weeks | contracts/rust/src/lib.rs:95 | the integer quotient: `weeks * ap <= now - launch < (weeks + 1) * ap` |
| Phases.Slot | contracts/rust/src/lib.rs:97-108 | definition: a name's cohort is its hash modulo 52 |
| Phases.BidWindow | contracts/rust/src/lib.rs:77-81 | definition: a bid on an existing auction is accepted while at most `ap` blocks have elapsed since its start |
| Phases.RevealWindow | contracts/rust/src/lib.rs:140-149 | definition: a reveal is accepted when more than `ap` and at most `ap + rp` blocks have elapsed |
| Phases.Settleable | contracts/rust/src/lib.rs:186-197 | definition: withdraw and claim need more than `ap` elapsed blocks, and while at most `ap + rp` have elapsed, as many reveals as bids |
| Phases.NameOpen | contracts/rust/src/lib.rs:106-110 | definition: a name with no auction opens when its cohort is at most the number of weeks since launch |
| Phases.WindowsOrdered | contracts/rust/src/lib.rs:188-197 | nothing can be revealed or settled while bids are still accepted. After the reveal period every auction is settleable, and settling during the reveal period needs equal bid and reveal counts |
| Phases.NameOpenMonotone | contracts/rust/src/lib.rs:95-110 | once a name's cohort week has come, every later block also lets it open |
| ContractProps.ClaimWinnerIsHighest | contracts/rust/src/lib.rs:239-281 | a successful claimer is a revealer holding the maximum revealed value, and no revealer before it in the reveal order reaches that value. The price (the scanned second value) is positive, was revealed by someone else, and no other revealer exceeds it |
| ContractProps.WinnerIsHighest | contracts/rust/src/lib.rs:239-266 | on any auction, when the scanned second value is non-zero, the scanned winner holds the maximum revealed value and comes first among those holding it. The second value was revealed by another party and bounds every other reveal |
| ContractProps.ClaimSucceedsForStrictWinner | contracts/rust/src/lib.rs:225-281 | conversely, in a settleable auction a revealer strictly above all others can claim under any iteration order, as long as some other reveal is positive |
| ContractProps.ClaimSucceedsForFirstMaximum | contracts/rust/src/lib.rs:225-281 | with ties: in a settleable auction, a revealer holding the maximum that no earlier revealer in the iteration order reaches can claim when some other reveal is positive. With `ClaimWinnerIsHighest`, this is the exact condition for a claim to succeed |
| ContractProps.PriceIndependentOfOrder | contracts/rust/src/lib.rs:239-266 | the highest value and the settlement price do not depend on the map's iteration order |
| ContractProps.BidThenRevealSucceeds | contracts/rust/src/lib.rs:133-170 | commit/reveal round trip: after a bid with commit(amount, salt), revealing that amount and salt with the amount attached succeeds at any block of the reveal window and records the amount |
| ContractProps.NoBidAfterReveal | contracts/rust/src/lib.rs:75-81 | once a reveal has succeeded, no bid on that name succeeds at that block or any later one |
| ContractProps.WithdrawTwicePaysOnce | contracts/rust/src/lib.rs:200-208 | the first withdraw transfers the recorded amount, and a second withdraw by the same party at any block transfers nothing |
| ContractProps.ClaimLeavesOnlyWinnerEscrow | contracts/rust/src/lib.rs:182-298 | after a claim, a losing bidder's withdraw pays nothing. In a well-formed registrar the winner's withdraw, at the claim's block or any later one, succeeds and pays its whole escrow (nothing is burnt) |
| ContractProps.ClaimRepeatable | contracts/rust/src/lib.rs:220-298 | after a successful claim the auction is still settleable and unchanged in its reveals, so the same claim by the same winner succeeds again and again starts with the create-account and add-key promises |
| ContractProps.RepeatRevealAccepted | contracts/rust/src/lib.rs:152-170 | an identical second reveal succeeds and leaves the state as the first left it |
| Ledger.BidAccounting | contracts/rust/src/lib.rs:66-124 | a bid never increases what the registrar owes its bidders |
| Ledger.RevealAccounting | contracts/rust/src/lib.rs:133-170 | a successful reveal raises what is owed by the deposited amount minus the caller's previous amount; a failed one changes nothing owed |
| Ledger.WithdrawAccounting | contracts/rust/src/lib.rs:200-208 | the amount withdraw transfers equals exactly the drop in what is owed |
| Ledger.RefundsTotal | contracts/rust/src/lib.rs:291-298 | the refunds of a claim plus the winner's amount add up to the auction's whole escrow |
| Ledger.ClaimAccounting | contracts/rust/src/lib.rs:283-298 | the amount claim transfers equals exactly the drop in what is owed. After a successful claim the auction still owes only the winner's escrow |
| Ledger.ApplyKeepsSolvent | contracts/rust/src/lib.rs:48-306 | every call, successful, rejected or aborted, keeps paid out + owed <= taken in |
| Ledger.ReplayKeepsSolvent | contracts/rust/src/lib.rs:48-306 | the invariant holds after any sequence of calls |
| Ledger.NeverPaysOutMoreThanEscrowed | contracts/rust/src/lib.rs:48-306 | from deployment on, under any sequence of calls, the registrar never pays out more than its reveals took in |
| EarlyContract.Fetch | src/lib.rs:77-82 | definition: a missing auction reads as an auction with start block 0, no bids and no reveals |
| EarlyContract.FetchBid | src/lib.rs:93-97 | definition: a bidder with no entry reads as a bid of amount 0 with an empty commitment |
| EarlyContract.HoldsCommitment | src/lib.rs:97-100 | definition: a party is on record when its fetched commitment is non-empty; this is the duplicate-bid rule of bid and the gate of reveal and withdraw |
| EarlyContract.EarlyBidWindow | src/lib.rs:87-91 | definition: a bid on an existing auction is accepted while fewer than `ap` blocks have elapsed |
| EarlyContract.EarlyRevealWindow | src/lib.rs:157-166 | definition: a reveal is accepted when at least `ap` and fewer than `ap + rp` blocks have elapsed |
| EarlyContract.EarlyWithdrawWindow | src/lib.rs:216-227 | definition: withdraw needs at least `ap` elapsed blocks, and while fewer than `ap + rp` have elapsed, as many reveals as bids |
| EarlyContract.Eligible | src/lib.rs:114-118 | definition: a name with no auction opens only in the week equal to its cohort |
| EarlyContract.EarlyBid | src/lib.rs:69-131 | on an auction with a non-zero start, a bid is accepted exactly when it is strictly inside the bid period and the caller holds no non-empty commitment. Otherwise it is accepted exactly when the weeks since launch equal the name's cohort, opening an auction that starts now with the caller's bid {0, commitment} |
| EarlyContract.EarlyReveal | src/lib.rs:136-196 | any deposit different from the amount is refused, before the auction is looked up. Otherwise a reveal is accepted exactly when the auction has a non-zero start, `ap <= now-start < ap+rp` holds, and the caller's commitment is non-empty and equals commit(amount, salt) |
| EarlyContract.EarlyWithdraw | src/lib.rs:201-248 | accepted exactly when the auction has a non-zero start, `ap <= now-start` holds, the counts match while `now-start < ap+rp`, and the caller holds a non-empty commitment. A transfer is issued only when the recorded amount is positive |
| EarlyContract.OpeningWeekUnique | src/lib.rs:104-118 | two accepted first bids on the same name fall into the same week since launch |
| EarlyContract.ZeroStartReadsAsMissing | src/lib.rs:78-86 | a stored auction whose start block is 0 is treated like no auction: bid answers as if it were absent, and reveal and withdraw refuse |
| EarlyContract.ExactWeekImpliesCumulative | src/lib.rs:104-127 | every first bid this version accepts is accepted by the complete version too, opening the same auction |
| EarlyContract.CumulativeOpensLaterWeeks | src/lib.rs:107-118 | in any week after the name's cohort, this version refuses a first bid that the complete version accepts |
| EarlyContract.WindowsComparedWithComplete | src/lib.rs:155-165 | the bid window here lies inside the complete one. The reveal windows differ only at the block where bidding ends (accepted only here) and the last reveal block (accepted only in the complete version) |
| EarlyContract.RebidRefusedHereAcceptedThere | src/lib.rs:93-100 | a second bid by a party that already holds a commitment is refused here but accepted, overwriting the first, by the complete version |
| EarlyContract.RevealAcceptedByBoth | src/lib.rs:155-187 | a reveal accepted here, except at the block where bidding ends, is also accepted by the complete version |
| EarlyContract.WithdrawPaysLikeComplete | src/lib.rs:214-239 | outside the two blocks where the windows differ, a withdraw accepted here is accepted by the complete version too, and both pay the same amount |
| Scenarios.AfterRevealsShape | src/lib.rs:768-801 | Carol and Bob both bid at block 1292 and reveal, so the auction holds both amounts and commitments |
| Scenarios.SecondPriceWinner | src/lib.rs:787-801 | with Carol at 1000 and Bob at 1005, either reveal order makes Bob the winner at 1005 with a price of 1000 |
| Scenarios.SecondPriceScenario | src/lib.rs:768-808 | under either iteration order Bob's claim succeeds with promises [create account, add key, refund Carol 1000]. Bob's 1005 stays recorded, Carol's amount becomes 0, and Carol's own claim fails |
| Scenarios.NoValidWinnerScenario | src/lib.rs:811-847 | when both reveal 0 no claim succeeds, yet withdraw still works and transfers 0 |
| Scenarios.EarlyRevealRefusedScenario | contracts/rust/src/lib.rs:140-144 | a reveal with the right amount, salt and deposit is refused at block 1322, the last block of the bid period, where the earlier version's test reveals |

## Left out

- Hashing and encoding. The SipHash of the name and the base58 commitment
  encoding are uninterpreted function parameters. The UTF-8 check on the
  stored commitment, and its panic on invalid bytes, are not modelled.
- Host environment. Promises are recorded as `Effect` values and are not
  executed: `create_account`, `add_full_access_key`, `transfer`, and the
  `then` chaining of the two account promises.
- Attached deposits on calls that fail or that are not reveals. These are
  not counted as taken in. This only makes the ledger invariant more
  conservative.
- Integer widths. Block heights (`u64`) and balances (`u128`) are unbounded.
  Overflow of `auction_period + reveal_period` and of the balance arithmetic
  is not modelled.
- Storage. `UnorderedMap` storage, Borsh persistence, and the earlier
  version's fetch-by-value without write-back are not modelled. For
  src/lib.rs only the accept/reject decisions (and withdraw's transfer) are
  modelled, never the state after a call.
- The earlier version's `claim`. It is commented out in src/lib.rs, so it is
  not part of this model.
- The burn of the winner's locked amount. It is only a TODO in the contract
  and is absent here as well; `ContractProps.ClaimLeavesOnlyWinnerEscrow`
  shows the consequence.
- `println!`, the `wee_alloc` allocator and the `VMContext` test scaffolding.
- Concrete hash values. The scenarios leave the name's hash open and only
  require its cohort to have come by week 43.
- Test blocks. The scenarios reveal at block 1323 rather than the tests'
  1322, because the complete version's reveal window starts one block later.
- Contract.Refunds: the order of the refunds among themselves is not
  stated. It follows the bids map's iteration order, which the model takes
  as a parameter. `Contract.RefundsOfEnumeration` states that each other
  bidder is refunded exactly once.
- Contract.Claim: its own contract does not say that each refund is issued
  once. `ContractProps.ClaimRefundsEachOnce` states that, and
  `Ledger.ClaimAccounting` pins the total that is paid.
- Ledger.Solvent: it is an inequality, not an equality. A repeat reveal in
  the reveal window records an amount that was already escrowed, so the
  second deposit is taken in but never owed. A re-bid that zeroes a revealed
  amount would also orphan escrow, but only when the clock goes back into
  the bid window after a reveal. A real chain's block height never
  decreases, so this cannot happen there (`ContractProps.NoBidAfterReveal`).
  `Ledger.Replay` does not constrain its clock, so the inequality also
  covers that case.
