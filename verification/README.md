# Token-curated registry: ballot keeper and end-of-block settlement

This project models the core of the token-curated registry example app. It
has two parts:

- The **ballot keeper**. It does typed reads and writes on the listing store
  and the ballot store. Its lifecycle transitions are: propose a pending
  ballot, challenge it (a stale-bond refund, a bond-mismatch refusal or an
  activation), and add vote power to a ballot.
- The **end-of-block settlement** step (`endBlocker`). Once per block it looks
  at the ballot at the head of the proposal queue. If that ballot is due, the
  step pops it. An unchallenged ballot becomes a listing. For a challenged
  ballot, the quorum decides between approve and deny. The step then pays the
  winning party and every voter, and deletes the ballot's vote records.

The state is immutable. A `Keeper.Store` holds three maps: ballots, listings,
and vote records keyed by (ballot identifier, voter). `Settlement.Registry`
adds the proposal queue (`seq<string>`, head first) and a `Bank.Ledger` of
balances. Every operation is a pure function from state to new state and
outcome. Error returns are `Types.Outcome` values carrying the source's
codespace, code and message (107 "Ballot does not exist", 115 "Must match
candidate's bond").

Modules:

- `Types` holds the records and error values.
- `Bank` does crediting.
- `Keeper` holds the keeper operations.
- `Numeric` holds exact-rational stand-ins for the float64 quorum and
  dividend arithmetic.
- `Settlement` holds the settlement step.
- `RawKeys` holds the source's raw key layout, used for the finding below.

Settlement is given twice:

- `Settle` is the reference definition. It uses map comprehensions and
  per-address credit formulas.
- `EndBlocker` follows the source step by step: the head check, the pop, the
  quorum branch, one pass over the vote records that credits each voter and
  collects its key, then a batch delete and `DeactivateBallot`.

`EndBlocker` is proved equal to `Settle` for every iteration order of the vote
records.

The float64 quantities are modelled as exact fractions:

- The quorum test `float64(approve)/float64(total) > quorum` is
  `Numeric.ApproveWins`. When `total > 0` or `total < 0` it is the exact real
  comparison, with the order flipped for a negative divisor. When
  `total == 0`, approve wins only if `approve > 0`: IEEE division then gives
  +Inf, while 0/0 (NaN) and a negative numerator (-Inf) compare false. With
  non-negative tallies, a round with no votes therefore goes to deny.
- `int64(float64(...))` truncates toward zero. The dividends are computed as
  `Numeric.TruncReal` of the exact real product. Each is also proved equal to
  an integer quotient rounded toward zero (`Numeric.TruncDiv`).

Behaviour of the code worth noting:

- `AddBallot` does not check for an existing ballot or listing. It overwrites
  the ballot, and it does not enqueue it.
- `VoteBallot` does not write a vote record. It does not check the active flag
  or the commit/reveal window.
- The keeper has no "stale bond" error. A challenge against a bond below the
  minimum deletes the ballot and refunds the challenger, and reports success.

The queue implementation (`ProposalQueueHead`, `ProposalQueuePop`) and
`DeactivateBallot` are not part of this model:

- The queue head is the ballot stored under the first queued identifier, or
  the zero ballot when the queue is empty. A pop drops that identifier.
- `DeactivateBallot` is a caller-supplied function from the stored ballot to
  its replacement. It is applied only when the key is present.

Two consequences of this reading of the queue are proved:

- A queued identifier whose ballot was deleted reads as the zero ballot.
  Because that ballot's identifier is empty, no tick pops it. A stale-bond
  challenge of the head ballot does exactly this. The queue then stays
  blocked until a ballot is stored under that identifier again
  (`Settlement.StaleChallengeOfHeadBlocksQueue` covers the ticks with no write
  in between).
- A challenge against a missing ballot with `minBond <= 0` and a zero
  challenge bond writes an active ballot with an empty identifier
  (`Keeper.ActivateMissingWithZeroMinBond`).

## Model

| member | source | states |
|---|---|---|
| `Keeper.MissingBallotReadsZero` | example-apps/token_curated_registry/db/keeper.go:27-33 | in any store, a missing ballot reads as the zero ballot, with an empty identifier |
| `Keeper.FoundIffIdentifier` | example-apps/token_curated_registry/db/keeper.go:27-40 | in a store where every ballot carries its own key, a non-empty identifier is read back exactly when the ballot is present |
| `Keeper.MissingListingReadsZero` | example-apps/token_curated_registry/db/keeper.go:134-149 | a missing listing reads as the zero listing, with an empty identifier |
| `Keeper.AddBallot` | example-apps/token_curated_registry/db/keeper.go:42-56 | reading the ballot back gives identifier, owner, bond and apply end `height + applyLen`, with every other field zero/false; any previous ballot is overwritten; other ballots, listings and votes are unchanged |
| `Keeper.DeleteBallot` | example-apps/token_curated_registry/db/keeper.go:115-119 | afterwards the ballot reads as zero; other ballots, listings and votes are unchanged; deleting a missing key changes nothing |
| `Keeper.DeleteBallotIdempotent` | example-apps/token_curated_registry/db/keeper.go:115-119 | deleting twice is the same as deleting once |
| `Keeper.ActivateBallot` | example-apps/token_curated_registry/db/keeper.go:58-89 | bond below minBond: the ballot is deleted, the challenger is credited exactly challengeBond, no one else's balance moves, success; bond at least minBond but unequal to challengeBond: error 115 and no change at all; otherwise: active, challenger set, commit end `height + commitLen`, reveal end `commit end + revealLen`, all other fields kept, ledger unchanged; listings and votes are never touched; it fails exactly in the mismatch case |
| `Keeper.ActivateMissingBallotRefunds` | example-apps/token_curated_registry/db/keeper.go:61-74 | a missing ballot reads as bond 0, so with minBond > 0 the challenge only refunds challengeBond and leaves the store as it was |
| `Keeper.ActivateKeepsWellKeyed` | example-apps/token_curated_registry/db/keeper.go:61-86 | a challenge keeps every ballot stored under its own identifier when the ballot exists or minBond > 0 |
| `Keeper.ActivateMissingWithZeroMinBond` | example-apps/token_curated_registry/db/keeper.go:61-86 | with minBond 0 and bond 0, a challenge of a missing ballot stores an active ballot whose identifier is empty |
| `Keeper.VoteBallot` | example-apps/token_curated_registry/db/keeper.go:91-113 | a missing ballot gives error 107 and no change; otherwise power is added to approve when voting yes and to deny when voting no, and every other field, ballot, listing and vote record is unchanged |
| `Keeper.AddListing` | example-apps/token_curated_registry/db/keeper.go:121-132 | reading the listing back gives `{identifier, votes}`; other listings, the ballots and the votes are unchanged |
| `Keeper.DeleteListing` | example-apps/token_curated_registry/db/keeper.go:151-156 | afterwards the listing reads as zero; other listings, the ballots and the votes are unchanged; deleting a missing key changes nothing |
| `Keeper.DeleteListingIdempotent` | example-apps/token_curated_registry/db/keeper.go:151-156 | deleting a listing twice is the same as deleting it once |
| `Keeper.BallotAndListingWritesCommute` | example-apps/token_curated_registry/db/keeper.go:115-156 | ballot writes and listing writes commute, because the two stores are separate |
| `Keeper.AddGetDeleteScenario` | example-apps/token_curated_registry/db/keeper_test.go:17-56 | the add/get and delete test scenario at block height 0 |
| `Keeper.ActivateScenario` | example-apps/token_curated_registry/db/keeper_test.go:58-109 | the challenge test scenario: stale refund of 100, two 115 refusals, then activation |
| `Keeper.VoteAndListingScenario` | example-apps/token_curated_registry/db/keeper_test.go:111-153 | the vote test (approve becomes 50) and the listing add/delete test |
| `Bank.CreditMovesOnlyTarget` | example-apps/token_curated_registry/db/keeper.go:65-69 | crediting raises exactly the credited address's balance by the amount; every other balance stays the same |
| `Bank.CreditAll` | example-apps/token_curated_registry/app/app.go:170-186 | a batch of credits raises each address's balance by its own amount and leaves all others alone |
| `Bank.CreditAllStep` | example-apps/token_curated_registry/app/app.go:179-185 | crediting one more voter on top of a batch is the batch extended by that voter |
| `Numeric.TruncDivTruncates` | example-apps/token_curated_registry/app/app.go:148 | the integer quotient rounded toward zero equals the real quotient truncated toward zero, as Go's `int64(float64)` conversion truncates |
| `Numeric.QuotientExceedsReal` | example-apps/token_curated_registry/app/app.go:145 | with a non-zero total, the integer quorum test agrees with the real comparison `approve/total > quorum` |
| `Numeric.QuorumBoundary` | example-apps/token_curated_registry/app/app.go:142-145 | with non-negative tallies, approve wins exactly when the total is positive and the approve share is strictly above the quorum; equality and a zero total go to deny |
| `Numeric.BondDividendTruncatesProduct` | example-apps/token_curated_registry/app/app.go:148 | the dividend `bond * dispensationPct`, truncated, is the integer quotient `bond * num / den` rounded toward zero; for non-negative inputs it is the non-negative `r` with `r * den <= bond * num < (r + 1) * den` |
| `Numeric.VoterDividendTruncatesShare` | example-apps/token_curated_registry/app/app.go:180 | with a non-zero pool, the voter dividend `power / pool * bond * dispensationPct`, truncated, is the integer quotient `power * bond * num / (pool * den)` rounded toward zero |
| `Numeric.VoterDividendNonNegative` | example-apps/token_curated_registry/app/app.go:180 | with non-negative power, bond and percentage and a positive pool, the voter dividend is non-negative |
| `Numeric.VoterDividendAtMostBondDividend` | example-apps/token_curated_registry/app/app.go:180 | a voter holding at most the pool gets no more dividend than the whole bond dividend |
| `Settlement.QueuePop` | example-apps/token_curated_registry/app/app.go:134 | a pop drops exactly the head identifier and touches neither the stores nor the ledger |
| `Settlement.DeactivateBallot` | example-apps/token_curated_registry/app/app.go:194 | on a missing key it changes nothing; it never touches other ballots, listings or votes |
| `Settlement.DeleteVotes` | example-apps/token_curated_registry/app/app.go:189-192 | removes exactly the settled ballot's vote records; every other record is kept unchanged; ballots and listings are untouched |
| `Settlement.PayoutShare` | example-apps/token_curated_registry/app/app.go:179-184 | a losing vote gets exactly its power back; a winning vote gets its power plus `power * bond * num / (pool * den)` rounded toward zero; with a stake inside a positive pool, every payout lies between the stake and the stake plus the whole bond dividend |
| `Settlement.VoterPayouts` | example-apps/token_curated_registry/app/app.go:164-186 | every voter with a record under the ballot gets exactly one payout, computed from that voter's record |
| `Settlement.Decide` | example-apps/token_curated_registry/app/app.go:145-162 | approve: the listing becomes `{id, approve}` and the ballot store is unchanged; deny: both listing and ballot are gone; other keys and the votes are unchanged |
| `Settlement.Resolve` | example-apps/token_curated_registry/app/app.go:142-194 | for a challenged ballot: the listing and ballot outcome above; all of its vote records, and no other, are consumed |
| `Settlement.ResolvePays` | example-apps/token_curated_registry/app/app.go:146-186 | each address gains the party reward if it is the winning party (owner gets the dividend; challenger gets bond plus dividend) plus its own vote's payout, and nothing else |
| `Settlement.Settle` | example-apps/token_curated_registry/app/app.go:127-197 | if the head is empty or not yet due, nothing changes at all; otherwise exactly the head is popped; a due unchallenged ballot becomes listing `{id, 0}`, with ballots, votes and ledger untouched |
| `Settlement.SettleChallenged` | example-apps/token_curated_registry/app/app.go:142-194 | a due, challenged head: the quorum outcome on listing and ballot, all its vote records consumed, and each balance raised by party reward plus own payout |
| `Settlement.CreditPrefixIsCreditAll` | example-apps/token_curated_registry/app/app.go:170-186 | crediting the first `i` voters one at a time gives the same ledger as crediting their payouts as one batch |
| `Settlement.OrderIrrelevant` | example-apps/token_curated_registry/app/app.go:170-186 | any duplicate-free enumeration that lists every voter, credited one at a time, yields the ledger credited with every payout |
| `Settlement.PayVoters` | example-apps/token_curated_registry/app/app.go:164-187 | one pass over the vote records, in any iteration order, credits each voter the payout of its own record and collects its key once; the resulting ledger is exactly the batch-credited reference payouts |
| `Settlement.DeleteKeys` | example-apps/token_curated_registry/app/app.go:189-192 | the batch delete after the pass removes exactly the collected keys and keeps the others unchanged |
| `Settlement.CollectedKeysAreVoteKeys` | example-apps/token_curated_registry/app/app.go:169-192 | the keys collected during the pass are exactly the ballot's vote keys, so none of its vote records remains afterwards |
| `Settlement.ResolveBallot` | example-apps/token_curated_registry/app/app.go:142-194 | the source's sequence for a challenged ballot computes exactly `Resolve` |
| `Settlement.EndBlocker` | example-apps/token_curated_registry/app/app.go:127-197 | the source's whole tick computes exactly `Settle` |
| `Settlement.MissingHeadBlocksQueue` | example-apps/token_curated_registry/app/app.go:128-132 | if the head identifier's ballot is missing, a tick changes nothing at any height |
| `Settlement.StaleChallengeOfHeadBlocksQueue` | example-apps/token_curated_registry/db/keeper.go:63-74 | after a stale-bond challenge of the head ballot, every later tick leaves the state unchanged |
| `Settlement.ChallengeDelaysDeadlineAtMostByElapsed` | example-apps/token_curated_registry/app/app.go:60 | under `applystage >= commitstage + revealstage`, a challenge moves the deadline later by at most the blocks elapsed since the proposal |
| `RawKeys.VisitedKeys` | example-apps/token_curated_registry/app/app.go:164-171 | the prefix iterator visits exactly the stored keys that start with `identifier + "votes"` |
| `RawKeys.DeleteVisited` | example-apps/token_curated_registry/app/app.go:189-192 | as written, the batch delete removes every key that starts with the vote prefix |
| `RawKeys.OwnVoteKeyVisited` | example-apps/token_curated_registry/app/app.go:164-173 | a ballot's own vote keys are visited, and the voter address is recovered from the key |
| `RawKeys.ForeignKeysVisited` | example-apps/token_curated_registry/app/app.go:164-173 | the ballot key and vote keys of any identifier that extends `identifier + "votes"` are visited too, and such a vote is paid to a wrong address |
| `RawKeys.VoteKeyNotInjective` | example-apps/token_curated_registry/app/app.go:164-173 | two different (identifier, voter) pairs share one raw vote key |
| `RawKeys.SettlingDeletesForeignBallot` | example-apps/token_curated_registry/app/app.go:164-192 | settling ballot "a" deletes ballot "avotes" and its vote records, and pays that ballot's vote by "w" to "votesw" |

## Left out

- Integer width: all amounts, tallies and block stamps are unbounded integers. Go's int64 wrap-around in `height + applyLen`, `Approve += power`, `Approve + Deny` and the reward sums is not modelled, because it would need stamps or stakes beyond 2^63.
- Numeric.BondDividendTruncatesProduct: exact rational arithmetic stands in for float64. The rounding of `float64(bond)` and of the product before truncation is not modelled; only the final truncation toward zero is.
- Numeric.VoterDividendTruncatesShare: a zero pool gives a dividend of 0. Go gives an infinite or NaN quotient there, whose conversion to int64 depends on the platform. The float64 rounding of the intermediate quotient and products is not modelled.
- Numeric.QuotientExceedsReal: the quorum test compares exact rationals. The float64 rounding of `approve / total` and of the quorum parameter is not modelled, so a share within rounding distance of the quorum may be decided differently by the source.
- Settlement.DeactivateBallot: its body is not part of this model; it is a caller-supplied function applied to the stored ballot under its own key. The approve-branch clause of `Settlement.Resolve` and `Settlement.SettleChallenged` that the ballot is present afterwards exactly when it was before, and their frame on other ballots, rest on that reading: a `DeactivateBallot` that deleted or wrote other keys would break them.
- Keeper.ActivateBallot: the refund's error return (keeper.go:69-71) is not modelled. The bank keeper is not part of this model, so crediting always succeeds here.
- Bank.CreditMovesOnlyTarget: a single-denomination ledger; negative-balance rejection and the coin arithmetic of the bank keeper are not modelled.
- Conservation of stake across a settlement (payouts against the forfeited bond) is not stated, because the float rounding slack is not modelled.
- The amino codec: records are stored typed. Marshal/unmarshal, the panics on decode failure (keeper.go:35-38, 100-103, 143-146) and the ignored decode error in the vote pass (app.go:177) are not modelled.
- The vote store: the typed model keys vote records by the pair (identifier, voter). This idealises the raw `identifier + "votes" + voter` key, which is not injective; `RawKeys` models the raw layout separately.
- Iteration order of the vote pass: `EndBlocker` and `PayVoters` take any duplicate-free enumeration of the ballot's voters. The store's ascending key order is one such enumeration, and the result is the same for all of them.
- The proposal queue implementation, the `DeactivateBallot` body, `NewBallotKeeper` and the message handlers (candidacy with bond escrow and enqueue, challenge escrow, commit, reveal writing vote records) are not part of this model.
- App wiring and non-settlement entry points: `NewRegistryApp` routing, ante handler and store mounting, `initChainer`, `txDecoder`, `MakeCodec` and `ExportAppStateJSON` are bootstrap and I/O plumbing, and are left out.

## Findings

| source | as written | input that shows it | evidently intended | confidence | as-written member | corrected member |
|---|---|---|---|---|---|---|
| example-apps/token_curated_registry/app/app.go:164-192 | settlement iterates, pays and deletes every ballot-store key starting with `identifier + "votes"` | ballots "a" and "avotes" both stored, with a vote by "w" on "avotes"; settling "a" deletes ballot "avotes" and that vote, and pays the vote to address "votesw" | only the settled ballot's own vote records are paid and deleted | not executed | `RawKeys.SettlingDeletesForeignBallot` | `Settlement.DeleteVotes` |
