# Binary-outcome prediction market: settlement engine in Dafny

This project models the settlement program of a binary-outcome prediction
market (`programs/prediction_market/src/lib.rs`). Each market is one record:
`market_id`, `authority`, `settlement_deadline`, `is_settled`,
`winning_outcome` and `total_collateral_locked`. Five instructions change it:

- `initialize_market` opens the market.
- `split_tokens` locks collateral in the market's vault and mints the same
  amount of outcome A and outcome B to the user.
- `merge_tokens` burns the user's matched A/B pairs and pays their
  collateral back.
- `set_winning_side` records the winner once and revokes minting on both
  outcome mints.
- `claim_rewards` burns the user's winning tokens and pays as much
  collateral out of the vault.

Files and modules:

- `results.dfy` (`Results`): `Option` and `Result`.
- `seeds.dfy` (`Seeds`): the byte seeds the market's accounts are derived
  from. A seed is a domain tag (`market`, `vault`, `outcome_a`,
  `outcome_b`) followed by the little-endian `u32` id. It includes the
  market's signer seeds. The encoding round-trips, and distinct
  (tag, id) pairs never share seed bytes.
- `token.dfy` (`Token`): an abstract token ledger. It has per-account
  balances, per-mint supply and a "can still mint" flag per outcome mint.
  `Transfer`, `MintTo`, `Burn` and `RevokeMintAuthority` fail with the
  token program's errors (`InsufficientFunds`, `Overflow`, `FixedSupply`).
  `Consistent` says that each outcome supply is the sum of the balances in
  it, and that the market's collateral fits in a `u64`. Every operation
  preserves it.
- `settlement.dfy` (`Settlement`): the net effect of each instruction, as a
  pure function from the state before it to the state after it, or to its
  error. `Inv` is the market's accounting invariant, which every
  instruction preserves:
  - `is_settled` holds exactly when a winner is recorded;
  - the vault holds `total_collateral_locked`;
  - while unsettled, both supplies equal that total and both mints can mint;
  - once settled, the winning supply equals that total and neither mint can
    mint.
- `market.dfy` (`PredictionMarket`): the `Market` class, with the record's
  fields and the ledger as fields and one method per instruction. Each
  method runs in the program's order. `SplitTokens`, `MergeTokens` and
  `ClaimRewards` check their guards, make their token calls one after
  another on a working copy of the ledger, and only then write the ledger
  and the record. A failing step returns its error and leaves everything
  unchanged, which matches a reverting instruction. `SetWinningSide`
  writes the settled flag and the winner first, as the program does, and
  then makes its two mint-authority revocations. Both revocations are
  proved unable to fail, so nothing needs reverting.
  Each method is proved to leave exactly the state its `Settlement`
  function gives.
- `properties.dfy` (`Properties`): properties that span several
  instructions:
  - split followed by merge restores the state;
  - a second claim pays nothing;
  - settlement is final over any sequence of instructions;
  - after settlement, nothing more can be minted or locked;
  - an unsettled market whose deadline has passed is frozen.
- `scenario.dfy` (`Scenario`): the test suite's end-to-end run, with the
  same amounts: user 0 holds 1 000 000 collateral, and user 1 holds
  500 000 and splits 200 000. Its expected balances are derived from the
  contracts.

The code enforces the settlement deadline:

- `initialize_market` needs `settlement_deadline > now`;
- `split_tokens`, `merge_tokens` and `set_winning_side` fail with
  `MarketExpired` once `now >= settlement_deadline`.

As a result, a market that is not settled before its deadline can never be
split, merged, settled or claimed: every instruction leaves it unchanged
(`Properties.ExpiredOpenMarketIsFrozen`).

The program's `MathOverflow` (from `checked_add`/`checked_sub` on the total)
and `WinningOutcomeNotSet` errors cannot occur in a market that keeps `Inv`.
The methods therefore take those steps with their success proved, rather
than as error branches. The same applies to the token calls that `Inv`
rules out failing: both mints in split, the burns and vault payout in merge
and claim, and the revocations in set_winning_side. The `Settlement`
functions' error contracts say which errors each instruction can return.

## Model

| member | source | states |
|---|---|---|
| Seeds.IdBytes | programs/prediction_market/src/lib.rs:73 | `market_id.to_le_bytes()` is 4 bytes that read back as the id |
| Seeds.FromLeBytesOfLeBytes | programs/prediction_market/src/lib.rs:73 | decoding a little-endian encoding gives back the number, for every width |
| Seeds.LeBytesOfFromLeBytes | tests/prediction_market.ts:64 | every byte string is the little-endian encoding of its value |
| Seeds.IdBytesInjective | tests/prediction_market.ts:64 | distinct market ids have distinct 4-byte encodings |
| Seeds.SeedList | tests/prediction_market.ts:65-70 | an account's seed list is its tag followed by the 4 id bytes |
| Seeds.TagBytesInjective | tests/prediction_market.ts:65-70 | the four domain tags have pairwise different bytes |
| Seeds.SeedBytesInjective | tests/prediction_market.ts:65-70 | two (tag, id) pairs with the same seed bytes are the same pair, so no two markets or accounts share a seed |
| Seeds.SignerSeeds | programs/prediction_market/src/lib.rs:73-78 | the market signs with its own seed list followed by its bump |
| Token.Transfer | programs/prediction_market/src/lib.rs:61-71 | a transfer succeeds exactly when the source has enough and the destination cannot overflow. It moves exactly `amount` between the two accounts and leaves every other balance, every supply and the collateral total unchanged. |
| Token.MintTo | programs/prediction_market/src/lib.rs:81-105 | minting fails with FixedSupply once the authority is revoked and with Overflow past u64. On success it raises exactly one account and its mint's supply by `amount` and keeps supply equal to the sum of balances. |
| Token.Burn | programs/prediction_market/src/lib.rs:133-154 | burning fails with InsufficientFunds when the account holds too little. On success it lowers exactly one account and its mint's supply by `amount`. |
| Token.RevokeMintAuthority | programs/prediction_market/src/lib.rs:215-239 | revoking removes one mint's authority and touches nothing else. It fails when no authority is left. |
| Token.NoMintAfterRevoke | programs/prediction_market/src/lib.rs:224-225 | after revocation, any mint to anyone fails with FixedSupply |
| Settlement.Min | programs/prediction_market/src/lib.rs:129 | `a_bal.min(b_bal)` is the smaller of the two balances |
| Settlement.Initialize | programs/prediction_market/src/lib.rs:25-39 | fails with InvalidSettlementDeadline exactly when the deadline is not after `now`. Otherwise the market is unsettled, has no winner and has nothing locked, and it stores the given id, authority and deadline. Its outcome mints are empty and can mint. |
| Settlement.InitializeEstablishesInv | programs/prediction_market/src/lib.rs:37-39 | a freshly initialised market satisfies the accounting invariant |
| Settlement.Split | programs/prediction_market/src/lib.rs:53-109 | guards in order: MarketAlreadySettled, MarketExpired, InvalidAmount, then InsufficientFunds. On success the user's collateral drops by `amount`; the vault, both of the user's outcome balances, both supplies and the total rise by `amount`. Nothing else changes and the invariant is kept. |
| Settlement.Merge | programs/prediction_market/src/lib.rs:120-178 | same settled/expired guards. The amount is min(A, B) and fails with InvalidAmount when 0. On success both outcome balances and supplies drop by it, and the collateral moves from the vault to the user. The total drops by it and the invariant is kept. |
| Settlement.SetWinningSide | programs/prediction_market/src/lib.rs:190-239 | fails with MarketAlreadySettled once settled, else with MarketExpired at or after the deadline. On success it records the winner, revokes both mint authorities, leaves every balance, supply and the total unchanged, and keeps the invariant. |
| Settlement.Claim | programs/prediction_market/src/lib.rs:250-304 | fails with MarketNotSettled exactly when unsettled. Otherwise it burns the user's whole winning balance and pays exactly that from the vault, lowering the total and the winning supply by it. It leaves the losing balance and supply untouched and keeps the invariant. |
| Properties.SplitThenMergeRestores | tests/prediction_market.ts:224-287 | for a user with no matched pair, a merge at any time before the deadline after a split returns exactly the state before the split |
| Properties.SecondClaimPaysNothing | tests/prediction_market.ts:471-495 | a claim right after a claim succeeds, changes nothing and pays 0. In total the user receives their winning balance at the first claim. |
| Properties.NoMintingOnceSettled | programs/prediction_market/src/lib.rs:215-239 | in a settled market every mint on either outcome fails with FixedSupply |
| Properties.VaultCoversWinners | programs/prediction_market/src/lib.rs:289-304 | in a settled market the vault covers any user's winning balance, so the payout transfer cannot fail |
| Properties.Step | programs/prediction_market/src/lib.rs:18-314 | every instruction keeps the accounting invariant, and a settled market stays settled with the same winner |
| Properties.Run | programs/prediction_market/src/lib.rs:18-314 | any sequence of instructions keeps the accounting invariant |
| Properties.SettlementIsFinal | programs/prediction_market/src/lib.rs:190-204 | after any sequence of instructions, a settled market keeps its winner |
| Properties.NothingGrowsOnceSettled | programs/prediction_market/src/lib.rs:53 | after settlement, no sequence of instructions raises the locked total or either supply |
| Properties.ExpiredOpenMarketIsFrozen | programs/prediction_market/src/lib.rs:54-57 | once the deadline passes on an unsettled market, no sequence of instructions changes it |
| PredictionMarket.Market.InitializeMarket | programs/prediction_market/src/lib.rs:18-44 | creates a fresh market satisfying the invariant exactly when `Settlement.Initialize` succeeds, with that state |
| PredictionMarket.Market.SplitTokens | programs/prediction_market/src/lib.rs:46-113 | the step-by-step transfer, two mints and checked add return what `Settlement.Split` returns and leave its state, or leave the state unchanged |
| PredictionMarket.Market.MergeTokens | programs/prediction_market/src/lib.rs:116-182 | the min, two burns, payout and checked sub return what `Settlement.Merge` returns and leave its state |
| PredictionMarket.Market.SetWinningSide | programs/prediction_market/src/lib.rs:184-244 | the latch and two revocations return what `Settlement.SetWinningSide` returns and leave its state |
| PredictionMarket.Market.ClaimRewards | programs/prediction_market/src/lib.rs:246-314 | the burn, payout and checked sub return what `Settlement.Claim` returns and leave its state |
| Scenario.SettleAndClaim | tests/prediction_market.ts:324-545 | with user 1 holding 500 000 and having split 200 000, settling on A succeeds and a second settle fails with MarketAlreadySettled. The claim pays 200 000 back and leaves 0 of A and 200 000 of B; a second claim pays nothing. Split and merge then fail with MarketAlreadySettled. |
| Scenario.SplitAndMerge | tests/prediction_market.ts:149-313 | a split of 100 000 gives 100 000 of A, of B, in the vault and locked. A zero split fails, merge restores the collateral and a zero total, and a second merge fails with InvalidAmount. |

## Left out

- Anchor account plumbing: `Context`, the account structs, rent and `bump`
  are not modelled. Neither are the record's account references
  `outcome_a_mint`, `outcome_b_mint`, `collateral_mint` and
  `collateral_vault` (lib.rs:33-36). The market's single `Ledger` stands
  for the accounts they name. The `bump` appears only as a parameter of
  `Seeds.SignerSeeds`. The `instructions` and `state` modules are not part
  of this model. Whether the caller of `set_winning_side` must be the
  authority is decided there, so no `Unauthorized` error is modelled.
  Account existence is a precondition: an instruction's `user` must be one
  of the market's users (`HasUser`).
- Address derivation: the hash from a seed to an address is a
  cryptographic foreign call. Only the seed bytes are modelled.
- Token program: only balances, supplies, mint authority and the three
  errors above are modelled. Frozen accounts, delegates, decimals and
  native tokens are not. The set of users is fixed when the market opens.
- Token-program calls made outside the five instructions are not modelled:
  transfers of collateral or outcome tokens between users, a holder
  burning their own outcome tokens (a burn needs only the holder's
  signature, not the revoked mint authority), and anyone transferring
  collateral into the vault. The last two break the equalities of `Inv`.
  In the deployed program the invariant weakens to three inequalities:
  vault ≥ `total_collateral_locked`; before settlement each outcome supply
  ≤ the total; after settlement the winning supply ≤ the total. The
  losing supply is not bounded once claims have begun. The program's error
  paths do not change, because every inequality still points the safe way.
- `PredictionMarket.Market.InitializeMarket`: requires that the users'
  collateral fits in a `u64`. The collateral mint's own supply guarantees
  this, but the model takes it as a precondition.
- `Clock::get()`: the time is a parameter `now`.
- `msg!` logging is left out.
- The `InvalidWinningOutcome` check (lib.rs:197-200) is vacuous for a
  two-variant outcome, so it is left out.
- Concurrency: the host runs transactions on one account one at a time, so
  each instruction is modelled as one atomic step.

