# Gold-token lifecycle and provenance — a Dafny model

This project models the lifecycle logic of the gold-token Solana program
(`programs/GoldtokenManagement.rs`). A mint represents gold grams. Its authority issues tokens
into token accounts, optionally with a holding period. Holders transfer tokens, and each transfer
is recorded in a provenance ledger. A holding may be transformed into an NFT once its holding
period has elapsed.

The model has seven modules:

- `Primitives`: the source's `u64`, `i64` and 32-byte `Pubkey`, plus `Option` and `Result`.
- `Records`: `TransferRecord`, the token-info record (`TokenInfoPDA`'s fields), the program's
  `ErrorCode`, and the errors a handler can return. Besides the two program codes, a handler can
  fail with a token-program error or with a `?` applied to an absent value.
- `Addressing`: record addressing. `Pubkey::find_program_address` hashes the concatenated seeds.
  The hash is treated as injective, so an address is modelled by its seed bytes:
  `b"token_info" ++ mint ++ token_account` (74 bytes) or
  `b"provenance" ++ mint ++ from ++ to` (106 bytes).
  The lemmas recover the seeds from an address, prove both derivations injective, and prove that
  the two namespaces never alias. The namespaces are kept apart by the different lengths; within
  a namespace, the fixed 32-byte key width makes the concatenation injective.
- `HoldingPeriod`: the lock that `mint_gold_tokens` writes and the guard of `transform_to_nft`.
- `TokenLedger`: the token program behind `token::mint_to` and `token::transfer`, reduced to a
  map from token account to `u64` balance.
- `Provenance`: the class `ProvenancePda`. Its method `RecordTransfer` appends one record in
  place. The module also proves what a series of such calls leaves behind.
- `GoldTokenProgram`: the class `Program`. It holds the mint authorities, the balances, the
  token-info records and the provenance records, each record at its derived address. Its methods
  `MintGoldTokens`, `TransferGoldTokens` and `TransformToNft` are the three handlers.
  `DeriveProvenance` is `ProvenancePDA::derive` as a derive-or-create step, and
  `RecordProvenance` is the provenance step of a transfer. The ghost set `Repr` holds the
  provenance objects the program owns; a transfer may add a fresh one and touches no others.
  The invariant `Valid()` says:
  - every token-info record sits at the address derived from its own seeds, and carries a
    period, because only a locked issuance writes one;
  - every provenance object is in `Repr`, and no two addresses share one;
  - every ledger's mint is the mint its address was derived from;
  - every transfer in a ledger carries the (from, to) pair that addresses that ledger.

The clock is a parameter (`now`). Derivation of a record that was never written yields the
default record: holding start 0 and no period.

Facts about the code that shape the model:

- The provenance ledger is keyed by (mint, from, to). Each ledger therefore holds the history
  of one ordered pair of accounts, not of the whole mint (`Program.HistoryHoldsOnlyItsPair`).
- There is no "Transformed" state. `transform_to_nft` changes nothing, so it can succeed again
  and again (`HoldingPeriod.EligibilityPersists`).
- A second locked issuance is not rejected. It overwrites both fields and restarts the clock.
- Self-transfers and zero-amount transfers are accepted and recorded.
- A mint without an authority, and a record without a period, fail through `?`. That error is
  `MissingValue`, distinct from the program's own codes.

The source leaves some code unfinished: `derive` returns nothing, and the setters on the
token-info record are not defined. It also compares an `i64` difference with a `u64` period. The
model gives these their evident meaning: derive-or-default lookup, field writes, and comparison
of the mathematical values.

## Model

| member | source | states |
|---|---|---|
| `Addressing.TokenInfoSeedsRoundTrip` | programs/GoldtokenManagement.rs:275-279 | the (mint, token account) seeds are recovered from the token-info address they derive |
| `Addressing.TokenInfoSeedsExact` | programs/GoldtokenManagement.rs:275-279 | any address whose seeds are recovered is exactly the derivation of those seeds |
| `Addressing.TokenInfoAddressInjective` | programs/GoldtokenManagement.rs:275-279 | two (mint, account) pairs derive the same token-info record iff they are equal |
| `Addressing.ProvenanceSeedsRoundTrip` | programs/GoldtokenManagement.rs:300-304 | the (mint, from, to) seeds are recovered from the provenance address they derive |
| `Addressing.ProvenanceSeedsExact` | programs/GoldtokenManagement.rs:300-304 | any address whose provenance seeds are recovered is exactly their derivation |
| `Addressing.ProvenanceAddressInjective` | programs/GoldtokenManagement.rs:300-304 | two (mint, from, to) triples derive the same provenance record iff they are equal |
| `Addressing.NamespacesDisjoint` | programs/GoldtokenManagement.rs:275-304 | no token-info address equals a provenance address, and neither decodes as the other kind |
| `HoldingPeriod.CheckHoldingPeriod` | programs/GoldtokenManagement.rs:164-168 | the guard passes iff a period is recorded and `now - holding_start >= period`; an absent period fails with `MissingValue` (fails closed), an unelapsed one with `InsufficientHoldingPeriod` |
| `HoldingPeriod.LockedEligibility` | programs/GoldtokenManagement.rs:109-117 | after a lock at `start` with period `p`, eligibility at `now` is `now - start >= p`, whatever lock the record held before (re-issuing resets the clock) |
| `HoldingPeriod.ZeroPeriodEligible` | programs/GoldtokenManagement.rs:165-168 | with a zero period the holding is eligible iff `now >= holding_start` |
| `HoldingPeriod.EligibilityPersists` | programs/GoldtokenManagement.rs:165-168 | a holding eligible at `t1` is eligible at every later `t2` |
| `HoldingPeriod.CheckedElapsedAgrees` | programs/GoldtokenManagement.rs:164-168 | for non-negative timestamps, the guard with checked `i64` subtraction gives exactly the outcome of the guard on unbounded integers |
| `TokenLedger.MintTo` | programs/GoldtokenManagement.rs:95-106 | issuing succeeds iff the credited balance stays within `u64`, else fails with `Overflow`; on success the account gains exactly `amount` and every other balance is unchanged |
| `TokenLedger.Transfer` | programs/GoldtokenManagement.rs:128-138 | a transfer succeeds iff the source holds at least `amount` and (for distinct accounts) the destination stays within `u64`; failures are `InsufficientFunds` or `Overflow`; success debits `from` and credits `to` by `amount`, leaves a self-transfer's balances as they were, and changes no other account |
| `TokenLedger.TransferConserves` | programs/GoldtokenManagement.rs:128-138 | a successful transfer leaves the sum of the two balances unchanged |
| `Provenance.ProvenancePda.constructor` | programs/GoldtokenManagement.rs:300-306 | a newly derived provenance record belongs to its mint and holds no transfers |
| `Provenance.ProvenancePda.RecordTransfer` | programs/GoldtokenManagement.rs:308-315 | exactly one record (from, to, amount, timestamp) is appended at the end; all earlier entries are unchanged |
| `Provenance.RecordEachAppendsInCallOrder` | programs/GoldtokenManagement.rs:308-315 | a series of `record_transfer` calls yields the old ledger followed by the new records in call order; the length grows by one per call, and nothing is sorted, merged or removed |
| `GoldTokenProgram.Program.MintGoldTokens` | programs/GoldtokenManagement.rs:83-120 | the signer must be the mint's recorded authority (`InvalidMintAuthority` otherwise; `MissingValue` for a mint without one); a failure of the mint leaves balances and records unchanged; success credits the account, and with a period sets that pair's record to `holding_start = now`, `period = Some(p)`, leaving it untouched without one |
| `GoldTokenProgram.Program.DeriveProvenance` | programs/GoldtokenManagement.rs:300-306 | the record at the address derived from (mint, from, to) is returned, or created empty for `mint` (and fresh) when none exists; no ledger's contents change |
| `GoldTokenProgram.Program.RecordProvenance` | programs/GoldtokenManagement.rs:141-152 | the ledger derived from (mint, from, to) gains exactly the record (from, to, amount, now) at its end; every other ledger is unchanged; any provenance object added is fresh |
| `GoldTokenProgram.Program.TransferGoldTokens` | programs/GoldtokenManagement.rs:123-155 | if the token transfer fails, its error is returned and balances and every ledger are unchanged; on success balances are those of the token transfer, the ledger of (mint, from, to) gains exactly the record (from, to, amount, now) at its end, and every other ledger, by address or by triple, is unchanged; any provenance object added is fresh, so transfers compose |
| `GoldTokenProgram.Program.TransformToNft` | programs/GoldtokenManagement.rs:158-175 | succeeds iff the record of (mint, token account) is eligible; the outcome is exactly the guard's; no state changes |
| `GoldTokenProgram.Program.HistoryHoldsOnlyItsPair` | programs/GoldtokenManagement.rs:141-152 | every transfer in the ledger derived from (mint, from, to) went from `from` to `to` |
| `GoldTokenProgram.IssueLockedThenTransform` | programs/GoldtokenManagement.rs:83-175 | an issuance with period `p` at `now` followed by a transformation request at `later`: when the issuance succeeds, the request succeeds iff `later - now >= p` and otherwise fails with `InsufficientHoldingPeriod`; when it fails, the request sees the record as it was |
| `GoldTokenProgram.Program.FailsClosedIffNeverLocked` | programs/GoldtokenManagement.rs:164-168 | the transform guard fails through the absent period exactly when no locked issuance ever wrote the holding's record |
| `GoldTokenProgram.TransferTwiceThenOverdraw` | programs/GoldtokenManagement.rs:123-155 | two transfers on one (mint, from, to) followed by an overdraft: the ledger is the old one followed by the record of each successful transfer, in call order; the overdraft fails with `InsufficientFunds` and appends nothing |
| `GoldTokenProgram.Program.TokenInfoDescribesItsPair` | programs/GoldtokenManagement.rs:110-116 | the token-info record read for (mint, token account) names that mint and that account |

## Left out

- `initialize_gold_mint` (lines 17-80) is not modelled. It consists of calls into the token and
  metadata programs, a float formatted as a string, and a URI. Mints and their authorities are
  given to the `Program` constructor instead.
- The Anchor account constraints (lines 178-256) are not modelled. These are the signer checks,
  the "associated token account of this mint and owner" checks and the `mut` markers.
  `TransferGoldTokens` and `TransformToNft` therefore do not check that the caller owns the
  token account.
- TokenLedger.MintTo does not track the mint's total supply. The token program's supply-overflow
  check is therefore missing; only the destination balance is checked against `u64`.
- The token program's rent, decimals, account layout, frozen accounts and delegate authority are
  not modelled.
- The SHA-256 hash and the bump-seed search of `find_program_address` are not modelled. An
  address is its seed bytes, which amounts to assuming the hash has no collisions.
- `Clock::get()` is a parameter, so its failure path is not modelled.
- The NFT burn and mint in `transform_to_nft` are a comment in the source, so there is nothing
  to model.
- Serialization derives and the numeric values of the error codes are not modelled.
- HoldingPeriod.CheckHoldingPeriod computes `now - holding_start` on unbounded integers, so it
  does not abort whenever that difference leaves the `i64` range (for example `now = I64_MIN`,
  `holding_start = 1`). `CheckHoldingPeriodI64` makes the abort explicit, and
  `CheckedElapsedAgrees` shows the two guards agree for non-negative timestamps. No invariant
  keeps stored timestamps non-negative.
- There is no read-only history query and no persistent "Transformed" state in the source, so
  neither is modelled.
