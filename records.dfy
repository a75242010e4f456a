/** The records and error kinds of the gold-token program. */
module Records {
  import opened Primitives

  /** The program's own error codes (`ErrorCode`). */
  datatype ErrorCode = InvalidMintAuthority | InsufficientHoldingPeriod

  /** The failures of the token program that `token::mint_to` and `token::transfer` propagate. */
  datatype TokenError = InsufficientFunds | Overflow

  /** Everything an instruction handler can fail with: one of its own codes, a failure
      of the token program, a `?` applied to an absent optional value, or an aborting
      integer overflow. */
  datatype Error = ProgramError(code: ErrorCode) | Token(cause: TokenError) | MissingValue | ArithmeticOverflow

  /** The `Result<()>` of an instruction handler. */
  datatype Outcome = Pass | Fail(error: Error)

  /** One entry of a provenance ledger. */
  datatype TransferRecord = TransferRecord(from: Pubkey, to: Pubkey, amount: u64, timestamp: i64)

  /** The side-record kept per (mint, token account): the holding-period lock. */
  datatype TokenInfo = TokenInfo(
    mint: Pubkey,
    tokenAccount: Pubkey,
    holdingStart: i64,
    nftTransformationPeriod: Option<u64>)
}
