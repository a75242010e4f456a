/**
 * The three instruction handlers of the gold-token program, over an abstract state:
 * each mint's recorded authority and the token balances (both owned by the token
 * program), and the program's two kinds of side-record, each stored at its derived
 * address.
 */
module GoldTokenProgram {
  import opened Primitives
  import opened Records
  import opened Addressing
  import opened HoldingPeriod
  import opened TokenLedger
  import opened Provenance

  class Program {
    /** Each mint's recorded mint authority; a mint absent here has none. */
    var mintAuthority: map<Pubkey, Pubkey>
    var balances: Balances
    /** Token-info records by their derived address. */
    var tokenInfo: map<Address, TokenInfo>
    /** Provenance records by their derived address. */
    var provenance: map<Address, ProvenancePda>
    /** The provenance objects the program owns. */
    ghost var Repr: set<ProvenancePda>

    /** Every token-info record is stored at the address derived from its own seeds and
        carries a period (only a locked issuance writes one); no two addresses share a
        provenance object; every provenance ledger's mint is the mint its address was
        derived from; and every transfer in a ledger has the (from, to) pair that, with
        the ledger's mint, addresses it. */
    ghost predicate Valid()
      reads this, Repr
    {
      && (forall a | a in provenance :: provenance[a] in Repr)
      && (forall a | a in tokenInfo :: TokenInfoAddress(tokenInfo[a].mint, tokenInfo[a].tokenAccount) == a)
      && (forall a | a in tokenInfo :: tokenInfo[a].nftTransformationPeriod.Some?)
      && (forall a, b | a in provenance && b in provenance && a != b :: provenance[a] != provenance[b])
      && (forall a | a in provenance :: ProvenanceSeeds(a).Some? && ProvenanceSeeds(a).value.0 == provenance[a].mint)
      && (forall a, i | a in provenance && 0 <= i < |provenance[a].transfers| ::
            ProvenanceAddress(provenance[a].mint, provenance[a].transfers[i].from, provenance[a].transfers[i].to) == a)
    }

    constructor (mintAuthority: map<Pubkey, Pubkey>, balances: Balances)
      ensures Valid()
      ensures this.mintAuthority == mintAuthority && this.balances == balances
      ensures tokenInfo == map[] && provenance == map[] && Repr == {}
    {
      this.mintAuthority := mintAuthority;
      this.balances := balances;
      tokenInfo := map[];
      provenance := map[];
      Repr := {};
    }

    /** `TokenInfoPDA::derive` followed by a read: the record at the derived address, or a
        fresh one with no lock when none was ever written. */
    function TokenInfoOf(mint: Pubkey, tokenAccount: Pubkey): TokenInfo
      reads this
    {
      var a := TokenInfoAddress(mint, tokenAccount);
      if a in tokenInfo then tokenInfo[a] else TokenInfo(mint, tokenAccount, 0, None)
    }

    /** The transfers stored at an address; empty when no record exists there. */
    function TransfersAt(a: Address): seq<TransferRecord>
      reads this, provenance.Values
    {
      if a in provenance then provenance[a].transfers else []
    }

    /** `ProvenancePDA::derive` followed by a read of its transfers. */
    function History(mint: Pubkey, from: Pubkey, to: Pubkey): seq<TransferRecord>
      reads this, provenance.Values
    {
      TransfersAt(ProvenanceAddress(mint, from, to))
    }

    /** `mint_gold_tokens`. */
    method MintGoldTokens(signer: Pubkey, mint: Pubkey, tokenAccount: Pubkey, amount: u64,
                          holdingPeriod: Option<u64>, now: i64) returns (r: Outcome)
      requires Valid()
      modifies this`balances, this`tokenInfo
      ensures Valid()
      ensures r.Pass? <==>
        mint in mintAuthority && signer == mintAuthority[mint] && MintTo(old(balances), tokenAccount, amount).Ok?
      ensures mint !in mintAuthority ==> r == Fail(MissingValue)
      ensures mint in mintAuthority && signer != mintAuthority[mint] ==> r == Fail(ProgramError(InvalidMintAuthority))
      ensures mint in mintAuthority && signer == mintAuthority[mint] && r.Fail? ==> r == Fail(Token(Overflow))
      ensures r.Fail? ==> balances == old(balances) && tokenInfo == old(tokenInfo)
      ensures r.Pass? ==> balances == MintTo(old(balances), tokenAccount, amount).value
      ensures r.Pass? && holdingPeriod.None? ==> tokenInfo == old(tokenInfo)
      ensures r.Pass? && holdingPeriod.Some? ==>
                tokenInfo == old(tokenInfo)[TokenInfoAddress(mint, tokenAccount) := Lock(old(TokenInfoOf(mint, tokenAccount)), now, holdingPeriod.value)]
      ensures r.Pass? && holdingPeriod.Some? ==>
        TokenInfoOf(mint, tokenAccount).holdingStart == now && TokenInfoOf(mint, tokenAccount).nftTransformationPeriod == holdingPeriod
    {
      if mint !in mintAuthority {
        return Fail(MissingValue);
      }
      if signer != mintAuthority[mint] {
        return Fail(ProgramError(InvalidMintAuthority));
      }
      var minted := MintTo(balances, tokenAccount, amount);
      if minted.Err? {
        return Fail(Token(minted.error));
      }
      balances := minted.value;
      match holdingPeriod {
        case None =>
        case Some(period) =>
          tokenInfo := tokenInfo[TokenInfoAddress(mint, tokenAccount) := Lock(TokenInfoOf(mint, tokenAccount), now, period)];
      }
      r := Pass;
    }

    /** `ProvenancePDA::derive`: the record at the address derived from (mint, from, to),
        created empty for `mint` when none exists there yet. Deriving changes no ledger. */
    method DeriveProvenance(mint: Pubkey, from: Pubkey, to: Pubkey) returns (pda: ProvenancePda)
      requires Valid()
      modifies this`provenance, this`Repr
      ensures Valid()
      ensures provenance == old(provenance)[ProvenanceAddress(mint, from, to) := pda]
      ensures ProvenanceAddress(mint, from, to) in old(provenance) ==> pda == old(provenance)[ProvenanceAddress(mint, from, to)]
      ensures ProvenanceAddress(mint, from, to) !in old(provenance) ==> fresh(pda) && pda.transfers == []
      ensures pda.mint == mint && pda in Repr
      ensures fresh(Repr - old(Repr))
      ensures forall a :: TransfersAt(a) == old(TransfersAt(a))
    {
      var address := ProvenanceAddress(mint, from, to);
      ProvenanceSeedsRoundTrip(mint, from, to);
      if address in provenance {
        pda := provenance[address];
      } else {
        pda := new ProvenancePda(mint);
        provenance := provenance[address := pda];
        Repr := Repr + {pda};
      }
    }

    /** The provenance step of `transfer_gold_tokens`: derive the record of (mint, from, to)
        and call `record_transfer` on it. Exactly one record is appended to that ledger;
        every other ledger is unchanged. */
    method RecordProvenance(mint: Pubkey, from: Pubkey, to: Pubkey, amount: u64, now: i64)
      requires Valid()
      modifies this`provenance, this`Repr, Repr
      ensures Valid()
      ensures fresh(Repr - old(Repr))
      ensures TransfersAt(ProvenanceAddress(mint, from, to)) ==
        old(TransfersAt(ProvenanceAddress(mint, from, to))) + [TransferRecord(from, to, amount, now)]
      ensures forall a :: a != ProvenanceAddress(mint, from, to) ==> TransfersAt(a) == old(TransfersAt(a))
    {
      var pda := DeriveProvenance(mint, from, to);
      ghost var address := ProvenanceAddress(mint, from, to);
      assert forall a | a in provenance && a != address :: provenance[a] != pda;
      label derived:
      pda.RecordTransfer(from, to, amount, now);
      forall a, i | a in provenance && 0 <= i < |provenance[a].transfers|
        ensures ProvenanceAddress(provenance[a].mint, provenance[a].transfers[i].from, provenance[a].transfers[i].to) == a
      {
        if a != address {
          assert provenance[a].transfers == old@derived(provenance[a].transfers);
        } else if i < |old@derived(pda.transfers)| {
          assert pda.transfers[i] == old@derived(pda.transfers[i]);
        }
      }
    }

    /** `transfer_gold_tokens`. */
    method TransferGoldTokens(mint: Pubkey, from: Pubkey, to: Pubkey, amount: u64, now: i64) returns (r: Outcome)
      requires Valid()
      modifies this`balances, this`provenance, this`Repr, Repr
      ensures Valid()
      ensures fresh(Repr - old(Repr))
      ensures r.Pass? <==> Transfer(old(balances), from, to, amount).Ok?
      ensures r.Fail? ==> Transfer(old(balances), from, to, amount).Err? &&
                          r.error == Token(Transfer(old(balances), from, to, amount).error)
      ensures r.Fail? ==> balances == old(balances) && provenance == old(provenance) && Repr == old(Repr)
      ensures r.Fail? ==> forall a :: TransfersAt(a) == old(TransfersAt(a))
      ensures r.Pass? ==> balances == Transfer(old(balances), from, to, amount).value
      ensures r.Pass? ==> History(mint, from, to) == old(History(mint, from, to)) + [TransferRecord(from, to, amount, now)]
      ensures forall a :: a != ProvenanceAddress(mint, from, to) ==> TransfersAt(a) == old(TransfersAt(a))
      ensures forall m: Pubkey, f: Pubkey, t: Pubkey | (m, f, t) != (mint, from, to) ::
        History(m, f, t) == old(History(m, f, t))
    {
      var moved := Transfer(balances, from, to, amount);
      if moved.Err? {
        return Fail(Token(moved.error));
      }
      balances := moved.value;
      RecordProvenance(mint, from, to, amount, now);
      r := Pass;
      forall m: Pubkey, f: Pubkey, t: Pubkey | (m, f, t) != (mint, from, to)
        ensures History(m, f, t) == old(History(m, f, t))
      {
        ProvenanceAddressInjective(m, f, t, mint, from, to);
      }
    }

    /** `transform_to_nft`: applies the holding-period guard to the record of
        (mint, token account) and changes nothing. */
    method TransformToNft(mint: Pubkey, tokenAccount: Pubkey, now: i64) returns (r: Outcome)
      ensures r == Pass <==> Eligible(TokenInfoOf(mint, tokenAccount), now)
      ensures r == CheckHoldingPeriod(TokenInfoOf(mint, tokenAccount), now)
    {
      var info := TokenInfoOf(mint, tokenAccount);
      r := CheckHoldingPeriod(info, now);
    }

    /** A provenance ledger is per pair: the ledger derived from (mint, from, to) only
        ever holds transfers from `from` to `to`. */
    lemma HistoryHoldsOnlyItsPair(mint: Pubkey, from: Pubkey, to: Pubkey)
      requires Valid()
      ensures forall i | 0 <= i < |History(mint, from, to)| ::
        History(mint, from, to)[i].from == from && History(mint, from, to)[i].to == to
    {
    }

    /** The transformation of a holding fails closed, through the `?` on its absent period,
        exactly when no locked issuance ever wrote its record. */
    lemma FailsClosedIffNeverLocked(mint: Pubkey, tokenAccount: Pubkey, now: i64)
      requires Valid()
      ensures CheckHoldingPeriod(TokenInfoOf(mint, tokenAccount), now) == Fail(MissingValue)
          <==> TokenInfoAddress(mint, tokenAccount) !in tokenInfo
    {
    }

    /** The token-info record of (mint, token account) describes that very pair. */
    lemma TokenInfoDescribesItsPair(mint: Pubkey, tokenAccount: Pubkey)
      requires Valid()
      ensures TokenInfoOf(mint, tokenAccount).mint == mint
      ensures TokenInfoOf(mint, tokenAccount).tokenAccount == tokenAccount
    {
      var a := TokenInfoAddress(mint, tokenAccount);
      if a in tokenInfo {
        TokenInfoAddressInjective(tokenInfo[a].mint, tokenInfo[a].tokenAccount, mint, tokenAccount);
      }
    }
  }

  /** Issuing with a holding period and then asking for the transformation: the
      transformation succeeds exactly when the period has elapsed since the issuance. */
  method IssueLockedThenTransform(program: Program, mint: Pubkey, tokenAccount: Pubkey,
                                  amount: u64, period: u64, now: i64, later: i64)
    returns (issued: Outcome, transformed: Outcome)
    requires program.Valid() && mint in program.mintAuthority
    modifies program`balances, program`tokenInfo
    ensures program.Valid()
    ensures issued.Pass? <==> MintTo(old(program.balances), tokenAccount, amount).Ok?
    ensures issued.Pass? ==> (transformed == Pass <==> later - now >= period)
    ensures issued.Pass? && later - now < period ==> transformed == Fail(ProgramError(InsufficientHoldingPeriod))
    ensures issued.Fail? ==> transformed == CheckHoldingPeriod(old(program.TokenInfoOf(mint, tokenAccount)), later)
  {
    issued := program.MintGoldTokens(program.mintAuthority[mint], mint, tokenAccount, amount, Some(period), now);
    transformed := program.TransformToNft(mint, tokenAccount, later);
    LockedEligibility(old(program.TokenInfoOf(mint, tokenAccount)), now, period, later);
  }

  /** Two transfers on one (mint, from, to) followed by an overdraft: each successful
      transfer appends its record to that ledger in call order, and the overdraft fails
      with `InsufficientFunds` and appends nothing. */
  method TransferTwiceThenOverdraw(program: Program, mint: Pubkey, from: Pubkey, to: Pubkey,
                                   first: u64, second: u64, excess: u64, t1: i64, t2: i64, t3: i64)
    returns (r1: Outcome, r2: Outcome, r3: Outcome)
    requires program.Valid()
    requires excess > BalanceOf(program.balances, from)
    modifies program, program.Repr
    ensures program.Valid()
    ensures program.History(mint, from, to) ==
      old(program.History(mint, from, to))
        + (if r1.Pass? then [TransferRecord(from, to, first, t1)] else [])
        + (if r2.Pass? then [TransferRecord(from, to, second, t2)] else [])
    ensures r3 == Fail(Token(InsufficientFunds))
  {
    ghost var before := program.History(mint, from, to);
    r1 := program.TransferGoldTokens(mint, from, to, first, t1);
    r2 := program.TransferGoldTokens(mint, from, to, second, t2);
    ghost var afterSecond := program.History(mint, from, to);
    r3 := program.TransferGoldTokens(mint, from, to, excess, t3);
    if r1.Pass? && r2.Pass? {
      assert afterSecond == before + [TransferRecord(from, to, first, t1)] + [TransferRecord(from, to, second, t2)];
    }
  }
}
