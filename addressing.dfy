/**
 * Record addressing. A program-derived address is a hash of the concatenated seed bytes
 * (`Pubkey::find_program_address`). The hash is treated as injective, so an address is
 * modelled by the seed bytes themselves; two addresses are equal exactly when their seed
 * byte strings are.
 */
module Addressing {
  import opened Primitives

  type Address = seq<byte>

  /** b"token_info" */
  const TOKEN_INFO_SEED: seq<byte> := [0x74, 0x6f, 0x6b, 0x65, 0x6e, 0x5f, 0x69, 0x6e, 0x66, 0x6f]

  /** b"provenance" */
  const PROVENANCE_SEED: seq<byte> := [0x70, 0x72, 0x6f, 0x76, 0x65, 0x6e, 0x61, 0x6e, 0x63, 0x65]

  /** `TokenInfoPDA::derive`: seeds [b"token_info", mint, token_account]. */
  function TokenInfoAddress(mint: Pubkey, tokenAccount: Pubkey): Address
  {
    TOKEN_INFO_SEED + mint + tokenAccount
  }

  /** `ProvenancePDA::derive`: seeds [b"provenance", mint, from, to]. */
  function ProvenanceAddress(mint: Pubkey, from: Pubkey, to: Pubkey): Address
  {
    PROVENANCE_SEED + mint + from + to
  }

  /** Recovers the (mint, token account) seeds of a token-info address, if it is one. */
  function TokenInfoSeeds(a: Address): Option<(Pubkey, Pubkey)>
  {
    if |a| == 74 && a[..10] == TOKEN_INFO_SEED then Some((a[10..42], a[42..])) else None
  }

  /** Recovers the (mint, from, to) seeds of a provenance address, if it is one. */
  function ProvenanceSeeds(a: Address): Option<(Pubkey, Pubkey, Pubkey)>
  {
    if |a| == 106 && a[..10] == PROVENANCE_SEED then Some((a[10..42], a[42..74], a[74..])) else None
  }

  lemma {:induction false} TokenInfoSeedsRoundTrip(mint: Pubkey, tokenAccount: Pubkey)
    ensures TokenInfoSeeds(TokenInfoAddress(mint, tokenAccount)) == Some((mint, tokenAccount))
  {
  }

  lemma {:induction false} TokenInfoSeedsExact(a: Address)
    ensures TokenInfoSeeds(a).Some? ==> TokenInfoAddress(TokenInfoSeeds(a).value.0, TokenInfoSeeds(a).value.1) == a
  {
  }

  lemma {:induction false} ProvenanceSeedsRoundTrip(mint: Pubkey, from: Pubkey, to: Pubkey)
    ensures ProvenanceSeeds(ProvenanceAddress(mint, from, to)) == Some((mint, from, to))
  {
    var a := ProvenanceAddress(mint, from, to);
    assert a[..10] == PROVENANCE_SEED;
    assert a[10..42] == mint;
    assert a[42..74] == from;
    assert a[74..] == to;
  }

  lemma {:induction false} ProvenanceSeedsExact(a: Address)
    ensures ProvenanceSeeds(a).Some? ==>
      ProvenanceAddress(ProvenanceSeeds(a).value.0, ProvenanceSeeds(a).value.1, ProvenanceSeeds(a).value.2) == a
  {
  }

  /** Equal (mint, account) pairs derive the same token-info record, and only they do. */
  lemma {:induction false} TokenInfoAddressInjective(m1: Pubkey, acct1: Pubkey, m2: Pubkey, acct2: Pubkey)
    ensures TokenInfoAddress(m1, acct1) == TokenInfoAddress(m2, acct2) <==> m1 == m2 && acct1 == acct2
  {
    TokenInfoSeedsRoundTrip(m1, acct1);
    TokenInfoSeedsRoundTrip(m2, acct2);
  }

  /** Equal (mint, from, to) triples derive the same provenance record, and only they do. */
  lemma {:induction false} ProvenanceAddressInjective(m1: Pubkey, f1: Pubkey, t1: Pubkey, m2: Pubkey, f2: Pubkey, t2: Pubkey)
    ensures ProvenanceAddress(m1, f1, t1) == ProvenanceAddress(m2, f2, t2) <==> m1 == m2 && f1 == f2 && t1 == t2
  {
    ProvenanceSeedsRoundTrip(m1, f1, t1);
    ProvenanceSeedsRoundTrip(m2, f2, t2);
  }

  /** No token-info address is a provenance address, nor the other way round. */
  lemma NamespacesDisjoint(mint: Pubkey, tokenAccount: Pubkey, m: Pubkey, from: Pubkey, to: Pubkey)
    ensures TokenInfoAddress(mint, tokenAccount) != ProvenanceAddress(m, from, to)
    ensures ProvenanceSeeds(TokenInfoAddress(mint, tokenAccount)) == None
    ensures TokenInfoSeeds(ProvenanceAddress(m, from, to)) == None
  {
  }
}
