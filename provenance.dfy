/** The provenance side-record and its append-only list of transfers. */
module Provenance {
  import opened Primitives
  import opened Records

  /** `ProvenancePDA`: the mint it belongs to and the transfers recorded so far. */
  class ProvenancePda {
    const mint: Pubkey
    var transfers: seq<TransferRecord>

    constructor (mint: Pubkey)
      ensures this.mint == mint && transfers == []
    {
      this.mint := mint;
      transfers := [];
    }

    /** `record_transfer`: pushes one record at the end; every earlier entry stays. */
    method RecordTransfer(from: Pubkey, to: Pubkey, amount: u64, timestamp: i64)
      modifies this
      ensures transfers == old(transfers) + [TransferRecord(from, to, amount, timestamp)]
    {
      transfers := transfers + [TransferRecord(from, to, amount, timestamp)];
    }
  }

  /** The transfers of a ledger after `record_transfer` is called once per element of
      `calls`, in that order, each call appending one record. */
  function RecordEach(transfers: seq<TransferRecord>, calls: seq<TransferRecord>): seq<TransferRecord>
    decreases |calls|
  {
    if calls == [] then transfers else RecordEach(transfers + [calls[0]], calls[1..])
  }

  /** A series of `record_transfer` calls keeps every earlier entry, grows the ledger by
      exactly one entry per call and lays the new entries down in call order: nothing is
      sorted by timestamp, merged or removed. */
  lemma {:induction false} RecordEachAppendsInCallOrder(transfers: seq<TransferRecord>, calls: seq<TransferRecord>)
    ensures RecordEach(transfers, calls) == transfers + calls
    ensures |RecordEach(transfers, calls)| == |transfers| + |calls|
    decreases |calls|
  {
    if calls != [] {
      RecordEachAppendsInCallOrder(transfers + [calls[0]], calls[1..]);
      assert transfers + [calls[0]] + calls[1..] == transfers + calls;
    }
  }
}
