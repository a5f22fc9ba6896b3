/**
 * x/htlc/keeper.go, with the record and status declared in
 * x/htlc/handler.go: one store of HTLC records keyed by their hash text,
 * beside the bank the records are funded from.
 */
module HtlcKeeper {
  import opened Sdk
  import opened KeyOrder
  import opened Bank
  import opened HtlcMsgs

  /** `Status`: 1, 2 and 3 in the source. */
  datatype Status = Created | Redeemed | Failed

  function StatusCode(st: Status): (c: nat)
    ensures 1 <= c <= 3
  {
    match st
    case Created => 1
    case Redeemed => 2
    case Failed => 3
  }

  /** The three statuses have three distinct codes. */
  lemma StatusCodeInjective(a: Status, b: Status)
    requires StatusCode(a) == StatusCode(b)
    ensures a == b
  {
  }

  /** `ObjHtlc`, the persisted record. */
  datatype ObjHtlc = ObjHtlc(amount: Coin, hash: Bytes, locktime: int64, redeemAddress: Address,
                             timeoutAddress: Address, status: Status, blockCreatedAt: int64)

  datatype HtlcState = HtlcState(htlcs: map<Bytes, ObjHtlc>, bank: Balances)

  /** Each record sits under its own hash. */
  ghost predicate HashKeysMatch(m: map<Bytes, ObjHtlc>) {
    forall h :: h in m ==> m[h].hash == h
  }

  class Keeper {
    /** `crypto/sha256.Sum256`, left uninterpreted. */
    const sha256: Bytes -> Bytes
    var htlcs: map<Bytes, ObjHtlc>
    var bank: Balances

    constructor (sha256: Bytes -> Bytes, bank: Balances)
      ensures this.sha256 == sha256 && this.bank == bank && htlcs == map[]
    {
      this.sha256 := sha256;
      this.bank := bank;
      htlcs := map[];
    }

    function State(): HtlcState
      reads this
    {
      HtlcState(htlcs, bank)
    }

    method HasHtlc(hash: Bytes) returns (b: bool)
      ensures b <==> hash in htlcs
    {
      b := hash in htlcs;
    }

    /** Stores the record under `obj.Hash`, overwriting; no other entry moves. */
    method UpsertHtlc(obj: ObjHtlc)
      modifies this
      ensures htlcs == old(htlcs)[obj.hash := obj] && bank == old(bank)
      ensures forall h :: h != obj.hash ==> (h in htlcs <==> h in old(htlcs))
      ensures forall h :: h != obj.hash && h in htlcs ==> htlcs[h] == old(htlcs)[h]
    {
      htlcs := htlcs[obj.hash := obj];
    }

    /** The record under the hash; `None` where decoding the missing value panics. */
    method GetHtlc(hash: Bytes) returns (r: Option<ObjHtlc>)
      ensures r.Some? <==> hash in htlcs
      ensures r.Some? ==> r.value == htlcs[hash]
    {
      r := if hash in htlcs then Some(htlcs[hash]) else None;
    }

    /** `Clear`: delete every key the iterator visits. */
    method Clear()
      modifies this
      ensures htlcs == map[] && bank == old(bank)
    {
      var keys := Iterate(htlcs.Keys);
      SortedKeysSpec(htlcs.Keys);
      assert keys[0..] == keys;
      for i := 0 to |keys|
        invariant forall h :: h in htlcs ==> h in keys[i..]
        invariant bank == old(bank)
      {
        DeleteNextKey(htlcs, keys, i);
        htlcs := htlcs - {keys[i]};
      }
      assert htlcs.Keys == {};
    }
  }
}
