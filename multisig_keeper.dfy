/**
 * x/multisig/handlers/keeper.go: the escrow contracts, keyed by ID, beside
 * the bank they are funded from.
 */
module MultisigKeeper {
  import opened Sdk
  import opened Bank

  /** `State`: 1, 2 and 3 in the source. */
  datatype State = StateCreated | StateLocked | StateAborted

  function StateCode(st: State): (c: int)
    ensures 1 <= c <= 3
  {
    match st
    case StateCreated => 1
    case StateLocked => 2
    case StateAborted => 3
  }

  /** The three states have three distinct codes. */
  lemma StateCodeInjective(a: State, b: State)
    requires StateCode(a) == StateCode(b)
    ensures a == b
  {
  }

  datatype Contract = Contract(id: Bytes, state: State, aliceAmount: Coin, aliceAddress: Address,
                               bobAmount: Coin, bobAddress: Address, balance: Coin)

  datatype MultisigState = MultisigState(contracts: map<Bytes, Contract>, bank: Balances)

  class Keeper {
    var contracts: map<Bytes, Contract>
    var bank: Balances

    constructor (bank: Balances)
      ensures this.bank == bank && contracts == map[]
    {
      this.bank := bank;
      contracts := map[];
    }

    function State(): MultisigState
      reads this
    {
      MultisigState(contracts, bank)
    }

    method HasContract(id: Bytes) returns (b: bool)
      ensures b <==> id in contracts
    {
      b := id in contracts;
    }

    /** Stores the contract under `obj.ID`, overwriting; no other ID moves. */
    method UpsertContract(obj: Contract)
      modifies this
      ensures contracts == old(contracts)[obj.id := obj] && bank == old(bank)
      ensures forall id :: id != obj.id ==> (id in contracts <==> id in old(contracts))
      ensures forall id :: id != obj.id && id in contracts ==> contracts[id] == old(contracts)[id]
    {
      contracts := contracts[obj.id := obj];
    }

    /** The contract under the ID; `None` where decoding the missing value panics. */
    method GetContract(id: Bytes) returns (r: Option<Contract>)
      ensures r.Some? <==> id in contracts
      ensures r.Some? ==> r.value == contracts[id]
    {
      r := if id in contracts then Some(contracts[id]) else None;
    }
  }
}
