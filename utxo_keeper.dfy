/**
 * x/utxo/keeper.go: the UTXO ledger's three stores and the bank it debits.
 * The account-output store is keyed by record ID, the outpoint store by
 * "HEX:index", and the transaction store by transaction hash. Values are
 * kept decoded: each store maps a key to the record whose Amino encoding
 * the source writes there.
 */
module UtxoKeeper {
  import opened Sdk
  import opened Fmt
  import opened KeyOrder
  import opened Bank
  import opened UtxoTypes
  import opened UtxoCodec

  /** `fmt.Sprintf("%s:%d", outpoint.Hash, outpoint.Index)`, `%s` being `Hash.String`. */
  function OutPointKey(op: OutPoint): Bytes {
    HashString(op.hash) + [Colon] + FormatInt(op.index)
  }

  /** The position of the first colon, or the length when there is none. */
  function FirstColon(s: Bytes): (n: nat)
    ensures n <= |s|
  {
    if s == [] || s[0] == Colon then 0 else 1 + FirstColon(s[1..])
  }

  lemma {:induction false} FirstColonAt(s: Bytes, n: nat)
    requires n < |s| && s[n] == Colon
    requires forall k :: 0 <= k < n ==> s[k] != Colon
    ensures FirstColon(s) == n
  {
    if n > 0 {
      FirstColonAt(s[1..], n - 1);
    }
  }

  /** The colon of the key sits right after the hash's rendering. */
  lemma OutPointKeyColon(op: OutPoint)
    ensures FirstColon(OutPointKey(op)) == |HashString(op.hash)|
  {
    HashStringAlphabet(op.hash);
    FirstColonAt(OutPointKey(op), |HashString(op.hash)|);
  }

  /** Distinct outpoints are stored under distinct keys. */
  lemma OutPointKeyInjective(a: OutPoint, b: OutPoint)
    requires OutPointKey(a) == OutPointKey(b)
    ensures a == b
  {
    var key := OutPointKey(a);
    OutPointKeyColon(a);
    OutPointKeyColon(b);
    var n := |HashString(a.hash)|;
    assert HashString(a.hash) == key[..n] == HashString(b.hash);
    HashStringInjective(a.hash, b.hash);
    assert FormatInt(a.index) == key[n + 1..] == FormatInt(b.index);
    FormatIntInjective(a.index, b.index);
  }

  /** Each stored outpoint sits under its own key. */
  ghost predicate KeysMatch(m: map<Bytes, OutPoint>) {
    forall k :: k in m ==> OutPointKey(m[k]) == k
  }

  /** Each stored account output sits under its ID. */
  ghost predicate AccKeysMatch(m: map<Hash, AccOutput>) {
    forall k :: k in m ==> m[k].id == k
  }

  /** The store after `PutOutPoint(op)`. */
  function PutOutPointIn(m: map<Bytes, OutPoint>, op: OutPoint): map<Bytes, OutPoint> {
    m[OutPointKey(op) := op]
  }

  /** The store after `DeleteOutPoint(op)`. */
  function DeleteOutPointIn(m: map<Bytes, OutPoint>, op: OutPoint): map<Bytes, OutPoint> {
    m - {OutPointKey(op)}
  }

  /** Putting an outpoint makes it live and touches no other outpoint; putting
      one that is already live changes nothing. */
  lemma PutOutPointLive(m: map<Bytes, OutPoint>, op: OutPoint)
    requires KeysMatch(m)
    ensures KeysMatch(PutOutPointIn(m, op))
    ensures PutOutPointIn(m, op).Values == m.Values + {op}
    ensures op in m.Values ==> PutOutPointIn(m, op) == m
  {
    var r := PutOutPointIn(m, op);
    forall v | v in m.Values ensures v in r.Values {
      var k :| k in m && m[k] == v;
      if k == OutPointKey(op) {
        OutPointKeyInjective(v, op);
        assert r[k] == v;
      } else {
        assert r[k] == v;
      }
    }
    assert r[OutPointKey(op)] == op;
    if op in m.Values {
      var k :| k in m && m[k] == op;
      assert k == OutPointKey(op);
    }
  }

  /** Deleting an outpoint makes exactly that outpoint not live. */
  lemma DeleteOutPointLive(m: map<Bytes, OutPoint>, op: OutPoint)
    requires KeysMatch(m)
    ensures KeysMatch(DeleteOutPointIn(m, op))
    ensures DeleteOutPointIn(m, op).Values == m.Values - {op}
  {
    var r := DeleteOutPointIn(m, op);
    forall v | v in m.Values && v != op ensures v in r.Values {
      var k :| k in m && m[k] == v;
      if OutPointKey(v) == OutPointKey(op) {
        OutPointKeyInjective(v, op);
      }
      assert r[k] == v;
    }
  }

  /** `ListUtxo` yields every live outpoint exactly once. */
  lemma ListUtxoSpec(m: map<Bytes, OutPoint>)
    requires KeysMatch(m)
    ensures forall op :: op in InKeyOrder(m) <==> op in m.Values
    ensures forall i, j :: 0 <= i < j < |InKeyOrder(m)| ==> InKeyOrder(m)[i] != InKeyOrder(m)[j]
  {
    InKeyOrderSpec(m);
    InKeyOrderDistinct(m, OutPointKey);
  }

  /** `ListAccOutput` yields every stored account output exactly once. */
  lemma ListAccOutputSpec(m: map<Hash, AccOutput>)
    requires AccKeysMatch(m)
    ensures forall a :: a in InKeyOrder(m) <==> a in m.Values
    ensures forall i, j :: 0 <= i < j < |InKeyOrder(m)| ==> InKeyOrder(m)[i] != InKeyOrder(m)[j]
  {
    InKeyOrderSpec(m);
    InKeyOrderDistinct(m, (a: AccOutput) => a.id);
  }

  /** The whole ledger state a handler reads and writes. */
  datatype UtxoState = UtxoState(
    accOutputs: map<Hash, AccOutput>,
    outpoints: map<Bytes, OutPoint>,
    txs: map<Hash, Tx>,
    bank: Balances)

  /** The live outpoints, the UTXO set. */
  ghost function Live(s: UtxoState): set<OutPoint> {
    s.outpoints.Values
  }

  class Keeper {
    const env: Env
    var accOutputs: map<Hash, AccOutput>
    var outpoints: map<Bytes, OutPoint>
    var txs: map<Hash, Tx>
    var bank: Balances

    constructor (env: Env, bank: Balances)
      ensures this.env == env && this.bank == bank
      ensures accOutputs == map[] && outpoints == map[] && txs == map[]
    {
      this.env := env;
      this.bank := bank;
      accOutputs, outpoints, txs := map[], map[], map[];
    }

    function State(): UtxoState
      reads this
    {
      UtxoState(accOutputs, outpoints, txs, bank)
    }

    /** Stores the record under its ID, overwriting. */
    method PutAccOutput(accUtxo: AccOutput)
      modifies this
      ensures accOutputs == old(accOutputs)[accUtxo.id := accUtxo]
      ensures outpoints == old(outpoints) && txs == old(txs) && bank == old(bank)
    {
      accOutputs := accOutputs[accUtxo.id := accUtxo];
    }

    /** Every account output, in key order. */
    method ListAccOutput() returns (records: seq<AccOutput>)
      ensures records == InKeyOrder(accOutputs)
    {
      var keys := Iterate(accOutputs.Keys);
      InKeyOrderSpec(accOutputs);
      records := [];
      for i := 0 to |keys|
        invariant |records| == i
        invariant forall j :: 0 <= j < i ==> records[j] == accOutputs[keys[j]]
      {
        records := records + [accOutputs[keys[i]]];
      }
    }

    /** Stores the outpoint under its "HEX:index" key. */
    method PutOutPoint(outpoint: OutPoint)
      modifies this
      ensures outpoints == PutOutPointIn(old(outpoints), outpoint)
      ensures accOutputs == old(accOutputs) && txs == old(txs) && bank == old(bank)
    {
      outpoints := outpoints[OutPointKey(outpoint) := outpoint];
    }

    /** Every live outpoint, in key order. */
    method ListUtxo() returns (records: seq<OutPoint>)
      ensures records == InKeyOrder(outpoints)
    {
      var keys := Iterate(outpoints.Keys);
      InKeyOrderSpec(outpoints);
      records := [];
      for i := 0 to |keys|
        invariant |records| == i
        invariant forall j :: 0 <= j < i ==> records[j] == outpoints[keys[j]]
      {
        records := records + [outpoints[keys[i]]];
      }
    }

    method HasOutPoint(outpoint: OutPoint) returns (b: bool)
      ensures b <==> OutPointKey(outpoint) in outpoints
    {
      b := OutPointKey(outpoint) in outpoints;
    }

    method DeleteOutPoint(outpoint: OutPoint)
      modifies this
      ensures outpoints == DeleteOutPointIn(old(outpoints), outpoint)
      ensures accOutputs == old(accOutputs) && txs == old(txs) && bank == old(bank)
    {
      outpoints := outpoints - {OutPointKey(outpoint)};
    }

    method PutTx(hash: Hash, tx: Tx)
      modifies this
      ensures txs == old(txs)[hash := tx]
      ensures accOutputs == old(accOutputs) && outpoints == old(outpoints) && bank == old(bank)
    {
      txs := txs[hash := tx];
    }

    method HasTx(hash: Hash) returns (b: bool)
      ensures b <==> hash in txs
    {
      b := hash in txs;
    }

    /** The stored transaction; `None` where the source's decoding of a missing value panics. */
    method GetTx(hash: Hash) returns (r: Option<Tx>)
      ensures r.Some? <==> hash in txs
      ensures r.Some? ==> r.value == txs[hash]
    {
      r := if hash in txs then Some(txs[hash]) else None;
    }

    /** The stored account output; `None` where the source's decoding of a missing value panics. */
    method GetAccOutput(id: Hash) returns (r: Option<AccOutput>)
      ensures r.Some? <==> id in accOutputs
      ensures r.Some? ==> r.value == accOutputs[id]
    {
      r := if id in accOutputs then Some(accOutputs[id]) else None;
    }

    /** Every stored transaction with its hash, in key order. */
    method ListTx() returns (records: seq<Tx>, ids: seq<Hash>)
      ensures ids == SortedKeys(txs.Keys)
      ensures records == InKeyOrder(txs)
    {
      ids := Iterate(txs.Keys);
      InKeyOrderSpec(txs);
      records := [];
      for i := 0 to |ids|
        invariant |records| == i
        invariant forall j :: 0 <= j < i ==> records[j] == txs[ids[j]]
      {
        records := records + [txs[ids[i]]];
      }
    }
  }
}
