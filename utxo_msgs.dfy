/**
 * x/utxo/msgs.go: the two UTXO messages, their stateless validation and
 * signers, the two-output pay-to-address builder and the canonical
 * orderings of inputs and outputs.
 */
module UtxoMsgs {
  import opened Sdk
  import opened KeyOrder
  import opened Sorting
  import opened UtxoTypes
  import opened UtxoCodec

  const RouterKey := "utxo"
  const TypeBirthAccOutput := "birth_acc_output"
  const TypeTx := "tx"

  /** The failure reasons of the UTXO ledger, one per message text of the source. */
  datatype UtxoError =
    | AmountNotPositive      // "Amount must be positive."
    | EmptyAddress           // the (empty) address's string
    | NoInputs               // "Must have at least one input."
    | NoOutputs              // "Must have at least one output."
    | EmptySigner            // the (empty) signer's string
    | NotEnoughCoins         // "Not enough coins to create UTXO."
    | AccOutputFailed        // "Error generating account UTXO."
    | AccOutputExists        // the corrected birth: a record with this ID is already stored
    | MultipleInputs         // "Multiple inputs not yet supported."
    | OutPointNotFound       // "OutPoint not found or already spent."
    | ValueMismatch          // "Mismatch between input and output values."
    | NotSpendable           // "OutPoint not spendable by message signer."
    | UnrecognizedMsg        // "Unrecognized utxo Msg type: ..."
    | Panicked               // a panic: missing record, index out of range, undecodable script
    | UnknownEndpoint        // "Unknown utxo query endpoint."
    | HashUndecodable        // "Error decoding transaction hash."
    | TxNotFound             // "Transaction not found."
    | BadAddress             // the query's address text

  datatype MsgBirthAccOutput = MsgBirthAccOutput(amount: Coin, address: Address)

  datatype MsgTx = MsgTx(tx: Tx, signer: Address)

  /** `MsgBirthAccOutput.ValidateBasic`: a positive amount, then a non-empty address. */
  function ValidateBirth(msg: MsgBirthAccOutput): (r: Outcome<UtxoError>)
    ensures r.Ok? <==> IsPositive(msg.amount) && |msg.address| > 0
    ensures !IsPositive(msg.amount) ==> r == Err(InsufficientCoins, AmountNotPositive)
    ensures IsPositive(msg.amount) && |msg.address| == 0 ==> r == Err(InvalidAddress, EmptyAddress)
  {
    if !IsPositive(msg.amount) then Err(InsufficientCoins, AmountNotPositive)
    else if |msg.address| == 0 then Err(InvalidAddress, EmptyAddress)
    else Ok
  }

  function BirthSigners(msg: MsgBirthAccOutput): seq<Address> {
    [msg.address]
  }

  /** `MsgTx.ValidateBasic`: at least one input, at least one output, a signer. */
  function ValidateTx(msg: MsgTx): (r: Outcome<UtxoError>)
    ensures r.Ok? <==> |msg.tx.txIn| > 0 && |msg.tx.txOut| > 0 && |msg.signer| > 0
    ensures |msg.tx.txIn| == 0 ==> r == Err(Internal, NoInputs)
    ensures |msg.tx.txIn| > 0 && |msg.tx.txOut| == 0 ==> r == Err(Internal, NoOutputs)
    ensures |msg.tx.txIn| > 0 && |msg.tx.txOut| > 0 && |msg.signer| == 0 ==> r == Err(InvalidAddress, EmptySigner)
  {
    if |msg.tx.txIn| == 0 then Err(Internal, NoInputs)
    else if |msg.tx.txOut| == 0 then Err(Internal, NoOutputs)
    else if |msg.signer| == 0 then Err(InvalidAddress, EmptySigner)
    else Ok
  }

  function TxSigners(msg: MsgTx): seq<Address> {
    [msg.signer]
  }

  /** Each message has exactly one signer, the address it validated as non-empty. */
  lemma SignersValidated(b: MsgBirthAccOutput, t: MsgTx)
    ensures |BirthSigners(b)| == 1 && BirthSigners(b)[0] == b.address
    ensures |TxSigners(t)| == 1 && TxSigners(t)[0] == t.signer
    ensures ValidateBirth(b).Ok? ==> |BirthSigners(b)[0]| > 0
    ensures ValidateTx(t).Ok? ==> |TxSigners(t)[0]| > 0
  {
  }

  /** The comparator of `SortTxOutputs`: by value, then by script bytes. */
  predicate OutputLess(a: TxOut, b: TxOut) {
    a.value < b.value || (a.value == b.value && Less(a.pkScript, b.pkScript))
  }

  /** The comparator `SortTxInputs` evidently intends: by outpoint hash bytes, then index. */
  predicate InputLess(a: TxIn, b: TxIn) {
    Less(a.input.hash, b.input.hash) || (a.input.hash == b.input.hash && a.input.index < b.input.index)
  }

  /** The comparator `SortTxInputs` has: both operands are read from the same index. */
  predicate InputLessAsWritten(a: TxIn, b: TxIn) {
    InputLess(a, a)
  }

  lemma OutputLessOrder()
    ensures StrictWeakOrder(OutputLess)
  {
    forall x: TxOut ensures !OutputLess(x, x) {
      LessIrreflexive(x.pkScript);
    }
    forall x: TxOut, y: TxOut, z: TxOut | OutputLess(x, y) && OutputLess(y, z) ensures OutputLess(x, z) {
      if x.value == y.value == z.value {
        LessTransitive(x.pkScript, y.pkScript, z.pkScript);
      }
    }
    forall x: TxOut, y: TxOut, z: TxOut | OutputLess(x, z) && !OutputLess(x, y) ensures OutputLess(y, z) {
      if x.value == y.value == z.value {
        if x.pkScript != y.pkScript {
          LessTotal(x.pkScript, y.pkScript);
          LessTransitive(y.pkScript, x.pkScript, z.pkScript);
        }
      }
    }
  }

  lemma InputLessOrder()
    ensures StrictWeakOrder(InputLess)
  {
    forall x: TxIn ensures !InputLess(x, x) {
      LessIrreflexive(x.input.hash);
    }
    forall x: TxIn, y: TxIn, z: TxIn | InputLess(x, y) && InputLess(y, z) ensures InputLess(x, z) {
      if Less(x.input.hash, y.input.hash) && Less(y.input.hash, z.input.hash) {
        LessTransitive(x.input.hash, y.input.hash, z.input.hash);
      }
    }
    forall x: TxIn, y: TxIn, z: TxIn | InputLess(x, z) && !InputLess(x, y) ensures InputLess(y, z) {
      var hx, hy, hz := x.input.hash, y.input.hash, z.input.hash;
      if hx != hy {
        LessTotal(hx, hy);
        if Less(hx, hz) {
          LessTransitive(hy, hx, hz);
        }
      }
    }
  }

  /** `SortTxOutputs` applied to a transaction's outputs. */
  function SortOutputs(outs: seq<TxOut>): seq<TxOut> {
    Sort(outs, OutputLess)
  }

  /** The outputs are rearranged, ordered by (value, script) with ties kept in
      place, and sorting again changes nothing. */
  lemma SortOutputsSpec(outs: seq<TxOut>, e: TxOut)
    ensures multiset(SortOutputs(outs)) == multiset(outs)
    ensures Sorted(SortOutputs(outs), OutputLess)
    ensures Filter(SortOutputs(outs), z => Equiv(OutputLess, z, e)) == Filter(outs, z => Equiv(OutputLess, z, e))
    ensures SortOutputs(SortOutputs(outs)) == SortOutputs(outs)
  {
    OutputLessOrder();
    SortPermutes(outs, OutputLess);
    SortSorted(outs, OutputLess);
    SortStable(outs, OutputLess, e);
    SortIdempotent(outs, OutputLess);
  }

  /** `SortTxInputs` as written: the inputs come back in the order given. */
  lemma SortTxInputsAsWrittenIsIdentity(ins: seq<TxIn>)
    ensures Sort(ins, InputLessAsWritten) == ins
  {
    forall x: TxIn, y: TxIn ensures !InputLessAsWritten(x, y) {
      LessIrreflexive(x.input.hash);
    }
    SortNeverLess(ins, InputLessAsWritten);
  }

  /** The input order `SortTxInputs` evidently intends. */
  function SortInputs(ins: seq<TxIn>): seq<TxIn> {
    Sort(ins, InputLess)
  }

  lemma SortInputsSpec(ins: seq<TxIn>, e: TxIn)
    ensures multiset(SortInputs(ins)) == multiset(ins)
    ensures Sorted(SortInputs(ins), InputLess)
    ensures Filter(SortInputs(ins), z => Equiv(InputLess, z, e)) == Filter(ins, z => Equiv(InputLess, z, e))
    ensures SortInputs(SortInputs(ins)) == SortInputs(ins)
  {
    InputLessOrder();
    SortPermutes(ins, InputLess);
    SortSorted(ins, InputLess);
    SortStable(ins, InputLess, e);
    SortIdempotent(ins, InputLess);
  }

  /** `SortTxOutputs(&tx)`: sorts the outputs slice in place. */
  method SortTxOutputs(outs: array<TxOut>)
    modifies outs
    ensures outs[..] == SortOutputs(old(outs[..]))
  {
    SortInPlace(outs, OutputLess);
  }

  /** `SortTxInputs(&tx)` as written; by `SortTxInputsAsWrittenIsIdentity`
      it leaves the slice as it was. */
  method SortTxInputs(ins: array<TxIn>)
    modifies ins
    ensures ins[..] == Sort(old(ins[..]), InputLessAsWritten)
  {
    SortInPlace(ins, InputLessAsWritten);
  }

  /** `SortTxInputs` with the comparator reading both indices. */
  method SortTxInputsByOutPoint(ins: array<TxIn>)
    modifies ins
    ensures ins[..] == SortInputs(old(ins[..]))
  {
    SortInPlace(ins, InputLess);
  }

  /** The outputs `NewTxPayToAddress` starts from: `amount` to `to`, then `change` to `from`. */
  function PayOutputs(env: Env, amount: uint64, change: uint64, from: Address, to: Address): seq<TxOut> {
    [TxOut(amount, env.encodePayToAddress(PayToAddress(to))),
     TxOut(change, env.encodePayToAddress(PayToAddress(from)))]
  }

  /** `NewTxPayToAddress`: one input spending (hash, index) with the given
      witness, two outputs, both lists put in canonical order. */
  function NewTxPayToAddress(env: Env, sig: Bytes, hash: Hash, index: int32, amount: uint64,
                             change: uint64, from: Address, to: Address): Tx
  {
    Tx(SortInputs([TxIn(OutPoint(hash, index), sig, 0)]),
       SortOutputs(PayOutputs(env, amount, change, from, to)),
       0)
  }

  /** The built transaction spends exactly the named outpoint and has exactly
      two outputs, the payment and the change (even a zero change), in one
      order or the other; so its outputs total `amount + change`, and each
      script decodes to its payee. */
  lemma NewTxPayToAddressSpec(env: Env, sig: Bytes, hash: Hash, index: int32, amount: uint64,
                              change: uint64, from: Address, to: Address)
    ensures var tx := NewTxPayToAddress(env, sig, hash, index, amount, change, from, to);
      && tx.txIn == [TxIn(OutPoint(hash, index), sig, 0)]
      && (tx.txOut == PayOutputs(env, amount, change, from, to)
          || tx.txOut == [PayOutputs(env, amount, change, from, to)[1], PayOutputs(env, amount, change, from, to)[0]])
      && OutputTotal(tx.txOut) == amount + change
      && tx.lockTime == 0
    ensures CodecSound(env) ==>
      var tx := NewTxPayToAddress(env, sig, hash, index, amount, change, from, to);
      exists i, j :: 0 <= i < 2 && 0 <= j < 2 && i != j
        && tx.txOut[i].value == amount && env.decodePayToAddress(tx.txOut[i].pkScript) == Some(PayToAddress(to))
        && tx.txOut[j].value == change && env.decodePayToAddress(tx.txOut[j].pkScript) == Some(PayToAddress(from))
  {
    var outs := PayOutputs(env, amount, change, from, to);
    assert Sort([outs[0]], OutputLess) == [outs[0]];
    assert [outs[0], outs[1]][..1] == [outs[0]];
    assert outs == [outs[0], outs[1]];
    assert outs[..1] == [outs[0]];
    assert SortOutputs(outs) == Insert([outs[0]], outs[1], OutputLess);
    assert ([] + [outs[1]]) + [outs[0]] == [outs[1], outs[0]];
    var tx := NewTxPayToAddress(env, sig, hash, index, amount, change, from, to);
    assert [outs[1], outs[0]][..1] == [outs[1]];
    assert [outs[0]][..0] == [] && [outs[1]][..0] == [];
    assert OutputTotal([outs[0]]) == amount;
    assert OutputTotal([outs[1]]) == change;
    assert OutputTotal(outs) == amount + change;
    assert OutputTotal([outs[1], outs[0]]) == change + amount;
    if CodecSound(env) {
      if tx.txOut == outs {
        assert 0 != 1 && tx.txOut[0].value == amount && env.decodePayToAddress(tx.txOut[0].pkScript) == Some(PayToAddress(to));
      } else {
        assert 1 != 0 && tx.txOut[1].value == amount && env.decodePayToAddress(tx.txOut[1].pkScript) == Some(PayToAddress(to));
      }
    }
  }

  /** With a single input the intended and the written input order agree,
      so the builder is unaffected by the comparator slip. */
  lemma NewTxPayToAddressInputOrder(sig: Bytes, hash: Hash, index: int32)
    ensures SortInputs([TxIn(OutPoint(hash, index), sig, 0)])
         == Sort([TxIn(OutPoint(hash, index), sig, 0)], InputLessAsWritten)
  {
    SortTxInputsAsWrittenIsIdentity([TxIn(OutPoint(hash, index), sig, 0)]);
  }
}
