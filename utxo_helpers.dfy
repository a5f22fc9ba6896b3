/**
 * x/utxo/helpers.go: the account-output record built from a birth message,
 * the sum of a transaction's output values, and the transaction hash.
 * The hashers are fed by sequences of `Write` calls; here each hash is
 * applied to the concatenation of what is written.
 */
module UtxoHelpers {
  import opened Sdk
  import opened Fmt
  import opened Conv
  import opened UtxoTypes
  import opened UtxoCodec
  import opened UtxoMsgs

  /** `sdk.Coin.String`: the amount in decimal followed by the denomination. */
  function CoinString(c: Coin): Bytes {
    DecimalDigits(c.amount) + c.denom
  }

  /** What `GenAccOutput` writes into SHA-256, in order. */
  function BirthPreimage(chainId: Bytes, address: Address, amount: Coin, sequence: uint64, height: int64): Bytes {
    chainId + address + CoinString(amount) + UInt64Bytes(sequence) + Int64Bytes(height)
  }

  /** The last twenty bytes of the preimage are the sequence buffer and the
      height buffer, so births that differ in sequence or in height hash
      different preimages. */
  lemma BirthPreimageSeparates(c1: Bytes, a1: Address, m1: Coin, s1: uint64, h1: int64,
                               c2: Bytes, a2: Address, m2: Coin, s2: uint64, h2: int64)
    requires s1 != s2 || h1 != h2
    ensures BirthPreimage(c1, a1, m1, s1, h1) != BirthPreimage(c2, a2, m2, s2, h2)
  {
    var p1, p2 := BirthPreimage(c1, a1, m1, s1, h1), BirthPreimage(c2, a2, m2, s2, h2);
    UInt64BytesShape(s1);
    UInt64BytesShape(s2);
    Int64BytesRoundTrip(h1);
    Int64BytesRoundTrip(h2);
    if |p1| == |p2| {
      var n := |p1|;
      assert p1[n - 20..n - 10] == UInt64Bytes(s1) && p2[n - 20..n - 10] == UInt64Bytes(s2);
      assert p1[n - 10..] == Int64Bytes(h1) && p2[n - 10..] == Int64Bytes(h2);
      if s1 != s2 {
        UInt64BytesInjective(s1, s2);
      } else {
        Int64BytesInjective(h1, h2);
      }
    }
  }

  /** What `GenAccOutput` yields: a record, a failed sequence lookup, or the
      panic of `Int64()` on an amount above the int64 range. */
  datatype Generated = Generated(output: AccOutput) | NoSequence | AmountPanic

  /** `GenAccOutput`: the ID hashes chain id, address, amount, the account's
      sequence and the block height; the record carries amount, address and
      height. */
  function GenAccOutput(env: Env, ctx: Context, msg: MsgBirthAccOutput): (r: Generated)
    ensures r.NoSequence? <==> msg.address !in ctx.sequences
    ensures r.AmountPanic? <==> msg.address in ctx.sequences && msg.amount.amount > MaxInt64
    ensures r.Generated? ==> && r.output.value == msg.amount.amount
                             && r.output.address == msg.address
                             && r.output.block == ctx.height
  {
    if msg.address !in ctx.sequences then NoSequence
    else
      var id := env.sha256(BirthPreimage(ctx.chainId, msg.address, msg.amount, ctx.sequences[msg.address], ctx.height));
      if msg.amount.amount > MaxInt64 then AmountPanic
      else Generated(AccOutput(id, msg.amount.amount, msg.address, ctx.height))
  }

  /** Two births of one address at different sequence numbers or heights are
      given IDs from different preimages. */
  lemma GenAccOutputPreimagesDiffer(env: Env, ctx1: Context, ctx2: Context, msg: MsgBirthAccOutput)
    requires GenAccOutput(env, ctx1, msg).Generated? && GenAccOutput(env, ctx2, msg).Generated?
    requires ctx1.sequences[msg.address] != ctx2.sequences[msg.address] || ctx1.height != ctx2.height
    ensures GenAccOutput(env, ctx1, msg).output.id == env.sha256(BirthPreimage(ctx1.chainId, msg.address, msg.amount, ctx1.sequences[msg.address], ctx1.height))
    ensures BirthPreimage(ctx1.chainId, msg.address, msg.amount, ctx1.sequences[msg.address], ctx1.height)
         != BirthPreimage(ctx2.chainId, msg.address, msg.amount, ctx2.sequences[msg.address], ctx2.height)
  {
    BirthPreimageSeparates(ctx1.chainId, msg.address, msg.amount, ctx1.sequences[msg.address], ctx1.height,
                           ctx2.chainId, msg.address, msg.amount, ctx2.sequences[msg.address], ctx2.height);
  }

  lemma {:induction false} OutputTotalPrefix(outs: seq<TxOut>, i: nat)
    requires i <= |outs|
    ensures OutputTotal(outs[..i]) <= OutputTotal(outs)
    decreases |outs| - i
  {
    if i < |outs| {
      OutputTotalPrefix(outs, i + 1);
      assert outs[..i + 1][..i] == outs[..i];
    } else {
      assert outs[..i] == outs;
    }
  }

  /** `GetTxOutValue` as written: a uint64 accumulator, so the sum wraps
      around at 2^64. */
  method GetTxOutValue(outputs: seq<TxOut>) returns (value: uint64)
    ensures value == OutputTotal(outputs) % TwoTo64
  {
    value := 0;
    for i := 0 to |outputs|
      invariant value == OutputTotal(outputs[..i]) % TwoTo64
    {
      assert outputs[..i + 1][..i] == outputs[..i];
      ModAdd(OutputTotal(outputs[..i]), outputs[i].value);
      value := (value + outputs[i].value) % TwoTo64;
    }
    assert outputs[..|outputs|] == outputs;
  }

  /** Outputs worth 2^64 + 100 in total sum to 100 in uint64, the value of a
      100-coin input. */
  lemma GetTxOutValueWraps()
    ensures var outs := [TxOut(TwoTo64 - 1, []), TxOut(101, [])];
      OutputTotal(outs) == TwoTo64 + 100 && OutputTotal(outs) % TwoTo64 == 100
  {
    var outs := [TxOut(TwoTo64 - 1, []), TxOut(101, [])];
    assert outs[..1] == [TxOut(TwoTo64 - 1, [])];
    assert outs[..1][..0] == [];
    assert OutputTotal(outs[..1]) == TwoTo64 - 1;
    assert OutputTotal(outs) == TwoTo64 + 100;
  }

  /** The summation the ledger needs: the exact total, with `ok` false when
      it does not fit in uint64. */
  method GetTxOutValueChecked(outputs: seq<TxOut>) returns (value: uint64, ok: bool)
    ensures ok <==> OutputTotal(outputs) < TwoTo64
    ensures ok ==> value == OutputTotal(outputs)
  {
    value, ok := 0, true;
    var i := 0;
    while i < |outputs| && ok
      invariant 0 <= i <= |outputs|
      invariant ok ==> value == OutputTotal(outputs[..i])
      invariant !ok ==> OutputTotal(outputs[..i]) >= TwoTo64
      decreases |outputs| - i
    {
      assert outputs[..i + 1][..i] == outputs[..i];
      if value + outputs[i].value < TwoTo64 {
        value := value + outputs[i].value;
      } else {
        ok := false;
      }
      i := i + 1;
    }
    OutputTotalPrefix(outputs, i);
    if ok {
      assert outputs[..i] == outputs;
    }
  }

  /** What `GenTxHash` writes for the inputs: each outpoint then its sequence. */
  function InputsPreimage(env: Env, ins: seq<TxIn>): Bytes {
    if ins == [] then []
    else env.encodeOutPoint(ins[0].input) + env.encodeUint32(ins[0].sequence) + InputsPreimage(env, ins[1..])
  }

  /** What `GenTxHash` writes for the outputs: each output's encoding. */
  function OutputsPreimage(env: Env, outs: seq<TxOut>): Bytes {
    if outs == [] then [] else env.encodeTxOut(outs[0]) + OutputsPreimage(env, outs[1..])
  }

  /** The lock time, then the inputs, then the outputs, in list order. */
  function TxPreimage(env: Env, tx: Tx): Bytes {
    env.encodeUint32(tx.lockTime) + InputsPreimage(env, tx.txIn) + OutputsPreimage(env, tx.txOut)
  }

  /** `GenTxHash`: SHA-256 of SHA-256 of the preimage. */
  function GenTxHash(env: Env, tx: Tx): Hash {
    env.sha256(env.sha256(TxPreimage(env, tx)))
  }

  /** Inputs contribute in list order: the preimage of a concatenation is the
      concatenation of the preimages, so the hash is of the order given. */
  lemma {:induction false} InputsPreimageAppend(env: Env, a: seq<TxIn>, b: seq<TxIn>)
    ensures InputsPreimage(env, a + b) == InputsPreimage(env, a) + InputsPreimage(env, b)
  {
    if a == [] {
      assert a + b == b;
    } else {
      assert (a + b)[0] == a[0];
      assert (a + b)[1..] == a[1..] + b;
      InputsPreimageAppend(env, a[1..], b);
    }
  }

  /** Same as `InputsPreimageAppend`, for the outputs. */
  lemma {:induction false} OutputsPreimageAppend(env: Env, a: seq<TxOut>, b: seq<TxOut>)
    ensures OutputsPreimage(env, a + b) == OutputsPreimage(env, a) + OutputsPreimage(env, b)
  {
    if a == [] {
      assert a + b == b;
    } else {
      assert (a + b)[0] == a[0];
      assert (a + b)[1..] == a[1..] + b;
      OutputsPreimageAppend(env, a[1..], b);
    }
  }

  /** Inputs that agree on outpoints and sequences write the same bytes,
      whatever their witnesses. */
  lemma {:induction false} InputsPreimageIgnoresWitness(env: Env, a: seq<TxIn>, b: seq<TxIn>)
    requires |a| == |b|
    requires forall i :: 0 <= i < |a| ==> a[i].input == b[i].input && a[i].sequence == b[i].sequence
    ensures InputsPreimage(env, a) == InputsPreimage(env, b)
  {
    if a != [] {
      InputsPreimageIgnoresWitness(env, a[1..], b[1..]);
    }
  }

  /** The transaction hash does not depend on any input's witness. */
  lemma GenTxHashIgnoresWitness(env: Env, a: Tx, b: Tx)
    requires a.lockTime == b.lockTime && a.txOut == b.txOut && |a.txIn| == |b.txIn|
    requires forall i :: 0 <= i < |a.txIn| ==> a.txIn[i].input == b.txIn[i].input && a.txIn[i].sequence == b.txIn[i].sequence
    ensures GenTxHash(env, a) == GenTxHash(env, b)
  {
    InputsPreimageIgnoresWitness(env, a.txIn, b.txIn);
  }
}
