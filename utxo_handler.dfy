/**
 * x/utxo/handler.go: account birth and single-input spend. Each handler is
 * an imperative method on the keeper, proved equal to a step function on
 * the ledger state (`BirthStep`, `TxStep`); the ledger's invariants are
 * lemmas about the step functions. A rejected message leaves the state as
 * it was, as the SDK discards the writes of a failed message.
 */
module UtxoHandler {
  import opened Sdk
  import opened Bank
  import opened UtxoTypes
  import opened UtxoCodec
  import opened UtxoMsgs
  import opened UtxoHelpers
  import opened UtxoKeeper

  datatype Transition = Transition(result: Outcome<UtxoError>, state: UtxoState)

  /** `handleMsgBirthAccOutput` as written: debit the amount, build the
      record, store it and its outpoint `(ID, -1)`, overwriting a record
      already stored under that ID. */
  function BirthStepAsWritten(env: Env, s: UtxoState, ctx: Context, msg: MsgBirthAccOutput): Transition {
    var debited := SubtractCoins(s.bank, msg.address, msg.amount);
    if debited.None? then Transition(Err(InsufficientCoins, NotEnoughCoins), s)
    else match GenAccOutput(env, ctx, msg)
      case NoSequence => Transition(Err(Internal, AccOutputFailed), s)
      case AmountPanic => Transition(Err(Panic, Panicked), s)
      case Generated(a) =>
        Transition(Ok, s.(bank := debited.value,
                          accOutputs := s.accOutputs[a.id := a],
                          outpoints := PutOutPointIn(s.outpoints, OutPoint(a.id, OutPointAccountBirth))))
  }

  /** The birth the ledger uses: as written, except that a record ID that is
      already stored is refused, so that an ID names one record once. */
  function BirthStep(env: Env, s: UtxoState, ctx: Context, msg: MsgBirthAccOutput): Transition {
    var written := BirthStepAsWritten(env, s, ctx, msg);
    if written.result.Ok? && GenAccOutput(env, ctx, msg).output.id in s.accOutputs
    then Transition(Err(Internal, AccOutputExists), s)
    else written
  }

  /** What spending an outpoint yields: its owner and value, nothing (an
      index below -1), or a panic (a missing record, an index past the
      outputs, a script that does not decode). */
  datatype Resolution = Owned(owner: Address, value: uint64) | Unowned | Unresolvable

  function Resolve(env: Env, s: UtxoState, op: OutPoint): Resolution {
    if op.index >= 0 then
      if op.hash !in s.txs || op.index >= |s.txs[op.hash].txOut| then Unresolvable
      else
        var out := s.txs[op.hash].txOut[op.index];
        match env.decodePayToAddress(out.pkScript)
        case None => Unresolvable
        case Some(p) => Owned(p.address, out.value)
    else if op.index == OutPointAccountBirth then
      if op.hash !in s.accOutputs then Unresolvable
      else Owned(s.accOutputs[op.hash].address, s.accOutputs[op.hash].value)
    else Unowned
  }

  /** The index selects what an outpoint names: a non-negative index an
      output of the tx stored under the hash, index -1 the account output
      stored under it, and any lower index nothing at all. */
  lemma ResolveKinds(env: Env, s: UtxoState, op: OutPoint)
    ensures Resolve(env, s, op).Unowned? <==> op.index < OutPointAccountBirth
    ensures op.index >= 0 ==>
      (!Resolve(env, s, op).Unresolvable? <==>
         op.hash in s.txs && op.index < |s.txs[op.hash].txOut|
         && env.decodePayToAddress(s.txs[op.hash].txOut[op.index].pkScript).Some?)
    ensures op.index >= 0 && Resolve(env, s, op).Owned? ==>
      && Resolve(env, s, op).value == s.txs[op.hash].txOut[op.index].value
      && Resolve(env, s, op).owner == env.decodePayToAddress(s.txs[op.hash].txOut[op.index].pkScript).value.address
    ensures op.index == OutPointAccountBirth ==>
      (!Resolve(env, s, op).Unresolvable? <==> op.hash in s.accOutputs)
    ensures op.index == OutPointAccountBirth && op.hash in s.accOutputs ==>
      Resolve(env, s, op) == Owned(s.accOutputs[op.hash].address, s.accOutputs[op.hash].value)
  {
  }

  /** Resolving reads only the record the index selects: two states that
      agree on it resolve the outpoint alike. */
  lemma ResolveReadsOnlyItsRecord(env: Env, s: UtxoState, t: UtxoState, op: OutPoint)
    requires op.index >= 0 ==> (op.hash in s.txs <==> op.hash in t.txs)
    requires op.index >= 0 && op.hash in s.txs ==> s.txs[op.hash] == t.txs[op.hash]
    requires op.index == OutPointAccountBirth ==> (op.hash in s.accOutputs <==> op.hash in t.accOutputs)
    requires op.index == OutPointAccountBirth && op.hash in s.accOutputs ==> s.accOutputs[op.hash] == t.accOutputs[op.hash]
    ensures Resolve(env, s, op) == Resolve(env, t, op)
  {
  }

  /** The handler's `redeemAddress` and `inputValue`: empty and zero when unowned. */
  function OwnerOf(r: Resolution): Address {
    if r.Owned? then r.owner else []
  }

  function ValueOf(r: Resolution): uint64 {
    if r.Owned? then r.value else 0
  }

  /** The outpoints `(hash, i)`, i < n, put one after the other. */
  function AddOutPoints(m: map<Bytes, OutPoint>, h: Hash, n: nat): map<Bytes, OutPoint> {
    if n == 0 then m else PutOutPointIn(AddOutPoints(m, h, n - 1), OutPoint(h, Int32Of(n - 1)))
  }

  /** The outpoints a transaction with n outputs creates. */
  ghost function NewOutPoints(h: Hash, n: nat): set<OutPoint> {
    set i | 0 <= i < n :: OutPoint(h, Int32Of(i))
  }

  /** The writes of an accepted spend: store the tx, delete the input, add one
      outpoint per output. */
  function SpendTx(env: Env, s: UtxoState, input: OutPoint, tx: Tx): UtxoState {
    var h := GenTxHash(env, tx);
    s.(txs := s.txs[h := tx],
       outpoints := AddOutPoints(DeleteOutPointIn(s.outpoints, input), h, |tx.txOut|))
  }

  /** `handleMsgTx`, with the output values summed exactly (see
      `GetTxOutValueWraps` for the wrapping sum of the source). */
  function TxStep(env: Env, s: UtxoState, msg: MsgTx): Transition {
    if |msg.tx.txIn| != 1 then Transition(Err(Internal, MultipleInputs), s)
    else
      var input := msg.tx.txIn[0].input;
      if OutPointKey(input) !in s.outpoints then Transition(Err(Unauthorized, OutPointNotFound), s)
      else
        var r := Resolve(env, s, input);
        if r.Unresolvable? then Transition(Err(Panic, Panicked), s)
        else if ValueOf(r) != OutputTotal(msg.tx.txOut) then Transition(Err(Unauthorized, ValueMismatch), s)
        else if !AddrEquals(OwnerOf(r), msg.signer) then Transition(Err(Unauthorized, NotSpendable), s)
        else Transition(Ok, SpendTx(env, s, input, msg.tx))
  }

  /** The messages the UTXO handler is given. */
  datatype UtxoMsg = BirthMsg(birth: MsgBirthAccOutput) | TxMsg(spend: MsgTx) | OtherMsg(msgType: string)

  /** `NewHandler`: route by message kind. */
  function HandleStep(env: Env, s: UtxoState, ctx: Context, msg: UtxoMsg): Transition {
    match msg
    case BirthMsg(b) => BirthStep(env, s, ctx, b)
    case TxMsg(t) => TxStep(env, s, t)
    case OtherMsg(_) => Transition(Err(UnknownRequest, UnrecognizedMsg), s)
  }

  // ---------------------------------------------------------------------
  // The ledger invariant.

  /** A live outpoint names something the handler can read: a stored tx with
      enough outputs, or a stored account output. */
  ghost predicate Resolves(s: UtxoState, op: OutPoint) {
    && op.index >= -1
    && (op.index >= 0 ==> op.hash in s.txs && op.index < |s.txs[op.hash].txOut|)
    && (op.index == OutPointAccountBirth ==> op.hash in s.accOutputs)
  }

  ghost predicate Valid(s: UtxoState) {
    && KeysMatch(s.outpoints)
    && AccKeysMatch(s.accOutputs)
    && forall op :: op in Live(s) ==> Resolves(s, op)
  }

  /** The stored transaction at the new hash, if any, has the same outputs,
      so overwriting it moves no live outpoint. */
  ghost predicate HashUsable(s: UtxoState, h: Hash, tx: Tx) {
    h !in s.txs || s.txs[h].txOut == tx.txOut
  }

  lemma SetUnionAssoc<T>(a: set<T>, b: set<T>, c: set<T>)
    ensures (a + b) + c == a + (b + c)
  {
  }

  /** One more output adds one more outpoint. */
  lemma NewOutPointsStep(h: Hash, n: nat)
    ensures NewOutPoints(h, n + 1) == NewOutPoints(h, n) + {OutPoint(h, Int32Of(n))}
  {
    forall op | op in NewOutPoints(h, n + 1) ensures op in NewOutPoints(h, n) + {OutPoint(h, Int32Of(n))} {
      var i :| 0 <= i < n + 1 && op == OutPoint(h, Int32Of(i));
      if i < n {
        assert op in NewOutPoints(h, n);
      }
    }
  }

  lemma {:induction false} AddOutPointsLive(m: map<Bytes, OutPoint>, h: Hash, n: nat)
    requires KeysMatch(m)
    ensures KeysMatch(AddOutPoints(m, h, n))
    ensures AddOutPoints(m, h, n).Values == m.Values + NewOutPoints(h, n)
  {
    if n > 0 {
      var before := AddOutPoints(m, h, n - 1);
      var op := OutPoint(h, Int32Of(n - 1));
      AddOutPointsLive(m, h, n - 1);
      PutOutPointLive(before, op);
      NewOutPointsStep(h, n - 1);
      var after := PutOutPointIn(before, op);
      assert AddOutPoints(m, h, n) == after;
      SetUnionAssoc(m.Values, NewOutPoints(h, n - 1), {op});
      assert after.Values == m.Values + NewOutPoints(h, n);
    } else {
      assert NewOutPoints(h, 0) == {};
    }
  }

  /** An accepted spend removes exactly its input from the UTXO set and adds
      exactly the outpoints `(txHash, i)`, one per output; it stores the tx
      under its hash and changes nothing else. */
  lemma SpendTxEffect(env: Env, s: UtxoState, input: OutPoint, tx: Tx)
    requires KeysMatch(s.outpoints)
    ensures var s' := SpendTx(env, s, input, tx);
      && KeysMatch(s'.outpoints)
      && Live(s') == (Live(s) - {input}) + NewOutPoints(GenTxHash(env, tx), |tx.txOut|)
      && s'.txs == s.txs[GenTxHash(env, tx) := tx]
      && s'.accOutputs == s.accOutputs && s'.bank == s.bank
  {
    DeleteOutPointLive(s.outpoints, input);
    AddOutPointsLive(DeleteOutPointIn(s.outpoints, input), GenTxHash(env, tx), |tx.txOut|);
  }

  /** Both handlers leave the state untouched when they reject. */
  lemma RejectionChangesNothing(env: Env, s: UtxoState, ctx: Context, msg: UtxoMsg)
    ensures HandleStep(env, s, ctx, msg).result.Err? ==> HandleStep(env, s, ctx, msg).state == s
  {
  }

  /** Any message other than birth or spend is refused with UnknownRequest. */
  lemma OtherMessagesRefused(env: Env, s: UtxoState, ctx: Context, t: string)
    ensures HandleStep(env, s, ctx, OtherMsg(t)) == Transition(Err(UnknownRequest, UnrecognizedMsg), s)
  {
  }

  /** Birth succeeds iff the balance covers the amount, the account has a
      sequence and the amount is in int64 range. It then debits the amount,
      stores the record under its ID and makes `(ID, -1)` live, nothing else. */
  lemma BirthStepSpec(env: Env, s: UtxoState, ctx: Context, msg: MsgBirthAccOutput)
    requires KeysMatch(s.outpoints)
    ensures var t := BirthStep(env, s, ctx, msg);
      t.result.Ok? <==> (msg.amount.amount <= BalanceOf(s.bank, msg.address, msg.amount.denom)
                         && msg.address in ctx.sequences && msg.amount.amount <= MaxInt64
                         && GenAccOutput(env, ctx, msg).output.id !in s.accOutputs)
    ensures msg.amount.amount > BalanceOf(s.bank, msg.address, msg.amount.denom) ==>
      BirthStep(env, s, ctx, msg) == Transition(Err(InsufficientCoins, NotEnoughCoins), s)
    ensures msg.amount.amount <= BalanceOf(s.bank, msg.address, msg.amount.denom)
            && msg.address in ctx.sequences && msg.amount.amount <= MaxInt64
            && GenAccOutput(env, ctx, msg).output.id in s.accOutputs ==>
      BirthStep(env, s, ctx, msg) == Transition(Err(Internal, AccOutputExists), s)
    ensures var t := BirthStep(env, s, ctx, msg);
      t.result.Ok? ==>
        var a := GenAccOutput(env, ctx, msg).output;
        && a.value == msg.amount.amount && a.address == msg.address && a.block == ctx.height
        && a.id !in s.accOutputs
        && t.state.accOutputs == s.accOutputs[a.id := a]
        && Live(t.state) == Live(s) + {OutPoint(a.id, OutPointAccountBirth)}
        && t.state.txs == s.txs
        && BalanceOf(t.state.bank, msg.address, msg.amount.denom) == BalanceOf(s.bank, msg.address, msg.amount.denom) - msg.amount.amount
        && forall a', d' :: (a' != msg.address || d' != msg.amount.denom) ==> BalanceOf(t.state.bank, a', d') == BalanceOf(s.bank, a', d')
  {
    var t := BirthStep(env, s, ctx, msg);
    if t.result.Ok? {
      PutOutPointLive(s.outpoints, OutPoint(GenAccOutput(env, ctx, msg).output.id, OutPointAccountBirth));
    }
  }

  /** An accepted birth as written is the debit and the two writes. */
  lemma BirthAsWrittenWrites(env: Env, s: UtxoState, ctx: Context, msg: MsgBirthAccOutput)
    requires BirthStepAsWritten(env, s, ctx, msg).result.Ok?
    ensures GenAccOutput(env, ctx, msg).Generated? && SubtractCoins(s.bank, msg.address, msg.amount).Some?
    ensures var a := GenAccOutput(env, ctx, msg).output;
      BirthStepAsWritten(env, s, ctx, msg).state ==
      s.(bank := SubtractCoins(s.bank, msg.address, msg.amount).value,
         accOutputs := s.accOutputs[a.id := a],
         outpoints := PutOutPointIn(s.outpoints, OutPoint(a.id, OutPointAccountBirth)))
  {
  }

  /** As written, the same birth twice in one context is accepted twice: the
      second finds the same ID, rewrites the same record and outpoint, and
      debits the amount again, so the second debit buys nothing. */
  lemma BirthTwiceAsWrittenBurns(env: Env, s: UtxoState, ctx: Context, msg: MsgBirthAccOutput)
    requires KeysMatch(s.outpoints)
    requires BirthStepAsWritten(env, s, ctx, msg).result.Ok?
    requires 2 * msg.amount.amount <= BalanceOf(s.bank, msg.address, msg.amount.denom)
    ensures var once := BirthStepAsWritten(env, s, ctx, msg).state;
      var twice := BirthStepAsWritten(env, once, ctx, msg);
      && twice.result.Ok?
      && twice.state.accOutputs == once.accOutputs
      && twice.state.outpoints == once.outpoints
      && BalanceOf(twice.state.bank, msg.address, msg.amount.denom)
         == BalanceOf(s.bank, msg.address, msg.amount.denom) - 2 * msg.amount.amount
  {
    var a := GenAccOutput(env, ctx, msg).output;
    var op := OutPoint(a.id, OutPointAccountBirth);
    BirthAsWrittenWrites(env, s, ctx, msg);
    var once := BirthStepAsWritten(env, s, ctx, msg).state;
    PutOutPointLive(s.outpoints, op);
    assert BirthStepAsWritten(env, once, ctx, msg).result.Ok?;
    BirthAsWrittenWrites(env, once, ctx, msg);
    PutOutPointLive(once.outpoints, op);
  }

  /** The corrected birth creates a record once: after an accepted birth, the
      same birth in the same context is refused and changes nothing, with
      `AccOutputExists` whenever the balance still covers it. */
  lemma BirthTwiceRefused(env: Env, s: UtxoState, ctx: Context, msg: MsgBirthAccOutput)
    requires BirthStep(env, s, ctx, msg).result.Ok?
    ensures var once := BirthStep(env, s, ctx, msg).state;
      && BirthStep(env, once, ctx, msg).result.Err?
      && BirthStep(env, once, ctx, msg).state == once
    ensures var once := BirthStep(env, s, ctx, msg).state;
      msg.amount.amount <= BalanceOf(once.bank, msg.address, msg.amount.denom) ==>
      BirthStep(env, once, ctx, msg) == Transition(Err(Internal, AccOutputExists), once)
  {
  }

  /** Birth keeps every live outpoint resolvable. */
  lemma BirthPreservesValid(env: Env, s: UtxoState, ctx: Context, msg: MsgBirthAccOutput)
    requires Valid(s)
    ensures Valid(BirthStep(env, s, ctx, msg).state)
  {
    var t := BirthStep(env, s, ctx, msg);
    if t.result.Ok? {
      var a := GenAccOutput(env, ctx, msg).output;
      var s' := t.state;
      PutOutPointLive(s.outpoints, OutPoint(a.id, OutPointAccountBirth));
      forall op | op in Live(s') ensures Resolves(s', op) {
        if op != OutPoint(a.id, OutPointAccountBirth) {
          assert op in Live(s) && Resolves(s, op);
        }
      }
    }
  }

  /** A spend is accepted exactly when it has one input, that input is live
      and resolves, the outputs total exactly its value, and the signer is
      its owner. */
  lemma TxStepAccepts(env: Env, s: UtxoState, msg: MsgTx)
    ensures TxStep(env, s, msg).result.Ok? <==>
      && |msg.tx.txIn| == 1
      && OutPointKey(msg.tx.txIn[0].input) in s.outpoints
      && !Resolve(env, s, msg.tx.txIn[0].input).Unresolvable?
      && ValueOf(Resolve(env, s, msg.tx.txIn[0].input)) == OutputTotal(msg.tx.txOut)
      && AddrEquals(OwnerOf(Resolve(env, s, msg.tx.txIn[0].input)), msg.signer)
    ensures |msg.tx.txIn| != 1 ==> TxStep(env, s, msg) == Transition(Err(Internal, MultipleInputs), s)
    ensures TxStep(env, s, msg).result.Ok? ==> TxStep(env, s, msg).state == SpendTx(env, s, msg.tx.txIn[0].input, msg.tx)
  {
  }

  /** An outpoint with index below -1 has no owner, so a validated spend of
      it (non-empty signer) is refused. */
  lemma UnownedNeverSpent(env: Env, s: UtxoState, msg: MsgTx)
    requires ValidateTx(msg).Ok?
    requires |msg.tx.txIn| == 1 && msg.tx.txIn[0].input.index < -1
    ensures TxStep(env, s, msg).result.Err?
  {
  }

  /** Live outpoints keep resolving when the spent input goes, the new
      outpoints `(h, i)` of a stored tx with n outputs come, and the tx store
      only gains or rewrites `h` with the same outputs. */
  lemma NewLiveResolves(s: UtxoState, s': UtxoState, input: OutPoint, h: Hash, tx: Tx)
    requires forall op :: op in Live(s) ==> Resolves(s, op)
    requires HashUsable(s, h, tx) && |tx.txOut| <= 0x8000_0000
    requires Live(s') == (Live(s) - {input}) + NewOutPoints(h, |tx.txOut|)
    requires s'.txs == s.txs[h := tx] && s'.accOutputs == s.accOutputs
    ensures forall op :: op in Live(s') ==> Resolves(s', op)
  {
    forall op | op in Live(s') ensures Resolves(s', op) {
      if op in NewOutPoints(h, |tx.txOut|) {
        var i :| 0 <= i < |tx.txOut| && op == OutPoint(h, Int32Of(i));
        assert op.index == i;
      } else {
        assert op in Live(s) && Resolves(s, op);
      }
    }
  }

  /** A spend keeps every live outpoint resolvable, given that the new hash
      does not displace a stored tx with other outputs and that the output
      indices fit an int32. */
  lemma TxPreservesValid(env: Env, s: UtxoState, msg: MsgTx)
    requires Valid(s)
    requires HashUsable(s, GenTxHash(env, msg.tx), msg.tx)
    requires |msg.tx.txOut| <= 0x8000_0000
    ensures Valid(TxStep(env, s, msg).state)
  {
    var t := TxStep(env, s, msg);
    if t.result.Ok? {
      var input := msg.tx.txIn[0].input;
      SpendTxEffect(env, s, input, msg.tx);
      NewLiveResolves(s, t.state, input, GenTxHash(env, msg.tx), msg.tx);
    }
  }

  /** No double spend: after an accepted spend with a fresh hash, its input
      is no longer live, and every spend of that input, by this message or
      any other, is then refused. */
  lemma NoDoubleSpend(env: Env, s: UtxoState, msg: MsgTx)
    requires Valid(s)
    requires GenTxHash(env, msg.tx) !in s.txs
    requires |msg.tx.txOut| <= 0x8000_0000
    requires TxStep(env, s, msg).result.Ok?
    ensures msg.tx.txIn[0].input !in Live(TxStep(env, s, msg).state)
    ensures OutPointKey(msg.tx.txIn[0].input) !in TxStep(env, s, msg).state.outpoints
    ensures KeysMatch(TxStep(env, s, msg).state.outpoints)
    ensures forall msg2: MsgTx :: |msg2.tx.txIn| == 1 && msg2.tx.txIn[0].input == msg.tx.txIn[0].input ==>
      TxStep(env, TxStep(env, s, msg).state, msg2) ==
      Transition(Err(Unauthorized, OutPointNotFound), TxStep(env, s, msg).state)
  {
    var input, h, n := msg.tx.txIn[0].input, GenTxHash(env, msg.tx), |msg.tx.txOut|;
    var s' := TxStep(env, s, msg).state;
    SpendTxEffect(env, s, input, msg.tx);
    assert input in Live(s) by {
      assert s.outpoints[OutPointKey(input)] == input by {
        OutPointKeyInjective(s.outpoints[OutPointKey(input)], input);
      }
    }
    assert Resolves(s, input);
    assert input !in NewOutPoints(h, n) by {
      forall i | 0 <= i < n ensures input != OutPoint(h, Int32Of(i)) {
        if input.index >= 0 {
          assert input.hash in s.txs;
        }
      }
    }
    if OutPointKey(input) in s'.outpoints {
      OutPointKeyInjective(s'.outpoints[OutPointKey(input)], input);
    }
  }

  /** The state after handling each message in turn, each in its block context. */
  function Run(env: Env, s: UtxoState, steps: seq<(Context, UtxoMsg)>): UtxoState
    decreases |steps|
  {
    if steps == [] then s else Run(env, HandleStep(env, s, steps[0].0, steps[0].1).state, steps[1..])
  }

  /** Whether handling `msg` in `s` accepts a spend whose tx hash is `h`, the
      one way a handled message can create outpoints `(h, i)`. */
  predicate SpendMintsUnder(env: Env, s: UtxoState, ctx: Context, msg: UtxoMsg, h: Hash) {
    && msg.TxMsg?
    && HandleStep(env, s, ctx, msg).result.Ok?
    && GenTxHash(env, msg.spend.tx) == h
  }

  /** No step of the run, judged in the state the run has reached, accepts a
      spend whose tx hash is `h`; refused steps do not count. */
  predicate NoSpendMintsAlong(env: Env, s: UtxoState, steps: seq<(Context, UtxoMsg)>, h: Hash)
    decreases |steps|
  {
    steps == [] ||
      (&& !SpendMintsUnder(env, s, steps[0].0, steps[0].1, h)
       && NoSpendMintsAlong(env, HandleStep(env, s, steps[0].0, steps[0].1).state, steps[1..], h))
  }

  /** A spent outpoint is not live: the store keeps each outpoint under its key. */
  lemma SpentNotLive(m: map<Bytes, OutPoint>, op: OutPoint)
    requires KeysMatch(m) && OutPointKey(op) !in m
    ensures op !in m.Values
  {
    forall k | k in m ensures m[k] != op {
    }
  }

  /** An outpoint that is not live has no key in the store. */
  lemma NotLiveNoKey(m: map<Bytes, OutPoint>, op: OutPoint)
    requires KeysMatch(m) && op !in m.Values
    ensures OutPointKey(op) !in m
  {
    if OutPointKey(op) in m {
      OutPointKeyInjective(m[OutPointKey(op)], op);
    }
  }

  /** A birth does not make a spent outpoint live again: it mints only
      `(ID, -1)` for an ID not yet stored, and a spent `(h, -1)` has its
      record stored under `h`. Records are never removed. */
  lemma BirthKeepsSpent(env: Env, s: UtxoState, ctx: Context, msg: MsgBirthAccOutput, op: OutPoint)
    requires KeysMatch(s.outpoints) && OutPointKey(op) !in s.outpoints
    requires op.index == OutPointAccountBirth ==> op.hash in s.accOutputs
    ensures KeysMatch(BirthStep(env, s, ctx, msg).state.outpoints)
    ensures OutPointKey(op) !in BirthStep(env, s, ctx, msg).state.outpoints
    ensures s.accOutputs.Keys <= BirthStep(env, s, ctx, msg).state.accOutputs.Keys
  {
    if BirthStep(env, s, ctx, msg).result.Ok? {
      var m := s.outpoints;
      BirthAsWrittenWrites(env, s, ctx, msg);
      SpentNotLive(m, op);
      PutOutPointLive(m, OutPoint(GenAccOutput(env, ctx, msg).output.id, OutPointAccountBirth));
      NotLiveNoKey(BirthStep(env, s, ctx, msg).state.outpoints, op);
    }
  }

  /** A spend either writes `SpendTx` or leaves the state as it was. */
  lemma TxStepWrites(env: Env, s: UtxoState, msg: MsgTx)
    ensures TxStep(env, s, msg).result.Ok? ==>
      |msg.tx.txIn| == 1 && TxStep(env, s, msg).state == SpendTx(env, s, msg.tx.txIn[0].input, msg.tx)
    ensures TxStep(env, s, msg).result.Err? ==> TxStep(env, s, msg).state == s
  {
  }

  /** The writes of a spend with tx hash other than `op.hash` leave a spent
      `op` spent. */
  lemma SpendTxKeepsSpent(env: Env, s: UtxoState, input: OutPoint, tx: Tx, op: OutPoint)
    requires KeysMatch(s.outpoints) && OutPointKey(op) !in s.outpoints
    requires GenTxHash(env, tx) != op.hash
    ensures KeysMatch(SpendTx(env, s, input, tx).outpoints)
    ensures OutPointKey(op) !in SpendTx(env, s, input, tx).outpoints
  {
    SpentNotLive(s.outpoints, op);
    SpendTxEffect(env, s, input, tx);
    assert op !in NewOutPoints(GenTxHash(env, tx), |tx.txOut|);
    NotLiveNoKey(SpendTx(env, s, input, tx).outpoints, op);
  }

  /** A spend does not make a spent outpoint live again unless it is accepted
      with tx hash `op.hash`. */
  lemma TxKeepsSpent(env: Env, s: UtxoState, msg: MsgTx, op: OutPoint)
    requires KeysMatch(s.outpoints) && OutPointKey(op) !in s.outpoints
    requires TxStep(env, s, msg).result.Ok? ==> GenTxHash(env, msg.tx) != op.hash
    ensures KeysMatch(TxStep(env, s, msg).state.outpoints)
    ensures OutPointKey(op) !in TxStep(env, s, msg).state.outpoints
    ensures TxStep(env, s, msg).state.accOutputs == s.accOutputs
  {
    TxStepWrites(env, s, msg);
    if TxStep(env, s, msg).result.Ok? {
      SpendTxKeepsSpent(env, s, msg.tx.txIn[0].input, msg.tx, op);
    }
  }

  /** One handled message leaves a spent outpoint spent, unless it is an
      accepted spend with tx hash `op.hash`. */
  lemma StepKeepsSpent(env: Env, s: UtxoState, ctx: Context, msg: UtxoMsg, op: OutPoint)
    requires KeysMatch(s.outpoints) && OutPointKey(op) !in s.outpoints
    requires op.index == OutPointAccountBirth ==> op.hash in s.accOutputs
    requires !SpendMintsUnder(env, s, ctx, msg, op.hash)
    ensures KeysMatch(HandleStep(env, s, ctx, msg).state.outpoints)
    ensures OutPointKey(op) !in HandleStep(env, s, ctx, msg).state.outpoints
    ensures s.accOutputs.Keys <= HandleStep(env, s, ctx, msg).state.accOutputs.Keys
  {
    match msg
    case BirthMsg(b) => BirthKeepsSpent(env, s, ctx, b, op);
    case TxMsg(m) => TxKeepsSpent(env, s, m, op);
    case OtherMsg(_) =>
  }

  /** Along a run in which no accepted spend has tx hash `op.hash`, a spent
      `op` stays spent; births and refused messages never bring it back. */
  lemma {:induction false} RunKeepsSpent(env: Env, s: UtxoState, steps: seq<(Context, UtxoMsg)>, op: OutPoint)
    requires KeysMatch(s.outpoints) && OutPointKey(op) !in s.outpoints
    requires op.index == OutPointAccountBirth ==> op.hash in s.accOutputs
    requires NoSpendMintsAlong(env, s, steps, op.hash)
    ensures KeysMatch(Run(env, s, steps).outpoints)
    ensures OutPointKey(op) !in Run(env, s, steps).outpoints
    decreases |steps|
  {
    if steps != [] {
      StepKeepsSpent(env, s, steps[0].0, steps[0].1, op);
      RunKeepsSpent(env, HandleStep(env, s, steps[0].0, steps[0].1).state, steps[1..], op);
    }
  }

  /** No double spend along a run: once a spend with a fresh hash is accepted,
      every later spend of its input is refused, whatever was handled in
      between, as long as no accepted spend in between has the input's hash
      as its tx hash. */
  lemma {:induction false} NoDoubleSpendLater(env: Env, s: UtxoState, msg: MsgTx, steps: seq<(Context, UtxoMsg)>, ctx: Context, msg2: MsgTx)
    requires Valid(s)
    requires GenTxHash(env, msg.tx) !in s.txs
    requires |msg.tx.txOut| <= 0x8000_0000
    requires TxStep(env, s, msg).result.Ok?
    requires NoSpendMintsAlong(env, TxStep(env, s, msg).state, steps, msg.tx.txIn[0].input.hash)
    requires |msg2.tx.txIn| == 1 && msg2.tx.txIn[0].input == msg.tx.txIn[0].input
    ensures var later := Run(env, TxStep(env, s, msg).state, steps);
      HandleStep(env, later, ctx, TxMsg(msg2)) == Transition(Err(Unauthorized, OutPointNotFound), later)
  {
    var input := msg.tx.txIn[0].input;
    NoDoubleSpend(env, s, msg);
    assert input in Live(s) by {
      OutPointKeyInjective(s.outpoints[OutPointKey(input)], input);
    }
    assert Resolves(s, input);
    SpendTxEffect(env, s, input, msg.tx);
    RunKeepsSpent(env, TxStep(env, s, msg).state, steps, input);
  }

  /** Conservation: an accepted spend's outputs total exactly the value of
      the outpoint it consumes, and the signer owns that outpoint. */
  lemma TxConserves(env: Env, s: UtxoState, msg: MsgTx)
    requires TxStep(env, s, msg).result.Ok?
    ensures Resolve(env, s, msg.tx.txIn[0].input).Owned? || (msg.tx.txIn[0].input.index < -1 && |msg.signer| == 0)
    ensures OutputTotal(msg.tx.txOut) == ValueOf(Resolve(env, s, msg.tx.txIn[0].input))
    ensures AddrEquals(OwnerOf(Resolve(env, s, msg.tx.txIn[0].input)), msg.signer)
  {
  }

  /** The inflating spend of the wrapping sum is refused: an input worth 100
      against outputs worth 2^64 + 100. */
  lemma InflatingTxRefused(env: Env, s: UtxoState, msg: MsgTx)
    requires |msg.tx.txIn| == 1 && OutPointKey(msg.tx.txIn[0].input) in s.outpoints
    requires Resolve(env, s, msg.tx.txIn[0].input).Owned?
    requires Resolve(env, s, msg.tx.txIn[0].input).value == 100
    requires msg.tx.txOut == [TxOut(TwoTo64 - 1, []), TxOut(101, [])]
    ensures TxStep(env, s, msg) == Transition(Err(Unauthorized, ValueMismatch), s)
  {
    GetTxOutValueWraps();
  }

  /** Every handled message keeps the invariant, under the hypotheses of
      `TxPreservesValid` for spends. */
  lemma HandlePreservesValid(env: Env, s: UtxoState, ctx: Context, msg: UtxoMsg)
    requires Valid(s)
    requires msg.TxMsg? ==> HashUsable(s, GenTxHash(env, msg.spend.tx), msg.spend.tx) && |msg.spend.tx.txOut| <= 0x8000_0000
    ensures Valid(HandleStep(env, s, ctx, msg).state)
  {
    match msg
    case BirthMsg(b) => BirthPreservesValid(env, s, ctx, b);
    case TxMsg(t) => TxPreservesValid(env, s, t);
    case OtherMsg(_) =>
  }

  // ---------------------------------------------------------------------
  // The handlers.

  method HandleMsgBirthAccOutput(k: Keeper, ctx: Context, msg: MsgBirthAccOutput) returns (res: Outcome<UtxoError>)
    modifies k
    ensures Transition(res, k.State()) == BirthStep(k.env, old(k.State()), ctx, msg)
  {
    var debited := SubtractCoins(k.bank, msg.address, msg.amount);
    if debited.None? {
      return Err(InsufficientCoins, NotEnoughCoins);
    }
    var accUtxo := GenAccOutput(k.env, ctx, msg);
    if accUtxo.NoSequence? {
      return Err(Internal, AccOutputFailed);
    } else if accUtxo.AmountPanic? {
      return Err(Panic, Panicked);
    }
    var stored := k.GetAccOutput(accUtxo.output.id);
    if stored.Some? {
      return Err(Internal, AccOutputExists);
    }
    k.bank := debited.value;
    k.PutAccOutput(accUtxo.output);
    k.PutOutPoint(OutPoint(accUtxo.output.id, OutPointAccountBirth));
    res := Ok;
  }

  method HandleMsgTx(k: Keeper, msg: MsgTx) returns (res: Outcome<UtxoError>)
    modifies k
    ensures Transition(res, k.State()) == TxStep(k.env, old(k.State()), msg)
  {
    if |msg.tx.txIn| != 1 {
      return Err(Internal, MultipleInputs);
    }
    var input := msg.tx.txIn[0].input;
    var live := k.HasOutPoint(input);
    if !live {
      return Err(Unauthorized, OutPointNotFound);
    }
    var outputValue, fits := GetTxOutValueChecked(msg.tx.txOut);
    var inputValue: uint64 := 0;
    var redeemAddress: Address := [];
    if input.index >= 0 {
      var tx := k.GetTx(input.hash);
      if tx.None? || input.index >= |tx.value.txOut| {
        return Err(Panic, Panicked);
      }
      var txOut := tx.value.txOut[input.index];
      var obj := k.env.decodePayToAddress(txOut.pkScript);
      if obj.None? {
        return Err(Panic, Panicked);
      }
      redeemAddress := obj.value.address;
      inputValue := txOut.value;
    } else if input.index == OutPointAccountBirth {
      var accOutput := k.GetAccOutput(input.hash);
      if accOutput.None? {
        return Err(Panic, Panicked);
      }
      redeemAddress := accOutput.value.address;
      inputValue := accOutput.value.value;
    }
    assert redeemAddress == OwnerOf(Resolve(k.env, k.State(), input));
    assert inputValue == ValueOf(Resolve(k.env, k.State(), input));
    if !fits || inputValue != outputValue {
      return Err(Unauthorized, ValueMismatch);
    }
    if !AddrEquals(redeemAddress, msg.signer) {
      return Err(Unauthorized, NotSpendable);
    }
    var txHash := GenTxHash(k.env, msg.tx);
    k.PutTx(txHash, msg.tx);
    k.DeleteOutPoint(input);
    ghost var base := k.outpoints;
    for index := 0 to |msg.tx.txOut|
      invariant k.outpoints == AddOutPoints(base, txHash, index)
      invariant k.txs == old(k.txs)[txHash := msg.tx]
      invariant k.accOutputs == old(k.accOutputs) && k.bank == old(k.bank)
    {
      k.PutOutPoint(OutPoint(txHash, Int32Of(index)));
    }
    res := Ok;
  }

  /** `NewHandler`'s type switch. */
  method Handle(k: Keeper, ctx: Context, msg: UtxoMsg) returns (res: Outcome<UtxoError>)
    modifies k
    ensures Transition(res, k.State()) == HandleStep(k.env, old(k.State()), ctx, msg)
  {
    match msg
    case BirthMsg(b) => res := HandleMsgBirthAccOutput(k, ctx, b);
    case TxMsg(t) => res := HandleMsgTx(k, t);
    case OtherMsg(_) => res := Err(UnknownRequest, UnrecognizedMsg);
  }
}
