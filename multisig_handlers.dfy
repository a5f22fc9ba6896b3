/**
 * x/multisig/handlers/{init,join,abort,spend,handler}.go: the escrow's
 * handlers. Init and join guard, debit a party and upsert the contract;
 * abort and spend accept every message and change nothing.
 */
module MultisigHandlers {
  import opened Sdk
  import opened Bank
  import opened MultisigMsgs
  import opened MultisigKeeper

  datatype Transition = Transition(result: Outcome<MultisigError>, state: MultisigState)

  /** `handleMsgInitMultiSig`: five guards, Alice's debit, one upsert. */
  function InitStep(s: MultisigState, msg: MsgInitMultiSig): Transition {
    if msg.id in s.contracts then Transition(Err(Internal, ContractExists), s)
    else if AddrEquals(msg.aliceAddress, msg.bobAddress) then Transition(Err(Internal, IdenticalParties), s)
    else if !IsPositive(msg.aliceAmount) then Transition(Err(Internal, InvalidAliceAmount), s)
    else if !IsPositive(msg.bobAmount) then Transition(Err(Internal, InvalidBobAmount), s)
    else if !SameDenomAs(msg.aliceAmount, msg.bobAmount) then Transition(Err(Internal, DenomMismatch), s)
    else match SubtractCoins(s.bank, msg.aliceAddress, msg.aliceAmount)
      case None => Transition(Err(InsufficientCoins, NotEnoughCoins), s)
      case Some(debited) =>
        var obj := Contract(msg.id, StateCreated, msg.aliceAmount, msg.aliceAddress,
                            msg.bobAmount, msg.bobAddress, msg.aliceAmount);
        Transition(Ok, MultisigState(s.contracts[msg.id := obj], debited))
  }

  /** `Coin.Plus`, which panics on different denominations. */
  function Plus(a: Coin, b: Coin): Option<Coin> {
    if a.denom == b.denom then Some(Coin(a.denom, a.amount + b.amount)) else None
  }

  /** `handleMsgJoinMultiSig`: four guards, Bob's debit, lock and upsert. The
      handler reads the message's amount as `BobAmount`; the message names
      it `Amount`. */
  function JoinStep(s: MultisigState, msg: MsgJoinMultiSig): Transition {
    if msg.id !in s.contracts then Transition(Err(Internal, ContractNotFound), s)
    else
      var obj := s.contracts[msg.id];
      if !AddrEquals(obj.bobAddress, msg.bobAddress) then Transition(Err(Internal, NotAuthorized), s)
      else if obj.state != StateCreated then Transition(Err(Internal, AlreadyJoined), s)
      else if !CoinIsEqual(msg.amount, obj.bobAmount) then Transition(Err(Internal, InvalidBobAmount), s)
      else match SubtractCoins(s.bank, obj.bobAddress, obj.bobAmount)
        case None => Transition(Err(InsufficientCoins, NotEnoughCoins), s)
        case Some(debited) =>
          match Plus(obj.balance, obj.bobAmount)
          case None => Transition(Err(Panic, Panicked), s)
          case Some(balance) =>
            Transition(Ok, MultisigState(s.contracts[obj.id := obj.(state := StateLocked, balance := balance)], debited))
  }

  /** `handleMsgAbortMultiSig`: a stub that accepts and does nothing. */
  function AbortStep(s: MultisigState, msg: MsgAbortMultiSig): Transition {
    Transition(Ok, s)
  }

  /** `handleMsgSpendMultiSig`: a stub that accepts and does nothing. */
  function SpendStep(s: MultisigState, msg: MsgSpendMultiSig): Transition {
    Transition(Ok, s)
  }

  datatype MultisigMsg =
    | InitMsg(init: MsgInitMultiSig)
    | AbortMsg(abort: MsgAbortMultiSig)
    | JoinMsg(join: MsgJoinMultiSig)
    | SpendMsg(spend: MsgSpendMultiSig)
    | OtherMsg(msgType: string)

  /** `NewHandler`: route by message kind. */
  function HandleStep(s: MultisigState, msg: MultisigMsg): Transition {
    match msg
    case InitMsg(m) => InitStep(s, m)
    case AbortMsg(m) => AbortStep(s, m)
    case JoinMsg(m) => JoinStep(s, m)
    case SpendMsg(m) => SpendStep(s, m)
    case OtherMsg(_) => Transition(Err(UnknownRequest, UnrecognizedMsg), s)
  }

  function Run(s: MultisigState, msgs: seq<MultisigMsg>): MultisigState
    decreases |msgs|
  {
    if msgs == [] then s else Run(HandleStep(s, msgs[0]).state, msgs[1..])
  }

  // ---------------------------------------------------------------------
  // The escrow invariant.

  /** A stored contract: distinct parties with positive amounts of one
      denomination, never aborted, holding exactly what has been debited for
      it: Alice's amount once created, both amounts once locked. */
  ghost predicate WellFormed(c: Contract) {
    && IsPositive(c.aliceAmount) && IsPositive(c.bobAmount) && SameDenomAs(c.aliceAmount, c.bobAmount)
    && !AddrEquals(c.aliceAddress, c.bobAddress)
    && c.state != StateAborted
    && c.balance.denom == c.aliceAmount.denom
    && (c.state == StateCreated ==> c.balance.amount == c.aliceAmount.amount)
    && (c.state == StateLocked ==> c.balance.amount == c.aliceAmount.amount + c.bobAmount.amount)
  }

  ghost predicate Valid(s: MultisigState) {
    forall id :: id in s.contracts ==> s.contracts[id].id == id && WellFormed(s.contracts[id])
  }

  // ---------------------------------------------------------------------
  // One step.

  /** Init succeeds iff the ID is new, the parties differ, both amounts are
      positive and of one denomination, and Alice can cover hers; it then
      debits exactly Alice's amount and stores a `Created` contract holding it. */
  lemma InitStepSpec(s: MultisigState, msg: MsgInitMultiSig)
    ensures InitStep(s, msg).result.Ok? <==>
      && msg.id !in s.contracts && !AddrEquals(msg.aliceAddress, msg.bobAddress)
      && IsPositive(msg.aliceAmount) && IsPositive(msg.bobAmount) && SameDenomAs(msg.aliceAmount, msg.bobAmount)
      && msg.aliceAmount.amount <= BalanceOf(s.bank, msg.aliceAddress, msg.aliceAmount.denom)
    ensures var t := InitStep(s, msg);
      t.result.Ok? ==>
        && t.state.contracts == s.contracts[msg.id := Contract(msg.id, StateCreated, msg.aliceAmount, msg.aliceAddress,
                                                               msg.bobAmount, msg.bobAddress, msg.aliceAmount)]
        && BalanceOf(t.state.bank, msg.aliceAddress, msg.aliceAmount.denom)
           == BalanceOf(s.bank, msg.aliceAddress, msg.aliceAmount.denom) - msg.aliceAmount.amount
        && forall a, d :: (a != msg.aliceAddress || d != msg.aliceAmount.denom) ==> BalanceOf(t.state.bank, a, d) == BalanceOf(s.bank, a, d)
    ensures msg.id in s.contracts ==> InitStep(s, msg) == Transition(Err(Internal, ContractExists), s)
    ensures msg.id !in s.contracts && AddrEquals(msg.aliceAddress, msg.bobAddress) ==>
      InitStep(s, msg) == Transition(Err(Internal, IdenticalParties), s)
  {
  }

  /** Join, on a valid store, succeeds iff the contract exists, the sender is
      its Bob, it is still `Created`, the amount equals Bob's amount, and Bob
      can cover it; it then debits exactly Bob's amount, locks the contract
      and adds the amount to its balance. The sender is checked before the
      state. */
  lemma JoinStepSpec(s: MultisigState, msg: MsgJoinMultiSig)
    requires Valid(s)
    ensures JoinStep(s, msg).result.Ok? <==>
      && msg.id in s.contracts
      && AddrEquals(s.contracts[msg.id].bobAddress, msg.bobAddress)
      && s.contracts[msg.id].state == StateCreated
      && CoinIsEqual(msg.amount, s.contracts[msg.id].bobAmount)
      && s.contracts[msg.id].bobAmount.amount <= BalanceOf(s.bank, s.contracts[msg.id].bobAddress, s.contracts[msg.id].bobAmount.denom)
    ensures msg.id in s.contracts && !AddrEquals(s.contracts[msg.id].bobAddress, msg.bobAddress) ==>
      JoinStep(s, msg) == Transition(Err(Internal, NotAuthorized), s)
    ensures var t := JoinStep(s, msg);
      t.result.Ok? ==>
        var obj := s.contracts[msg.id];
        && t.state.contracts == s.contracts[msg.id := obj.(state := StateLocked,
                                                           balance := Coin(obj.balance.denom, obj.balance.amount + obj.bobAmount.amount))]
        && BalanceOf(t.state.bank, obj.bobAddress, obj.bobAmount.denom)
           == BalanceOf(s.bank, obj.bobAddress, obj.bobAmount.denom) - obj.bobAmount.amount
        && forall a, d :: (a != obj.bobAddress || d != obj.bobAmount.denom) ==> BalanceOf(t.state.bank, a, d) == BalanceOf(s.bank, a, d)
  {
  }

  /** Abort and spend accept every message, whatever the contract, its
      existence, the sender or the amount, and change neither the contracts
      nor any balance. */
  lemma StubsChangeNothing(s: MultisigState, a: MsgAbortMultiSig, p: MsgSpendMultiSig)
    ensures HandleStep(s, AbortMsg(a)) == Transition(Ok, s)
    ensures HandleStep(s, SpendMsg(p)) == Transition(Ok, s)
  {
  }

  /** Any other message is refused with UnknownRequest. */
  lemma OtherMessagesRefused(s: MultisigState, t: string)
    ensures HandleStep(s, OtherMsg(t)) == Transition(Err(UnknownRequest, UnrecognizedMsg), s)
  {
  }

  /** What every step promises: the invariant holds after it, a rejection
      changes nothing, no contract is removed, and a locked contract is left
      as it is. */
  ghost predicate StepKeeps(s: MultisigState, t: Transition) {
    && Valid(t.state)
    && (t.result.Err? ==> t.state == s)
    && s.contracts.Keys <= t.state.contracts.Keys
    && forall id :: id in s.contracts && s.contracts[id].state == StateLocked ==> t.state.contracts[id] == s.contracts[id]
  }

  lemma InitKeeps(s: MultisigState, msg: MsgInitMultiSig)
    requires Valid(s)
    ensures StepKeeps(s, InitStep(s, msg))
  {
  }

  lemma JoinKeeps(s: MultisigState, msg: MsgJoinMultiSig)
    requires Valid(s)
    ensures StepKeeps(s, JoinStep(s, msg))
  {
    var t := JoinStep(s, msg);
    if t.result.Ok? {
      var obj := s.contracts[msg.id];
      assert WellFormed(obj);
      assert WellFormed(t.state.contracts[obj.id]);
    }
  }

  /** Every message keeps the invariant; a rejection changes nothing; no
      contract is removed; and a locked contract never changes. */
  lemma StepEffect(s: MultisigState, msg: MultisigMsg)
    requires Valid(s)
    ensures var t := HandleStep(s, msg);
      && Valid(t.state)
      && (t.result.Err? ==> t.state == s)
      && s.contracts.Keys <= t.state.contracts.Keys
      && forall id :: id in s.contracts && s.contracts[id].state == StateLocked ==> t.state.contracts[id] == s.contracts[id]
  {
    match msg
    case InitMsg(m) => InitKeeps(s, m);
    case JoinMsg(m) => JoinKeeps(s, m);
    case _ =>
  }

  // ---------------------------------------------------------------------
  // Runs.

  /** Along any run from a valid store, the invariant holds, a stored ID
      stays stored, and a locked contract stays exactly as it is. */
  lemma {:induction false} RunKeeps(s: MultisigState, msgs: seq<MultisigMsg>, id: Bytes)
    requires Valid(s) && id in s.contracts
    ensures Valid(Run(s, msgs)) && id in Run(s, msgs).contracts
    ensures s.contracts[id].state == StateLocked ==> Run(s, msgs).contracts[id] == s.contracts[id]
    decreases |msgs|
  {
    if msgs != [] {
      StepEffect(s, msgs[0]);
      RunKeeps(HandleStep(s, msgs[0]).state, msgs[1..], id);
    }
  }

  /** A contract is joined at most once: after a successful join, every
      later join of it is refused and Bob is never debited again for it. */
  lemma JoinOnce(s: MultisigState, msg: MsgJoinMultiSig, later: seq<MultisigMsg>, again: MsgJoinMultiSig)
    requires Valid(s) && JoinStep(s, msg).result.Ok? && again.id == msg.id
    ensures var s' := Run(JoinStep(s, msg).state, later);
      JoinStep(s', again).result.Err? && JoinStep(s', again).state == s'
  {
    StepEffect(s, JoinMsg(msg));
    RunKeeps(JoinStep(s, msg).state, later, msg.id);
  }

  /** No escrow is ever aborted: the stubs leave `Aborted` unreachable. */
  lemma NeverAborted(s: MultisigState, msgs: seq<MultisigMsg>, id: Bytes)
    requires Valid(s) && id in s.contracts
    ensures id in Run(s, msgs).contracts && Run(s, msgs).contracts[id].state != StateAborted
  {
    RunKeeps(s, msgs, id);
  }

  // ---------------------------------------------------------------------
  // The handlers.

  method HandleMsgInitMultiSig(k: Keeper, msg: MsgInitMultiSig) returns (res: Outcome<MultisigError>)
    modifies k
    ensures Transition(res, k.State()) == InitStep(old(k.State()), msg)
  {
    var exists_ := k.HasContract(msg.id);
    if exists_ {
      return Err(Internal, ContractExists);
    }
    if AddrEquals(msg.aliceAddress, msg.bobAddress) {
      return Err(Internal, IdenticalParties);
    }
    if !IsPositive(msg.aliceAmount) {
      return Err(Internal, InvalidAliceAmount);
    }
    if !IsPositive(msg.bobAmount) {
      return Err(Internal, InvalidBobAmount);
    }
    if !SameDenomAs(msg.aliceAmount, msg.bobAmount) {
      return Err(Internal, DenomMismatch);
    }
    var debited := SubtractCoins(k.bank, msg.aliceAddress, msg.aliceAmount);
    if debited.None? {
      return Err(InsufficientCoins, NotEnoughCoins);
    }
    k.bank := debited.value;
    var obj := Contract(msg.id, StateCreated, msg.aliceAmount, msg.aliceAddress,
                        msg.bobAmount, msg.bobAddress, msg.aliceAmount);
    k.UpsertContract(obj);
    res := Ok;
  }

  method HandleMsgJoinMultiSig(k: Keeper, msg: MsgJoinMultiSig) returns (res: Outcome<MultisigError>)
    modifies k
    ensures Transition(res, k.State()) == JoinStep(old(k.State()), msg)
  {
    var found := k.HasContract(msg.id);
    if !found {
      return Err(Internal, ContractNotFound);
    }
    var got := k.GetContract(msg.id);
    var obj := got.value;
    if !AddrEquals(obj.bobAddress, msg.bobAddress) {
      return Err(Internal, NotAuthorized);
    }
    if obj.state != StateCreated {
      return Err(Internal, AlreadyJoined);
    }
    if !CoinIsEqual(msg.amount, obj.bobAmount) {
      return Err(Internal, InvalidBobAmount);
    }
    var debited := SubtractCoins(k.bank, obj.bobAddress, obj.bobAmount);
    if debited.None? {
      return Err(InsufficientCoins, NotEnoughCoins);
    }
    var balance := Plus(obj.balance, obj.bobAmount);
    if balance.None? {
      return Err(Panic, Panicked);
    }
    k.bank := debited.value;
    obj := obj.(state := StateLocked, balance := balance.value);
    k.UpsertContract(obj);
    res := Ok;
  }

  /** `NewHandler`'s type switch. */
  method Handle(k: Keeper, msg: MultisigMsg) returns (res: Outcome<MultisigError>)
    modifies k
    ensures Transition(res, k.State()) == HandleStep(old(k.State()), msg)
  {
    match msg
    case InitMsg(m) => res := HandleMsgInitMultiSig(k, m);
    case AbortMsg(m) => res := AbortStep(k.State(), m).result;
    case JoinMsg(m) => res := HandleMsgJoinMultiSig(k, m);
    case SpendMsg(m) => res := SpendStep(k.State(), m).result;
    case OtherMsg(_) => res := Err(UnknownRequest, UnrecognizedMsg);
  }
}
