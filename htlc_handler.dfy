/**
 * x/htlc/handler.go: add, redeem and fail of hashed-timelock contracts.
 * Each handler is a method on the keeper proved equal to a step function
 * on the record store and the bank; the ledger's properties are lemmas
 * about the step functions and about runs of them.
 */
module HtlcHandler {
  import opened Sdk
  import opened Fmt
  import opened Bank
  import opened HtlcMsgs
  import opened HtlcKeeper

  datatype Transition = Transition(result: Outcome<HtlcError>, state: HtlcState)

  /** `obj.BlockCreatedAt + obj.Locktime` as written: int64 addition, which
      wraps around. */
  function UnlockHeightAsWritten(obj: ObjHtlc): int64 {
    Int64Of(obj.blockCreatedAt + obj.locktime)
  }

  /** The unlock height the timelock means: the exact sum. */
  function UnlockHeight(obj: ObjHtlc): int {
    obj.blockCreatedAt + obj.locktime
  }

  /** The two agree whenever the sum fits in an int64. */
  lemma UnlockHeightAgrees(obj: ObjHtlc)
    requires -0x8000_0000_0000_0000 <= obj.blockCreatedAt + obj.locktime <= MaxInt64
    ensures UnlockHeightAsWritten(obj) == UnlockHeight(obj)
  {
  }

  /** A contract created at height 10 with the largest locktime: as written
      its unlock height wraps to -2^63 + 9, so at its own creation height a
      redeem is already timed out and a fail is already allowed. */
  lemma UnlockHeightWraps()
    ensures var obj := ObjHtlc(Coin([0x61], 1), [0x61], MaxInt64, [1], [2], Created, 10);
      && UnlockHeightAsWritten(obj) == -0x8000_0000_0000_0000 + 9
      && obj.blockCreatedAt >= UnlockHeightAsWritten(obj)
      && obj.blockCreatedAt < UnlockHeight(obj)
  {
  }

  /** `handleMsgAddHtlc`: refuse a known hash, debit the depositor, store a
      `Created` record stamped with the current height. */
  function AddStep(s: HtlcState, ctx: Context, msg: MsgAddHtlc): Transition {
    if msg.hash in s.htlcs then Transition(Err(Internal, HashExists), s)
    else match SubtractCoins(s.bank, msg.timeoutAddress, msg.amount)
      case None => Transition(Err(InsufficientCoins, NotEnoughCoins), s)
      case Some(debited) =>
        var obj := ObjHtlc(msg.amount, msg.hash, msg.locktime, msg.redeemAddress, msg.timeoutAddress, Created, ctx.height);
        Transition(Ok, HtlcState(s.htlcs[msg.hash := obj], debited))
  }

  /** The key a redeem looks up: the lower-case hex of SHA-256 of the preimage. */
  function PreimageKey(sha256: Bytes -> Bytes, preimage: Bytes): Bytes {
    EncodeToString(sha256(preimage))
  }

  /** `handleMsgRedeemHtlc`, with the exact unlock height. */
  function RedeemStep(sha256: Bytes -> Bytes, s: HtlcState, ctx: Context, msg: MsgRedeemHtlc): Transition {
    var hash := PreimageKey(sha256, msg.preimage);
    if hash !in s.htlcs then Transition(Err(Internal, NoSuchHtlc), s)
    else
      var obj := s.htlcs[hash];
      if obj.status != Created then Transition(Err(Internal, AlreadyResolved), s)
      else if !AddrEquals(obj.redeemAddress, msg.sender) then Transition(Err(Internal, RedeemerMismatch), s)
      else if ctx.height >= UnlockHeight(obj) then Transition(Err(Internal, TimedOut), s)
      else Transition(Ok, HtlcState(s.htlcs[obj.hash := obj.(status := Redeemed)],
                                    AddCoins(s.bank, obj.redeemAddress, obj.amount)))
  }

  /** `handleMsgFailHtlc`, with the exact unlock height. */
  function FailStep(s: HtlcState, ctx: Context, msg: MsgFailHtlc): Transition {
    if msg.hash !in s.htlcs then Transition(Err(Internal, NoSuchHtlc), s)
    else
      var obj := s.htlcs[msg.hash];
      if obj.status != Created then Transition(Err(Internal, AlreadyResolved), s)
      else if !AddrEquals(obj.timeoutAddress, msg.sender) then Transition(Err(Internal, TimeoutMismatch), s)
      else if ctx.height < UnlockHeight(obj) then Transition(Err(Internal, NotTimedOut), s)
      else Transition(Ok, HtlcState(s.htlcs[obj.hash := obj.(status := Failed)],
                                    AddCoins(s.bank, obj.timeoutAddress, obj.amount)))
  }

  datatype HtlcMsg = AddMsg(add: MsgAddHtlc) | RedeemMsg(redeem: MsgRedeemHtlc) | FailMsg(fail: MsgFailHtlc) | OtherMsg(msgType: string)

  /** `NewHandler`: route by message kind. */
  function HandleStep(sha256: Bytes -> Bytes, s: HtlcState, ctx: Context, msg: HtlcMsg): Transition {
    match msg
    case AddMsg(m) => AddStep(s, ctx, m)
    case RedeemMsg(m) => RedeemStep(sha256, s, ctx, m)
    case FailMsg(m) => FailStep(s, ctx, m)
    case OtherMsg(_) => Transition(Err(UnknownRequest, UnrecognizedMsg), s)
  }

  /** The state after handling each message in turn, each in its block context. */
  function Run(sha256: Bytes -> Bytes, s: HtlcState, steps: seq<(Context, HtlcMsg)>): HtlcState
    decreases |steps|
  {
    if steps == [] then s else Run(sha256, HandleStep(sha256, s, steps[0].0, steps[0].1).state, steps[1..])
  }

  // ---------------------------------------------------------------------
  // One step.

  /** Add succeeds iff the hash is new and the depositor can cover the
      amount; it then debits exactly that and stores the new record. */
  lemma AddStepSpec(s: HtlcState, ctx: Context, msg: MsgAddHtlc)
    ensures AddStep(s, ctx, msg).result.Ok? <==>
      msg.hash !in s.htlcs && msg.amount.amount <= BalanceOf(s.bank, msg.timeoutAddress, msg.amount.denom)
    ensures msg.hash in s.htlcs ==> AddStep(s, ctx, msg) == Transition(Err(Internal, HashExists), s)
    ensures var t := AddStep(s, ctx, msg);
      t.result.Ok? ==>
        && t.state.htlcs == s.htlcs[msg.hash := ObjHtlc(msg.amount, msg.hash, msg.locktime, msg.redeemAddress,
                                                        msg.timeoutAddress, Created, ctx.height)]
        && BalanceOf(t.state.bank, msg.timeoutAddress, msg.amount.denom)
           == BalanceOf(s.bank, msg.timeoutAddress, msg.amount.denom) - msg.amount.amount
        && forall a, d :: (a != msg.timeoutAddress || d != msg.amount.denom) ==> BalanceOf(t.state.bank, a, d) == BalanceOf(s.bank, a, d)
  {
  }

  /** Redeem succeeds iff a `Created` record sits under the preimage's hash,
      the sender is its redeemer and the unlock height has not been reached;
      it then marks it `Redeemed` and credits the redeemer its amount. */
  lemma RedeemStepSpec(sha256: Bytes -> Bytes, s: HtlcState, ctx: Context, msg: MsgRedeemHtlc)
    requires HashKeysMatch(s.htlcs)
    ensures var hash := PreimageKey(sha256, msg.preimage);
      RedeemStep(sha256, s, ctx, msg).result.Ok? <==>
        && hash in s.htlcs && s.htlcs[hash].status == Created
        && AddrEquals(s.htlcs[hash].redeemAddress, msg.sender)
        && ctx.height < UnlockHeight(s.htlcs[hash])
    ensures var hash := PreimageKey(sha256, msg.preimage);
      var t := RedeemStep(sha256, s, ctx, msg);
      t.result.Ok? ==>
        var obj := s.htlcs[hash];
        && t.state.htlcs == s.htlcs[hash := obj.(status := Redeemed)]
        && BalanceOf(t.state.bank, obj.redeemAddress, obj.amount.denom)
           == BalanceOf(s.bank, obj.redeemAddress, obj.amount.denom) + obj.amount.amount
        && forall a, d :: (a != obj.redeemAddress || d != obj.amount.denom) ==> BalanceOf(t.state.bank, a, d) == BalanceOf(s.bank, a, d)
  {
  }

  /** Fail succeeds iff a `Created` record sits under the hash, the sender is
      its depositor and the unlock height has been reached; it then marks it
      `Failed` and refunds the depositor its amount. */
  lemma FailStepSpec(s: HtlcState, ctx: Context, msg: MsgFailHtlc)
    requires HashKeysMatch(s.htlcs)
    ensures FailStep(s, ctx, msg).result.Ok? <==>
        && msg.hash in s.htlcs && s.htlcs[msg.hash].status == Created
        && AddrEquals(s.htlcs[msg.hash].timeoutAddress, msg.sender)
        && ctx.height >= UnlockHeight(s.htlcs[msg.hash])
    ensures var t := FailStep(s, ctx, msg);
      t.result.Ok? ==>
        var obj := s.htlcs[msg.hash];
        && t.state.htlcs == s.htlcs[msg.hash := obj.(status := Failed)]
        && BalanceOf(t.state.bank, obj.timeoutAddress, obj.amount.denom)
           == BalanceOf(s.bank, obj.timeoutAddress, obj.amount.denom) + obj.amount.amount
        && forall a, d :: (a != obj.timeoutAddress || d != obj.amount.denom) ==> BalanceOf(t.state.bank, a, d) == BalanceOf(s.bank, a, d)
  {
  }

  /** The windows are complementary: for a `Created` record and its two
      parties, at any height exactly one of redeem and fail succeeds, and a
      positive locktime leaves redeem open at the creation height. */
  lemma ComplementaryWindows(sha256: Bytes -> Bytes, s: HtlcState, ctx: Context, preimage: Bytes)
    requires HashKeysMatch(s.htlcs)
    requires PreimageKey(sha256, preimage) in s.htlcs
    requires s.htlcs[PreimageKey(sha256, preimage)].status == Created
    ensures var obj := s.htlcs[PreimageKey(sha256, preimage)];
      && (RedeemStep(sha256, s, ctx, MsgRedeemHtlc(preimage, obj.redeemAddress)).result.Ok? <==> ctx.height < UnlockHeight(obj))
      && (FailStep(s, ctx, MsgFailHtlc(obj.hash, obj.timeoutAddress)).result.Ok? <==> ctx.height >= UnlockHeight(obj))
    ensures var obj := s.htlcs[PreimageKey(sha256, preimage)];
      obj.locktime > 0 && ctx.height == obj.blockCreatedAt ==>
        RedeemStep(sha256, s, ctx, MsgRedeemHtlc(preimage, obj.redeemAddress)).result.Ok?
  {
  }

  /** Any handled message: a rejection changes nothing, no record is ever
      removed, records stay under their own hash, and a record's only change
      is its status moving from `Created` to `Redeemed` or `Failed`. */
  lemma StepEffect(sha256: Bytes -> Bytes, s: HtlcState, ctx: Context, msg: HtlcMsg)
    requires HashKeysMatch(s.htlcs)
    ensures var t := HandleStep(sha256, s, ctx, msg);
      && (t.result.Err? ==> t.state == s)
      && s.htlcs.Keys <= t.state.htlcs.Keys
      && HashKeysMatch(t.state.htlcs)
      && forall h :: h in s.htlcs ==>
           || t.state.htlcs[h] == s.htlcs[h]
           || (s.htlcs[h].status == Created && t.state.htlcs[h] == s.htlcs[h].(status := Redeemed))
           || (s.htlcs[h].status == Created && t.state.htlcs[h] == s.htlcs[h].(status := Failed))
  {
  }

  /** Any message other than add, redeem and fail is refused with UnknownRequest. */
  lemma OtherMessagesRefused(sha256: Bytes -> Bytes, s: HtlcState, ctx: Context, t: string)
    ensures HandleStep(sha256, s, ctx, OtherMsg(t)) == Transition(Err(UnknownRequest, UnrecognizedMsg), s)
  {
  }

  // ---------------------------------------------------------------------
  // Runs.

  /** Along any run, a stored hash stays stored, and a record that has left
      `Created` never changes again. */
  lemma {:induction false} RunKeeps(sha256: Bytes -> Bytes, s: HtlcState, steps: seq<(Context, HtlcMsg)>, h: Bytes)
    requires HashKeysMatch(s.htlcs) && h in s.htlcs
    ensures HashKeysMatch(Run(sha256, s, steps).htlcs)
    ensures h in Run(sha256, s, steps).htlcs
    ensures s.htlcs[h].status != Created ==> Run(sha256, s, steps).htlcs[h] == s.htlcs[h]
    decreases |steps|
  {
    if steps != [] {
      var next := HandleStep(sha256, s, steps[0].0, steps[0].1).state;
      StepEffect(sha256, s, steps[0].0, steps[0].1);
      RunKeeps(sha256, next, steps[1..], h);
    }
  }

  /** A hash is never reusable: once stored, every later add under it is
      refused, whatever happened in between. */
  lemma HashNeverReusable(sha256: Bytes -> Bytes, s: HtlcState, steps: seq<(Context, HtlcMsg)>, ctx: Context, msg: MsgAddHtlc)
    requires HashKeysMatch(s.htlcs) && msg.hash in s.htlcs
    ensures var later := Run(sha256, s, steps);
      HandleStep(sha256, later, ctx, AddMsg(msg)) == Transition(Err(Internal, HashExists), later)
  {
    RunKeeps(sha256, s, steps, msg.hash);
  }

  /** A contract pays out at most once: after it is redeemed or failed, every
      later redeem or fail of it is refused. */
  lemma PaysOutOnce(sha256: Bytes -> Bytes, s: HtlcState, steps: seq<(Context, HtlcMsg)>, ctx: Context,
                    preimage: Bytes, sender: Address)
    requires HashKeysMatch(s.htlcs)
    requires PreimageKey(sha256, preimage) in s.htlcs && s.htlcs[PreimageKey(sha256, preimage)].status != Created
    ensures var later := Run(sha256, s, steps);
      && RedeemStep(sha256, later, ctx, MsgRedeemHtlc(preimage, sender)) == Transition(Err(Internal, AlreadyResolved), later)
      && FailStep(later, ctx, MsgFailHtlc(PreimageKey(sha256, preimage), sender)) == Transition(Err(Internal, AlreadyResolved), later)
  {
    RunKeeps(sha256, s, steps, PreimageKey(sha256, preimage));
  }

  // ---------------------------------------------------------------------
  // The handlers.

  method HandleMsgAddHtlc(k: Keeper, ctx: Context, msg: MsgAddHtlc) returns (res: Outcome<HtlcError>)
    modifies k
    ensures Transition(res, k.State()) == AddStep(old(k.State()), ctx, msg)
  {
    var exists_ := k.HasHtlc(msg.hash);
    if exists_ {
      return Err(Internal, HashExists);
    }
    var debited := SubtractCoins(k.bank, msg.timeoutAddress, msg.amount);
    if debited.None? {
      return Err(InsufficientCoins, NotEnoughCoins);
    }
    k.bank := debited.value;
    var obj := ObjHtlc(msg.amount, msg.hash, msg.locktime, msg.redeemAddress, msg.timeoutAddress, Created, ctx.height);
    k.UpsertHtlc(obj);
    res := Ok;
  }

  method HandleMsgRedeemHtlc(k: Keeper, ctx: Context, msg: MsgRedeemHtlc) returns (res: Outcome<HtlcError>)
    modifies k
    ensures Transition(res, k.State()) == RedeemStep(k.sha256, old(k.State()), ctx, msg)
  {
    var hash := EncodeToString(k.sha256(msg.preimage));
    var found := k.HasHtlc(hash);
    if !found {
      return Err(Internal, NoSuchHtlc);
    }
    var got := k.GetHtlc(hash);
    var obj := got.value;
    if obj.status != Created {
      return Err(Internal, AlreadyResolved);
    }
    if !AddrEquals(obj.redeemAddress, msg.sender) {
      return Err(Internal, RedeemerMismatch);
    }
    var unlockBlockHeight := obj.blockCreatedAt + obj.locktime;
    if ctx.height >= unlockBlockHeight {
      return Err(Internal, TimedOut);
    }
    obj := obj.(status := Redeemed);
    k.UpsertHtlc(obj);
    k.bank := AddCoins(k.bank, obj.redeemAddress, obj.amount);
    res := Ok;
  }

  method HandleMsgFailHtlc(k: Keeper, ctx: Context, msg: MsgFailHtlc) returns (res: Outcome<HtlcError>)
    modifies k
    ensures Transition(res, k.State()) == FailStep(old(k.State()), ctx, msg)
  {
    var found := k.HasHtlc(msg.hash);
    if !found {
      return Err(Internal, NoSuchHtlc);
    }
    var got := k.GetHtlc(msg.hash);
    var obj := got.value;
    if obj.status != Created {
      return Err(Internal, AlreadyResolved);
    }
    if !AddrEquals(obj.timeoutAddress, msg.sender) {
      return Err(Internal, TimeoutMismatch);
    }
    var unlockBlockHeight := obj.blockCreatedAt + obj.locktime;
    if ctx.height < unlockBlockHeight {
      return Err(Internal, NotTimedOut);
    }
    obj := obj.(status := Failed);
    k.UpsertHtlc(obj);
    k.bank := AddCoins(k.bank, obj.timeoutAddress, obj.amount);
    res := Ok;
  }

  /** `NewHandler`'s type switch. */
  method Handle(k: Keeper, ctx: Context, msg: HtlcMsg) returns (res: Outcome<HtlcError>)
    modifies k
    ensures Transition(res, k.State()) == HandleStep(k.sha256, old(k.State()), ctx, msg)
  {
    match msg
    case AddMsg(m) => res := HandleMsgAddHtlc(k, ctx, m);
    case RedeemMsg(m) => res := HandleMsgRedeemHtlc(k, ctx, m);
    case FailMsg(m) => res := HandleMsgFailHtlc(k, ctx, m);
    case OtherMsg(_) => res := Err(UnknownRequest, UnrecognizedMsg);
  }
}
