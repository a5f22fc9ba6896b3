/**
 * x/htlc/msgs.go: the three hashed-timelock messages, their stateless
 * validation, signers and routes.
 */
module HtlcMsgs {
  import opened Sdk

  const RouterKey := "htlc"
  const TypeAddHtlc := "add_htlc"
  const TypeRedeemHtlc := "redeem_htlc"
  const TypeFailHtlc := "fail_htlc"

  /** The failure reasons of the HTLC ledger, one per message text of the source. */
  datatype HtlcError =
    | AmountNotPositive      // "Amount must be positive."
    | EmptyHash              // "Hash cannot be empty."
    | ZeroLocktime           // "Locktime should be greater than zero."
    | EmptyRedeemAddress     // the (empty) redeem address's string
    | EmptyTimeoutAddress    // also the redeem address's string in the source
    | EmptyPreimage          // "Preimage cannot be empty."
    | EmptySender            // the (empty) sender's string
    | HashExists             // "HTLC by that hash already exists."
    | NotEnoughCoins         // "Not enough coins to create HTLC."
    | NoSuchHtlc             // "HTLC doesn't exist."
    | AlreadyResolved        // "HTLC already redeemed or timed out."
    | RedeemerMismatch       // "HTLC redeemer account mismatch."
    | TimedOut               // "HTLC timed out at block ..."
    | TimeoutMismatch        // "HTLC timeout account mismatch."
    | NotTimedOut            // "HTLC timeout after block ..."
    | UnrecognizedMsg        // "Unrecognized htlc Msg type: ..."

  /** `Hash` is the lower-case hex of the SHA-256 of the preimage, as text. */
  datatype MsgAddHtlc = MsgAddHtlc(amount: Coin, hash: Bytes, locktime: int64,
                                   redeemAddress: Address, timeoutAddress: Address)

  datatype MsgRedeemHtlc = MsgRedeemHtlc(preimage: Bytes, sender: Address)

  datatype MsgFailHtlc = MsgFailHtlc(hash: Bytes, sender: Address)

  /** `MsgAddHtlc.ValidateBasic`: only a zero locktime is refused, so a
      negative one passes. */
  function ValidateAdd(msg: MsgAddHtlc): (r: Outcome<HtlcError>)
    ensures r.Ok? <==> && IsPositive(msg.amount) && |msg.hash| > 0 && msg.locktime != 0
                       && |msg.redeemAddress| > 0 && |msg.timeoutAddress| > 0
    ensures !IsPositive(msg.amount) ==> r == Err(InsufficientCoins, AmountNotPositive)
    ensures IsPositive(msg.amount) && |msg.hash| == 0 ==> r == Err(UnknownRequest, EmptyHash)
    ensures IsPositive(msg.amount) && |msg.hash| > 0 && msg.locktime == 0 ==> r == Err(UnknownRequest, ZeroLocktime)
    ensures IsPositive(msg.amount) && |msg.hash| > 0 && msg.locktime != 0 && |msg.redeemAddress| == 0 ==>
      r == Err(InvalidAddress, EmptyRedeemAddress)
    ensures r == Err(InvalidAddress, EmptyTimeoutAddress) <==>
      && IsPositive(msg.amount) && |msg.hash| > 0 && msg.locktime != 0
      && |msg.redeemAddress| > 0 && |msg.timeoutAddress| == 0
  {
    if !IsPositive(msg.amount) then Err(InsufficientCoins, AmountNotPositive)
    else if |msg.hash| == 0 then Err(UnknownRequest, EmptyHash)
    else if msg.locktime == 0 then Err(UnknownRequest, ZeroLocktime)
    else if |msg.redeemAddress| == 0 then Err(InvalidAddress, EmptyRedeemAddress)
    else if |msg.timeoutAddress| == 0 then Err(InvalidAddress, EmptyTimeoutAddress)
    else Ok
  }

  /** `MsgRedeemHtlc.ValidateBasic`: a preimage, then a sender. */
  function ValidateRedeem(msg: MsgRedeemHtlc): (r: Outcome<HtlcError>)
    ensures r.Ok? <==> |msg.preimage| > 0 && |msg.sender| > 0
    ensures |msg.preimage| == 0 ==> r == Err(UnknownRequest, EmptyPreimage)
    ensures |msg.preimage| > 0 && |msg.sender| == 0 ==> r == Err(InvalidAddress, EmptySender)
  {
    if |msg.preimage| == 0 then Err(UnknownRequest, EmptyPreimage)
    else if |msg.sender| == 0 then Err(InvalidAddress, EmptySender)
    else Ok
  }

  /** `MsgFailHtlc.ValidateBasic`: a hash, then a sender. */
  function ValidateFail(msg: MsgFailHtlc): (r: Outcome<HtlcError>)
    ensures r.Ok? <==> |msg.hash| > 0 && |msg.sender| > 0
    ensures |msg.hash| == 0 ==> r == Err(UnknownRequest, EmptyHash)
    ensures |msg.hash| > 0 && |msg.sender| == 0 ==> r == Err(InvalidAddress, EmptySender)
  {
    if |msg.hash| == 0 then Err(UnknownRequest, EmptyHash)
    else if |msg.sender| == 0 then Err(InvalidAddress, EmptySender)
    else Ok
  }

  /** The depositor signs an add; the sender signs a redeem or a fail. */
  function AddSigners(msg: MsgAddHtlc): seq<Address> { [msg.timeoutAddress] }

  function RedeemSigners(msg: MsgRedeemHtlc): seq<Address> { [msg.sender] }

  function FailSigners(msg: MsgFailHtlc): seq<Address> { [msg.sender] }

  /** Each message has exactly one signer, which validation requires to be
      non-empty; the add is signed by the party the coins come from. */
  lemma SignersValidated(a: MsgAddHtlc, r: MsgRedeemHtlc, f: MsgFailHtlc)
    ensures AddSigners(a) == [a.timeoutAddress] && RedeemSigners(r) == [r.sender] && FailSigners(f) == [f.sender]
    ensures ValidateAdd(a).Ok? ==> |AddSigners(a)[0]| > 0
    ensures ValidateRedeem(r).Ok? ==> |RedeemSigners(r)[0]| > 0
    ensures ValidateFail(f).Ok? ==> |FailSigners(f)[0]| > 0
  {
  }
}
