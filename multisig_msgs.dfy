/**
 * x/multisig/msgs/{init,join,spend,abort}.go: the four messages of the
 * two-party escrow, their stateless validation, signers and routes.
 */
module MultisigMsgs {
  import opened Sdk

  const RouterKey := "multisig"
  const TypeInitMultiSig := "init_multisig"
  const TypeJoinMultiSig := "join_multisig"
  const TypeSpendMultiSig := "spend_multisig"
  const TypeAbortMultiSig := "abort_multisig"

  /** The failure reasons of the escrow, one per message text of the source. */
  datatype MultisigError =
    | EmptyId                // "ID cannot be empty."
    | AliceAmountNotPositive // "Alice's amount must be positive."
    | EmptyAliceAddress      // the (empty) Alice address's string
    | BobAmountNotPositive   // "Bob's amount must be positive."
    | EmptyBobAddress        // the (empty) Bob address's string
    | AmountNotPositive      // "Amount must be positive."
    | EmptyToAddress         // the (empty) recipient's string
    | ContractExists         // "Contract by that ID already exists."
    | IdenticalParties       // "Alice and Bob addresses can't be identical."
    | InvalidAliceAmount     // "Invalid amount for Alice."
    | InvalidBobAmount       // "Invalid amount for Bob."
    | DenomMismatch          // "Amount denomination mismatch."
    | NotEnoughCoins         // "Not enough coins."
    | ContractNotFound       // "Contract not found."
    | NotAuthorized          // "Address not authorized to join the contract."
    | AlreadyJoined          // "Contract already joined."
    | Panicked               // a panic: adding coins of different denominations
    | UnrecognizedMsg        // "Unrecognized multisig Msg type: ..."

  datatype MsgInitMultiSig = MsgInitMultiSig(id: Bytes, aliceAmount: Coin, aliceAddress: Address,
                                             bobAmount: Coin, bobAddress: Address)

  datatype MsgJoinMultiSig = MsgJoinMultiSig(id: Bytes, amount: Coin, bobAddress: Address)

  datatype MsgSpendMultiSig = MsgSpendMultiSig(id: Bytes, amount: Coin, toAddress: Address,
                                               aliceAddress: Address, bobAddress: Address)

  datatype MsgAbortMultiSig = MsgAbortMultiSig(id: Bytes, aliceAddress: Address)

  /** `MsgInitMultiSig.ValidateBasic`: an ID, then each party's positive
      amount and address. Distinct parties and a common denomination are
      left to the handler. */
  function ValidateInit(msg: MsgInitMultiSig): (r: Outcome<MultisigError>)
    ensures r.Ok? <==> && |msg.id| > 0 && IsPositive(msg.aliceAmount) && |msg.aliceAddress| > 0
                       && IsPositive(msg.bobAmount) && |msg.bobAddress| > 0
    ensures |msg.id| == 0 ==> r == Err(UnknownRequest, EmptyId)
    ensures |msg.id| > 0 && !IsPositive(msg.aliceAmount) ==> r == Err(InsufficientCoins, AliceAmountNotPositive)
    ensures |msg.id| > 0 && IsPositive(msg.aliceAmount) && |msg.aliceAddress| == 0 ==> r == Err(InvalidAddress, EmptyAliceAddress)
    ensures |msg.id| > 0 && IsPositive(msg.aliceAmount) && |msg.aliceAddress| > 0 && !IsPositive(msg.bobAmount) ==>
      r == Err(InsufficientCoins, BobAmountNotPositive)
    ensures r == Err(InvalidAddress, EmptyBobAddress) <==>
      && |msg.id| > 0 && IsPositive(msg.aliceAmount) && |msg.aliceAddress| > 0
      && IsPositive(msg.bobAmount) && |msg.bobAddress| == 0
  {
    if |msg.id| == 0 then Err(UnknownRequest, EmptyId)
    else if !IsPositive(msg.aliceAmount) then Err(InsufficientCoins, AliceAmountNotPositive)
    else if |msg.aliceAddress| == 0 then Err(InvalidAddress, EmptyAliceAddress)
    else if !IsPositive(msg.bobAmount) then Err(InsufficientCoins, BobAmountNotPositive)
    else if |msg.bobAddress| == 0 then Err(InvalidAddress, EmptyBobAddress)
    else Ok
  }

  /** Validation does not look at the parties' relation: identical parties
      and different denominations both pass it. */
  lemma ValidateInitIgnoresRelation(id: Bytes, a: Address, amount: Coin, other: Coin)
    requires |id| > 0 && |a| > 0 && IsPositive(amount) && IsPositive(other) && other.denom != amount.denom
    ensures ValidateInit(MsgInitMultiSig(id, amount, a, amount, a)).Ok?
    ensures ValidateInit(MsgInitMultiSig(id, amount, a, other, a)).Ok?
  {
  }

  /** `MsgJoinMultiSig.ValidateBasic`: an ID, a positive amount, Bob's address. */
  function ValidateJoin(msg: MsgJoinMultiSig): (r: Outcome<MultisigError>)
    ensures r.Ok? <==> |msg.id| > 0 && IsPositive(msg.amount) && |msg.bobAddress| > 0
    ensures |msg.id| == 0 ==> r == Err(UnknownRequest, EmptyId)
    ensures |msg.id| > 0 && !IsPositive(msg.amount) ==> r == Err(InsufficientCoins, AmountNotPositive)
    ensures |msg.id| > 0 && IsPositive(msg.amount) && |msg.bobAddress| == 0 ==> r == Err(InvalidAddress, EmptyBobAddress)
  {
    if |msg.id| == 0 then Err(UnknownRequest, EmptyId)
    else if !IsPositive(msg.amount) then Err(InsufficientCoins, AmountNotPositive)
    else if |msg.bobAddress| == 0 then Err(InvalidAddress, EmptyBobAddress)
    else Ok
  }

  /** `MsgSpendMultiSig.ValidateBasic`: an ID, a positive amount, then the
      recipient's, Alice's and Bob's addresses. */
  function ValidateSpend(msg: MsgSpendMultiSig): (r: Outcome<MultisigError>)
    ensures r.Ok? <==> && |msg.id| > 0 && IsPositive(msg.amount) && |msg.toAddress| > 0
                       && |msg.aliceAddress| > 0 && |msg.bobAddress| > 0
    ensures |msg.id| == 0 ==> r == Err(UnknownRequest, EmptyId)
    ensures |msg.id| > 0 && !IsPositive(msg.amount) ==> r == Err(InsufficientCoins, AmountNotPositive)
    ensures |msg.id| > 0 && IsPositive(msg.amount) && |msg.toAddress| == 0 ==> r == Err(InvalidAddress, EmptyToAddress)
    ensures |msg.id| > 0 && IsPositive(msg.amount) && |msg.toAddress| > 0 && |msg.aliceAddress| == 0 ==>
      r == Err(InvalidAddress, EmptyAliceAddress)
    ensures r == Err(InvalidAddress, EmptyBobAddress) <==>
      && |msg.id| > 0 && IsPositive(msg.amount) && |msg.toAddress| > 0
      && |msg.aliceAddress| > 0 && |msg.bobAddress| == 0
  {
    if |msg.id| == 0 then Err(UnknownRequest, EmptyId)
    else if !IsPositive(msg.amount) then Err(InsufficientCoins, AmountNotPositive)
    else if |msg.toAddress| == 0 then Err(InvalidAddress, EmptyToAddress)
    else if |msg.aliceAddress| == 0 then Err(InvalidAddress, EmptyAliceAddress)
    else if |msg.bobAddress| == 0 then Err(InvalidAddress, EmptyBobAddress)
    else Ok
  }

  /** `MsgAbortMultiSig.ValidateBasic`: an ID, then Alice's address. */
  function ValidateAbort(msg: MsgAbortMultiSig): (r: Outcome<MultisigError>)
    ensures r.Ok? <==> |msg.id| > 0 && |msg.aliceAddress| > 0
    ensures |msg.id| == 0 ==> r == Err(UnknownRequest, EmptyId)
    ensures |msg.id| > 0 && |msg.aliceAddress| == 0 ==> r == Err(InvalidAddress, EmptyAliceAddress)
  {
    if |msg.id| == 0 then Err(UnknownRequest, EmptyId)
    else if |msg.aliceAddress| == 0 then Err(InvalidAddress, EmptyAliceAddress)
    else Ok
  }

  function InitSigners(msg: MsgInitMultiSig): seq<Address> { [msg.aliceAddress] }

  function JoinSigners(msg: MsgJoinMultiSig): seq<Address> { [msg.bobAddress] }

  /** A spend needs both parties' signatures. */
  function SpendSigners(msg: MsgSpendMultiSig): seq<Address> { [msg.aliceAddress, msg.bobAddress] }

  function AbortSigners(msg: MsgAbortMultiSig): seq<Address> { [msg.aliceAddress] }

  /** Every signer a validated message names is a non-empty address; a spend
      names Alice then Bob. */
  lemma SignersValidated(i: MsgInitMultiSig, j: MsgJoinMultiSig, s: MsgSpendMultiSig, a: MsgAbortMultiSig)
    ensures InitSigners(i) == [i.aliceAddress] && JoinSigners(j) == [j.bobAddress]
    ensures SpendSigners(s) == [s.aliceAddress, s.bobAddress] && AbortSigners(a) == [a.aliceAddress]
    ensures ValidateInit(i).Ok? ==> |InitSigners(i)[0]| > 0
    ensures ValidateJoin(j).Ok? ==> |JoinSigners(j)[0]| > 0
    ensures ValidateSpend(s).Ok? ==> |SpendSigners(s)[0]| > 0 && |SpendSigners(s)[1]| > 0
    ensures ValidateAbort(a).Ok? ==> |AbortSigners(a)[0]| > 0
  {
  }
}
