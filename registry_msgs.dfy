/**
 * x/registry/msgs.go: the three record messages, their stateless
 * validation, signers and routes. A record is the registry's resource: an
 * ID, a type, the owner's address text and its attributes.
 */
module RegistryMsgs {
  import opened Sdk

  const RouterKey := "registry"
  const TypeSetRecord := "set"
  const TypeDeleteRecord := "delete"
  const TypeClearRecords := "clear"

  /** The attribute key `ListResources` filters on. */
  const NamespaceKey := "namespace"

  /** An attribute value: a string, or anything else JSON can hold. */
  datatype Attr = AttrString(text: Bytes) | AttrOther

  /** A record; `owner` is the owner's address as text. */
  datatype Record = Record(id: Bytes, recordType: Bytes, owner: Bytes, attributes: map<string, Attr>)

  datatype Signature = Signature(pubKey: Bytes, sig: Bytes)

  datatype Payload = Payload(record: Record, signatures: seq<Signature>)

  datatype MsgSetRecord = MsgSetRecord(payload: Payload, signer: Address)

  datatype MsgDeleteRecord = MsgDeleteRecord(payload: Payload, signer: Address)

  datatype MsgClearRecords = MsgClearRecords(signer: Address)

  /** The failure reasons of the registry, one per message text of the source. */
  datatype RegistryError =
    | EmptySigner        // the (empty) signer's string
    | OwnerNotSet        // "Record owner not set."
    | UnauthorizedWrite  // "Unauthorized resource write."
    | UnrecognizedMsg    // "Unrecognized registry Msg type: ..."

  /** The check shared by set and delete: a signer, then a record owner. */
  function ValidateSignerAndOwner(payload: Payload, signer: Address): (r: Outcome<RegistryError>)
    ensures r.Ok? <==> |signer| > 0 && |payload.record.owner| > 0
    ensures |signer| == 0 ==> r == Err(InvalidAddress, EmptySigner)
    ensures r == Err(Internal, OwnerNotSet) <==> |signer| > 0 && |payload.record.owner| == 0
  {
    if |signer| == 0 then Err(InvalidAddress, EmptySigner)
    else if |payload.record.owner| == 0 then Err(Internal, OwnerNotSet)
    else Ok
  }

  /** `MsgSetRecord.ValidateBasic`. */
  function ValidateSet(msg: MsgSetRecord): (r: Outcome<RegistryError>)
    ensures r.Ok? <==> |msg.signer| > 0 && |msg.payload.record.owner| > 0
    ensures |msg.signer| == 0 ==> r == Err(InvalidAddress, EmptySigner)
    ensures |msg.signer| > 0 && |msg.payload.record.owner| == 0 ==> r == Err(Internal, OwnerNotSet)
  {
    ValidateSignerAndOwner(msg.payload, msg.signer)
  }

  /** `MsgDeleteRecord.ValidateBasic`: the same two checks as a set. */
  function ValidateDelete(msg: MsgDeleteRecord): (r: Outcome<RegistryError>)
    ensures r.Ok? <==> |msg.signer| > 0 && |msg.payload.record.owner| > 0
    ensures r == ValidateSet(MsgSetRecord(msg.payload, msg.signer))
  {
    ValidateSignerAndOwner(msg.payload, msg.signer)
  }

  /** `MsgClearRecords.ValidateBasic`: only a signer is required. */
  function ValidateClear(msg: MsgClearRecords): (r: Outcome<RegistryError>)
    ensures r.Ok? <==> |msg.signer| > 0
    ensures r.Err? ==> r == Err(InvalidAddress, EmptySigner)
  {
    if |msg.signer| == 0 then Err(InvalidAddress, EmptySigner) else Ok
  }

  function SetSigners(msg: MsgSetRecord): seq<Address> { [msg.signer] }

  function DeleteSigners(msg: MsgDeleteRecord): seq<Address> { [msg.signer] }

  function ClearSigners(msg: MsgClearRecords): seq<Address> { [msg.signer] }

  /** Each message is signed by its one signer, which validation has
      checked to be non-empty. */
  lemma SignersValidated(s: MsgSetRecord, d: MsgDeleteRecord, c: MsgClearRecords)
    ensures SetSigners(s) == [s.signer] && DeleteSigners(d) == [d.signer] && ClearSigners(c) == [c.signer]
    ensures ValidateSet(s).Ok? ==> |SetSigners(s)[0]| > 0
    ensures ValidateDelete(d).Ok? ==> |DeleteSigners(d)[0]| > 0
    ensures ValidateClear(c).Ok? ==> |ClearSigners(c)[0]| > 0
  {
  }

  /** A clear needs no record, so a clear signed by anyone passes where a
      set or delete with an ownerless record does not. */
  lemma ClearIgnoresOwner(p: Payload, signer: Address)
    requires |signer| > 0 && |p.record.owner| == 0
    ensures ValidateClear(MsgClearRecords(signer)).Ok?
    ensures ValidateSet(MsgSetRecord(p, signer)) == Err(Internal, OwnerNotSet)
    ensures ValidateDelete(MsgDeleteRecord(p, signer)) == Err(Internal, OwnerNotSet)
  {
  }
}
