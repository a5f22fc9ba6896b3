/**
 * x/registry/handler.go: the registry accepts one message, the record
 * write, and lets only a record's owner overwrite it. The handler is a
 * method on the keeper proved equal to a step function on the record
 * store; the ownership properties are lemmas about that function and about
 * runs of it.
 */
module RegistryHandler {
  import opened Sdk
  import opened RegistryMsgs
  import opened RegistryKeeper

  datatype Transition = Transition(result: Outcome<RegistryError>, records: map<Bytes, Record>)

  /** `handleMsgSetResource`: a known ID may be overwritten only when the
      signer's address text is the stored owner's; `addressText` is
      `AccAddress.String`, left uninterpreted. */
  function SetStep(addressText: Address -> Bytes, records: map<Bytes, Record>, msg: MsgSetRecord): Transition {
    var record := msg.payload.record;
    if record.id in records && addressText(msg.signer) != records[record.id].owner then
      Transition(Err(Unauthorized, UnauthorizedWrite), records)
    else
      Transition(Ok, records[record.id := record])
  }

  datatype RegistryMsg =
    | SetMsg(write: MsgSetRecord)
    | DeleteMsg(delete: MsgDeleteRecord)
    | ClearMsg(clear: MsgClearRecords)
    | OtherMsg(msgType: string)

  /** `NewHandler`: only the record write is routed; delete and clear are
      declared as messages but refused like any unknown one. */
  function HandleStep(addressText: Address -> Bytes, records: map<Bytes, Record>, msg: RegistryMsg): Transition {
    match msg
    case SetMsg(m) => SetStep(addressText, records, m)
    case _ => Transition(Err(UnknownRequest, UnrecognizedMsg), records)
  }

  /** The store after handling each message in turn. */
  function Run(addressText: Address -> Bytes, records: map<Bytes, Record>, msgs: seq<RegistryMsg>): map<Bytes, Record>
    decreases |msgs|
  {
    if msgs == [] then records else Run(addressText, HandleStep(addressText, records, msgs[0]).records, msgs[1..])
  }

  // ---------------------------------------------------------------------
  // One step.

  /** A write succeeds iff the ID is new or the signer owns the stored
      record; success stores the record under its ID, failure stores nothing. */
  lemma SetStepSpec(addressText: Address -> Bytes, records: map<Bytes, Record>, msg: MsgSetRecord)
    ensures var t := SetStep(addressText, records, msg); var id := msg.payload.record.id;
      && (t.result.Ok? <==> id !in records || addressText(msg.signer) == records[id].owner)
      && (t.result.Ok? ==> id in t.records && t.records[id] == msg.payload.record)
      && (t.result.Err? ==> t.result == Err(Unauthorized, UnauthorizedWrite) && t.records == records)
  {
  }

  /** Writing a new ID always succeeds, whoever signs. */
  lemma NewIdAlwaysWritten(addressText: Address -> Bytes, records: map<Bytes, Record>, msg: MsgSetRecord)
    requires msg.payload.record.id !in records
    ensures SetStep(addressText, records, msg).result.Ok?
    ensures SetStep(addressText, records, msg).records == records[msg.payload.record.id := msg.payload.record]
  {
  }

  /** A signer who is not the owner cannot touch the stored record. */
  lemma UnauthorizedWriteChangesNothing(addressText: Address -> Bytes, records: map<Bytes, Record>, msg: MsgSetRecord)
    requires msg.payload.record.id in records
    requires addressText(msg.signer) != records[msg.payload.record.id].owner
    ensures SetStep(addressText, records, msg) == Transition(Err(Unauthorized, UnauthorizedWrite), records)
  {
  }

  /** Every step leaves every other ID as it was, and writes its own ID only
      on success. */
  lemma StepEffect(addressText: Address -> Bytes, records: map<Bytes, Record>, msg: RegistryMsg)
    ensures var t := HandleStep(addressText, records, msg);
      && (t.result.Err? ==> t.records == records)
      && (t.result.Ok? ==> msg.SetMsg? && t.records == records[msg.write.payload.record.id := msg.write.payload.record])
      && (forall id :: (!msg.SetMsg? || id != msg.write.payload.record.id) ==>
            (id in t.records <==> id in records) && (id in records ==> t.records[id] == records[id]))
  {
  }

  /** Delete, clear and unknown messages are refused and change nothing. */
  lemma OnlyWritesHandled(addressText: Address -> Bytes, records: map<Bytes, Record>, msg: RegistryMsg)
    requires !msg.SetMsg?
    ensures HandleStep(addressText, records, msg) == Transition(Err(UnknownRequest, UnrecognizedMsg), records)
  {
  }

  // ---------------------------------------------------------------------
  // Runs.

  /** `msg` is a write of the ID signed by the address whose text is `owner`. */
  predicate IsWriteBy(addressText: Address -> Bytes, msg: RegistryMsg, id: Bytes, owner: Bytes) {
    msg.SetMsg? && msg.write.payload.record.id == id && addressText(msg.write.signer) == owner
  }

  /** Every record stays under its own ID along any run. */
  lemma {:induction false} RunKeepsIds(addressText: Address -> Bytes, records: map<Bytes, Record>, msgs: seq<RegistryMsg>)
    requires IdKeysMatch(records)
    ensures IdKeysMatch(Run(addressText, records, msgs))
    decreases |msgs|
  {
    if msgs != [] {
      StepEffect(addressText, records, msgs[0]);
      RunKeepsIds(addressText, HandleStep(addressText, records, msgs[0]).records, msgs[1..]);
    }
  }

  /** Once stored, a record stays exactly as it is through any run in which
      its owner signs no write of its ID: no one else can replace it, and
      nothing in the registry deletes it. */
  lemma {:induction false} OwnerControlsRecord(addressText: Address -> Bytes, records: map<Bytes, Record>, msgs: seq<RegistryMsg>, id: Bytes)
    requires id in records
    requires forall i :: 0 <= i < |msgs| ==> !IsWriteBy(addressText, msgs[i], id, records[id].owner)
    ensures id in Run(addressText, records, msgs) && Run(addressText, records, msgs)[id] == records[id]
    decreases |msgs|
  {
    if msgs != [] {
      StepEffect(addressText, records, msgs[0]);
      var next := HandleStep(addressText, records, msgs[0]).records;
      assert !IsWriteBy(addressText, msgs[0], id, records[id].owner);
      assert id in next && next[id] == records[id];
      assert forall i :: 0 <= i < |msgs[1..]| ==> msgs[1..][i] == msgs[i + 1];
      OwnerControlsRecord(addressText, next, msgs[1..], id);
    }
  }

  /** A stored ID is never removed by any run. */
  lemma {:induction false} RunNeverForgets(addressText: Address -> Bytes, records: map<Bytes, Record>, msgs: seq<RegistryMsg>, id: Bytes)
    requires id in records
    ensures id in Run(addressText, records, msgs)
    decreases |msgs|
  {
    if msgs != [] {
      StepEffect(addressText, records, msgs[0]);
      RunNeverForgets(addressText, HandleStep(addressText, records, msgs[0]).records, msgs[1..], id);
    }
  }

  // ---------------------------------------------------------------------
  // The handler on the keeper.

  method HandleMsgSetResource(k: Keeper, addressText: Address -> Bytes, msg: MsgSetRecord) returns (res: Outcome<RegistryError>)
    modifies k
    ensures Transition(res, k.records) == SetStep(addressText, old(k.records), msg)
  {
    var record := msg.payload.record;
    var found := k.HasResource(record.id);
    if found {
      var existing := k.GetResource(record.id);
      if addressText(msg.signer) != existing.value.owner {
        return Err(Unauthorized, UnauthorizedWrite);
      }
    }
    k.PutResource(record);
    res := Ok;
  }

  method Handle(k: Keeper, addressText: Address -> Bytes, msg: RegistryMsg) returns (res: Outcome<RegistryError>)
    modifies k
    ensures Transition(res, k.records) == HandleStep(addressText, old(k.records), msg)
  {
    match msg
    case SetMsg(m) => res := HandleMsgSetResource(k, addressText, m);
    case _ => res := Err(UnknownRequest, UnrecognizedMsg);
  }
}
