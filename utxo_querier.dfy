/**
 * x/utxo/querier.go: the read-only endpoints over the ledger. Replies are
 * the records themselves rather than their indented JSON; a Go panic (an
 * empty path, a missing record, an output script that does not decode) is
 * the reply `Refused(Panic, Panicked)`.
 */
module UtxoQuerier {
  import opened Sdk
  import opened Fmt
  import opened KeyOrder
  import opened UtxoTypes
  import opened UtxoCodec
  import opened UtxoMsgs
  import opened UtxoKeeper
  import opened UtxoHandler
  import opened UtxoHelpers

  /** The endpoint names. */
  const ListAccOutputPath := "ls-account-outputs"
  const ListUtxoPath := "ls"
  const ListTxPath := "ls-tx"
  const GetTxPath := "get-tx"
  const GetBalancePath := "balance"
  const GetGraphPath := "graph"

  const Endpoints: set<string> :=
    {ListAccOutputPath, ListUtxoPath, ListTxPath, GetTxPath, GetBalancePath, GetGraphPath}

  /** What an endpoint answers with. `Graph` holds what the DOT graph is
      drawn from: the transactions with their IDs, the account outputs and
      the live outpoints. */
  datatype Answer =
    | AccOutputs(accOutputs: seq<AccOutput>)
    | Utxos(utxos: seq<OutPoint>)
    | Txs(txs: seq<Tx>)
    | OneTx(tx: Tx)
    | Balance(wallet: Wallet)
    | Graph(txIds: seq<Hash>, graphTxs: seq<Tx>, graphAccOutputs: seq<AccOutput>, graphUtxos: seq<OutPoint>)

  datatype QueryReply = Answered(answer: Answer) | Refused(code: Code, reason: UtxoError)

  // ---------------------------------------------------------------------
  // The balance of an address.

  /** `updateWallet`: the balance is a uint64 and wraps around. */
  function UpdateWallet(w: Wallet, op: OutPoint, value: uint64): Wallet {
    Wallet((w.balance + value) % TwoTo64, w.entries + [OutPointVal(op.hash, op.index, value)])
  }

  /** One iteration of `getBalance`'s loop; `None` is a panic. */
  function WalletStep(env: Env, s: UtxoState, address: Address, w: Wallet, op: OutPoint): Option<Wallet> {
    match Resolve(env, s, op)
    case Unresolvable => None
    case Unowned => Some(w)
    case Owned(owner, value) => Some(if AddrEquals(owner, address) then UpdateWallet(w, op, value) else w)
  }

  /** `getBalance`'s loop over the outpoints `ops`, from an empty wallet. */
  function ScanWallet(env: Env, s: UtxoState, address: Address, ops: seq<OutPoint>): Option<Wallet> {
    if ops == [] then Some(Wallet(0, []))
    else match ScanWallet(env, s, address, ops[..|ops| - 1])
      case None => None
      case Some(w) => WalletStep(env, s, address, w, ops[|ops| - 1])
  }

  /** The entry an outpoint contributes when it pays the address. */
  function OwnedEntry(env: Env, s: UtxoState, address: Address, op: OutPoint): seq<OutPointVal> {
    var r := Resolve(env, s, op);
    if r.Owned? && AddrEquals(r.owner, address) then [OutPointVal(op.hash, op.index, r.value)] else []
  }

  /** The entries the address is owed: the outpoints of `ops` that pay it,
      in order, each with its value. */
  function OwnedEntries(env: Env, s: UtxoState, address: Address, ops: seq<OutPoint>): seq<OutPointVal> {
    if ops == [] then []
    else OwnedEntries(env, s, address, ops[..|ops| - 1]) + OwnedEntry(env, s, address, ops[|ops| - 1])
  }

  /** The exact sum of entry values. */
  function EntriesTotal(es: seq<OutPointVal>): nat {
    if es == [] then 0 else EntriesTotal(es[..|es| - 1]) + es[|es| - 1].value
  }

  lemma EntriesTotalAppend(es: seq<OutPointVal>, e: OutPointVal)
    ensures EntriesTotal(es + [e]) == EntriesTotal(es) + e.value
  {
    assert (es + [e])[..|es|] == es;
  }

  /** The wallet holds the entries `es` and their total modulo 2^64. */
  predicate WalletHolds(w: Wallet, es: seq<OutPointVal>) {
    w.entries == es && w.balance == EntriesTotal(es) % TwoTo64
  }

  /** A step that does not panic adds the outpoint's owned entry, if any,
      and keeps the balance equal to the entries' total modulo 2^64. */
  lemma WalletStepHolds(env: Env, s: UtxoState, address: Address, w: Wallet, es: seq<OutPointVal>, op: OutPoint)
    requires WalletHolds(w, es)
    requires WalletStep(env, s, address, w, op).Some?
    ensures WalletHolds(WalletStep(env, s, address, w, op).value, es + OwnedEntry(env, s, address, op))
  {
    var r := Resolve(env, s, op);
    if r.Owned? && AddrEquals(r.owner, address) {
      var e := OutPointVal(op.hash, op.index, r.value);
      EntriesTotalAppend(es, e);
      ModAdd(EntriesTotal(es), r.value);
    } else {
      assert es + [] == es;
    }
  }

  /** The scan panics exactly when some outpoint does not resolve. */
  lemma {:induction false} ScanWalletSome(env: Env, s: UtxoState, address: Address, ops: seq<OutPoint>)
    ensures ScanWallet(env, s, address, ops).Some? <==>
            forall i :: 0 <= i < |ops| ==> !Resolve(env, s, ops[i]).Unresolvable?
  {
    if ops != [] {
      var p := ops[..|ops| - 1];
      ScanWalletSome(env, s, address, p);
      assert forall i :: 0 <= i < |p| ==> p[i] == ops[i];
    }
  }

  /** When the scan does not panic, its entries are the owned entries and
      its balance is their total modulo 2^64. */
  lemma {:induction false} ScanWalletContents(env: Env, s: UtxoState, address: Address, ops: seq<OutPoint>)
    requires ScanWallet(env, s, address, ops).Some?
    ensures WalletHolds(ScanWallet(env, s, address, ops).value, OwnedEntries(env, s, address, ops))
  {
    if ops != [] {
      var p := ops[..|ops| - 1];
      var w := ScanWallet(env, s, address, p);
      assert w.Some?;
      ScanWalletContents(env, s, address, p);
      WalletStepHolds(env, s, address, w.value, OwnedEntries(env, s, address, p), ops[|ops| - 1]);
    }
  }

  /** The scan panics exactly when some outpoint does not resolve; otherwise
      its entries are the owned entries and its balance is their total
      modulo 2^64. */
  lemma ScanWalletSpec(env: Env, s: UtxoState, address: Address, ops: seq<OutPoint>)
    ensures ScanWallet(env, s, address, ops).Some? <==>
            forall i :: 0 <= i < |ops| ==> !Resolve(env, s, ops[i]).Unresolvable?
    ensures ScanWallet(env, s, address, ops).Some? ==>
      && ScanWallet(env, s, address, ops).value.entries == OwnedEntries(env, s, address, ops)
      && ScanWallet(env, s, address, ops).value.balance == EntriesTotal(OwnedEntries(env, s, address, ops)) % TwoTo64
  {
    ScanWalletSome(env, s, address, ops);
    if ScanWallet(env, s, address, ops).Some? {
      ScanWalletContents(env, s, address, ops);
    }
  }

  /** An entry is an outpoint of `ops` that pays the address with the entry's
      value, and every such outpoint has its entry. */
  lemma {:induction false} OwnedEntriesMembers(env: Env, s: UtxoState, address: Address, ops: seq<OutPoint>)
    ensures forall e :: e in OwnedEntries(env, s, address, ops) ==>
      && OutPoint(e.hash, e.index) in ops
      && Resolve(env, s, OutPoint(e.hash, e.index)).Owned?
      && AddrEquals(Resolve(env, s, OutPoint(e.hash, e.index)).owner, address)
      && Resolve(env, s, OutPoint(e.hash, e.index)).value == e.value
    ensures forall op :: op in ops && Resolve(env, s, op).Owned? && AddrEquals(Resolve(env, s, op).owner, address) ==>
      OutPointVal(op.hash, op.index, Resolve(env, s, op).value) in OwnedEntries(env, s, address, ops)
  {
    if ops != [] {
      var p := ops[..|ops| - 1];
      OwnedEntriesMembers(env, s, address, p);
      assert ops == p + [ops[|ops| - 1]];
    }
  }

  /** No outpoint is counted twice when `ops` has no repeats. */
  lemma {:induction false} OwnedEntriesDistinct(env: Env, s: UtxoState, address: Address, ops: seq<OutPoint>)
    requires forall i, j :: 0 <= i < j < |ops| ==> ops[i] != ops[j]
    ensures forall i, j :: 0 <= i < j < |OwnedEntries(env, s, address, ops)| ==>
      OwnedEntries(env, s, address, ops)[i] != OwnedEntries(env, s, address, ops)[j]
  {
    if ops != [] {
      var p := ops[..|ops| - 1];
      var last := ops[|ops| - 1];
      OwnedEntriesDistinct(env, s, address, p);
      OwnedEntriesMembers(env, s, address, p);
      var es := OwnedEntries(env, s, address, p);
      assert last !in p by {
        forall i | 0 <= i < |p| ensures p[i] != last {
          assert p[i] == ops[i];
        }
      }
      forall e | e in es ensures OutPoint(e.hash, e.index) != last {
        assert OutPoint(e.hash, e.index) in p;
      }
      var es' := OwnedEntries(env, s, address, ops);
      assert es' == es + OwnedEntry(env, s, address, last);
      if |es'| > |es| {
        var x := es'[|es|];
        assert OutPoint(x.hash, x.index) == last;
        forall i | 0 <= i < |es| ensures es'[i] != x {
          assert es'[i] == es[i] && es[i] in es;
          assert OutPoint(es[i].hash, es[i].index) != last;
        }
      }
      forall i, j | 0 <= i < j < |es| ensures es'[i] != es'[j] {
        assert es'[i] == es[i] && es'[j] == es[j];
        assert es[i] != es[j];
      }
    }
  }

  /** Every stored transaction output carries a script that decodes. */
  ghost predicate ScriptsDecode(env: Env, s: UtxoState) {
    forall h, i :: h in s.txs && 0 <= i < |s.txs[h].txOut| ==> env.decodePayToAddress(s.txs[h].txOut[i].pkScript).Some?
  }

  /** The answer of `balance/<address>` on an already decoded address. */
  ghost function BalanceOfAddress(env: Env, s: UtxoState, address: Address): QueryReply {
    match ScanWallet(env, s, address, InKeyOrder(s.outpoints))
    case None => Refused(Panic, Panicked)
    case Some(w) => Answered(Balance(w))
  }

  /** On a valid ledger whose scripts decode, the balance query does not
      panic; its entries are, once each, exactly the live outpoints that pay
      the address, with their values, and its balance is their total modulo
      2^64. An outpoint with index below -1 never counts. */
  lemma BalanceOfLive(env: Env, s: UtxoState, address: Address)
    requires Valid(s) && ScriptsDecode(env, s)
    ensures BalanceOfAddress(env, s, address).Answered?
    ensures var es := BalanceOfAddress(env, s, address).answer.wallet.entries;
      && (forall op :: op in Live(s) && Resolve(env, s, op).Owned? && AddrEquals(Resolve(env, s, op).owner, address) ==>
            OutPointVal(op.hash, op.index, Resolve(env, s, op).value) in es)
      && (forall e :: e in es ==>
            && OutPoint(e.hash, e.index) in Live(s) && e.index >= -1
            && AddrEquals(Resolve(env, s, OutPoint(e.hash, e.index)).owner, address)
            && Resolve(env, s, OutPoint(e.hash, e.index)).value == e.value)
      && (forall i, j :: 0 <= i < j < |es| ==> es[i] != es[j])
      && BalanceOfAddress(env, s, address).answer.wallet.balance == EntriesTotal(es) % TwoTo64
  {
    var ops := InKeyOrder(s.outpoints);
    ListUtxoSpec(s.outpoints);
    forall i | 0 <= i < |ops| ensures !Resolve(env, s, ops[i]).Unresolvable? {
      assert ops[i] in Live(s);
      assert Resolves(s, ops[i]);
    }
    ScanWalletSpec(env, s, address, ops);
    OwnedEntriesMembers(env, s, address, ops);
    OwnedEntriesDistinct(env, s, address, ops);
  }

  /** A single live outpoint that does not resolve makes the balance query
      panic for every address. */
  lemma BalancePanicsOnUnresolvable(env: Env, s: UtxoState, address: Address, op: OutPoint)
    requires KeysMatch(s.outpoints)
    requires op in Live(s) && Resolve(env, s, op).Unresolvable?
    ensures BalanceOfAddress(env, s, address) == Refused(Panic, Panicked)
  {
    var ops := InKeyOrder(s.outpoints);
    ListUtxoSpec(s.outpoints);
    var i :| 0 <= i < |ops| && ops[i] == op;
    ScanWalletSpec(env, s, address, ops);
  }

  // ---------------------------------------------------------------------
  // Routing.

  /** `getTx`: the path segments joined with "/" are the base64 of the hash. */
  function GetTxReply(env: Env, s: UtxoState, rest: seq<string>): QueryReply {
    match env.base64Decode(Join(rest, "/"))
    case None => Refused(Internal, HashUndecodable)
    case Some(hash) => if hash !in s.txs then Refused(Internal, TxNotFound) else Answered(OneTx(s.txs[hash]))
  }

  /** `getBalance`: `rest[0]` is the bech32 address. */
  ghost function GetBalanceReply(env: Env, s: UtxoState, rest: seq<string>): QueryReply {
    if rest == [] then Refused(Panic, Panicked)
    else match env.bech32Decode(rest[0])
      case None => Refused(InvalidAddress, BadAddress)
      case Some(address) => BalanceOfAddress(env, s, address)
  }

  /** `NewQuerier`: route on the first path segment. */
  ghost function QueryStep(env: Env, s: UtxoState, path: seq<string>): QueryReply {
    if path == [] then Refused(Panic, Panicked)
    else if path[0] == ListAccOutputPath then Answered(AccOutputs(InKeyOrder(s.accOutputs)))
    else if path[0] == ListUtxoPath then Answered(Utxos(InKeyOrder(s.outpoints)))
    else if path[0] == ListTxPath then Answered(Txs(InKeyOrder(s.txs)))
    else if path[0] == GetTxPath then GetTxReply(env, s, path[1..])
    else if path[0] == GetBalancePath then GetBalanceReply(env, s, path[1..])
    else if path[0] == GetGraphPath then
      Answered(Graph(SortedKeys(s.txs.Keys), InKeyOrder(s.txs), InKeyOrder(s.accOutputs), InKeyOrder(s.outpoints)))
    else Refused(UnknownRequest, UnknownEndpoint)
  }

  /** An unknown endpoint is refused with UnknownRequest; an empty path panics. */
  lemma QueryRouting(env: Env, s: UtxoState, path: seq<string>)
    ensures path == [] ==> QueryStep(env, s, path) == Refused(Panic, Panicked)
    ensures path != [] && path[0] !in Endpoints ==> QueryStep(env, s, path) == Refused(UnknownRequest, UnknownEndpoint)
    ensures QueryStep(env, s, path).Refused? && QueryStep(env, s, path).code == UnknownRequest ==> path[0] !in Endpoints
  {
  }

  /** `get-tx` answers with a transaction iff the path decodes to the hash of
      a stored one, and the answer is that transaction. */
  lemma GetTxSpec(env: Env, s: UtxoState, rest: seq<string>)
    ensures GetTxReply(env, s, rest).Answered? <==>
      env.base64Decode(Join(rest, "/")).Some? && env.base64Decode(Join(rest, "/")).value in s.txs
    ensures GetTxReply(env, s, rest).Answered? ==>
      GetTxReply(env, s, rest).answer == OneTx(s.txs[env.base64Decode(Join(rest, "/")).value])
    ensures env.base64Decode(Join(rest, "/")).None? ==> GetTxReply(env, s, rest) == Refused(Internal, HashUndecodable)
    ensures env.base64Decode(Join(rest, "/")).Some? && env.base64Decode(Join(rest, "/")).value !in s.txs ==>
      GetTxReply(env, s, rest) == Refused(Internal, TxNotFound)
  {
  }

  /** After an accepted spend, `get-tx` on the path of its hash answers with
      that transaction, and every other hash answers as before. */
  lemma GetTxAfterSpend(env: Env, s: UtxoState, msg: MsgTx, rest: seq<string>)
    requires TxStep(env, s, msg).result.Ok?
    ensures env.base64Decode(Join(rest, "/")) == Some(GenTxHash(env, msg.tx)) ==>
      GetTxReply(env, TxStep(env, s, msg).state, rest) == Answered(OneTx(msg.tx))
    ensures env.base64Decode(Join(rest, "/")) != Some(GenTxHash(env, msg.tx)) ==>
      GetTxReply(env, TxStep(env, s, msg).state, rest) == GetTxReply(env, s, rest)
  {
  }

  /** The listing endpoints yield each live outpoint and each account output
      exactly once. */
  lemma ListingsExact(env: Env, s: UtxoState)
    requires Valid(s)
    ensures var u := QueryStep(env, s, [ListUtxoPath]).answer.utxos;
      (forall op :: op in u <==> op in Live(s)) && forall i, j :: 0 <= i < j < |u| ==> u[i] != u[j]
    ensures var a := QueryStep(env, s, [ListAccOutputPath]).answer.accOutputs;
      (forall r :: r in a <==> r in s.accOutputs.Values) && forall i, j :: 0 <= i < j < |a| ==> a[i] != a[j]
  {
    assert ListUtxoPath != ListAccOutputPath;
    ListUtxoSpec(s.outpoints);
    ListAccOutputSpec(s.accOutputs);
  }

  // ---------------------------------------------------------------------
  // The querier.

  method GetTxQuery(k: Keeper, rest: seq<string>) returns (r: QueryReply)
    ensures r == GetTxReply(k.env, k.State(), rest)
  {
    var hash := k.env.base64Decode(Join(rest, "/"));
    if hash.None? {
      return Refused(Internal, HashUndecodable);
    }
    var found := k.HasTx(hash.value);
    if !found {
      return Refused(Internal, TxNotFound);
    }
    var record := k.GetTx(hash.value);
    r := Answered(OneTx(record.value));
  }

  lemma ScanWalletPrefixPanics(env: Env, s: UtxoState, address: Address, ops: seq<OutPoint>, i: nat)
    requires i <= |ops| && ScanWallet(env, s, address, ops[..i]).None?
    ensures ScanWallet(env, s, address, ops).None?
  {
    ScanWalletSpec(env, s, address, ops[..i]);
    ScanWalletSpec(env, s, address, ops);
    var j :| 0 <= j < i && Resolve(env, s, ops[..i][j]).Unresolvable?;
    assert ops[j] == ops[..i][j];
  }

  method GetBalanceQuery(k: Keeper, rest: seq<string>) returns (r: QueryReply)
    ensures r == GetBalanceReply(k.env, k.State(), rest)
  {
    if rest == [] {
      return Refused(Panic, Panicked);
    }
    var decoded := k.env.bech32Decode(rest[0]);
    if decoded.None? {
      return Refused(InvalidAddress, BadAddress);
    }
    var address := decoded.value;
    var wallet := Wallet(0, []);
    var utxos := k.ListUtxo();
    for i := 0 to |utxos|
      invariant ScanWallet(k.env, k.State(), address, utxos[..i]) == Some(wallet)
    {
      var outpoint := utxos[i];
      assert utxos[..i + 1][..i] == utxos[..i];
      if outpoint.index >= 0 {
        var tx := k.GetTx(outpoint.hash);
        if tx.None? || outpoint.index >= |tx.value.txOut| {
          ScanWalletPrefixPanics(k.env, k.State(), address, utxos, i + 1);
          return Refused(Panic, Panicked);
        }
        var txOut := tx.value.txOut[outpoint.index];
        var obj := k.env.decodePayToAddress(txOut.pkScript);
        if obj.None? {
          ScanWalletPrefixPanics(k.env, k.State(), address, utxos, i + 1);
          return Refused(Panic, Panicked);
        }
        if AddrEquals(obj.value.address, address) {
          wallet := UpdateWallet(wallet, outpoint, txOut.value);
        }
      } else if outpoint.index == OutPointAccountBirth {
        var accOutput := k.GetAccOutput(outpoint.hash);
        if accOutput.None? {
          ScanWalletPrefixPanics(k.env, k.State(), address, utxos, i + 1);
          return Refused(Panic, Panicked);
        }
        if AddrEquals(accOutput.value.address, address) {
          wallet := UpdateWallet(wallet, outpoint, accOutput.value.value);
        }
      }
    }
    assert utxos[..|utxos|] == utxos;
    r := Answered(Balance(wallet));
  }

  /** `NewQuerier`'s switch. */
  method Query(k: Keeper, path: seq<string>) returns (r: QueryReply)
    ensures r == QueryStep(k.env, k.State(), path)
  {
    if path == [] {
      return Refused(Panic, Panicked);
    }
    if path[0] == ListAccOutputPath {
      var records := k.ListAccOutput();
      r := Answered(AccOutputs(records));
    } else if path[0] == ListUtxoPath {
      var records := k.ListUtxo();
      r := Answered(Utxos(records));
    } else if path[0] == ListTxPath {
      var records, _ := k.ListTx();
      r := Answered(Txs(records));
    } else if path[0] == GetTxPath {
      r := GetTxQuery(k, path[1..]);
    } else if path[0] == GetBalancePath {
      r := GetBalanceQuery(k, path[1..]);
    } else if path[0] == GetGraphPath {
      var txns, txIds := k.ListTx();
      var accOuts := k.ListAccOutput();
      var utxos := k.ListUtxo();
      r := Answered(Graph(txIds, txns, accOuts, utxos));
    } else {
      r := Refused(UnknownRequest, UnknownEndpoint);
    }
  }
}
