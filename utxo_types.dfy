/**
 * x/utxo/types.go: the UTXO ledger's records and the upper-case hexadecimal
 * rendering of a hash.
 */
module UtxoTypes {
  import opened Sdk
  import opened Fmt

  /** A transaction ID or an account-output ID. */
  type Hash = Bytes

  /** `Hash.String`: upper-case Base16 (section 8 of RFC 4648). */
  function HashString(h: Hash): (r: Bytes)
    ensures |r| == 2 * |h|
  {
    EncodeToStringLength(h);
    ToUpper(EncodeToString(h))
  }

  /** `Hash.MarshalJSON`: the JSON string of `Hash.String`. */
  function MarshalJSON(h: Hash): (r: Bytes) {
    JsonString(HashString(h))
  }

  /** Byte i of the hash becomes characters 2i and 2i+1, high nibble first. */
  lemma HashStringAt(h: Hash, i: nat)
    requires i < |h|
    ensures HashString(h)[2 * i] == UpperNibble(h[i] / 16)
    ensures HashString(h)[2 * i + 1] == UpperNibble(h[i] % 16)
  {
    EncodeToStringAt(h, i);
  }

  /** Every character is one of 0-9A-F. */
  lemma HashStringAlphabet(h: Hash)
    ensures forall k :: 0 <= k < |HashString(h)| ==> IsUpperHexDigit(HashString(h)[k])
  {
    forall k | 0 <= k < |HashString(h)| ensures IsUpperHexDigit(HashString(h)[k]) {
      HashStringAt(h, k / 2);
    }
  }

  /** Distinct hashes render differently, so a rendering names one hash. */
  lemma HashStringInjective(a: Hash, b: Hash)
    requires HashString(a) == HashString(b)
    ensures a == b
  {
    UpperHexInjective(a, b);
  }

  /** The JSON form is the rendering between quotes, with nothing escaped. */
  lemma MarshalJSONQuoted(h: Hash)
    ensures MarshalJSON(h) == [Quote] + HashString(h) + [Quote]
  {
    HashStringAlphabet(h);
    JsonStringOfSafe(HashString(h));
  }

  /** An account-based output birth record. */
  datatype AccOutput = AccOutput(id: Hash, value: uint64, address: Address, block: int64)

  /** An output of a previous transaction (index >= 0) or of an account
      birth record (index -1). */
  datatype OutPoint = OutPoint(hash: Hash, index: int32)

  const OutPointAccountBirth: int32 := -1

  /** The script of an output payable to an address. */
  datatype PayToAddress = PayToAddress(address: Address)

  /** `PkScript` holds the Amino encoding of a `PayToAddress`. */
  datatype TxOut = TxOut(value: uint64, pkScript: Bytes)

  /** The exact total of the output values, summed left to right. */
  function OutputTotal(outs: seq<TxOut>): nat {
    if outs == [] then 0 else OutputTotal(outs[..|outs| - 1]) + outs[|outs| - 1].value
  }

  /** `Witness` is a keyword in Dafny, hence `witnessBytes`. */
  datatype TxIn = TxIn(input: OutPoint, witnessBytes: Bytes, sequence: uint32)

  datatype Tx = Tx(txIn: seq<TxIn>, txOut: seq<TxOut>, lockTime: uint32)

  /** A wallet entry: an outpoint and its value. */
  datatype OutPointVal = OutPointVal(hash: Hash, index: int32, value: uint64)

  /** A balance and the outpoints it is made of. */
  datatype Wallet = Wallet(balance: uint64, entries: seq<OutPointVal>)
}
