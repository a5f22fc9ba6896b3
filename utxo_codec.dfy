/**
 * What the UTXO ledger takes from outside its own code: SHA-256 (FIPS 180-4),
 * the Amino binary codec of the records it hashes or stores as scripts,
 * Bech32 address parsing and base64 decoding. They are uninterpreted here;
 * the only fact taken as given, where a lemma needs it, is that decoding a
 * `PayToAddress` undoes encoding it.
 */
module UtxoCodec {
  import opened Sdk
  import opened UtxoTypes

  datatype Env = Env(
    sha256: Bytes -> Hash,
    encodeUint32: uint32 -> Bytes,
    encodeOutPoint: OutPoint -> Bytes,
    encodeTxOut: TxOut -> Bytes,
    encodePayToAddress: PayToAddress -> Bytes,
    decodePayToAddress: Bytes -> Option<PayToAddress>,
    bech32Decode: string -> Option<Address>,
    base64Decode: string -> Option<Bytes>)

  /** `MustUnmarshalBinaryBare` of a script built by `MustMarshalBinaryBare`
      gives back the same `PayToAddress`. */
  ghost predicate CodecSound(env: Env) {
    forall p :: env.decodePayToAddress(env.encodePayToAddress(p)) == Some(p)
  }
}
