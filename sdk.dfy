/**
 * Shared vocabulary of the three ledgers: the fixed-width integer types of
 * the Go source, byte strings, addresses, coins and the result of a
 * message handler.
 */
module Sdk {

  type byte = x: int | 0 <= x < 0x100
  type uint32 = x: int | 0 <= x < 0x1_0000_0000
  type int32 = x: int | -0x8000_0000 <= x < 0x8000_0000
  type uint64 = x: int | 0 <= x < 0x1_0000_0000_0000_0000
  type int64 = x: int | -0x8000_0000_0000_0000 <= x < 0x8000_0000_0000_0000

  const TwoTo64: int := 0x1_0000_0000_0000_0000
  const MaxInt64: int := 0x7FFF_FFFF_FFFF_FFFF

  /** Go's conversion `int32(n)`: keep the low 32 bits, read as two's complement. */
  function Int32Of(n: int): (r: int32)
    ensures 0 <= n < 0x8000_0000 ==> r == n
  {
    (n + 0x8000_0000) % 0x1_0000_0000 - 0x8000_0000
  }

  /** Go's int64 addition: the exact sum wrapped to 64-bit two's complement. */
  function Int64Of(n: int): (r: int64)
    ensures -0x8000_0000_0000_0000 <= n < 0x8000_0000_0000_0000 ==> r == n
  {
    (n + 0x8000_0000_0000_0000) % TwoTo64 - 0x8000_0000_0000_0000
  }

  /** Adding to a value already reduced modulo 2^64 and reducing again is
      reducing the exact sum: how a uint64 accumulator tracks a total. */
  lemma ModAdd(a: nat, v: nat)
    ensures (a % TwoTo64 + v) % TwoTo64 == (a + v) % TwoTo64
  {
    var q := a / TwoTo64;
    assert a == q * TwoTo64 + a % TwoTo64;
    assert (a + v) == q * TwoTo64 + (a % TwoTo64 + v);
  }

  /** A Go `string` or `[]byte`: an arbitrary sequence of bytes. */
  type Bytes = seq<byte>

  /** `sdk.AccAddress`: raw address bytes; `Empty()` is length zero. */
  type Address = Bytes

  /** `AccAddress.Equals`: two empty addresses are equal, otherwise byte equality. */
  predicate AddrEquals(a: Address, b: Address) {
    (|a| == 0 && |b| == 0) || a == b
  }

  datatype Option<+T> = None | Some(value: T)

  /** `sdk.Coin`, here with a non-negative amount. The SDK's own type can hold
      a negative amount (only `sdk.NewCoin` refuses one); every validator tests
      `IsPositive` before it reads an amount, and a negative amount fails that
      test exactly as zero does. */
  datatype Coin = Coin(denom: Bytes, amount: nat)

  predicate IsPositive(c: Coin) { c.amount > 0 }

  predicate SameDenomAs(a: Coin, b: Coin) { a.denom == b.denom }

  /** `Coin.IsEqual`: equal denomination and equal amount. */
  predicate CoinIsEqual(a: Coin, b: Coin) { a.denom == b.denom && a.amount == b.amount }

  /** The SDK error codes the handlers return. `Panic` stands for a Go panic,
      which the SDK turns into a failed message whose writes are discarded. */
  datatype Code = UnknownRequest | Internal | Unauthorized | InsufficientCoins | InvalidAddress | Panic

  /** The outcome of a handler or a validator: success, or an error code with
      a module-specific reason standing for the message text. */
  datatype Outcome<+R> = Ok | Err(code: Code, reason: R)

  /** The block context a handler runs in. `sequences` is the account keeper's
      view of each existing account's sequence number. */
  datatype Context = Context(chainId: Bytes, height: int64, sequences: map<Address, uint64>)
}
