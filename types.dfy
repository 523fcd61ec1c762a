/**
 * Shared vocabulary of the oracle canister: addresses, hashes, timer ids,
 * principals, the error taxonomy, receipts and transactions, and the
 * origin/destination descriptors that an oracle is made of.
 */
module Types {

  /** A 20-byte EVM address (H160), read as a big-endian number, so that the
      byte-wise ordering of map keys is the numeric ordering. */
  type Address = nat

  /** `H160::default()`, the all-zero address. */
  const ZeroAddress: Address := 0

  /** A 32-byte transaction hash (H256). */
  type Hash = nat

  /** An opaque handle returned by the timer runtime. */
  type TimerId = nat

  type Byte = bv8

  datatype Option<+T> = None | Some(value: T) {
    function GetOr(default: T): T {
      match this
      case Some(v) => v
      case None => default
    }
  }

  datatype Result<+T, +E> = Ok(value: T) | Err(error: E)

  /** The canister's error type. `UserNotFound` and `OracleNotFound` are the
      two lookup failures of the oracle registry. */
  datatype Error =
    | Internal(message: string)
    | EvmError(message: string)
    | IcClient(message: string)
    | Http(message: string)
    | PairNotFound
    | PairAlreadyExists
    | UserNotFound
    | OracleNotFound

  /** An Internet Computer principal, by its raw bytes. */
  datatype Principal = Principal(bytes: seq<Byte>)

  /** `Principal::anonymous()` is the single byte 0x04. */
  const Anonymous: Principal := Principal([4])

  /** The part of a transaction receipt the callbacks look at. */
  datatype Receipt = Receipt(transactionHash: Hash, contractAddress: Option<Address>)

  /** A legacy EVM transaction, as assembled before broadcasting. */
  datatype Transaction = Transaction(
    from: Address,
    to: Option<Address>,
    nonce: nat,
    value: nat,
    gas: nat,
    gasPrice: Option<nat>,
    input: seq<Byte>,
    chainId: Option<nat>,
    r: nat,
    s: nat,
    v: nat,
    hash: Hash)

  /** A JSON-RPC endpoint of a chain. */
  datatype Provider = Provider(chainId: nat, hostname: string)

  /** Where an oracle reads its price from. */
  datatype Origin =
    | EvmOrigin(provider: Provider, targetAddress: Address, methodName: string)
    | HttpOrigin(url: string, jsonPath: string)

  /** Where an oracle writes the price to. */
  datatype EvmDestination = EvmDestination(contract: Address, provider: Provider)
}
