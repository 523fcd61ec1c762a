/**
 * The price-feed contract side: the callback that records a deployed feed's
 * address once its creation transaction is mined, and the assembly of a
 * signed transaction envelope from the chain's replies.
 */
module Contract {
  import opened Types
  import opened PairStore

  /** Gas limit put on every transaction the service builds. */
  const DefaultGasLimit: nat := 30_000_000

  // ---------------------------------------------------------------------------
  // PriceFeedCreationCallback
  // ---------------------------------------------------------------------------

  /** Registered after a feed-creation transaction is broadcast; remembers
      which pair the new contract serves. */
  datatype PriceFeedCreationCallback = PriceFeedCreationCallback(pairId: Id)

  /** The address recorded for a receipt: the created contract's address, or
      the zero address when the receipt names none. */
  function DeployedAddress(receipt: Receipt): Address {
    receipt.contractAddress.GetOr(ZeroAddress)
  }

  /** The pair-address map after the callback's `processed` handler. */
  function CreationProcessed(cb: PriceFeedCreationCallback, receipt: Receipt, addresses: map<Id, Address>): map<Id, Address> {
    addresses[cb.pairId := DeployedAddress(receipt)]
  }

  /** `processed` records the deployed address under the callback's pair id,
      adds no other id and leaves every other id's address as it was. */
  lemma CreationProcessedRecordsAddress(cb: PriceFeedCreationCallback, receipt: Receipt, addresses: map<Id, Address>)
    ensures CreationProcessed(cb, receipt, addresses).Keys == addresses.Keys + {cb.pairId}
    ensures receipt.contractAddress.Some? ==>
      CreationProcessed(cb, receipt, addresses)[cb.pairId] == receipt.contractAddress.value
    ensures receipt.contractAddress.None? ==> CreationProcessed(cb, receipt, addresses)[cb.pairId] == ZeroAddress
    ensures forall id :: id in addresses && id != cb.pairId ==> CreationProcessed(cb, receipt, addresses)[id] == addresses[id]
  {
  }

  /** The callback records the address whether or not the pair still has
      pair data: once a pair is removed before its feed's deployment is mined,
      some id has an address but no pair data, which is the state in which
      listing pairs with their addresses panics. */
  lemma CreationAfterRemovalOrphansAddress(cb: PriceFeedCreationCallback, receipt: Receipt,
                                           addresses: map<Id, Address>, pairs: map<Id, PairData>)
    requires cb.pairId !in pairs
    ensures !(CreationProcessed(cb, receipt, addresses).Keys <= pairs.Keys)
  {
    assert cb.pairId in CreationProcessed(cb, receipt, addresses);
  }

  /** `PriceFeedCreationCallback::processed`: writes the address into the
      pair storage; pair data is not touched. */
  method Processed(cb: PriceFeedCreationCallback, receipt: Receipt, pairs: PairStorage)
    modifies pairs
    ensures pairs.addresses == CreationProcessed(cb, receipt, old(pairs.addresses))
    ensures pairs.pairs == old(pairs.pairs)
  {
    pairs.AddAddress(cb.pairId, DeployedAddress(receipt));
  }

  /** `PriceFeedCreationCallback::skipped` does nothing: it has no frame to
      change anything in. */
  method Skipped(cb: PriceFeedCreationCallback) {
  }

  // ---------------------------------------------------------------------------
  // Transaction envelope
  // ---------------------------------------------------------------------------

  datatype Signature = Signature(r: nat, s: nat, v: nat)

  /** What the chain and the signer answer while a transaction is built: the
      gas price and chain id (fetched together), the signer's address, its
      nonce, and the signature. Each can fail. */
  datatype ChainReplies = ChainReplies(
    gasPrice: Result<nat, Error>,
    chainId: Result<nat, Error>,
    signerAddress: Result<Address, string>,
    nonce: Result<nat, Error>,
    signature: Result<Signature, string>)

  predicate BuildSucceeds(replies: ChainReplies) {
    && replies.gasPrice.Ok?
    && replies.chainId.Ok?
    && replies.signerAddress.Ok?
    && replies.nonce.Ok?
    && replies.signature.Ok?
  }

  /** The signed envelope built from successful replies: every field set from
      the replies and the call's arguments, the gas limit fixed, and the hash
      taken over the envelope with its hash field still zero. */
  function Envelope(to: Option<Address>, value: nat, data: seq<Byte>, replies: ChainReplies,
                    hashOf: Transaction -> Hash): Transaction
    requires BuildSucceeds(replies)
  {
    var sig := replies.signature.value;
    var unsigned := Transaction(replies.signerAddress.value, to, replies.nonce.value, value, DefaultGasLimit,
                                Some(replies.gasPrice.value), data, Some(replies.chainId.value), sig.r, sig.s, sig.v, 0);
    unsigned.(hash := hashOf(unsigned))
  }

  /** The error of a failed build: that of the first failing reply, in the
      order the replies are awaited, with the signer's two messages wrapped. */
  function BuildError(replies: ChainReplies): Error
    requires !BuildSucceeds(replies)
  {
    if replies.gasPrice.Err? then replies.gasPrice.error
    else if replies.chainId.Err? then replies.chainId.error
    else if replies.signerAddress.Err? then Internal("failed to get address: " + replies.signerAddress.error)
    else if replies.nonce.Err? then replies.nonce.error
    else Internal("failed to sign transaction: " + replies.signature.error)
  }

  /** `get_transaction`: assembles the envelope from the replies, signs it and
      sets its hash. `hashOf` stands for hashing the signed envelope, taken
      with its hash field still zero. The first failing reply, in the order
      the source awaits them, is the error. */
  method GetTransaction(to: Option<Address>, value: nat, data: seq<Byte>, replies: ChainReplies,
                        hashOf: Transaction -> Hash)
    returns (r: Result<Transaction, Error>)
    ensures r.Ok? <==> BuildSucceeds(replies)
    ensures r.Ok? ==> r.value == Envelope(to, value, data, replies, hashOf)
    ensures r.Err? ==> r.error == BuildError(replies)
    ensures replies.gasPrice.Err? ==> r == Err(replies.gasPrice.error)
    ensures replies.gasPrice.Ok? && replies.chainId.Err? ==> r == Err(replies.chainId.error)
    ensures replies.gasPrice.Ok? && replies.chainId.Ok? && replies.signerAddress.Err? ==>
      r == Err(Internal("failed to get address: " + replies.signerAddress.error))
    ensures replies.gasPrice.Ok? && replies.chainId.Ok? && replies.signerAddress.Ok? && replies.nonce.Err? ==>
      r == Err(replies.nonce.error)
    ensures BuildSucceeds(replies.(signature := Ok(Signature(0, 0, 0)))) && replies.signature.Err? ==>
      r == Err(Internal("failed to sign transaction: " + replies.signature.error))
    ensures r.Ok? ==>
      && r.value.from == replies.signerAddress.value
      && r.value.to == to
      && r.value.nonce == replies.nonce.value
      && r.value.value == value
      && r.value.gas == DefaultGasLimit
      && r.value.gasPrice == Some(replies.gasPrice.value)
      && r.value.input == data
      && r.value.chainId == Some(replies.chainId.value)
      && r.value.r == replies.signature.value.r
      && r.value.s == replies.signature.value.s
      && r.value.v == replies.signature.value.v
      && r.value.hash == hashOf(r.value.(hash := 0))
  {
    var gasPrice, chainId;
    match replies.gasPrice {
      case Err(e) => return Err(e);
      case Ok(g) => gasPrice := g;
    }
    match replies.chainId {
      case Err(e) => return Err(e);
      case Ok(c) => chainId := c;
    }
    var from;
    match replies.signerAddress {
      case Err(e) => return Err(Internal("failed to get address: " + e));
      case Ok(a) => from := a;
    }
    var nonce;
    match replies.nonce {
      case Err(e) => return Err(e);
      case Ok(n) => nonce := n;
    }
    var transaction := Transaction(from, to, nonce, value, DefaultGasLimit, Some(gasPrice), data, Some(chainId), 0, 0, 0, 0);
    var signature;
    match replies.signature {
      case Err(e) => return Err(Internal("failed to sign transaction: " + e));
      case Ok(s) => signature := s;
    }
    transaction := transaction.(r := signature.r, s := signature.s, v := signature.v);
    transaction := transaction.(hash := hashOf(transaction));
    r := Ok(transaction);
  }
}
