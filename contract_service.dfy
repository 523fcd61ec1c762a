/**
 * `ContractService`: deploying a price feed for a pair and pushing a new
 * price to an existing feed. The ABI encoding, the chain's replies and the
 * broadcast's result are inputs; what the model keeps is the order of the
 * steps, which error ends the call, and when a callback is registered.
 */
module ContractService {
  import opened Types
  import opened PairStore
  import opened Contract
  import opened Processor

  /** The callback registered for a feed deployment of `pair`. */
  function CreationCallback(pair: Pair): TxCallback {
    PriceFeedCreation(PriceFeedCreationCallback(PairId(pair)))
  }

  /** `send_raw_transaction(..).await??` succeeded: the call went through and
      the chain accepted the transaction. */
  predicate Sent(sent: Result<Result<Hash, Error>, Error>) {
    sent.Ok? && sent.value.Ok?
  }

  /** The error returned when the broadcast fails: the failed call's or the
      chain's, passed on unchanged. */
  function SendError(sent: Result<Result<Hash, Error>, Error>): Error
    requires !Sent(sent)
  {
    if sent.Err? then sent.error else sent.value.error
  }

  /** `create_pair_feed`: encodes the constructor call, builds and signs the
      deployment transaction (no destination, no value), broadcasts exactly
      that envelope (`send` stands for the chain's answer to it), and only
      then registers a creation callback for the pair under the returned
      hash. Every failure before that returns early and registers nothing. */
  method CreatePairFeed(processor: EvmTransactionProcessor, pair: Pair, encoded: Result<seq<Byte>, string>,
                        replies: ChainReplies, hashOf: Transaction -> Hash,
                        send: Transaction -> Result<Result<Hash, Error>, Error>)
    returns (r: Result<Hash, Error>)
    modifies processor
    ensures encoded.Err? ==> r == Err(Internal("Failed to encode constructor input: " + encoded.error))
    ensures encoded.Ok? && !BuildSucceeds(replies) ==> r == Err(BuildError(replies))
    ensures encoded.Ok? && BuildSucceeds(replies) ==>
      var sent := send(Envelope(None, 0, encoded.value, replies, hashOf));
      && (Sent(sent) ==> r == Ok(sent.value.value))
      && (!Sent(sent) ==> r == Err(SendError(sent)))
    ensures r.Ok? ==> processor.callbacks == old(processor.callbacks)[r.value := CreationCallback(pair)]
    ensures r.Err? ==> processor.callbacks == old(processor.callbacks)
    ensures processor.log == old(processor.log)
  {
    var data;
    match encoded {
      case Err(e) => return Err(Internal("Failed to encode constructor input: " + e));
      case Ok(d) => data := d;
    }
    var transaction := GetTransaction(None, 0, data, replies, hashOf);
    if transaction.Err? {
      return Err(transaction.error);
    }
    var txHash;
    match send(transaction.value) {
      case Err(e) => return Err(e);
      case Ok(Err(e)) => return Err(e);
      case Ok(Ok(h)) => txHash := h;
    }
    processor.RegisterTransaction(txHash, CreationCallback(pair));
    r := Ok(txHash);
  }

  /** `update_pair_price`: builds a price update addressed to `contract` and
      broadcasts exactly that envelope. It registers no callback: it has no
      registry to write to. */
  method UpdatePairPrice(contract: Address, data: seq<Byte>, replies: ChainReplies, hashOf: Transaction -> Hash,
                         send: Transaction -> Result<Result<Hash, Error>, Error>)
    returns (r: Result<(), Error>)
    ensures !BuildSucceeds(replies) ==> r == Err(BuildError(replies))
    ensures BuildSucceeds(replies) ==>
      var sent := send(Envelope(Some(contract), 0, data, replies, hashOf));
      && (Sent(sent) ==> r == Ok(()))
      && (!Sent(sent) ==> r == Err(SendError(sent)))
  {
    var transaction := GetTransaction(Some(contract), 0, data, replies, hashOf);
    if transaction.Err? {
      return Err(transaction.error);
    }
    match send(transaction.value) {
      case Err(e) => return Err(e);
      case Ok(Err(e)) => return Err(e);
      case Ok(Ok(_)) => r := Ok(());
    }
  }
}
