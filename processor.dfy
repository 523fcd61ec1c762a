/**
 * The pending-transaction registry: a map from transaction hash to the
 * callback to run once the transaction's fate is known, and the processor
 * that polls the chain for every registered hash and dispatches the callbacks
 * of the transactions that were mined or dropped.
 */
module Processor {
  import opened Types
  import opened PairStore
  import opened Contract

  /** The callback of the address-reservation flow. Its definition and its
      handlers are not part of this model; it is carried as an opaque tag. */
  datatype ReserveAddressCallback = ReserveAddressCallback(tag: nat)

  /** `TxCallback`: what to do once a transaction is settled. */
  datatype TxCallback =
    | PriceFeedCreation(creation: PriceFeedCreationCallback)
    | ReserveAddress(reserve: ReserveAddressCallback)

  // ---------------------------------------------------------------------------
  // Transaction status
  // ---------------------------------------------------------------------------

  /** The two RPC answers for one hash. `byHash` is the transaction lookup (an
      `Err` is a failed request); `receipt` is the receipt lookup, whose outer
      `Err` is a failed call and whose inner `Err` is the chain's own error.
      The receipt answer only matters when the transaction is present. */
  datatype TxLookup = TxLookup(
    byHash: Result<Option<Transaction>, Error>,
    receipt: Result<Result<Option<Receipt>, Error>, Error>)

  datatype TransactionStatus =
    | Unknown
    | Skipped
    | Processed(receipt: Receipt)
  {
    /** A status that settles the transaction: its callback is dispatched. */
    predicate IsTerminal() {
      !Unknown?
    }
  }

  /** `get_transaction_state`: absent from pool and chain is `Skipped`, present
      with a receipt is `Processed`, anything else (a failed request, no
      receipt yet) is `Unknown` and will be asked again. */
  function TransactionState(q: TxLookup): (s: TransactionStatus)
    ensures s == Skipped <==> q.byHash == Ok(None)
    ensures q.byHash.Err? ==> s == Unknown
    ensures s.Processed? <==>
      q.byHash.Ok? && q.byHash.value.Some? && q.receipt.Ok? && q.receipt.value.Ok? && q.receipt.value.value.Some?
    ensures s.Processed? ==> s.receipt == q.receipt.value.value.value
  {
    match q.byHash
    case Ok(Some(_)) =>
      (match q.receipt
       case Ok(Ok(Some(receipt))) => Processed(receipt)
       case _ => Unknown)
    case Ok(None) => Skipped
    case Err(_) => Unknown
  }

  // ---------------------------------------------------------------------------
  // Callback effects
  // ---------------------------------------------------------------------------

  /** The pair-address map after dispatching `cb` with a terminal `status`.
      Only a mined feed creation writes; the reservation handlers are outside
      this model and are taken to leave the pair storage alone. */
  function AfterDispatch(addresses: map<Id, Address>, cb: TxCallback, status: TransactionStatus): (r: map<Id, Address>)
    ensures status.Skipped? || cb.ReserveAddress? ==> r == addresses
    ensures cb.PriceFeedCreation? && status.Processed? ==> r == CreationProcessed(cb.creation, status.receipt, addresses)
  {
    match (cb, status)
    case (PriceFeedCreation(c), Processed(receipt)) => CreationProcessed(c, receipt, addresses)
    case _ => addresses
  }

  // ---------------------------------------------------------------------------
  // One processing run, as a function of the order in which results arrive
  // ---------------------------------------------------------------------------

  /** A callback handed its transaction's terminal status: one run of a
      handler. */
  datatype Dispatch = Dispatch(hash: Hash, callback: TxCallback, status: TransactionStatus)

  datatype Outcome = Outcome(remaining: map<Hash, TxCallback>, dispatched: seq<Dispatch>)

  predicate Terminal(lookups: Hash -> TxLookup, h: Hash) {
    TransactionState(lookups(h)).IsTerminal()
  }

  /** One status result for `h`: an `Unknown` result does nothing; a terminal
      one takes the hash's entry out and dispatches it, or does nothing when
      the entry is already gone. */
  function Arrive(o: Outcome, h: Hash, status: TransactionStatus): Outcome {
    if status.IsTerminal() && h in o.remaining then
      Outcome(o.remaining - {h}, o.dispatched + [Dispatch(h, o.remaining[h], status)])
    else o
  }

  /** The registry and the dispatches after the status results for `arrivals`
      came in, in that order, starting from `reg` and no dispatch. */
  function Run(reg: map<Hash, TxCallback>, arrivals: seq<Hash>, lookups: Hash -> TxLookup): Outcome
    decreases |arrivals|
  {
    if arrivals == [] then Outcome(reg, [])
    else
      var h := arrivals[|arrivals| - 1];
      Arrive(Run(reg, arrivals[..|arrivals| - 1], lookups), h, TransactionState(lookups(h)))
  }

  /** The registry after a run keeps exactly the entries whose hash did not
      arrive with a terminal status. */
  lemma {:induction false} RunRemaining(reg: map<Hash, TxCallback>, arrivals: seq<Hash>, lookups: Hash -> TxLookup)
    ensures Run(reg, arrivals, lookups).remaining ==
      map h | h in reg && !(h in arrivals && Terminal(lookups, h)) :: reg[h]
    decreases |arrivals|
  {
    if arrivals != [] {
      var init := arrivals[..|arrivals| - 1];
      RunRemaining(reg, init, lookups);
      assert forall h :: h in arrivals <==> h in init || h == arrivals[|arrivals| - 1];
    }
  }

  /** Dispatch is at most once and exactly for what settled: every dispatched
      hash was registered and arrived, carries its registered callback and its
      terminal status, no hash is dispatched twice (even when its result
      arrives twice), and every registered hash that arrived with a terminal
      status is dispatched. */
  lemma {:induction false} RunDispatched(reg: map<Hash, TxCallback>, arrivals: seq<Hash>, lookups: Hash -> TxLookup)
    ensures var ds := Run(reg, arrivals, lookups).dispatched;
      && (forall i, j :: 0 <= i < j < |ds| ==> ds[i].hash != ds[j].hash)
      && (forall i :: 0 <= i < |ds| ==>
            && ds[i].hash in reg && ds[i].hash in arrivals
            && ds[i].callback == reg[ds[i].hash]
            && ds[i].status == TransactionState(lookups(ds[i].hash))
            && ds[i].status.IsTerminal())
      && (forall h :: h in reg && h in arrivals && Terminal(lookups, h) ==>
            exists i :: 0 <= i < |ds| && ds[i].hash == h)
    decreases |arrivals|
  {
    if arrivals != [] {
      var init := arrivals[..|arrivals| - 1];
      var h := arrivals[|arrivals| - 1];
      RunDispatched(reg, init, lookups);
      RunRemaining(reg, init, lookups);
      var prev := Run(reg, init, lookups);
      var ds := Run(reg, arrivals, lookups).dispatched;
      assert forall x :: x in arrivals <==> x in init || x == h;
      if Terminal(lookups, h) && h in prev.remaining {
        assert ds == prev.dispatched + [Dispatch(h, prev.remaining[h], TransactionState(lookups(h)))];
        forall x | x in reg && x in arrivals && Terminal(lookups, x)
          ensures exists i :: 0 <= i < |ds| && ds[i].hash == x
        {
          if x == h {
            assert ds[|ds| - 1].hash == x;
          } else {
            var i :| 0 <= i < |prev.dispatched| && prev.dispatched[i].hash == x;
            assert ds[i].hash == x;
          }
        }
      } else {
        assert ds == prev.dispatched;
      }
    }
  }

  /** Across two consecutive runs (the second polling what the first left
      registered), no hash is dispatched twice. */
  lemma AtMostOnceAcrossRuns(reg: map<Hash, TxCallback>, first: seq<Hash>, second: seq<Hash>,
                             lookups1: Hash -> TxLookup, lookups2: Hash -> TxLookup)
    ensures var o1 := Run(reg, first, lookups1);
      var o2 := Run(o1.remaining, second, lookups2);
      forall i, j :: 0 <= i < |o1.dispatched| && 0 <= j < |o2.dispatched| ==>
        o1.dispatched[i].hash != o2.dispatched[j].hash
  {
    var o1 := Run(reg, first, lookups1);
    RunDispatched(reg, first, lookups1);
    RunRemaining(reg, first, lookups1);
    RunDispatched(o1.remaining, second, lookups2);
  }

  /** The pair-address map after the dispatches of a run, in order. */
  function Effects(addresses: map<Id, Address>, ds: seq<Dispatch>): map<Id, Address>
    decreases |ds|
  {
    if ds == [] then addresses
    else
      var last := ds[|ds| - 1];
      AfterDispatch(Effects(addresses, ds[..|ds| - 1]), last.callback, last.status)
  }

  /** The effect of one more status result. */
  lemma EffectsArrive(addresses: map<Id, Address>, o: Outcome, h: Hash, status: TransactionStatus)
    ensures Effects(addresses, Arrive(o, h, status).dispatched) ==
      if status.IsTerminal() && h in o.remaining then AfterDispatch(Effects(addresses, o.dispatched), o.remaining[h], status)
      else Effects(addresses, o.dispatched)
  {
    var ds := Arrive(o, h, status).dispatched;
    if status.IsTerminal() && h in o.remaining {
      assert ds[..|ds| - 1] == o.dispatched;
    }
  }

  /** The ids with an address after a run are the earlier ones plus the pair
      ids of the feed creations that were mined; skipped transactions record
      nothing. */
  lemma {:induction false} EffectsKeys(addresses: map<Id, Address>, ds: seq<Dispatch>)
    ensures Effects(addresses, ds).Keys == addresses.Keys +
      (set d | d in ds && d.callback.PriceFeedCreation? && d.status.Processed? :: d.callback.creation.pairId)
    decreases |ds|
  {
    if ds != [] {
      var init := ds[..|ds| - 1];
      EffectsKeys(addresses, init);
      assert forall d :: d in ds <==> d in init || d == ds[|ds| - 1];
    }
  }

  // ---------------------------------------------------------------------------
  // The registry and the processor
  // ---------------------------------------------------------------------------

  class EvmTransactionProcessor {
    /** TX_CALLBACKS: transaction hash to callback. */
    var callbacks: map<Hash, TxCallback>
    /** Every handler run so far, in order (the hash, the callback and the
        status it was handed). */
    ghost var log: seq<Dispatch>

    constructor ()
      ensures callbacks == map[] && log == []
    {
      callbacks := map[];
      log := [];
    }

    /** `TxCallback::processed`: forwards to the wrapped callback's handler;
        only a feed creation writes anything. */
    method DispatchProcessed(h: Hash, cb: TxCallback, receipt: Receipt, pairs: PairStorage)
      modifies this`log, pairs
      ensures log == old(log) + [Dispatch(h, cb, Processed(receipt))]
      ensures pairs.addresses == AfterDispatch(old(pairs.addresses), cb, Processed(receipt))
      ensures pairs.pairs == old(pairs.pairs)
    {
      match cb {
        case PriceFeedCreation(c) => Contract.Processed(c, receipt, pairs);
        case ReserveAddress(_) =>
      }
      log := log + [Dispatch(h, cb, Processed(receipt))];
    }

    /** `TxCallback::skipped`: forwards to the wrapped callback's handler. The
        handlers change nothing: the method may write the log only. */
    method DispatchSkipped(h: Hash, cb: TxCallback)
      modifies this`log
      ensures log == old(log) + [Dispatch(h, cb, Skipped)]
    {
      match cb {
        case PriceFeedCreation(c) => Contract.Skipped(c);
        case ReserveAddress(_) =>
      }
      log := log + [Dispatch(h, cb, Skipped)];
    }

    /** Registers (or replaces) the callback of `txHash`. */
    method RegisterTransaction(txHash: Hash, callback: TxCallback)
      modifies this`callbacks
      ensures callbacks == old(callbacks)[txHash := callback]
    {
      callbacks := callbacks[txHash := callback];
    }

    /** Forgets every registered callback. */
    method Reset()
      modifies this`callbacks
      ensures callbacks == map[]
    {
      callbacks := map[];
    }

    /** Removes the entry of `txHash` and returns it, if there was one. */
    method ExtractCallback(txHash: Hash) returns (cb: Option<TxCallback>)
      modifies this`callbacks
      ensures txHash in old(callbacks) ==> cb == Some(old(callbacks)[txHash])
      ensures txHash !in old(callbacks) ==> cb == None
      ensures callbacks == old(callbacks) - {txHash}
    {
      if txHash in callbacks {
        cb := Some(callbacks[txHash]);
      } else {
        cb := None;
      }
      callbacks := callbacks - {txHash};
    }

    /** Handles one status result: a terminal one extracts the entry and, if
        there was one, runs the matching handler once. The registry, the
        address map and the handler log move as `Arrive` says, from the
        outcome `o` reached so far. */
    method Settle(h: Hash, status: TransactionStatus, pairs: PairStorage, ghost addresses0: map<Id, Address>,
                  ghost log0: seq<Dispatch>, ghost o: Outcome)
      requires callbacks == o.remaining
      requires pairs.addresses == Effects(addresses0, o.dispatched)
      requires log == log0 + o.dispatched
      modifies this, pairs
      ensures callbacks == Arrive(o, h, status).remaining
      ensures pairs.addresses == Effects(addresses0, Arrive(o, h, status).dispatched)
      ensures log == log0 + Arrive(o, h, status).dispatched
      ensures pairs.pairs == old(pairs.pairs)
    {
      EffectsArrive(addresses0, o, h, status);
      match status {
        case Unknown =>
        case Skipped =>
          var cb := ExtractCallback(h);
          if cb.Some? {
            DispatchSkipped(h, cb.value);
          }
        case Processed(receipt) =>
          var cb := ExtractCallback(h);
          if cb.Some? {
            DispatchProcessed(h, cb.value, receipt, pairs);
          }
      }
    }

    /** `process_transactions`: asks the status of every hash registered at the
        start, and handles the results in whatever order they arrive
        (`arrivals`, each snapshot hash once). A terminal result removes the
        entry before its callback runs. The new registry, the handlers run
        (appended to the log) and their effects are those of `Run` over that
        order. */
    method ProcessTransactions(lookups: Hash -> TxLookup, pairs: PairStorage)
      returns (ghost arrivals: seq<Hash>, ghost outcome: Outcome)
      modifies this, pairs
      ensures forall i, j :: 0 <= i < j < |arrivals| ==> arrivals[i] != arrivals[j]
      ensures forall h :: h in arrivals <==> h in old(callbacks)
      ensures outcome == Run(old(callbacks), arrivals, lookups)
      ensures callbacks == outcome.remaining
      ensures pairs.addresses == Effects(old(pairs.addresses), outcome.dispatched)
      ensures log == old(log) + outcome.dispatched
      ensures pairs.pairs == old(pairs.pairs)
    {
      ghost var snapshot := callbacks;
      ghost var addresses0 := pairs.addresses;
      var pending := callbacks.Keys;
      arrivals := [];
      while pending != {}
        invariant pending <= snapshot.Keys
        invariant forall i, j :: 0 <= i < j < |arrivals| ==> arrivals[i] != arrivals[j]
        invariant forall h :: h in snapshot ==> (h in arrivals <==> h !in pending)
        invariant forall h :: h in arrivals ==> h in snapshot
        invariant callbacks == Run(snapshot, arrivals, lookups).remaining
        invariant pairs.addresses == Effects(addresses0, Run(snapshot, arrivals, lookups).dispatched)
        invariant log == old(log) + Run(snapshot, arrivals, lookups).dispatched
        invariant pairs.pairs == old(pairs.pairs)
        decreases pending
      {
        var h :| h in pending;
        pending := pending - {h};
        var status := TransactionState(lookups(h));
        Settle(h, status, pairs, addresses0, old(log), Run(snapshot, arrivals, lookups));
        assert (arrivals + [h])[..|arrivals|] == arrivals;
        arrivals := arrivals + [h];
      }
      outcome := Run(snapshot, arrivals, lookups);
    }
  }

  // ---------------------------------------------------------------------------
  // The test double
  // ---------------------------------------------------------------------------

  /** `EvmTransactionsProcessorMock`: a registry whose callbacks the tests
      settle by hand. */
  class ProcessorMock {
    var transactions: map<Hash, TxCallback>
    /** Every handler run so far, in order. */
    ghost var log: seq<Dispatch>

    constructor ()
      ensures transactions == map[] && log == []
    {
      transactions := map[];
      log := [];
    }

    method RegisterTransaction(txHash: Hash, callback: TxCallback)
      modifies this`transactions
      ensures transactions == old(transactions)[txHash := callback]
    {
      transactions := transactions[txHash := callback];
    }

    method Reset()
      modifies this`transactions
      ensures transactions == map[]
    {
      transactions := map[];
    }

    /** Settles `txHash` as mined: the entry (which must exist: it is
        unwrapped) is removed, then its `processed` handler runs once. */
    method Processed(txHash: Hash, receipt: Receipt, pairs: PairStorage)
      requires txHash in transactions
      modifies this, pairs
      ensures transactions == old(transactions) - {txHash}
      ensures log == old(log) + [Dispatch(txHash, old(transactions)[txHash], TransactionStatus.Processed(receipt))]
      ensures pairs.addresses == AfterDispatch(old(pairs.addresses), old(transactions)[txHash], TransactionStatus.Processed(receipt))
      ensures pairs.pairs == old(pairs.pairs)
    {
      var callback := transactions[txHash];
      transactions := transactions - {txHash};
      match callback {
        case PriceFeedCreation(c) => Contract.Processed(c, receipt, pairs);
        case ReserveAddress(_) =>
      }
      log := log + [Dispatch(txHash, callback, TransactionStatus.Processed(receipt))];
    }

    /** Settles `txHash` as dropped: the entry (which must exist) is removed,
        then its `skipped` handler runs once; nothing else changes. */
    method Skipped(txHash: Hash)
      requires txHash in transactions
      modifies this
      ensures transactions == old(transactions) - {txHash}
      ensures log == old(log) + [Dispatch(txHash, old(transactions)[txHash], TransactionStatus.Skipped)]
    {
      var callback := transactions[txHash];
      transactions := transactions - {txHash};
      match callback {
        case PriceFeedCreation(c) => Contract.Skipped(c);
        case ReserveAddress(_) =>
      }
      log := log + [Dispatch(txHash, callback, TransactionStatus.Skipped)];
    }
  }
}
