# Oracular price-oracle canister: a Dafny model of its lifecycle logic

Oracular is an Internet Computer canister. It runs price oracles: each oracle
reads a price from an HTTP endpoint or an EVM contract on a timer and pushes it
to a price-feed contract on an EVM chain. It also deploys price-feed contracts
for currency pairs. When a deployment is mined, the feed's address is
recorded. This project models the bookkeeping around all of that and proves
what it guarantees:

- **Transaction processor** (`processor.dfy`, module `Processor`).
  - The registry maps a pending transaction hash to a tagged callback.
  - The status of a transaction is classified from two RPC answers.
  - `ProcessTransactions` is the processing run. It snapshots the registry's
    hashes. It then handles their status results in an arbitrary order (a `:|`
    choice), one at a time.
  - A settled transaction has its entry removed before its callback runs.
  - A whole run follows the reference function `Run` over the arrival order:
    the registry left behind, the address map and the handlers run (kept in
    a ghost log) are those of `Run`. Lemmas about `Run` prove that each
    handler runs at most once (within a run and across runs) and exactly for
    the registered hashes that settled. They also prove that a hash still
    unknown stays registered.
- **Oracle registry** (`oracle_storage.dfy`, module `OracleStore`).
  - It is a two-level map: user, then contract, then stored metadata.
  - Lookups fail with `UserNotFound` or `OracleNotFound`.
  - Partial updates write only the fields that are set.
  - A user entry disappears with its last oracle.
  - Each operation of the `OracleStorage` class is stated through a value-level
    function (`WithOracle`, `WithoutOracle`, `WithPatch`). Lookup-after-update
    lemmas are proved about those functions.
- **Canister orchestration** (`canister.dfy`, module `Canister`).
  - `create_oracle`, `update_oracle_metadata` and `delete_oracle` act on the
    registry and on a map of live timers.
  - The owner, anonymous-principal and HTTP-method guards are modelled.
  - The class invariant says that every stored oracle has exactly one live
    timer running its job, and every live timer serves a stored oracle.
    Update and delete preserve it. So does create on a new key.
  - Create on an existing key leaks the old timer, and that is proved too.
- **Pair storage** (`pair_storage.dfy`, module `PairStore`).
  - Two maps: pair id to pair data, and pair id to feed address.
  - Pair ids are lower-cased.
  - Adding an existing pair is refused. Removal clears both maps. A price
    update keeps the pair.
- **Contract service** (`contract.dfy` and `contract_service.dfy`).
  - What the feed-creation callback does when its transaction is mined or
    skipped.
  - How the signed transaction envelope is assembled, and the order of its
    error cases.
  - A creation callback is registered only after the broadcast succeeds. A
    price update registers none.
- **Dot-path lookup** (`parser.dfy`, module `Parser`).
  - `ValueParser::parse` is modelled as a loop over `str::split('.')`.
  - It is proved equal to a recursive reference walk.
  - Split and join are proved to be inverse to each other.
  - The walk performs one object lookup per segment. The two error kinds name
    the segment that failed.

Shared types are in `types.dfy` (module `Types`). The types used:

- An EVM address (H160) is a `nat`, read big-endian, so the key order of the
  source's maps is numeric order.
- Hashes and timer ids are `nat`.
- A principal is its byte string. The anonymous principal is the single byte
  4.

Every call into the network, the signer or the timer runtime is an input of
the model:

- The RPC answers of a status poll (`TxLookup`).
- The chain's replies while a transaction is built (`ChainReplies`).
- The hashing of the signed envelope (`hashOf`).
- The ABI encoding of a deployment.
- The chain's answer to a broadcast, as a function of the envelope sent (`send`).
- The outcome of the price push on a timer tick.

Timer ids come from a counter.

Where the source is inconsistent, the model follows the evident intent:

- `update_oracle_metadata` reads `old_md.owner` (src/canister.rs:315), but
  `OracleMetadata` has no owner field. `delete_oracle` calls
  `get_oracle_owner` (src/canister.rs:356), which `OracleStorage` does not
  define. The owner of an oracle is the user key it is stored under, so both
  checks always pass and are not modelled. In `DeleteOracle` the failing
  lookup is the timer-id lookup, which fails with the same two errors.
- The errors `UserNotFound` and `OracleNotFound` are used by
  src/state/oracle_storage.rs but missing from src/error.rs. They are added
  to `Error`.
- `add_pair` calls `check_pair_exists` while holding a mutable borrow of the
  same map (src/state/pair_storage.rs:101-104). That would be a double
  borrow. The model performs the intended check-then-insert.
- The `ReserveAddressCallback` variant of `TxCallback` comes from a type that
  src/canister.rs does not define. It is an opaque tag here, and its handlers
  are taken to change nothing that is modelled.
- `HttpResponse`, `HttpRequest` and `HttpResponse::error` come from src/http.rs
  but are not defined there. The error reply is the variant
  `ErrorResponse(status, message)`.

The feed-creation callback records an address even when the pair has been
removed meanwhile (`Contract.CreationAfterRemovalOrphansAddress`). After that,
`all_pairs_with_address` reaches its `expect` and panics. In the model this is
the precondition of `PairStore.PairStorage.AllPairsWithAddress`.

## Model

| member | source | states |
|---|---|---|
| `Parser.Split` | src/parser.rs:22 | `split('.')` gives at least one segment, even for the empty path |
| `Parser.JoinSplit` | src/parser.rs:22 | joining the segments with dots gives the path back: splitting loses nothing |
| `Parser.SplitSegments` | src/parser.rs:22 | there is one more segment than dots, and no segment contains a dot |
| `Parser.SplitJoin` | src/parser.rs:22 | dot-free segments survive a join followed by a split (the other round trip) |
| `Parser.Step` | src/parser.rs:23-29 | one lookup succeeds iff the value is an object holding the key, and returns that key's value; otherwise `KeyNotFound(key)` on an object, `NotAnObject(key)` on anything else |
| `Parser.WalkConcat` | src/parser.rs:22-31 | walking a concatenated path is walking the first part and then, from the value reached, the second |
| `Parser.WalkLookupPerSegment` | src/parser.rs:20-33 | a walk succeeds iff it does one object lookup per segment; each visited value is an object holding the next segment, and the result is the last visited value |
| `Parser.WalkFailsAtLastVisited` | src/parser.rs:24-29 | a failing walk names the segment looked up at the last value reached: `KeyNotFound` when that value is an object lacking it, `NotAnObject` otherwise |
| `Parser.SingleKeyPath` | src/parser.rs:22-27 | a one-key path on an object holding the key returns the key's value |
| `Parser.NestedPath` | src/parser.rs:22-33 | a path `key.rest` continues from the value under `key` |
| `Parser.Parse` | src/parser.rs:19-34 | the parsing loop returns exactly the reference walk over the split path |
| `PairStore.LowerSpec` | src/state/pair_storage.rs:38-39 | lower-casing keeps the length, turns each upper-case ASCII letter into its own lower case (code point + 32), leaves no upper-case letter, and changes nothing else |
| `PairStore.PairId` | src/state/pair_storage.rs:35-41 | the id is the base currency in lower case, a dash, then the quote currency in lower case: each part has its currency's length, differs from it only in case and has no upper-case letter |
| `PairStore.LowerEqualIffSameUpToCase` | src/state/pair_storage.rs:38-39 | two strings lower-case to the same string iff they differ at most in the case of their ASCII letters, so currencies that differ in a letter get different lower cases |
| `PairStore.PairIdIsCaseInsensitive` | src/state/pair_storage.rs:35-41 | pairs whose currencies differ only in the case of their letters (stated character by character, not through lower-casing) have the same id, and an id is already lower case |
| `PairStore.PairStorage.Get` | src/state/pair_storage.rs:79-85 | returns the stored pair iff the id is present, `PairNotFound` otherwise |
| `PairStore.PairStorage.AddAddress` | src/state/pair_storage.rs:87-92 | sets or overwrites the id's address and does not touch pair data |
| `PairStore.PairStorage.CheckPairExists` | src/state/pair_storage.rs:93-98 | true iff the id has pair data |
| `PairStore.PairStorage.AddPair` | src/state/pair_storage.rs:100-119 | an existing id gives `PairAlreadyExists` with nothing changed; otherwise the pair data is inserted; addresses are untouched |
| `PairStore.PairStorage.RemovePair` | src/state/pair_storage.rs:121-137 | a missing id gives `PairNotFound` with nothing changed; otherwise the id leaves both maps |
| `PairStore.PairStorage.AllPairs` | src/state/pair_storage.rs:139-144 | every stored pair, once per id, and nothing else |
| `PairStore.PairStorage.AllPairsWithAddress` | src/state/pair_storage.rs:146-154 | every (pair, address) for the ids of the address map, once each; requires that each such id has pair data (the source panics otherwise) |
| `PairStore.PairStorage.UpdatePair` | src/state/pair_storage.rs:156-173 | keeps the pair and replaces only price and timestamp; a missing id gives `PairNotFound` with nothing changed |
| `PairStore.PairStorage.Clear` | src/state/pair_storage.rs:175-185 | both maps are empty |
| `Contract.CreationProcessedRecordsAddress` | src/contract.rs:34-41 | `processed` records the receipt's contract address under the pair id, or the zero address when there is none; other ids keep their addresses |
| `Contract.CreationAfterRemovalOrphansAddress` | src/contract.rs:34-41 | when the pair has no pair data, `processed` leaves an address without pair data |
| `Contract.Processed` | src/contract.rs:34-41 | the pair storage's address map becomes `CreationProcessed` of the old one; pair data is unchanged |
| `Contract.Skipped` | src/contract.rs:43 | the feed-creation callback's `skipped` handler does nothing; that it changes no state rests on the method having no `modifies` clause and no result |
| `Contract.GetTransaction` | src/contract.rs:131-193 | succeeds iff every reply does, returning `Envelope` of the replies; otherwise returns `BuildError`: the first failing reply, in the order gas price, chain id, signer address, nonce, signature, with the source's messages; on success the envelope has the given `to`, value and data, the fetched nonce, gas price and chain id, gas 30,000,000, the signature's r, s, v and the hash of the signed envelope |
| `ContractService.CreatePairFeed` | src/contract.rs:52-108 | an encode failure gives the source's message; a build failure gives `get_transaction`'s error unchanged; otherwise exactly the built deployment envelope (no destination, value 0, the encoded input) is broadcast, and its failure is passed on; only a successful broadcast registers a creation callback for `pair.id()` under the returned hash; every failure leaves the registry unchanged; no handler runs |
| `ContractService.UpdatePairPrice` | src/contract.rs:110-128 | a build failure gives `get_transaction`'s error unchanged; otherwise exactly the envelope addressed to `contract` with value 0 and the encoded call is broadcast, and its failure is passed on; it has no registry to write to |
| `Processor.TransactionState` | src/processor.rs:135-163 | `Skipped` iff the transaction lookup answers `Ok(None)`; `Processed(receipt)` iff the transaction is present and a receipt came back; every other case, failed calls included, is `Unknown` |
| `Processor.AfterDispatch` | src/processor.rs:55-69 | only a mined feed creation changes the address map, as its `processed` handler does; skipped transactions and reservation callbacks leave it alone |
| `Processor.EvmTransactionProcessor.DispatchProcessed` | src/processor.rs:55-61 | forwards to the wrapped callback's `processed` handler: the address map takes that handler's effect, pair data and the registry are unchanged, and exactly one handler run is appended to the log |
| `Processor.EvmTransactionProcessor.DispatchSkipped` | src/processor.rs:63-69 | forwards to the wrapped callback's `skipped` handler and appends exactly one handler run to the log; that it changes nothing else rests on its `modifies` clause naming only the log |
| `Processor.RunRemaining` | src/processor.rs:114-131 | after a run the registry keeps exactly the entries whose hash did not arrive with a terminal status, so unknown ones stay registered |
| `Processor.RunDispatched` | src/processor.rs:112-131 | every dispatch is of a registered, arrived hash with its registered callback and terminal status; no hash is dispatched twice, even when its result arrives twice; every registered hash that arrived settled is dispatched |
| `Processor.AtMostOnceAcrossRuns` | src/processor.rs:94-132 | a second run over what the first left registered dispatches none of the first run's hashes |
| `Processor.EffectsKeys` | src/processor.rs:118-130 | after a run the ids with an address are the earlier ones plus the pair ids of the feed creations that were mined |
| `Processor.EffectsArrive` | src/processor.rs:118-130 | one more status result changes the address map exactly as the handler of the callback it settles does, and not at all when it is unknown or its hash is no longer registered |
| `Processor.EvmTransactionProcessor.RegisterTransaction` | src/processor.rs:168-172 | the hash maps to the given callback, overwriting any earlier one; other hashes are unchanged |
| `Processor.EvmTransactionProcessor.Reset` | src/processor.rs:174-176 | the registry is empty |
| `Processor.EvmTransactionProcessor.ExtractCallback` | src/processor.rs:112-113 | removes the hash's entry and returns it, or nothing when there was none |
| `Processor.EvmTransactionProcessor.Settle` | src/processor.rs:118-130 | handling one status result is one step of `Run`: a terminal status for a registered hash removes its entry and runs its handler exactly once (one log entry with the extracted callback and the status); an unknown status or an already removed hash runs no handler and changes nothing |
| `Processor.EvmTransactionProcessor.ProcessTransactions` | src/processor.rs:94-132 | the arrival order lists each hash of the starting registry once; the handlers run are exactly `Run`'s dispatch list, in order (appended to the log), so by `RunDispatched` each settled hash has its handler run exactly once; the new registry and the address map are those of `Run`; pair data is unchanged |
| `Processor.ProcessorMock.RegisterTransaction` | src/processor.rs:232-234 | the hash maps to the given callback |
| `Processor.ProcessorMock.Reset` | src/processor.rs:236-238 | the mock's registry is empty |
| `Processor.ProcessorMock.Processed` | src/processor.rs:215-223 | requires the hash to be registered (it is unwrapped); removes it, then runs its `processed` handler once: one log entry, and the address map takes the handler's effect |
| `Processor.ProcessorMock.Skipped` | src/processor.rs:225-228 | requires the hash to be registered; removes it, then runs its `skipped` handler once (one log entry); nothing else changes |
| `OracleStore.ToPublicForgetsOnlyTimer` | src/state/oracle_storage.rs:225-233 | the public view drops the timer id and nothing else |
| `OracleStore.IsNoneIffIdentity` | src/state/oracle_storage.rs:243-246 | `is_none` holds iff the update, with no new timer, leaves every entry unchanged |
| `OracleStore.PatchedIdempotent` | src/state/oracle_storage.rs:154-165 | applying the same update twice equals applying it once |
| `OracleStore.Lookup` | src/state/oracle_storage.rs:55-61 | succeeds iff user and contract are present; fails with `UserNotFound` for an unknown user and `OracleNotFound` for a known user without the contract |
| `OracleStore.AddThenLookup` | src/state/oracle_storage.rs:23-45 | after adding, the entry is found under (user, destination contract); every other oracle looks up as before; the user's contracts gain exactly that one, so there is no duplicate |
| `OracleStore.RemoveThenLookup` | src/state/oracle_storage.rs:114-135 | after removal, looking up the oracle gives `UserNotFound` if it was the user's last one and `OracleNotFound` otherwise; the user's other oracles and other users are kept; no empty user is left |
| `OracleStore.PatchThenLookup` | src/state/oracle_storage.rs:137-171 | after patching, the entry under the same contract key holds the merged metadata, even if the new destination names another contract; nothing else changes |
| `OracleStore.ClearedLookup` | src/state/oracle_storage.rs:173-178 | after clearing, every lookup gives `UserNotFound` |
| `OracleStore.OracleStorage.AddOracle` | src/state/oracle_storage.rs:23-45 | the registry becomes `WithOracle` of the old one; no empty user appears |
| `OracleStore.OracleStorage.GetOracleByAddress` | src/state/oracle_storage.rs:47-63 | the public view of the stored oracle, or the lookup's error |
| `OracleStore.OracleStorage.GetTimerIdByAddress` | src/state/oracle_storage.rs:66-81 | the stored timer id, or the lookup's error |
| `OracleStore.OracleStorage.GetUserOracles` | src/state/oracle_storage.rs:83-95 | `UserNotFound` iff the user is unknown; otherwise exactly the user's (contract, view) pairs, in ascending contract order |
| `OracleStore.OracleStorage.GetOracles` | src/state/oracle_storage.rs:97-112 | one element per stored user, in ascending order, each holding the views of that user's oracles; none is empty |
| `OracleStore.OracleStorage.RemoveOracleByAddress` | src/state/oracle_storage.rs:114-135 | the lookup's error with nothing changed, or the registry becomes `WithoutOracle` of the old one |
| `OracleStore.OracleStorage.UpdateOracleMetadata` | src/state/oracle_storage.rs:137-171 | the lookup's error with nothing changed, or the entry is patched in place |
| `OracleStore.OracleStorage.Clear` | src/state/oracle_storage.rs:173-178 | the registry is empty |
| `Canister.CheckAnonymousPrincipal` | src/canister.rs:583-589 | refuses exactly the anonymous principal, with the source's message |
| `Canister.HandleHttpRequest` | src/canister.rs:202-214 | 400 iff the method is not POST; a POST gets 204 with no headers, an empty body and `upgrade = Some(true)` |
| `Canister.CreateKeepsConsistent` | src/canister.rs:402-420 | creating under a new (user, contract) with a fresh timer keeps every oracle paired with exactly one live timer running its job |
| `Canister.CreateOnExistingLeaksTimer` | src/canister.rs:402-420 | creating under an existing (user, contract) leaves the old timer armed while no stored oracle refers to it |
| `Canister.UpdateKeepsConsistent` | src/canister.rs:321-345 | replacing an oracle's timer by a fresh one running the merged job keeps timers and oracles in agreement |
| `Canister.DeleteKeepsConsistent` | src/canister.rs:365-377 | removing an oracle together with its timer keeps timers and oracles in agreement |
| `Canister.Oracular.constructor` | src/canister.rs:75-91 | a canister with a non-anonymous owner starts empty and consistent |
| `Canister.Oracular.CheckOwner` | src/canister.rs:528-535 | passes iff the caller is the owner |
| `Canister.Oracular.SetOwner` | src/canister.rs:100-108 | refuses the anonymous principal first, then a non-owner caller; only on success is the owner replaced; timers are untouched |
| `Canister.Oracular.InitPriceTimer` | src/canister.rs:428-453 | arms exactly one fresh timer running the given job and always succeeds |
| `Canister.Oracular.ClearTimer` | src/canister.rs:327 | disarms the timer |
| `Canister.Oracular.Tick` | src/canister.rs:437-449 | a tick runs the timer's job, which in a valid canister is the job of the stored oracle owning that timer; a failed push is only logged; that no timer changes rests on the method having no `modifies` clause |
| `Canister.Oracular.CreateOracle` | src/canister.rs:392-425 | arms the timer first, then stores the oracle with that timer's id; consistent afterwards on a new key; on an existing key the old timer stays armed with no oracle |
| `Canister.Oracular.UpdateOracleMetadata` | src/canister.rs:295-348 | an update with no field set is refused before anything is read; a failed lookup returns before any change; otherwise the old timer is cleared, exactly one timer is armed with each parameter from the update or else the old metadata, and the entry is patched with the new timer id; consistency is kept |
| `Canister.Oracular.DeleteOracle` | src/canister.rs:350-380 | a failed lookup returns before any change; otherwise the oracle's timer is cleared and the oracle is removed; consistency is kept |

## Left out

- Network and RPC calls, HTTP outcalls, threshold-ECDSA signing, signature recovery, RLP/keccak hashing and ABI encoding are outside the model. Their results are inputs. `get_address`, `http_request_update`, `recover_pubkey`, `send_transaction` and the JSON-RPC client are not part of this model.
- The price scaling in src/http.rs uses `f64` arithmetic. It is not modelled: prices are plain naturals.
- Concurrency of `select_all` is not modelled. Only the sequential effect of results arriving in some order is.
- Registrations made by other calls during a processing run are not modelled. The handlers modelled do not touch the registry.
- The handlers of `ReserveAddressCallback` are not modelled, because the type is not defined in the source.
- Stable-memory encoding, memory ids, settings cells, logging and the test harnesses under tests/ are not part of this model.
- `u64` bounds on prices, timestamps, intervals and nonces are not modelled. `U256` values are unbounded naturals.
- `str::to_lowercase` is modelled for ASCII letters only. Other Unicode case mappings are not.
- PairStore.PairStorage.AllPairs: the order of the returned pairs is left open. The source returns them in ascending id order.
- PairStore.PairStorage.AllPairsWithAddress: the order of the returned pairs is left open. The source returns them in ascending id order.
- Re-arming timers after a canister upgrade is not shown in the source and is not modelled.
- `set_logger_filter` and `ic_logs` are owner-guarded: each calls `check_owner` on the caller first, which is modelled by `Canister.Oracular.CheckOwner`. What they do after the guard (logger configuration, log records) is not modelled. The `owner` getter and the query wrappers only forward to storage and are not modelled separately.
