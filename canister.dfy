/**
 * The canister's oracle lifecycle: creating an oracle arms an interval timer
 * that pushes the oracle's price, updating re-arms it with the merged
 * parameters, deleting disarms it; plus the owner and principal guards and
 * the HTTP gate. Timers are an abstract map from live timer id to the job it
 * runs; the runtime hands out fresh ids, modelled by a counter.
 */
module Canister {
  import opened Types
  import opened OracleStore

  /** What a timer runs on every tick: push the price of `origin` for `user`
      to `evm`, every `interval` seconds. */
  datatype Job = Job(user: Address, interval: nat, origin: Origin, evm: EvmDestination)

  /** The job an oracle's timer must run. */
  function JobOf(user: Address, m: StoredMetadata): Job {
    Job(user, m.timerInterval, m.origin, m.evm)
  }

  /** `check_anonymous_principal`: refuses exactly the anonymous principal. */
  function CheckAnonymousPrincipal(p: Principal): (r: Result<(), Error>)
    ensures r.Ok? <==> p != Anonymous
    ensures r.Err? ==> r.error == Internal("Principal is anonymous")
  {
    if p == Anonymous then Err(Internal("Principal is anonymous")) else Ok(())
  }

  // ---------------------------------------------------------------------------
  // Timers and oracles agree
  // ---------------------------------------------------------------------------

  type Timers = map<TimerId, Job>
  type Owners = map<TimerId, (Address, Address)>

  /** Ids handed out so far are below `next`. */
  ghost predicate TimersBelow(timers: Timers, next: nat) {
    forall id :: id in timers ==> id < next
  }

  /** Every live timer serves the stored oracle `owners` names, and that
      oracle's entry records the timer. */
  ghost predicate OwnersResolve(users: Users, owners: Owners) {
    forall id {:trigger owners[id]} :: id in owners ==>
      && Lookup(users, owners[id].0, owners[id].1).Ok?
      && users[owners[id].0][owners[id].1].timerId == id
  }

  /** Every stored oracle has a live timer that it owns and that runs its job;
      so no two oracles share a timer. */
  ghost predicate OraclesArmed(users: Users, timers: Timers, owners: Owners) {
    forall u, c {:trigger users[u][c]} :: u in users && c in users[u] ==>
      && users[u][c].timerId in owners
      && owners[users[u][c].timerId] == (u, c)
      && users[u][c].timerId in timers
      && timers[users[u][c].timerId] == JobOf(u, users[u][c])
  }

  /** Timers and stored oracles agree one to one (`owners` names the oracle
      of each timer); ids handed out so far are below `next`. */
  ghost predicate Consistent(users: Users, timers: Timers, owners: Owners, next: nat) {
    && owners.Keys == timers.Keys
    && TimersBelow(timers, next)
    && OwnersResolve(users, owners)
    && OraclesArmed(users, timers, owners)
  }

  lemma CreateResolves(users: Users, owners: Owners, user: Address, m: StoredMetadata)
    requires OwnersResolve(users, owners)
    requires Lookup(users, user, m.evm.contract).Err? && m.timerId !in owners
    ensures OwnersResolve(WithOracle(users, user, m), owners[m.timerId := (user, m.evm.contract)])
  {
    var users': Users := WithOracle(users, user, m);
    var owners' := owners[m.timerId := (user, m.evm.contract)];
    AddThenLookup(users, user, m);
    forall id | id in owners'
      ensures Lookup(users', owners'[id].0, owners'[id].1).Ok?
      ensures users'[owners'[id].0][owners'[id].1].timerId == id
    {
      if id != m.timerId {
        var (u, c) := owners[id];
        assert Lookup(users, u, c).Ok?;
        assert Lookup(users', u, c) == Lookup(users, u, c);
      }
    }
  }

  lemma CreateArms(users: Users, timers: Timers, owners: Owners, user: Address, m: StoredMetadata)
    requires OraclesArmed(users, timers, owners)
    requires m.timerId !in owners
    ensures OraclesArmed(WithOracle(users, user, m), timers[m.timerId := JobOf(user, m)],
                         owners[m.timerId := (user, m.evm.contract)])
  {
    var users': Users := WithOracle(users, user, m);
    var timers' := timers[m.timerId := JobOf(user, m)];
    var owners' := owners[m.timerId := (user, m.evm.contract)];
    AddThenLookup(users, user, m);
    forall u, c | u in users' && c in users'[u]
      ensures users'[u][c].timerId in owners'
      ensures owners'[users'[u][c].timerId] == (u, c)
      ensures users'[u][c].timerId in timers'
      ensures timers'[users'[u][c].timerId] == JobOf(u, users'[u][c])
    {
      if (u, c) != (user, m.evm.contract) {
        assert Lookup(users', u, c).Ok?;
        assert Lookup(users, u, c).Ok?;
        assert users'[u][c] == users[u][c];
        assert users[u][c].timerId != m.timerId;
      } else {
        assert users'[u][c] == m;
      }
    }
  }

  /** Creating an oracle under a new (user, contract) with a fresh timer keeps
      timers and oracles in agreement. */
  lemma CreateKeepsConsistent(users: Users, timers: Timers, owners: Owners, next: nat, user: Address, m: StoredMetadata,
                              users': Users, timers': Timers, owners': Owners)
    requires Consistent(users, timers, owners, next)
    requires Lookup(users, user, m.evm.contract).Err? && m.timerId == next
    requires users' == WithOracle(users, user, m)
    requires timers' == timers[next := JobOf(user, m)]
    requires owners' == owners[next := (user, m.evm.contract)]
    ensures Consistent(users', timers', owners', next + 1)
  {
    assert next !in timers;
    CreateResolves(users, owners, user, m);
    CreateArms(users, timers, owners, user, m);
  }

  /** Creating an oracle under a (user, contract) that already has one
      replaces the entry but leaves its old timer armed: that timer then
      serves no stored oracle. */
  lemma CreateOnExistingLeaksTimer(users: Users, timers: Timers, owners: Owners,
                                   next: nat, user: Address, m: StoredMetadata)
    requires Consistent(users, timers, owners, next)
    requires Lookup(users, user, m.evm.contract).Ok? && m.timerId == next
    ensures var leaked := users[user][m.evm.contract].timerId;
      var users': Users := WithOracle(users, user, m);
      && leaked in timers[next := JobOf(user, m)]
      && forall u, c :: u in users' && c in users'[u] ==> users'[u][c].timerId != leaked
  {
    var leaked := users[user][m.evm.contract].timerId;
    var users': Users := WithOracle(users, user, m);
    AddThenLookup(users, user, m);
    assert leaked in timers && leaked < next;
    forall u: Address, c: Address | u in users' && c in users'[u] ensures users'[u][c].timerId != leaked {
      if (u, c) != (user, m.evm.contract) {
        assert Lookup(users', u, c).Ok?;
        assert Lookup(users, u, c).Ok?;
        assert users'[u][c] == users[u][c];
        assert owners[users[u][c].timerId] == (u, c);
      }
    }
  }

  lemma UpdateResolves(users: Users, owners: Owners, next: nat, user: Address, contract: Address,
                       patch: UpdateOracleMetadata)
    requires OwnersResolve(users, owners)
    requires Lookup(users, user, contract).Ok? && next !in owners
    ensures var t := users[user][contract].timerId;
      OwnersResolve(WithPatch(users, user, contract, Some(next), patch), (owners - {t})[next := (user, contract)])
  {
    var t := users[user][contract].timerId;
    var users': Users := WithPatch(users, user, contract, Some(next), patch);
    var owners' := (owners - {t})[next := (user, contract)];
    PatchThenLookup(users, user, contract, Some(next), patch);
    forall id | id in owners'
      ensures Lookup(users', owners'[id].0, owners'[id].1).Ok?
      ensures users'[owners'[id].0][owners'[id].1].timerId == id
    {
      if id != next {
        var (u, c) := owners[id];
        assert (u, c) != (user, contract);
        assert Lookup(users', u, c) == Lookup(users, u, c);
      }
    }
  }

  lemma UpdateArms(users: Users, timers: Timers, owners: Owners, next: nat, user: Address, contract: Address,
                   patch: UpdateOracleMetadata)
    requires OraclesArmed(users, timers, owners)
    requires Lookup(users, user, contract).Ok? && next !in owners
    ensures var t := users[user][contract].timerId;
      OraclesArmed(WithPatch(users, user, contract, Some(next), patch),
                   (timers - {t})[next := JobOf(user, Patched(users[user][contract], patch, Some(next)))],
                   (owners - {t})[next := (user, contract)])
  {
    var t := users[user][contract].timerId;
    var users': Users := WithPatch(users, user, contract, Some(next), patch);
    var timers' := (timers - {t})[next := JobOf(user, Patched(users[user][contract], patch, Some(next)))];
    var owners' := (owners - {t})[next := (user, contract)];
    PatchThenLookup(users, user, contract, Some(next), patch);
    forall u, c | u in users' && c in users'[u]
      ensures users'[u][c].timerId in owners'
      ensures owners'[users'[u][c].timerId] == (u, c)
      ensures users'[u][c].timerId in timers'
      ensures timers'[users'[u][c].timerId] == JobOf(u, users'[u][c])
    {
      if (u, c) != (user, contract) {
        assert Lookup(users', u, c).Ok?;
        assert Lookup(users, u, c).Ok?;
        assert users'[u][c] == users[u][c];
        assert users[u][c].timerId != t && users[u][c].timerId != next;
      } else {
        assert users'[u][c] == Patched(users[user][contract], patch, Some(next));
      }
    }
  }

  /** Re-arming an existing oracle (its timer replaced by a fresh one running
      the patched job) keeps timers and oracles in agreement. */
  lemma UpdateKeepsConsistent(users: Users, timers: Timers, owners: Owners, next: nat, user: Address, contract: Address,
                              patch: UpdateOracleMetadata, users': Users, timers': Timers, owners': Owners)
    requires Consistent(users, timers, owners, next)
    requires Lookup(users, user, contract).Ok?
    requires users' == WithPatch(users, user, contract, Some(next), patch)
    requires var md := users[user][contract];
      timers' == (timers - {md.timerId})[next :=
        Job(user, patch.timestamp.GetOr(md.timerInterval), patch.origin.GetOr(md.origin), patch.evm.GetOr(md.evm))]
    requires owners' == (owners - {users[user][contract].timerId})[next := (user, contract)]
    ensures Consistent(users', timers', owners', next + 1)
  {
    assert next !in timers;
    assert timers' == (timers - {users[user][contract].timerId})[next :=
      JobOf(user, Patched(users[user][contract], patch, Some(next)))];
    UpdateResolves(users, owners, next, user, contract, patch);
    UpdateArms(users, timers, owners, next, user, contract, patch);
  }

  lemma DeleteResolves(users: Users, owners: Owners, user: Address, contract: Address)
    requires OwnersResolve(users, owners)
    requires Lookup(users, user, contract).Ok?
    ensures OwnersResolve(WithoutOracle(users, user, contract), owners - {users[user][contract].timerId})
  {
    var t := users[user][contract].timerId;
    var users': Users := WithoutOracle(users, user, contract);
    var owners' := owners - {t};
    RemoveThenLookup(users, user, contract);
    forall id | id in owners'
      ensures Lookup(users', owners'[id].0, owners'[id].1).Ok?
      ensures users'[owners'[id].0][owners'[id].1].timerId == id
    {
      var (u, c) := owners[id];
      assert (u, c) != (user, contract);
      if u != user {
        assert Lookup(users', u, c) == Lookup(users, u, c);
      } else {
        assert Lookup(users', u, c) == Ok(users[u][c]);
      }
    }
  }

  lemma DeleteArms(users: Users, timers: Timers, owners: Owners, user: Address, contract: Address)
    requires OraclesArmed(users, timers, owners)
    requires Lookup(users, user, contract).Ok?
    ensures var t := users[user][contract].timerId;
      OraclesArmed(WithoutOracle(users, user, contract), timers - {t}, owners - {t})
  {
    var t := users[user][contract].timerId;
    var users': Users := WithoutOracle(users, user, contract);
    RemoveThenLookup(users, user, contract);
    forall u, c | u in users' && c in users'[u]
      ensures users'[u][c].timerId in owners - {t}
      ensures (owners - {t})[users'[u][c].timerId] == (u, c)
      ensures users'[u][c].timerId in timers - {t}
      ensures (timers - {t})[users'[u][c].timerId] == JobOf(u, users'[u][c])
    {
      assert Lookup(users', u, c).Ok?;
      if u != user {
        assert Lookup(users', u, c) == Lookup(users, u, c);
      } else {
        assert c != contract;
        assert Lookup(users', u, c) == Ok(users[u][c]);
      }
      assert users[u][c].timerId != t;
    }
  }

  /** Removing an oracle together with its timer keeps timers and oracles in
      agreement. */
  lemma DeleteKeepsConsistent(users: Users, timers: Timers, owners: Owners, next: nat, user: Address, contract: Address,
                              users': Users, timers': Timers, owners': Owners)
    requires Consistent(users, timers, owners, next)
    requires Lookup(users, user, contract).Ok?
    requires users' == WithoutOracle(users, user, contract)
    requires timers' == timers - {users[user][contract].timerId}
    requires owners' == owners - {users[user][contract].timerId}
    ensures Consistent(users', timers', owners', next)
  {
    DeleteResolves(users, owners, user, contract);
    DeleteArms(users, timers, owners, user, contract);
  }

  // ---------------------------------------------------------------------------
  // The HTTP gate
  // ---------------------------------------------------------------------------

  /** An HTTP reply: a full response, or one built by the error helper from
      a status code and a message (its rendering is not part of this model). */
  datatype HttpResponse =
    | Response(statusCode: nat, headers: map<string, string>, body: seq<Byte>, upgrade: Option<bool>)
    | ErrorResponse(statusCode: nat, message: string)

  /** `http_request`: any method but POST is refused with 400; a POST is
      answered with an empty 204 that asks for the update call. */
  function HandleHttpRequest(httpMethod: string): (r: HttpResponse)
    ensures r.statusCode == 400 <==> httpMethod != "POST"
    ensures httpMethod != "POST" ==> r.ErrorResponse?
    ensures httpMethod == "POST" ==>
      r.Response? && r.statusCode == 204 && r.upgrade == Some(true) && r.body == [] && r.headers == map[]
  {
    if httpMethod != "POST" then ErrorResponse(400, "Method not allowed")
    else Response(204, map[], [], Some(true))
  }

  // ---------------------------------------------------------------------------
  // The canister
  // ---------------------------------------------------------------------------

  class Oracular {
    /** The owner principal from the settings. */
    var owner: Principal
    /** The oracle registry. */
    const storage: OracleStorage
    /** The live interval timers and what each runs. */
    var timers: Timers
    /** The next timer id the runtime hands out. */
    var nextTimer: TimerId
    /** Which oracle (user, contract) each live timer serves. */
    ghost var owners: Owners

    /** Every stored oracle has exactly one live timer running its job, and
        every live timer serves exactly one stored oracle. */
    ghost predicate Valid()
      reads this, storage
    {
      && owner != Anonymous
      && storage.Valid()
      && Consistent(storage.users, timers, owners, nextTimer)
    }

    /** `init`: a fresh canister owned by `owner`; an anonymous owner panics. */
    constructor (owner: Principal)
      requires owner != Anonymous
      ensures this.owner == owner && storage.users == map[] && timers == map[]
      ensures fresh(storage)
      ensures Valid()
    {
      this.owner := owner;
      storage := new OracleStorage();
      timers := map[];
      nextTimer := 0;
      owners := map[];
    }

    // --- guards --------------------------------------------------------------

    /** `check_owner`: only the owner passes. */
    method CheckOwner(caller: Principal) returns (r: Result<(), Error>)
      ensures r.Ok? <==> caller == owner
      ensures r.Err? ==> r.error == Internal("caller is not the owner")
    {
      if caller != owner {
        return Err(Internal("caller is not the owner"));
      }
      r := Ok(());
    }

    /** `set_owner`: the anonymous principal is refused first, then a caller
        that is not the owner; only then is the owner replaced. */
    method SetOwner(newOwner: Principal, caller: Principal) returns (r: Result<(), Error>)
      modifies this
      ensures newOwner == Anonymous ==> r == Err(Internal("Principal is anonymous"))
      ensures newOwner != Anonymous && caller != old(owner) ==> r == Err(Internal("caller is not the owner"))
      ensures r.Ok? <==> newOwner != Anonymous && caller == old(owner)
      ensures owner == (if r.Ok? then newOwner else old(owner))
      ensures timers == old(timers) && nextTimer == old(nextTimer) && owners == old(owners)
      ensures old(Valid()) ==> Valid()
    {
      var anonymous := CheckAnonymousPrincipal(newOwner);
      if anonymous.Err? {
        return Err(anonymous.error);
      }
      var isOwner := CheckOwner(caller);
      if isOwner.Err? {
        return Err(isOwner.error);
      }
      owner := newOwner;
      r := Ok(());
    }

    // --- timers --------------------------------------------------------------

    /** `init_price_timer`: arms a fresh interval timer for the job. Arming
        cannot fail, so the `Result` of the source is always `Ok`. */
    method InitPriceTimer(user: Address, interval: nat, origin: Origin, evm: EvmDestination) returns (id: TimerId)
      modifies this
      ensures id == old(nextTimer) && nextTimer == old(nextTimer) + 1
      ensures timers == old(timers)[id := Job(user, interval, origin, evm)]
      ensures owner == old(owner) && owners == old(owners)
    {
      id := nextTimer;
      timers := timers[id := Job(user, interval, origin, evm)];
      nextTimer := nextTimer + 1;
    }

    /** `clear_timer`: disarms a timer; an unknown id is ignored. */
    method ClearTimer(id: TimerId)
      modifies this
      ensures timers == old(timers) - {id}
      ensures nextTimer == old(nextTimer) && owner == old(owner) && owners == old(owners)
    {
      timers := timers - {id};
    }

    /** One tick of a live timer: its job is run and a failure of the price
        push (`sent`) is only logged. The method has no `modifies` clause, so
        it changes no timer and no oracle: the timer keeps firing whatever the
        outcome. In a valid canister the job is that of the stored oracle the
        timer belongs to. */
    method Tick(id: TimerId, sent: Result<(), Error>) returns (job: Job, logged: Option<Error>)
      requires id in timers
      ensures job == timers[id]
      ensures Valid() ==>
        && id in owners
        && Lookup(storage.users, owners[id].0, owners[id].1).Ok?
        && storage.users[owners[id].0][owners[id].1].timerId == id
        && job == JobOf(owners[id].0, storage.users[owners[id].0][owners[id].1])
      ensures logged.Some? <==> sent.Err?
      ensures sent.Err? ==> logged == Some(sent.error)
    {
      job := timers[id];
      logged := if sent.Err? then Some(sent.error) else None;
    }

    // --- oracle lifecycle ----------------------------------------------------

    /** `create_oracle`: arms the timer first, then stores the oracle with
        that timer's id. On a new (user, contract) the canister stays
        consistent. On an existing one the stored entry is replaced but its
        old timer is left armed, serving no stored oracle. */
    method CreateOracle(user: Address, origin: Origin, timestamp: nat, destination: EvmDestination)
      returns (r: Result<(), Error>)
      modifies this, storage
      ensures r == Ok(())
      ensures timers == old(timers)[old(nextTimer) := Job(user, timestamp, origin, destination)]
      ensures storage.users == WithOracle(old(storage.users), user,
        StoredMetadata(origin, timestamp, old(nextTimer), destination))
      ensures owner == old(owner)
      ensures old(Valid()) && Lookup(old(storage.users), user, destination.contract).Err? ==> Valid()
      ensures old(Valid()) && Lookup(old(storage.users), user, destination.contract).Ok? ==>
        var leaked := old(storage.users)[user][destination.contract].timerId;
        && leaked in timers
        && forall u, c :: u in storage.users && c in storage.users[u] ==> storage.users[u][c].timerId != leaked
    {
      ghost var before: Users := storage.users;
      var timerId := InitPriceTimer(user, timestamp, origin, destination);
      storage.AddOracle(user, origin, timestamp, timerId, destination);
      ghost var m := StoredMetadata(origin, timestamp, timerId, destination);
      owners := owners[timerId := (user, destination.contract)];
      if old(Valid()) && Lookup(before, user, destination.contract).Err? {
        CreateKeepsConsistent(old(storage.users), old(timers), old(owners), old(nextTimer), user, m, storage.users, timers, owners);
      } else if old(Valid()) {
        CreateOnExistingLeaksTimer(before, old(timers), old(owners), old(nextTimer), user, m);
      }
      r := Ok(());
    }

    /** `update_oracle_metadata`: an update naming no field is refused before
        anything is read; a failed lookup returns before any timer or entry
        changes. Otherwise the oracle's timer is cleared, exactly one new
        timer is armed with each parameter taken from the update when set
        and from the stored oracle otherwise, and the entry is patched in
        place with the new timer id. */
    method UpdateOracleMetadata(user: Address, contract: Address, patch: UpdateOracleMetadata)
      returns (r: Result<(), Error>)
      modifies this, storage
      ensures patch.IsNone() ==>
        r == Err(Internal("At least one of the metadata fields must be set"))
        && timers == old(timers) && storage.users == old(storage.users)
      ensures !patch.IsNone() && Lookup(old(storage.users), user, contract).Err? ==>
        r == Err(Lookup(old(storage.users), user, contract).error)
        && timers == old(timers) && storage.users == old(storage.users)
      ensures !patch.IsNone() && Lookup(old(storage.users), user, contract).Ok? ==>
        var md := old(storage.users)[user][contract];
        && r == Ok(())
        && timers == (old(timers) - {md.timerId})[old(nextTimer) :=
             Job(user, patch.timestamp.GetOr(md.timerInterval), patch.origin.GetOr(md.origin), patch.evm.GetOr(md.evm))]
        && storage.users == WithPatch(old(storage.users), user, contract, Some(old(nextTimer)), patch)
      ensures owner == old(owner)
      ensures old(Valid()) ==> Valid()
    {
      if patch.IsNone() {
        return Err(Internal("At least one of the metadata fields must be set"));
      }
      var oldMd := storage.GetOracleByAddress(user, contract);
      if oldMd.Err? {
        return Err(oldMd.error);
      }
      ghost var before: Users := storage.users;
      var timerId := storage.GetTimerIdByAddress(user, contract);
      assert timerId.Ok?;
      ClearTimer(timerId.value);
      var md := oldMd.value;
      ghost var stored := before[user][contract];
      assert Lookup(before, user, contract) == Ok(stored);
      assert md == ToPublic(stored);
      var newTimer := InitPriceTimer(user, patch.timestamp.GetOr(md.timerInterval), patch.origin.GetOr(md.origin),
                                     patch.evm.GetOr(md.evm));
      var updated := storage.UpdateOracleMetadata(user, contract, Some(newTimer), patch);
      assert updated.Ok?;
      owners := (owners - {timerId.value})[newTimer := (user, contract)];
      r := Ok(());
      if old(Valid()) {
        UpdateKeepsConsistent(old(storage.users), old(timers), old(owners), old(nextTimer), user, contract, patch,
                              storage.users, timers, owners);
      }
    }

    /** `delete_oracle`: a failed lookup returns before any change; otherwise
        the oracle's timer is cleared and then the oracle is removed. */
    method DeleteOracle(user: Address, contract: Address) returns (r: Result<(), Error>)
      modifies this, storage
      ensures Lookup(old(storage.users), user, contract).Err? ==>
        r == Err(Lookup(old(storage.users), user, contract).error)
        && timers == old(timers) && storage.users == old(storage.users)
      ensures Lookup(old(storage.users), user, contract).Ok? ==>
        && r == Ok(())
        && timers == old(timers) - {old(storage.users)[user][contract].timerId}
        && storage.users == WithoutOracle(old(storage.users), user, contract)
      ensures owner == old(owner)
      ensures old(Valid()) ==> Valid()
    {
      var timerId := storage.GetTimerIdByAddress(user, contract);
      if timerId.Err? {
        return Err(timerId.error);
      }
      ghost var before: Users := storage.users;
      ClearTimer(timerId.value);
      var removed := storage.RemoveOracleByAddress(user, contract);
      assert removed.Ok?;
      owners := owners - {timerId.value};
      r := Ok(());
      if old(Valid()) {
        DeleteKeepsConsistent(old(storage.users), old(timers), old(owners), old(nextTimer), user, contract,
                              storage.users, timers, owners);
      }
    }
  }
}
