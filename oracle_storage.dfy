/**
 * The oracle registry: for every user address, the user's oracles keyed by
 * the address of the contract each one writes to. A user appears only while
 * it has at least one oracle.
 */
module OracleStore {
  import opened Types

  /** What is stored per oracle (`StorableOracleMetadata`). */
  datatype StoredMetadata = StoredMetadata(origin: Origin, timerInterval: nat, timerId: TimerId, evm: EvmDestination)

  /** What is shown of an oracle (`OracleMetadata`): the stored metadata
      without its timer id. */
  datatype OracleMetadata = OracleMetadata(origin: Origin, timerInterval: nat, evm: EvmDestination)

  /** A partial update: only the fields that are `Some` are written. */
  datatype UpdateOracleMetadata = UpdateOracleMetadata(origin: Option<Origin>, evm: Option<EvmDestination>, timestamp: Option<nat>)
  {
    /** `is_none`: the update names no field. */
    predicate IsNone() {
      origin.None? && evm.None? && timestamp.None?
    }
  }

  /** `From<StorableOracleMetadata> for OracleMetadata`. */
  function ToPublic(m: StoredMetadata): OracleMetadata {
    OracleMetadata(m.origin, m.timerInterval, m.evm)
  }

  /** The public view forgets the timer id and nothing else: two stored
      entries are equal exactly when their views and their timer ids are. */
  lemma ToPublicForgetsOnlyTimer(m1: StoredMetadata, m2: StoredMetadata)
    ensures m1 == m2 <==> ToPublic(m1) == ToPublic(m2) && m1.timerId == m2.timerId
  {
    if ToPublic(m1) == ToPublic(m2) && m1.timerId == m2.timerId {
      assert m1.origin == ToPublic(m1).origin == ToPublic(m2).origin == m2.origin;
    }
  }

  /** The entry after `update_oracle_metadata`'s field writes: each field from
      the update when it is `Some`, the timer id from `newTimer` when it is
      `Some`, the old value otherwise. */
  function Patched(m: StoredMetadata, patch: UpdateOracleMetadata, newTimer: Option<TimerId>): StoredMetadata {
    StoredMetadata(
      patch.origin.GetOr(m.origin),
      patch.timestamp.GetOr(m.timerInterval),
      newTimer.GetOr(m.timerId),
      patch.evm.GetOr(m.evm))
  }

  /** An origin different from `o`. */
  function OtherOrigin(o: Origin): (r: Origin)
    ensures r != o
  {
    if o == HttpOrigin("", "") then HttpOrigin(".", "") else HttpOrigin("", "")
  }

  /** `is_none` holds exactly when the update (with no new timer) leaves every
      entry as it was. */
  lemma IsNoneIffIdentity(patch: UpdateOracleMetadata)
    ensures patch.IsNone() <==> forall m :: Patched(m, patch, None) == m
  {
    if !patch.IsNone() {
      var origin := if patch.origin.Some? then OtherOrigin(patch.origin.value) else HttpOrigin("", "");
      var interval := if patch.timestamp.Some? then patch.timestamp.value + 1 else 0;
      var dest := EvmDestination(0, Provider(0, ""));
      var evm := if patch.evm.Some? then dest.(contract := patch.evm.value.contract + 1) else dest;
      var m := StoredMetadata(origin, interval, 0, evm);
      assert Patched(m, patch, None) != m;
    }
  }

  /** Applying the same update twice is applying it once. */
  lemma PatchedIdempotent(m: StoredMetadata, patch: UpdateOracleMetadata, newTimer: Option<TimerId>)
    ensures Patched(Patched(m, patch, newTimer), patch, newTimer) == Patched(m, patch, newTimer)
  {
  }

  // ---------------------------------------------------------------------------
  // The registry as a value
  // ---------------------------------------------------------------------------

  type Users = map<Address, map<Address, StoredMetadata>>

  /** No user is kept without an oracle. */
  predicate NoEmptyUsers(users: Users) {
    forall u :: u in users ==> users[u] != map[]
  }

  /** The oracles of `user`; none when the user is unknown. */
  function OraclesOf(users: Users, user: Address): map<Address, StoredMetadata> {
    if user in users then users[user] else map[]
  }

  /** The lookup shared by every getter: `UserNotFound` for an unknown user,
      `OracleNotFound` for a known user without that contract. */
  function Lookup(users: Users, user: Address, contract: Address): (r: Result<StoredMetadata, Error>)
    ensures r.Ok? <==> user in users && contract in users[user]
    ensures r.Ok? ==> r.value == users[user][contract]
    ensures r.Err? ==> r.error == (if user in users then OracleNotFound else UserNotFound)
  {
    if user !in users then Err(UserNotFound)
    else if contract !in users[user] then Err(OracleNotFound)
    else Ok(users[user][contract])
  }

  /** The registry after `add_oracle`: the entry is put under the user and the
      destination's contract address, replacing an earlier one there. */
  function WithOracle(users: Users, user: Address, m: StoredMetadata): Users {
    users[user := OraclesOf(users, user)[m.evm.contract := m]]
  }

  /** The registry after removing an existing oracle; a user left with no
      oracle is dropped. */
  function WithoutOracle(users: Users, user: Address, contract: Address): Users
    requires user in users
  {
    var rest := users[user] - {contract};
    if rest == map[] then users - {user} else users[user := rest]
  }

  /** The registry after patching an existing oracle in place. */
  function WithPatch(users: Users, user: Address, contract: Address, newTimer: Option<TimerId>,
                     patch: UpdateOracleMetadata): Users
    requires Lookup(users, user, contract).Ok?
  {
    var oracles: map<Address, StoredMetadata> := users[user][contract := Patched(users[user][contract], patch, newTimer)];
    users[user := oracles]
  }

  /** After adding, the entry is found under (user, contract); every other
      (user, contract) looks up as before, so oracles of the same user under
      other contracts are kept and the same key never holds two entries. */
  lemma AddThenLookup(users: Users, user: Address, m: StoredMetadata)
    ensures Lookup(WithOracle(users, user, m), user, m.evm.contract) == Ok(m)
    ensures forall u: Address, c: Address :: (u, c) != (user, m.evm.contract) && Lookup(users, u, c).Ok? ==>
      Lookup(WithOracle(users, user, m), u, c) == Lookup(users, u, c)
    ensures forall u: Address, c: Address :: u != user ==> Lookup(WithOracle(users, user, m), u, c) == Lookup(users, u, c)
    ensures WithOracle(users, user, m)[user].Keys == OraclesOf(users, user).Keys + {m.evm.contract}
    ensures NoEmptyUsers(users) ==> NoEmptyUsers(WithOracle(users, user, m))
  {
    var after := WithOracle(users, user, m);
    assert m.evm.contract in after[user];
  }

  /** After removing, the oracle is gone: the lookup gives `UserNotFound`
      when it was the user's last one and `OracleNotFound` otherwise; every
      other oracle is kept, and no user is left without oracles. */
  lemma RemoveThenLookup(users: Users, user: Address, contract: Address)
    requires Lookup(users, user, contract).Ok?
    ensures users[user].Keys == {contract} ==>
      Lookup(WithoutOracle(users, user, contract), user, contract) == Err(UserNotFound)
    ensures users[user].Keys != {contract} ==>
      Lookup(WithoutOracle(users, user, contract), user, contract) == Err(OracleNotFound)
    ensures forall u: Address, c: Address :: u != user ==>
      Lookup(WithoutOracle(users, user, contract), u, c) == Lookup(users, u, c)
    ensures forall c: Address :: c != contract && c in users[user] ==>
      Lookup(WithoutOracle(users, user, contract), user, c) == Ok(users[user][c])
    ensures NoEmptyUsers(users) ==> NoEmptyUsers(WithoutOracle(users, user, contract))
  {
    var rest := users[user] - {contract};
    if rest == map[] {
      assert rest.Keys == users[user].Keys - {contract} == {};
      assert users[user].Keys == {contract};
    } else {
      var c :| c in rest;
      assert c in users[user] && c != contract;
    }
  }

  /** After patching, the entry stays under the contract it was found by
      (even if the update names another destination) and holds the patched
      metadata; nothing else changes and no key is added or dropped. */
  lemma PatchThenLookup(users: Users, user: Address, contract: Address, newTimer: Option<TimerId>,
                        patch: UpdateOracleMetadata)
    requires Lookup(users, user, contract).Ok?
    ensures Lookup(WithPatch(users, user, contract, newTimer, patch), user, contract) ==
      Ok(Patched(users[user][contract], patch, newTimer))
    ensures forall u: Address, c: Address :: (u, c) != (user, contract) ==>
      Lookup(WithPatch(users, user, contract, newTimer, patch), u, c) == Lookup(users, u, c)
    ensures WithPatch(users, user, contract, newTimer, patch).Keys == users.Keys
    ensures WithPatch(users, user, contract, newTimer, patch)[user].Keys == users[user].Keys
    ensures NoEmptyUsers(users) ==> NoEmptyUsers(WithPatch(users, user, contract, newTimer, patch))
  {
    var after := WithPatch(users, user, contract, newTimer, patch);
    assert contract in after[user];
  }

  /** An empty registry knows no user. */
  lemma ClearedLookup(user: Address, contract: Address)
    ensures Lookup(map[], user, contract) == Err(UserNotFound)
  {
  }

  // ---------------------------------------------------------------------------
  // Ordered listings (the registry's maps iterate in ascending key order)
  // ---------------------------------------------------------------------------

  predicate StrictlyIncreasing(keys: seq<Address>) {
    forall i, j :: 0 <= i < j < |keys| ==> keys[i] < keys[j]
  }

  /** The least element of a non-empty set of addresses. */
  method Least(s: set<Address>) returns (k: Address)
    requires s != {}
    ensures k in s && forall j :: j in s ==> k <= j
  {
    k :| k in s;
    var todo := s - {k};
    while todo != {}
      invariant todo <= s && k in s
      invariant forall j :: j in s && j !in todo ==> k <= j
      decreases todo
    {
      var j :| j in todo;
      if j < k {
        k := j;
      }
      todo := todo - {j};
    }
  }

  /** The elements of `s`, in ascending order. */
  method SortedKeys(s: set<Address>) returns (keys: seq<Address>)
    ensures StrictlyIncreasing(keys)
    ensures forall k :: k in keys <==> k in s
  {
    var rest := s;
    keys := [];
    while rest != {}
      invariant rest <= s
      invariant StrictlyIncreasing(keys)
      invariant forall k :: k in keys ==> k in s && k !in rest
      invariant forall k :: k in s ==> k in keys || k in rest
      invariant forall i, j :: 0 <= i < |keys| && j in rest ==> keys[i] < j
      decreases rest
    {
      var k := Least(rest);
      keys := keys + [k];
      rest := rest - {k};
    }
  }

  // ---------------------------------------------------------------------------
  // The storage
  // ---------------------------------------------------------------------------

  class OracleStorage {
    /** ORACLE_STORAGE: user address to the user's oracles by contract. */
    var users: Users

    predicate Valid()
      reads this
    {
      NoEmptyUsers(users)
    }

    constructor ()
      ensures users == map[] && Valid()
    {
      users := map[];
    }

    /** `add_oracle`: stores the oracle under the user and its destination's
        contract, replacing any earlier one there. */
    method AddOracle(user: Address, origin: Origin, timestamp: nat, timerId: TimerId, evm: EvmDestination)
      modifies this
      ensures users == WithOracle(old(users), user, StoredMetadata(origin, timestamp, timerId, evm))
      ensures old(Valid()) ==> Valid()
    {
      var metadata := StoredMetadata(origin, timestamp, timerId, evm);
      var oracles := if user in users then users[user] else map[];
      oracles := oracles[evm.contract := metadata];
      users := users[user := oracles];
      AddThenLookup(old(users), user, metadata);
    }

    /** `get_oracle_by_address`: the public view of the oracle, or the lookup
        error. */
    method GetOracleByAddress(user: Address, contract: Address) returns (r: Result<OracleMetadata, Error>)
      ensures r.Ok? <==> user in users && contract in users[user]
      ensures r.Ok? ==> r.value == ToPublic(users[user][contract])
      ensures r.Err? ==> r.error == Lookup(users, user, contract).error
    {
      if user !in users {
        return Err(UserNotFound);
      }
      var oracles := users[user];
      if contract !in oracles {
        return Err(OracleNotFound);
      }
      r := Ok(ToPublic(oracles[contract]));
    }

    /** `get_timer_id_by_address`: the oracle's timer id, or the lookup error. */
    method GetTimerIdByAddress(user: Address, contract: Address) returns (r: Result<TimerId, Error>)
      ensures r.Ok? <==> user in users && contract in users[user]
      ensures r.Ok? ==> r.value == users[user][contract].timerId
      ensures r.Err? ==> r.error == Lookup(users, user, contract).error
    {
      if user !in users {
        return Err(UserNotFound);
      }
      var oracles := users[user];
      if contract !in oracles {
        return Err(OracleNotFound);
      }
      r := Ok(oracles[contract].timerId);
    }

    /** `get_user_oracles`: the user's (contract, view) pairs in ascending
        contract order, each contract once; `UserNotFound` for an unknown
        user. */
    method GetUserOracles(user: Address) returns (r: Result<seq<(Address, OracleMetadata)>, Error>)
      ensures r.Err? <==> user !in users
      ensures r.Err? ==> r.error == UserNotFound
      ensures r.Ok? ==>
        && (forall i, j :: 0 <= i < j < |r.value| ==> r.value[i].0 < r.value[j].0)
        && (forall i :: 0 <= i < |r.value| ==>
              r.value[i].0 in users[user] && r.value[i].1 == ToPublic(users[user][r.value[i].0]))
        && (forall c :: c in users[user] ==> exists i :: 0 <= i < |r.value| && r.value[i].0 == c)
    {
      if user !in users {
        return Err(UserNotFound);
      }
      var oracles := users[user];
      var keys := SortedKeys(oracles.Keys);
      var entries: seq<(Address, OracleMetadata)> := [];
      for i := 0 to |keys|
        invariant |entries| == i
        invariant forall k :: 0 <= k < i ==> entries[k] == (keys[k], ToPublic(oracles[keys[k]]))
      {
        entries := entries + [(keys[i], ToPublic(oracles[keys[i]]))];
      }
      forall c | c in oracles ensures exists i :: 0 <= i < |entries| && entries[i].0 == c {
        var i :| 0 <= i < |keys| && keys[i] == c;
        assert entries[i].0 == c;
      }
      r := Ok(entries);
    }

    /** `get_oracles`: one element per stored user, in ascending user order,
        holding the public view of each of the user's oracles. */
    method GetOracles() returns (r: seq<(Address, map<Address, OracleMetadata>)>)
      ensures forall i, j :: 0 <= i < j < |r| ==> r[i].0 < r[j].0
      ensures forall u :: u in users <==> exists i :: 0 <= i < |r| && r[i].0 == u
      ensures forall i :: 0 <= i < |r| ==>
        r[i].0 in users && r[i].1 == map c | c in users[r[i].0] :: ToPublic(users[r[i].0][c])
      ensures Valid() ==> forall i :: 0 <= i < |r| ==> r[i].1 != map[]
    {
      var keys := SortedKeys(users.Keys);
      r := [];
      for i := 0 to |keys|
        invariant |r| == i
        invariant forall k :: 0 <= k < i ==> r[k] == (keys[k], map c | c in users[keys[k]] :: ToPublic(users[keys[k]][c]))
      {
        var oracles := users[keys[i]];
        r := r + [(keys[i], map c | c in oracles :: ToPublic(oracles[c]))];
      }
      forall u | u in users ensures exists i :: 0 <= i < |r| && r[i].0 == u {
        var i :| 0 <= i < |keys| && keys[i] == u;
        assert r[i].0 == u;
      }
      if Valid() {
        forall i | 0 <= i < |r| ensures r[i].1 != map[] {
          var c :| c in users[r[i].0];
          assert c in r[i].1;
        }
      }
    }

    /** `remove_oracle_by_address`: the lookup error with nothing changed, or
        the registry without the oracle (and without the user if that was
        its last one). */
    method RemoveOracleByAddress(user: Address, contract: Address) returns (r: Result<(), Error>)
      modifies this
      ensures Lookup(old(users), user, contract).Err? ==>
        r == Err(Lookup(old(users), user, contract).error) && users == old(users)
      ensures Lookup(old(users), user, contract).Ok? ==>
        r == Ok(()) && users == WithoutOracle(old(users), user, contract)
      ensures old(Valid()) ==> Valid()
    {
      if user !in users {
        return Err(UserNotFound);
      }
      var oracles := users[user];
      if contract !in oracles {
        return Err(OracleNotFound);
      }
      oracles := oracles - {contract};
      if oracles == map[] {
        users := users - {user};
      } else {
        users := users[user := oracles];
      }
      r := Ok(());
      RemoveThenLookup(old(users), user, contract);
    }

    /** `update_oracle_metadata`: the lookup error with nothing changed, or the
        entry patched in place under the same key. */
    method UpdateOracleMetadata(user: Address, contract: Address, newTimer: Option<TimerId>,
                                patch: UpdateOracleMetadata)
      returns (r: Result<(), Error>)
      modifies this
      ensures Lookup(old(users), user, contract).Err? ==>
        r == Err(Lookup(old(users), user, contract).error) && users == old(users)
      ensures Lookup(old(users), user, contract).Ok? ==>
        r == Ok(()) && users == WithPatch(old(users), user, contract, newTimer, patch)
      ensures old(Valid()) ==> Valid()
    {
      if user !in users {
        return Err(UserNotFound);
      }
      var oracles := users[user];
      if contract !in oracles {
        return Err(OracleNotFound);
      }
      var metadata := oracles[contract];
      if patch.origin.Some? {
        metadata := metadata.(origin := patch.origin.value);
      }
      if patch.timestamp.Some? {
        metadata := metadata.(timerInterval := patch.timestamp.value);
      }
      if patch.evm.Some? {
        metadata := metadata.(evm := patch.evm.value);
      }
      if newTimer.Some? {
        metadata := metadata.(timerId := newTimer.value);
      }
      users := users[user := oracles[contract := metadata]];
      r := Ok(());
      PatchThenLookup(old(users), user, contract, newTimer, patch);
    }

    /** `clear`: forgets every oracle. */
    method Clear()
      modifies this
      ensures users == map[] && Valid()
    {
      users := map[];
    }
  }
}
