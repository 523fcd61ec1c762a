/**
 * Storage of currency pairs: a map from pair id to the pair's data (price and
 * timestamp), and a map from pair id to the address of the pair's price-feed
 * contract.
 */
module PairStore {
  import opened Types

  /** A pair id, `base-quote` in lower case. */
  type Id = string

  datatype Pair = Pair(baseCurrency: string, quoteCurrency: string)

  datatype PairData = PairData(pair: Pair, price: nat, timestamp: nat)

  // ---------------------------------------------------------------------------
  // Pair ids
  // ---------------------------------------------------------------------------

  /** Lower-case mapping of one character (ASCII letters only). */
  function LowerChar(c: char): char {
    if 'A' <= c <= 'Z' then (c as int + 32) as char else c
  }

  /** `str::to_lowercase`, restricted to ASCII letters. */
  function Lower(s: string): string {
    if s == [] then [] else [LowerChar(s[0])] + Lower(s[1..])
  }

  predicate IsLower(s: string) {
    forall i :: 0 <= i < |s| ==> !('A' <= s[i] <= 'Z')
  }

  /** Two characters that are equal or the upper- and lower-case forms of the
      same ASCII letter. */
  predicate CaseVariants(x: char, y: char) {
    || x == y
    || ('A' <= x <= 'Z' && y as int == x as int + 32)
    || ('A' <= y <= 'Z' && x as int == y as int + 32)
  }

  /** Two strings that differ at most in the case of their ASCII letters. */
  predicate SameUpToCase(a: string, b: string) {
    |a| == |b| && forall i :: 0 <= i < |a| ==> CaseVariants(a[i], b[i])
  }

  /** `Pair::id`: lower-cased base, a dash, lower-cased quote. */
  function PairId(p: Pair): (id: Id)
    ensures var n := |p.baseCurrency|;
      && |id| == n + 1 + |p.quoteCurrency|
      && id[n] == '-'
      && SameUpToCase(id[..n], p.baseCurrency) && IsLower(id[..n])
      && SameUpToCase(id[n + 1..], p.quoteCurrency) && IsLower(id[n + 1..])
  {
    LowerSpec(p.baseCurrency);
    LowerSpec(p.quoteCurrency);
    var id := Lower(p.baseCurrency) + "-" + Lower(p.quoteCurrency);
    assert id[..|p.baseCurrency|] == Lower(p.baseCurrency);
    assert id[|p.baseCurrency| + 1..] == Lower(p.quoteCurrency);
    id
  }

  /** Lower-casing keeps the length, turns each upper-case letter into its own
      lower case, leaves no upper-case letter, and changes nothing else. */
  lemma {:induction false} LowerSpec(s: string)
    ensures |Lower(s)| == |s|
    ensures IsLower(Lower(s))
    ensures forall i :: 0 <= i < |s| && 'A' <= s[i] <= 'Z' ==> Lower(s)[i] == (s[i] as int + 32) as char
    ensures forall i :: 0 <= i < |s| && !('A' <= s[i] <= 'Z') ==> Lower(s)[i] == s[i]
  {
    if s != [] {
      LowerSpec(s[1..]);
      var r := Lower(s);
      assert r == [LowerChar(s[0])] + Lower(s[1..]);
      forall i | 0 <= i < |s| ensures r[i] == LowerChar(s[i]) {
        if i > 0 { assert r[i] == Lower(s[1..])[i - 1] && s[i] == s[1..][i - 1]; }
      }
    }
  }

  /** A string with no upper-case letter is its own lower case. */
  lemma LowerOfLower(s: string)
    requires IsLower(s)
    ensures Lower(s) == s
  {
    LowerSpec(s);
  }

  lemma {:induction false} LowerConcat(a: string, b: string)
    ensures Lower(a + b) == Lower(a) + Lower(b)
  {
    if a == [] {
      assert a + b == b;
    } else {
      assert (a + b)[1..] == a[1..] + b;
      LowerConcat(a[1..], b);
    }
  }

  /** Two strings have the same lower case exactly when they differ only in
      case. */
  lemma LowerEqualIffSameUpToCase(a: string, b: string)
    ensures Lower(a) == Lower(b) <==> SameUpToCase(a, b)
  {
    LowerSpec(a);
    LowerSpec(b);
    if SameUpToCase(a, b) {
      forall i | 0 <= i < |a| ensures Lower(a)[i] == Lower(b)[i] {
        assert CaseVariants(a[i], b[i]);
      }
    }
    if Lower(a) == Lower(b) {
      forall i | 0 <= i < |a| ensures CaseVariants(a[i], b[i]) {
        assert Lower(a)[i] == Lower(b)[i];
      }
    }
  }

  /** Pair ids are already lower case, and two pairs whose currencies differ
      only in case have the same id. */
  lemma PairIdIsCaseInsensitive(p: Pair, q: Pair)
    requires SameUpToCase(p.baseCurrency, q.baseCurrency)
    requires SameUpToCase(p.quoteCurrency, q.quoteCurrency)
    ensures PairId(p) == PairId(q)
    ensures Lower(PairId(p)) == PairId(p)
  {
    LowerEqualIffSameUpToCase(p.baseCurrency, q.baseCurrency);
    LowerEqualIffSameUpToCase(p.quoteCurrency, q.quoteCurrency);
    LowerSpec(p.baseCurrency);
    LowerSpec(p.quoteCurrency);
    LowerConcat(Lower(p.baseCurrency), "-");
    LowerConcat(Lower(p.baseCurrency) + "-", Lower(p.quoteCurrency));
    LowerOfLower(Lower(p.baseCurrency));
    LowerOfLower(Lower(p.quoteCurrency));
    assert Lower("-") == "-";
  }

  /** The keys of a map, each once, in the map's iteration order (left open). */
  method Enumerate<V>(m: map<Id, V>) returns (ids: seq<Id>)
    ensures forall i, j :: 0 <= i < j < |ids| ==> ids[i] != ids[j]
    ensures forall i :: 0 <= i < |ids| ==> ids[i] in m
    ensures forall id :: id in m ==> id in ids
  {
    var rest := m.Keys;
    ids := [];
    while rest != {}
      invariant rest <= m.Keys
      invariant forall i, j :: 0 <= i < j < |ids| ==> ids[i] != ids[j]
      invariant forall i :: 0 <= i < |ids| ==> ids[i] in m && ids[i] !in rest
      invariant forall id :: id in m ==> id in ids || id in rest
      decreases rest
    {
      var id :| id in rest;
      ids := ids + [id];
      rest := rest - {id};
    }
  }

  // ---------------------------------------------------------------------------
  // The storage
  // ---------------------------------------------------------------------------

  class PairStorage {
    /** PAIR_STORAGE: pair id to pair data. */
    var pairs: map<Id, PairData>
    /** PAIR_MAP_ADDRESS: pair id to the pair's price-feed contract. */
    var addresses: map<Id, Address>

    constructor ()
      ensures pairs == map[] && addresses == map[]
    {
      pairs := map[];
      addresses := map[];
    }

    /** The pair stored under `id`, or `PairNotFound`. */
    method Get(id: Id) returns (r: Result<Pair, Error>)
      ensures r.Ok? <==> id in pairs
      ensures r.Ok? ==> r.value == pairs[id].pair
      ensures r.Err? ==> r.error == PairNotFound
    {
      if id in pairs {
        r := Ok(pairs[id].pair);
      } else {
        r := Err(PairNotFound);
      }
    }

    /** Sets or overwrites the contract address of `id`; pair data is untouched. */
    method AddAddress(id: Id, address: Address)
      modifies this
      ensures addresses == old(addresses)[id := address]
      ensures pairs == old(pairs)
    {
      addresses := addresses[id := address];
    }

    method CheckPairExists(id: Id) returns (exists_: bool)
      ensures exists_ <==> id in pairs
    {
      exists_ := id in pairs;
    }

    /** Adds a pair under a fresh id; an id already present is refused and
        nothing changes. */
    method AddPair(id: Id, pair: Pair, timestamp: nat, price: nat) returns (r: Result<(), Error>)
      modifies this
      ensures old(id in pairs) ==> r == Err(PairAlreadyExists) && pairs == old(pairs)
      ensures old(id !in pairs) ==> r == Ok(()) && pairs == old(pairs)[id := PairData(pair, price, timestamp)]
      ensures addresses == old(addresses)
    {
      var present := CheckPairExists(id);
      if present {
        return Err(PairAlreadyExists);
      }
      pairs := pairs[id := PairData(pair, price, timestamp)];
      r := Ok(());
    }

    /** Removes `id` from both maps; a missing id is `PairNotFound` and nothing
        changes. */
    method RemovePair(id: Id) returns (r: Result<(), Error>)
      modifies this
      ensures old(id !in pairs) ==> r == Err(PairNotFound) && pairs == old(pairs) && addresses == old(addresses)
      ensures old(id in pairs) ==> r == Ok(()) && pairs == old(pairs) - {id} && addresses == old(addresses) - {id}
    {
      var present := CheckPairExists(id);
      if !present {
        return Err(PairNotFound);
      }
      pairs := pairs - {id};
      addresses := addresses - {id};
      r := Ok(());
    }

    /** Every stored pair, once each; `ids` names the key each came from. */
    method AllPairs() returns (r: seq<Pair>, ghost ids: seq<Id>)
      ensures |r| == |ids|
      ensures forall i, j :: 0 <= i < j < |ids| ==> ids[i] != ids[j]
      ensures forall i :: 0 <= i < |ids| ==> ids[i] in pairs && r[i] == pairs[ids[i]].pair
      ensures forall id :: id in pairs ==> id in ids
    {
      var keys := Enumerate(pairs);
      ids := keys;
      r := [];
      for i := 0 to |keys|
        invariant |r| == i
        invariant forall k :: 0 <= k < i ==> r[k] == pairs[keys[k]].pair
      {
        r := r + [pairs[keys[i]].pair];
      }
    }

    /** Every (pair, address) for the ids of the address map. Looking up the
        pair of an id that has an address but no pair data panics, so every
        such id must have pair data. */
    method AllPairsWithAddress() returns (r: seq<(Pair, Address)>, ghost ids: seq<Id>)
      requires addresses.Keys <= pairs.Keys
      ensures |r| == |ids|
      ensures forall i, j :: 0 <= i < j < |ids| ==> ids[i] != ids[j]
      ensures forall i :: 0 <= i < |ids| ==> ids[i] in addresses && r[i] == (pairs[ids[i]].pair, addresses[ids[i]])
      ensures forall id :: id in addresses ==> id in ids
    {
      var keys := Enumerate(addresses);
      ids := keys;
      r := [];
      for i := 0 to |keys|
        invariant |r| == i
        invariant forall k :: 0 <= k < i ==> r[k] == (pairs[keys[k]].pair, addresses[keys[k]])
      {
        var pair := Get(keys[i]);
        assert pair.Ok?;
        r := r + [(pair.value, addresses[keys[i]])];
      }
    }

    /** Replaces price and timestamp of a stored pair, keeping the pair itself;
        a missing id is `PairNotFound` and nothing changes. */
    method UpdatePair(id: Id, price: nat, timestamp: nat) returns (r: Result<(), Error>)
      modifies this
      ensures old(id !in pairs) ==> r == Err(PairNotFound) && pairs == old(pairs)
      ensures old(id in pairs) ==>
        r == Ok(()) && pairs == old(pairs)[id := PairData(old(pairs)[id].pair, price, timestamp)]
      ensures addresses == old(addresses)
    {
      if id !in pairs {
        return Err(PairNotFound);
      }
      var data := pairs[id];
      pairs := pairs[id := PairData(data.pair, price, timestamp)];
      r := Ok(());
    }

    /** Empties both maps. */
    method Clear()
      modifies this
      ensures pairs == map[] && addresses == map[]
    {
      pairs := map[];
      addresses := map[];
    }
  }
}
