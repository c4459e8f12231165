/**
 * The cache of derived protocol parameters
 * (sdk/core/src/common/engine.ts, `protocolPublicParametersOf`): a map in
 * insertion order, the entry used last at its end. A derivation is a promise:
 * it is kept at once, and may fail at any later time.
 */
module ParametersCache {
  import opened Common
  import opened Bytes

  const CACHE_SIZE: nat := 16

  /** What a derivation is made from. A reconfiguration of no bytes is none. */
  datatype Outputs = Outputs(mock: bool, curve: nat, networkDkg: seq<u8>, reconfiguration: Option<seq<u8>>)

  /** An entry's key: the outputs by their digests. */
  datatype CacheKey = CacheKey(mock: bool, curve: nat, networkDkg: Bytes32, reconfiguration: Option<Bytes32>)

  function Normalized(outputs: Outputs): Outputs {
    if outputs.reconfiguration == Some([]) then outputs.(reconfiguration := None) else outputs
  }

  function KeyOf(digest: seq<u8> -> Bytes32, outputs: Outputs): CacheKey {
    var plain := Normalized(outputs);
    CacheKey(plain.mock, plain.curve, digest(plain.networkDkg),
             if plain.reconfiguration.Some? then Some(digest(plain.reconfiguration.value)) else None)
  }

  /** The digest does not collide on the outputs of the two. */
  predicate NoCollision(digest: seq<u8> -> Bytes32, a: Outputs, b: Outputs) {
    && (digest(a.networkDkg) == digest(b.networkDkg) ==> a.networkDkg == b.networkDkg)
    && (a.reconfiguration.Some? && b.reconfiguration.Some?
          && digest(a.reconfiguration.value) == digest(b.reconfiguration.value) ==>
          a.reconfiguration == b.reconfiguration)
  }

  /** No reconfiguration, or one of no bytes. */
  predicate NoBytes(reconfiguration: Option<seq<u8>>) { reconfiguration.None? || reconfiguration.value == [] }

  /**
   * Two connections share a derivation if and only if they are of one mode,
   * one curve, one network output and one reconfiguration, where none and one
   * of no bytes are the same.
   */
  lemma SameKeySameOutputs(digest: seq<u8> -> Bytes32, a: Outputs, b: Outputs)
    requires NoCollision(digest, a, b)
    ensures KeyOf(digest, a) == KeyOf(digest, b) <==>
              && a.mock == b.mock && a.curve == b.curve && a.networkDkg == b.networkDkg
              && (a.reconfiguration == b.reconfiguration
                  || (NoBytes(a.reconfiguration) && NoBytes(b.reconfiguration)))
  {
  }

  /** The mode and the curve are told apart whatever the digest does. */
  lemma SameKeySameMode(digest: seq<u8> -> Bytes32, a: Outputs, b: Outputs)
    requires KeyOf(digest, a) == KeyOf(digest, b)
    ensures a.mock == b.mock && a.curve == b.curve && digest(a.networkDkg) == digest(b.networkDkg)
    ensures NoBytes(a.reconfiguration) <==> NoBytes(b.reconfiguration)
    ensures !NoBytes(a.reconfiguration) ==> digest(a.reconfiguration.value) == digest(b.reconfiguration.value)
  {
  }

  /** An entry: its key, and the number of its derivation. */
  datatype Entry = Entry(key: CacheKey, derivation: nat)

  predicate HasKey(entries: seq<Entry>, key: CacheKey) {
    exists i | 0 <= i < |entries| :: entries[i].key == key
  }

  /** Where `key` stands, or the number of entries. */
  function PlaceOf(entries: seq<Entry>, key: CacheKey): (at: nat)
    ensures at <= |entries|
    ensures at < |entries| ==> entries[at].key == key
    ensures forall i | 0 <= i < at :: entries[i].key != key
  {
    if entries == [] || entries[0].key == key then 0 else 1 + PlaceOf(entries[1..], key)
  }

  /** The entries without `key`, in their order. */
  function Without(entries: seq<Entry>, key: CacheKey): seq<Entry> {
    var at := PlaceOf(entries, key);
    if at == |entries| then entries else entries[..at] + entries[at + 1..]
  }

  /** The entries stand in the order of their last use, the most recent at the end, each key once. */
  predicate Recent(entries: seq<Entry>, used: map<CacheKey, nat>) {
    && (forall i | 0 <= i < |entries| :: entries[i].key in used)
    && forall i, j | 0 <= i < j < |entries| :: used[entries[i].key] < used[entries[j].key]
  }

  lemma WithoutIsRecent(entries: seq<Entry>, key: CacheKey, used: map<CacheKey, nat>)
    requires Recent(entries, used)
    ensures Recent(Without(entries, key), used)
    ensures forall e :: e in Without(entries, key) <==> e in entries && e.key != key
  {
    var at, rest := PlaceOf(entries, key), Without(entries, key);
    if at < |entries| {
      forall i | 0 <= i < |rest| ensures rest[i] == entries[if i < at then i else i + 1] {}
      forall i | 0 <= i < |entries| && i != at ensures entries[i].key != key && entries[i] in rest {
        assert entries[i] == rest[if i < at then i else i - 1];
      }
    }
  }

  /** The key used last moves to, or is put at, the end. */
  lemma AppendedIsRecent(entries: seq<Entry>, e: Entry, used: map<CacheKey, nat>, calls: nat)
    requires Recent(entries, used) && (forall k <- used :: used[k] < calls)
    requires forall x <- entries :: x.key != e.key
    ensures Recent(entries + [e], used[e.key := calls])
  {
    forall i | 0 <= i < |entries| ensures entries[i].key != e.key { assert entries[i] in entries; }
  }

  /** Every entry is a derivation of its own key that has not failed. */
  ghost predicate Kept(digest: seq<u8> -> Bytes32, entries: seq<Entry>, derivations: seq<Outputs>, failed: set<nat>) {
    && (forall d <- failed :: d < |derivations|)
    && forall i | 0 <= i < |entries| ::
         && entries[i].derivation < |derivations| && entries[i].derivation !in failed
         && KeyOf(digest, derivations[entries[i].derivation]) == entries[i].key
  }

  lemma KeptOf(digest: seq<u8> -> Bytes32, entries: seq<Entry>, some: seq<Entry>, derivations: seq<Outputs>, failed: set<nat>)
    requires Kept(digest, entries, derivations, failed) && forall e <- some :: e in entries
    ensures Kept(digest, some, derivations, failed)
  {
    forall i | 0 <= i < |some| ensures some[i] in entries {}
  }

  lemma KeptWithNew(digest: seq<u8> -> Bytes32, entries: seq<Entry>, derivations: seq<Outputs>, failed: set<nat>, outputs: Outputs)
    requires Kept(digest, entries, derivations, failed)
    ensures Kept(digest, entries + [Entry(KeyOf(digest, outputs), |derivations|)], derivations + [Normalized(outputs)], failed)
  {
  }

  class Cache {
    const digest: seq<u8> -> Bytes32
    var entries: seq<Entry>
    /** The outputs each derivation was started from, by number, and those that failed. */
    var derivations: seq<Outputs>
    var failed: set<nat>
    /** When each key was used last, by the number of calls made. */
    ghost var used: map<CacheKey, nat>
    ghost var calls: nat

    ghost predicate Valid() reads this {
      && |entries| <= CACHE_SIZE
      && Kept(digest, entries, derivations, failed)
      && Recent(entries, used)
      && (forall k <- used :: used[k] < calls)
    }

    constructor (digest: seq<u8> -> Bytes32)
      ensures Valid() && this.digest == digest && entries == []
    {
      this.digest := digest;
      entries, derivations, failed, used, calls := [], [], {}, map[], 0;
    }

    /** The derivation kept for `key`, if any. */
    method Find(key: CacheKey) returns (found: Option<nat>)
      requires Valid()
      ensures match found
              case Some(derivation) => Entry(key, derivation) in entries
              case None => !HasKey(entries, key)
    {
      for i := 0 to |entries|
        invariant forall j | 0 <= j < i :: entries[j].key != key
      {
        if entries[i].key == key {
          return Some(entries[i].derivation);
        }
      }
      return None;
    }

    /** `protocolPublicParametersOf`: the derivation kept for the outputs, or a new one. */
    method Get(outputs: Outputs) returns (derivation: nat)
      requires Valid()
      modifies this
      ensures Valid() && failed == old(failed) && |entries| <= 16
      ensures derivation < |derivations| && (derivation == |old(derivations)| || derivation !in failed)
      ensures KeyOf(digest, derivations[derivation]) == KeyOf(digest, outputs)
      ensures derivations[derivation].mock == outputs.mock && derivations[derivation].curve == outputs.curve
      ensures entries != [] && entries[|entries| - 1] == Entry(KeyOf(digest, outputs), derivation)
      ensures HasKey(old(entries), KeyOf(digest, outputs)) ==>
                && derivations == old(derivations) && Entry(KeyOf(digest, outputs), derivation) in old(entries)
                && entries[..|entries| - 1] == Without(old(entries), KeyOf(digest, outputs))
      ensures !HasKey(old(entries), KeyOf(digest, outputs)) ==>
                && derivation == |old(derivations)| && derivations == old(derivations) + [derivations[derivation]]
                && derivations[derivation].networkDkg == outputs.networkDkg
                && derivations[derivation].reconfiguration ==
                     (if NoBytes(outputs.reconfiguration) then None else outputs.reconfiguration)
                && entries[..|entries| - 1] ==
                     if |old(entries)| == 16 then old(entries)[1..] else old(entries)
    {
      var key := KeyOf(digest, outputs);
      var found := Find(key);
      if found.Some? {
        derivation := found.value;
        Refresh(Entry(key, derivation));
      } else {
        derivation := |derivations|;
        Insert(outputs, key);
      }
      SameKeySameMode(digest, derivations[derivation], outputs);
    }

    /** The entry of a hit moves to the end. */
    method Refresh(entry: Entry)
      requires Valid() && entry in entries
      modifies this`entries, this`used, this`calls
      ensures Valid() && entries == Without(old(entries), entry.key) + [entry]
    {
      WithoutIsRecent(entries, entry.key, used);
      AppendedIsRecent(Without(entries, entry.key), entry, used, calls);
      KeptOf(digest, entries, Without(entries, entry.key) + [entry], derivations, failed);
      entries := Without(entries, entry.key) + [entry];
      used, calls := used[entry.key := calls], calls + 1;
    }

    /** A new derivation goes to the end; beyond the size, the entry used longest ago goes. */
    method Insert(outputs: Outputs, key: CacheKey)
      requires Valid() && key == KeyOf(digest, outputs) && !HasKey(entries, key)
      modifies this`entries, this`derivations, this`used, this`calls
      ensures Valid() && derivations == old(derivations) + [Normalized(outputs)]
      ensures entries == (if |old(entries)| == CACHE_SIZE then old(entries)[1..] else old(entries))
                           + [Entry(key, |old(derivations)|)]
    {
      var entry := Entry(key, |derivations|);
      AppendedIsRecent(entries, entry, used, calls);
      KeptWithNew(digest, entries, derivations, failed, outputs);
      derivations := derivations + [Normalized(outputs)];
      entries := entries + [entry];
      used, calls := used[key := calls], calls + 1;
      if |entries| > CACHE_SIZE {
        KeptOf(digest, entries, entries[1..], derivations, failed);
        entries := entries[1..];
      }
    }

    /** A derivation fails, at any time: whatever its key holds then is dropped. */
    method Fails(derivation: nat)
      requires Valid() && derivation < |derivations| && derivation !in failed
      modifies this
      ensures Valid() && derivations == old(derivations) && failed == old(failed) + {derivation}
      ensures entries == Without(old(entries), KeyOf(digest, derivations[derivation]))
      ensures forall e <- entries :: e.derivation != derivation
    {
      var key := KeyOf(digest, derivations[derivation]);
      WithoutIsRecent(entries, key, used);
      KeptOf(digest, entries, Without(entries, key), derivations, failed);
      entries := Without(entries, key);
      failed := failed + {derivation};
    }
  }
}
