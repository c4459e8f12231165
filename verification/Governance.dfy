/**
 * What the two governance programs share: the accounts they create, the
 * voucher they ask for, and lists of members
 * (examples/multisig/native/src/lib.rs, examples/voting/native/src/lib.rs).
 */
module Governance {
  import opened Common
  import opened Bytes
  import opened ProgramAddresses

  const MAX_MEMBERS: nat := 10

  /** The ASCII bytes of "signature_voucher". */
  const VOUCHER_SEED: seq<u8> :=
    [115, 105, 103, 110, 97, 116, 117, 114, 101, 95, 118, 111, 117, 99, 104, 101, 114]

  /** The voucher's address: of a transaction account, or of a proposal's identifier. */
  function VoucherSeeds(of: Key): seq<u8> { VOUCHER_SEED + of.bytes }

  /** A voucher the dWallet program issued for a program's CPI authority. */
  datatype Voucher = Voucher(
    dwallet: Key, messageDigest: Key, metadataDigest: Key, scheme: nat,
    owner: Option<Key>, signingKey: Option<Key>, future: bool)

  /** The accounts of the voucher call, and whether the dWallet program accepts it. */
  datatype VoucherCall = VoucherCall(voucher: Key, dwallet: Key, accepted: bool)

  /** An account the caller passes to be created, and whether it signed the transaction. */
  datatype NewAccount = NewAccount(key: Key, signs: bool)

  predicate IsCanonicalBump(p: Program, seeds: seq<u8>, bump: u8) {
    var found := p.find(seeds);
    found.Some? && found.value.1 == bump
  }

  method RequireCanonicalBump(derive: Derive, seeds: seq<u8>, bump: u8) returns (canonical: bool)
    ensures canonical <==> IsCanonicalBump(ProgramOf(derive), seeds, bump)
  {
    var found := FindProgramAddress(derive, seeds);
    canonical := found.Some? && found.value.1 == bump;
  }

  /**
   * An account is created when its address is empty and is either the derived
   * address of the seeds the program signs with, or an address that signed
   * the transaction itself: the programs do not compare the two.
   */
  predicate MayCreate(derive: Derive, taken: set<Key>, account: NewAccount, seeds: seq<u8>, bump: u8) {
    account.key !in taken && (derive(seeds + [bump]) == Some(account.key) || account.signs)
  }

  // ── Addresses as the Anchor framework checks them ────────────────────────

  /** The canonical bump of some seeds; the constraints refuse seeds without one. */
  function BumpOf(p: Program, seeds: seq<u8>): u8 {
    match p.find(seeds)
    case Some((_, bump)) => bump
    case None => 0
  }

  /** `init` with `seeds`: the canonical address, and an empty one. */
  method InitAddress(derive: Derive, taken: set<Key>, key: Key, seeds: seq<u8>) returns (bump: Option<u8>)
    ensures bump.Some? <==>
              var p, b := ProgramOf(derive), BumpOf(ProgramOf(derive), seeds);
              IsCanonicalBump(p, seeds, b) && MayCreate(derive, taken, NewAccount(key, false), seeds, b)
    ensures bump.Some? ==> bump.value == BumpOf(ProgramOf(derive), seeds) && ProgramOf(derive).find(seeds) == Some((key, bump.value))
  {
    var found := FindProgramAddress(derive, seeds);
    if found.None? {
      return None;
    }
    CanonicalIsHighest(derive, seeds, found.value.0, found.value.1);
    return if found.value.0 == key && key !in taken then Some(found.value.1) else None;
  }

  predicate Distinct(members: seq<Key>) {
    forall i, j | 0 <= i < j < |members| :: members[i] != members[j]
  }

  // ── Records at many addresses ────────────────────────────────────────────

  /** `after` holds `what` at every one of `keys`, and elsewhere what `before` holds. */
  ghost predicate Extended<V>(before: map<Key, V>, after: map<Key, V>, keys: seq<Key>, what: V) {
    forall x :: Entry(after, x) == if x in keys then Some(what) else Entry(before, x)
  }

  function Entry<V>(entries: map<Key, V>, k: Key): Option<V> {
    if k in entries then Some(entries[k]) else None
  }

  lemma ExtendedOneMore<V>(before: map<Key, V>, after: map<Key, V>, keys: seq<Key>, k: Key, what: V)
    requires Extended(before, after, keys, what)
    ensures Extended(before, after[k := what], keys + [k], what)
  {
    forall x ensures x in keys + [k] <==> x in keys || x == k {}
  }

  // ── Counting members ─────────────────────────────────────────────────────

  lemma {:induction false} SubsetIsNoLarger(a: set<Key>, b: set<Key>)
    requires a <= b
    ensures |a| <= |b|
    ensures |a| == |b| ==> a == b
  {
    assert |b| == |a| + |b - a| by { assert b == a + (b - a); }
    if |a| == |b| {
      assert b - a == {};
    }
  }

  lemma {:induction false} DistinctMembersCount(members: seq<Key>)
    requires Distinct(members)
    ensures |set m | m in members| == |members|
  {
    if members != [] {
      var last := members[|members| - 1];
      var rest := members[..|members| - 1];
      DistinctMembersCount(rest);
      assert members == rest + [last];
      assert (set m | m in members) == (set m | m in rest) + {last};
      assert last !in rest;
    }
  }
}
