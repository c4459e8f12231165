/**
 * Program derived addresses (sdk/solana/src/addresses.ts, and the Solana
 * calls the governance programs make). `derive` is one candidate address of
 * a byte string, or none when the candidate lies on the curve; nothing is
 * assumed of it, not even that it never collides.
 */
module ProgramAddresses {
  import opened Common
  import opened Bytes

  type Derive = seq<u8> -> Option<Key>

  /** A program as its address calls show it: one candidate address, and the canonical address with its bump. */
  datatype Program = Program(derive: Derive, find: seq<u8> -> Option<(Key, u8)>)

  /** `find` gives addresses that `derive` gives. */
  ghost predicate Coherent(p: Program) {
    forall seeds, key, bump | p.find(seeds) == Some((key, bump)) :: p.derive(seeds + [bump]) == Some(key)
  }

  /** The first bump from `bump` downward whose candidate is an address. */
  function FindFrom(derive: Derive, seeds: seq<u8>, bump: int): Option<(Key, u8)>
    requires -1 <= bump <= 255
    decreases bump + 1
  {
    if bump < 0 then None
    else
      match derive(seeds + [bump])
      case Some(key) => Some((key, bump))
      case None => FindFrom(derive, seeds, bump - 1)
  }

  lemma {:induction false} FindFromIsHighest(derive: Derive, seeds: seq<u8>, bump: int)
    requires -1 <= bump <= 255
    ensures match FindFrom(derive, seeds, bump)
            case Some((key, b)) =>
              && b <= bump && derive(seeds + [b]) == Some(key)
              && forall higher: u8 :: b < higher <= bump ==> derive(seeds + [higher]).None?
            case None => forall b: u8 :: b <= bump ==> derive(seeds + [b]).None?
    decreases bump + 1
  {
    if bump >= 0 && derive(seeds + [bump]).None? {
      FindFromIsHighest(derive, seeds, bump - 1);
    }
  }

  /** The canonical address of `seeds` and its bump: the highest bump that gives one. */
  function Canonical(derive: Derive, seeds: seq<u8>): Option<(Key, u8)> {
    FindFrom(derive, seeds, 255)
  }

  /** The program whose canonical addresses `find_program_address` finds. */
  function ProgramOf(derive: Derive): Program {
    Program(derive, seeds => Canonical(derive, seeds))
  }

  lemma ProgramOfIsCoherent(derive: Derive)
    ensures Coherent(ProgramOf(derive))
  {
    forall seeds, key, bump | ProgramOf(derive).find(seeds) == Some((key, bump))
      ensures derive(seeds + [bump]) == Some(key)
    {
      CanonicalIsHighest(derive, seeds, key, bump);
    }
  }

  /** A canonical bump gives its address, and no higher bump gives any. */
  lemma CanonicalIsHighest(derive: Derive, seeds: seq<u8>, key: Key, bump: u8)
    requires Canonical(derive, seeds) == Some((key, bump))
    ensures derive(seeds + [bump]) == Some(key)
    ensures forall higher: u8 :: bump < higher ==> derive(seeds + [higher]).None?
  {
    FindFromIsHighest(derive, seeds, 255);
  }

  /** `find_program_address`, counting the bump down. */
  method FindProgramAddress(derive: Derive, seeds: seq<u8>) returns (found: Option<(Key, u8)>)
    ensures found == Canonical(derive, seeds)
  {
    var bump: int := 255;
    while bump >= 0
      invariant -1 <= bump <= 255
      invariant Canonical(derive, seeds) == FindFrom(derive, seeds, bump)
    {
      var candidate := derive(seeds + [bump]);
      if candidate.Some? {
        return Some((candidate.value, bump));
      }
      bump := bump - 1;
    }
    return None;
  }
}
