/**
 * ULEB128 numbers (section 7.6 of DWARF Version 5): the encoding, its
 * decoder, and the SDK's two encoding loops (sdk/solana/src/instructions.ts,
 * sdk/solana/src/accounts.ts).
 */
module VariableLength {
  import opened Common
  import opened Bytes

  function Uleb(value: nat): (bytes: seq<u8>)
    ensures |bytes| > 0
  {
    if value < 128 then [value] else [value % 128 + 128] + Uleb(value / 128)
  }

  /** A number at the start of `bytes`, and what follows it; a padded number reads as well as a minimal one. */
  function ReadUleb(bytes: seq<u8>): (read: Option<(nat, seq<u8>)>)
    ensures read.Some? ==> |read.value.1| < |bytes| && read.value.1 == bytes[|bytes| - |read.value.1|..]
  {
    if bytes == [] then None
    else if bytes[0] < 128 then Some((bytes[0], bytes[1..]))
    else
      match ReadUleb(bytes[1..])
      case Some((high, rest)) => Some((bytes[0] - 128 + 128 * high, rest))
      case None => None
  }

  /** What is written is read back, whatever follows it. */
  lemma {:induction false} UlebReads(value: nat, rest: seq<u8>)
    ensures ReadUleb(Uleb(value) + rest) == Some((value, rest))
  {
    var bytes := Uleb(value) + rest;
    if value < 128 {
      assert bytes[1..] == rest;
    } else {
      UlebReads(value / 128, rest);
      assert bytes[1..] == Uleb(value / 128) + rest;
      assert bytes[0] - 128 + 128 * (value / 128) == value;
    }
  }

  /** Seven bits a byte, the lowest first: every byte but the last has its high bit set. */
  lemma {:induction false} UlebShape(value: nat)
    ensures forall i | 0 <= i < |Uleb(value)| - 1 :: Uleb(value)[i] >= 128
    ensures Uleb(value)[|Uleb(value)| - 1] < 128
    ensures Uleb(value)[0] % 128 == value % 128
    ensures value < 0x4000 ==> Uleb(value) == if value < 128 then [value] else [value % 128 + 128, value / 128]
  {
    if value >= 128 {
      UlebShape(value / 128);
      assert Uleb(value)[1..] == Uleb(value / 128);
    }
  }

  /** Two numbers with different continuations are never the same bytes. */
  lemma {:induction false} SelfDelimiting(a: nat, x: seq<u8>, b: nat, y: seq<u8>)
    requires Uleb(a) + x == Uleb(b) + y
    ensures a == b && x == y
  {
    UlebReads(a, x);
    UlebReads(b, y);
  }

  /** Every reading of a number takes at least the bytes it is written in, and exactly those when as few. */
  lemma {:induction false} Minimal(bytes: seq<u8>)
    requires ReadUleb(bytes).Some?
    ensures
      var (value, rest) := ReadUleb(bytes).value;
      && |Uleb(value)| + |rest| <= |bytes|
      && (|Uleb(value)| + |rest| == |bytes| ==> bytes == Uleb(value) + rest)
  {
    if bytes[0] >= 128 {
      Minimal(bytes[1..]);
      var (high, rest) := ReadUleb(bytes[1..]).value;
      assert bytes == [bytes[0]] + bytes[1..];
      MinimalWithLow(bytes[0] - 128, high, bytes[1..], rest);
    } else {
      assert bytes == [bytes[0]] + bytes[1..];
    }
  }

  lemma MinimalWithLow(low: nat, high: nat, tail: seq<u8>, rest: seq<u8>)
    requires low < 128 && |Uleb(high)| + |rest| <= |tail|
    requires |Uleb(high)| + |rest| == |tail| ==> tail == Uleb(high) + rest
    ensures
      var bytes, value := [low + 128] + tail, low + 128 * high;
      && |Uleb(value)| + |rest| <= |bytes|
      && (|Uleb(value)| + |rest| == |bytes| ==> bytes == Uleb(value) + rest)
  {
    HighAndLow(low, high);
    assert [low + 128] + (Uleb(high) + rest) == [low + 128] + Uleb(high) + rest;
  }

  lemma HighAndLow(low: nat, high: nat)
    requires low < 128
    ensures Uleb(low + 128 * high) == if high == 0 then [low] else [low + 128] + Uleb(high)
  {
    assert (low + 128 * high) / 128 == high && (low + 128 * high) % 128 == low;
  }

  /** A number below 2^7, 2^14, 2^21 and so on takes one byte, two, three. */
  lemma {:induction false} UlebLength(value: nat, k: nat)
    requires k > 0 && value < Power128(k)
    ensures |Uleb(value)| <= k
  {
    if value >= 128 {
      UlebLength(value / 128, k - 1);
    }
  }

  function Power128(k: nat): nat {
    if k == 0 then 1 else 128 * Power128(k - 1)
  }

  // ── The two loops ────────────────────────────────────────────────────────

  /** `uleb128`: the low seven bits, then the rest divided down, until nothing is left. */
  method WriteUleb(value: nat) returns (bytes: seq<u8>)
    ensures bytes == Uleb(value)
  {
    bytes := [];
    var rest, done := value, false;
    while !done
      invariant if done then bytes == Uleb(value) else bytes + Uleb(rest) == Uleb(value)
      decreases if done then 0 else rest + 1
    {
      var low := rest % 128;
      ghost var before := bytes + Uleb(rest);
      rest := rest / 128;
      bytes := bytes + [if rest == 0 then low else low + 128];
      done := rest == 0;
      assert before == if done then bytes else bytes + Uleb(rest);
    }
  }

  /** A JavaScript number as the signed 32-bit integer its bitwise operators work on. */
  function ToInt32(value: int): (i: int)
    ensures -0x8000_0000 <= i < 0x8000_0000
    ensures 0 <= value < 0x8000_0000 ==> i == value
  {
    var low := value % 0x1_0000_0000;
    if low < 0x8000_0000 then low else low - 0x1_0000_0000
  }

  /** `remaining >>= 7`. */
  function ShiftRight7(remaining: int): (shifted: int)
    ensures shifted < 0x8000_0000
    ensures 128 <= remaining < 0x8000_0000 ==> shifted == remaining / 128 < remaining
  {
    ToInt32(remaining) / 128
  }

  /** What the length loop writes from `remaining` on: a number below 128, negative ones among them, ends it. */
  function Shifted(remaining: int): seq<u8>
    decreases if remaining >= 0x8000_0000 then 1 else 0, remaining
  {
    if remaining < 128 then [remaining % 256]
    else [remaining % 128 + 128] + Shifted(ShiftRight7(remaining))
  }

  /**
   * The length loop of `bcsByteVector`, which shifts with `>>=`: below 2^31 it
   * writes the ULEB128 of the length, and from there on other bytes.
   */
  method WriteLength(length: nat) returns (bytes: seq<u8>)
    ensures bytes == Uleb(length) <==> length < 0x8000_0000
  {
    bytes := [];
    var remaining: int := length;
    while remaining >= 128
      invariant bytes + Shifted(remaining) == Shifted(length)
      decreases if remaining >= 0x8000_0000 then 1 else 0, remaining
    {
      ghost var before, was := bytes, remaining;
      bytes := bytes + [remaining % 128 + 128];
      assert before + Shifted(was) == bytes + Shifted(ShiftRight7(was));
      remaining := ShiftRight7(remaining);
    }
    bytes := bytes + [remaining % 256];
    ShiftedIsUleb(length);
  }

  lemma {:induction false} ShiftedBelow(remaining: nat)
    requires remaining < 0x8000_0000
    ensures Shifted(remaining) == Uleb(remaining)
  {
    if remaining >= 128 {
      ShiftedBelow(remaining / 128);
    }
  }

  lemma ShiftedIsUleb(length: nat)
    ensures Shifted(length) == Uleb(length) <==> length < 0x8000_0000
  {
    if length < 0x8000_0000 {
      ShiftedBelow(length);
    } else {
      var wrapped := ShiftRight7(length);
      assert Uleb(length)[1..] == Uleb(length / 128);
      assert Shifted(length)[1..] == Shifted(wrapped);
      if wrapped >= 0 {
        ShiftedBelow(wrapped);
        if Uleb(wrapped) == Uleb(length / 128) {
          SelfDelimiting(wrapped, [], length / 128, []);
        }
      } else {
        assert |Uleb(length / 128)| == 1 + |Uleb(length / 128 / 128)|;
      }
    }
  }
}
