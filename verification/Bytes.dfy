/** Byte strings, little-endian numbers, and writes in place. */
module Bytes {

  type u8 = b: int | 0 <= b < 256

  type Bytes32 = k: seq<u8> | |k| == 32 witness seq(32, _ => 0)

  /** A 32-byte address or digest. */
  datatype Key = Key(bytes: Bytes32)

  function Zeros(n: nat): (bytes: seq<u8>)
    ensures |bytes| == n && forall i | 0 <= i < n :: bytes[i] == 0
  {
    seq(n, _ => 0)
  }

  function Pow256(width: nat): (p: nat)
    ensures p > 0
  {
    if width == 0 then 1 else 256 * Pow256(width - 1)
  }

  function LittleEndian(value: nat, width: nat): (bytes: seq<u8>)
    ensures |bytes| == width
  {
    if width == 0 then [] else [value % 256] + LittleEndian(value / 256, width - 1)
  }

  function FromLittleEndian(bytes: seq<u8>): nat {
    if bytes == [] then 0 else bytes[0] + 256 * FromLittleEndian(bytes[1..])
  }

  lemma {:induction false} LittleEndianRoundTrip(value: nat, width: nat)
    requires value < Pow256(width)
    ensures FromLittleEndian(LittleEndian(value, width)) == value
  {
    if width > 0 {
      LittleEndianRoundTrip(value / 256, width - 1);
      var bytes := LittleEndian(value, width);
      assert bytes[1..] == LittleEndian(value / 256, width - 1);
    }
  }

  lemma {:induction false} FromLittleEndianRoundTrip(bytes: seq<u8>)
    ensures FromLittleEndian(bytes) < Pow256(|bytes|)
    ensures LittleEndian(FromLittleEndian(bytes), |bytes|) == bytes
  {
    if bytes != [] {
      FromLittleEndianRoundTrip(bytes[1..]);
      assert FromLittleEndian(bytes) / 256 == FromLittleEndian(bytes[1..]);
      assert FromLittleEndian(bytes) % 256 == bytes[0];
    }
  }

  /** The lowest byte comes first. */
  lemma LowestFirst(a: u8, b: u8, c: u8, d: u8)
    ensures FromLittleEndian([a, b]) == a + 0x100 * b
    ensures FromLittleEndian([a, b, c, d]) == a + 0x100 * b + 0x1_0000 * c + 0x100_0000 * d
  {
    Heads(a, [b]);
    Heads(b, []);
    Heads(a, [b, c, d]);
    Heads(b, [c, d]);
    Heads(c, [d]);
    Heads(d, []);
    assert [a] + [b] == [a, b] && [b] + [] == [b];
    assert [a] + [b, c, d] == [a, b, c, d] && [b] + [c, d] == [b, c, d];
    assert [c] + [d] == [c, d] && [d] + [] == [d];
  }

  lemma Heads(first: u8, rest: seq<u8>)
    ensures FromLittleEndian([first] + rest) == first + 0x100 * FromLittleEndian(rest)
  {
    assert ([first] + rest)[1..] == rest;
  }

  lemma Widths()
    ensures Pow256(1) == 0x100 && Pow256(2) == 0x1_0000 && Pow256(4) == 0x1_0000_0000
    ensures Pow256(8) == 0x1_0000_0000_0000_0000
  {
    assert Pow256(2) == 256 * Pow256(1);
    assert Pow256(3) == 256 * Pow256(2);
    assert Pow256(4) == 256 * Pow256(3);
    assert Pow256(5) == 256 * Pow256(4);
    assert Pow256(6) == 256 * Pow256(5);
    assert Pow256(7) == 256 * Pow256(6);
    assert Pow256(8) == 256 * Pow256(7);
  }

  /** `data` with `bytes` written over it from `at`. */
  function Overwrite(data: seq<u8>, at: nat, bytes: seq<u8>): (after: seq<u8>)
    requires at + |bytes| <= |data|
    ensures |after| == |data|
  {
    data[..at] + bytes + data[at + |bytes|..]
  }

  /** A write is read back, and every stretch beside it is as before. */
  lemma OverwriteReads(data: seq<u8>, at: nat, bytes: seq<u8>, from: nat, to: nat)
    requires at + |bytes| <= |data| && from <= to <= |data|
    ensures Overwrite(data, at, bytes)[at..at + |bytes|] == bytes
    ensures to <= at || at + |bytes| <= from ==> Overwrite(data, at, bytes)[from..to] == data[from..to]
  {
    var after := Overwrite(data, at, bytes);
    if to <= at || at + |bytes| <= from {
      assert forall i | from <= i < to :: after[i] == data[i];
    }
  }

  /** `copy_from_slice` into a buffer, from `at`. */
  method Write(buffer: array<u8>, at: nat, bytes: seq<u8>)
    requires at + |bytes| <= buffer.Length
    modifies buffer
    ensures buffer[..] == Overwrite(old(buffer[..]), at, bytes)
  {
    ghost var was := buffer[..];
    for i := 0 to |bytes|
      invariant buffer[..] == Overwrite(was, at, bytes[..i])
    {
      buffer[at + i] := bytes[i];
      assert bytes[..i + 1] == bytes[..i] + [bytes[i]];
    }
    assert bytes[..|bytes|] == bytes;
  }

  /** Bytes set into a buffer at the offset, and the offset moved past them. */
  method Append(buffer: array<u8>, offset: nat, bytes: seq<u8>) returns (next: nat)
    requires offset + |bytes| <= buffer.Length
    modifies buffer
    ensures next == offset + |bytes|
    ensures buffer[..next] == old(buffer[..offset]) + bytes
  {
    Write(buffer, offset, bytes);
    next := offset + |bytes|;
  }

  /** A fresh buffer holding a copy of `data`. */
  method Load(data: seq<u8>) returns (buffer: array<u8>)
    ensures fresh(buffer) && buffer[..] == data
  {
    buffer := new u8[|data|];
    for i := 0 to |data|
      invariant buffer[..i] == data[..i]
    {
      buffer[i] := data[i];
    }
  }
}
