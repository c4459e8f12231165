/**
 * The network's attestations: the fields of each kind, the BCS bytes the
 * network signs (sdk/core/src/grpc/bcs.ts), and the exact decoding of those
 * bytes (sdk/core/src/grpc/attestation-record.ts).
 */
module Attestations {
  import opened Common
  import opened Bytes
  import opened VariableLength

  /** An enum of empty variants is written as one byte when it has no more than 128. */
  type Variants = n: nat | n <= 128

  /**
   * A field's type. `Short` and `Long` are byte vectors, which an account
   * stores with a one- or a two-byte length; `Index` is the variant of an
   * enum of empty variants; a `Holder` is a scheme's variant and a 32-byte key.
   */
  datatype Field =
    | Fixed(size: nat)
    | Short
    | Long
    | Flag
    | Index(count: Variants)
    | Holder
    | Optional(inner: Field)

  datatype Value = Of(bytes: seq<u8>) | Absent | Present(value: Value)

  datatype Kind = DWallet | Presign | PartialUserSignature | EncryptedShare | PublicShare

  const SCHEMES: Variants := 3
  const CURVES: Variants := 4

  /** The fields of each kind after the version, in BCS order. */
  function Fields(kind: Kind): seq<Field> {
    match kind
    case DWallet =>
      [Fixed(32), Short, Index(CURVES), Short, Long, Flag, Optional(Long), Optional(Holder),
       Optional(Fixed(32)), Optional(Fixed(32)), Fixed(8)]
    case Presign =>
      [Fixed(32), Fixed(8), Short, Long, Index(CURVES), Index(8), Optional(Short), Short]
    case PartialUserSignature =>
      [Fixed(32), Short, Short, Fixed(32), Fixed(32), Short, Fixed(32), Fixed(32), Fixed(32), Index(7), Long]
    case EncryptedShare =>
      [Fixed(32), Short, Short, Fixed(32), Fixed(32), Holder, Fixed(32)]
    case PublicShare =>
      [Fixed(32), Short, Short, Long, Fixed(32)]
  }

  /** A value BCS can write for a field. */
  predicate WellFormed(f: Field, v: Value) {
    match f
    case Fixed(size) => v.Of? && |v.bytes| == size
    case Short => v.Of?
    case Long => v.Of?
    case Flag => v.Of? && |v.bytes| == 1 && v.bytes[0] <= 1
    case Index(count) => v.Of? && |v.bytes| == 1 && v.bytes[0] < count
    case Holder => v.Of? && |v.bytes| == 33 && v.bytes[0] < SCHEMES
    case Optional(inner) => v.Absent? || (v.Present? && WellFormed(inner, v.value))
  }

  /** The BCS bytes of a field. */
  function Encode(f: Field, v: Value): seq<u8> {
    match v
    case Absent => [0]
    case Present(inner) => [1] + (if f.Optional? then Encode(f.inner, inner) else [])
    case Of(bytes) => if f.Short? || f.Long? then Uleb(|bytes|) + bytes else bytes
  }

  // ── Lists of fields ──────────────────────────────────────────────────────

  type Writer = (Field, Value) -> seq<u8>
  type Reader = (Field, seq<u8>) -> Option<(Value, seq<u8>)>

  function WriteAll(write: Writer, fs: seq<Field>, vs: seq<Value>): seq<u8>
    requires |fs| == |vs|
  {
    if fs == [] then [] else write(fs[0], vs[0]) + WriteAll(write, fs[1..], vs[1..])
  }

  /** The fields read one after the other, and what follows the last. */
  function ReadAll(read: Reader, fs: seq<Field>, bytes: seq<u8>): (all: Option<(seq<Value>, seq<u8>)>)
    ensures all.Some? ==> |all.value.0| == |fs|
  {
    if fs == [] then Some(([], bytes))
    else
      match read(fs[0], bytes)
      case None => None
      case Some((v, rest)) =>
        match ReadAll(read, fs[1..], rest)
        case None => None
        case Some((vs, end)) => Some(([v] + vs, end))
  }

  /** The values read so far, then whatever the rest reads as. */
  function Then(vs: seq<Value>, later: Option<(seq<Value>, seq<u8>)>): Option<(seq<Value>, seq<u8>)> {
    match later
    case Some((ws, rest)) => Some((vs + ws, rest))
    case None => None
  }

  predicate All(ok: (Field, Value) -> bool, fs: seq<Field>, vs: seq<Value>) {
    |fs| == |vs| && forall i | 0 <= i < |fs| :: ok(fs[i], vs[i])
  }

  /** Of the `plain` values, exactly the `ok` ones are read back, whatever follows them. */
  ghost predicate ReadsBack(read: Reader, write: Writer, plain: (Field, Value) -> bool, ok: (Field, Value) -> bool) {
    forall f, v, rest | plain(f, v) ::
      read(f, write(f, v) + rest) == if ok(f, v) then Some((v, rest)) else None
  }

  lemma {:induction false} WrittenAreRead(read: Reader, write: Writer, plain: (Field, Value) -> bool,
                                          ok: (Field, Value) -> bool, fs: seq<Field>, vs: seq<Value>, rest: seq<u8>)
    requires ReadsBack(read, write, plain, ok) && All(plain, fs, vs)
    ensures ReadAll(read, fs, WriteAll(write, fs, vs) + rest) == if All(ok, fs, vs) then Some((vs, rest)) else None
  {
    if fs == [] {
      assert WriteAll(write, fs, vs) + rest == rest;
    } else {
      var tail := WriteAll(write, fs[1..], vs[1..]) + rest;
      assert WriteAll(write, fs, vs) + rest == write(fs[0], vs[0]) + tail;
      assert plain(fs[0], vs[0]);
      WrittenAreRead(read, write, plain, ok, fs[1..], vs[1..], rest);
      AllOneMore(ok, fs, vs);
      assert [vs[0]] + vs[1..] == vs;
    }
  }

  lemma AllOneMore(ok: (Field, Value) -> bool, fs: seq<Field>, vs: seq<Value>)
    requires |fs| == |vs| > 0
    ensures All(ok, fs, vs) <==> ok(fs[0], vs[0]) && All(ok, fs[1..], vs[1..])
  {
    if All(ok, fs[1..], vs[1..]) && ok(fs[0], vs[0]) {
      forall i | 0 <= i < |fs| ensures ok(fs[i], vs[i]) {
        if i > 0 { assert ok(fs[1..][i - 1], vs[1..][i - 1]); }
      }
    }
  }

  /** What was read before `rest` is written in no more bytes, and in as many only when they are the same. */
  predicate NoLess(bytes: seq<u8>, written: seq<u8>, rest: seq<u8>) {
    && |written| + |rest| <= |bytes|
    && (|written| + |rest| == |bytes| ==> bytes == written + rest)
  }

  lemma NoLessTwice(bytes: seq<u8>, first: seq<u8>, middle: seq<u8>, second: seq<u8>, rest: seq<u8>)
    requires NoLess(bytes, first, middle) && NoLess(middle, second, rest)
    ensures NoLess(bytes, first + second, rest)
  {
    assert first + (second + rest) == first + second + rest;
  }

  lemma NoLessOf(bytes: seq<u8>, size: nat)
    requires size <= |bytes|
    ensures NoLess(bytes, bytes[..size], bytes[size..])
  {
  }

  ghost predicate ReadsNoLess(read: Reader, write: Writer, ok: (Field, Value) -> bool) {
    forall f, bytes | read(f, bytes).Some? ::
      ok(f, read(f, bytes).value.0) && NoLess(bytes, write(f, read(f, bytes).value.0), read(f, bytes).value.1)
  }

  lemma {:induction false} ReadAreWritten(read: Reader, write: Writer, ok: (Field, Value) -> bool, fs: seq<Field>, bytes: seq<u8>)
    requires ReadsNoLess(read, write, ok) && ReadAll(read, fs, bytes).Some?
    ensures
      var (vs, rest) := ReadAll(read, fs, bytes).value;
      All(ok, fs, vs) && NoLess(bytes, WriteAll(write, fs, vs), rest)
  {
    if fs != [] {
      var (v, rest) := read(fs[0], bytes).value;
      ReadAreWritten(read, write, ok, fs[1..], rest);
      var (vs, end) := ReadAll(read, fs[1..], rest).value;
      var all := [v] + vs;
      assert ReadAll(read, fs, bytes) == Some((all, end)) && all[1..] == vs;
      AllOneMore(ok, fs, all);
      NoLessTwice(bytes, write(fs[0], v), rest, WriteAll(write, fs[1..], vs), end);
    } else {
      assert bytes == WriteAll(write, fs, []) + bytes;
    }
  }

  // ── Parsing BCS ──────────────────────────────────────────────────────────

  function TakeBytes(size: nat, data: seq<u8>): Option<(Value, seq<u8>)> {
    if |data| < size then None else Some((Of(data[..size]), data[size..]))
  }

  /** One field at the start of `bytes`; a length or a variant written with padding is accepted. */
  function Parse(f: Field, bytes: seq<u8>): Option<(Value, seq<u8>)> {
    match f
    case Fixed(size) => TakeBytes(size, bytes)
    case Short => ParseVector(bytes)
    case Long => ParseVector(bytes)
    case Flag => if |bytes| < 1 || bytes[0] > 1 then None else TakeBytes(1, bytes)
    case Index(count) => ParseIndex(count, bytes)
    case Holder =>
      (match ParseIndex(SCHEMES, bytes)
       case None => None
       case Some((scheme, rest)) =>
         if |rest| < 32 then None else Some((Of(scheme.bytes + rest[..32]), rest[32..])))
    case Optional(inner) =>
      (match ParseIndex(2, bytes)
       case None => None
       case Some((tag, rest)) =>
         if tag.bytes[0] == 0 then Some((Absent, rest))
         else
           match Parse(inner, rest)
           case Some((v, end)) => Some((Present(v), end))
           case None => None)
  }

  function ParseVector(bytes: seq<u8>): Option<(Value, seq<u8>)> {
    match ReadUleb(bytes)
    case Some((length, rest)) => TakeBytes(length, rest)
    case None => None
  }

  function ParseIndex(count: Variants, bytes: seq<u8>): (parsed: Option<(Value, seq<u8>)>)
    ensures parsed.Some? ==> parsed.value.0.Of? && |parsed.value.0.bytes| == 1 && parsed.value.0.bytes[0] < count
  {
    match ReadUleb(bytes)
    case Some((index, rest)) => if index < count then Some((Of([index]), rest)) else None
    case None => None
  }

  lemma TakenBytes(bytes: seq<u8>, rest: seq<u8>)
    ensures TakeBytes(|bytes|, bytes + rest) == Some((Of(bytes), rest))
  {
    assert (bytes + rest)[..|bytes|] == bytes && (bytes + rest)[|bytes|..] == rest;
  }

  /** A byte below 128 is its own ULEB128. */
  lemma IndexParses(count: Variants, index: u8, rest: seq<u8>)
    requires index < 128
    ensures ParseIndex(count, [index] + rest) == if index < count then Some((Of([index]), rest)) else None
  {
    assert Uleb(index) == [index];
    UlebReads(index, rest);
  }

  lemma VectorParses(value: seq<u8>, rest: seq<u8>)
    ensures ParseVector(Uleb(|value|) + value + rest) == Some((Of(value), rest))
  {
    assert Uleb(|value|) + value + rest == Uleb(|value|) + (value + rest);
    UlebReads(|value|, value + rest);
    TakenBytes(value, rest);
  }

  /** A value of the field's shape, of any variant below 128. */
  predicate Plain(f: Field, v: Value) {
    match f
    case Index(_) => v.Of? && |v.bytes| == 1 && v.bytes[0] < 128
    case Holder => v.Of? && |v.bytes| == 33 && v.bytes[0] < 128
    case Optional(inner) => v.Absent? || (v.Present? && Plain(inner, v.value))
    case _ => WellFormed(f, v)
  }

  /** Of the plain values, exactly those BCS can write are parsed back. */
  lemma {:induction false} PlainParses(f: Field, v: Value, rest: seq<u8>)
    requires Plain(f, v)
    ensures Parse(f, Encode(f, v) + rest) == if WellFormed(f, v) then Some((v, rest)) else None
  {
    var bytes := Encode(f, v) + rest;
    match f
    case Short => VectorParses(v.bytes, rest);
    case Long => VectorParses(v.bytes, rest);
    case Index(count) =>
      assert v.bytes == [v.bytes[0]];
      IndexParses(count, v.bytes[0], rest);
    case Holder =>
      var key := v.bytes[1..];
      assert bytes == [v.bytes[0]] + (key + rest) && [v.bytes[0]] + key == v.bytes;
      IndexParses(SCHEMES, v.bytes[0], key + rest);
      TakenBytes(key, rest);
    case Optional(inner) =>
      if v.Absent? {
        IndexParses(2, 0, rest);
      } else {
        assert bytes == [1] + (Encode(inner, v.value) + rest);
        IndexParses(2, 1, Encode(inner, v.value) + rest);
        PlainParses(inner, v.value, rest);
      }
    case _ => TakenBytes(v.bytes, rest);
  }

  lemma IndexNoLess(count: Variants, bytes: seq<u8>)
    requires ParseIndex(count, bytes).Some?
    ensures NoLess(bytes, ParseIndex(count, bytes).value.0.bytes, ParseIndex(count, bytes).value.1)
  {
    Minimal(bytes);
  }

  lemma VectorNoLess(bytes: seq<u8>)
    requires ParseVector(bytes).Some?
    ensures
      var (v, rest) := ParseVector(bytes).value;
      v.Of? && NoLess(bytes, Uleb(|v.bytes|) + v.bytes, rest)
  {
    Minimal(bytes);
    var (length, tail) := ReadUleb(bytes).value;
    NoLessOf(tail, length);
    NoLessTwice(bytes, Uleb(length), tail, tail[..length], tail[length..]);
  }

  lemma HolderNoLess(bytes: seq<u8>)
    requires Parse(Holder, bytes).Some?
    ensures
      var (v, rest) := Parse(Holder, bytes).value;
      WellFormed(Holder, v) && NoLess(bytes, v.bytes, rest)
  {
    IndexNoLess(SCHEMES, bytes);
    var (scheme, tail) := ParseIndex(SCHEMES, bytes).value;
    NoLessOf(tail, 32);
    NoLessTwice(bytes, scheme.bytes, tail, tail[..32], tail[32..]);
  }

  lemma {:induction false} ParsesNoLess(f: Field, bytes: seq<u8>)
    requires Parse(f, bytes).Some?
    ensures
      var (v, rest) := Parse(f, bytes).value;
      WellFormed(f, v) && NoLess(bytes, Encode(f, v), rest)
  {
    match f
    case Short => VectorNoLess(bytes);
    case Long => VectorNoLess(bytes);
    case Index(count) => IndexNoLess(count, bytes);
    case Holder => HolderNoLess(bytes);
    case Optional(inner) =>
      IndexNoLess(2, bytes);
      var (tag, tail) := ParseIndex(2, bytes).value;
      assert tag.bytes == [tag.bytes[0]];
      if tag.bytes[0] != 0 {
        ParsesNoLess(inner, tail);
        NoLessTwice(bytes, [1], tail, Encode(inner, Parse(inner, tail).value.0), Parse(inner, tail).value.1);
      }
    case Fixed(size) => NoLessOf(bytes, size);
    case Flag => NoLessOf(bytes, 1);
  }

  lemma ParseReadsBack()
    ensures ReadsBack(Parse, Encode, Plain, WellFormed)
    ensures ReadsNoLess(Parse, Encode, WellFormed)
  {
    forall f, v, rest | Plain(f, v)
      ensures Parse(f, Encode(f, v) + rest) == if WellFormed(f, v) then Some((v, rest)) else None
    {
      PlainParses(f, v, rest);
    }
    forall f, bytes | Parse(f, bytes).Some?
      ensures WellFormed(f, Parse(f, bytes).value.0)
      ensures NoLess(bytes, Encode(f, Parse(f, bytes).value.0), Parse(f, bytes).value.1)
    {
      ParsesNoLess(f, bytes);
    }
  }

  lemma {:induction false} WellFormedIsPlain(f: Field, v: Value)
    requires WellFormed(f, v)
    ensures Plain(f, v)
  {
    if f.Optional? && v.Present? {
      WellFormedIsPlain(f.inner, v.value);
    }
  }

  lemma AllWellFormedArePlain(fs: seq<Field>, vs: seq<Value>)
    requires All(WellFormed, fs, vs)
    ensures All(Plain, fs, vs)
  {
    forall i | 0 <= i < |fs| ensures Plain(fs[i], vs[i]) {
      assert WellFormed(fs[i], vs[i]);
      WellFormedIsPlain(fs[i], vs[i]);
    }
  }

  // ── Exact decoding ───────────────────────────────────────────────────────

  /** An attestation's fields laid out as BCS after the version byte, 0 for version 1. */
  function LaidOut(kind: Kind, vs: seq<Value>): seq<u8>
    requires |vs| == |Fields(kind)|
  {
    [0] + WriteAll(Encode, Fields(kind), vs)
  }

  /** A parse of the versioned attestation: its variant, then the fields; what is left over is not looked at. */
  function ParseAttestation(kind: Kind, bytes: seq<u8>): (vs: Option<seq<Value>>)
    ensures vs.Some? ==> |vs.value| == |Fields(kind)|
  {
    match ParseIndex(1, bytes)
    case None => None
    case Some((_, rest)) =>
      match ReadAll(Parse, Fields(kind), rest)
      case Some((vs, _)) => Some(vs)
      case None => None
  }

  /** `decodeExactly`: the parse succeeds, and serializing its result gives back every byte. */
  function DecodeExactly(kind: Kind, bytes: seq<u8>): (decoded: Option<seq<Value>>) {
    match ParseAttestation(kind, bytes)
    case Some(vs) => if LaidOut(kind, vs) == bytes then Some(vs) else None
    case None => None
  }

  /** Fields of plain values parse back exactly when BCS can write them. */
  lemma PlainAttestation(kind: Kind, vs: seq<Value>, rest: seq<u8>)
    requires All(Plain, Fields(kind), vs)
    ensures ParseAttestation(kind, LaidOut(kind, vs) + rest) ==
              if All(WellFormed, Fields(kind), vs) then Some(vs) else None
  {
    var tail := WriteAll(Encode, Fields(kind), vs) + rest;
    assert LaidOut(kind, vs) + rest == [0] + tail;
    IndexParses(1, 0, tail);
    ParseReadsBack();
    WrittenAreRead(Parse, Encode, Plain, WellFormed, Fields(kind), vs, rest);
  }

  /** A parsed attestation is one BCS can write, in no more bytes, and in as many only when they are the same. */
  lemma ParsedAttestation(kind: Kind, bytes: seq<u8>)
    requires ParseAttestation(kind, bytes).Some?
    ensures
      var vs := ParseAttestation(kind, bytes).value;
      && All(WellFormed, Fields(kind), vs)
      && |LaidOut(kind, vs)| <= |bytes|
      && (|LaidOut(kind, vs)| == |bytes| ==> LaidOut(kind, vs) == bytes)
  {
    var (tag, rest) := ParseIndex(1, bytes).value;
    IndexNoLess(1, bytes);
    assert tag.bytes == [0];
    ParseReadsBack();
    ReadAreWritten(Parse, Encode, WellFormed, Fields(kind), rest);
    var (vs, end) := ReadAll(Parse, Fields(kind), rest).value;
    NoLessTwice(bytes, [0], rest, WriteAll(Encode, Fields(kind), vs), end);
    if |LaidOut(kind, vs)| == |bytes| {
      assert LaidOut(kind, vs) + end == LaidOut(kind, vs);
    }
  }

  /**
   * Exactly the bytes BCS writes for some fields decode, and they decode as
   * those fields: padding and left-over bytes never do.
   */
  lemma DecodesExactly(kind: Kind, bytes: seq<u8>, vs: seq<Value>)
    ensures DecodeExactly(kind, bytes) == Some(vs) <==>
              All(WellFormed, Fields(kind), vs) && bytes == LaidOut(kind, vs)
  {
    if DecodeExactly(kind, bytes) == Some(vs) {
      ParsedAttestation(kind, bytes);
    }
    if All(WellFormed, Fields(kind), vs) && bytes == LaidOut(kind, vs) {
      AllWellFormedArePlain(Fields(kind), vs);
      PlainAttestation(kind, vs, []);
      assert bytes + [] == bytes;
    }
  }

  /** No attestation's bytes are another's of its kind, nor the start of another's. */
  lemma AttestationsDiffer(kind: Kind, a: seq<Value>, b: seq<Value>, rest: seq<u8>)
    requires All(WellFormed, Fields(kind), a) && All(WellFormed, Fields(kind), b)
    requires LaidOut(kind, a) + rest == LaidOut(kind, b)
    ensures a == b && rest == []
  {
    AllWellFormedArePlain(Fields(kind), a);
    AllWellFormedArePlain(Fields(kind), b);
    PlainAttestation(kind, a, rest);
    PlainAttestation(kind, b, []);
    assert LaidOut(kind, b) + [] == LaidOut(kind, b);
  }
}
