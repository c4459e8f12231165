/**
 * Attestation accounts (sdk/solana/src/accounts.ts): the stored layout of an
 * attestation's fields, the reader that lays them out as BCS, and the bytes
 * an account is rebuilt into.
 */
module AttestationAccounts {
  import opened Common
  import opened Bytes
  import opened VariableLength
  import opened Attestations

  // ── The stored layout ────────────────────────────────────────────────────

  /** A value the account layout can hold: lengths fit, and no enum is looked into. */
  predicate Storable(f: Field, v: Value) {
    match f
    case Fixed(size) => v.Of? && |v.bytes| == size
    case Short => v.Of? && |v.bytes| < 0x100
    case Long => v.Of? && |v.bytes| < 0x1_0000
    case Flag => v.Of? && |v.bytes| == 1 && v.bytes[0] <= 1
    case Index(_) => v.Of? && |v.bytes| == 1
    case Holder => v.Of? && |v.bytes| == 33
    case Optional(inner) => v.Absent? || (v.Present? && Storable(inner, v.value))
  }

  /** A field as an account stores it. */
  function Store(f: Field, v: Value): seq<u8> {
    match v
    case Absent => [0]
    case Present(inner) => [1] + (if f.Optional? then Store(f.inner, inner) else [])
    case Of(bytes) =>
      if f.Short? then LittleEndian(|bytes|, 1) + bytes
      else if f.Long? then LittleEndian(|bytes|, 2) + bytes
      else bytes
  }

  /** One stored field at the start of `data`, and what follows it. */
  function Take(f: Field, data: seq<u8>): Option<(Value, seq<u8>)> {
    match f
    case Fixed(size) => TakeBytes(size, data)
    case Short => TakeValue(1, data)
    case Long => TakeValue(2, data)
    case Flag => if |data| < 1 || data[0] > 1 then None else TakeBytes(1, data)
    case Index(_) => TakeBytes(1, data)
    case Holder => TakeBytes(33, data)
    case Optional(inner) =>
      if |data| < 1 || data[0] > 1 then None
      else if data[0] == 0 then Some((Absent, data[1..]))
      else
        match Take(inner, data[1..])
        case Some((v, rest)) => Some((Present(v), rest))
        case None => None
  }

  /** A byte vector behind a length of `width` little-endian bytes. */
  function TakeValue(width: nat, data: seq<u8>): Option<(Value, seq<u8>)> {
    if |data| < width then None else TakeBytes(FromLittleEndian(data[..width]), data[width..])
  }

  lemma ValueIsTaken(width: nat, bytes: seq<u8>, rest: seq<u8>)
    requires |bytes| < Pow256(width)
    ensures TakeValue(width, LittleEndian(|bytes|, width) + bytes + rest) == Some((Of(bytes), rest))
  {
    LittleEndianRoundTrip(|bytes|, width);
    var data := LittleEndian(|bytes|, width) + bytes + rest;
    assert data[..width] == LittleEndian(|bytes|, width) && data[width..] == bytes + rest;
    TakenBytes(bytes, rest);
  }

  /** A stored field is read back, whatever follows it. */
  lemma {:induction false} StoredIsTaken(f: Field, v: Value, rest: seq<u8>)
    requires Storable(f, v)
    ensures Take(f, Store(f, v) + rest) == Some((v, rest))
  {
    Widths();
    match f
    case Short => ValueIsTaken(1, v.bytes, rest);
    case Long => ValueIsTaken(2, v.bytes, rest);
    case Optional(inner) =>
      if v.Present? {
        assert Store(f, v) + rest == [1] + (Store(inner, v.value) + rest);
        StoredIsTaken(inner, v.value, rest);
      }
    case _ => TakenBytes(v.bytes, rest);
  }

  lemma TakenValueIsStored(width: nat, data: seq<u8>)
    requires TakeValue(width, data).Some?
    ensures
      var (v, rest) := TakeValue(width, data).value;
      v.Of? && |v.bytes| < Pow256(width) && data == LittleEndian(|v.bytes|, width) + v.bytes + rest
  {
    FromLittleEndianRoundTrip(data[..width]);
    var length := FromLittleEndian(data[..width]);
    assert data == data[..width] + data[width..];
    assert data[width..] == data[width..][..length] + data[width..][length..];
  }

  /** What is read is a storable value, stored at the start of the data. */
  lemma {:induction false} TakenIsStored(f: Field, data: seq<u8>)
    requires Take(f, data).Some?
    ensures
      var (v, rest) := Take(f, data).value;
      Storable(f, v) && data == Store(f, v) + rest
  {
    Widths();
    match f
    case Short => TakenValueIsStored(1, data);
    case Long => TakenValueIsStored(2, data);
    case Optional(inner) =>
      assert data == [data[0]] + data[1..];
      if data[0] == 1 {
        TakenIsStored(inner, data[1..]);
        PresentIsStored(inner, data[1..]);
      }
    case Fixed(size) => assert data == data[..size] + data[size..];
    case Flag => assert data == data[..1] + data[1..];
    case Index(_) => assert data == data[..1] + data[1..];
    case Holder => assert data == data[..33] + data[33..];
  }

  lemma PresentIsStored(inner: Field, data: seq<u8>)
    requires Take(inner, data).Some?
    requires data == Store(inner, Take(inner, data).value.0) + Take(inner, data).value.1
    ensures
      var (v, rest) := Take(inner, data).value;
      [1] + data == Store(Optional(inner), Present(v)) + rest
  {
  }

  lemma TakeReadsBack()
    ensures ReadsBack(Take, Store, Storable, Storable)
    ensures ReadsNoLess(Take, Store, Storable)
  {
    forall f, v, rest | Storable(f, v)
      ensures Take(f, Store(f, v) + rest) == if Storable(f, v) then Some((v, rest)) else None
    {
      StoredIsTaken(f, v, rest);
    }
    forall f, data | Take(f, data).Some?
      ensures Storable(f, Take(f, data).value.0)
      ensures NoLess(data, Store(f, Take(f, data).value.0), Take(f, data).value.1)
    {
      TakenIsStored(f, data);
    }
  }

  /** The stored fields of `data`, when they end exactly at its end. */
  function TakeFields(kind: Kind, data: seq<u8>): (vs: Option<seq<Value>>)
    ensures vs.Some? ==> |vs.value| == |Fields(kind)|
  {
    match ReadAll(Take, Fields(kind), data)
    case Some((vs, rest)) => if rest == [] then Some(vs) else None
    case None => None
  }

  lemma WrittenOneMore(write: Writer, fs: seq<Field>, v: Value, vs: seq<Value>, end: seq<u8>)
    requires fs != [] && |vs| == |fs| - 1
    ensures WriteAll(write, fs, [v] + vs) + end == write(fs[0], v) + (WriteAll(write, fs[1..], vs) + end)
  {
    assert ([v] + vs)[1..] == vs;
  }

  lemma {:induction false} AllTakenAreStored(fs: seq<Field>, data: seq<u8>)
    requires ReadAll(Take, fs, data).Some?
    ensures
      var (vs, rest) := ReadAll(Take, fs, data).value;
      All(Storable, fs, vs) && data == WriteAll(Store, fs, vs) + rest
  {
    TakeReadsBack();
    ReadAreWritten(Take, Store, Storable, fs, data);
    if fs != [] {
      var (v, rest) := Take(fs[0], data).value;
      TakenIsStored(fs[0], data);
      AllTakenAreStored(fs[1..], rest);
      var (vs, end) := ReadAll(Take, fs[1..], rest).value;
      WrittenOneMore(Store, fs, v, vs, end);
    }
  }

  /** Exactly the stored layouts of storable values are read, and as those values: no byte is missing or left over. */
  lemma FieldsTaken(kind: Kind, data: seq<u8>, vs: seq<Value>)
    ensures TakeFields(kind, data) == Some(vs) <==>
              All(Storable, Fields(kind), vs) && data == WriteAll(Store, Fields(kind), vs)
  {
    if TakeFields(kind, data) == Some(vs) {
      AllTakenAreStored(Fields(kind), data);
      assert WriteAll(Store, Fields(kind), vs) + [] == WriteAll(Store, Fields(kind), vs);
    }
    if All(Storable, Fields(kind), vs) && data == WriteAll(Store, Fields(kind), vs) {
      TakeReadsBack();
      WrittenAreRead(Take, Store, Storable, Storable, Fields(kind), vs, []);
      assert data + [] == data;
    }
  }

  // ── The bytes an account is rebuilt into ─────────────────────────────────

  /** The fields laid out as BCS, parsed as the kind's attestation, and serialized again. */
  function Rebuilt(kind: Kind, vs: seq<Value>): Option<seq<u8>>
    requires |vs| == |Fields(kind)|
  {
    match ParseAttestation(kind, LaidOut(kind, vs))
    case Some(parsed) => Some(LaidOut(kind, parsed))
    case None => None
  }

  /** The attestation bytes of a stored field region. */
  function ReadFields(kind: Kind, region: seq<u8>): Option<seq<u8>> {
    match TakeFields(kind, region)
    case Some(vs) => Rebuilt(kind, vs)
    case None => None
  }

  /** An attestation that both BCS and the layout can hold. */
  predicate Attestable(kind: Kind, vs: seq<Value>) {
    All(WellFormed, Fields(kind), vs) && All(Storable, Fields(kind), vs)
  }

  /** Plain fields are rebuilt into exactly their own layout, when BCS can write them, and into nothing otherwise. */
  lemma PlainRebuilt(kind: Kind, vs: seq<Value>)
    requires All(Plain, Fields(kind), vs)
    ensures Rebuilt(kind, vs) == if All(WellFormed, Fields(kind), vs) then Some(LaidOut(kind, vs)) else None
  {
    PlainAttestation(kind, vs, []);
    assert LaidOut(kind, vs) + [] == LaidOut(kind, vs);
  }

  /** Writing any attestation in the stored layout and reading it back gives exactly its BCS bytes. */
  lemma StoredReadsAsItself(kind: Kind, vs: seq<Value>)
    requires Attestable(kind, vs)
    ensures ReadFields(kind, WriteAll(Store, Fields(kind), vs)) == Some(LaidOut(kind, vs))
  {
    FieldsTaken(kind, WriteAll(Store, Fields(kind), vs), vs);
    AllWellFormedArePlain(Fields(kind), vs);
    PlainRebuilt(kind, vs);
  }

  /** Every variant byte a region stores is below 128: what a reader can look at before it trusts the layout. */
  ghost predicate PlainRegion(kind: Kind, region: seq<u8>) {
    TakeFields(kind, region).Some? ==> All(Plain, Fields(kind), TakeFields(kind, region).value)
  }

  /** The region is exactly an attestation's layout, and the bytes exactly its BCS. */
  ghost predicate Exactly(kind: Kind, region: seq<u8>, bytes: seq<u8>) {
    exists vs :: Attestable(kind, vs) && region == WriteAll(Store, Fields(kind), vs) && bytes == LaidOut(kind, vs)
  }

  /** Without padding to read, a region is accepted exactly when it is an attestation's layout. */
  lemma PlainRegionsAreExact(kind: Kind, region: seq<u8>, bytes: seq<u8>)
    requires PlainRegion(kind, region)
    ensures ReadFields(kind, region) == Some(bytes) <==> Exactly(kind, region, bytes)
  {
    if ReadFields(kind, region) == Some(bytes) {
      var vs := TakeFields(kind, region).value;
      FieldsTaken(kind, region, vs);
      PlainRebuilt(kind, vs);
    }
    if Exactly(kind, region, bytes) {
      var vs :| Attestable(kind, vs) && region == WriteAll(Store, Fields(kind), vs) && bytes == LaidOut(kind, vs);
      StoredReadsAsItself(kind, vs);
    }
  }

  /** An accepted region is laid out as the very bytes it is rebuilt into exactly when it has no padding to read. */
  lemma RebuiltUnchanged(kind: Kind, region: seq<u8>)
    requires ReadFields(kind, region).Some?
    ensures ReadFields(kind, region).value == LaidOut(kind, TakeFields(kind, region).value) <==> PlainRegion(kind, region)
  {
    var vs := TakeFields(kind, region).value;
    FieldsTaken(kind, region, vs);
    var bytes := LaidOut(kind, vs);
    var parsed := ParseAttestation(kind, bytes).value;
    ParsedAttestation(kind, bytes);
    if LaidOut(kind, parsed) == bytes {
      SameLayout(Fields(kind), vs, parsed);
    }
    if PlainRegion(kind, region) {
      PlainRebuilt(kind, vs);
    }
  }

  /** Storable values laid out as BCS values are those values. */
  lemma {:induction false} SameLayout(fs: seq<Field>, vs: seq<Value>, parsed: seq<Value>)
    requires All(Storable, fs, vs) && All(WellFormed, fs, parsed)
    requires WriteAll(Encode, fs, vs) == WriteAll(Encode, fs, parsed)
    ensures vs == parsed && All(Plain, fs, vs)
  {
    if fs != [] {
      var a, b := WriteAll(Encode, fs[1..], vs[1..]), WriteAll(Encode, fs[1..], parsed[1..]);
      AllOneMore(Storable, fs, vs);
      AllOneMore(WellFormed, fs, parsed);
      SameField(fs[0], vs[0], a, parsed[0], b);
      SameLayout(fs[1..], vs[1..], parsed[1..]);
      AllOneMore(Plain, fs, vs);
      assert vs == [vs[0]] + vs[1..] && parsed == [parsed[0]] + parsed[1..];
    }
  }

  lemma {:induction false} SameField(f: Field, v: Value, a: seq<u8>, w: Value, b: seq<u8>)
    requires Storable(f, v) && WellFormed(f, w) && Encode(f, v) + a == Encode(f, w) + b
    ensures v == w && a == b && Plain(f, v)
  {
    match f
    case Short => SameVector(v.bytes, a, w.bytes, b);
    case Long => SameVector(v.bytes, a, w.bytes, b);
    case Optional(inner) =>
      assert (Encode(f, v) + a)[0] == (Encode(f, w) + b)[0];
      if v.Present? {
        var x, y := Encode(inner, v.value) + a, Encode(inner, w.value) + b;
        assert Encode(f, v) + a == [1] + x && Encode(f, w) + b == [1] + y;
        SameStart([1], x, [1], y);
        SameField(inner, v.value, a, w.value, b);
      } else {
        SameStart([0], a, [0], b);
      }
    case _ => SameStart(v.bytes, a, w.bytes, b);
  }

  lemma SameStart(v: seq<u8>, a: seq<u8>, w: seq<u8>, b: seq<u8>)
    requires |v| == |w| && v + a == w + b
    ensures v == w && a == b
  {
    assert v == (v + a)[..|v|] == (w + b)[..|w|] == w;
    assert a == (v + a)[|v|..] == (w + b)[|w|..] == b;
  }

  lemma SameVector(v: seq<u8>, a: seq<u8>, w: seq<u8>, b: seq<u8>)
    requires Uleb(|v|) + v + a == Uleb(|w|) + w + b
    ensures v == w && a == b
  {
    VectorParses(v, a);
    VectorParses(w, b);
  }
}
