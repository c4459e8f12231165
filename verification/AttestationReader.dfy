/**
 * Reading an attestation account one stored field at a time
 * (`AttestationRecordReader` and `readAttestationAccount` in
 * sdk/solana/src/accounts.ts).
 */
module AttestationReader {
  import opened Common
  import opened Bytes
  import opened VariableLength
  import opened Attestations
  import opened AttestationAccounts

  /** A byte vector as BCS writes it. */
  method BcsByteVector(bytes: seq<u8>) returns (bcs: seq<u8>)
    requires |bytes| < 0x1_0000
    ensures bcs == Uleb(|bytes|) + bytes
  {
    var length := WriteLength(|bytes|);
    return length + bytes;
  }

  class RecordReader {
    const data: seq<u8>
    var at: nat
    /** The BCS bytes of the fields read so far. */
    var fields: seq<seq<u8>>

    ghost predicate Valid() reads this { at <= |data| }

    ghost function Remaining(): seq<u8>
      reads this
      requires Valid()
    {
      data[at..]
    }

    constructor (data: seq<u8>, at: nat)
      requires at <= |data|
      ensures Valid() && this.data == data && this.at == at && fields == []
    {
      this.data, this.at, this.fields := data, at, [];
    }

    method Take(length: nat) returns (bytes: Option<seq<u8>>)
      requires Valid()
      modifies this`at
      ensures Valid()
      ensures if |old(Remaining())| < length then bytes.None? && at == old(at)
              else bytes == Some(old(Remaining())[..length]) && Remaining() == old(Remaining())[length..]
    {
      if at + length > |data| {
        return None;
      }
      bytes := Some(data[at..at + length]);
      assert data[at..][..length] == data[at..at + length] && data[at..][length..] == data[at + length..];
      at := at + length;
    }

    /** A one-byte flag: a bool or an option's tag, 0 or 1. */
    method TakeFlag() returns (bytes: Option<seq<u8>>)
      requires Valid()
      modifies this`at
      ensures Valid()
      ensures bytes.Some? <==> |old(Remaining())| >= 1 && old(Remaining())[0] <= 1
      ensures bytes.Some? ==> bytes.value == old(Remaining())[..1] && Remaining() == old(Remaining())[1..]
    {
      bytes := Take(1);
      if bytes.Some? && bytes.value[0] > 1 {
        return None;
      }
    }

    /** A byte vector behind a length of one byte, or of two little-endian bytes, as BCS writes it. */
    method TakeVector(width: nat) returns (bcs: Option<seq<u8>>)
      requires Valid() && 1 <= width <= 2
      modifies this`at
      ensures Valid()
      ensures match TakeValue(width, old(Remaining()))
              case None => bcs.None?
              case Some((v, rest)) => v.Of? && bcs == Some(Uleb(|v.bytes|) + v.bytes) && Remaining() == rest
    {
      ghost var before := Remaining();
      var length := Take(width);
      if length.None? {
        return None;
      }
      FromLittleEndianRoundTrip(before[..width]);
      Widths();
      var bytes := Take(FromLittleEndian(length.value));
      if bytes.None? {
        return None;
      }
      var vector := BcsByteVector(bytes.value);
      return Some(vector);
    }

    /** One field, with the call its type is read by, as BCS. */
    method TakeField(f: Field) returns (bcs: Option<seq<u8>>)
      requires Valid()
      modifies this`at
      ensures Valid()
      ensures match AttestationAccounts.Take(f, old(Remaining()))
              case None => bcs.None?
              case Some((v, rest)) => bcs == Some(Encode(f, v)) && Remaining() == rest
      decreases f, 0
    {
      match f
      case Fixed(size) => bcs := Take(size);
      case Short => bcs := TakeVector(1);
      case Long => bcs := TakeVector(2);
      case Flag => bcs := TakeFlag();
      case Index(_) => bcs := Take(1);
      case Holder => bcs := Take(33);
      case Optional(inner) => bcs := TakeOption(inner);
    }

    /** An option: its tag, then its value when the tag is 1. */
    method TakeOption(inner: Field) returns (bcs: Option<seq<u8>>)
      requires Valid()
      modifies this`at
      ensures Valid()
      ensures match AttestationAccounts.Take(Optional(inner), old(Remaining()))
              case None => bcs.None?
              case Some((v, rest)) => bcs == Some(Encode(Optional(inner), v)) && Remaining() == rest
      decreases inner, 1
    {
      var tag := TakeFlag();
      if tag.None? {
        return None;
      }
      if tag.value[0] == 0 {
        assert tag.value == [0];
        return tag;
      }
      var value := TakeField(inner);
      if value.None? {
        return None;
      }
      return Some([1] + value.value);
    }

    /** Keep a field's BCS bytes; false when its read failed. */
    method Keep(bcs: Option<seq<u8>>) returns (kept: bool)
      modifies this`fields
      ensures kept == bcs.Some?
      ensures fields == if kept then old(fields) + [bcs.value] else old(fields)
    {
      if bcs.None? {
        return false;
      }
      fields := fields + [bcs.value];
      return true;
    }

    /** The kept fields' bytes, one after the other. */
    method Bytes() returns (bytes: seq<u8>)
      ensures bytes == Joined(fields)
    {
      bytes := [];
      for i := 0 to |fields|
        invariant bytes == Joined(fields[..i])
      {
        bytes := bytes + fields[i];
        assert fields[..i + 1][..i] == fields[..i];
      }
      assert fields[..|fields|] == fields;
    }
  }

  function Joined(fields: seq<seq<u8>>): seq<u8> {
    if fields == [] then [] else Joined(fields[..|fields| - 1]) + fields[|fields| - 1]
  }

  /** Fields written one by one are the whole list written. */
  lemma {:induction false} JoinedWritten(write: Writer, fs: seq<Field>, vs: seq<Value>, written: seq<seq<u8>>)
    requires |fs| == |vs| == |written| && forall i | 0 <= i < |fs| :: written[i] == write(fs[i], vs[i])
    ensures Joined(written) == WriteAll(write, fs, vs)
  {
    if fs != [] {
      var n := |fs| - 1;
      JoinedWritten(write, fs[..n], vs[..n], written[..n]);
      WriteOneMore(write, fs[..n], vs[..n], fs[n], vs[n]);
      assert fs[..n] + [fs[n]] == fs && vs[..n] + [vs[n]] == vs;
    }
  }

  lemma {:induction false} JoinedBehind(first: seq<u8>, fields: seq<seq<u8>>)
    ensures Joined([first] + fields) == first + Joined(fields)
  {
    if fields == [] {
      assert [first] + fields == [first] && [first][..0] == [];
      assert Joined([first]) == Joined([]) + first == first == first + Joined([]);
    } else {
      var n := |fields| - 1;
      assert ([first] + fields)[..n + 1] == [first] + fields[..n] && ([first] + fields)[n + 1] == fields[n];
      JoinedBehind(first, fields[..n]);
    }
  }

  /** The fields kept behind the version byte are the attestation laid out. */
  lemma JoinedFields(fs: seq<Field>, vs: seq<Value>, fields: seq<seq<u8>>)
    requires |fs| == |vs| && |fields| == |fs| + 1 && fields[0] == [0]
    requires forall i | 0 <= i < |fs| :: fields[i + 1] == Encode(fs[i], vs[i])
    ensures Joined(fields) == [0] + WriteAll(Encode, fs, vs)
  {
    var kept := fields[1..];
    assert fields == [[0]] + kept;
    forall i | 0 <= i < |fs| ensures kept[i] == Encode(fs[i], vs[i]) {
      assert kept[i] == fields[i + 1];
    }
    JoinedWritten(Encode, fs, vs, kept);
    JoinedBehind([0], kept);
  }

  lemma {:induction false} WriteOneMore(write: Writer, fs: seq<Field>, vs: seq<Value>, f: Field, v: Value)
    requires |fs| == |vs|
    ensures WriteAll(write, fs + [f], vs + [v]) == WriteAll(write, fs, vs) + write(f, v)
  {
    if fs == [] {
      assert fs + [f] == [f] && vs + [v] == [v] && [f][1..] == [] && [v][1..] == [];
    } else {
      WriteOneMore(write, fs[1..], vs[1..], f, v);
      assert (fs + [f])[1..] == fs[1..] + [f] && (vs + [v])[1..] == vs[1..] + [v];
    }
  }

  // ── A whole account ──────────────────────────────────────────────────────

  const DISCRIMINATOR: u8 := 104
  const BUMP: nat := 2
  const PROOF: nat := 3
  const FIELDS: nat := 101

  /** An account that is not an attestation's, a proof that is not one, or of a version not known, and an attestation. */
  datatype Reading =
    | NotThisAttestation
    | NotAProof
    | UnknownVersion
    | Read(attestation: seq<u8>, signer: seq<u8>, signature: seq<u8>, bump: u8)

  function ReadAccount(kind: Kind, data: seq<u8>): Reading {
    if |data| < FIELDS || data[0] != DISCRIMINATOR then NotThisAttestation
    else if data[PROOF] != 0 then NotAProof
    else if data[PROOF + 1] != 0 then UnknownVersion
    else
      match ReadFields(kind, data[FIELDS..])
      case Some(bytes) => Read(bytes, data[PROOF + 2..PROOF + 34], data[PROOF + 34..FIELDS], data[BUMP])
      case None => NotThisAttestation
  }

  method ReadAttestationAccount(kind: Kind, data: seq<u8>) returns (reading: Reading)
    ensures reading == ReadAccount(kind, data)
  {
    if |data| < FIELDS || data[0] != DISCRIMINATOR {
      return NotThisAttestation;
    }
    var proof := data[PROOF..FIELDS];
    if proof[0] != 0 {
      return NotAProof;
    }
    if proof[1] != 0 {
      return UnknownVersion;
    }
    var bytes := ReadRegion(kind, data, proof[1]);
    if bytes.None? {
      return NotThisAttestation;
    }
    SliceOf(data, PROOF, FIELDS, 2, 34);
    SliceOf(data, PROOF, FIELDS, 34, 98);
    return Read(bytes.value, proof[2..34], proof[34..98], data[BUMP]);
  }

  lemma SliceOf(data: seq<u8>, from: nat, to: nat, i: nat, j: nat)
    requires i <= j && from + j <= to <= |data|
    ensures data[from..to][i..j] == data[from + i..from + j]
  {
    var part := data[from..to];
    assert forall k | i <= k < j :: part[k] == data[from + k];
  }

  /** The fields laid out as BCS to the account's last byte, parsed as the kind's attestation and serialized again. */
  method ReadRegion(kind: Kind, data: seq<u8>, version: u8) returns (bytes: Option<seq<u8>>)
    requires |data| >= FIELDS && version == 0
    ensures bytes == ReadFields(kind, data[FIELDS..])
  {
    var record := new RecordReader(data, FIELDS);
    var laidOut := LayOut(record, Fields(kind), version);
    if laidOut.None? || record.at != |data| {
      return None;
    }
    var parsed := ParseAttestation(kind, laidOut.value);
    return if parsed.Some? then Some(LaidOut(kind, parsed.value)) else None;
  }

  lemma ThenNothing(later: Option<(seq<Value>, seq<u8>)>)
    ensures Then([], later) == later
  {
    if later.Some? { assert [] + later.value.0 == later.value.0; }
  }

  /** One field read goes from what is left to what has been read. */
  lemma ThenOneMore(vs: seq<Value>, fs: seq<Field>, bytes: seq<u8>)
    requires fs != []
    ensures Then(vs, ReadAll(AttestationAccounts.Take, fs, bytes)) ==
            match AttestationAccounts.Take(fs[0], bytes)
            case None => None
            case Some((v, rest)) => Then(vs + [v], ReadAll(AttestationAccounts.Take, fs[1..], rest))
  {
    if AttestationAccounts.Take(fs[0], bytes).Some? {
      var (v, rest) := AttestationAccounts.Take(fs[0], bytes).value;
      var later := ReadAll(AttestationAccounts.Take, fs[1..], rest);
      if later.Some? { assert vs + ([v] + later.value.0) == vs + [v] + later.value.0; }
    }
  }

  /** Every field read and kept behind the version, until one fails. */
  method LayOut(record: RecordReader, fs: seq<Field>, version: u8) returns (laidOut: Option<seq<u8>>)
    requires record.Valid() && record.fields == [] && version == 0
    modifies record
    ensures record.Valid()
    ensures match ReadAll(AttestationAccounts.Take, fs, old(record.Remaining()))
            case None => laidOut.None?
            case Some((vs, rest)) => laidOut == Some([0] + WriteAll(Encode, fs, vs)) && record.Remaining() == rest
  {
    var kept := record.Keep(Some([version]));
    ghost var start := record.Remaining();
    ghost var vs: seq<Value> := [];
    assert fs[0..] == fs;
    ThenNothing(ReadAll(AttestationAccounts.Take, fs, start));
    for i := 0 to |fs|
      invariant record.Valid()
      invariant |vs| == i && |record.fields| == i + 1 && record.fields[0] == [0]
      invariant forall j | 0 <= j < i :: record.fields[j + 1] == Encode(fs[j], vs[j])
      invariant ReadAll(AttestationAccounts.Take, fs, start) ==
                  Then(vs, ReadAll(AttestationAccounts.Take, fs[i..], record.Remaining()))
    {
      ghost var before := record.Remaining();
      ThenOneMore(vs, fs[i..], before);
      assert fs[i..][0] == fs[i] && fs[i..][1..] == fs[i + 1..];
      var bcs := record.TakeField(fs[i]);
      kept := record.Keep(bcs);
      if !kept {
        return None;
      }
      vs := vs + [AttestationAccounts.Take(fs[i], before).value.0];
    }
    JoinedFields(fs, vs, record.fields);
    assert fs[|fs|..] == [] && vs + [] == vs;
    var bytes := record.Bytes();
    return Some(bytes);
  }

  /** An attestation account, byte by byte: 104, its version, its bump, the proof of version 1, the fields. */
  function AccountBytes(version: u8, bump: u8, signer: seq<u8>, signature: seq<u8>, region: seq<u8>): seq<u8> {
    [104, version, bump, 0, 0] + signer + signature + region
  }

  lemma AccountParts(version: u8, bump: u8, signer: seq<u8>, signature: seq<u8>, region: seq<u8>)
    requires |signer| == 32 && |signature| == 64
    ensures
      var data := AccountBytes(version, bump, signer, signature, region);
      && |data| >= 101 && data[0] == 104 && data[1] == version && data[2] == bump && data[3] == data[4] == 0
      && data[5..37] == signer && data[37..101] == signature && data[101..] == region
  {
  }

  /** Exactly the accounts of these bytes are read, as their fields' attestation, their proof and their bump. */
  lemma AccountReadsExactly(kind: Kind, data: seq<u8>, bytes: seq<u8>, signer: seq<u8>, signature: seq<u8>, bump: u8)
    ensures ReadAccount(kind, data) == Read(bytes, signer, signature, bump) <==>
              exists version: u8, region: seq<u8> ::
                && data == AccountBytes(version, bump, signer, signature, region)
                && |signer| == 32 && |signature| == 64 && ReadFields(kind, region) == Some(bytes)
  {
    if ReadAccount(kind, data) == Read(bytes, signer, signature, bump) {
      var region := data[101..];
      assert data == AccountBytes(data[1], bump, signer, signature, region);
    }
    if version: u8, region: seq<u8> :|
      && data == AccountBytes(version, bump, signer, signature, region)
      && |signer| == 32 && |signature| == 64 && ReadFields(kind, region) == Some(bytes)
    {
      AccountParts(version, bump, signer, signature, region);
    }
  }

  /** A stored attestation account reads as its attestation, its proof and its bump. */
  lemma StoredAccountReads(kind: Kind, vs: seq<Value>, version: u8, bump: u8, signer: seq<u8>, signature: seq<u8>)
    requires Attestable(kind, vs) && |signer| == 32 && |signature| == 64
    ensures ReadAccount(kind, AccountBytes(version, bump, signer, signature, WriteAll(Store, Fields(kind), vs)))
              == Read(LaidOut(kind, vs), signer, signature, bump)
  {
    AccountParts(version, bump, signer, signature, WriteAll(Store, Fields(kind), vs));
    StoredReadsAsItself(kind, vs);
  }
}
