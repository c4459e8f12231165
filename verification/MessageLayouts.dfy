/**
 * Each message read back at its offsets, with a reader of its own: the
 * order of the fields, the tags and the order of a number's bytes
 * (sdk/solana/src/instructions.ts, sdk/core/src/grpc/attestation-record.ts,
 * sdk/core/src/grpc/session-identifier.ts, sdk/core/src/common/request-records.ts).
 */
module MessageLayouts {
  import opened Common
  import opened Bytes
  import opened VariableLength
  import opened Attestations
  import opened Seeds
  import opened Messages
  import RequestRecords

  /** The number whose highest byte comes first. */
  function FromBigEndian(bytes: seq<u8>): nat {
    if bytes == [] then 0
    else 256 * FromBigEndian(bytes[..|bytes| - 1]) + bytes[|bytes| - 1]
  }

  lemma HighestFirst(a: u8, b: u8)
    ensures FromBigEndian([a, b]) == 0x100 * a as int + b as int
  {
    assert [a, b][..1] == [a] && [a][..0] == [];
    assert FromBigEndian([a]) == a as int;
  }

  lemma {:induction false} BigEndianReads(value: nat, width: nat)
    requires value < Pow256(width)
    ensures FromBigEndian(BigEndian(value, width)) == value
  {
    if width > 0 {
      BigEndianReads(value / 256, width - 1);
      var bytes := BigEndian(value, width);
      assert bytes[..width - 1] == BigEndian(value / 256, width - 1);
    }
  }

  /** An encryption key's registration. */
  lemma RegistrationReads(chain: nat, network: u8, curve: nat, key: seq<u8>)
    requires chain < 0x1_0000_0000 && curve < 0x1_0000
    ensures
      var bytes := MessageBytes(Registration(chain, network, curve, key));
      && |bytes| >= 28
      && bytes[0..3] == [1, 0, 18] && bytes[3..21] == Ascii("ika_encryption_key")
      && FromLittleEndian(bytes[21..25]) == chain
      && bytes[25] == network
      && FromLittleEndian(bytes[26..28]) == curve
      && ReadUleb(bytes[28..]) == Some((|key|, key))
  {
    Widths();
    LittleEndianRoundTrip(chain, 4);
    LittleEndianRoundTrip(curve, 2);
    UlebReads(|key|, key);
    assert Uleb(18) == [18];
    RegistrationParts(Ascii("ika_encryption_key"), LittleEndian(chain, 4), network, LittleEndian(curve, 2),
      Uleb(|key|) + key);
  }

  lemma RegistrationParts(domain: seq<u8>, chain: seq<u8>, network: u8, curve: seq<u8>, key: seq<u8>)
    requires |domain| == 18 && |chain| == 4 && |curve| == 2
    ensures
      var bytes := [1, 0] + ([18] + (domain + (chain + ([network] + (curve + key)))));
      && |bytes| == 28 + |key|
      && bytes[0..3] == [1, 0, 18] && bytes[3..21] == domain && bytes[21..25] == chain && bytes[25] == network
      && bytes[26..28] == curve && bytes[28..] == key
  {
  }

  /** A gas deposit's proof of possession. */
  lemma DepositProofReads(chain: nat, network: u8, sender: seq<u8>)
    requires chain < 0x1_0000_0000
    ensures
      var bytes := MessageBytes(DepositProof(chain, network, sender));
      && |bytes| == 46 + |sender|
      && bytes[0..2] == [1, 0] && bytes[2..40] == Ascii("ika_protocol::gas::proof_of_possession")
      && FromLittleEndian(bytes[40..44]) == chain
      && bytes[44] == network && bytes[45] == |sender| % 256
      && bytes[46..] == sender
  {
    Widths();
    LittleEndianRoundTrip(chain, 4);
    DepositParts(Ascii("ika_protocol::gas::proof_of_possession"), LittleEndian(chain, 4), network, sender);
  }

  lemma DepositParts(domain: seq<u8>, chain: seq<u8>, network: u8, sender: seq<u8>)
    requires |domain| == 38 && |chain| == 4
    ensures
      var bytes := [1, 0] + (domain + (chain + ([network] + ([|sender| % 256] + sender))));
      && |bytes| == 46 + |sender|
      && bytes[0..2] == [1, 0] && bytes[2..40] == domain && bytes[40..44] == chain
      && bytes[44] == network && bytes[45] == |sender| % 256 && bytes[46..] == sender
  {
  }

  /** A release of gas. */
  lemma GasReleaseReads(m: Message)
    requires m.GasRelease? && InRange(m)
    ensures
      var bytes := MessageBytes(m);
      && |bytes| == 139
      && bytes[0] == 0xff && bytes[1..19] == Ascii("solana-gas-release")
      && bytes[19..51] == m.program.bytes && bytes[51..83] == m.deposit.bytes && bytes[83..115] == m.requestKey.bytes
      && FromLittleEndian(bytes[115..123]) == m.counter
      && FromLittleEndian(bytes[123..131]) == m.ika
      && FromLittleEndian(bytes[131..139]) == m.sol
  {
    LittleEndianRoundTrip(m.counter, 8);
    LittleEndianRoundTrip(m.ika, 8);
    LittleEndianRoundTrip(m.sol, 8);
    ReleaseParts(RELEASE_PREFIX, m.program, m.deposit, m.requestKey,
      LittleEndian(m.counter, 8), LittleEndian(m.ika, 8), LittleEndian(m.sol, 8));
    assert RELEASE_PREFIX[1..] == Ascii("solana-gas-release");
  }

  lemma ReleaseParts(prefix: seq<u8>, program: Key, deposit: Key, key: Key, counter: seq<u8>, ika: seq<u8>, sol: seq<u8>)
    requires |prefix| == 19 && |counter| == |ika| == |sol| == 8
    ensures
      var bytes := prefix + (program.bytes + (deposit.bytes + (key.bytes + (counter + (ika + sol)))));
      && |bytes| == 139
      && bytes[0] == prefix[0] && bytes[1..19] == prefix[1..]
      && bytes[19..51] == program.bytes && bytes[51..83] == deposit.bytes && bytes[83..115] == key.bytes
      && bytes[115..123] == counter && bytes[123..131] == ika && bytes[131..139] == sol
  {
  }

  /** An attestation, under its kind. */
  lemma AttestationReads(kind: Kind, data: seq<u8>)
    ensures
      var bytes := MessageBytes(Attestation(kind, data));
      && |bytes| == 17 + |data|
      && bytes[0] == 0xfe && bytes[1..16] == Ascii("ika-attestation")
      && bytes[17..] == data
      && match kind
         case DWallet => bytes[16] == 0
         case Presign => bytes[16] == 1
         case PartialUserSignature => bytes[16] == 2
         case EncryptedShare => bytes[16] == 3
         case PublicShare => bytes[16] == 4
  {
    TagParts(ATTESTATION_PREFIX, KindTag(kind), data);
    assert ATTESTATION_PREFIX[1..] == Ascii("ika-attestation");
  }

  lemma TagParts(prefix: seq<u8>, tag: u8, data: seq<u8>)
    requires |prefix| == 16
    ensures
      var bytes := prefix + ([tag] + data);
      && |bytes| == 17 + |data|
      && bytes[0] == prefix[0] && bytes[1..16] == prefix[1..] && bytes[16] == tag && bytes[17..] == data
  {
  }

  /** What a session identifier hashes: the epoch with its highest byte first. */
  lemma SessionReads(epoch: nat, scheme: Scheme, signer: seq<u8>, preimage: seq<u8>)
    requires InRange(SessionPreimage(epoch, scheme, signer, preimage))
    ensures
      var bytes := MessageBytes(SessionPreimage(epoch, scheme, signer, preimage));
      && |bytes| == 21 + |signer| + |preimage|
      && bytes[0..8] == [0, 0, 0, 0, 0, 0, 0, 0] && bytes[8..12] == Ascii("GRPC")
      && FromBigEndian(bytes[12..20]) == epoch
      && (match scheme
          case Ed25519 => bytes[20] == 0 && bytes[21..53] == signer
          case Secp256k1 => bytes[20] == 1 && bytes[21..54] == signer
          case Secp256r1 => bytes[20] == 2 && bytes[21..54] == signer)
      && bytes[21 + |signer|..] == preimage
  {
    BigEndianReads(epoch, 8);
    SessionParts(Zeros(8), Ascii("GRPC"), BigEndian(epoch, 8), SchemeByte(scheme), signer, preimage);
    assert Zeros(8) == [0, 0, 0, 0, 0, 0, 0, 0];
  }

  lemma SessionParts(version: seq<u8>, tag: seq<u8>, epoch: seq<u8>, scheme: u8, signer: seq<u8>, preimage: seq<u8>)
    requires |version| == |epoch| == 8 && |tag| == 4
    ensures
      var bytes := version + (tag + (epoch + ([scheme] + (signer + preimage))));
      && |bytes| == 21 + |signer| + |preimage|
      && bytes[0..8] == version && bytes[8..12] == tag && bytes[12..20] == epoch && bytes[20] == scheme
      && bytes[21..21 + |signer|] == signer && bytes[21 + |signer|..] == preimage
  {
  }

  /** A charge's preimage: two strings, each behind its length, then the item. */
  predicate Charges(bytes: seq<u8>, name: string, item: Key) {
    && |bytes| > 13 && |name| < 128
    && bytes[0] == 12 && bytes[1..13] == Ascii("IkaGasCharge")
    && bytes[13..] == [|name|] + Ascii(name) + item.bytes
  }

  /** What was charged is named in full. */
  lemma ChargeReads(source: RequestRecords.ChargeSource, item: Key)
    ensures
      var bytes := MessageBytes(ChargePreimage(source, item));
      match source
      case RefusedRequest => Charges(bytes, "RefusedRequest", item)
      case RejectedSession => Charges(bytes, "RejectedSession", item)
      case CompletedPresign => Charges(bytes, "CompletedPresign", item)
      case MovedNetworkKeySession => Charges(bytes, "MovedNetworkKeySession", item)
      case GivenUpSignature => Charges(bytes, "GivenUpSignature", item)
      case GivenUpShareCommit => Charges(bytes, "GivenUpShareCommit", item)
  {
    ChargeNamed(SourceName(source), item);
  }

  lemma ChargeNamed(name: string, item: Key)
    requires |name| < 128
    ensures Charges(BcsString("IkaGasCharge") + (BcsString(name) + item.bytes), name, item)
  {
    TwoStrings(Ascii("IkaGasCharge"), Ascii(name), item.bytes);
  }

  lemma TwoStrings(first: seq<u8>, second: seq<u8>, rest: seq<u8>)
    requires |first| < 128 && |second| < 128
    ensures
      var bytes := Uleb(|first|) + first + (Uleb(|second|) + second + rest);
      && bytes[0] == |first| && bytes[1..1 + |first|] == first
      && bytes[1 + |first|..] == [|second|] + second + rest
  {
    assert Uleb(|first|) == [|first|] && Uleb(|second|) == [|second|];
  }

  lemma CommitReads(session: Key)
    ensures
      var bytes := MessageBytes(SignatureCommitPreimage(session));
      |bytes| == 51 && bytes[0] == 18 && bytes[1..19] == Ascii("IkaSignatureCommit") && bytes[19..] == session.bytes
  {
    assert Uleb(18) == [18];
  }
}
