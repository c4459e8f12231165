/**
 * The messages that are signed or hashed: an encryption key's registration, a
 * gas deposit's proof of possession and a gas release
 * (sdk/solana/src/instructions.ts), an attestation's signing message
 * (sdk/core/src/grpc/attestation-record.ts), and the preimages of a session
 * identifier (sdk/core/src/grpc/session-identifier.ts) and of a charge's and
 * a signature commit's identifiers (sdk/core/src/common/request-records.ts).
 */
module Messages {
  import opened Common
  import opened Bytes
  import opened VariableLength
  import opened Attestations
  import opened Seeds
  import RequestRecords

  datatype Scheme = Ed25519 | Secp256k1 | Secp256r1

  datatype Message =
    | Registration(chain: nat, network: u8, curve: nat, encryptionKey: seq<u8>)
    | DepositProof(chain: nat, network: u8, sender: seq<u8>)
    | GasRelease(program: Key, deposit: Key, requestKey: Key, counter: nat, ika: nat, sol: nat)
    | Attestation(kind: Kind, data: seq<u8>)
    | SessionPreimage(epoch: nat, scheme: Scheme, signer: seq<u8>, preimage: seq<u8>)
    | ChargePreimage(source: RequestRecords.ChargeSource, item: Key)
    | SignatureCommitPreimage(session: Key)

  /** The numbers fit their widths, and a signer's key has its scheme's length. */
  predicate InRange(m: Message) {
    match m
    case Registration(chain, _, curve, _) => chain < 0x1_0000_0000 && curve < 0x1_0000
    case DepositProof(chain, _, _) => chain < 0x1_0000_0000
    case GasRelease(_, _, _, counter, ika, sol) => counter < Pow256(8) && ika < Pow256(8) && sol < Pow256(8)
    case Attestation(_, _) => true
    case SessionPreimage(epoch, scheme, signer, _) => epoch < Pow256(8) && |signer| == KeyLength(scheme)
    case _ => true
  }

  function KeyLength(scheme: Scheme): nat { if scheme.Ed25519? then 32 else 33 }

  function SchemeByte(scheme: Scheme): u8 {
    match scheme case Ed25519 => 0 case Secp256k1 => 1 case Secp256r1 => 2
  }

  function KindTag(kind: Kind): u8 {
    match kind
    case DWallet => 0
    case Presign => 1
    case PartialUserSignature => 2
    case EncryptedShare => 3
    case PublicShare => 4
  }

  function BigEndian(value: nat, width: nat): (bytes: seq<u8>)
    ensures |bytes| == width
  {
    if width == 0 then [] else BigEndian(value / 256, width - 1) + [value % 256]
  }

  /** A string as BCS writes it. */
  function BcsString(text: string): seq<u8> { Uleb(|text|) + Ascii(text) }

  function SourceName(source: RequestRecords.ChargeSource): string {
    match source
    case RefusedRequest => "RefusedRequest"
    case RejectedSession => "RejectedSession"
    case CompletedPresign => "CompletedPresign"
    case MovedNetworkKeySession => "MovedNetworkKeySession"
    case GivenUpSignature => "GivenUpSignature"
    case GivenUpShareCommit => "GivenUpShareCommit"
  }

  const REGISTRATION_DOMAIN: seq<u8> := Ascii("ika_encryption_key")
  const DEPOSIT_DOMAIN: seq<u8> := Ascii("ika_protocol::gas::proof_of_possession")
  const RELEASE_PREFIX: seq<u8> := [0xff] + Ascii("solana-gas-release")
  const ATTESTATION_PREFIX: seq<u8> := [0xfe] + Ascii("ika-attestation")

  /** The bytes of a message; a longer sender's length wraps to one byte. */
  function MessageBytes(m: Message): seq<u8> {
    match m
    case Registration(chain, network, curve, key) =>
      [1, 0] + (Uleb(18) + (REGISTRATION_DOMAIN +
        (LittleEndian(chain, 4) + ([network] + (LittleEndian(curve, 2) + (Uleb(|key|) + key))))))
    case DepositProof(chain, network, sender) =>
      [1, 0] + (DEPOSIT_DOMAIN + (LittleEndian(chain, 4) + ([network] + ([|sender| % 256] + sender))))
    case GasRelease(program, deposit, requestKey, counter, ika, sol) =>
      RELEASE_PREFIX + (program.bytes + (deposit.bytes + (requestKey.bytes +
        (LittleEndian(counter, 8) + (LittleEndian(ika, 8) + LittleEndian(sol, 8))))))
    case Attestation(kind, data) => ATTESTATION_PREFIX + ([KindTag(kind)] + data)
    case SessionPreimage(epoch, scheme, signer, preimage) =>
      Zeros(8) + (Ascii("GRPC") + (BigEndian(epoch, 8) + ([SchemeByte(scheme)] + (signer + preimage))))
    case ChargePreimage(source, item) => BcsString("IkaGasCharge") + (BcsString(SourceName(source)) + item.bytes)
    case SignatureCommitPreimage(session) => BcsString("IkaSignatureCommit") + session.bytes
  }

  // ── Injective and apart ──────────────────────────────────────────────────

  /** Two joined byte strings whose first parts have one length. */
  lemma Split(a: seq<u8>, x: seq<u8>, b: seq<u8>, y: seq<u8>)
    requires a + x == b + y && |a| == |b|
    ensures a == b && x == y
  {
    assert a == (a + x)[..|a|] == (b + y)[..|b|] == b;
    assert x == (a + x)[|a|..] == (b + y)[|b|..] == y;
  }

  lemma SameLittleEndian(x: nat, y: nat, width: nat)
    requires x < Pow256(width) && y < Pow256(width) && LittleEndian(x, width) == LittleEndian(y, width)
    ensures x == y
  {
    LittleEndianRoundTrip(x, width);
    LittleEndianRoundTrip(y, width);
  }

  lemma {:induction false} SameBigEndian(x: nat, y: nat, width: nat)
    requires x < Pow256(width) && y < Pow256(width) && BigEndian(x, width) == BigEndian(y, width)
    ensures x == y
  {
    if width > 0 {
      Split(BigEndian(x / 256, width - 1), [x % 256], BigEndian(y / 256, width - 1), [y % 256]);
      SameBigEndian(x / 256, y / 256, width - 1);
    }
  }

  lemma RegistrationsDiffer(a: Message, b: Message)
    requires a.Registration? && b.Registration? && InRange(a) && InRange(b) && MessageBytes(a) == MessageBytes(b)
    ensures a == b
  {
    Widths();
    var keyA, keyB := Uleb(|a.encryptionKey|) + a.encryptionKey, Uleb(|b.encryptionKey|) + b.encryptionKey;
    var curveA, curveB := LittleEndian(a.curve, 2) + keyA, LittleEndian(b.curve, 2) + keyB;
    var chainA, chainB := LittleEndian(a.chain, 4) + ([a.network] + curveA), LittleEndian(b.chain, 4) + ([b.network] + curveB);
    Split([1, 0], Uleb(18) + (REGISTRATION_DOMAIN + chainA), [1, 0], Uleb(18) + (REGISTRATION_DOMAIN + chainB));
    Split(Uleb(18), REGISTRATION_DOMAIN + chainA, Uleb(18), REGISTRATION_DOMAIN + chainB);
    Split(REGISTRATION_DOMAIN, chainA, REGISTRATION_DOMAIN, chainB);
    Split(LittleEndian(a.chain, 4), [a.network] + curveA, LittleEndian(b.chain, 4), [b.network] + curveB);
    Split([a.network], curveA, [b.network], curveB);
    Split(LittleEndian(a.curve, 2), keyA, LittleEndian(b.curve, 2), keyB);
    SelfDelimiting(|a.encryptionKey|, a.encryptionKey, |b.encryptionKey|, b.encryptionKey);
    SameLittleEndian(a.chain, b.chain, 4);
    SameLittleEndian(a.curve, b.curve, 2);
    assert [a.network] == [b.network];
  }

  lemma DepositProofsDiffer(a: Message, b: Message)
    requires a.DepositProof? && b.DepositProof? && InRange(a) && InRange(b) && MessageBytes(a) == MessageBytes(b)
    ensures a == b
  {
    Widths();
    var senderA, senderB := [|a.sender| % 256] + a.sender, [|b.sender| % 256] + b.sender;
    var chainA, chainB := LittleEndian(a.chain, 4) + ([a.network] + senderA), LittleEndian(b.chain, 4) + ([b.network] + senderB);
    Split([1, 0], DEPOSIT_DOMAIN + chainA, [1, 0], DEPOSIT_DOMAIN + chainB);
    Split(DEPOSIT_DOMAIN, chainA, DEPOSIT_DOMAIN, chainB);
    Split(LittleEndian(a.chain, 4), [a.network] + senderA, LittleEndian(b.chain, 4), [b.network] + senderB);
    Split([a.network], senderA, [b.network], senderB);
    Split([|a.sender| % 256], a.sender, [|b.sender| % 256], b.sender);
    SameLittleEndian(a.chain, b.chain, 4);
    assert [a.network] == [b.network];
  }

  lemma GasReleasesDiffer(a: Message, b: Message)
    requires a.GasRelease? && b.GasRelease? && InRange(a) && InRange(b) && MessageBytes(a) == MessageBytes(b)
    ensures a == b
  {
    var ikaA, ikaB := LittleEndian(a.ika, 8) + LittleEndian(a.sol, 8), LittleEndian(b.ika, 8) + LittleEndian(b.sol, 8);
    var amountsA, amountsB := LittleEndian(a.counter, 8) + ikaA, LittleEndian(b.counter, 8) + ikaB;
    var keyA, keyB := a.requestKey.bytes + amountsA, b.requestKey.bytes + amountsB;
    Split(RELEASE_PREFIX, a.program.bytes + (a.deposit.bytes + keyA), RELEASE_PREFIX, b.program.bytes + (b.deposit.bytes + keyB));
    Split(a.program.bytes, a.deposit.bytes + keyA, b.program.bytes, b.deposit.bytes + keyB);
    Split(a.deposit.bytes, keyA, b.deposit.bytes, keyB);
    Split(a.requestKey.bytes, amountsA, b.requestKey.bytes, amountsB);
    Split(LittleEndian(a.counter, 8), ikaA, LittleEndian(b.counter, 8), ikaB);
    Split(LittleEndian(a.ika, 8), LittleEndian(a.sol, 8), LittleEndian(b.ika, 8), LittleEndian(b.sol, 8));
    SameLittleEndian(a.counter, b.counter, 8);
    SameLittleEndian(a.ika, b.ika, 8);
    SameLittleEndian(a.sol, b.sol, 8);
  }

  lemma AttestationMessagesDiffer(a: Message, b: Message)
    requires a.Attestation? && b.Attestation? && MessageBytes(a) == MessageBytes(b)
    ensures a == b
  {
    Split(ATTESTATION_PREFIX, [KindTag(a.kind)] + a.data, ATTESTATION_PREFIX, [KindTag(b.kind)] + b.data);
    Split([KindTag(a.kind)], a.data, [KindTag(b.kind)], b.data);
    assert [KindTag(a.kind)][0] == [KindTag(b.kind)][0];
  }

  lemma SessionPreimagesDiffer(a: Message, b: Message)
    requires a.SessionPreimage? && b.SessionPreimage? && InRange(a) && InRange(b) && MessageBytes(a) == MessageBytes(b)
    ensures a == b
  {
    var signerA, signerB := a.signer + a.preimage, b.signer + b.preimage;
    var schemeA, schemeB := [SchemeByte(a.scheme)] + signerA, [SchemeByte(b.scheme)] + signerB;
    var epochA, epochB := BigEndian(a.epoch, 8) + schemeA, BigEndian(b.epoch, 8) + schemeB;
    Split(Zeros(8), Ascii("GRPC") + epochA, Zeros(8), Ascii("GRPC") + epochB);
    Split(Ascii("GRPC"), epochA, Ascii("GRPC"), epochB);
    Split(BigEndian(a.epoch, 8), schemeA, BigEndian(b.epoch, 8), schemeB);
    Split([SchemeByte(a.scheme)], signerA, [SchemeByte(b.scheme)], signerB);
    assert [SchemeByte(a.scheme)][0] == [SchemeByte(b.scheme)][0];
    Split(a.signer, a.preimage, b.signer, b.preimage);
    SameBigEndian(a.epoch, b.epoch, 8);
  }

  /** Two names are told apart by their length, or by their first letter. */
  lemma SourceNamesDiffer(a: RequestRecords.ChargeSource, b: RequestRecords.ChargeSource)
    requires |SourceName(a)| == |SourceName(b)| && Ascii(SourceName(a)) == Ascii(SourceName(b))
    ensures a == b
  {
    assert Ascii(SourceName(a))[0] == SourceName(a)[0] as int && Ascii(SourceName(b))[0] == SourceName(b)[0] as int;
  }

  lemma ChargePreimagesDiffer(a: Message, b: Message)
    requires a.ChargePreimage? && b.ChargePreimage? && MessageBytes(a) == MessageBytes(b)
    ensures a == b
  {
    var nameA, nameB := SourceName(a.source), SourceName(b.source);
    var restA, restB := BcsString(nameA) + a.item.bytes, BcsString(nameB) + b.item.bytes;
    Split(BcsString("IkaGasCharge"), restA, BcsString("IkaGasCharge"), restB);
    assert restA == Uleb(|nameA|) + (Ascii(nameA) + a.item.bytes) && restB == Uleb(|nameB|) + (Ascii(nameB) + b.item.bytes);
    SelfDelimiting(|nameA|, Ascii(nameA) + a.item.bytes, |nameB|, Ascii(nameB) + b.item.bytes);
    Split(Ascii(nameA), a.item.bytes, Ascii(nameB), b.item.bytes);
    SourceNamesDiffer(a.source, b.source);
  }

  lemma SignatureCommitsDiffer(a: Message, b: Message)
    requires a.SignatureCommitPreimage? && b.SignatureCommitPreimage? && MessageBytes(a) == MessageBytes(b)
    ensures a == b
  {
    Split(BcsString("IkaSignatureCommit"), a.session.bytes, BcsString("IkaSignatureCommit"), b.session.bytes);
  }

  /** A message's family shows in its first and its third byte. */
  lemma Families(m: Message)
    ensures
      var bytes := MessageBytes(m);
      && |bytes| > 3
      && match m
         case Registration(_, _, _, _) => bytes[0] == 1 && bytes[2] == 18
         case DepositProof(_, _, _) => bytes[0] == 1 && bytes[2] == 105
         case GasRelease(_, _, _, _, _, _) => bytes[0] == 255
         case Attestation(_, _) => bytes[0] == 254
         case SessionPreimage(_, _, _, _) => bytes[0] == 0
         case ChargePreimage(_, _) => bytes[0] == 12
         case SignatureCommitPreimage(_) => bytes[0] == 18
  {
    assert Uleb(18) == [18] && Uleb(12) == [12];
    assert Ascii("ika_protocol::gas::proof_of_possession")[0] == 105;
  }

  /** No two messages, of one family or of two, have the same bytes. */
  lemma MessagesDiffer(a: Message, b: Message)
    requires InRange(a) && InRange(b) && MessageBytes(a) == MessageBytes(b)
    ensures a == b
  {
    Families(a);
    Families(b);
    match a
    case Registration(_, _, _, _) => RegistrationsDiffer(a, b);
    case DepositProof(_, _, _) => DepositProofsDiffer(a, b);
    case GasRelease(_, _, _, _, _, _) => GasReleasesDiffer(a, b);
    case Attestation(_, _) => AttestationMessagesDiffer(a, b);
    case SessionPreimage(_, _, _, _) => SessionPreimagesDiffer(a, b);
    case ChargePreimage(_, _) => ChargePreimagesDiffer(a, b);
    case SignatureCommitPreimage(_) => SignatureCommitsDiffer(a, b);
  }

  // ── The builders ─────────────────────────────────────────────────────────

  /** `encryptionKeyRegistrationMessage`; a chain, network or curve out of range is cut to its width. */
  method RegistrationMessage(chain: nat, network: nat, curve: nat, encryptionKey: seq<u8>) returns (message: seq<u8>)
    ensures message == MessageBytes(Registration(chain, network % 256, curve, encryptionKey))
  {
    var domainLength := WriteUleb(|REGISTRATION_DOMAIN|);
    var keyLength := WriteUleb(|encryptionKey|);
    var chainBytes := [chain % 256, chain / 256 % 256, chain / 256 / 256 % 256, chain / 256 / 256 / 256 % 256];
    FourBytes(chain);
    var curveBytes := [curve % 256, curve / 256 % 256];
    TwoBytes(curve);
    message := [1, 0] + domainLength + REGISTRATION_DOMAIN + chainBytes + [network % 256] + curveBytes + keyLength + encryptionKey;
    Regrouped([1, 0], domainLength, REGISTRATION_DOMAIN, chainBytes, [network % 256], curveBytes, keyLength, encryptionKey);
  }

  lemma Regrouped(a: seq<u8>, b: seq<u8>, c: seq<u8>, d: seq<u8>, e: seq<u8>, f: seq<u8>, g: seq<u8>, h: seq<u8>)
    ensures a + b + c + d + e + f + g + h == a + (b + (c + (d + (e + (f + (g + h))))))
  {
  }

  lemma FourBytes(value: nat)
    ensures LittleEndian(value, 4) == [value % 256, value / 256 % 256, value / 256 / 256 % 256, value / 256 / 256 / 256 % 256]
  {
    var b := value / 256;
    var c := b / 256;
    var d := c / 256;
    assert LittleEndian(d, 1) == [d % 256] + LittleEndian(d / 256, 0);
    assert LittleEndian(c, 2) == [c % 256] + LittleEndian(d, 1);
    assert LittleEndian(b, 3) == [b % 256] + LittleEndian(c, 2);
    assert LittleEndian(value, 4) == [value % 256] + LittleEndian(b, 3);
  }

  lemma TwoBytes(value: nat)
    ensures LittleEndian(value, 2) == [value % 256, value / 256 % 256]
  {
    var b := value / 256;
    assert LittleEndian(b, 1) == [b % 256] + LittleEndian(b / 256, 0);
    assert LittleEndian(value, 2) == [value % 256] + LittleEndian(b, 1);
  }

  /** A number's little-endian bytes are those of what is left of it at their width. */
  lemma CutToWidth(value: nat, width: nat)
    ensures LittleEndian(value, width) == LittleEndian(value % Pow256(width), width)
  {
    ReadsCut(value, width);
    LittleEndianRoundTrip(value % Pow256(width), width);
    FromLittleEndianRoundTrip(LittleEndian(value, width));
    FromLittleEndianRoundTrip(LittleEndian(value % Pow256(width), width));
  }

  lemma {:induction false} ReadsCut(value: nat, width: nat)
    ensures FromLittleEndian(LittleEndian(value, width)) == value % Pow256(width)
  {
    if width > 0 {
      ReadsCut(value / 256, width - 1);
      var bytes := LittleEndian(value, width);
      assert bytes[1..] == LittleEndian(value / 256, width - 1);
      LowByteAndRest(value, Pow256(width - 1));
    }
  }

  lemma LowByteAndRest(value: nat, p: nat)
    requires p > 0
    ensures value % (256 * p) == value % 256 + 256 * (value / 256 % p)
  {
    var q, r := value / 256 / p, value / 256 % p;
    var low := value % 256;
    assert value / 256 == q * p + r;
    assert value == 256 * (q * p + r) + low;
    assert 256 * (q * p) == q * (256 * p);
    OneRemainder(value, 256 * p, q, low + 256 * r);
  }

  lemma OneRemainder(value: nat, divisor: nat, q: nat, r: nat)
    requires divisor > 0 && value == q * divisor + r && r < divisor
    ensures value % divisor == r
  {
    var d := value / divisor;
    assert value == d * divisor + value % divisor;
    assert (d - q) * divisor == r - value % divisor;
    if d != q {
      AtLeastOne(d - q, divisor);
    }
  }

  lemma AtLeastOne(k: int, divisor: nat)
    requires k != 0 && divisor > 0
    ensures k * divisor >= divisor || k * divisor + divisor <= 0
  {
    if k > 0 {
      assert (k - 1) * divisor >= 0;
    } else {
      assert (-k - 1) * divisor >= 0;
    }
  }

  /** `depositProofMessage`: a buffer filled from the front, the offset moved on. */
  method DepositProofMessage(chain: nat, network: u8, sender: seq<u8>) returns (message: seq<u8>)
    ensures message == MessageBytes(DepositProof(chain, network, sender))
  {
    var buffer := Load(Zeros(2 + |DEPOSIT_DOMAIN| + 4 + 1 + 1 + |sender|));
    var offset := Append(buffer, 0, [1, 0]);
    offset := Append(buffer, offset, DEPOSIT_DOMAIN);
    offset := Append(buffer, offset, LittleEndian(chain, 4));
    offset := Append(buffer, offset, [network]);
    offset := Append(buffer, offset, [|sender| % 256]);
    offset := Append(buffer, offset, sender);
    message := buffer[..];
    assert message == buffer[..offset];
    Regrouped([], [], [1, 0], DEPOSIT_DOMAIN, LittleEndian(chain, 4), [network], [|sender| % 256], sender);
  }

  /** `gasReleaseMessage`: 139 bytes, each key and number at its offset; a number of 2^64 or more is cut to eight bytes. */
  method GasReleaseMessage(m: Message) returns (message: seq<u8>)
    requires m.GasRelease?
    ensures message == MessageBytes(m) && |message| == 139
    ensures message == MessageBytes(m.(counter := m.counter % Pow256(8), ika := m.ika % Pow256(8), sol := m.sol % Pow256(8)))
  {
    var buffer := Load(Zeros(|RELEASE_PREFIX| + 32 * 3 + 8 * 3));
    var offset := Append(buffer, 0, RELEASE_PREFIX);
    offset := Append(buffer, offset, m.program.bytes);
    offset := Append(buffer, offset, m.deposit.bytes);
    offset := Append(buffer, offset, m.requestKey.bytes);
    offset := Append(buffer, offset, LittleEndian(m.counter, 8));
    offset := Append(buffer, offset, LittleEndian(m.ika, 8));
    offset := Append(buffer, offset, LittleEndian(m.sol, 8));
    message := buffer[..];
    assert message == buffer[..offset];
    CutToWidth(m.counter, 8);
    CutToWidth(m.ika, 8);
    CutToWidth(m.sol, 8);
    Regrouped([], RELEASE_PREFIX, m.program.bytes, m.deposit.bytes, m.requestKey.bytes,
              LittleEndian(m.counter, 8), LittleEndian(m.ika, 8), LittleEndian(m.sol, 8));
  }
}
