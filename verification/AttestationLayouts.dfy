/**
 * The attestations byte by byte, field by named field, as the network signs
 * them (sdk/core/src/grpc/bcs.ts) and as Solana accounts store them
 * (sdk/solana/src/accounts.ts).
 */
module AttestationLayouts {
  import opened Common
  import opened Bytes
  import opened VariableLength
  import opened Attestations
  import opened AttestationAccounts
  import opened AttestationReader

  /** A holder: its scheme's variant, then its key. */
  datatype HolderOf = HolderOf(scheme: u8, key: Bytes32)

  function Held(holder: HolderOf): seq<u8> { [holder.scheme] + holder.key }

  function Perhaps(bytes: Option<seq<u8>>): Value {
    match bytes
    case None => Absent
    case Some(value) => Present(Of(value))
  }

  // ── A dWallet ──────────────────────────────────────────────────────────────

  datatype DWalletParts = DWalletParts(
    session: Bytes32, sender: seq<u8>, curve: u8, publicKey: seq<u8>, publicOutput: seq<u8>, imported: bool,
    signature: Option<seq<u8>>, holder: Option<HolderOf>, keyHash: Option<Bytes32>, shareHash: Option<Bytes32>,
    epoch: nat)

  function DWalletValues(d: DWalletParts): seq<Value> {
    [Of(d.session), Of(d.sender), Of([d.curve]), Of(d.publicKey), Of(d.publicOutput),
     Of([if d.imported then 1 else 0]), Perhaps(d.signature),
     Perhaps(if d.holder.Some? then Some(Held(d.holder.value)) else None), Perhaps(d.keyHash),
     Perhaps(d.shareHash), Of(LittleEndian(d.epoch, 8))]
  }

  lemma DWalletBytes(d: DWalletParts)
    ensures LaidOut(DWallet, DWalletValues(d)) == [0] + Joined([
              d.session,
              Uleb(|d.sender|) + d.sender,
              [d.curve],
              Uleb(|d.publicKey|) + d.publicKey,
              Uleb(|d.publicOutput|) + d.publicOutput,
              [if d.imported then 1 else 0],
              if d.signature.Some? then [1] + (Uleb(|d.signature.value|) + d.signature.value) else [0],
              if d.holder.Some? then [1] + ([d.holder.value.scheme] + d.holder.value.key) else [0],
              if d.keyHash.Some? then [1] + d.keyHash.value else [0],
              if d.shareHash.Some? then [1] + d.shareHash.value else [0],
              LittleEndian(d.epoch, 8)])
  {
    var written := [
      d.session,
      Uleb(|d.sender|) + d.sender,
      [d.curve],
      Uleb(|d.publicKey|) + d.publicKey,
      Uleb(|d.publicOutput|) + d.publicOutput,
      [if d.imported then 1 else 0],
      if d.signature.Some? then [1] + (Uleb(|d.signature.value|) + d.signature.value) else [0],
      if d.holder.Some? then [1] + ([d.holder.value.scheme] + d.holder.value.key) else [0],
      if d.keyHash.Some? then [1] + d.keyHash.value else [0],
      if d.shareHash.Some? then [1] + d.shareHash.value else [0],
      LittleEndian(d.epoch, 8)];
    JoinedWritten(Encode, Fields(DWallet), DWalletValues(d), written);
  }

  lemma StoredDWalletBytes(d: DWalletParts)
    ensures WriteAll(Store, Fields(DWallet), DWalletValues(d)) == Joined([
              d.session,
              LittleEndian(|d.sender|, 1) + d.sender,
              [d.curve],
              LittleEndian(|d.publicKey|, 1) + d.publicKey,
              LittleEndian(|d.publicOutput|, 2) + d.publicOutput,
              [if d.imported then 1 else 0],
              if d.signature.Some? then [1] + (LittleEndian(|d.signature.value|, 2) + d.signature.value) else [0],
              if d.holder.Some? then [1] + ([d.holder.value.scheme] + d.holder.value.key) else [0],
              if d.keyHash.Some? then [1] + d.keyHash.value else [0],
              if d.shareHash.Some? then [1] + d.shareHash.value else [0],
              LittleEndian(d.epoch, 8)])
  {
    var stored := [
      d.session,
      LittleEndian(|d.sender|, 1) + d.sender,
      [d.curve],
      LittleEndian(|d.publicKey|, 1) + d.publicKey,
      LittleEndian(|d.publicOutput|, 2) + d.publicOutput,
      [if d.imported then 1 else 0],
      if d.signature.Some? then [1] + (LittleEndian(|d.signature.value|, 2) + d.signature.value) else [0],
      if d.holder.Some? then [1] + ([d.holder.value.scheme] + d.holder.value.key) else [0],
      if d.keyHash.Some? then [1] + d.keyHash.value else [0],
      if d.shareHash.Some? then [1] + d.shareHash.value else [0],
      LittleEndian(d.epoch, 8)];
    JoinedWritten(Store, Fields(DWallet), DWalletValues(d), stored);
  }

  // ── A presign ──────────────────────────────────────────────────────────────

  datatype PresignParts = PresignParts(
    session: Bytes32, epoch: nat, presignSession: seq<u8>, presignData: seq<u8>, curve: u8, algorithm: u8,
    dwalletKey: Option<seq<u8>>, userKey: seq<u8>)

  function PresignValues(q: PresignParts): seq<Value> {
    [Of(q.session), Of(LittleEndian(q.epoch, 8)), Of(q.presignSession), Of(q.presignData), Of([q.curve]),
     Of([q.algorithm]), Perhaps(q.dwalletKey), Of(q.userKey)]
  }

  lemma PresignBytes(q: PresignParts)
    ensures LaidOut(Presign, PresignValues(q)) == [0] + Joined([
              q.session,
              LittleEndian(q.epoch, 8),
              Uleb(|q.presignSession|) + q.presignSession,
              Uleb(|q.presignData|) + q.presignData,
              [q.curve],
              [q.algorithm],
              if q.dwalletKey.Some? then [1] + (Uleb(|q.dwalletKey.value|) + q.dwalletKey.value) else [0],
              Uleb(|q.userKey|) + q.userKey])
  {
    var written := [
      q.session,
      LittleEndian(q.epoch, 8),
      Uleb(|q.presignSession|) + q.presignSession,
      Uleb(|q.presignData|) + q.presignData,
      [q.curve],
      [q.algorithm],
      if q.dwalletKey.Some? then [1] + (Uleb(|q.dwalletKey.value|) + q.dwalletKey.value) else [0],
      Uleb(|q.userKey|) + q.userKey];
    JoinedWritten(Encode, Fields(Presign), PresignValues(q), written);
  }

  // ── A partial user signature ───────────────────────────────────────────────

  datatype PartialParts = PartialParts(
    session: Bytes32, sender: seq<u8>, publicKey: seq<u8>, dwalletHash: Bytes32, voucher: Bytes32,
    presignSession: seq<u8>, presignHash: Bytes32, messageDigest: Bytes32, metadataDigest: Bytes32, scheme: u8,
    signData: seq<u8>)

  function PartialUserSignatureValues(q: PartialParts): seq<Value> {
    [Of(q.session), Of(q.sender), Of(q.publicKey), Of(q.dwalletHash), Of(q.voucher), Of(q.presignSession),
     Of(q.presignHash), Of(q.messageDigest), Of(q.metadataDigest), Of([q.scheme]), Of(q.signData)]
  }

  lemma PartialUserSignatureBytes(q: PartialParts)
    ensures LaidOut(PartialUserSignature, PartialUserSignatureValues(q)) == [0] + Joined([
              q.session,
              Uleb(|q.sender|) + q.sender,
              Uleb(|q.publicKey|) + q.publicKey,
              q.dwalletHash,
              q.voucher,
              Uleb(|q.presignSession|) + q.presignSession,
              q.presignHash,
              q.messageDigest,
              q.metadataDigest,
              [q.scheme],
              Uleb(|q.signData|) + q.signData])
  {
    var written := [
      q.session,
      Uleb(|q.sender|) + q.sender,
      Uleb(|q.publicKey|) + q.publicKey,
      q.dwalletHash,
      q.voucher,
      Uleb(|q.presignSession|) + q.presignSession,
      q.presignHash,
      q.messageDigest,
      q.metadataDigest,
      [q.scheme],
      Uleb(|q.signData|) + q.signData];
    JoinedWritten(Encode, Fields(PartialUserSignature), PartialUserSignatureValues(q), written);
  }

  lemma StoredPartialUserSignatureBytes(q: PartialParts)
    ensures WriteAll(Store, Fields(PartialUserSignature), PartialUserSignatureValues(q)) == Joined([
              q.session,
              LittleEndian(|q.sender|, 1) + q.sender,
              LittleEndian(|q.publicKey|, 1) + q.publicKey,
              q.dwalletHash,
              q.voucher,
              LittleEndian(|q.presignSession|, 1) + q.presignSession,
              q.presignHash,
              q.messageDigest,
              q.metadataDigest,
              [q.scheme],
              LittleEndian(|q.signData|, 2) + q.signData])
  {
    var stored := [
      q.session,
      LittleEndian(|q.sender|, 1) + q.sender,
      LittleEndian(|q.publicKey|, 1) + q.publicKey,
      q.dwalletHash,
      q.voucher,
      LittleEndian(|q.presignSession|, 1) + q.presignSession,
      q.presignHash,
      q.messageDigest,
      q.metadataDigest,
      [q.scheme],
      LittleEndian(|q.signData|, 2) + q.signData];
    JoinedWritten(Store, Fields(PartialUserSignature), PartialUserSignatureValues(q), stored);
  }

  // ── An encrypted share ─────────────────────────────────────────────────────

  datatype ShareParts = ShareParts(
    session: Bytes32, sender: seq<u8>, publicKey: seq<u8>, shareHash: Bytes32, keyHash: Bytes32, holder: HolderOf,
    digest: Bytes32)

  function EncryptedShareValues(h: ShareParts): seq<Value> {
    [Of(h.session), Of(h.sender), Of(h.publicKey), Of(h.shareHash), Of(h.keyHash), Of(Held(h.holder)),
     Of(h.digest)]
  }

  lemma EncryptedShareBytes(h: ShareParts)
    ensures LaidOut(EncryptedShare, EncryptedShareValues(h)) == [0] + Joined([
              h.session,
              Uleb(|h.sender|) + h.sender,
              Uleb(|h.publicKey|) + h.publicKey,
              h.shareHash,
              h.keyHash,
              [h.holder.scheme] + h.holder.key,
              h.digest])
  {
    var written := [
      h.session,
      Uleb(|h.sender|) + h.sender,
      Uleb(|h.publicKey|) + h.publicKey,
      h.shareHash,
      h.keyHash,
      [h.holder.scheme] + h.holder.key,
      h.digest];
    JoinedWritten(Encode, Fields(EncryptedShare), EncryptedShareValues(h), written);
  }

  lemma StoredEncryptedShareBytes(h: ShareParts)
    ensures WriteAll(Store, Fields(EncryptedShare), EncryptedShareValues(h)) == Joined([
              h.session,
              LittleEndian(|h.sender|, 1) + h.sender,
              LittleEndian(|h.publicKey|, 1) + h.publicKey,
              h.shareHash,
              h.keyHash,
              [h.holder.scheme] + h.holder.key,
              h.digest])
  {
    var stored := [
      h.session,
      LittleEndian(|h.sender|, 1) + h.sender,
      LittleEndian(|h.publicKey|, 1) + h.publicKey,
      h.shareHash,
      h.keyHash,
      [h.holder.scheme] + h.holder.key,
      h.digest];
    JoinedWritten(Store, Fields(EncryptedShare), EncryptedShareValues(h), stored);
  }

  // ── A public share ─────────────────────────────────────────────────────────

  datatype PublicParts = PublicParts(
    session: Bytes32, sender: seq<u8>, publicKey: seq<u8>, share: seq<u8>, digest: Bytes32)

  function PublicShareValues(h: PublicParts): seq<Value> {
    [Of(h.session), Of(h.sender), Of(h.publicKey), Of(h.share), Of(h.digest)]
  }

  lemma PublicShareBytes(h: PublicParts)
    ensures LaidOut(PublicShare, PublicShareValues(h)) == [0] + Joined([
              h.session,
              Uleb(|h.sender|) + h.sender,
              Uleb(|h.publicKey|) + h.publicKey,
              Uleb(|h.share|) + h.share,
              h.digest])
  {
    var written := [
      h.session,
      Uleb(|h.sender|) + h.sender,
      Uleb(|h.publicKey|) + h.publicKey,
      Uleb(|h.share|) + h.share,
      h.digest];
    JoinedWritten(Encode, Fields(PublicShare), PublicShareValues(h), written);
  }

  lemma StoredPublicShareBytes(h: PublicParts)
    ensures WriteAll(Store, Fields(PublicShare), PublicShareValues(h)) == Joined([
              h.session,
              LittleEndian(|h.sender|, 1) + h.sender,
              LittleEndian(|h.publicKey|, 1) + h.publicKey,
              LittleEndian(|h.share|, 2) + h.share,
              h.digest])
  {
    var stored := [
      h.session,
      LittleEndian(|h.sender|, 1) + h.sender,
      LittleEndian(|h.publicKey|, 1) + h.publicKey,
      LittleEndian(|h.share|, 2) + h.share,
      h.digest];
    JoinedWritten(Store, Fields(PublicShare), PublicShareValues(h), stored);
  }

  // ── Which parts can be signed, and stored ───────────────────────────────

  lemma EachOf5(ok: (Field, Value) -> bool, fs: seq<Field>, vs: seq<Value>)
    requires |fs| == |vs| == 5
    ensures All(ok, fs, vs) <==>
              && ok(fs[0], vs[0]) && ok(fs[1], vs[1]) && ok(fs[2], vs[2]) && ok(fs[3], vs[3])
              && ok(fs[4], vs[4])
  {
  }

  lemma EachOf7(ok: (Field, Value) -> bool, fs: seq<Field>, vs: seq<Value>)
    requires |fs| == |vs| == 7
    ensures All(ok, fs, vs) <==>
              && ok(fs[0], vs[0]) && ok(fs[1], vs[1]) && ok(fs[2], vs[2]) && ok(fs[3], vs[3])
              && ok(fs[4], vs[4]) && ok(fs[5], vs[5]) && ok(fs[6], vs[6])
  {
  }

  lemma EachOf8(ok: (Field, Value) -> bool, fs: seq<Field>, vs: seq<Value>)
    requires |fs| == |vs| == 8
    ensures All(ok, fs, vs) <==>
              && ok(fs[0], vs[0]) && ok(fs[1], vs[1]) && ok(fs[2], vs[2]) && ok(fs[3], vs[3])
              && ok(fs[4], vs[4]) && ok(fs[5], vs[5]) && ok(fs[6], vs[6]) && ok(fs[7], vs[7])
  {
  }

  lemma EachOf11(ok: (Field, Value) -> bool, fs: seq<Field>, vs: seq<Value>)
    requires |fs| == |vs| == 11
    ensures All(ok, fs, vs) <==>
              && ok(fs[0], vs[0]) && ok(fs[1], vs[1]) && ok(fs[2], vs[2]) && ok(fs[3], vs[3])
              && ok(fs[4], vs[4]) && ok(fs[5], vs[5]) && ok(fs[6], vs[6]) && ok(fs[7], vs[7])
              && ok(fs[8], vs[8]) && ok(fs[9], vs[9]) && ok(fs[10], vs[10])
  {
  }

  lemma DWalletCanBe(d: DWalletParts)
    ensures All(WellFormed, Fields(DWallet), DWalletValues(d)) <==>
              d.curve < 4 && (d.holder.Some? ==> d.holder.value.scheme < 3)
  {
    EachOf11(WellFormed, Fields(DWallet), DWalletValues(d));
  }

  lemma DWalletCanBeStored(d: DWalletParts)
    ensures All(Storable, Fields(DWallet), DWalletValues(d)) <==>
              && |d.sender| < 0x100 && |d.publicKey| < 0x100 && |d.publicOutput| < 0x1_0000
              && (d.signature.Some? ==> |d.signature.value| < 0x1_0000)
  {
    EachOf11(Storable, Fields(DWallet), DWalletValues(d));
  }

  lemma PresignCanBe(q: PresignParts)
    ensures All(WellFormed, Fields(Presign), PresignValues(q)) <==>
              q.curve < 4 && q.algorithm < 8
  {
    EachOf8(WellFormed, Fields(Presign), PresignValues(q));
  }

  lemma PartialUserSignatureCanBe(q: PartialParts)
    ensures All(WellFormed, Fields(PartialUserSignature), PartialUserSignatureValues(q)) <==>
              q.scheme < 7
  {
    EachOf11(WellFormed, Fields(PartialUserSignature), PartialUserSignatureValues(q));
  }

  lemma PartialUserSignatureCanBeStored(q: PartialParts)
    ensures All(Storable, Fields(PartialUserSignature), PartialUserSignatureValues(q)) <==>
              && |q.sender| < 0x100 && |q.publicKey| < 0x100 && |q.presignSession| < 0x100 && |q.signData| < 0x1_0000
  {
    EachOf11(Storable, Fields(PartialUserSignature), PartialUserSignatureValues(q));
  }

  lemma EncryptedShareCanBe(h: ShareParts)
    ensures All(WellFormed, Fields(EncryptedShare), EncryptedShareValues(h)) <==>
              h.holder.scheme < 3
  {
    EachOf7(WellFormed, Fields(EncryptedShare), EncryptedShareValues(h));
  }

  lemma EncryptedShareCanBeStored(h: ShareParts)
    ensures All(Storable, Fields(EncryptedShare), EncryptedShareValues(h)) <==>
              && |h.sender| < 0x100 && |h.publicKey| < 0x100
  {
    EachOf7(Storable, Fields(EncryptedShare), EncryptedShareValues(h));
  }

  lemma PublicShareCanBe(h: PublicParts)
    ensures All(WellFormed, Fields(PublicShare), PublicShareValues(h))
  {
    EachOf5(WellFormed, Fields(PublicShare), PublicShareValues(h));
  }

  lemma PublicShareCanBeStored(h: PublicParts)
    ensures All(Storable, Fields(PublicShare), PublicShareValues(h)) <==>
              && |h.sender| < 0x100 && |h.publicKey| < 0x100 && |h.share| < 0x1_0000
  {
    EachOf5(Storable, Fields(PublicShare), PublicShareValues(h));
  }
}
