/**
 * The checks of a share's record: the attestation against the dWallet and the
 * holder that were asked for (sdk/core/src/grpc/attestation-record.ts), and
 * every value a Solana share account stores beside it
 * (sdk/solana/src/record-checks.ts, sdk/core/src/common/ika-client-base.ts).
 */
module ShareChecks {
  import opened Common
  import opened Bytes
  import opened Attestations
  import opened AttestationTheorems
  import opened AttestationLayouts
  import opened Messages

  /** The hash and the signature scheme, of which nothing is assumed here. */
  datatype Crypto = Crypto(
    keccak: seq<u8> -> Bytes32,
    verifies: (seq<u8>, seq<u8>, seq<u8>) -> bool)   // signature, message, public key

  /** Two byte strings that are not a collision of the hash. */
  predicate NoCollision(crypto: Crypto, a: seq<u8>, b: seq<u8>) {
    crypto.keccak(a) == crypto.keccak(b) ==> a == b
  }

  datatype Check =
    | Version | Signer | Signature | Decode | Length
    | Binding(field: string)
    | Stored(field: string)

  /** An attestation as the checks take it: its bytes, and what its proof holds. */
  datatype Record = Record(data: seq<u8>, version: u8, signature: seq<u8>, signer: seq<u8>)

  // ── The decoded attestations ─────────────────────────────────────────────

  datatype HolderKey = HolderKey(scheme: u8, key: seq<u8>)

  datatype DWalletFields = DWalletFields(
    session: seq<u8>, sender: seq<u8>, curve: u8, publicKey: seq<u8>, imported: bool,
    holder: Option<HolderKey>, keyHash: Option<seq<u8>>, shareHash: Option<seq<u8>>)

  datatype ShareFields = ShareFields(
    session: seq<u8>, sender: seq<u8>, publicKey: seq<u8>,
    shareHash: seq<u8>, keyHash: seq<u8>, holder: HolderKey, digest: seq<u8>)

  function BytesIn(v: Value): seq<u8> { if v.Of? then v.bytes else [] }

  function HolderIn(v: Value): HolderKey {
    var bytes := BytesIn(v);
    if |bytes| == 33 then HolderKey(bytes[0], bytes[1..]) else HolderKey(0, [])
  }

  function DWalletFieldsOf(vs: seq<Value>): DWalletFields
    requires |vs| == 11
  {
    DWalletFields(
      BytesIn(vs[0]), BytesIn(vs[1]), if BytesIn(vs[2]) == [] then 0 else BytesIn(vs[2])[0], BytesIn(vs[3]),
      BytesIn(vs[5]) == [1],
      if vs[7].Present? then Some(HolderIn(vs[7].value)) else None,
      if vs[8].Present? then Some(BytesIn(vs[8].value)) else None,
      if vs[9].Present? then Some(BytesIn(vs[9].value)) else None)
  }

  function ShareFieldsOf(vs: seq<Value>): ShareFields
    requires |vs| == 7
  {
    ShareFields(BytesIn(vs[0]), BytesIn(vs[1]), BytesIn(vs[2]), BytesIn(vs[3]), BytesIn(vs[4]), HolderIn(vs[5]), BytesIn(vs[6]))
  }

  // ── The signed bytes ─────────────────────────────────────────────────────

  /** `verifyAndDecode`: version, signer, signature, exact decoding. */
  function VerifyAndDecode(crypto: Crypto, record: Record, trusted: set<seq<u8>>, kind: Kind): (decoded: Result<seq<Value>, Check>)
    ensures decoded.Ok? ==> |decoded.value| == |Fields(kind)|
  {
    if record.version != 0 then Err(Version)
    else if record.signer !in trusted then Err(Signer)
    else if !crypto.verifies(record.signature, MessageBytes(Attestation(kind, record.data)), record.signer) then Err(Signature)
    else
      match DecodeExactly(kind, record.data)
      case None => Err(Decode)
      case Some(vs) => Ok(vs)
  }

  /** The network's keys verify only what the network signed, and it signs whole messages. */
  ghost predicate SignsOnly(crypto: Crypto, trusted: set<seq<u8>>, signed: set<Message>) {
    && (forall m <- signed :: InRange(m))
    && forall signature, bytes, key | key in trusted && crypto.verifies(signature, bytes, key) ::
         exists m <- signed :: MessageBytes(m) == bytes
  }

  /** A record that passes is one the network signed, as its own kind and as nothing else, and decodes as what it signed. */
  lemma PassedIsSigned(crypto: Crypto, record: Record, trusted: set<seq<u8>>, kind: Kind, signed: set<Message>)
    requires SignsOnly(crypto, trusted, signed) && VerifyAndDecode(crypto, record, trusted, kind).Ok?
    ensures Attestation(kind, record.data) in signed
    ensures
      var vs := VerifyAndDecode(crypto, record, trusted, kind).value;
      All(WellFormed, Fields(kind), vs) && record.data == LaidOut(kind, vs)
  {
    var m :| m in signed && MessageBytes(m) == MessageBytes(Attestation(kind, record.data));
    MessagesDiffer(m, Attestation(kind, record.data));
    DecodesExactly(kind, record.data, VerifyAndDecode(crypto, record, trusted, kind).value);
  }

  // ── A dWallet ────────────────────────────────────────────────────────────

  datatype VerifiedDWallet = VerifiedDWallet(data: seq<u8>, fields: DWalletFields)

  function VerifyDWallet(crypto: Crypto, record: Record, trusted: set<seq<u8>>, curve: u8, publicKey: seq<u8>,
                         importedSession: Option<seq<u8>>): Result<VerifiedDWallet, Check>
  {
    match VerifyAndDecode(crypto, record, trusted, DWallet)
    case Err(check) => Err(check)
    case Ok(vs) =>
      var fields := DWalletFieldsOf(vs);
      if fields.curve != curve then Err(Binding("curve"))
      else if fields.publicKey != publicKey then Err(Binding("public_key"))
      else if fields.imported != importedSession.Some? then Err(Binding("is_imported_key"))
      else if importedSession.Some? && fields.session != importedSession.value then Err(Binding("session_identifier"))
      else Ok(VerifiedDWallet(record.data, fields))
  }

  /** The dWallet's bytes are an attestation's, and the fields its own. */
  predicate IsVerified(dwallet: VerifiedDWallet) {
    match DecodeExactly(DWallet, dwallet.data)
    case Some(vs) => dwallet.fields == DWalletFieldsOf(vs)
    case None => false
  }

  lemma VerifiedIsItsBytes(crypto: Crypto, record: Record, trusted: set<seq<u8>>, curve: u8, publicKey: seq<u8>,
                           importedSession: Option<seq<u8>>)
    requires VerifyDWallet(crypto, record, trusted, curve, publicKey, importedSession).Ok?
    ensures
      var dwallet := VerifyDWallet(crypto, record, trusted, curve, publicKey, importedSession).value;
      && IsVerified(dwallet) && dwallet.data == record.data
      && dwallet.fields.curve == curve && dwallet.fields.publicKey == publicKey
      && (importedSession.Some? ==> dwallet.fields.imported && dwallet.fields.session == importedSession.value)
      && (importedSession.None? ==> !dwallet.fields.imported)
  {
  }

  /** Signed as a dWallet's attestation by a trusted key, and laid out as one of these fields. */
  ghost predicate SignedDWallet(crypto: Crypto, record: Record, trusted: set<seq<u8>>, vs: seq<Value>) {
    && All(WellFormed, Fields(DWallet), vs) && record.data == LaidOut(DWallet, vs)
    && record.version == 0 && record.signer in trusted
    && crypto.verifies(record.signature, MessageBytes(Attestation(DWallet, record.data)), record.signer)
  }

  /** The check is sound and complete: it passes exactly the signed attestations of the dWallet that was asked for. */
  lemma DWalletPassesExactly(crypto: Crypto, record: Record, trusted: set<seq<u8>>, curve: u8, publicKey: seq<u8>,
                             importedSession: Option<seq<u8>>, passed: VerifiedDWallet)
    ensures VerifyDWallet(crypto, record, trusted, curve, publicKey, importedSession) == Ok(passed) <==>
              exists vs ::
                && |vs| == 11 && SignedDWallet(crypto, record, trusted, vs)
                && passed == VerifiedDWallet(record.data, DWalletFieldsOf(vs))
                && passed.fields.curve == curve && passed.fields.publicKey == publicKey
                && (passed.fields.imported <==> importedSession.Some?)
                && (importedSession.Some? ==> passed.fields.session == importedSession.value)
  {
    if VerifyDWallet(crypto, record, trusted, curve, publicKey, importedSession) == Ok(passed) {
      var vs := VerifyAndDecode(crypto, record, trusted, DWallet).value;
      DecodesExactly(DWallet, record.data, vs);
      assert SignedDWallet(crypto, record, trusted, vs);
    }
    if vs :|
      && |vs| == 11 && SignedDWallet(crypto, record, trusted, vs)
      && passed == VerifiedDWallet(record.data, DWalletFieldsOf(vs))
      && passed.fields.curve == curve && passed.fields.publicKey == publicKey
      && (passed.fields.imported <==> importedSession.Some?)
      && (importedSession.Some? ==> passed.fields.session == importedSession.value)
    {
      DecodesExactly(DWallet, record.data, vs);
    }
  }

  /** The fields compared are the attestation's fields of those names. */
  lemma DWalletFieldsAreNamed(d: DWalletParts)
    ensures DWalletFieldsOf(DWalletValues(d)) == DWalletFields(
              d.session, d.sender, d.curve, d.publicKey, d.imported,
              if d.holder.Some? then Some(HolderKey(d.holder.value.scheme, d.holder.value.key)) else None,
              if d.keyHash.Some? then Some(d.keyHash.value) else None,
              if d.shareHash.Some? then Some(d.shareHash.value) else None)
  {
    if d.holder.Some? {
      assert Held(d.holder.value)[1..] == d.holder.value.key;
    }
  }

  lemma ShareFieldsAreNamed(h: ShareParts)
    ensures ShareFieldsOf(EncryptedShareValues(h)) == ShareFields(
              h.session, h.sender, h.publicKey, h.shareHash, h.keyHash,
              HolderKey(h.holder.scheme, h.holder.key), h.digest)
  {
    assert Held(h.holder)[1..] == h.holder.key;
  }

  // ── An encrypted share ───────────────────────────────────────────────────

  /** A share made by the request that made its dWallet names the same session. */
  predicate IsFirst(share: ShareFields, dwallet: DWalletFields) {
    share.session == dwallet.session
  }

  /** The binding of a share to the dWallet and the holder asked for: the first field that differs. */
  function ShareRefusal(crypto: Crypto, share: ShareFields, dwallet: VerifiedDWallet, holder: HolderKey): Option<Check> {
    var fields := dwallet.fields;
    if !IsFirst(share, fields) then
      if share.sender != fields.sender then Some(Binding("intended_chain_sender"))
      else if share.publicKey != fields.publicKey then Some(Binding("dwallet_public_key"))
      else if share.digest != crypto.keccak(dwallet.data) then Some(Binding("dwallet_attestation_digest"))
      else if share.holder != holder then Some(Binding("holder"))
      else None
    else if share.session != fields.session then Some(Binding("session_identifier"))
    else if share.sender != fields.sender then Some(Binding("intended_chain_sender"))
    else if share.publicKey != fields.publicKey then Some(Binding("dwallet_public_key"))
    else if Some(share.shareHash) != fields.shareHash then Some(Binding("encrypted_share_hash"))
    else if Some(share.keyHash) != fields.keyHash then Some(Binding("encryption_key_hash"))
    else if fields.holder != Some(share.holder) || share.holder != holder then Some(Binding("holder"))
    else if share.digest != crypto.keccak(dwallet.data) then Some(Binding("dwallet_attestation_digest"))
    else None
  }

  function VerifyEncryptedShare(crypto: Crypto, record: Record, trusted: set<seq<u8>>, dwallet: VerifiedDWallet, holder: HolderKey)
    : Result<ShareFields, Check>
  {
    match VerifyAndDecode(crypto, record, trusted, EncryptedShare)
    case Err(check) => Err(check)
    case Ok(vs) =>
      match ShareRefusal(crypto, ShareFieldsOf(vs), dwallet, holder)
      case Some(check) => Err(check)
      case None => Ok(ShareFieldsOf(vs))
  }

  /**
   * One encrypted-share record passes for at most one dWallet and one holder:
   * two dWallets it passes for have the same attestation bytes, a first share
   * and a re-encrypted one alike.
   */
  lemma OneDWalletPerRecord(crypto: Crypto, record: Record, trusted: set<seq<u8>>, also: set<seq<u8>>,
                            one: VerifiedDWallet, holder: HolderKey, other: VerifiedDWallet, otherHolder: HolderKey)
    requires IsVerified(one) && IsVerified(other) && NoCollision(crypto, one.data, other.data)
    requires VerifyEncryptedShare(crypto, record, trusted, one, holder).Ok?
    requires VerifyEncryptedShare(crypto, record, also, other, otherHolder).Ok?
    ensures one == other && holder == otherHolder
  {
  }

  /** For one dWallet, a record is a first share's or a re-encrypted one's, whichever holder is asked for. */
  lemma OneDigestPerRecord(crypto: Crypto, record: Record, trusted: set<seq<u8>>, dwallet: VerifiedDWallet, holder: HolderKey)
    requires VerifyEncryptedShare(crypto, record, trusted, dwallet, holder).Ok?
    ensures
      var share := VerifyEncryptedShare(crypto, record, trusted, dwallet, holder).value;
      && share.holder == holder
      && share.digest == crypto.keccak(dwallet.data)
      && share.sender == dwallet.fields.sender && share.publicKey == dwallet.fields.publicKey
      && (IsFirst(share, dwallet.fields) ==>
            && dwallet.fields.holder == Some(holder)
            && dwallet.fields.shareHash == Some(share.shareHash) && dwallet.fields.keyHash == Some(share.keyHash))
  {
  }

  // ── The Solana account of a share ────────────────────────────────────────

  datatype ShareAccount = ShareAccount(
    dwallet: seq<u8>, owner: seq<u8>, sourceShare: seq<u8>, isReEncrypted: bool, accepted: bool,
    acceptanceSignature: seq<u8>, acceptanceDigest: seq<u8>, encryptedShare: seq<u8>)

  /** What the check is asked for: the dWallet and its address, the holder and its registered key. */
  datatype Asked = Asked(dwallet: VerifiedDWallet, address: seq<u8>, holder: HolderKey, registeredKey: seq<u8>)

  datatype VerifiedShare = VerifiedShare(fields: ShareFields, acceptance: seq<u8>, acceptanceGiven: bool)

  predicate IsNone32(bytes: seq<u8>) { |bytes| == 32 && forall i | 0 <= i < 32 :: bytes[i] == 0 }

  lemma NoneIsZeros(bytes: seq<u8>)
    ensures IsNone32(bytes) <==> bytes == Zeros(32)
  {
  }

  /** The digest a holder signs: of the dWallet's attestation for a first share, of the share's own for a later one. */
  function AcceptedDigest(crypto: Crypto, first: bool, dwallet: VerifiedDWallet, record: Record): seq<u8> {
    if first then crypto.keccak(dwallet.data) else crypto.keccak(record.data)
  }

  /** `verifySolanaEncryptedShareRecord`: one comparison after the other, the first that fails named. */
  function VerifySolanaShare(crypto: Crypto, account: ShareAccount, record: Record, trusted: set<seq<u8>>,
                             asked: Asked, given: Option<seq<u8>>): Result<VerifiedShare, Check>
  {
    if account.dwallet != asked.address then Err(Stored("dwallet"))
    else
      match VerifyEncryptedShare(crypto, record, trusted, asked.dwallet, asked.holder)
      case Err(check) => Err(check)
      case Ok(share) =>
        var first := IsFirst(share, asked.dwallet.fields);
        var digest := AcceptedDigest(crypto, first, asked.dwallet, record);
        var acceptanceGiven := !account.accepted && given.Some?;
        var acceptance := if acceptanceGiven then given.value else account.acceptanceSignature;
        if share.holder.key != account.owner then Err(Stored("encryption_key_owner"))
        else if |account.sourceShare| != 32 || IsNone32(account.sourceShare) != first then Err(Stored("source_share"))
        else if account.isReEncrypted != !first then Err(Stored("is_re_encrypted"))
        else if crypto.keccak(account.encryptedShare) != share.shareHash then Err(Stored("encrypted_share"))
        else if crypto.keccak(asked.registeredKey) != share.keyHash then Err(Stored("encryption_key_hash"))
        else if !(account.accepted || acceptanceGiven) then Err(Stored("accepted"))
        else if account.acceptanceDigest != digest then Err(Stored("acceptance_digest"))
        else if !crypto.verifies(acceptance, digest, share.holder.key) then Err(Stored("acceptance_signature"))
        else Ok(VerifiedShare(share, acceptance, acceptanceGiven))
  }

  // ── What acceptance means ────────────────────────────────────────────────

  /** The record holds an attestation of these fields, signed as an encrypted share's by a trusted key. */
  ghost predicate SignedShare(crypto: Crypto, record: Record, trusted: set<seq<u8>>, vs: seq<Value>) {
    && All(WellFormed, Fields(EncryptedShare), vs) && record.data == LaidOut(EncryptedShare, vs)
    && record.version == 0 && record.signer in trusted
    && crypto.verifies(record.signature, MessageBytes(Attestation(EncryptedShare, record.data)), record.signer)
  }

  /** A first share, exactly as the dWallet's own attestation names it; or a later one, of another session. */
  ghost predicate ShareOf(crypto: Crypto, share: ShareFields, dwallet: VerifiedDWallet, holder: HolderKey, first: bool) {
    && share.sender == dwallet.fields.sender && share.publicKey == dwallet.fields.publicKey
    && share.digest == crypto.keccak(dwallet.data) && share.holder == holder
    && if first then
         && share.session == dwallet.fields.session && dwallet.fields.holder == Some(share.holder)
         && dwallet.fields.shareHash == Some(share.shareHash) && dwallet.fields.keyHash == Some(share.keyHash)
       else share.session != dwallet.fields.session
  }

  /** The account holds that share, for that dWallet and holder. */
  ghost predicate HoldsShare(crypto: Crypto, account: ShareAccount, share: ShareFields, asked: Asked, first: bool) {
    && account.dwallet == asked.address && account.owner == asked.holder.key
    && |account.sourceShare| == 32
    && (first <==> account.sourceShare == Zeros(32)) && (first <==> !account.isReEncrypted)
    && crypto.keccak(account.encryptedShare) == share.shareHash
    && crypto.keccak(asked.registeredKey) == share.keyHash
  }

  /** The share is committed: signed, of this dWallet and holder, and stored as such. */
  ghost predicate Committed(crypto: Crypto, account: ShareAccount, record: Record, trusted: set<seq<u8>>,
                            asked: Asked, vs: seq<Value>, first: bool)
  {
    && |vs| == 7
    && SignedShare(crypto, record, trusted, vs)
    && ShareOf(crypto, ShareFieldsOf(vs), asked.dwallet, asked.holder, first)
    && HoldsShare(crypto, account, ShareFieldsOf(vs), asked, first)
  }

  /** The holder's signature over the digest its kind of share requires, stored or given. */
  ghost predicate AcceptedBy(crypto: Crypto, account: ShareAccount, record: Record, asked: Asked, first: bool,
                             acceptance: seq<u8>)
  {
    var digest := if first then crypto.keccak(asked.dwallet.data) else crypto.keccak(record.data);
    account.acceptanceDigest == digest && crypto.verifies(acceptance, digest, asked.holder.key)
  }

  /** The share is committed and accepted, and `passed` is what was checked. */
  ghost predicate Accepts(crypto: Crypto, account: ShareAccount, record: Record, trusted: set<seq<u8>>, asked: Asked,
                          given: Option<seq<u8>>, passed: VerifiedShare, vs: seq<Value>, first: bool)
  {
    && Committed(crypto, account, record, trusted, asked, vs, first)
    && passed.fields == ShareFieldsOf(vs)
    && passed.acceptanceGiven == !account.accepted
    && (if account.accepted then passed.acceptance == account.acceptanceSignature else given == Some(passed.acceptance))
    && AcceptedBy(crypto, account, record, asked, first, passed.acceptance)
  }

  /** The check is sound and complete: it passes exactly the shares that are committed and accepted. */
  lemma PassesExactly(crypto: Crypto, account: ShareAccount, record: Record, trusted: set<seq<u8>>,
                      asked: Asked, given: Option<seq<u8>>, passed: VerifiedShare)
    ensures VerifySolanaShare(crypto, account, record, trusted, asked, given) == Ok(passed) <==>
            exists vs, first :: Accepts(crypto, account, record, trusted, asked, given, passed, vs, first)
  {
    if VerifySolanaShare(crypto, account, record, trusted, asked, given) == Ok(passed) {
      PassedIsCommitted(crypto, account, record, trusted, asked, given, passed);
    }
    if vs, first :| Accepts(crypto, account, record, trusted, asked, given, passed, vs, first) {
      NoneIsZeros(account.sourceShare);
      CommittedDecodes(crypto, account, record, trusted, asked, vs, first);
    }
  }

  lemma PassedIsCommitted(crypto: Crypto, account: ShareAccount, record: Record, trusted: set<seq<u8>>,
                          asked: Asked, given: Option<seq<u8>>, passed: VerifiedShare)
    requires VerifySolanaShare(crypto, account, record, trusted, asked, given) == Ok(passed)
    ensures exists vs, first :: Accepts(crypto, account, record, trusted, asked, given, passed, vs, first)
  {
    var vs := VerifyAndDecode(crypto, record, trusted, EncryptedShare).value;
    DecodesExactly(EncryptedShare, record.data, vs);
    var first := IsFirst(passed.fields, asked.dwallet.fields);
    NoneIsZeros(account.sourceShare);
    assert Committed(crypto, account, record, trusted, asked, vs, first);
    assert Accepts(crypto, account, record, trusted, asked, given, passed, vs, first);
  }

  lemma CommittedDecodes(crypto: Crypto, account: ShareAccount, record: Record, trusted: set<seq<u8>>,
                         asked: Asked, vs: seq<Value>, first: bool)
    requires Committed(crypto, account, record, trusted, asked, vs, first)
    ensures VerifyEncryptedShare(crypto, record, trusted, asked.dwallet, asked.holder) == Ok(ShareFieldsOf(vs))
    ensures IsFirst(ShareFieldsOf(vs), asked.dwallet.fields) == first
  {
    DecodesExactly(EncryptedShare, record.data, vs);
  }

  // ── A share that waits for its acceptance ────────────────────────────────

  /** `shareIsOnChain`: a share that passes, or that is refused only on its acceptance; another refusal is thrown. */
  function ShareIsOnChain(crypto: Crypto, account: Option<ShareAccount>, record: Record, trusted: set<seq<u8>>, asked: Asked)
    : Result<bool, Check>
  {
    match account
    case None => Ok(false)
    case Some(stored) =>
      match VerifySolanaShare(crypto, stored, record, trusted, asked, None)
      case Ok(_) => Ok(true)
      case Err(check) =>
        if check == Stored("accepted") || check == Stored("acceptance_signature") then Ok(true) else Err(check)
  }

  /**
   * The exact guarantee: the share is committed, and its stored digest is the
   * right one only if it is marked accepted. The digest is compared after the
   * mark, so on a share still waiting it is not looked at; and the acceptance
   * signature is not looked at on any.
   */
  lemma OnChainExactly(crypto: Crypto, account: ShareAccount, record: Record, trusted: set<seq<u8>>, asked: Asked)
    ensures ShareIsOnChain(crypto, Some(account), record, trusted, asked) == Ok(true) <==>
            exists vs, first ::
              && Committed(crypto, account, record, trusted, asked, vs, first)
              && (account.accepted ==> account.acceptanceDigest == AcceptedDigest(crypto, first, asked.dwallet, record))
  {
    if ShareIsOnChain(crypto, Some(account), record, trusted, asked) == Ok(true) {
      OnChainIsCommitted(crypto, account, record, trusted, asked);
    }
    if vs, first :|
         && Committed(crypto, account, record, trusted, asked, vs, first)
         && (account.accepted ==> account.acceptanceDigest == AcceptedDigest(crypto, first, asked.dwallet, record))
    {
      CommittedDecodes(crypto, account, record, trusted, asked, vs, first);
    }
  }

  /**
   * No account is a share that is not there yet; an account is one that is,
   * or is refused, and what is thrown is the check's own refusal, never one
   * of the acceptance.
   */
  lemma OnChainOrThrown(crypto: Crypto, account: ShareAccount, record: Record, trusted: set<seq<u8>>, asked: Asked,
                        check: Check)
    ensures ShareIsOnChain(crypto, None, record, trusted, asked) == Ok(false)
    ensures ShareIsOnChain(crypto, Some(account), record, trusted, asked) != Ok(false)
    ensures ShareIsOnChain(crypto, Some(account), record, trusted, asked) == Err(check) <==>
              && VerifySolanaShare(crypto, account, record, trusted, asked, None) == Err(check)
              && check != Stored("accepted") && check != Stored("acceptance_signature")
  {
  }

  /** Every comparison before the acceptance was passed. */
  lemma OnlyAcceptanceIsLeft(crypto: Crypto, account: ShareAccount, record: Record, trusted: set<seq<u8>>, asked: Asked)
    requires ShareIsOnChain(crypto, Some(account), record, trusted, asked) == Ok(true)
    ensures
      var verified := VerifyEncryptedShare(crypto, record, trusted, asked.dwallet, asked.holder);
      && verified.Ok?
      && var first := IsFirst(verified.value, asked.dwallet.fields);
      && HoldsShare(crypto, account, verified.value, asked, first)
      && (account.accepted ==> account.acceptanceDigest == AcceptedDigest(crypto, first, asked.dwallet, record))
  {
    NoneIsZeros(account.sourceShare);
    if VerifyEncryptedShare(crypto, record, trusted, asked.dwallet, asked.holder).Ok? {
      OneDigestPerRecord(crypto, record, trusted, asked.dwallet, asked.holder);
    }
  }

  lemma OnChainIsCommitted(crypto: Crypto, account: ShareAccount, record: Record, trusted: set<seq<u8>>, asked: Asked)
    requires ShareIsOnChain(crypto, Some(account), record, trusted, asked) == Ok(true)
    ensures exists vs, first ::
              && Committed(crypto, account, record, trusted, asked, vs, first)
              && (account.accepted ==> account.acceptanceDigest == AcceptedDigest(crypto, first, asked.dwallet, record))
  {
    OnlyAcceptanceIsLeft(crypto, account, record, trusted, asked);
    var vs := VerifyAndDecode(crypto, record, trusted, EncryptedShare).value;
    DecodesExactly(EncryptedShare, record.data, vs);
    var first := IsFirst(ShareFieldsOf(vs), asked.dwallet.fields);
    OneDigestPerRecord(crypto, record, trusted, asked.dwallet, asked.holder);
    assert Committed(crypto, account, record, trusted, asked, vs, first);
  }

  /**
   * So a share can be on the chain while it waits and be refused once it is
   * accepted, for its stored digest alone: exactly when that digest is wrong.
   */
  lemma WaitingDigestIsUnchecked(crypto: Crypto, account: ShareAccount, record: Record, trusted: set<seq<u8>>,
                                 asked: Asked, signature: seq<u8>)
    requires !account.accepted && ShareIsOnChain(crypto, Some(account), record, trusted, asked) == Ok(true)
    ensures
      var share := VerifyEncryptedShare(crypto, record, trusted, asked.dwallet, asked.holder);
      && share.Ok?
      && (VerifySolanaShare(crypto, account.(accepted := true, acceptanceSignature := signature), record, trusted, asked, None)
            == Err(Stored("acceptance_digest")) <==>
          account.acceptanceDigest !=
            AcceptedDigest(crypto, IsFirst(share.value, asked.dwallet.fields), asked.dwallet, record))
  {
    OnChainIsCommitted(crypto, account, record, trusted, asked);
    var vs, first :| Committed(crypto, account, record, trusted, asked, vs, first);
    CommittedDecodes(crypto, account, record, trusted, asked, vs, first);
    AcceptedLater(crypto, account, record, trusted, asked, signature, ShareFieldsOf(vs), first);
  }

  lemma AcceptedLater(crypto: Crypto, account: ShareAccount, record: Record, trusted: set<seq<u8>>,
                      asked: Asked, signature: seq<u8>, share: ShareFields, first: bool)
    requires VerifyEncryptedShare(crypto, record, trusted, asked.dwallet, asked.holder) == Ok(share)
    requires IsFirst(share, asked.dwallet.fields) == first && share.holder == asked.holder
    requires HoldsShare(crypto, account, share, asked, first)
    ensures VerifySolanaShare(crypto, account.(accepted := true, acceptanceSignature := signature), record, trusted, asked, None)
              == Err(Stored("acceptance_digest")) <==>
            account.acceptanceDigest != AcceptedDigest(crypto, first, asked.dwallet, record)
  {
  }

  // ── Honest shares ────────────────────────────────────────────────────────

  /** The attestation the network makes of an encrypted share. */
  function HonestShare(crypto: Crypto, session: Bytes32, dwallet: VerifiedDWallet, holder: HolderKey,
                       encryptedShare: seq<u8>, encryptionKey: seq<u8>): seq<Value>
  {
    [Of(session), Of(dwallet.fields.sender), Of(dwallet.fields.publicKey), Of(crypto.keccak(encryptedShare)),
     Of(crypto.keccak(encryptionKey)), Of([holder.scheme] + holder.key), Of(crypto.keccak(dwallet.data))]
  }

  /** The account the program writes for it, and the holder's acceptance. */
  function HonestAccount(crypto: Crypto, asked: Asked, source: Option<Bytes32>, encryptedShare: seq<u8>,
                         acceptance: seq<u8>, record: Record): ShareAccount
  {
    ShareAccount(asked.address, asked.holder.key, if source.Some? then source.value else Zeros(32), source.Some?, true,
                 acceptance, AcceptedDigest(crypto, source.None?, asked.dwallet, record), encryptedShare)
  }

  /**
   * Every honestly committed and accepted share passes: a first share the
   * dWallet's attestation names, and a share of another session re-encrypted
   * from a source.
   */
  lemma HonestSharesPass(crypto: Crypto, asked: Asked, trusted: set<seq<u8>>, record: Record, session: Bytes32,
                         source: Option<Bytes32>, encryptedShare: seq<u8>, acceptance: seq<u8>)
    requires asked.holder.scheme < SCHEMES && |asked.holder.key| == 32
    requires
      var vs := HonestShare(crypto, session, asked.dwallet, asked.holder, encryptedShare, asked.registeredKey);
      && |Fields(EncryptedShare)| == |vs| && record.data == LaidOut(EncryptedShare, vs)
      && record.version == 0 && record.signer in trusted
      && crypto.verifies(record.signature, MessageBytes(Attestation(EncryptedShare, record.data)), record.signer)
      && crypto.verifies(acceptance, AcceptedDigest(crypto, source.None?, asked.dwallet, record), asked.holder.key)
    requires
      var fields := asked.dwallet.fields;
      match source
      case None =>
        && session == fields.session && fields.holder == Some(asked.holder)
        && fields.shareHash == Some(crypto.keccak(encryptedShare))
        && fields.keyHash == Some(crypto.keccak(asked.registeredKey))
      case Some(address) => session != fields.session && address != Zeros(32)
    ensures VerifySolanaShare(crypto, HonestAccount(crypto, asked, source, encryptedShare, acceptance, record),
                              record, trusted, asked, None).Ok?
  {
    var vs := HonestShare(crypto, session, asked.dwallet, asked.holder, encryptedShare, asked.registeredKey);
    var account := HonestAccount(crypto, asked, source, encryptedShare, acceptance, record);
    HonestIsWellFormed(vs);
    assert ([asked.holder.scheme] + asked.holder.key)[1..] == asked.holder.key;
    assert Committed(crypto, account, record, trusted, asked, vs, source.None?);
    CommittedDecodes(crypto, account, record, trusted, asked, vs, source.None?);
  }

  lemma HonestIsWellFormed(vs: seq<Value>)
    requires |vs| == 7 && forall i | 0 <= i < 7 :: vs[i].Of?
    requires |vs[0].bytes| == |vs[3].bytes| == |vs[4].bytes| == |vs[6].bytes| == 32
    requires |vs[5].bytes| == 33 && vs[5].bytes[0] < SCHEMES
    ensures All(WellFormed, Fields(EncryptedShare), vs)
  {
  }
}
