/**
 * Which addresses can be derived, and what each of the client's derivations
 * hashes (sdk/solana/src/addresses.ts).
 */
module DerivedAddresses {
  import opened Common
  import opened Bytes
  import opened Seeds

  type Derived = Result<seq<seq<u8>>, SeedError>

  // ── The client's derivations ─────────────────────────────────────────────

  /** `dwalletSeedRoot`, with its check of the curve. */
  function SeedRoot(curve: int, key: seq<u8>): Result<seq<u8>, SeedError> {
    if curve < 0 then Err(Negative) else if curve >= 0x1_0000 then Err(DoesNotFit) else Ok(Root(curve, key))
  }

  /** The seeds of an account of a dWallet, under the values given besides its root. */
  function OfDWallet(account: Account, curve: int, key: seq<u8>, more: Values): Derived {
    match SeedRoot(curve, key)
    case Err(error) => Err(error)
    case Ok(root) => SeedList(Schema(account), more["dwallet_root" := Raw(root)])
  }

  /** One of two accounts: of a dWallet made by a DKG, or of one imported in a session. */
  function OfEither(account: Account, importedAccount: Account, curve: int, key: seq<u8>,
                    imported: Option<seq<u8>>, more: Values): Derived
  {
    match imported
    case None => OfDWallet(account, curve, key, more)
    case Some(session) => OfDWallet(importedAccount, curve, key, more["session_identifier" := Raw(session)])
  }

  function DWalletSeeds(curve: int, key: seq<u8>, imported: Option<seq<u8>>): Derived {
    OfEither(DWallet, ImportedDWallet, curve, key, imported, map[])
  }

  function DWalletAttestationSeeds(curve: int, key: seq<u8>, imported: Option<seq<u8>>): Derived {
    OfEither(DWalletAttestation, ImportedDWalletAttestation, curve, key, imported, map[])
  }

  function PublicShareSeeds(curve: int, key: seq<u8>, imported: Option<seq<u8>>): Derived {
    OfEither(PublicUserShareAttestation, ImportedPublicUserShareAttestation, curve, key, imported, map[])
  }

  function EncryptedShareSeeds(curve: int, key: seq<u8>, holder: seq<u8>, imported: Option<seq<u8>>): Derived {
    OfEither(EncryptedUserSecretKeyShare, ImportedEncryptedUserSecretKeyShare, curve, key, imported,
             map["encryption_key_owner" := Raw(holder)])
  }

  function ShareAttestationSeeds(curve: int, key: seq<u8>, holder: seq<u8>, imported: Option<seq<u8>>): Derived {
    OfEither(EncryptedShareAttestation, ImportedEncryptedShareAttestation, curve, key, imported,
             map["encryption_key_owner" := Raw(holder)])
  }

  function CoordinatorSeeds(): Derived { SeedList(Schema(DWalletCoordinator), map[]) }

  function GasDepositSeeds(user: seq<u8>): Derived {
    SeedList(Schema(GasDeposit), map["user_pubkey" := Raw(user)])
  }

  function GasChargeSeeds(id: seq<u8>): Derived {
    SeedList(Schema(GasCharge), map["charge_id" := Raw(id)])
  }

  function EncryptionKeySeeds(signer: seq<u8>, curve: int): Derived {
    SeedList(Schema(EncryptionKey), map["signer_public_key" := Raw(signer), "curve_le" := Number(curve)])
  }

  function NetworkKeySeeds(noa: seq<u8>): Derived {
    SeedList(Schema(NetworkEncryptionKey), map["noa_public_key" := Raw(noa)])
  }

  function ReconfigurationSeeds(noa: seq<u8>, epoch: int): Derived {
    SeedList(Schema(NetworkReconfigurationOutput), map["noa_public_key" := Raw(noa), "epoch_le" := Number(epoch)])
  }

  // ── What they hash ───────────────────────────────────────────────────────

  /** The derivation succeeds, and its seeds one after the other are `bytes`. */
  predicate Hashes(derived: Derived, bytes: seq<u8>) {
    derived.Ok? && Joined(derived.value) == bytes
  }

  lemma NoValues(values: Values)
    ensures Flat([], values) == Ok([])
  {
  }

  lemma OneValue(c: Component, values: Values)
    ensures Flat([c], values) == BytesOf(c, values)
  {
    NoValues(values);
    if BytesOf(c, values).Ok? {
      assert BytesOf(c, values).value + [] == BytesOf(c, values).value;
    }
  }

  lemma TwoValues(c: Component, d: Component, values: Values)
    ensures Flat([c, d], values).Ok? <==> BytesOf(c, values).Ok? && BytesOf(d, values).Ok?
    ensures Flat([c, d], values).Ok? ==>
              Flat([c, d], values).value == BytesOf(c, values).value + BytesOf(d, values).value
  {
    OneValue(d, values);
    assert [c, d][1..] == [d];
  }

  lemma ThreeValues(c: Component, d: Component, e: Component, values: Values)
    ensures Flat([c, d, e], values).Ok? <==>
              BytesOf(c, values).Ok? && BytesOf(d, values).Ok? && BytesOf(e, values).Ok?
    ensures Flat([c, d, e], values).Ok? ==>
              Flat([c, d, e], values).value
                == BytesOf(c, values).value + BytesOf(d, values).value + BytesOf(e, values).value
  {
    TwoValues(d, e, values);
    assert [c, d, e][1..] == [d, e];
    if Flat([c, d, e], values).Ok? {
      Regroup(BytesOf(c, values).value, BytesOf(d, values).value, BytesOf(e, values).value);
    }
  }

  /** The literals, then the values. */
  lemma HashedParts(account: Account, values: Values)
    ensures SeedList(Schema(account), values).Ok? <==> Flat(Body(account), values).Ok?
    ensures Flat(Body(account), values).Ok? ==>
              Hashes(SeedList(Schema(account), values), Header(account) + Flat(Body(account), values).value)
  {
    SeedsAreFlat(Schema(account), values);
    FlatOn(Literals(account), Body(account), values);
    LiteralsAreHeader(account, values);
  }

  /** A dWallet's account, with its root, then its session when imported, then its holder when it has one. */
  lemma DWalletParts(account: Account, curve: int, key: seq<u8>, more: Values)
    requires "dwallet_root" !in more
    requires Body(account) == [ROOT]
    ensures OfDWallet(account, curve, key, more).Ok? <==> 0 <= curve < 0x1_0000 && 32 <= |key| <= 65
    ensures OfDWallet(account, curve, key, more).Ok? ==>
              Hashes(OfDWallet(account, curve, key, more), Header(account) + (LittleEndian(curve, 2) + key))
  {
    if SeedRoot(curve, key).Ok? {
      var values := more["dwallet_root" := Raw(Root(curve, key))];
      HashedParts(account, values);
      OneValue(ROOT, values);
    }
  }

  lemma DWalletPartsWith(account: Account, curve: int, key: seq<u8>, more: Values, c: Component, bytes: seq<u8>)
    requires Body(account) == [ROOT, c] && (c == SESSION || c == OWNER)
    requires c.name in more && more[c.name] == Raw(bytes)
    ensures OfDWallet(account, curve, key, more).Ok? <==>
              0 <= curve < 0x1_0000 && 32 <= |key| <= 65 && |bytes| == 32
    ensures OfDWallet(account, curve, key, more).Ok? ==>
              Hashes(OfDWallet(account, curve, key, more), Header(account) + (LittleEndian(curve, 2) + key + bytes))
  {
    if SeedRoot(curve, key).Ok? {
      var values := more["dwallet_root" := Raw(Root(curve, key))];
      HashedParts(account, values);
      TwoValues(ROOT, c, values);
    }
  }

  lemma DWalletPartsWithBoth(account: Account, curve: int, key: seq<u8>, more: Values, session: seq<u8>, holder: seq<u8>)
    requires Body(account) == [ROOT, SESSION, OWNER]
    requires SESSION.name in more && more[SESSION.name] == Raw(session)
    requires OWNER.name in more && more[OWNER.name] == Raw(holder)
    ensures OfDWallet(account, curve, key, more).Ok? <==>
              0 <= curve < 0x1_0000 && 32 <= |key| <= 65 && |session| == 32 && |holder| == 32
    ensures OfDWallet(account, curve, key, more).Ok? ==>
              Hashes(OfDWallet(account, curve, key, more),
                Header(account) + (LittleEndian(curve, 2) + key + session + holder))
  {
    if SeedRoot(curve, key).Ok? {
      var values := more["dwallet_root" := Raw(Root(curve, key))];
      HashedParts(account, values);
      ThreeValues(ROOT, SESSION, OWNER, values);
    }
  }

  /** A curve in two bytes and a key of 32 to 65 bytes, and a session of 32 when imported. */
  predicate GoodDWallet(curve: int, key: seq<u8>, imported: Option<seq<u8>>) {
    0 <= curve < 0x1_0000 && 32 <= |key| <= 65 && (imported.Some? ==> |imported.value| == 32)
  }

  /** Curve, key, and the session when imported. */
  function DWalletBytes(curve: nat, key: seq<u8>, imported: Option<seq<u8>>): seq<u8> {
    match imported
    case None => LittleEndian(curve, 2) + key
    case Some(session) => LittleEndian(curve, 2) + key + session
  }

  /** Each account of a dWallet is derived exactly for a good dWallet, from its own tag and the dWallet's bytes. */
  lemma DWalletAddresses(curve: int, key: seq<u8>, imported: Option<seq<u8>>)
    ensures DWalletSeeds(curve, key, imported).Ok? <==> GoodDWallet(curve, key, imported)
    ensures DWalletAttestationSeeds(curve, key, imported).Ok? <==> GoodDWallet(curve, key, imported)
    ensures PublicShareSeeds(curve, key, imported).Ok? <==> GoodDWallet(curve, key, imported)
    ensures GoodDWallet(curve, key, imported) ==>
              var rest := DWalletBytes(curve, key, imported);
              if imported.None? then
                && Hashes(DWalletSeeds(curve, key, imported), Ascii("dwallet") + Ascii("record") + rest)
                && Hashes(DWalletAttestationSeeds(curve, key, imported), Ascii("dwallet") + Ascii("attestation") + rest)
                && Hashes(PublicShareSeeds(curve, key, imported), Ascii("dwallet") + Ascii("public_user_share") + rest)
              else
                && Hashes(DWalletSeeds(curve, key, imported), Ascii("dwallet") + Ascii("imported_record") + rest)
                && Hashes(DWalletAttestationSeeds(curve, key, imported),
                     Ascii("dwallet") + Ascii("imported_attestation") + rest)
                && Hashes(PublicShareSeeds(curve, key, imported),
                     Ascii("dwallet") + Ascii("imported_public_user_share") + rest)
  {
    match imported {
      case None =>
        DWalletParts(DWallet, curve, key, map[]);
        DWalletParts(DWalletAttestation, curve, key, map[]);
        DWalletParts(PublicUserShareAttestation, curve, key, map[]);
      case Some(session) =>
        var more := map["session_identifier" := Raw(session)];
        DWalletPartsWith(ImportedDWallet, curve, key, more, SESSION, session);
        DWalletPartsWith(ImportedDWalletAttestation, curve, key, more, SESSION, session);
        DWalletPartsWith(ImportedPublicUserShareAttestation, curve, key, more, SESSION, session);
    }
  }

  /** A holder's accounts of a dWallet end in the holder's 32-byte key. */
  lemma HolderAddresses(curve: int, key: seq<u8>, holder: seq<u8>, imported: Option<seq<u8>>)
    ensures EncryptedShareSeeds(curve, key, holder, imported).Ok? <==>
              GoodDWallet(curve, key, imported) && |holder| == 32
    ensures ShareAttestationSeeds(curve, key, holder, imported).Ok? <==>
              GoodDWallet(curve, key, imported) && |holder| == 32
    ensures GoodDWallet(curve, key, imported) && |holder| == 32 ==>
              var rest := DWalletBytes(curve, key, imported) + holder;
              if imported.None? then
                && Hashes(EncryptedShareSeeds(curve, key, holder, imported),
                     Ascii("dwallet") + Ascii("encrypted_user_share") + rest)
                && Hashes(ShareAttestationSeeds(curve, key, holder, imported),
                     Ascii("dwallet") + Ascii("encrypted_share_attestation") + rest)
              else
                && Hashes(EncryptedShareSeeds(curve, key, holder, imported),
                     Ascii("dwallet") + Ascii("imported_encrypted_user_share") + rest)
                && Hashes(ShareAttestationSeeds(curve, key, holder, imported),
                     Ascii("dwallet") + Ascii("imported_enc_share_attestation") + rest)
  {
    var owner := map["encryption_key_owner" := Raw(holder)];
    match imported {
      case None =>
        DWalletPartsWith(EncryptedUserSecretKeyShare, curve, key, owner, OWNER, holder);
        DWalletPartsWith(EncryptedShareAttestation, curve, key, owner, OWNER, holder);
      case Some(session) =>
        var more := owner["session_identifier" := Raw(session)];
        DWalletPartsWithBoth(ImportedEncryptedUserSecretKeyShare, curve, key, more, session, holder);
        DWalletPartsWithBoth(ImportedEncryptedShareAttestation, curve, key, more, session, holder);
    }
  }

  /** The one coordinator. */
  lemma CoordinatorAddress()
    ensures Hashes(CoordinatorSeeds(), Ascii("dwallet_coordinator"))
  {
    HashedParts(DWalletCoordinator, map[]);
    NoValues(map[]);
    assert Header(DWalletCoordinator) + [] == Header(DWalletCoordinator);
  }

  lemma OneKeyParts(account: Account, name: string, key: seq<u8>)
    requires Body(account) == [Width(name, 32)]
    ensures SeedList(Schema(account), map[name := Raw(key)]).Ok? <==> |key| == 32
    ensures |key| == 32 ==> Hashes(SeedList(Schema(account), map[name := Raw(key)]), Header(account) + key)
  {
    var values := map[name := Raw(key)];
    HashedParts(account, values);
    OneValue(Width(name, 32), values);
  }

  lemma KeyAndNumberParts(account: Account, name: string, key: seq<u8>, number: string, width: nat, value: int)
    requires Body(account) == [Width(name, 32), Width(number, width)] && name != number
    ensures
      var derived := SeedList(Schema(account), map[name := Raw(key), number := Number(value)]);
      && (derived.Ok? <==> |key| == 32 && 0 <= value < Pow256(width))
      && (derived.Ok? ==> Hashes(derived, Header(account) + (key + LittleEndian(value, width))))
  {
    var values := map[name := Raw(key), number := Number(value)];
    HashedParts(account, values);
    TwoValues(Width(name, 32), Width(number, width), values);
  }

  /** The accounts of one 32-byte key each. */
  lemma KeyAddresses(key: seq<u8>)
    ensures GasDepositSeeds(key).Ok? <==> |key| == 32
    ensures |key| == 32 ==> Hashes(GasDepositSeeds(key), Ascii("gas_deposit") + key)
    ensures GasChargeSeeds(key).Ok? <==> |key| == 32
    ensures |key| == 32 ==> Hashes(GasChargeSeeds(key), Ascii("gas_charge") + key)
    ensures NetworkKeySeeds(key).Ok? <==> |key| == 32
    ensures |key| == 32 ==> Hashes(NetworkKeySeeds(key), Ascii("network_encryption_key") + key)
  {
    OneKeyParts(GasDeposit, "user_pubkey", key);
    OneKeyParts(GasCharge, "charge_id", key);
    OneKeyParts(NetworkEncryptionKey, "noa_public_key", key);
  }

  /** A holder's registry entry names its curve in two bytes, a reshare's record its epoch in eight. */
  lemma NumberedAddresses(key: seq<u8>, curve: int, epoch: int)
    ensures EncryptionKeySeeds(key, curve).Ok? <==> |key| == 32 && 0 <= curve < 0x1_0000
    ensures EncryptionKeySeeds(key, curve).Ok? ==>
              Hashes(EncryptionKeySeeds(key, curve), Ascii("encryption_key") + (key + LittleEndian(curve, 2)))
    ensures ReconfigurationSeeds(key, epoch).Ok? <==> |key| == 32 && 0 <= epoch < 0x1_0000_0000_0000_0000
    ensures ReconfigurationSeeds(key, epoch).Ok? ==>
              Hashes(ReconfigurationSeeds(key, epoch), Ascii("network_reconfig") + (key + LittleEndian(epoch, 8)))
  {
    Widths();
    KeyAndNumberParts(EncryptionKey, "signer_public_key", key, "curve_le", 2, curve);
    KeyAndNumberParts(NetworkReconfigurationOutput, "noa_public_key", key, "epoch_le", 8, epoch);
  }
}
