/**
 * The seeds of the ika program's accounts: the table of layouts
 * (sdk/solana/src/wire-tables-data.ts) and the function that interprets it
 * (sdk/solana/src/addresses.ts). The seeds of an address are hashed one after
 * the other, with nothing between them.
 */
module Seeds {
  import opened Common
  import opened Bytes

  type Positive = n: int | n > 0 witness 1

  datatype Component =
    | Literal(text: string)
    | Width(name: string, width: nat)
    | Chunks(name: string, size: Positive, min: nat, max: nat)

  datatype SeedValue = Number(value: int) | Raw(bytes: seq<u8>)

  datatype SeedError = Missing(of: string) | Negative | DoesNotFit | VariableLength(of: string) | WrongLength(of: string)

  type Values = map<string, SeedValue>

  function Ascii(text: string): (bytes: seq<u8>)
    ensures |bytes| == |text|
  {
    seq(|text|, i requires 0 <= i < |text| => text[i] as int % 256)
  }

  // ── The table ────────────────────────────────────────────────────────────

  datatype Account =
    | SystemState | DWalletCoordinator
    | DWallet | DWalletAttestation | ImportedDWallet | ImportedDWalletAttestation
    | PublicUserShareAttestation | EncryptedShareAttestation | EncryptedUserSecretKeyShare
    | ImportedPublicUserShareAttestation | ImportedEncryptedShareAttestation | ImportedEncryptedUserSecretKeyShare
    | GasDeposit | GasCharge | NetworkEncryptionKey | NetworkReconfigurationOutput | EncryptionKey

  const ROOT: Component := Chunks("dwallet_root", 32, 34, 67)
  const SESSION: Component := Width("session_identifier", 32)
  const OWNER: Component := Width("encryption_key_owner", 32)

  /** The literals an account's seeds start with. */
  function Literals(account: Account): seq<Component> {
    match account
    case SystemState => [Literal("ika_system_state")]
    case DWalletCoordinator => [Literal("dwallet_coordinator")]
    case DWallet => [Literal("dwallet"), Literal("record")]
    case DWalletAttestation => [Literal("dwallet"), Literal("attestation")]
    case ImportedDWallet => [Literal("dwallet"), Literal("imported_record")]
    case ImportedDWalletAttestation => [Literal("dwallet"), Literal("imported_attestation")]
    case PublicUserShareAttestation => [Literal("dwallet"), Literal("public_user_share")]
    case EncryptedShareAttestation => [Literal("dwallet"), Literal("encrypted_share_attestation")]
    case EncryptedUserSecretKeyShare => [Literal("dwallet"), Literal("encrypted_user_share")]
    case ImportedPublicUserShareAttestation => [Literal("dwallet"), Literal("imported_public_user_share")]
    case ImportedEncryptedShareAttestation => [Literal("dwallet"), Literal("imported_enc_share_attestation")]
    case ImportedEncryptedUserSecretKeyShare => [Literal("dwallet"), Literal("imported_encrypted_user_share")]
    case GasDeposit => [Literal("gas_deposit")]
    case GasCharge => [Literal("gas_charge")]
    case NetworkEncryptionKey => [Literal("network_encryption_key")]
    case NetworkReconfigurationOutput => [Literal("network_reconfig")]
    case EncryptionKey => [Literal("encryption_key")]
  }

  /** The values that follow them. */
  function Body(account: Account): seq<Component> {
    match account
    case SystemState => []
    case DWalletCoordinator => []
    case DWallet => [ROOT]
    case DWalletAttestation => [ROOT]
    case ImportedDWallet => [ROOT, SESSION]
    case ImportedDWalletAttestation => [ROOT, SESSION]
    case PublicUserShareAttestation => [ROOT]
    case EncryptedShareAttestation => [ROOT, OWNER]
    case EncryptedUserSecretKeyShare => [ROOT, OWNER]
    case ImportedPublicUserShareAttestation => [ROOT, SESSION]
    case ImportedEncryptedShareAttestation => [ROOT, SESSION, OWNER]
    case ImportedEncryptedUserSecretKeyShare => [ROOT, SESSION, OWNER]
    case GasDeposit => [Width("user_pubkey", 32)]
    case GasCharge => [Width("charge_id", 32)]
    case NetworkEncryptionKey => [Width("noa_public_key", 32)]
    case NetworkReconfigurationOutput => [Width("noa_public_key", 32), Width("epoch_le", 8)]
    case EncryptionKey => [Width("signer_public_key", 32), Width("curve_le", 2)]
  }

  function Schema(account: Account): seq<Component> { Literals(account) + Body(account) }

  // ── Interpreting it ──────────────────────────────────────────────────────

  /** The bytes of a supplied value: a number little-endian at the component's width. */
  function AsBytes(c: Component, v: SeedValue): Result<seq<u8>, SeedError> {
    match v
    case Raw(bytes) => Ok(bytes)
    case Number(n) =>
      if !c.Width? then Err(VariableLength(if c.Chunks? then c.name else ""))
      else if n < 0 then Err(Negative)
      else if n >= Pow256(c.width) then Err(DoesNotFit)
      else Ok(LittleEndian(n, c.width))
  }

  /** The bytes one component stands for. */
  function BytesOf(c: Component, values: Values): Result<seq<u8>, SeedError> {
    match c
    case Literal(text) => Ok(Ascii(text))
    case _ =>
      if c.name !in values then Err(Missing(c.name))
      else
        match AsBytes(c, values[c.name])
        case Err(error) => Err(error)
        case Ok(bytes) =>
          if c.Width? && |bytes| != c.width then Err(WrongLength(c.name))
          else if c.Chunks? && !(c.min <= |bytes| <= c.max) then Err(WrongLength(c.name))
          else Ok(bytes)
  }

  /** The bytes in seeds of `size`, the last one shorter. */
  function Chunked(bytes: seq<u8>, size: Positive): seq<seq<u8>> {
    if |bytes| <= size then (if bytes == [] then [] else [bytes])
    else [bytes[..size]] + Chunked(bytes[size..], size)
  }

  function SeedsOf(c: Component, bytes: seq<u8>): seq<seq<u8>> {
    if c.Chunks? then Chunked(bytes, c.size) else [bytes]
  }

  function SeedList(cs: seq<Component>, values: Values): Result<seq<seq<u8>>, SeedError> {
    if cs == [] then Ok([])
    else
      match BytesOf(cs[0], values)
      case Err(error) => Err(error)
      case Ok(bytes) =>
        match SeedList(cs[1..], values)
        case Err(error) => Err(error)
        case Ok(rest) => Ok(SeedsOf(cs[0], bytes) + rest)
  }

  // ── When the table's layouts accept their values ─────────────────────────

  /** A value is supplied for the component, and is of its kind: bytes of its length, or a number of its width. */
  predicate Fits(c: Component, values: Values) {
    !c.Literal? ==>
      && c.name in values
      && (match values[c.name]
          case Raw(bytes) => if c.Width? then |bytes| == c.width else c.min <= |bytes| <= c.max
          case Number(n) => c.Width? && 0 <= n < Pow256(c.width))
  }

  /** What is thrown for a value that does not fit. */
  function Misfit(c: Component, values: Values): SeedError
    requires !c.Literal?
  {
    if c.name !in values then Missing(c.name)
    else
      match values[c.name]
      case Raw(_) => WrongLength(c.name)
      case Number(n) => if !c.Width? then VariableLength(c.name) else if n < 0 then Negative else DoesNotFit
  }

  lemma FitsExactly(c: Component, values: Values)
    ensures BytesOf(c, values).Ok? <==> Fits(c, values)
    ensures BytesOf(c, values).Err? ==> BytesOf(c, values).error == Misfit(c, values)
  {
  }

  /** The seeds are built exactly when every value fits; otherwise the first that does not is reported. */
  lemma {:induction false} ListExactly(cs: seq<Component>, values: Values)
    ensures SeedList(cs, values).Ok? <==> forall c <- cs :: Fits(c, values)
    ensures SeedList(cs, values).Err? ==>
              exists i | 0 <= i < |cs| ::
                && (forall j | 0 <= j < i :: Fits(cs[j], values))
                && !Fits(cs[i], values) && SeedList(cs, values).error == Misfit(cs[i], values)
  {
    if cs != [] {
      FitsExactly(cs[0], values);
      ListExactly(cs[1..], values);
      assert forall c :: c in cs <==> c == cs[0] || c in cs[1..];
      if Fits(cs[0], values) && SeedList(cs[1..], values).Err? {
        var i :| 0 <= i < |cs[1..]|
          && (forall j | 0 <= j < i :: Fits(cs[1..][j], values))
          && !Fits(cs[1..][i], values) && SeedList(cs[1..], values).error == Misfit(cs[1..][i], values);
        assert cs[i + 1] == cs[1..][i];
        forall j | 0 <= j < i + 1 ensures Fits(cs[j], values) {
          assert j > 0 ==> cs[j] == cs[1..][j - 1];
        }
      }
    }
  }

  lemma LiteralsFit(account: Account, values: Values)
    ensures forall c <- Literals(account) :: Fits(c, values)
  {
    forall c <- Literals(account) ensures Fits(c, values) {
      LiteralsAreLiteral(account, c);
    }
  }

  /** An account's seeds can be derived if and only if every one of its own components is given a value that fits. */
  lemma DerivesExactly(account: Account, values: Values)
    ensures SeedList(Schema(account), values).Ok? <==> forall c <- Body(account) :: Fits(c, values)
  {
    ListExactly(Schema(account), values);
    LiteralsFit(account, values);
    assert forall c :: c in Schema(account) <==> c in Literals(account) || c in Body(account);
  }

  // ── Building them ────────────────────────────────────────────────────────

  /** `littleEndian`: byte by byte, and refused when something is left. */
  method WriteLittleEndian(value: int, width: nat) returns (bytes: Result<seq<u8>, SeedError>)
    ensures bytes == if value < 0 then Err(Negative)
                     else if value >= Pow256(width) then Err(DoesNotFit)
                     else Ok(LittleEndian(value, width))
  {
    if value < 0 {
      return Err(Negative);
    }
    var written: seq<u8> := [];
    var rest: nat := value;
    for i := 0 to width
      invariant LittleEndian(value, width) == written + LittleEndian(rest, width - i)
      invariant value < Pow256(width) <==> rest < Pow256(width - i)
    {
      ghost var before, was := written, rest;
      written := written + [rest % 256];
      rest := rest / 256;
      assert before + LittleEndian(was, width - i) == written + LittleEndian(rest, width - i - 1);
    }
    assert Pow256(0) == 1 && written + LittleEndian(rest, 0) == written;
    return if rest != 0 then Err(DoesNotFit) else Ok(written);
  }

  /** The loop of `deriveSeeds`: component by component, each value checked and its seeds pushed. */
  method PushComponents(cs: seq<Component>, values: Values) returns (seeds: Result<seq<seq<u8>>, SeedError>)
    ensures seeds == SeedList(cs, values)
  {
    var list: seq<seq<u8>> := [];
    assert cs[0..] == cs;
    Prepended(list, SeedList(cs, values));
    for i := 0 to |cs|
      invariant SeedList(cs, values) == Prepend(list, SeedList(cs[i..], values))
    {
      var c := cs[i];
      assert cs[i..][0] == c && cs[i..][1..] == cs[i + 1..];
      ghost var before := list;
      var more := ComponentSeeds(c, values);
      if more.Err? {
        return Err(more.error);
      }
      list := list + more.value;
      PrependedTwice(before, more.value, SeedList(cs[i + 1..], values));
    }
    assert cs[|cs|..] == [] && list + [] == list;
    return Ok(list);
  }

  /** `deriveSeeds`. */
  method DeriveSeeds(account: Account, values: Values) returns (seeds: Result<seq<seq<u8>>, SeedError>)
    ensures seeds == SeedList(Schema(account), values)
    ensures seeds.Ok? <==> forall c <- Body(account) :: Fits(c, values)
  {
    DerivesExactly(account, values);
    seeds := PushComponents(Schema(account), values);
  }

  /** The seeds one component pushes, its value checked. */
  method ComponentSeeds(c: Component, values: Values) returns (seeds: Result<seq<seq<u8>>, SeedError>)
    ensures seeds == match BytesOf(c, values)
                     case Ok(bytes) => Ok(SeedsOf(c, bytes))
                     case Err(error) => Err(error)
  {
    if c.Literal? {
      return Ok([Ascii(c.text)]);
    }
    if c.name !in values {
      return Err(Missing(c.name));
    }
    var bytes := ValueBytes(c, values[c.name]);
    if bytes.Err? {
      return Err(bytes.error);
    }
    if c.Width? {
      return if |bytes.value| == c.width then Ok([bytes.value]) else Err(WrongLength(c.name));
    }
    if |bytes.value| < c.min || |bytes.value| > c.max {
      return Err(WrongLength(c.name));
    }
    var chunks := PushChunks([], bytes.value, c.size);
    assert [] + Chunked(bytes.value, c.size) == Chunked(bytes.value, c.size);
    return Ok(chunks);
  }

  method ValueBytes(c: Component, v: SeedValue) returns (bytes: Result<seq<u8>, SeedError>)
    requires !c.Literal?
    ensures bytes == AsBytes(c, v)
  {
    match v
    case Raw(raw) => return Ok(raw);
    case Number(n) =>
      if !c.Width? {
        return Err(VariableLength(c.name));
      }
      bytes := WriteLittleEndian(n, c.width);
  }

  method PushChunks(list: seq<seq<u8>>, bytes: seq<u8>, size: Positive) returns (pushed: seq<seq<u8>>)
    ensures pushed == list + Chunked(bytes, size)
  {
    pushed := list;
    var offset := 0;
    assert bytes[0..] == bytes;
    while offset < |bytes|
      invariant 0 <= offset
      invariant offset <= |bytes| ==> pushed + Chunked(bytes[offset..], size) == list + Chunked(bytes, size)
      invariant offset > |bytes| ==> pushed == list + Chunked(bytes, size)
    {
      var end := if offset + size < |bytes| then offset + size else |bytes|;
      ghost var rest := bytes[offset..];
      pushed := pushed + [bytes[offset..end]];
      assert offset + size < |bytes| ==> rest[size..] == bytes[end..] && rest[..size] == bytes[offset..end];
      assert offset + size >= |bytes| ==> rest == bytes[offset..end];
      offset := offset + size;
    }
  }

  function Prepend(list: seq<seq<u8>>, rest: Result<seq<seq<u8>>, SeedError>): Result<seq<seq<u8>>, SeedError> {
    match rest
    case Ok(seeds) => Ok(list + seeds)
    case Err(error) => Err(error)
  }

  lemma Prepended(list: seq<seq<u8>>, rest: Result<seq<seq<u8>>, SeedError>)
    ensures list == [] ==> Prepend(list, rest) == rest
  {
    if rest.Ok? { assert [] + rest.value == rest.value; }
  }

  lemma PrependedTwice(list: seq<seq<u8>>, more: seq<seq<u8>>, rest: Result<seq<seq<u8>>, SeedError>)
    ensures Prepend(list, Prepend(more, rest)) == Prepend(list + more, rest)
  {
    if rest.Ok? { assert list + (more + rest.value) == list + more + rest.value; }
  }

  // ── What is hashed ───────────────────────────────────────────────────────

  function Joined(seeds: seq<seq<u8>>): seq<u8> {
    if seeds == [] then [] else seeds[0] + Joined(seeds[1..])
  }

  lemma {:induction false} JoinedOn(a: seq<seq<u8>>, b: seq<seq<u8>>)
    ensures Joined(a + b) == Joined(a) + Joined(b)
  {
    if a == [] {
      assert a + b == b;
    } else {
      assert (a + b)[1..] == a[1..] + b;
      JoinedOn(a[1..], b);
    }
  }

  /** Chunking loses no byte, and no chunk is longer than its size or empty. */
  lemma {:induction false} ChunksKeepBytes(bytes: seq<u8>, size: Positive)
    ensures Joined(Chunked(bytes, size)) == bytes
    ensures forall seed <- Chunked(bytes, size) :: 0 < |seed| <= size
  {
    if |bytes| > size {
      ChunksKeepBytes(bytes[size..], size);
      assert Chunked(bytes, size)[1..] == Chunked(bytes[size..], size);
    } else if bytes != [] {
      assert Joined([bytes]) == bytes + Joined([]);
    }
  }

  lemma {:induction false} ChunkCount(bytes: seq<u8>)
    ensures |Chunked(bytes, 32)| == (|bytes| + 31) / 32
  {
    if |bytes| > 32 {
      ChunkCount(bytes[32..]);
    }
  }

  function Flat(cs: seq<Component>, values: Values): Result<seq<u8>, SeedError> {
    if cs == [] then Ok([])
    else
      match BytesOf(cs[0], values)
      case Err(error) => Err(error)
      case Ok(bytes) =>
        match Flat(cs[1..], values)
        case Err(error) => Err(error)
        case Ok(rest) => Ok(bytes + rest)
  }

  /** The seeds one after the other are the components' bytes one after the other. */
  lemma {:induction false} SeedsAreFlat(cs: seq<Component>, values: Values)
    ensures SeedList(cs, values).Ok? <==> Flat(cs, values).Ok?
    ensures SeedList(cs, values).Ok? ==> Joined(SeedList(cs, values).value) == Flat(cs, values).value
  {
    if cs != [] && BytesOf(cs[0], values).Ok? {
      SeedsAreFlat(cs[1..], values);
      var bytes := BytesOf(cs[0], values).value;
      if SeedList(cs[1..], values).Ok? {
        JoinedOn(SeedsOf(cs[0], bytes), SeedList(cs[1..], values).value);
        if cs[0].Chunks? {
          ChunksKeepBytes(bytes, cs[0].size);
        } else {
          assert Joined([bytes]) == bytes + Joined([]);
        }
      }
    }
  }

  // ── No two accounts share their seeds ────────────────────────────────────

  function Header(account: Account): seq<u8> {
    match account
    case SystemState => Ascii("ika_system_state")
    case DWalletCoordinator => Ascii("dwallet_coordinator")
    case DWallet => Ascii("dwallet") + Ascii("record")
    case DWalletAttestation => Ascii("dwallet") + Ascii("attestation")
    case ImportedDWallet => Ascii("dwallet") + Ascii("imported_record")
    case ImportedDWalletAttestation => Ascii("dwallet") + Ascii("imported_attestation")
    case PublicUserShareAttestation => Ascii("dwallet") + Ascii("public_user_share")
    case EncryptedShareAttestation => Ascii("dwallet") + Ascii("encrypted_share_attestation")
    case EncryptedUserSecretKeyShare => Ascii("dwallet") + Ascii("encrypted_user_share")
    case ImportedPublicUserShareAttestation => Ascii("dwallet") + Ascii("imported_public_user_share")
    case ImportedEncryptedShareAttestation => Ascii("dwallet") + Ascii("imported_enc_share_attestation")
    case ImportedEncryptedUserSecretKeyShare => Ascii("dwallet") + Ascii("imported_encrypted_user_share")
    case GasDeposit => Ascii("gas_deposit")
    case GasCharge => Ascii("gas_charge")
    case NetworkEncryptionKey => Ascii("network_encryption_key")
    case NetworkReconfigurationOutput => Ascii("network_reconfig")
    case EncryptionKey => Ascii("encryption_key")
  }

  /** The byte at `i`, or 0 past the end. */
  function At(bytes: seq<u8>, i: nat): int { if i < |bytes| then bytes[i] else 0 }

  /** The account whose literals `bytes` start with, told by a few of their characters. */
  function Identify(bytes: seq<u8>): Account {
    if At(bytes, 0) == 'i' as int then SystemState
    else if At(bytes, 0) == 'e' as int then EncryptionKey
    else if At(bytes, 0) == 'g' as int then (if At(bytes, 4) == 'd' as int then GasDeposit else GasCharge)
    else if At(bytes, 0) == 'n' as int then
      (if At(bytes, 8) == 'e' as int then NetworkEncryptionKey else NetworkReconfigurationOutput)
    else if At(bytes, 7) == '_' as int then DWalletCoordinator
    else if At(bytes, 7) == 'r' as int then DWallet
    else if At(bytes, 7) == 'a' as int then DWalletAttestation
    else if At(bytes, 7) == 'p' as int then PublicUserShareAttestation
    else if At(bytes, 7) == 'e' as int then
      (if At(bytes, 17) == 's' as int then EncryptedShareAttestation else EncryptedUserSecretKeyShare)
    else if At(bytes, 16) == 'r' as int then ImportedDWallet
    else if At(bytes, 16) == 'a' as int then ImportedDWalletAttestation
    else if At(bytes, 16) == 'p' as int then ImportedPublicUserShareAttestation
    else if At(bytes, 19) == '_' as int then ImportedEncryptedShareAttestation
    else ImportedEncryptedUserSecretKeyShare
  }

  /** The literals of an account name it, whatever follows them. */
  lemma HeaderIdentifies(account: Account, rest: seq<u8>)
    ensures Identify(Header(account) + rest) == account
  {
    if account.DWallet? || account.DWalletAttestation? || account.PublicUserShareAttestation?
       || account.EncryptedShareAttestation? || account.EncryptedUserSecretKeyShare? {
      DKGHeaderIdentifies(account, rest);
    } else if account.ImportedDWallet? || account.ImportedDWalletAttestation? || account.ImportedPublicUserShareAttestation?
              || account.ImportedEncryptedShareAttestation? || account.ImportedEncryptedUserSecretKeyShare? {
      ImportedHeaderIdentifies(account, rest);
    } else {
      OneWordHeaderIdentifies(account, rest);
    }
  }

  lemma OneWordHeaderIdentifies(account: Account, rest: seq<u8>)
    requires account.SystemState? || account.DWalletCoordinator? || account.GasDeposit? || account.GasCharge?
             || account.NetworkEncryptionKey? || account.NetworkReconfigurationOutput? || account.EncryptionKey?
    ensures Identify(Header(account) + rest) == account
  {
  }

  lemma DKGHeaderIdentifies(account: Account, rest: seq<u8>)
    requires account.DWallet? || account.DWalletAttestation? || account.PublicUserShareAttestation?
             || account.EncryptedShareAttestation? || account.EncryptedUserSecretKeyShare?
    ensures Identify(Header(account) + rest) == account
  {
  }

  lemma ImportedHeaderIdentifies(account: Account, rest: seq<u8>)
    requires account.ImportedDWallet? || account.ImportedDWalletAttestation? || account.ImportedPublicUserShareAttestation?
             || account.ImportedEncryptedShareAttestation? || account.ImportedEncryptedUserSecretKeyShare?
    ensures Identify(Header(account) + rest) == account
  {
  }

  lemma {:induction false} FlatOn(cs: seq<Component>, ds: seq<Component>, values: Values)
    ensures Flat(cs + ds, values) ==
            match Flat(cs, values)
            case Err(error) => Err(error)
            case Ok(first) =>
              match Flat(ds, values)
              case Err(error) => Err(error)
              case Ok(rest) => Ok(first + rest)
  {
    if cs == [] {
      assert cs + ds == ds;
      if Flat(ds, values).Ok? { assert [] + Flat(ds, values).value == Flat(ds, values).value; }
    } else {
      assert (cs + ds)[1..] == cs[1..] + ds && (cs + ds)[0] == cs[0];
      FlatOn(cs[1..], ds, values);
      if BytesOf(cs[0], values).Ok? && Flat(cs[1..], values).Ok? && Flat(ds, values).Ok? {
        Regroup(BytesOf(cs[0], values).value, Flat(cs[1..], values).value, Flat(ds, values).value);
      }
    }
  }

  lemma Regroup(a: seq<u8>, b: seq<u8>, c: seq<u8>)
    ensures a + (b + c) == a + b + c
  {
  }

  lemma OneLiteral(text: string, values: Values)
    ensures Flat([Literal(text)], values) == Ok(Ascii(text))
  {
    assert Ascii(text) + [] == Ascii(text);
  }

  lemma TwoLiterals(text: string, more: string, values: Values)
    ensures Flat([Literal(text), Literal(more)], values) == Ok(Ascii(text) + Ascii(more))
  {
    OneLiteral(more, values);
    assert [Literal(text), Literal(more)][1..] == [Literal(more)];
  }

  lemma LiteralsAreHeader(account: Account, values: Values)
    ensures Flat(Literals(account), values) == Ok(Header(account))
  {
    var cs := Literals(account);
    if |cs| == 1 {
      OneLiteral(cs[0].text, values);
      assert cs == [Literal(cs[0].text)];
    } else {
      TwoLiterals(cs[0].text, cs[1].text, values);
      assert cs == [Literal(cs[0].text), Literal(cs[1].text)];
    }
  }

  /** Every component is of stated width. */
  predicate AllWidths(cs: seq<Component>) {
    cs == [] || (cs[0].Width? && AllWidths(cs[1..]))
  }

  function TailLength(cs: seq<Component>): nat
    requires AllWidths(cs)
  {
    if cs == [] then 0 else cs[0].width + TailLength(cs[1..])
  }

  lemma {:induction false} TailHasItsLength(cs: seq<Component>, values: Values)
    requires AllWidths(cs) && Flat(cs, values).Ok?
    ensures |Flat(cs, values).value| == TailLength(cs)
  {
    if cs != [] {
      TailHasItsLength(cs[1..], values);
    }
  }

  /** Only the first value may vary in length. */
  predicate OneVaries(cs: seq<Component>) {
    cs == [] || (!cs[0].Literal? && AllWidths(cs[1..]))
  }

  /** Equal bytes come from equal values, component by component. */
  lemma {:induction false} BodyIsInjective(cs: seq<Component>, a: Values, b: Values)
    requires OneVaries(cs) && Flat(cs, a).Ok? && Flat(cs, a) == Flat(cs, b)
    ensures forall c <- cs :: BytesOf(c, a) == BytesOf(c, b)
  {
    if cs != [] {
      var x, y := BytesOf(cs[0], a).value, BytesOf(cs[0], b).value;
      var s, t := Flat(cs[1..], a).value, Flat(cs[1..], b).value;
      TailHasItsLength(cs[1..], a);
      TailHasItsLength(cs[1..], b);
      assert x == (x + s)[..|x|] == (y + t)[..|y|] == y;
      assert s == (x + s)[|x|..] == (y + t)[|y|..] == t;
      BodyIsInjective(cs[1..], a, b);
      assert cs == [cs[0]] + cs[1..];
    }
  }

  lemma BodiesVaryOnce(account: Account)
    ensures OneVaries(Body(account))
  {
    var cs := Body(account);
    if |cs| == 2 {
      assert cs[1..] == [cs[1]] && [cs[1]][1..] == [];
    } else if |cs| == 3 {
      assert [cs[2]][1..] == [];
      assert AllWidths([cs[2]]);
      assert cs[1..][1..] == [cs[2]];
    }
  }

  /** What an account's seeds hash to the same bytes as: its literals, then its values. */
  lemma SeedsAreHeaderAndBody(account: Account, values: Values)
    requires SeedList(Schema(account), values).Ok?
    ensures Flat(Body(account), values).Ok?
    ensures Joined(SeedList(Schema(account), values).value) == Header(account) + Flat(Body(account), values).value
  {
    SeedsAreFlat(Schema(account), values);
    FlatOn(Literals(account), Body(account), values);
    LiteralsAreHeader(account, values);
  }

  /**
   * Different accounts, or different values of one account, always give
   * different undelimited seeds, though the root varies in length.
   */
  lemma SeedsAreInjective(one: Account, a: Values, other: Account, b: Values)
    requires SeedList(Schema(one), a).Ok? && SeedList(Schema(other), b).Ok?
    requires Joined(SeedList(Schema(one), a).value) == Joined(SeedList(Schema(other), b).value)
    ensures one == other
    ensures forall c <- Schema(one) :: BytesOf(c, a) == BytesOf(c, b)
  {
    SeedsAreHeaderAndBody(one, a);
    SeedsAreHeaderAndBody(other, b);
    var x, y := Flat(Body(one), a).value, Flat(Body(other), b).value;
    SameAccount(one, x, other, y);
    BodiesVaryOnce(one);
    BodyIsInjective(Body(one), a, b);
    forall c <- Schema(one) ensures BytesOf(c, a) == BytesOf(c, b) {
      if c !in Body(one) { LiteralsAreLiteral(one, c); }
    }
  }

  lemma SameAccount(one: Account, x: seq<u8>, other: Account, y: seq<u8>)
    requires Header(one) + x == Header(other) + y
    ensures one == other && x == y
  {
    HeaderIdentifies(one, x);
    HeaderIdentifies(other, y);
    var h := Header(one);
    assert x == (h + x)[|h|..] == (h + y)[|h|..] == y;
  }

  lemma LiteralsAreLiteral(account: Account, c: Component)
    requires c in Literals(account)
    ensures c.Literal?
  {
  }

  /** Every seed is at most 32 bytes, and no account has more than seven: within Solana's limits with the bump. */
  lemma {:induction false} SeedsFit(account: Account, values: Values)
    requires SeedList(Schema(account), values).Ok?
    ensures
      var seeds := SeedList(Schema(account), values).value;
      |seeds| <= 7 && forall seed <- seeds :: |seed| <= 32
  {
    SchemaFits(account);
    ListFits(Schema(account), values);
  }

  /** The most seeds the components become. */
  function MostSeeds(cs: seq<Component>): nat {
    if cs == [] then 0 else Most(cs[0]) + MostSeeds(cs[1..])
  }

  function Most(c: Component): nat {
    if c.Chunks? then (c.max + 31) / 32 else 1
  }

  predicate Short(c: Component) {
    match c
    case Literal(text) => |text| <= 32
    case Width(_, width) => width <= 32
    case Chunks(_, size, _, _) => size == 32
  }

  predicate AllShort(cs: seq<Component>) {
    cs == [] || (Short(cs[0]) && AllShort(cs[1..]))
  }

  lemma SchemaFits(account: Account)
    ensures MostSeeds(Schema(account)) <= 7 && AllShort(Schema(account))
  {
    MostOn(Literals(account), Body(account));
    MostOfFew(Literals(account));
    MostOfFew(Body(account));
  }

  lemma MostOfFew(cs: seq<Component>)
    requires |cs| <= 3
    ensures MostSeeds(cs) == (if |cs| > 0 then Most(cs[0]) else 0) + (if |cs| > 1 then Most(cs[1]) else 0)
                             + (if |cs| > 2 then Most(cs[2]) else 0)
    ensures AllShort(cs) <==> forall i | 0 <= i < |cs| :: Short(cs[i])
  {
    if |cs| > 0 {
      MostOfFew(cs[1..]);
      if AllShort(cs[1..]) && Short(cs[0]) {
        forall i | 0 <= i < |cs| ensures Short(cs[i]) {
          if i > 0 { assert Short(cs[1..][i - 1]); }
        }
      }
    }
  }

  lemma {:induction false} MostOn(cs: seq<Component>, ds: seq<Component>)
    ensures MostSeeds(cs + ds) == MostSeeds(cs) + MostSeeds(ds)
    ensures AllShort(cs + ds) <==> AllShort(cs) && AllShort(ds)
  {
    if cs == [] {
      assert cs + ds == ds;
    } else {
      assert (cs + ds)[1..] == cs[1..] + ds;
      MostOn(cs[1..], ds);
    }
  }

  lemma {:induction false} ListFits(cs: seq<Component>, values: Values)
    requires AllShort(cs) && SeedList(cs, values).Ok?
    ensures |SeedList(cs, values).value| <= MostSeeds(cs)
    ensures forall seed <- SeedList(cs, values).value :: |seed| <= 32
  {
    if cs != [] {
      ListFits(cs[1..], values);
      var bytes := BytesOf(cs[0], values).value;
      if cs[0].Chunks? {
        ChunksKeepBytes(bytes, cs[0].size);
        ChunkCount(bytes);
      }
    }
  }

  // ── What an address hashes ───────────────────────────────────────────────

  /** The bytes hashed for one candidate address: the seeds, the bump, the program and a marker. */
  function Preimage(seeds: seq<u8>, bump: u8, program: Bytes32): seq<u8> {
    seeds + [bump] + program + Ascii("ProgramDerivedAddress")
  }

  /** The bump follows the seeds, the program the bump, and the marker comes last. */
  lemma PreimageReads(seeds: seq<u8>, bump: u8, program: Bytes32)
    ensures
      var bytes, n := Preimage(seeds, bump, program), |seeds|;
      && |bytes| == n + 54
      && bytes[..n] == seeds && bytes[n] == bump && bytes[n + 1..n + 33] == program
      && bytes[n + 33..] == Ascii("ProgramDerivedAddress")
  {
    var bytes, n := Preimage(seeds, bump, program), |seeds|;
    assert bytes[n + 1..n + 33] == program;
    assert bytes[n + 33..] == Ascii("ProgramDerivedAddress");
  }

  /** Two addresses hash the same bytes only for the same account, values, bump and program. */
  lemma PreimagesAreInjective(one: Account, a: Values, x: u8, p: Bytes32, other: Account, b: Values, y: u8, q: Bytes32)
    requires SeedList(Schema(one), a).Ok? && SeedList(Schema(other), b).Ok?
    requires Preimage(Joined(SeedList(Schema(one), a).value), x, p) == Preimage(Joined(SeedList(Schema(other), b).value), y, q)
    ensures one == other && x == y && p == q
    ensures forall c <- Schema(one) :: BytesOf(c, a) == BytesOf(c, b)
  {
    SamePreimage(Joined(SeedList(Schema(one), a).value), x, p, Joined(SeedList(Schema(other), b).value), y, q);
    SeedsAreInjective(one, a, other, b);
  }

  lemma SamePreimage(s: seq<u8>, x: u8, p: Bytes32, t: seq<u8>, y: u8, q: Bytes32)
    requires Preimage(s, x, p) == Preimage(t, y, q)
    ensures s == t && x == y && p == q
  {
    var l, r := Preimage(s, x, p), Preimage(t, y, q);
    assert |s| == |t|;
    assert s == l[..|s|] == r[..|t|] == t;
    assert l[|s|] == x && r[|t|] == y;
    assert p == l[|s| + 1..|s| + 33] == r[|t| + 1..|t| + 33] == q;
  }

  /** `dwalletSeedRoot`: the curve in two bytes, then the key. */
  function Root(curve: nat, key: seq<u8>): seq<u8>
    requires curve < 0x1_0000
  {
    LittleEndian(curve, 2) + key
  }

  lemma RootIsInjective(c: nat, k: seq<u8>, d: nat, l: seq<u8>)
    requires c < 0x1_0000 && d < 0x1_0000 && Root(c, k) == Root(d, l)
    ensures c == d && k == l
  {
    Widths();
    LittleEndianRoundTrip(c, 2);
    LittleEndianRoundTrip(d, 2);
    assert Root(c, k)[..2] == LittleEndian(c, 2) && Root(d, l)[..2] == LittleEndian(d, 2);
    assert Root(c, k)[2..] == k && Root(d, l)[2..] == l;
  }
}
