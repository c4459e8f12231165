/** What the attestation readers and the exact decoding promise of each kind. */
module AttestationTheorems {
  import opened Common
  import opened Bytes
  import opened VariableLength
  import opened Attestations
  import opened AttestationAccounts

  // ── Parsing a list part by part ──────────────────────────────────────────

  lemma {:induction false} WriteOn(write: Writer, fs: seq<Field>, gs: seq<Field>, vs: seq<Value>, ws: seq<Value>)
    requires |fs| == |vs| && |gs| == |ws|
    ensures WriteAll(write, fs + gs, vs + ws) == WriteAll(write, fs, vs) + WriteAll(write, gs, ws)
  {
    if fs == [] {
      assert fs + gs == gs && vs + ws == ws;
    } else {
      assert (fs + gs)[1..] == fs[1..] + gs && (vs + ws)[1..] == vs[1..] + ws;
      WriteOn(write, fs[1..], gs, vs[1..], ws);
    }
  }

  lemma {:induction false} ReadOn(read: Reader, fs: seq<Field>, gs: seq<Field>, bytes: seq<u8>)
    ensures ReadAll(read, fs + gs, bytes) ==
            match ReadAll(read, fs, bytes)
            case None => None
            case Some((vs, rest)) =>
              match ReadAll(read, gs, rest)
              case Some((ws, end)) => Some((vs + ws, end))
              case None => None
  {
    if fs == [] {
      assert fs + gs == gs;
      if ReadAll(read, gs, bytes).Some? {
        assert [] + ReadAll(read, gs, bytes).value.0 == ReadAll(read, gs, bytes).value.0;
      }
    } else if read(fs[0], bytes).Some? {
      var (v, rest) := read(fs[0], bytes).value;
      assert (fs + gs)[1..] == fs[1..] + gs;
      ReadOn(read, fs[1..], gs, rest);
      if ReadAll(read, fs[1..], rest).Some? && ReadAll(read, gs, ReadAll(read, fs[1..], rest).value.1).Some? {
        var (vs, middle) := ReadAll(read, fs[1..], rest).value;
        assert [v] + (vs + ReadAll(read, gs, middle).value.0) == [v] + vs + ReadAll(read, gs, middle).value.0;
      }
    }
  }

  /** After well-formed fields, the parse goes on with the rest. */
  lemma PrefixIsParsed(pre: seq<Field>, post: seq<Field>, vs: seq<Value>, ws: seq<Value>, bytes: seq<u8>)
    requires All(WellFormed, pre, vs) && |post| == |ws|
    requires bytes == WriteAll(Encode, pre, vs) + WriteAll(Encode, post, ws)
    ensures ReadAll(Parse, pre + post, bytes) == Then(vs, ReadAll(Parse, post, WriteAll(Encode, post, ws)))
  {
    AllWellFormedArePlain(pre, vs);
    ParseReadsBack();
    WrittenAreRead(Parse, Encode, Plain, WellFormed, pre, vs, WriteAll(Encode, post, ws));
    ReadOn(Parse, pre, post, bytes);
  }

  lemma WrittenInTwo(write: Writer, fs: seq<Field>, vs: seq<Value>, n: nat)
    requires n <= |fs| == |vs|
    ensures WriteAll(write, fs, vs) == WriteAll(write, fs[..n], vs[..n]) + WriteAll(write, fs[n..], vs[n..])
  {
    var pre, post, first, last := fs[..n], fs[n..], vs[..n], vs[n..];
    Rejoined(fs, n);
    Rejoined(vs, n);
    WriteOn(write, pre, post, first, last);
  }

  lemma Rejoined<T>(s: seq<T>, n: nat)
    requires n <= |s|
    ensures s[..n] + s[n..] == s
  {
  }

  lemma PrefixOfFields(fs: seq<Field>, vs: seq<Value>, n: nat)
    requires n <= |fs| == |vs| && All(WellFormed, fs[..n], vs[..n])
    ensures ReadAll(Parse, fs, WriteAll(Encode, fs, vs)) ==
              Then(vs[..n], ReadAll(Parse, fs[n..], WriteAll(Encode, fs[n..], vs[n..])))
  {
    WrittenInTwo(Encode, fs, vs, n);
    Rejoined(fs, n);
    PrefixIsParsed(fs[..n], fs[n..], vs[..n], vs[n..], WriteAll(Encode, fs, vs));
  }

  lemma VersionIsParsed(bytes: seq<u8>)
    ensures ParseIndex(1, [0] + bytes) == Some((Of([0]), bytes))
  {
    IndexParses(1, 0, bytes);
  }

  lemma PrefixOfAttestation(kind: Kind, vs: seq<Value>, n: nat)
    requires n <= |Fields(kind)| == |vs| && All(WellFormed, Fields(kind)[..n], vs[..n])
    ensures ParseAttestation(kind, LaidOut(kind, vs)) ==
            match ReadAll(Parse, Fields(kind)[n..], WriteAll(Encode, Fields(kind)[n..], vs[n..]))
            case Some((ws, rest)) => Some(vs[..n] + ws)
            case None => None
  {
    PrefixOfFields(Fields(kind), vs, n);
    VersionIsParsed(WriteAll(Encode, Fields(kind), vs));
  }

  // ── The share attestations and the partial signature's are exact ─────────

  /** Fields that are plain whenever they are storable. */
  predicate AlwaysPlain(f: Field) {
    match f
    case Fixed(_) => true
    case Short => true
    case Long => true
    case Flag => true
    case Index(_) => false
    case Holder => false
    case Optional(inner) => AlwaysPlain(inner)
  }

  lemma {:induction false} StorableIsPlain(f: Field, v: Value)
    requires AlwaysPlain(f) && Storable(f, v)
    ensures Plain(f, v) && WellFormed(f, v)
  {
    if f.Optional? && v.Present? {
      StorableIsPlain(f.inner, v.value);
    }
  }

  lemma StorablePrefix(kind: Kind, vs: seq<Value>, n: nat)
    requires All(Storable, Fields(kind), vs) && n <= |Fields(kind)|
    requires forall i | 0 <= i < n :: AlwaysPlain(Fields(kind)[i])
    ensures All(WellFormed, Fields(kind)[..n], vs[..n])
    ensures forall i | 0 <= i < n :: Plain(Fields(kind)[i], vs[i])
  {
    forall i | 0 <= i < n ensures WellFormed(Fields(kind)[i], vs[i]) && Plain(Fields(kind)[i], vs[i]) {
      StorableIsPlain(Fields(kind)[i], vs[i]);
    }
  }

  /** A holder's padded variant would take one byte more than the holder and the digest have. */
  lemma EncryptedShareIsPlain(vs: seq<Value>)
    requires All(Storable, Fields(EncryptedShare), vs) && Rebuilt(EncryptedShare, vs).Some?
    ensures All(Plain, Fields(EncryptedShare), vs)
  {
    var fs := Fields(EncryptedShare);
    StorablePrefix(EncryptedShare, vs, 5);
    PrefixOfAttestation(EncryptedShare, vs, 5);
    assert fs[5..] == [Holder, Fixed(32)] && vs[5..] == [vs[5], vs[6]];
    assert Storable(fs[5], vs[5]) && Storable(fs[6], vs[6]);
    TwoFields(Holder, Fixed(32), vs[5], vs[6]);
    PaddedHolderRunsOut(vs[5].bytes, vs[6].bytes);
    forall i | 0 <= i < |fs| ensures Plain(fs[i], vs[i]) {
      if i == 6 { StorableIsPlain(fs[6], vs[6]); }
    }
  }

  lemma TwoFields(f: Field, g: Field, v: Value, w: Value)
    requires ReadAll(Parse, [f, g], WriteAll(Encode, [f, g], [v, w])).Some?
    ensures Parse(f, Encode(f, v) + Encode(g, w)).Some?
    ensures Parse(g, Parse(f, Encode(f, v) + Encode(g, w)).value.1).Some?
  {
    assert [f, g][1..] == [g] && [v, w][1..] == [w];
    assert WriteAll(Encode, [g], [w]) == Encode(g, w) + WriteAll(Encode, [], []) == Encode(g, w);
    var bytes := WriteAll(Encode, [f, g], [v, w]);
    assert ReadAll(Parse, [g], Parse(f, bytes).value.1).Some?;
  }

  lemma PaddedHolderRunsOut(holder: seq<u8>, digest: seq<u8>)
    requires |holder| == 33 && |digest| == 32
    requires Parse(Holder, holder + digest).Some? && |Parse(Holder, holder + digest).value.1| >= 32
    ensures holder[0] < 128
  {
    ParsesNoLess(Holder, holder + digest);
    var (v, rest) := Parse(Holder, holder + digest).value;
    assert (holder + digest)[0] == holder[0] && (v.bytes + rest)[0] == v.bytes[0];
  }

  /** A padded variant would take the length of the sign data with it. */
  lemma PartialSignatureIsPlain(vs: seq<Value>)
    requires All(Storable, Fields(PartialUserSignature), vs) && Rebuilt(PartialUserSignature, vs).Some?
    ensures All(Plain, Fields(PartialUserSignature), vs)
  {
    var fs := Fields(PartialUserSignature);
    StorablePrefix(PartialUserSignature, vs, 9);
    PrefixOfAttestation(PartialUserSignature, vs, 9);
    assert fs[9..] == [Index(7), Long] && vs[9..] == [vs[9], vs[10]];
    assert Storable(fs[9], vs[9]) && Storable(fs[10], vs[10]);
    TwoFields(Index(7), Long, vs[9], vs[10]);
    PaddedIndexRunsOut(7, vs[9].bytes, vs[10].bytes);
    forall i | 0 <= i < |fs| ensures Plain(fs[i], vs[i]) {
      if i == 10 { StorableIsPlain(fs[10], vs[10]); }
    }
  }

  lemma PaddedIndexRunsOut(count: Variants, index: seq<u8>, data: seq<u8>)
    requires |index| == 1
    requires ParseIndex(count, index + (Uleb(|data|) + data)).Some?
    requires ParseVector(ParseIndex(count, index + (Uleb(|data|) + data)).value.1).Some?
    ensures index[0] < 128
  {
    var bytes := index + (Uleb(|data|) + data);
    assert bytes[1..] == Uleb(|data|) + data;
    UlebReads(|data|, data);
    assert index[0] >= 128 ==> ReadUleb(bytes) == Some((index[0] - 128 + 128 * |data|, data));
    assert index[0] >= 128 ==> data == [];
  }

  /**
   * The readers of an encrypted share, a public share and a partial signature
   * are exact on every region: what they accept is the layout of one
   * attestation, to its last byte, and what they give is its BCS.
   */
  lemma ReadersAreExact(kind: Kind, region: seq<u8>, bytes: seq<u8>)
    requires kind in {EncryptedShare, PublicShare, PartialUserSignature}
    ensures ReadFields(kind, region) == Some(bytes) <==> Exactly(kind, region, bytes)
  {
    if ReadFields(kind, region).Some? {
      var vs := TakeFields(kind, region).value;
      FieldsTaken(kind, region, vs);
      match kind {
        case EncryptedShare => EncryptedShareIsPlain(vs);
        case PartialUserSignature => PartialSignatureIsPlain(vs);
        case PublicShare => StorablePrefix(PublicShare, vs, 5);
      }
      assert PlainRegion(kind, region);
      PlainRegionsAreExact(kind, region, bytes);
    } else if Exactly(kind, region, bytes) {
      var vs :| Attestable(kind, vs) && region == WriteAll(Store, Fields(kind), vs) && bytes == LaidOut(kind, vs);
      StoredReadsAsItself(kind, vs);
    }
  }

  /** Two regions these readers accept never give the same bytes, unless they are one region. */
  lemma ReadersAreInjective(kind: Kind, a: seq<u8>, b: seq<u8>)
    requires kind in {EncryptedShare, PublicShare, PartialUserSignature} || (PlainRegion(kind, a) && PlainRegion(kind, b))
    requires ReadFields(kind, a).Some? && ReadFields(kind, a) == ReadFields(kind, b)
    ensures a == b
  {
    var bytes := ReadFields(kind, a).value;
    if kind in {EncryptedShare, PublicShare, PartialUserSignature} {
      ReadersAreExact(kind, a, bytes);
      ReadersAreExact(kind, b, bytes);
    } else {
      PlainRegionsAreExact(kind, a, bytes);
      PlainRegionsAreExact(kind, b, bytes);
    }
    ExactIsOne(kind, a, b, bytes);
  }

  lemma ExactIsOne(kind: Kind, a: seq<u8>, b: seq<u8>, bytes: seq<u8>)
    requires Exactly(kind, a, bytes) && Exactly(kind, b, bytes)
    ensures a == b
  {
    var x :| Attestable(kind, x) && a == WriteAll(Store, Fields(kind), x) && bytes == LaidOut(kind, x);
    var y :| Attestable(kind, y) && b == WriteAll(Store, Fields(kind), y) && bytes == LaidOut(kind, y);
    assert LaidOut(kind, x) + [] == LaidOut(kind, y);
    AttestationsDiffer(kind, x, y, []);
  }

  // ── A dWallet's attestation ──────────────────────────────────────────────

  /** The fields from the curve to the signature made during the DKG. */
  const MIDDLE: seq<Field> := [Index(CURVES), Short, Long, Flag, Optional(Long)]

  /** A padded curve, with an empty public key: the padding's second byte is the key's length. */
  function Padded(curve: u8): seq<Value>
    requires curve < 128
  {
    [Of([curve + 128]), Of([]), Of([]), Of([0]), Present(Of([0]))]
  }

  /** The fields it is read as: every one after the curve is one byte on. */
  function ReadAs(curve: u8): seq<Value> {
    [Of([curve]), Of([]), Of([]), Of([1]), Present(Of([]))]
  }

  lemma WriteOne(f: Field, fs: seq<Field>, v: Value, vs: seq<Value>)
    requires |fs| == |vs|
    ensures WriteAll(Encode, [f] + fs, [v] + vs) == Encode(f, v) + WriteAll(Encode, fs, vs)
  {
    assert ([f] + fs)[1..] == fs && ([v] + vs)[1..] == vs;
  }

  const AFTER_CURVE: seq<Field> := [Short, Long, Flag, Optional(Long)]

  /** The last two of the fields after the curve: the flag and the signature. */
  lemma FlagAndSignature(flag: u8, signature: Value)
    ensures WriteAll(Encode, [Flag, Optional(Long)], [Of([flag]), signature]) == [flag] + Encode(Optional(Long), signature)
  {
    WriteOne(Optional(Long), [], signature, []);
    WriteOne(Flag, [Optional(Long)], Of([flag]), [signature]);
    assert [Optional(Long)] + [] == [Optional(Long)] && [signature] + [] == [signature];
    assert [Flag] + [Optional(Long)] == [Flag, Optional(Long)] && [Of([flag])] + [signature] == [Of([flag]), signature];
    assert Encode(Optional(Long), signature) + [] == Encode(Optional(Long), signature);
  }

  /** Two empty vectors, then those two. */
  lemma AfterCurveLaidOut(flag: u8, signature: Value)
    ensures WriteAll(Encode, AFTER_CURVE, [Of([]), Of([]), Of([flag]), signature])
              == [0] + ([0] + ([flag] + Encode(Optional(Long), signature)))
  {
    var fs, vs := [Flag, Optional(Long)], [Of([flag]), signature];
    assert Uleb(0) + [] == [0];
    WriteOne(Long, fs, Of([]), vs);
    WriteOne(Short, [Long] + fs, Of([]), [Of([])] + vs);
    FlagAndSignature(flag, signature);
    assert [Short] + ([Long] + fs) == AFTER_CURVE && [Of([])] + ([Of([])] + vs) == [Of([]), Of([]), Of([flag]), signature];
  }

  lemma MiddleLaidOut(first: Value, flag: u8, signature: Value)
    ensures WriteAll(Encode, MIDDLE, [first, Of([]), Of([]), Of([flag]), signature])
              == Encode(Index(CURVES), first) + ([0] + ([0] + ([flag] + Encode(Optional(Long), signature))))
  {
    var vs := [Of([]), Of([]), Of([flag]), signature];
    WriteOne(Index(CURVES), AFTER_CURVE, first, vs);
    AfterCurveLaidOut(flag, signature);
    assert [Index(CURVES)] + AFTER_CURVE == MIDDLE && [first] + vs == [first, Of([]), Of([]), Of([flag]), signature];
  }

  /** A padded variant takes the next byte, a zero, with it. */
  lemma PaddedIndexParses(curve: u8, gs: seq<Field>, after: seq<u8>, ws: seq<Value>, rest: seq<u8>)
    requires curve < CURVES && ReadAll(Parse, gs, after) == Some((ws, rest))
    ensures ReadAll(Parse, [Index(CURVES)] + gs, [curve + 128] + ([0] + after)) == Some(([Of([curve])] + ws, rest))
  {
    var bytes := [curve + 128] + ([0] + after);
    assert bytes[1..] == [0] + after && ([0] + after)[1..] == after;
    assert ReadUleb([0] + after) == Some((0, after));
    assert ([Index(CURVES)] + gs)[1..] == gs;
  }

  const READ_AFTER_CURVE: seq<Value> := [Of([]), Of([]), Of([1]), Present(Of([]))]

  lemma ReadAfterCurveLaidOut()
    ensures WriteAll(Encode, AFTER_CURVE, READ_AFTER_CURVE) == [0, 0, 1, 1, 0]
  {
    AfterCurveLaidOut(1, Present(Of([])));
    assert Uleb(0) == [0];
  }

  lemma AfterCurveIsWellFormed()
    ensures All(WellFormed, AFTER_CURVE, READ_AFTER_CURVE)
  {
  }

  lemma WellFormedAreParsed(fs: seq<Field>, vs: seq<Value>, bytes: seq<u8>, rest: seq<u8>)
    requires All(WellFormed, fs, vs) && bytes == WriteAll(Encode, fs, vs)
    ensures ReadAll(Parse, fs, bytes + rest) == Some((vs, rest))
  {
    AllWellFormedArePlain(fs, vs);
    ParseReadsBack();
    WrittenAreRead(Parse, Encode, Plain, WellFormed, fs, vs, rest);
  }

  lemma PaddedLaidOut(curve: u8)
    requires curve < CURVES
    ensures WriteAll(Encode, MIDDLE, Padded(curve)) == [curve + 128] + ([0] + [0, 0, 1, 1, 0])
  {
    MiddleLaidOut(Of([curve + 128]), 0, Present(Of([0])));
    assert Uleb(1) == [1];
  }

  lemma PaddedFieldsParse(curve: u8, gs: seq<Field>, ws: seq<Value>, tail: seq<u8>, rest: seq<u8>)
    requires curve < CURVES && All(WellFormed, gs, ws) && tail == WriteAll(Encode, gs, ws)
    ensures ReadAll(Parse, [Index(CURVES)] + gs, [curve + 128] + ([0] + tail) + rest) == Some(([Of([curve])] + ws, rest))
  {
    WellFormedAreParsed(gs, ws, tail, rest);
    PaddedIndexParses(curve, gs, tail + rest, ws, rest);
    assert [curve + 128] + ([0] + tail) + rest == [curve + 128] + ([0] + (tail + rest));
  }

  lemma PaddedMiddle(curve: u8, rest: seq<u8>, laid: seq<u8>, middle: seq<Field>)
    requires curve < CURVES && middle == MIDDLE && laid == WriteAll(Encode, MIDDLE, Padded(curve))
    ensures ReadAll(Parse, middle, laid + rest) == Some((ReadAs(curve), rest))
  {
    ReadAfterCurveLaidOut();
    AfterCurveIsWellFormed();
    PaddedLaidOut(curve);
    PaddedFieldsParse(curve, AFTER_CURVE, READ_AFTER_CURVE, [0, 0, 1, 1, 0], rest);
    assert middle == [Index(CURVES)] + AFTER_CURVE && ReadAs(curve) == [Of([curve])] + READ_AFTER_CURVE;
  }

  /** Whatever stands before and after the padded fields. */
  lemma PaddedReadsAs(fs: seq<Field>, gs: seq<Field>, vs: seq<Value>, curve: u8, ws: seq<Value>)
    requires All(WellFormed, fs, vs) && All(WellFormed, gs, ws) && curve < CURVES
    ensures ReadAll(Parse, fs + (MIDDLE + gs), WriteAll(Encode, fs + (MIDDLE + gs), vs + (Padded(curve) + ws)))
              == Some((vs + (ReadAs(curve) + ws), []))
  {
    var last := WriteAll(Encode, gs, ws);
    var middle := WriteAll(Encode, MIDDLE, Padded(curve)) + last;
    WriteOn(Encode, fs, MIDDLE + gs, vs, Padded(curve) + ws);
    WriteOn(Encode, MIDDLE, gs, Padded(curve), ws);
    ReadOn(Parse, fs, MIDDLE + gs, WriteAll(Encode, fs, vs) + middle);
    ReadOn(Parse, MIDDLE, gs, middle);
    PaddedMiddle(curve, last, WriteAll(Encode, MIDDLE, Padded(curve)), MIDDLE);
    ParseReadsBack();
    AllWellFormedArePlain(fs, vs);
    AllWellFormedArePlain(gs, ws);
    WrittenAreRead(Parse, Encode, Plain, WellFormed, fs, vs, middle);
    WrittenAreRead(Parse, Encode, Plain, WellFormed, gs, ws, []);
    assert last + [] == last;
  }

  const BEFORE: seq<Field> := [Fixed(32), Short]
  const AFTER: seq<Field> := [Optional(Holder), Optional(Fixed(32)), Optional(Fixed(32)), Fixed(8)]

  predicate Fits(fs: seq<Field>, vs: seq<Value>) {
    All(WellFormed, fs, vs) && All(Storable, fs, vs)
  }

  lemma AllJoined(ok: (Field, Value) -> bool, fs: seq<Field>, gs: seq<Field>, vs: seq<Value>, ws: seq<Value>)
    requires All(ok, fs, vs) && All(ok, gs, ws)
    ensures All(ok, fs + gs, vs + ws)
  {
    forall i | 0 <= i < |fs + gs| ensures ok((fs + gs)[i], (vs + ws)[i]) {
      if i >= |fs| { assert ok(gs[i - |fs|], ws[i - |fs|]); }
    }
  }

  /**
   * A dWallet's reader is not exact where a variant is stored as 128 or more.
   * Whatever the first two and the last four fields are, these two regions
   * differ, and both are accepted and rebuilt into the same bytes.
   */
  lemma PaddedCurveReadsAsAnother(vs: seq<Value>, curve: u8, ws: seq<Value>)
    requires Fits(BEFORE, vs) && Fits(AFTER, ws) && curve < CURVES
    ensures
      var fs := Fields(DWallet);
      var one, other := vs + (Padded(curve) + ws), vs + (ReadAs(curve) + ws);
      && |one| == |other| == |fs|
      && WriteAll(Store, fs, one) != WriteAll(Store, fs, other)
      && ReadFields(DWallet, WriteAll(Store, fs, one)) == ReadFields(DWallet, WriteAll(Store, fs, other))
           == Some(LaidOut(DWallet, other))
  {
    var fs := Fields(DWallet);
    var one, other := vs + (Padded(curve) + ws), vs + (ReadAs(curve) + ws);
    BothStorable(vs, curve, ws);
    FieldsTaken(DWallet, WriteAll(Store, fs, one), one);
    FieldsTaken(DWallet, WriteAll(Store, fs, other), other);
    StoredReadsAsItself(DWallet, other);
    PaddedRebuilt(vs, curve, ws);
    assert one[2] != other[2];
  }

  lemma BothStorable(vs: seq<Value>, curve: u8, ws: seq<Value>)
    requires Fits(BEFORE, vs) && Fits(AFTER, ws) && curve < CURVES
    ensures All(Storable, Fields(DWallet), vs + (Padded(curve) + ws))
    ensures Attestable(DWallet, vs + (ReadAs(curve) + ws))
  {
    assert Fields(DWallet) == BEFORE + (MIDDLE + AFTER);
    AllJoined(Storable, MIDDLE, AFTER, Padded(curve), ws);
    AllJoined(Storable, BEFORE, MIDDLE + AFTER, vs, Padded(curve) + ws);
    AllJoined(Storable, MIDDLE, AFTER, ReadAs(curve), ws);
    AllJoined(Storable, BEFORE, MIDDLE + AFTER, vs, ReadAs(curve) + ws);
    AllJoined(WellFormed, MIDDLE, AFTER, ReadAs(curve), ws);
    AllJoined(WellFormed, BEFORE, MIDDLE + AFTER, vs, ReadAs(curve) + ws);
  }

  lemma PaddedRebuilt(vs: seq<Value>, curve: u8, ws: seq<Value>)
    requires Fits(BEFORE, vs) && Fits(AFTER, ws) && curve < CURVES
    requires |vs + (Padded(curve) + ws)| == |vs + (ReadAs(curve) + ws)| == |Fields(DWallet)|
    ensures Rebuilt(DWallet, vs + (Padded(curve) + ws)) == Some(LaidOut(DWallet, vs + (ReadAs(curve) + ws)))
  {
    assert Fields(DWallet) == BEFORE + (MIDDLE + AFTER);
    PaddedReadsAs(BEFORE, AFTER, vs, curve, ws);
    IndexParses(1, 0, WriteAll(Encode, Fields(DWallet), vs + (Padded(curve) + ws)));
  }

  // ── The two share attestations ───────────────────────────────────────────

  /** The exact length of a public share, by curve. */
  const PUBLIC_SHARE_LENGTHS: seq<nat> := [35, 35, 34, 34]

  /** The decoding of a public share attestation, checked against its dWallet's curve. */
  function DecodePublicShare(bytes: seq<u8>, curve: nat): Option<seq<Value>>
    requires curve < |PUBLIC_SHARE_LENGTHS|
  {
    match DecodeExactly(PublicShare, bytes)
    case Some(vs) => if vs[3].Of? && |vs[3].bytes| == PUBLIC_SHARE_LENGTHS[curve] then Some(vs) else None
    case None => None
  }

  /**
   * The lengths are those of the share's own encoding: its variant, then a
   * byte vector of one 32-byte scalar, which on the two ECDSA curves is a
   * byte vector itself.
   */
  lemma PublicShareLengths(curve: nat, scalar: Bytes32)
    requires curve < 4
    ensures
      var share := if curve < 2 then Uleb(32) + scalar else scalar;
      |[0] + Uleb(|share|) + share| == PUBLIC_SHARE_LENGTHS[curve]
  {
    assert Uleb(32) == [32] && Uleb(33) == [33];
  }

  /** So exactly the attestations of a share of the curve's length pass. */
  lemma PublicShareDecodesExactly(bytes: seq<u8>, curve: nat, vs: seq<Value>)
    requires curve < 4
    ensures DecodePublicShare(bytes, curve) == Some(vs) <==>
              && All(WellFormed, Fields(PublicShare), vs) && bytes == LaidOut(PublicShare, vs)
              && |vs[3].bytes| == (if curve < 2 then 35 else 34)
  {
    DecodesExactly(PublicShare, bytes, vs);
  }

  /** The fields the two kinds share: the session, the sender and the public key. */
  const COMMON: seq<Field> := [Fixed(32), Short, Short]

  lemma Two(f: Field, g: Field, v: Value, w: Value)
    ensures WriteAll(Encode, [f, g], [v, w]) == Encode(f, v) + Encode(g, w)
  {
    WriteOne(g, [], w, []);
    WriteOne(f, [g], v, [w]);
    assert [f] + [g] == [f, g] && [v] + [w] == [v, w] && [g] + [] == [g] && [w] + [] == [w];
    assert Encode(g, w) + [] == Encode(g, w);
  }

  /** The last 129 bytes of an encrypted share's attestation: two hashes, the holder and the digest. */
  function EncryptedTail(vs: seq<Value>): (tail: seq<u8>)
    requires All(WellFormed, Fields(EncryptedShare), vs)
    ensures |vs| == 7 && vs[3].Of? && |vs[3].bytes| == 32
    ensures |tail| == 129 && tail[0] == vs[3].bytes[0]
  {
    assert WellFormed(Fields(EncryptedShare)[3], vs[3]) && WellFormed(Fields(EncryptedShare)[4], vs[4]);
    assert WellFormed(Fields(EncryptedShare)[5], vs[5]) && WellFormed(Fields(EncryptedShare)[6], vs[6]);
    vs[3].bytes + vs[4].bytes + (vs[5].bytes + vs[6].bytes)
  }

  lemma EncryptedTailLaidOut(vs: seq<Value>)
    requires All(WellFormed, Fields(EncryptedShare), vs)
    ensures WriteAll(Encode, Fields(EncryptedShare)[3..], vs[3..]) == EncryptedTail(vs)
  {
    var fs := Fields(EncryptedShare);
    assert fs[3..] == [Fixed(32), Fixed(32)] + [Holder, Fixed(32)] && vs[3..] == [vs[3], vs[4]] + [vs[5], vs[6]];
    WriteOn(Encode, [Fixed(32), Fixed(32)], [Holder, Fixed(32)], [vs[3], vs[4]], [vs[5], vs[6]]);
    Two(Fixed(32), Fixed(32), vs[3], vs[4]);
    Two(Holder, Fixed(32), vs[5], vs[6]);
    assert WellFormed(fs[3], vs[3]) && WellFormed(fs[4], vs[4]) && WellFormed(fs[5], vs[5]) && WellFormed(fs[6], vs[6]);
  }

  lemma EncryptedShareLaidOut(vs: seq<Value>)
    requires All(WellFormed, Fields(EncryptedShare), vs)
    ensures All(WellFormed, COMMON, vs[..3])
    ensures LaidOut(EncryptedShare, vs) == [0] + (WriteAll(Encode, COMMON, vs[..3]) + EncryptedTail(vs))
  {
    var fs := Fields(EncryptedShare);
    assert fs[..3] == COMMON && fs[..3] + fs[3..] == fs && vs[..3] + vs[3..] == vs;
    forall i | 0 <= i < 3 ensures WellFormed(COMMON[i], vs[..3][i]) { assert WellFormed(fs[i], vs[i]); }
    WriteOn(Encode, fs[..3], fs[3..], vs[..3], vs[3..]);
    EncryptedTailLaidOut(vs);
  }

  lemma PublicShareLaidOut(vs: seq<Value>)
    requires All(WellFormed, Fields(PublicShare), vs)
    ensures |vs| == 5 && vs[3].Of? && vs[4].Of? && |vs[4].bytes| == 32
    ensures All(WellFormed, COMMON, vs[..3])
    ensures LaidOut(PublicShare, vs) ==
              [0] + (WriteAll(Encode, COMMON, vs[..3]) + (Uleb(|vs[3].bytes|) + vs[3].bytes + vs[4].bytes))
  {
    var fs := Fields(PublicShare);
    assert fs[..3] == COMMON && fs[..3] + fs[3..] == fs && vs[..3] + vs[3..] == vs;
    forall i | 0 <= i < 3 ensures WellFormed(COMMON[i], vs[..3][i]) { assert WellFormed(fs[i], vs[i]); }
    assert WellFormed(fs[3], vs[3]) && WellFormed(fs[4], vs[4]);
    WriteOn(Encode, fs[..3], fs[3..], vs[..3], vs[3..]);
    assert fs[3..] == [Long, Fixed(32)] && vs[3..] == [vs[3], vs[4]];
    Two(Long, Fixed(32), vs[3], vs[4]);
  }

  /** 97 bytes hold a length and its value only as the byte 96 and 96 bytes. */
  lemma NinetySeven(length: nat)
    requires |Uleb(length)| + length == 97
    ensures length == 96 && Uleb(length) == [96]
  {
  }

  /** An encrypted share's bytes are a public share's only with a share of 96 bytes, and a hash that starts with 0x60. */
  lemma OverlapIsLong(vs: seq<Value>, ws: seq<Value>)
    requires All(WellFormed, Fields(EncryptedShare), vs) && All(WellFormed, Fields(PublicShare), ws)
    requires LaidOut(EncryptedShare, vs) == LaidOut(PublicShare, ws)
    ensures ws[3].Of? && |ws[3].bytes| == 96
    ensures |vs| == 7 && vs[3].Of? && |vs[3].bytes| == 32 && vs[3].bytes[0] == 0x60
  {
    EncryptedShareLaidOut(vs);
    PublicShareLaidOut(ws);
    var mine, theirs := EncryptedTail(vs), Uleb(|ws[3].bytes|) + ws[3].bytes + ws[4].bytes;
    var a, b := WriteAll(Encode, COMMON, vs[..3]) + mine, WriteAll(Encode, COMMON, ws[..3]) + theirs;
    assert a == ([0] + a)[1..] == ([0] + b)[1..] == b;
    WellFormedAreParsed(COMMON, vs[..3], WriteAll(Encode, COMMON, vs[..3]), mine);
    WellFormedAreParsed(COMMON, ws[..3], WriteAll(Encode, COMMON, ws[..3]), theirs);
    assert mine == theirs;
    NinetySeven(|ws[3].bytes|);
    assert theirs[0] == Uleb(|ws[3].bytes|)[0];
  }

  /** The public share an encrypted share reads as when its hash starts with 0x60. */
  lemma OverlapExists(vs: seq<Value>)
    requires All(WellFormed, Fields(EncryptedShare), vs) && EncryptedTail(vs)[0] == 0x60
    ensures exists ws :: All(WellFormed, Fields(PublicShare), ws) && LaidOut(PublicShare, ws) == LaidOut(EncryptedShare, vs)
  {
    var tail := EncryptedTail(vs);
    var share, digest := tail[1..97], tail[97..];
    var ws := vs[..3] + [Of(share), Of(digest)];
    EncryptedShareLaidOut(vs);
    assert Fields(PublicShare) == COMMON + [Long, Fixed(32)];
    AllJoined(WellFormed, COMMON, [Long, Fixed(32)], vs[..3], [Of(share), Of(digest)]);
    PublicShareLaidOut(ws);
    assert Uleb(96) == [96] && ws[..3] == vs[..3] && ws[3] == Of(share) && ws[4] == Of(digest);
    assert tail == [96] + share + digest;
    assert All(WellFormed, Fields(PublicShare), ws) && LaidOut(PublicShare, ws) == LaidOut(EncryptedShare, vs);
  }

  /**
   * Without the length check, exactly the encrypted-share attestations whose
   * share hash starts with 0x60 also decode as a public share's.
   */
  lemma ShareOverlap(bytes: seq<u8>, vs: seq<Value>)
    requires DecodeExactly(EncryptedShare, bytes) == Some(vs)
    ensures |vs| == 7 && vs[3].Of? && |vs[3].bytes| == 32
    ensures DecodeExactly(PublicShare, bytes).Some? <==> vs[3].bytes[0] == 0x60
  {
    DecodesExactly(EncryptedShare, bytes, vs);
    assert EncryptedTail(vs)[0] == vs[3].bytes[0];
    if DecodeExactly(PublicShare, bytes).Some? {
      var ws := DecodeExactly(PublicShare, bytes).value;
      DecodesExactly(PublicShare, bytes, ws);
      OverlapIsLong(vs, ws);
    }
    if vs[3].bytes[0] == 0x60 {
      OverlapExists(vs);
      var ws :| All(WellFormed, Fields(PublicShare), ws) && LaidOut(PublicShare, ws) == LaidOut(EncryptedShare, vs);
      DecodesExactly(PublicShare, bytes, ws);
    }
  }

  /** With it, no bytes are both. */
  lemma SharesAreApart(bytes: seq<u8>, curve: nat)
    requires curve < |PUBLIC_SHARE_LENGTHS|
    ensures DecodeExactly(EncryptedShare, bytes).None? || DecodePublicShare(bytes, curve).None?
  {
    if DecodeExactly(EncryptedShare, bytes).Some? && DecodeExactly(PublicShare, bytes).Some? {
      var vs, ws := DecodeExactly(EncryptedShare, bytes).value, DecodeExactly(PublicShare, bytes).value;
      DecodesExactly(EncryptedShare, bytes, vs);
      DecodesExactly(PublicShare, bytes, ws);
      OverlapIsLong(vs, ws);
    }
  }
}
