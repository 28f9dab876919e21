/** Which imports the service can store, and one that it reads but never stores. */
module ImportLimits {
  import opened Basics
  import opened Text
  import opened IpText
  import opened Contracts
  import opened Vault
  import opened Service
  import opened ServiceSteps
  import opened ServiceRuns
  import opened Provisioning
  import opened Wire
  import opened WireRoundTrip
  import opened WireBounds
  import ClientAgreement
  import LE = LittleEndian
  import Reimport
  import Utf8

  /** The texts of the profile fit the length bytes that the vault's encoder allows. */
  predicate Storable(p: Profile) {
    match p
    case WireGuardKind(w) => TextsFit(w)
    case AmneziaWgKind(a) => AmneziaWgTextsFit(a)
    case VlessKind(_) => true
  }

  /** Before any call fails, an attempt draws the name of no file, and can open and write it. */
  predicate Serves(files: Files, prefix: string, attempts: seq<Attempt>)
    decreases attempts
  {
    attempts != [] && attempts[0].random.Some? && !attempts[0].openFails
    && if FileName(prefix + HexBytes(attempts[0].random.value)) in files then Serves(files, prefix, attempts[1..])
       else !attempts[0].writeFails
  }

  lemma {:induction false} CreatedExactly(files: Files, p: Profile, blob: Blob, attempts: seq<Attempt>)
    ensures CreateFile(files, Prefix(p), blob, attempts).1.Ok? <==> Serves(files, Prefix(p), attempts)
    decreases attempts
  {
    hide ValidHandle, FileName, HexBytes, Prefix;
    if attempts != [] && attempts[0].random.Some? {
      GeneratedHandle(p, attempts[0].random.value);
      CreatedExactly(files, p, blob, attempts[1..]);
    }
  }

  lemma PayloadExactly(p: Profile)
    requires ValidProfile(p)
    ensures Payload(p).Ok? <==> Storable(p)
  {
    hide ValidWireGuard, ValidAmneziaWg, ValidVless, TextsFit, AmneziaWgTextsFit, EncodeWireGuardProfile,
         EncodeAmneziaWgProfile, EncodeVlessProfile;
    match p
    case WireGuardKind(w) => PayloadSizes(w, LARGEST, ANY_VLESS);
    case AmneziaWgKind(a) => PayloadSizes(a.wireguard, a, ANY_VLESS);
    case VlessKind(v) => PayloadSizes(LARGEST_BASE, LARGEST, v);
  }

  const ANY_VLESS := VlessProfile("", "", 0, "", "", "", "", "")

  lemma ImportValid(frame: Bytes, p: Profile)
    requires IsImport(frame, p)
    ensures ValidProfile(p)
  {
    hide ValidWireGuard, ValidAmneziaWg, ValidVless, ValidIdentifier, DecodeRequest;
    DecodedIds(frame);
  }

  /**
    After every run, an import is answered with "PROFILE_STORED" exactly if its texts fit, sealing works, and an
    attempt to create the file comes through.
   */
  lemma StoredExactly(inputs: seq<Input>, frame: Bytes, p: Profile, context: AuthorizationContext, env: Env)
    requires Executed(StateAfter(inputs), frame, context) && IsImport(frame, p)
    ensures var st := StateAfter(inputs);
      FrameStep(st, frame, context, env).1.code == "PROFILE_STORED"
      <==> Storable(p) && !env.vault.protectFails && Serves(st.files, Prefix(p), env.vault.attempts)
  {
    hide Sound, FrameStep, DecodeRequest, Executed, IsImport, StateAfter, CreateFile, Serves, Storable, Prefix, Payload,
         ValidProfile;
    RunSound(inputs);
    ImportAnswer(StateAfter(inputs), frame, p, context, env);
    ImportValid(frame, p);
    PayloadExactly(p);
    if Payload(p).Ok? {
      CreatedExactly(StateAfter(inputs).files, p, Sealed(Payload(p).value), env.vault.attempts);
    }
  }

  ////////// An import that is read but never stored //////////

  const LONG := Reimport.ONES + ['/'] + Repeat('0', 246)

  const LONG_PROFILE := Reimport.Narrow(LONG)

  lemma LongValid()
    ensures ValidNetwork(LONG) && Utf8.IsAscii(LONG) && |LONG| == 254 && |Utf8.Encode(LONG)| == 254 && '\0' !in LONG
  {
    hide Parse, ParseUnsigned, Repeat, IndexOf;
    var zeros := Repeat('0', 246);
    RepeatEnds('0', 246);
    IndexOfFirst(Reimport.ONES, '/', zeros);
    assert LONG[..7] == Reimport.ONES && LONG[8..] == zeros;
    OnesParse();
    LongPrefix();
    NetworkAscii(LONG);
    Utf8.EncodeAscii(LONG);
  }

  lemma LongPrefix()
    ensures ParseUnsigned(Repeat('0', 246), 256) == Some(0)
  {
    ZerosValue(246);
  }

  /** The profile's bytes as another program may write them: its network takes 254 of the 255 bytes allowed. */
  function LongBytes(): Bytes
    requires PutBounded(LONG, 255).Ok? && PutBounded(Reimport.ONES, 253).Ok?
  {
    var networks := [1] + PutBounded(LONG, 255).value;
    LONG_PROFILE.privateKey + (networks + ([0] + (LONG_PROFILE.peerPublicKey + (PutOptionalKey(None)
      + (PutBounded(Reimport.ONES, 253).value + (LE.Put(1, 2) + (networks + PutOptionalU16(None))))))))
  }

  lemma AsciiWrites(v: string, maximum: nat)
    requires Utf8.IsAscii(v) && '\0' !in v && 1 <= |v| <= maximum <= 255
    ensures PutBounded(v, maximum).Ok? && |PutBounded(v, maximum).value| == |v| + 1
  {
    Utf8.EncodeAscii(v);
  }

  lemma OnesAscii()
    ensures Utf8.IsAscii(Reimport.ONES) && '\0' !in Reimport.ONES && |Reimport.ONES| == 7
  {
    hide Utf8.Encode;
  }

  lemma LongWrites()
    ensures PutBounded(LONG, 255).Ok? && |PutBounded(LONG, 255).value| == 255
    ensures PutBounded(Reimport.ONES, 253).Ok? && |PutBounded(Reimport.ONES, 253).value| == 8
  {
    hide LONG, PutBounded, Reimport.ONES, Utf8.IsAscii, Utf8.Encode;
    LongValid();
    AsciiWrites(LONG, 255);
    OnesAscii();
    AsciiWrites(Reimport.ONES, 253);
  }

  lemma OneTaken(v: string, maximum: nat, rest: Bytes)
    requires PutBounded(v, 255).Ok? && maximum >= 1
    ensures TakeList([1] + PutBounded(v, 255).value + rest, maximum) == Ok(([v], rest))
  {
    hide PutBounded, TakeBounded;
    var item := PutBounded(v, 255).value;
    Assoc([1], item, rest);
    TakeBytePut(1, item + rest);
    TakePutBounded(v, 255, rest);
    assert TakeBoundedAll(rest, 0) == Ok(([], rest));
    assert [v] + [] == [v];
  }

  lemma NoneTaken(rest: Bytes)
    ensures TakeList([0] + rest, 8) == Ok(([], rest))
  {
    TakeBytePut(0, rest);
  }

  lemma LongTaken()
    ensures PutBounded(LONG, 255).Ok? && PutBounded(Reimport.ONES, 253).Ok?
    ensures TakeProfile(LongBytes()) == Ok((LONG_PROFILE, []))
  {
    hide LONG, PutBounded, TakeBounded, TakeList, TakeOptionalKey, TakeOptionalU16, TakeU16, PutOptionalKey,
         PutOptionalU16, LE.Put;
    LongWrites();
    var networks := [1] + PutBounded(LONG, 255).value;
    var e8 := PutOptionalU16(None);
    var e7 := networks + e8;
    var e6 := LE.Put(1, 2) + e7;
    var e5 := PutBounded(Reimport.ONES, 253).value + e6;
    var e4 := PutOptionalKey(None) + e5;
    var e3 := LONG_PROFILE.peerPublicKey + e4;
    var e2 := [0] + e3;
    TakeBytesPut(LONG_PROFILE.privateKey, networks + e2);
    OneTaken(LONG, 8, e2);
    NoneTaken(e3);
    TakeBytesPut(LONG_PROFILE.peerPublicKey, e4);
    TakePutOptionalKey(None, e5);
    TakePutBounded(Reimport.ONES, 253, e6);
    TakePutU16(1, e7);
    OneTaken(LONG, 32, e8);
    assert e8 + [] == e8;
    TakePutOptionalU16(None, []);
  }

  function LongFrame(): Bytes
    requires PutBounded(LONG, 255).Ok? && PutBounded(Reimport.ONES, 253).Ok?
    requires PutString("a").Ok?
  {
    var body := PutString("a").value + (PutString("a").value + LongBytes());
    if EncodeFrame(5, body).Ok? then EncodeFrame(5, body).value else []
  }

  lemma LongProfileValid()
    ensures ValidWireGuard(LONG_PROFILE) && !TextsFit(LONG_PROFILE)
  {
    hide LONG, Parse, ValidNetwork, Utf8.Encode;
    LongValid();
    OnesParse();
    assert LONG_PROFILE.privateKey[0] == 1 && LONG_PROFILE.peerPublicKey[0] == 1;
    assert LONG_PROFILE.addresses[0] == LONG;
  }

  lemma LongSize()
    ensures PutBounded(LONG, 255).Ok? && PutBounded(Reimport.ONES, 253).Ok? && |LongBytes()| <= 1000
  {
    hide LONG, PutBounded, LE.Put;
    LongWrites();
    assert |LE.Put(1, 2)| == 2;
  }

  /** The service reads the frame as an import of the profile. */
  lemma LongRead()
    ensures PutBounded(LONG, 255).Ok? && PutBounded(Reimport.ONES, 253).Ok? && PutString("a").Ok?
    ensures DecodeRequest(LongFrame())
      == Ok(RequestEnvelope(CONTRACT_VERSION, "a", ImportWireGuard("a", LONG_PROFILE)))
  {
    hide LONG, LONG_PROFILE, PutBounded, PutString, LongBytes, EncodeFrame, DecodeFrame, TakeProfile, TakeId,
         ValidIdentifier, ValidWireGuard, TakeAmneziaWg, TakeVless, TakeTwoIds;
    LongTaken();
    LongSize();
    LongProfileValid();
    Reimport.OnesSolid();
    ClientAgreement.ImportFrameBytes(5, "a", "a", LongBytes());
  }

  /** Whenever it is heard, and whatever the vault's calls do, it is not stored. */
  lemma LongImportRefused(inputs: seq<Input>, context: AuthorizationContext, env: Env)
    requires context.IsAllowed() && "a" !in StateAfter(inputs).recentIdSet
    ensures PutBounded(LONG, 255).Ok? && PutBounded(Reimport.ONES, 253).Ok? && PutString("a").Ok?
    ensures IsImport(LongFrame(), WireGuardKind(LONG_PROFILE))
    ensures FrameStep(StateAfter(inputs), LongFrame(), context, env).1.code != "PROFILE_STORED"
  {
    hide LONG, LONG_PROFILE, PutBounded, PutString, LongFrame, DecodeRequest, StateAfter, FrameStep, TextsFit, Serves,
         ValidWireGuard;
    LongRead();
    LongProfileValid();
    StoredExactly(inputs, LongFrame(), WireGuardKind(LONG_PROFILE), context, env);
  }
}
