/** The encrypted profile vault: a directory of sealed files named by random handles. */
module Vault {
  import opened Basics
  import opened Contracts
  import opened Machine
  import opened Text
  import opened Wire
  import opened WireCodec
  import WireRoundTrip

  ////////// Handles //////////

  function HexByte(b: Byte): string { [HexDigit(b / 16), HexDigit(b % 16)] }

  function HexBytes(bs: Bytes): string { if bs == [] then "" else HexByte(bs[0]) + HexBytes(bs[1..]) }

  predicate HasPrefix(s: string, prefix: string) { prefix <= s }

  predicate ValidHandle(s: string) {
    ((|s| == 35 && HasPrefix(s, "wg-")) || (|s| == 36 && HasPrefix(s, "awg-")) || (|s| == 37 && HasPrefix(s, "xray-")))
    && AllHex(s[|s| - 32..])
  }

  /** Windows file names do not tell upper from lower case. */
  function LowerChar(c: char): char { if 'A' <= c <= 'Z' then (c as int + 32) as char else c }

  function FileName(handle: string): string { seq(|handle|, i requires 0 <= i < |handle| => LowerChar(handle[i])) }

  ////////// Files //////////

  /** What a file holds: data only this machine can unseal, or the remains of an interrupted write. */
  datatype Blob = Sealed(plain: Bytes) | Torn

  type Files = map<string, Blob>

  type Random16 = bs: Bytes | |bs| == 16 witness seq(16, _ => 0)

  /**
    The outcomes of the system calls in one attempt to create a file. Writing can fail after every byte was
    written, as the last call only synchronises; what a failed discard leaves behind is then whole.
   */
  datatype Attempt = Attempt(random: Option<Random16>, openFails: bool, writeFails: bool, discardFails: bool,
    whole: bool)

  type Attempts = a: seq<Attempt> | |a| == 8 witness seq(8, _ => Attempt(None, false, false, false, false))

  datatype VaultEnv = VaultEnv(
    protectFails: bool, attempts: Attempts, readFails: bool, unprotectFails: bool, removeFails: bool)

  type Stored = (Files, Result<string, CommandError>)

  /** Tries handles until one names no file yet; an existing file is never opened for writing. */
  function CreateFile(files: Files, prefix: string, blob: Blob, attempts: seq<Attempt>): Stored {
    if attempts == [] then (files, Err(ProfileStoreUnavailable))
    else
      var a := attempts[0];
      if a.random.None? then (files, Err(ProfileStoreUnavailable))
      else
        var handle := prefix + HexBytes(a.random.value);
        if !ValidHandle(handle) then (files, Err(ProfileNotFound))
        else if a.openFails then (files, Err(ProfileStoreUnavailable))
        else if FileName(handle) in files then CreateFile(files, prefix, blob, attempts[1..])
        else if a.writeFails then
          (if a.discardFails then files[FileName(handle) := if a.whole then blob else Torn] else files,
           Err(ProfileStoreUnavailable))
        else (files[FileName(handle) := blob], Ok(handle))
  }

  /** The name under which a failed attempt left the whole file, if any did. */
  function Leftover(files: Files, prefix: string, attempts: seq<Attempt>): Option<string> {
    if attempts == [] || attempts[0].random.None? || attempts[0].openFails then None
    else
      var handle := prefix + HexBytes(attempts[0].random.value);
      if !ValidHandle(handle) then None
      else if FileName(handle) in files then Leftover(files, prefix, attempts[1..])
      else if attempts[0].writeFails && attempts[0].discardFails && attempts[0].whole then Some(FileName(handle))
      else None
  }

  datatype Profile =
    | WireGuardKind(wireguard: WireGuardProfile)
    | AmneziaWgKind(amneziawg: AmneziaWgProfile)
    | VlessKind(vless: VlessProfile)

  function Payload(p: Profile): Put {
    match p
    case WireGuardKind(w) => EncodeWireGuardProfile(w)
    case AmneziaWgKind(a) => EncodeAmneziaWgProfile(a)
    case VlessKind(v) => EncodeVlessProfile(v)
  }

  function Prefix(p: Profile): string {
    match p case WireGuardKind(_) => "wg-" case AmneziaWgKind(_) => "awg-" case VlessKind(_) => "xray-"
  }

  function Store(files: Files, p: Profile, env: VaultEnv): Stored {
    match Payload(p)
    case Err(_) => (files, Err(BadProfile))
    case Ok(plain) =>
      if env.protectFails then (files, Err(ProfileStoreUnavailable))
      else CreateFile(files, Prefix(p), Sealed(plain), env.attempts)
  }

  /** The name under which a store that failed left a whole profile behind. */
  function StoreLeftover(files: Files, p: Profile, env: VaultEnv): Option<string> {
    if Payload(p).Err? || env.protectFails then None else Leftover(files, Prefix(p), env.attempts)
  }

  function ReadFile(files: Files, handle: string, env: VaultEnv): Result<Bytes, CommandError> {
    if !ValidHandle(handle) then Err(ProfileNotFound)
    else if env.readFails then Err(ProfileStoreUnavailable)
    else if FileName(handle) !in files then Err(ProfileNotFound)
    else if files[FileName(handle)].Torn? || env.unprotectFails then Err(ProfileStoreUnavailable)
    else Ok(files[FileName(handle)].plain)
  }

  /** The WireGuard loader alone does not look at the handle's prefix. */
  function LoadedWireGuard(files: Files, handle: string, env: VaultEnv): Result<WireGuardProfile, CommandError> {
    var plain :- ReadFile(files, handle, env);
    match DecodeWireGuardProfile(plain) case Ok(p) => Ok(p) case Err(_) => Err(BadProfile)
  }

  function LoadedAmneziaWg(files: Files, handle: string, env: VaultEnv): Result<AmneziaWgProfile, CommandError> {
    if !HasPrefix(handle, "awg-") then Err(ProfileNotFound)
    else
      var plain :- ReadFile(files, handle, env);
      match DecodeAmneziaWgProfile(plain) case Ok(p) => Ok(p) case Err(_) => Err(BadProfile)
  }

  function LoadedVless(files: Files, handle: string, env: VaultEnv): Result<VlessProfile, CommandError> {
    if !HasPrefix(handle, "xray-") then Err(ProfileNotFound)
    else
      var plain :- ReadFile(files, handle, env);
      match DecodeVlessProfile(plain) case Ok(p) => Ok(p) case Err(_) => Err(BadProfile)
  }

  function Deleted(files: Files, handle: string, env: VaultEnv): (Files, Result<(), CommandError>) {
    if !ValidHandle(handle) then (files, Err(ProfileNotFound))
    else if env.removeFails then (files, Err(ProfileStoreUnavailable))
    else if FileName(handle) !in files then (files, Err(ProfileNotFound))
    else (files - {FileName(handle)}, Ok(()))
  }

  ////////// The vault as it runs //////////

  method RandomHandle(prefix: string, random: Random16) returns (handle: string)
    ensures handle == prefix + HexBytes(random)
  {
    handle := prefix;
    for i := 0 to 16
      invariant prefix + HexBytes(random) == handle + HexBytes(random[i..])
    {
      assert random[i..][1..] == random[i + 1..];
      handle := handle + HexByte(random[i]);
    }
  }

  class DpapiProfileVault {
    var files: Files

    constructor ()
      ensures files == map[]
    {
      files := map[];
    }

    /** The bounded loop all three store operations share. */
    method StoreEncrypted(prefix: string, blob: Blob, attempts: Attempts) returns (r: Result<string, CommandError>)
      modifies this
      ensures (files, r) == CreateFile(old(files), prefix, blob, attempts)
    {
      hide ValidHandle;
      assert attempts[0..] == attempts;
      for i := 0 to 8
        invariant files == old(files)
        invariant CreateFile(files, prefix, blob, attempts) == CreateFile(files, prefix, blob, attempts[i..])
      {
        var attempt := attempts[i];
        assert attempts[i..][1..] == attempts[i + 1..];
        if attempt.random.None? { return Err(ProfileStoreUnavailable); }
        var handle := RandomHandle(prefix, attempt.random.value);
        if !ValidHandle(handle) { return Err(ProfileNotFound); }
        if attempt.openFails { return Err(ProfileStoreUnavailable); }
        if FileName(handle) in files { continue; }
        if attempt.writeFails {
          if attempt.discardFails { files := files[FileName(handle) := if attempt.whole then blob else Torn]; }
          return Err(ProfileStoreUnavailable);
        }
        files := files[FileName(handle) := blob];
        return Ok(handle);
      }
      r := Err(ProfileStoreUnavailable);
    }

    method StoreWireGuard(p: WireGuardProfile, env: VaultEnv) returns (r: Result<string, CommandError>)
      modifies this
      ensures (files, r) == Store(old(files), WireGuardKind(p), env)
    {
      hide EncodeWireGuardProfile, CreateFile;
      var plaintext := EncodeWireGuardPayload(p);
      if plaintext.Err? { return Err(BadProfile); }
      if env.protectFails { return Err(ProfileStoreUnavailable); }
      r := StoreEncrypted("wg-", Sealed(plaintext.value), env.attempts);
    }

    method StoreAmneziaWg(p: AmneziaWgProfile, env: VaultEnv) returns (r: Result<string, CommandError>)
      modifies this
      ensures (files, r) == Store(old(files), AmneziaWgKind(p), env)
    {
      hide EncodeAmneziaWgProfile, CreateFile;
      var plaintext := EncodeAmneziaWgPayload(p);
      if plaintext.Err? { return Err(BadProfile); }
      if env.protectFails { return Err(ProfileStoreUnavailable); }
      r := StoreEncrypted("awg-", Sealed(plaintext.value), env.attempts);
    }

    method StoreVless(p: VlessProfile, env: VaultEnv) returns (r: Result<string, CommandError>)
      modifies this
      ensures (files, r) == Store(old(files), VlessKind(p), env)
    {
      hide EncodeVlessProfile, CreateFile;
      var plaintext := EncodeVlessPayload(p);
      if plaintext.Err? { return Err(BadProfile); }
      if env.protectFails { return Err(ProfileStoreUnavailable); }
      r := StoreEncrypted("xray-", Sealed(plaintext.value), env.attempts);
    }

    method Read(handle: string, env: VaultEnv) returns (r: Result<Bytes, CommandError>)
      ensures r == ReadFile(files, handle, env)
    {
      if !ValidHandle(handle) { return Err(ProfileNotFound); }
      if env.readFails { return Err(ProfileStoreUnavailable); }
      if FileName(handle) !in files { return Err(ProfileNotFound); }
      var encrypted := files[FileName(handle)];
      if encrypted.Torn? || env.unprotectFails { return Err(ProfileStoreUnavailable); }
      r := Ok(encrypted.plain);
    }

    method LoadWireGuard(handle: string, env: VaultEnv) returns (r: Result<WireGuardProfile, CommandError>)
      ensures r == LoadedWireGuard(files, handle, env)
    {
      hide ReadFile, DecodeWireGuardProfile;
      var plaintext :- Read(handle, env);
      var p := DecodeWireGuardPayload(plaintext);
      r := if p.Ok? then Ok(p.value) else Err(BadProfile);
    }

    method LoadAmneziaWg(handle: string, env: VaultEnv) returns (r: Result<AmneziaWgProfile, CommandError>)
      ensures r == LoadedAmneziaWg(files, handle, env)
    {
      hide ReadFile, DecodeAmneziaWgProfile;
      if !HasPrefix(handle, "awg-") { return Err(ProfileNotFound); }
      var plaintext :- Read(handle, env);
      var p := DecodeAmneziaWgPayload(plaintext);
      r := if p.Ok? then Ok(p.value) else Err(BadProfile);
    }

    method LoadVless(handle: string, env: VaultEnv) returns (r: Result<VlessProfile, CommandError>)
      ensures r == LoadedVless(files, handle, env)
    {
      hide ReadFile, DecodeVlessProfile;
      if !HasPrefix(handle, "xray-") { return Err(ProfileNotFound); }
      var plaintext :- Read(handle, env);
      var p := DecodeVlessPayload(plaintext);
      r := if p.Ok? then Ok(p.value) else Err(BadProfile);
    }

    method Delete(handle: string, env: VaultEnv) returns (r: Result<(), CommandError>)
      modifies this
      ensures (files, r) == Deleted(old(files), handle, env)
    {
      if !ValidHandle(handle) { return Err(ProfileNotFound); }
      if env.removeFails { return Err(ProfileStoreUnavailable); }
      if FileName(handle) !in files { return Err(ProfileNotFound); }
      files := files - {FileName(handle)};
      r := Ok(());
    }
  }

  ////////// The vault refines a typed map //////////

  lemma {:induction false} HexBytesShape(bs: Bytes)
    ensures |HexBytes(bs)| == 2 * |bs| && AllHex(HexBytes(bs)) && FileName(HexBytes(bs)) == HexBytes(bs)
  {
    if bs != [] {
      HexBytesShape(bs[1..]);
      var head, tail := HexByte(bs[0]), HexBytes(bs[1..]);
      forall i | 0 <= i < |HexBytes(bs)| ensures IsHexDigit(HexBytes(bs)[i])
        && LowerChar(HexBytes(bs)[i]) == HexBytes(bs)[i] {
        if i >= 2 { assert HexBytes(bs)[i] == tail[i - 2] && FileName(tail)[i - 2] == tail[i - 2]; }
      }
    }
  }

  /** Every generated handle is valid, and it is its own file name. */
  lemma GeneratedHandle(p: Profile, random: Random16)
    ensures var handle := Prefix(p) + HexBytes(random); ValidHandle(handle) && FileName(handle) == handle
  {
    HexBytesShape(random);
    var handle, hex := Prefix(p) + HexBytes(random), HexBytes(random);
    assert handle[|handle| - 32..] == hex;
    forall i | 0 <= i < |handle| ensures LowerChar(handle[i]) == handle[i] {
      if i >= |Prefix(p)| {
        assert handle[i] == hex[i - |Prefix(p)|] && FileName(hex)[i - |Prefix(p)|] == hex[i - |Prefix(p)|];
      }
    }
  }

  predicate IsHandle(prefix: string, digits: string) {
    (prefix == "wg-" || prefix == "awg-" || prefix == "xray-") && |digits| == 32 && AllHex(digits)
  }

  /** Exactly which texts are handles. */
  lemma HandleExactly(s: string)
    ensures ValidHandle(s) <==> exists prefix, digits :: IsHandle(prefix, digits) && s == prefix + digits
  {
    if ValidHandle(s) {
      var prefix, digits := s[..|s| - 32], s[|s| - 32..];
      assert s == prefix + digits && IsHandle(prefix, digits);
    }
    if prefix, digits :| IsHandle(prefix, digits) && s == prefix + digits {
      assert s[..|prefix|] == prefix && s[|s| - 32..] == digits;
    }
  }

  /** The digits of a generated handle say, two by two, the random bytes. */
  lemma {:induction false} DigitsSayBytes(bs: Bytes, i: nat)
    requires i < |bs|
    ensures |HexBytes(bs)| == 2 * |bs| && IsHexDigit(HexBytes(bs)[2 * i]) && IsHexDigit(HexBytes(bs)[2 * i + 1])
    ensures HexDigitValue(HexBytes(bs)[2 * i]) * 16 + HexDigitValue(HexBytes(bs)[2 * i + 1]) == bs[i]
  {
    HexBytesShape(bs);
    if i > 0 {
      DigitsSayBytes(bs[1..], i - 1);
      assert HexBytes(bs)[2 * i] == HexBytes(bs[1..])[2 * (i - 1)];
      assert HexBytes(bs)[2 * i + 1] == HexBytes(bs[1..])[2 * (i - 1) + 1];
    }
  }

  /** The same letter, or one the capital of the other. */
  predicate SameLetter(c: char, d: char) {
    c == d || ('A' <= c <= 'Z' && d as int == c as int + 32) || ('A' <= d <= 'Z' && c as int == d as int + 32)
  }

  /** Two handles name one file exactly if they differ at most in upper and lower case. */
  lemma SameFile(a: string, b: string)
    ensures FileName(a) == FileName(b) <==> |a| == |b| && forall i :: 0 <= i < |a| ==> SameLetter(a[i], b[i])
  {
    if FileName(a) == FileName(b) {
      assert |FileName(a)| == |a| && |FileName(b)| == |b|;
      forall i | 0 <= i < |a| ensures SameLetter(a[i], b[i]) { assert FileName(a)[i] == FileName(b)[i]; }
    }
  }

  /** The blob was put under a fresh, valid handle of the given prefix. */
  predicate Added(before: Files, after: Files, handle: string, blob: Blob, prefix: string) {
    ValidHandle(handle) && FileName(handle) == handle && HasPrefix(handle, prefix)
    && handle !in before && after == before[handle := blob]
  }

  ghost predicate LeftTorn(before: Files, after: Files) {
    exists name :: name !in before && after == before[name := Torn]
  }

  /** A whole file left behind by a failed attempt. */
  predicate LeftWhole(before: Files, after: Files, name: string, blob: Blob, prefix: string) {
    name !in before && HasPrefix(name, prefix) && after == before[name := blob]
  }

  /**
    Storing adds at most one file, under a name that was free; if it fails, the file is torn or, exactly if so
    reported, whole.
   */
  lemma {:induction false} CreateFileAdds(files: Files, p: Profile, blob: Blob, attempts: seq<Attempt>)
    ensures var s := CreateFile(files, Prefix(p), blob, attempts);
      var left := Leftover(files, Prefix(p), attempts);
      if s.1.Ok? then Added(files, s.0, s.1.value, blob, Prefix(p)) && left == None
      else if left.Some? then LeftWhole(files, s.0, left.value, blob, Prefix(p))
      else s.0 == files || LeftTorn(files, s.0)
  {
    hide ValidHandle, FileName, HexBytes;
    if attempts != [] && attempts[0].random.Some? {
      GeneratedHandle(p, attempts[0].random.value);
      CreateFileAdds(files, p, blob, attempts[1..]);
    }
  }

  datatype VaultOp = StoreOp(profile: Profile, env: VaultEnv) | DeleteOp(handle: string, env: VaultEnv)

  type Profiles = map<string, Profile>

  /**
    What the vault should hold, by the names of the handles: the profiles whose handles it gave out, and
    those that a failed store left behind whole, whose handles nobody was told.
   */
  datatype Model = Model(held: Profiles, leftovers: Profiles) {
    function All(): Profiles { held + leftovers }
  }

  const EMPTY := Model(map[], map[])

  function VaultStep(files: Files, op: VaultOp): Files {
    match op
    case StoreOp(p, env) => Store(files, p, env).0
    case DeleteOp(handle, env) => Deleted(files, handle, env).0
  }

  /** A stored profile is held under its handle, or left over; a deleted one is removed. Nothing else changes. */
  function ModelStep(files: Files, model: Model, op: VaultOp): Model {
    match op
    case StoreOp(p, env) =>
      (match Store(files, p, env).1
       case Ok(handle) => model.(held := model.held[handle := p])
       case Err(_) =>
         match StoreLeftover(files, p, env)
         case Some(name) => model.(leftovers := model.leftovers[name := p])
         case None => model)
    case DeleteOp(handle, env) =>
      if Deleted(files, handle, env).1.Ok? then
        Model(model.held - {FileName(handle)}, model.leftovers - {FileName(handle)})
      else model
  }

  function FilesAfter(history: seq<VaultOp>): Files {
    if history == [] then map[] else VaultStep(FilesAfter(history[..|history| - 1]), history[|history| - 1])
  }

  function ModelAfter(history: seq<VaultOp>): Model {
    if history == [] then EMPTY
    else
      var before := history[..|history| - 1];
      ModelStep(FilesAfter(before), ModelAfter(before), history[|history| - 1])
  }

  predicate Holds(blob: Blob, p: Profile) { blob.Sealed? && Payload(p) == Ok(blob.plain) }

  /** The files are the sealed payloads of the model, under handles of the right kind, and torn remains. */
  predicate Refines(files: Files, model: Model) {
    Mirrors(files, model.All()) && model.held.Keys !! model.leftovers.Keys
  }

  predicate Mirrors(files: Files, all: Profiles) {
    (forall name :: name in all ==>
        name in files && Holds(files[name], all[name]) && HasPrefix(name, Prefix(all[name])))
    && (forall name :: name in files && name !in all ==> files[name].Torn?)
  }

  lemma MirrorsMore(files: Files, all: Profiles, name: string, p: Profile, blob: Blob)
    requires Mirrors(files, all) && name !in files && Holds(blob, p) && HasPrefix(name, Prefix(p))
    ensures Mirrors(files[name := blob], all[name := p])
  {
    hide Holds, HasPrefix;
  }

  lemma MirrorsTorn(files: Files, all: Profiles, name: string)
    requires Mirrors(files, all) && name !in files
    ensures Mirrors(files[name := Torn], all)
  {
    hide Holds, HasPrefix;
  }

  lemma AllWith(model: Model, name: string, p: Profile)
    requires name !in model.All()
    ensures model.(held := model.held[name := p]).All() == model.All()[name := p]
    ensures model.(leftovers := model.leftovers[name := p]).All() == model.All()[name := p]
  {
  }

  lemma StoreRefines(files: Files, model: Model, p: Profile, env: VaultEnv)
    requires Refines(files, model)
    ensures Refines(Store(files, p, env).0, ModelStep(files, model, StoreOp(p, env)))
  {
    hide CreateFile, Leftover, Payload, ValidHandle, Mirrors, Holds, HasPrefix;
    if Payload(p).Ok? && !env.protectFails {
      var blob := Sealed(Payload(p).value);
      CreateFileAdds(files, p, blob, env.attempts);
      assert Holds(blob, p) by { SealedHolds(p); }
      var (after, r) := CreateFile(files, Prefix(p), blob, env.attempts);
      var left := Leftover(files, Prefix(p), env.attempts);
      if r.Ok? || left.Some? {
        var name := if r.Ok? then r.value else left.value;
        assert name !in model.All() by { MirroredNames(files, model.All()); }
        AllWith(model, name, p);
        MirrorsMore(files, model.All(), name, p, blob);
      } else if after != files {
        var name :| name !in files && after == files[name := Torn];
        MirrorsTorn(files, model.All(), name);
      }
    }
  }

  lemma SealedHolds(p: Profile)
    requires Payload(p).Ok?
    ensures Holds(Sealed(Payload(p).value), p)
  {
  }

  lemma MirroredNames(files: Files, all: Profiles)
    requires Mirrors(files, all)
    ensures forall name :: name in all ==> name in files
  {
    hide Holds, HasPrefix;
  }

  lemma {:induction false} HistoryRefines(history: seq<VaultOp>)
    ensures Refines(FilesAfter(history), ModelAfter(history))
  {
    hide Refines, Store;
    if history == [] {
      EmptyRefines();
    } else {
      var before, op := history[..|history| - 1], history[|history| - 1];
      HistoryRefines(before);
      if op.StoreOp? {
        StoreRefines(FilesAfter(before), ModelAfter(before), op.profile, op.env);
      } else {
        DeleteRefines(FilesAfter(before), ModelAfter(before), op.handle, op.env);
      }
    }
  }

  lemma EmptyRefines()
    ensures Refines(map[], EMPTY)
  {
  }

  lemma DeleteRefines(files: Files, model: Model, handle: string, env: VaultEnv)
    requires Refines(files, model)
    ensures Refines(Deleted(files, handle, env).0, ModelStep(files, model, DeleteOp(handle, env)))
  {
    hide ValidHandle, FileName, Mirrors;
    if Deleted(files, handle, env).1.Ok? {
      MirrorsLess(files, model.All(), FileName(handle));
      AllWithout(model, FileName(handle));
    }
  }

  lemma MirrorsLess(files: Files, all: Profiles, name: string)
    requires Mirrors(files, all)
    ensures Mirrors(files - {name}, all - {name})
  {
    hide Holds, HasPrefix;
  }

  lemma AllWithout(model: Model, name: string)
    ensures Model(model.held - {name}, model.leftovers - {name}).All() == model.All() - {name}
  {
  }

  /** Payloads of different kinds are told apart by their tags. */
  lemma TagsDiffer(p: Profile, plain: Bytes)
    requires Payload(p) == Ok(plain)
    ensures !p.WireGuardKind? ==> DecodeWireGuardProfile(plain).Err?
    ensures !p.AmneziaWgKind? ==> DecodeAmneziaWgProfile(plain).Err?
    ensures !p.VlessKind? ==> DecodeVlessProfile(plain).Err?
  {
    hide TakeProfile, TakeAmneziaWg, TakeVless, PutProfileWith, PutAmneziaWgWith, PutVless, ValidWireGuard,
         ValidAmneziaWg, ValidVless;
    var tag :=
      match p
      case WireGuardKind(_) => WIREGUARD_TAG
      case AmneziaWgKind(_) => AMNEZIAWG_TAG
      case VlessKind(_) => VLESS_TAG;
    assert plain[..4] == tag;
    assert WIREGUARD_TAG[1] != AMNEZIAWG_TAG[1] && WIREGUARD_TAG[1] != VLESS_TAG[1] && AMNEZIAWG_TAG[1] != VLESS_TAG[1];
    assert plain[1] == tag[1];
  }

  lemma PayloadDecodes(p: Profile, plain: Bytes)
    requires Payload(p) == Ok(plain)
    ensures match p
      case WireGuardKind(w) => DecodeWireGuardProfile(plain) == Ok(w)
      case AmneziaWgKind(a) => DecodeAmneziaWgProfile(plain) == Ok(a)
      case VlessKind(v) => DecodeVlessProfile(plain) == Ok(v)
  {
    hide EncodeWireGuardProfile, EncodeAmneziaWgProfile, EncodeVlessProfile, DecodeWireGuardProfile,
         DecodeAmneziaWgProfile, DecodeVlessProfile;
    match p
    case WireGuardKind(w) => WireRoundTrip.WireGuardPayloadRoundTrip(w);
    case AmneziaWgKind(a) => WireRoundTrip.AmneziaWgPayloadRoundTrip(a);
    case VlessKind(v) => WireRoundTrip.VlessPayloadRoundTrip(v);
  }

  /** The profile that a handle stands for. */
  function Lookup(profiles: Profiles, handle: string): Option<Profile> {
    if ValidHandle(handle) && FileName(handle) in profiles then Some(profiles[FileName(handle)]) else None
  }

  predicate Readable(env: VaultEnv) { !env.readFails && !env.unprotectFails }

  lemma LowerPrefix(handle: string, prefix: string)
    requires ValidHandle(handle) && (prefix == "wg-" || prefix == "awg-" || prefix == "xray-")
    ensures HasPrefix(handle, prefix) <==> HasPrefix(FileName(handle), prefix)
  {
    var name := FileName(handle);
    assert handle[..3] == "wg-" || handle[..4] == "awg-" || handle[..5] == "xray-";
    assert forall i :: 0 <= i < 5 ==> name[i] == LowerChar(handle[i]);
    assert handle[0] == 'w' || handle[0] == 'a' || handle[0] == 'x';
    assert HasPrefix(handle, prefix) <==> handle[0] == prefix[0];
    assert HasPrefix(name, prefix) ==> name[0] == prefix[0];
    if HasPrefix(handle, prefix) {
      forall i | 0 <= i < |prefix| ensures name[i] == prefix[i] { assert handle[i] == prefix[i]; }
    }
  }

  /**
    After any history, loading gives back exactly what was stored, or left over whole, and not deleted, of the
    right kind.
   */
  lemma LoadExactly(history: seq<VaultOp>, handle: string, env: VaultEnv)
    requires Readable(env)
    ensures var files, found := FilesAfter(history), Lookup(ModelAfter(history).All(), handle);
      (forall w :: LoadedWireGuard(files, handle, env) == Ok(w) <==> found == Some(WireGuardKind(w)))
      && (forall a :: LoadedAmneziaWg(files, handle, env) == Ok(a) <==> found == Some(AmneziaWgKind(a)))
      && (forall v :: LoadedVless(files, handle, env) == Ok(v) <==> found == Some(VlessKind(v)))
  {
    hide DecodeWireGuardProfile, DecodeAmneziaWgProfile, DecodeVlessProfile, Payload, ValidHandle, FilesAfter,
         ModelAfter,
         FileName, HasPrefix, Model.All;
    var files, all := FilesAfter(history), ModelAfter(history).All();
    HistoryRefines(history);
    if ValidHandle(handle) {
      var name := FileName(handle);
      LowerPrefix(handle, "awg-");
      LowerPrefix(handle, "xray-");
      if name in all {
        assert Holds(files[name], all[name]);
        TagsDiffer(all[name], files[name].plain);
        PayloadDecodes(all[name], files[name].plain);
      }
    }
  }

  /**
    A store that succeeds is read back and changes nothing else. One that fails gives out no handle, and
    leaves everything that can be loaded as it was exactly if it left no whole file behind.
   */
  lemma StoreThenLoad(history: seq<VaultOp>, p: Profile, storeEnv: VaultEnv)
    ensures var before, after := ModelAfter(history), ModelAfter(history + [StoreOp(p, storeEnv)]);
      var r := Store(FilesAfter(history), p, storeEnv).1;
      var left := StoreLeftover(FilesAfter(history), p, storeEnv);
      if r.Ok? then
        r.value !in before.All() && Lookup(after.All(), r.value) == Some(p)
          && after == before.(held := before.held[r.value := p])
      else after.held == before.held && (after.All() == before.All() <==> left == None)
    ensures var before, after := ModelAfter(history), ModelAfter(history + [StoreOp(p, storeEnv)]);
      var left := StoreLeftover(FilesAfter(history), p, storeEnv);
      left.Some? ==> left.value !in before.All() && after == before.(leftovers := before.leftovers[left.value := p])
  {
    hide Store, StoreLeftover, FilesAfter, Refines, Lookup, ModelStep;
    HistoryThen(history, StoreOp(p, storeEnv));
    HistoryRefines(history);
    StoredOrLeft(FilesAfter(history), ModelAfter(history), p, storeEnv);
    ModelStored(FilesAfter(history), ModelAfter(history), p, storeEnv);
  }

  /** A store gives out a free and valid name, or leaves a whole file under a free name, or neither. */
  lemma StoredOrLeft(files: Files, model: Model, p: Profile, env: VaultEnv)
    requires Refines(files, model)
    ensures var (r, left) := (Store(files, p, env).1, StoreLeftover(files, p, env));
      (r.Ok? ==> left == None && r.value !in model.All() && ValidHandle(r.value) && FileName(r.value) == r.value)
      && (left.Some? ==> r.Err? && left.value !in model.All())
  {
    hide CreateFile, Leftover, Payload, ValidHandle, FileName, Mirrors, Model.All;
    MirroredNames(files, model.All());
    if Payload(p).Ok? && !env.protectFails { CreateFileAdds(files, p, Sealed(Payload(p).value), env.attempts); }
  }

  lemma ModelStored(files: Files, model: Model, p: Profile, env: VaultEnv)
    requires Refines(files, model)
    ensures var after := ModelStep(files, model, StoreOp(p, env));
      var (r, left) := (Store(files, p, env).1, StoreLeftover(files, p, env));
      if r.Ok? then after == model.(held := model.held[r.value := p]) && Lookup(after.All(), r.value) == Some(p)
      else if left.Some? then
        after == model.(leftovers := model.leftovers[left.value := p]) && after.All() == model.All()[left.value := p]
        && after.All() != model.All()
      else after == model
  {
    hide Store, StoreLeftover, ValidHandle, FileName, Model.All, Refines;
    StoredOrLeft(files, model, p, env);
    var r, left := Store(files, p, env).1, StoreLeftover(files, p, env);
    if r.Ok? {
      AllWith(model, r.value, p);
    } else if left.Some? {
      AllWith(model, left.value, p);
      assert left.value in model.All()[left.value := p];
    }
  }

  lemma HistoryThen(history: seq<VaultOp>, op: VaultOp)
    ensures FilesAfter(history + [op]) == VaultStep(FilesAfter(history), op)
    ensures ModelAfter(history + [op]) == ModelStep(FilesAfter(history), ModelAfter(history), op)
  {
    hide VaultStep, ModelStep;
    assert (history + [op])[..|history|] == history;
  }

  /**
    Concretely: one synchronisation and one discard that fail, and an import answered with an error is there
    to be loaded.
   */
  lemma FailedStoreCanLoad(p: Profile, random: Random16, others: seq<Attempt>, env: VaultEnv)
    requires Payload(p).Ok? && |others| == 7 && Readable(env) && !env.protectFails
    requires env.attempts == [Attempt(Some(random), false, true, true, true)] + others
    ensures Store(map[], p, env).1 == Err(ProfileStoreUnavailable)
    ensures Lookup(ModelAfter([StoreOp(p, env)]).All(), Prefix(p) + HexBytes(random)) == Some(p)
  {
    hide Payload, ValidHandle, FileName, HexBytes;
    GeneratedHandle(p, random);
    var files: Files, history: seq<VaultOp> := map[], [];
    assert history + [StoreOp(p, env)] == [StoreOp(p, env)];
    StoreThenLoad(history, p, env);
    assert StoreLeftover(files, p, env) == Some(Prefix(p) + HexBytes(random));
    AllWith(EMPTY, Prefix(p) + HexBytes(random), p);
  }
}
