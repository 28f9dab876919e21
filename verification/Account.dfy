/**
  Activation and sign-out of the account: a transaction over the secure storage and the service's profiles,
  any call of which may fail, with or without having taken effect.
 */
module Account {
  import opened Basics
  import opened Contracts

  datatype Key =
    | ActivationKeyText | Session | WireGuardText | AmneziaWgText | VlessText
    | WireGuardHandle | AmneziaWgHandle | VlessHandle

  /** The order in which all account data is deleted. */
  const ALL_KEYS: seq<Key> :=
    [ActivationKeyText, Session, WireGuardText, AmneziaWgText, VlessText, WireGuardHandle, AmneziaWgHandle, VlessHandle]

  function TextKey(p: Protocol): Key {
    match p case WireGuard => WireGuardText case AmneziaWg => AmneziaWgText case VlessReality => VlessText
  }

  function HandleKey(p: Protocol): Key {
    match p case WireGuard => WireGuardHandle case AmneziaWg => AmneziaWgHandle case VlessReality => VlessHandle
  }

  /** How one call goes; the handle is what the service would draw for a new profile. */
  datatype Fault = Fault(throws: bool, effect: bool, handle: string)

  type Faults = seq<Fault>

  /** The secure storage, the profiles the service holds, and how many calls were made so far. */
  datatype World = World(storage: map<Key, string>, profiles: set<string>, clock: nat) {
    function Now(faults: Faults): Fault { if clock < |faults| then faults[clock] else Fault(false, false, "") }

    function Write(key: Key, value: string, faults: Faults): (World, bool) {
      var f := Now(faults);
      (World(if f.throws && !f.effect then storage else storage[key := value], profiles, clock + 1), !f.throws)
    }

    function Delete(key: Key, faults: Faults): (World, bool) {
      var f := Now(faults);
      (World(if f.throws && !f.effect then storage else storage - {key}, profiles, clock + 1), !f.throws)
    }

    function Read(key: Key, faults: Faults): (World, Result<Option<string>, ()>) {
      (World(storage, profiles, clock + 1),
       if Now(faults).throws then Err(()) else Ok(if key in storage then Some(storage[key]) else None))
    }

    /** The service never reuses the handle of a profile it holds; a failed call may leave a profile behind. */
    function Provision(faults: Faults): (World, Option<string>) {
      var f := Now(faults);
      if f.handle in profiles || (f.throws && !f.effect) then (World(storage, profiles, clock + 1), None)
      else (World(storage, profiles + {f.handle}, clock + 1), if f.throws then None else Some(f.handle))
    }

    /** A profile that is not there counts as deleted. */
    function DeleteProfile(handle: string, faults: Faults): (World, bool) {
      var f := Now(faults);
      (World(storage, if f.throws && !f.effect then profiles else profiles - {handle}, clock + 1), !f.throws)
    }

    function Clear(keys: seq<Key>, faults: Faults): (World, bool)
      decreases keys
    {
      if keys == [] then (this, true)
      else
        var (w, ok) := Delete(keys[0], faults);
        if ok then w.Clear(keys[1..], faults) else (w, false)
    }
  }

  datatype Credentials = Credentials(wireguard: Option<string>, amneziawg: Option<string>, vless: Option<string>) {
    function Of(p: Protocol): Option<string> {
      match p case WireGuard => wireguard case AmneziaWg => amneziawg case VlessReality => vless
    }
  }

  datatype Activation = Activation(key: string, session: string, credentials: Credentials)

  ////////// Activation as a list of calls //////////

  datatype Action =
    | WriteKey(key: Key, value: string) | DeleteKey(key: Key) | ProvisionFor(p: Protocol) | SaveHandle(p: Protocol)

  /** The world, and the handles drawn so far. */
  datatype Progress = Progress(world: World, handles: map<Protocol, string>)

  function Perform(s: Progress, action: Action, faults: Faults): (Progress, bool) {
    match action
    case WriteKey(key, value) =>
      var (w, ok) := s.world.Write(key, value, faults);
      (s.(world := w), ok)
    case DeleteKey(key) =>
      var (w, ok) := s.world.Delete(key, faults);
      (s.(world := w), ok)
    case ProvisionFor(p) =>
      var (w, handle) := s.world.Provision(faults);
      (Progress(w, if handle.Some? then s.handles[p := handle.value] else s.handles), handle.Some?)
    case SaveHandle(p) =>
      if p !in s.handles then (s, false)
      else
        var (w, ok) := s.world.Write(HandleKey(p), s.handles[p], faults);
        (s.(world := w), ok)
  }

  function PerformAll(s: Progress, plan: seq<Action>, faults: Faults): (Progress, bool)
    decreases plan
  {
    if plan == [] then (s, true)
    else
      var (after, ok) := Perform(s, plan[0], faults);
      if ok then PerformAll(after, plan[1..], faults) else (after, false)
  }

  /** An empty credential is deleted like a missing one. */
  function TextAction(key: Key, value: Option<string>): Action {
    if value.None? || value.value == "" then DeleteKey(key) else WriteKey(key, value.value)
  }

  function WireGuardPlan(text: Option<string>, provisioner: bool): seq<Action> {
    if provisioner && text.Some? then [ProvisionFor(WireGuard), SaveHandle(WireGuard), DeleteKey(WireGuardText)]
    else [TextAction(WireGuardText, text), DeleteKey(WireGuardHandle)]
  }

  function ProtocolPlan(p: Protocol, text: Option<string>, provisioner: bool): seq<Action> {
    [TextAction(TextKey(p), if provisioner then None else text)]
    + if provisioner && text.Some? then [ProvisionFor(p), SaveHandle(p)] else [DeleteKey(HandleKey(p))]
  }

  function Plan(a: Activation, provisioner: bool): seq<Action> {
    [WriteKey(ActivationKeyText, a.key)]
    + WireGuardPlan(a.credentials.wireguard, provisioner)
    + ProtocolPlan(AmneziaWg, a.credentials.amneziawg, provisioner)
    + ProtocolPlan(VlessReality, a.credentials.vless, provisioner)
    + [WriteKey(Session, a.session)]
  }

  ////////// Rollback and sign-out //////////

  /** A failed deletion during rollback is ignored. */
  function Undo(w: World, handles: map<Protocol, string>, p: Protocol, faults: Faults): World {
    if p in handles then w.DeleteProfile(handles[p], faults).0 else w
  }

  function UndoAll(s: Progress, faults: Faults): World {
    var w1 := Undo(s.world, s.handles, WireGuard, faults);
    var w2 := Undo(w1, s.handles, AmneziaWg, faults);
    Undo(w2, s.handles, VlessReality, faults)
  }

  /** Activation, with the rollback of a failed attempt; false means that it threw. */
  function Activated(w: World, a: Activation, provisioner: bool, faults: Faults): (World, bool) {
    var (s, ok) := PerformAll(Progress(w, map[]), Plan(a, provisioner), faults);
    if ok then (s.world, true) else (UndoAll(s, faults).Clear(ALL_KEYS, faults).0, false)
  }

  function Forget(w: World, p: Protocol, provisioner: bool, faults: Faults): (World, bool) {
    var (w1, handle) := w.Read(HandleKey(p), faults);
    if handle.Err? then (w1, false)
    else if handle.value.Some? && provisioner then w1.DeleteProfile(handle.value.value, faults)
    else (w1, true)
  }

  function SignedOut(w: World, provisioner: bool, faults: Faults): (World, bool) {
    var (w1, ok1) := Forget(w, WireGuard, provisioner, faults);
    if !ok1 then (w1, false)
    else
      var (w2, ok2) := Forget(w1, AmneziaWg, provisioner, faults);
      if !ok2 then (w2, false)
      else
        var (w3, ok3) := Forget(w2, VlessReality, provisioner, faults);
        if !ok3 then (w3, false) else w3.Clear(ALL_KEYS, faults)
  }

  /** Reading the session back; one that cannot be decoded makes the client forget the account. */
  function Restored(w: World, decodes: bool, faults: Faults): (World, bool) {
    var (w1, session) := w.Read(Session, faults);
    if session.Err? then (w1, false)
    else if session.value.None? || decodes then (w1, true)
    else w1.Clear(ALL_KEYS, faults)
  }

  ////////// The repository as it runs //////////

  class SecureAccountRepository {
    var world: World
    const provisioner: bool

    constructor (world: World, provisioner: bool)
      ensures this.world == world && this.provisioner == provisioner
    {
      this.world, this.provisioner := world, provisioner;
    }

    method Write(key: Key, value: string, faults: Faults) returns (ok: bool)
      modifies this
      ensures (world, ok) == old(world).Write(key, value, faults)
    {
      var f := world.Now(faults);
      if !f.throws || f.effect { world := world.(storage := world.storage[key := value]); }
      world := world.(clock := world.clock + 1);
      ok := !f.throws;
    }

    method Delete(key: Key, faults: Faults) returns (ok: bool)
      modifies this
      ensures (world, ok) == old(world).Delete(key, faults)
    {
      var f := world.Now(faults);
      if !f.throws || f.effect { world := world.(storage := world.storage - {key}); }
      world := world.(clock := world.clock + 1);
      ok := !f.throws;
    }

    method WriteCredential(key: Key, value: Option<string>, faults: Faults) returns (ok: bool)
      modifies this
      ensures forall handles ::
        (Progress(world, handles), ok) == Perform(Progress(old(world), handles), TextAction(key, value), faults)
    {
      if value.None? || value.value == "" { ok := Delete(key, faults); } else { ok := Write(key, value.value, faults); }
    }

    method Provision(faults: Faults) returns (handle: Option<string>)
      modifies this
      ensures (world, handle) == old(world).Provision(faults)
    {
      var (w, h) := world.Provision(faults);
      world, handle := w, h;
    }

    method DeleteProfile(handle: string, faults: Faults) returns (ok: bool)
      modifies this
      ensures (world, ok) == old(world).DeleteProfile(handle, faults)
    {
      var (w, done) := world.DeleteProfile(handle, faults);
      world, ok := w, done;
    }

    method ClearAccountData(faults: Faults) returns (ok: bool)
      modifies this
      ensures (world, ok) == old(world).Clear(ALL_KEYS, faults)
    {
      var keys := ALL_KEYS;
      for i := 0 to |keys|
        invariant old(world).Clear(keys, faults) == world.Clear(keys[i..], faults)
      {
        ok := Delete(keys[i], faults);
        assert keys[i..][1..] == keys[i + 1..];
        if !ok { return; }
      }
      ok := true;
    }

    method Provisioned(p: Protocol, handles: map<Protocol, string>, faults: Faults)
      returns (ok: bool, after: map<Protocol, string>)
      modifies this
      ensures (Progress(world, after), ok)
        == PerformAll(Progress(old(world), handles), [ProvisionFor(p), SaveHandle(p)], faults)
    {
      hide PerformAll;
      PerformTwo(Progress(world, handles), ProvisionFor(p), SaveHandle(p), faults);
      var handle := Provision(faults);
      if handle.None? { return false, handles; }
      after := handles[p := handle.value];
      ok := Write(HandleKey(p), handle.value, faults);
    }

    method ActivateWireGuard(text: Option<string>, handles: map<Protocol, string>, faults: Faults)
      returns (ok: bool, after: map<Protocol, string>)
      modifies this
      ensures (Progress(world, after), ok)
        == PerformAll(Progress(old(world), handles), WireGuardPlan(text, provisioner), faults)
    {
      hide TextAction, PerformAll;
      ghost var start := Progress(world, handles);
      if provisioner && text.Some? {
        assert WireGuardPlan(text, provisioner)
          == [ProvisionFor(WireGuard), SaveHandle(WireGuard)] + [DeleteKey(WireGuardText)];
        PerformConcat(start, [ProvisionFor(WireGuard), SaveHandle(WireGuard)], [DeleteKey(WireGuardText)], faults);
        ok, after := Provisioned(WireGuard, handles, faults);
        if !ok { return; }
        PerformOne(Progress(world, after), DeleteKey(WireGuardText), faults);
        ok := Delete(WireGuardText, faults);
      } else {
        PerformTwo(start, TextAction(WireGuardText, text), DeleteKey(WireGuardHandle), faults);
        after := handles;
        ok := WriteCredential(WireGuardText, text, faults);
        if !ok { return; }
        ok := Delete(WireGuardHandle, faults);
      }
    }

    method ActivateProtocol(p: Protocol, text: Option<string>, handles: map<Protocol, string>, faults: Faults)
      returns (ok: bool, after: map<Protocol, string>)
      modifies this
      ensures (Progress(world, after), ok)
        == PerformAll(Progress(old(world), handles), ProtocolPlan(p, text, provisioner), faults)
    {
      hide TextAction, PerformAll;
      ghost var action, last := TextAction(TextKey(p), if provisioner then None else text),
        if provisioner && text.Some? then [ProvisionFor(p), SaveHandle(p)] else [DeleteKey(HandleKey(p))];
      PerformConcat(Progress(world, handles), [action], last, faults);
      PerformOne(Progress(world, handles), action, faults);
      after := handles;
      ok := WriteCredential(TextKey(p), if provisioner then None else text, faults);
      if !ok { return; }
      if provisioner && text.Some? {
        ok, after := Provisioned(p, handles, faults);
      } else {
        PerformOne(Progress(world, handles), DeleteKey(HandleKey(p)), faults);
        ok := Delete(HandleKey(p), faults);
      }
    }

    method Attempt(a: Activation, faults: Faults) returns (ok: bool, handles: map<Protocol, string>)
      modifies this
      ensures (Progress(world, handles), ok) == PerformAll(Progress(old(world), map[]), Plan(a, provisioner), faults)
    {
      hide PerformAll, WireGuardPlan, ProtocolPlan;
      ghost var start := Progress(world, map[]);
      PlanInParts(start, a, provisioner, faults);
      handles := map[];
      ok := Write(ActivationKeyText, a.key, faults);
      if !ok { return; }
      ok, handles := ActivateWireGuard(a.credentials.wireguard, handles, faults);
      if !ok { return; }
      ok, handles := ActivateProtocol(AmneziaWg, a.credentials.amneziawg, handles, faults);
      if !ok { return; }
      ok, handles := ActivateProtocol(VlessReality, a.credentials.vless, handles, faults);
      if !ok { return; }
      ok := Write(Session, a.session, faults);
    }

    method Activate(a: Activation, faults: Faults) returns (ok: bool)
      modifies this
      ensures (world, ok) == Activated(old(world), a, provisioner, faults)
    {
      var handles;
      ok, handles := Attempt(a, faults);
      if !ok {
        if WireGuard in handles { var _ := DeleteProfile(handles[WireGuard], faults); }
        if AmneziaWg in handles { var _ := DeleteProfile(handles[AmneziaWg], faults); }
        if VlessReality in handles { var _ := DeleteProfile(handles[VlessReality], faults); }
        var _ := ClearAccountData(faults);
      }
    }

    method ForgetProfile(p: Protocol, faults: Faults) returns (ok: bool)
      modifies this
      ensures (world, ok) == Forget(old(world), p, provisioner, faults)
    {
      var (w, handle) := world.Read(HandleKey(p), faults);
      world := w;
      if handle.Err? { return false; }
      if handle.value.Some? && provisioner { ok := DeleteProfile(handle.value.value, faults); } else { ok := true; }
    }

    method SignOut(faults: Faults) returns (ok: bool)
      modifies this
      ensures (world, ok) == SignedOut(old(world), provisioner, faults)
    {
      hide Forget;
      ok := ForgetProfile(WireGuard, faults);
      if !ok { return; }
      ok := ForgetProfile(AmneziaWg, faults);
      if !ok { return; }
      ok := ForgetProfile(VlessReality, faults);
      if !ok { return; }
      ok := ClearAccountData(faults);
    }

    method RestoreSession(decodes: bool, faults: Faults) returns (ok: bool)
      modifies this
      ensures (world, ok) == Restored(old(world), decodes, faults)
    {
      var (w, session) := world.Read(Session, faults);
      world := w;
      if session.Err? { return false; }
      if session.value.Some? && !decodes { ok := ClearAccountData(faults); } else { ok := true; }
    }
  }

  lemma PerformOne(s: Progress, a: Action, faults: Faults)
    ensures PerformAll(s, [a], faults) == Perform(s, a, faults)
  {
    hide Perform;
  }

  lemma PerformTwo(s: Progress, a: Action, b: Action, faults: Faults)
    ensures PerformAll(s, [a, b], faults) ==
      var (after, ok) := Perform(s, a, faults); if ok then Perform(after, b, faults) else (after, false)
  {
    hide Perform;
    assert [a, b] == [a] + [b];
    PerformConcat(s, [a], [b], faults);
    PerformOne(s, a, faults);
    PerformOne(Perform(s, a, faults).0, b, faults);
  }

  lemma {:induction false} PerformConcat(s: Progress, a: seq<Action>, b: seq<Action>, faults: Faults)
    ensures PerformAll(s, a + b, faults) ==
      var (after, ok) := PerformAll(s, a, faults); if ok then PerformAll(after, b, faults) else (after, false)
    decreases a
  {
    hide Perform;
    if a == [] {
      assert a + b == b;
    } else {
      assert (a + b)[1..] == a[1..] + b;
      PerformConcat(Perform(s, a[0], faults).0, a[1..], b, faults);
    }
  }

  function Then(r: (Progress, bool), plan: seq<Action>, faults: Faults): (Progress, bool) {
    if r.1 then PerformAll(r.0, plan, faults) else r
  }

  lemma PlanInParts(s: Progress, a: Activation, provisioner: bool, faults: Faults)
    ensures PerformAll(s, Plan(a, provisioner), faults) ==
      var r1 := Perform(s, WriteKey(ActivationKeyText, a.key), faults);
      var r2 := Then(r1, WireGuardPlan(a.credentials.wireguard, provisioner), faults);
      var r3 := Then(r2, ProtocolPlan(AmneziaWg, a.credentials.amneziawg, provisioner), faults);
      var r4 := Then(r3, ProtocolPlan(VlessReality, a.credentials.vless, provisioner), faults);
      if r4.1 then Perform(r4.0, WriteKey(Session, a.session), faults) else r4
  {
    hide Perform, WireGuardPlan, ProtocolPlan;
    var p1, p2 := [WriteKey(ActivationKeyText, a.key)], WireGuardPlan(a.credentials.wireguard, provisioner);
    var p3, p4 := ProtocolPlan(AmneziaWg, a.credentials.amneziawg, provisioner),
      ProtocolPlan(VlessReality, a.credentials.vless, provisioner);
    var p5 := [WriteKey(Session, a.session)];
    PerformConcat(s, p1 + p2 + p3 + p4, p5, faults);
    PerformConcat(s, p1 + p2 + p3, p4, faults);
    PerformConcat(s, p1 + p2, p3, faults);
    PerformConcat(s, p1, p2, faults);
  }
}
