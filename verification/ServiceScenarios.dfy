/** Runs, given input by input, in which the service ends up where one would not expect it. */
module ServiceScenarios {
  import opened Basics
  import opened Contracts
  import opened Machine
  import opened Vault
  import opened Backend
  import opened Service
  import opened ServiceSteps
  import opened ServiceRuns
  import opened ServiceTunnels
  import ServiceStorage
  import Wire
  import WireRoundTrip
  import WireBounds

  const TRUSTED := AuthorizationContext(true, true, 1, 1)

  const WORKING: ProcessEnv := EngineEnv(Stopped, Stopped, None, Started, Stopped, Sees, Err(Internal))

  const RANDOM: Random16 := [0, 0, 0, 0, 0, 0, 0, 0, 0, 0, 0, 0, 0, 0, 0, 0]

  const DRAW := Attempt(Some(RANDOM), false, false, false, false)

  const ATTEMPTS: Attempts := [DRAW, DRAW, DRAW, DRAW, DRAW, DRAW, DRAW, DRAW]

  /** A vault without faults. */
  const VAULT := VaultEnv(false, ATTEMPTS, false, false, false)

  /** Nothing fails, but for what the WireGuard engine is given to answer. */
  function Calm(wireguard: EngineEnv): Env { Env(VAULT, BackendEnv(wireguard, WORKING, WORKING)) }

  function HandleFor(p: Profile): string { Prefix(p) + HexBytes(RANDOM) }

  const BASE := WireGuardKind(WireBounds.LARGEST_BASE)
  const OTHER := AmneziaWgKind(WireBounds.LARGEST)

  ////////// Sending //////////

  function Message(id: string, command: ControlCommand): Wire.Put {
    Wire.EncodeRequest(RequestEnvelope(CONTRACT_VERSION, id, command))
  }

  function Send(id: string, command: ControlCommand, env: Env): Input {
    Frame(if Message(id, command).Ok? then Message(id, command).value else [], TRUSTED, env)
  }

  /** What one message does to the service, if its id is new. */
  lemma Sent(st: ServiceState, id: string, command: ControlCommand, env: Env)
    requires ValidIdentifier(id) && WireBounds.Encodable(command) && id !in st.recentIdSet && |st.recentIds| < 256
    ensures Next(st, Send(id, command, env))
      == Execute(st.(recentIds := st.recentIds + [id], recentIdSet := st.recentIdSet + {id}), id, command, env).0
  {
    hide Wire.EncodeRequest, Wire.DecodeRequest, Execute, ValidIdentifier, WireBounds.Encodable;
    var r := RequestEnvelope(CONTRACT_VERSION, id, command);
    WireBounds.RequestSize(r);
    WireRoundTrip.RequestRoundTrip(r);
  }

  lemma Letters()
    ensures ValidIdentifier("a") && ValidIdentifier("b") && ValidIdentifier("c") && ValidIdentifier("d")
      && ValidIdentifier("e")
    ensures "a" != "b" && "a" != "c" && "a" != "d" && "a" != "e" && "b" != "c" && "b" != "d" && "b" != "e"
    ensures "c" != "d" && "c" != "e" && "d" != "e"
  {
    assert "a"[0] == 'a' && "b"[0] == 'b' && "c"[0] == 'c' && "d"[0] == 'd' && "e"[0] == 'e';
  }

  ////////// Importing //////////

  lemma HandleWorks(p: Profile)
    ensures ValidHandle(HandleFor(p)) && FileName(HandleFor(p)) == HandleFor(p) && ValidIdentifier(HandleFor(p))
    ensures HasPrefix(HandleFor(p), Prefix(p))
  {
    hide ValidHandle, FileName;
    GeneratedHandle(p, RANDOM);
    HandleIsIdentifier(HandleFor(p));
  }

  /** Whether the file of a profile is there. */
  predicate Has(files: Files, p: Profile) {
    HandleFor(p) in files && Payload(p).Ok? && files[HandleFor(p)] == Sealed(Payload(p).value)
  }

  lemma Stores(files: Files, p: Profile)
    requires Payload(p).Ok? && HandleFor(p) !in files
    ensures Store(files, p, VAULT) == (files[HandleFor(p) := Sealed(Payload(p).value)], Ok(HandleFor(p)))
  {
    hide Payload, ValidHandle, FileName, HexBytes;
    HandleWorks(p);
  }

  function ProtocolOf(p: Profile): Protocol {
    match p case WireGuardKind(_) => WireGuard case AmneziaWgKind(_) => AmneziaWg case VlessKind(_) => VlessReality
  }

  lemma Loads(files: Files, p: Profile, protocol: Protocol)
    requires Has(files, p) && protocol == ProtocolOf(p)
    ensures LoadFor(files, protocol, HandleFor(p), VAULT).Ok?
  {
    hide Payload, ValidHandle, FileName, HexBytes, Wire.DecodeWireGuardProfile, Wire.DecodeAmneziaWgProfile,
         Wire.DecodeVlessProfile, ValidWireGuard, ValidAmneziaWg, ValidVless;
    HandleWorks(p);
    PayloadDecodes(p, files[HandleFor(p)].plain);
  }

  function ImportOf(p: Profile): ControlCommand {
    match p
    case WireGuardKind(w) => ImportWireGuard("a", w)
    case AmneziaWgKind(a) => ImportAmneziaWg("a", a)
    case VlessKind(v) => ImportVless("a", v)
  }

  predicate CanBeSent(p: Profile) { WireBounds.Encodable(ImportOf(p)) && ValidProfile(p) && Payload(p).Ok? }

  lemma ProfilesCanBeSent()
    ensures CanBeSent(BASE) && CanBeSent(OTHER)
  {
    hide ValidWireGuard, ValidAmneziaWg, WireBounds.TextsFit, WireBounds.AmneziaWgTextsFit, Wire.EncodeWireGuardProfile,
         Wire.EncodeAmneziaWgProfile, Wire.PutProfileWith, Wire.PutAmneziaWgWith, WireRoundTrip.Denote;
    Letters();
    WireBounds.LargestBase();
    WireBounds.LargestAmneziaWg();
    var w, a := WireBounds.LARGEST_BASE, WireBounds.LARGEST;
    WireRoundTrip.PrintedDenote(w.dnsServers);
    WireRoundTrip.PrintedDenote(a.wireguard.dnsServers);
    WireBounds.ProfileAccepted(w, Wire.PrintAll(w.dnsServers));
    WireBounds.AmneziaWgAccepted(a, Wire.PrintAll(a.wireguard.dnsServers));
    WireBounds.PayloadSizes(w, a, VlessProfile("", "", 0, "", "", "", "", ""));
  }

  predicate New(st: ServiceState, id: string) { ValidIdentifier(id) && id !in st.recentIdSet && |st.recentIds| < 256 }

  /** The id is remembered, and nothing else of the window changes. */
  predicate Counted(st: ServiceState, id: string, after: ServiceState) {
    after.recentIdSet == st.recentIdSet + {id} && |after.recentIds| == |st.recentIds| + 1
  }

  lemma Imports(st: ServiceState, id: string, p: Profile)
    requires Sound(st) && New(st, id) && CanBeSent(p) && HandleFor(p) !in st.files
    ensures var after := Next(st, Send(id, ImportOf(p), Calm(WORKING)));
      Sound(after) && Counted(st, id, after) && after.machine == st.machine && after.backend == st.backend
      && after.files == st.files[HandleFor(p) := Sealed(Payload(p).value)] && Has(after.files, p)
  {
    hide Sound, Payload, ValidIdentifier, ValidWireGuard, ValidAmneziaWg, ValidVless, Store, WireBounds.Encodable,
         ImportStep,
         Send, HexBytes;
    Letters();
    Sent(st, id, ImportOf(p), Calm(WORKING));
    var heard := st.(recentIds := st.recentIds + [id], recentIdSet := st.recentIdSet + {id});
    assert heard == Remembered(st, id);
    RememberedSound(st, id);
    Stores(heard.files, p);
    ImportSteps(heard, "a", p, Calm(WORKING));
    NextSound(st, Send(id, ImportOf(p), Calm(WORKING)));
  }

  function ConnectTo(p: Profile): ControlCommand { Connect("a", HandleFor(p), ProtocolOf(p), false) }

  lemma Connects(st: ServiceState, id: string, p: Profile, backend: BackendEnv)
    requires Sound(st) && New(st, id) && Has(st.files, p) && AtRest(st)
    requires ServiceStorage.BackendWorks(backend, EngineFor(ProtocolOf(p)))
    ensures var after := Next(st, Send(id, ConnectTo(p), Env(VAULT, backend)));
      Sound(after) && Counted(st, id, after) && after.machine.phase == Connected && after.files == st.files
      && after.backend == ConnectEngine(st.backend, EngineFor(ProtocolOf(p)), false, true, backend).0
  {
    hide Sound, Payload, ValidIdentifier, Send, HandleFor, LoadFor, ConnectEngine, ServiceStorage.BackendWorks,
         ConnectStep, Has;
    Letters();
    HandleWorks(p);
    var env := Env(VAULT, backend);
    Sent(st, id, ConnectTo(p), env);
    var heard := st.(recentIds := st.recentIds + [id], recentIdSet := st.recentIdSet + {id});
    assert heard == Remembered(st, id);
    RememberedSound(st, id);
    Loads(st.files, p, ProtocolOf(p));
    ConnectBackend(heard, "a", HandleFor(p), ProtocolOf(p), false, env);
    ConnectSteps(heard, "a", HandleFor(p), ProtocolOf(p), false, env);
    ServiceStorage.ConnectStepSucceeds(heard, "a", HandleFor(p), ProtocolOf(p), false, env);
    NextSound(st, Send(id, ConnectTo(p), env));
  }

  lemma Disconnecting(st: ServiceState, id: string, backend: BackendEnv)
    requires Sound(st) && New(st, id) && st.machine.phase == Connected
    ensures var after := Next(st, Send(id, ControlCommand.Disconnect("a"), Env(VAULT, backend)));
      Sound(after) && Counted(st, id, after) && after.files == st.files
      && after.backend == DisconnectAll(st.backend, backend).0
      && after.machine.phase == (if AllStop(backend) then Disconnected else ConnectionPhase.Disconnecting)
  {
    hide Sound, ValidIdentifier, Send, DisconnectAll, AllStop, DisconnectStep;
    Letters();
    var env, command := Env(VAULT, backend), ControlCommand.Disconnect("a");
    Sent(st, id, command, env);
    var heard := st.(recentIds := st.recentIds + [id], recentIdSet := st.recentIdSet + {id});
    assert heard == Remembered(st, id);
    RememberedSound(st, id);
    DisconnectSteps(heard, "a", env);
    DisconnectRuns(st.backend, backend, WireGuardEngine);
    NextSound(st, Send(id, command, env));
  }

  lemma AsksStatus(st: ServiceState, id: string, backend: BackendEnv)
    requires Sound(st) && New(st, id) && st.machine.phase == Connected && IsConnected(st.backend, backend) == Ok(false)
    ensures var after := Next(st, Send(id, Status, Env(VAULT, backend)));
      Sound(after) && after.machine == IDLE && after.backend == st.backend
  {
    hide Sound, ValidIdentifier, Send, IsConnected, ReconcileStep;
    var env := Env(VAULT, backend);
    Sent(st, id, Status, env);
    var heard := st.(recentIds := st.recentIds + [id], recentIdSet := st.recentIdSet + {id});
    assert heard == Remembered(st, id);
    RememberedSound(st, id);
    StatusSteps(heard, env);
    NextSound(st, Send(id, Status, env));
  }

  ////////// A connection //////////

  const FIRST := Send("a", ImportOf(BASE), Calm(WORKING))
  const SECOND := Send("b", ConnectTo(BASE), Calm(WORKING))

  lemma FirstImport()
    ensures var st := StateAfter([FIRST]);
      Sound(st) && st.machine == IDLE && st.backend == BackendState(false, false, false, None)
      && st.files.Keys == {HandleFor(BASE)} && Has(st.files, BASE) && st.recentIdSet == {"a"} && |st.recentIds| == 1
  {
    hide Sound, Next, BASE, HandleFor, ValidIdentifier, Calm, StateAfter, FIRST;
    Letters();
    ProfilesCanBeSent();
    StartSound();
    FirstAlone();
    Imports(START, "a", BASE);
    AfterImport();
  }

  lemma FirstAlone()
    ensures StateAfter([FIRST]) == Next(START, FIRST)
  {
    hide Next, FIRST;
    assert [] + [FIRST] == [FIRST];
    NextInput([], FIRST);
    assert StateAfter([]) == START;
  }

  lemma AfterImport()
    requires Payload(BASE).Ok?
    ensures FIRST == Send("a", ImportOf(BASE), Calm(WORKING))
    ensures START.recentIdSet + {"a"} == {"a"} && |START.recentIds| + 1 == 1 && START.machine == IDLE
    ensures START.backend == BackendState(false, false, false, None)
    ensures START.files[HandleFor(BASE) := Sealed(Payload(BASE).value)].Keys == {HandleFor(BASE)}
  {
    hide Send, BASE, HandleFor, Payload, Calm;
  }

  /** An import and a connect bring up the WireGuard tunnel. */
  lemma FirstTunnel()
    ensures var st := StateAfter([FIRST, SECOND]);
      Sound(st) && st.machine.phase == Connected
      && st.backend == BackendState(true, false, false, Some(WireGuardEngine))
      && st.recentIdSet == {"a", "b"} && |st.recentIds| == 2
  {
    hide Sound, Next, Send, BASE, HandleFor, Has, ValidIdentifier, StateAfter, FIRST;
    Letters();
    FirstImport();
    BaseIsWireGuard();
    assert [FIRST] + [SECOND] == [FIRST, SECOND];
    NextInput([FIRST], SECOND);
    Connects(StateAfter([FIRST]), "b", BASE, Calm(WORKING).backend);
  }

  lemma BaseIsWireGuard()
    ensures ProtocolOf(BASE) == WireGuard && ProtocolOf(OTHER) == AmneziaWg
  {
  }

  ////////// A wedge, a lost tunnel, two tunnels //////////

  const STUBBORN: EngineEnv := WORKING.(stop := StopFailed(Internal, true))
  const UNSEEN: EngineEnv := WORKING.(query := Misses)
  const MISSED: EngineEnv := WORKING.(stop := Missed)

  const REFUSED := Send("c", ControlCommand.Disconnect("a"), Calm(STUBBORN))
  const MISLED := Send("c", Status, Calm(UNSEEN))

  /** An import, a connect and a disconnect that the engine refuses: the machine says Disconnecting for good. */
  lemma RefusedDisconnectWedges(more: seq<Input>)
    ensures StateAfter([FIRST, SECOND, REFUSED] + more).machine.phase == ConnectionPhase.Disconnecting
  {
    hide Sound, Next, Send, FIRST, SECOND, ValidIdentifier, StateAfter, STUBBORN;
    Letters();
    FirstTunnel();
    assert !AllStop(Calm(STUBBORN).backend) by { StubbornRefuses(); }
    assert [FIRST, SECOND] + [REFUSED] == [FIRST, SECOND, REFUSED];
    NextInput([FIRST, SECOND], REFUSED);
    Disconnecting(StateAfter([FIRST, SECOND]), "c", Calm(STUBBORN).backend);
    WedgedForever([FIRST, SECOND, REFUSED], more);
  }

  lemma StubbornRefuses()
    ensures !AllStop(Calm(STUBBORN).backend)
  {
  }

  /** An import, a connect and a status request that cannot open the engine's service: the tunnel runs, unknown. */
  lemma MisledStatusLoses()
    ensures Lost(StateAfter([FIRST, SECOND, MISLED]))
  {
    hide Sound, Next, Send, FIRST, SECOND, ValidIdentifier, StateAfter;
    Letters();
    FirstTunnel();
    assert [FIRST, SECOND] + [MISLED] == [FIRST, SECOND, MISLED];
    NextInput([FIRST, SECOND], MISLED);
    AsksStatus(StateAfter([FIRST, SECOND]), "c", Calm(UNSEEN).backend);
  }

  const OTHER_IMPORT := Send("b", ImportOf(OTHER), Calm(WORKING))
  const THIRD := Send("c", ConnectTo(BASE), Calm(WORKING))
  const LEFT := Send("d", ControlCommand.Disconnect("a"), Calm(MISSED))
  const OVERTAKING := Send("e", ConnectTo(OTHER), Calm(MISSED))

  lemma HandlesDiffer()
    ensures HandleFor(BASE) != HandleFor(OTHER)
  {
    hide HexBytes;
    assert HandleFor(BASE)[0] == 'w' && HandleFor(OTHER)[0] == 'a';
  }

  lemma BothImported()
    ensures var st := StateAfter([FIRST, OTHER_IMPORT]);
      Sound(st) && st.machine == IDLE && st.backend == BackendState(false, false, false, None) && Has(st.files, BASE)
        && Has(st.files, OTHER)
      && st.recentIdSet == {"a", "b"} && |st.recentIds| == 2
  {
    hide Sound, Next, Send, BASE, OTHER, HandleFor, Payload, ValidIdentifier, Calm, StateAfter, FIRST;
    Letters();
    ProfilesCanBeSent();
    FirstImport();
    HandlesDiffer();
    var st := StateAfter([FIRST]);
    assert [FIRST] + [OTHER_IMPORT] == [FIRST, OTHER_IMPORT];
    NextInput([FIRST], OTHER_IMPORT);
    Imports(st, "b", OTHER);
    KeepsHas(st.files, BASE, HandleFor(OTHER), Next(st, OTHER_IMPORT).files[HandleFor(OTHER)]);
  }

  lemma KeepsHas(files: Files, p: Profile, name: string, blob: Blob)
    requires Has(files, p) && name != HandleFor(p)
    ensures Has(files[name := blob], p)
  {
  }

  lemma ThirdTunnel()
    ensures var st := StateAfter([FIRST, OTHER_IMPORT, THIRD]);
      Sound(st) && st.machine.phase == Connected && Has(st.files, OTHER)
      && st.backend == BackendState(true, false, false, Some(WireGuardEngine))
      && st.recentIdSet == {"a", "b", "c"} && |st.recentIds| == 3
  {
    hide Sound, Next, Send, BASE, OTHER, HandleFor, Has, FIRST, OTHER_IMPORT, ValidIdentifier;
    Letters();
    BothImported();
    BaseIsWireGuard();
    assert [FIRST, OTHER_IMPORT] + [THIRD] == [FIRST, OTHER_IMPORT, THIRD];
    NextInput([FIRST, OTHER_IMPORT], THIRD);
    Connects(StateAfter([FIRST, OTHER_IMPORT]), "c", BASE, Calm(WORKING).backend);
  }

  /**
    Two imports, a connect, a disconnect that takes the running tunnel for gone, and a connect to the other
    profile that does so again: two tunnels run.
   */
  lemma MissedStopsOverlap()
    ensures var b := StateAfter([FIRST, OTHER_IMPORT, THIRD, LEFT, OVERTAKING]).backend;
      b.Running(WireGuardEngine) && b.Running(AmneziaWgEngine)
  {
    hide Sound, Next, Send, BASE, OTHER, HandleFor, Has, FIRST, OTHER_IMPORT, THIRD, ValidIdentifier;
    Letters();
    ThirdTunnel();
    BaseIsWireGuard();
    assert [FIRST, OTHER_IMPORT, THIRD] + [LEFT] == [FIRST, OTHER_IMPORT, THIRD, LEFT];
    assert [FIRST, OTHER_IMPORT, THIRD, LEFT] + [OVERTAKING] == [FIRST, OTHER_IMPORT, THIRD, LEFT, OVERTAKING];
    NextInput([FIRST, OTHER_IMPORT, THIRD], LEFT);
    NextInput([FIRST, OTHER_IMPORT, THIRD, LEFT], OVERTAKING);
    Disconnecting(StateAfter([FIRST, OTHER_IMPORT, THIRD]), "d", Calm(MISSED).backend);
    Connects(StateAfter([FIRST, OTHER_IMPORT, THIRD, LEFT]), "e", OTHER, Calm(MISSED).backend);
  }
}
