/** The calls of an activation one by one, and exactly when they all go through. */
module AccountCalls {
  import opened Basics
  import opened Contracts
  import opened Account

  ////////// The calls //////////

  /** With a provisioner, a handle takes the place of every text. */
  lemma ProvisionedCalls(key: string, session: string, w: string, x: string, v: string)
    ensures Plan(Activation(key, session, Credentials(Some(w), Some(x), Some(v))), true) ==
      [WriteKey(ActivationKeyText, key),
       ProvisionFor(WireGuard), SaveHandle(WireGuard), DeleteKey(WireGuardText),
       DeleteKey(AmneziaWgText), ProvisionFor(AmneziaWg), SaveHandle(AmneziaWg),
       DeleteKey(VlessText), ProvisionFor(VlessReality), SaveHandle(VlessReality),
       WriteKey(Session, session)]
    ensures HandleKey(WireGuard) == WireGuardHandle && HandleKey(AmneziaWg) == AmneziaWgHandle
    ensures HandleKey(VlessReality) == VlessHandle
  {
  }

  /** Without one, a text takes the place of every handle; an empty text is none. */
  lemma PlainCalls(key: string, session: string, w: string, x: string)
    requires w != "" && x != ""
    ensures Plan(Activation(key, session, Credentials(Some(w), Some(x), Some(""))), false) ==
      [WriteKey(ActivationKeyText, key),
       WriteKey(WireGuardText, w), DeleteKey(WireGuardHandle),
       WriteKey(AmneziaWgText, x), DeleteKey(AmneziaWgHandle),
       DeleteKey(VlessText), DeleteKey(VlessHandle),
       WriteKey(Session, session)]
  {
  }

  /** What was not issued is deleted in both forms, with or without a provisioner. */
  lemma NothingIssued(key: string, session: string, provisioner: bool)
    ensures Plan(Activation(key, session, Credentials(None, None, None)), provisioner) ==
      [WriteKey(ActivationKeyText, key),
       DeleteKey(WireGuardText), DeleteKey(WireGuardHandle),
       DeleteKey(AmneziaWgText), DeleteKey(AmneziaWgHandle),
       DeleteKey(VlessText), DeleteKey(VlessHandle),
       WriteKey(Session, session)]
  {
  }

  ////////// When they go through //////////

  /** How the n-th call from now goes. */
  function FaultAt(w: World, faults: Faults, n: nat): Fault { w.(clock := w.clock + n).Now(faults) }

  /** No call throws, and the service draws new and different handles. */
  predicate GoesThrough(w: World, plan: seq<Action>, faults: Faults) {
    (forall i :: 0 <= i < |plan| ==> !FaultAt(w, faults, i).throws)
    && (forall i :: 0 <= i < |plan| && plan[i].ProvisionFor? ==> FaultAt(w, faults, i).handle !in w.profiles)
    && (forall i, j :: 0 <= i < j < |plan| && plan[i].ProvisionFor? && plan[j].ProvisionFor? ==>
        FaultAt(w, faults, i).handle != FaultAt(w, faults, j).handle)
  }

  /** A handle is saved only after it was drawn. */
  predicate Saves(plan: seq<Action>, handles: map<Protocol, string>) {
    forall i :: 0 <= i < |plan| && plan[i].SaveHandle? ==>
      plan[i].p in handles || exists j :: 0 <= j < i && plan[j] == ProvisionFor(plan[i].p)
  }

  lemma SavesLater(plan: seq<Action>, handles: map<Protocol, string>, after: map<Protocol, string>)
    requires plan != [] && Saves(plan, handles) && (forall p :: p in handles ==> p in after)
    requires plan[0].ProvisionFor? ==> plan[0].p in after
    ensures Saves(plan[1..], after)
  {
    forall i | 0 <= i < |plan[1..]| && plan[1..][i].SaveHandle?
      ensures plan[1..][i].p in after || exists j :: 0 <= j < i && plan[1..][j] == ProvisionFor(plan[1..][i].p)
    {
      var p := plan[i + 1].p;
      if p !in after {
        var j :| 0 <= j < i + 1 && plan[j] == ProvisionFor(p);
        assert plan[1..][j - 1] == ProvisionFor(p);
      }
    }
  }

  lemma FirstGoes(s: Progress, plan: seq<Action>, faults: Faults)
    requires plan != [] && (plan[0].SaveHandle? ==> plan[0].p in s.handles)
    ensures var (after, ok) := Perform(s, plan[0], faults);
      ok == (!s.world.Now(faults).throws && (plan[0].ProvisionFor? ==> s.world.Now(faults).handle !in s.world.profiles))
      && (forall p :: p in s.handles ==> p in after.handles)
      && (ok ==>
        after.world.clock == s.world.clock + 1
        && after.world.profiles
          == s.world.profiles + (if plan[0].ProvisionFor? then {s.world.Now(faults).handle} else {})
        && (plan[0].ProvisionFor? ==> plan[0].p in after.handles))
  {
  }

  lemma LaterFaults(w: World, after: World, faults: Faults, n: nat)
    requires after.clock == w.clock + 1
    ensures FaultAt(after, faults, n) == FaultAt(w, faults, n + 1) && FaultAt(w, faults, 0) == w.Now(faults)
  {
  }

  lemma GoesFirst(w: World, after: World, plan: seq<Action>, faults: Faults)
    requires plan != [] && after.clock == w.clock + 1
    requires !w.Now(faults).throws && (plan[0].ProvisionFor? ==> w.Now(faults).handle !in w.profiles)
    requires after.profiles == w.profiles + (if plan[0].ProvisionFor? then {w.Now(faults).handle} else {})
    ensures GoesThrough(w, plan, faults) <==> GoesThrough(after, plan[1..], faults)
  {
    hide FaultAt;
    forall n: nat ensures FaultAt(after, faults, n) == FaultAt(w, faults, n + 1) { LaterFaults(w, after, faults, n); }
    LaterFaults(w, after, faults, 0);
    if GoesThrough(w, plan, faults) { Later(w, after, plan, faults); }
    if GoesThrough(after, plan[1..], faults) { Earlier(w, after, plan, faults); }
  }

  lemma Later(w: World, after: World, plan: seq<Action>, faults: Faults)
    requires plan != [] && GoesThrough(w, plan, faults) && FaultAt(w, faults, 0) == w.Now(faults)
    requires forall n: nat :: FaultAt(after, faults, n) == FaultAt(w, faults, n + 1)
    requires after.profiles == w.profiles + (if plan[0].ProvisionFor? then {w.Now(faults).handle} else {})
    ensures GoesThrough(after, plan[1..], faults)
  {
    hide FaultAt;
    forall i | 0 <= i < |plan[1..]| ensures plan[1..][i] == plan[i + 1] && !FaultAt(after, faults, i).throws {}
  }

  lemma Earlier(w: World, after: World, plan: seq<Action>, faults: Faults)
    requires plan != [] && GoesThrough(after, plan[1..], faults) && FaultAt(w, faults, 0) == w.Now(faults)
    requires forall n: nat :: FaultAt(after, faults, n) == FaultAt(w, faults, n + 1)
    requires !w.Now(faults).throws && (plan[0].ProvisionFor? ==> w.Now(faults).handle !in w.profiles)
    requires after.profiles == w.profiles + (if plan[0].ProvisionFor? then {w.Now(faults).handle} else {})
    ensures GoesThrough(w, plan, faults)
  {
    hide FaultAt;
    forall i | 0 < i < |plan| ensures plan[i] == plan[1..][i - 1]
      && FaultAt(w, faults, i) == FaultAt(after, faults, i - 1) {
      assert FaultAt(after, faults, i - 1) == FaultAt(w, faults, (i - 1) + 1);
    }
  }

  lemma {:induction false} PerformsExactly(s: Progress, plan: seq<Action>, faults: Faults)
    requires Saves(plan, s.handles)
    ensures PerformAll(s, plan, faults).1 <==> GoesThrough(s.world, plan, faults)
    decreases plan
  {
    hide Perform, GoesThrough, Saves;
    if plan == [] {
      NothingGoes(s.world, faults);
    } else {
      FirstSaved(plan, s.handles);
      FirstGoes(s, plan, faults);
      var (after, ok) := Perform(s, plan[0], faults);
      if ok {
        SavesLater(plan, s.handles, after.handles);
        PerformsExactly(after, plan[1..], faults);
        GoesFirst(s.world, after.world, plan, faults);
      } else {
        FirstStops(s.world, plan, faults);
      }
    }
  }

  lemma NothingGoes(w: World, faults: Faults)
    ensures GoesThrough(w, [], faults)
  {
  }

  lemma FirstSaved(plan: seq<Action>, handles: map<Protocol, string>)
    requires plan != [] && Saves(plan, handles)
    ensures plan[0].SaveHandle? ==> plan[0].p in handles
  {
  }

  lemma FirstStops(w: World, plan: seq<Action>, faults: Faults)
    requires plan != []
    requires w.Now(faults).throws || (plan[0].ProvisionFor? && w.Now(faults).handle in w.profiles)
    ensures !GoesThrough(w, plan, faults)
  {
    assert FaultAt(w, faults, 0) == w.Now(faults);
  }

  lemma SavesConcat(a: seq<Action>, b: seq<Action>)
    requires Saves(a, map[]) && Saves(b, map[])
    ensures Saves(a + b, map[])
  {
    var plan := a + b;
    forall i | 0 <= i < |plan| && plan[i].SaveHandle?
      ensures exists j :: 0 <= j < i && plan[j] == ProvisionFor(plan[i].p)
    {
      if i < |a| {
        var j :| 0 <= j < i && a[j] == ProvisionFor(a[i].p);
        assert plan[j] == ProvisionFor(plan[i].p);
      } else {
        var j :| 0 <= j < i - |a| && b[j] == ProvisionFor(b[i - |a|].p);
        assert plan[|a| + j] == ProvisionFor(plan[i].p);
      }
    }
  }

  lemma PartsSave(a: Activation, provisioner: bool, p: Protocol)
    ensures Saves(WireGuardPlan(a.credentials.wireguard, provisioner), map[])
    ensures Saves(ProtocolPlan(p, a.credentials.Of(p), provisioner), map[])
    ensures Saves([WriteKey(ActivationKeyText, a.key)], map[]) && Saves([WriteKey(Session, a.session)], map[])
  {
    var text := a.credentials.Of(p);
    if provisioner && a.credentials.wireguard.Some? {
      var plan := WireGuardPlan(a.credentials.wireguard, provisioner);
      assert plan[0] == ProvisionFor(WireGuard) && plan[1] == SaveHandle(WireGuard) && plan[2].DeleteKey?;
    }
    if provisioner && text.Some? {
      var plan := ProtocolPlan(p, text, provisioner);
      assert plan[0].DeleteKey? && plan[1] == ProvisionFor(p) && plan[2] == SaveHandle(p);
    }
  }

  lemma PlanSaves(a: Activation, provisioner: bool)
    ensures Saves(Plan(a, provisioner), map[])
  {
    hide WireGuardPlan, ProtocolPlan, Saves;
    var p1, p2 := [WriteKey(ActivationKeyText, a.key)], WireGuardPlan(a.credentials.wireguard, provisioner);
    var p3, p4 := ProtocolPlan(AmneziaWg, a.credentials.amneziawg, provisioner),
      ProtocolPlan(VlessReality, a.credentials.vless, provisioner);
    PartsSave(a, provisioner, AmneziaWg);
    PartsSave(a, provisioner, VlessReality);
    SavesConcat(p1, p2);
    SavesConcat(p1 + p2, p3);
    SavesConcat(p1 + p2 + p3, p4);
    SavesConcat(p1 + p2 + p3 + p4, [WriteKey(Session, a.session)]);
  }

  /**
    From any world, with and without a provisioner: an activation returns exactly if none of its calls throws and
    the handles drawn are new and different.
   */
  lemma ActivatesExactly(w: World, a: Activation, provisioner: bool, faults: Faults)
    ensures Activated(w, a, provisioner, faults).1 <==> GoesThrough(w, Plan(a, provisioner), faults)
  {
    hide PerformAll, GoesThrough, Plan, Saves;
    PlanSaves(a, provisioner);
    PerformsExactly(Progress(w, map[]), Plan(a, provisioner), faults);
  }

  ////////// Concretely //////////

  const ALL_THREE := Activation("key", "session", Credentials(Some("one"), Some("two"), Some("three")))

  function Fine(handle: string): Fault { Fault(false, false, handle) }

  /** The three drawing calls are the second, the sixth and the ninth. */
  const DRAWS: Faults := [Fine(""), Fine("a"), Fine(""), Fine(""), Fine(""), Fine("b"), Fine(""), Fine(""), Fine("c")]

  lemma DrawsDiffer()
    ensures "a" != "b" && "a" != "c" && "b" != "c"
  {
    assert "a"[0] != "b"[0] && "a"[0] != "c"[0] && "b"[0] != "c"[0];
  }

  /** One call, and then the others. */
  lemma NextCall(s: Progress, action: Action, rest: seq<Action>, faults: Faults, after: Progress)
    requires Perform(s, action, faults) == (after, true)
    ensures PerformAll(s, [action] + rest, faults) == PerformAll(after, rest, faults)
  {
    hide Perform;
    assert ([action] + rest)[1..] == rest;
  }

  const AFTER_WIREGUARD: map<Key, string> := map[ActivationKeyText := "key", WireGuardHandle := "a"]
  const AFTER_AMNEZIAWG: map<Key, string> := AFTER_WIREGUARD[AmneziaWgHandle := "b"]
  const AFTER_VLESS: map<Key, string> := AFTER_AMNEZIAWG[VlessHandle := "c"]

  lemma WireGuardCalls(rest: seq<Action>)
    ensures PerformAll(Progress(World(map[], {}, 0), map[]),
        [WriteKey(ActivationKeyText, "key")] + ([ProvisionFor(WireGuard)] + ([SaveHandle(WireGuard)]
        + ([DeleteKey(WireGuardText)] + rest))), DRAWS)
      == PerformAll(Progress(World(AFTER_WIREGUARD, {"a"}, 4), map[WireGuard := "a"]), rest, DRAWS)
  {
    hide PerformAll;
    var s0 := Progress(World(map[], {}, 0), map[]);
    var s1 := Progress(World(map[ActivationKeyText := "key"], {}, 1), map[]);
    var s2 := Progress(World(map[ActivationKeyText := "key"], {"a"}, 2), map[WireGuard := "a"]);
    var s3 := Progress(World(AFTER_WIREGUARD, {"a"}, 3), map[WireGuard := "a"]);
    var s4 := Progress(World(AFTER_WIREGUARD, {"a"}, 4), map[WireGuard := "a"]);
    assert AFTER_WIREGUARD - {WireGuardText} == AFTER_WIREGUARD && s1.world.profiles + {"a"} == {"a"};
    NextCall(s3, DeleteKey(WireGuardText), rest, DRAWS, s4);
    NextCall(s2, SaveHandle(WireGuard), [DeleteKey(WireGuardText)] + rest, DRAWS, s3);
    NextCall(s1, ProvisionFor(WireGuard), [SaveHandle(WireGuard)] + ([DeleteKey(WireGuardText)] + rest), DRAWS, s2);
    NextCall(s0, WriteKey(ActivationKeyText, "key"),
      [ProvisionFor(WireGuard)] + ([SaveHandle(WireGuard)] + ([DeleteKey(WireGuardText)] + rest)), DRAWS, s1);
  }

  /** The three calls of another protocol, from a storage without its keys. */
  lemma ProtocolCalls(s: Progress, p: Protocol, h: string, rest: seq<Action>)
    requires s.world.clock + 1 < |DRAWS| && (s.world.clock == 4 || s.world.clock == 7) && p !in s.handles
    requires TextKey(p) !in s.world.storage && h !in s.world.profiles && DRAWS[s.world.clock + 1].handle == h
    ensures PerformAll(s, [DeleteKey(TextKey(p))] + ([ProvisionFor(p)] + ([SaveHandle(p)] + rest)), DRAWS)
      == PerformAll(Progress(World(s.world.storage[HandleKey(p) := h], s.world.profiles + {h}, s.world.clock + 3),
        s.handles[p := h]), rest, DRAWS)
  {
    hide PerformAll;
    var w := s.world;
    var s1 := Progress(World(w.storage, w.profiles, w.clock + 1), s.handles);
    var s2 := Progress(World(w.storage, w.profiles + {h}, w.clock + 2), s.handles[p := h]);
    var s3 := Progress(World(w.storage[HandleKey(p) := h], w.profiles + {h}, w.clock + 3), s.handles[p := h]);
    assert w.storage - {TextKey(p)} == w.storage;
    NextCall(s2, SaveHandle(p), rest, DRAWS, s3);
    NextCall(s1, ProvisionFor(p), [SaveHandle(p)] + rest, DRAWS, s2);
    NextCall(s, DeleteKey(TextKey(p)), [ProvisionFor(p)] + ([SaveHandle(p)] + rest), DRAWS, s1);
  }

  lemma InOneRow()
    ensures Plan(ALL_THREE, true) ==
      [WriteKey(ActivationKeyText, "key")] + ([ProvisionFor(WireGuard)] + ([SaveHandle(WireGuard)]
      + ([DeleteKey(WireGuardText)]
      + ([DeleteKey(AmneziaWgText)] + ([ProvisionFor(AmneziaWg)] + ([SaveHandle(AmneziaWg)]
      + ([DeleteKey(VlessText)] + ([ProvisionFor(VlessReality)] + ([SaveHandle(VlessReality)]
      + [WriteKey(Session, "session")])))))))))
  {
    ProvisionedCalls("key", "session", "one", "two", "three");
  }

  /** From nothing: all three profiles are provisioned, and their handles, the key and the session are stored. */
  lemma AllThreeActivate()
    ensures Activated(World(map[], {}, 0), ALL_THREE, true, DRAWS)
      == (World(AFTER_VLESS[Session := "session"], {"a", "b", "c"}, 11), true)
  {
    hide PerformAll, Plan;
    DrawsDiffer();
    InOneRow();
    var last := [WriteKey(Session, "session")];
    var third := [DeleteKey(VlessText)] + ([ProvisionFor(VlessReality)] + ([SaveHandle(VlessReality)] + last));
    WireGuardCalls([DeleteKey(AmneziaWgText)] + ([ProvisionFor(AmneziaWg)] + ([SaveHandle(AmneziaWg)] + third)));
    var s4 := Progress(World(AFTER_WIREGUARD, {"a"}, 4), map[WireGuard := "a"]);
    ProtocolCalls(s4, AmneziaWg, "b", third);
    var s7 := Progress(World(AFTER_AMNEZIAWG, {"a"} + {"b"}, 7), s4.handles[AmneziaWg := "b"]);
    ProtocolCalls(s7, VlessReality, "c", last);
    var s10 := Progress(World(AFTER_VLESS, {"a"} + {"b"} + {"c"}, 10), s7.handles[VlessReality := "c"]);
    PerformOne(s10, WriteKey(Session, "session"), DRAWS);
    assert {"a"} + {"b"} + {"c"} == {"a", "b", "c"};
  }

  ////////// Clearing //////////

  /** The order in which a sign-out deletes, as its failures show it. */
  const DELETED: seq<Key> :=
    [ActivationKeyText, Session, WireGuardText, AmneziaWgText, VlessText, WireGuardHandle, AmneziaWgHandle, VlessHandle]

  function KeySet(keys: seq<Key>): set<Key> { set k | k in keys }

  /** A clearing whose n-th call throws without effect has deleted exactly the keys before it. */
  lemma {:induction false} ClearStops(w: World, keys: seq<Key>, n: nat, faults: Faults)
    requires n < |keys| && (forall i :: 0 <= i < n ==> !FaultAt(w, faults, i).throws)
    requires FaultAt(w, faults, n).throws && !FaultAt(w, faults, n).effect
    ensures w.Clear(keys, faults) == (World(w.storage - KeySet(keys[..n]), w.profiles, w.clock + n + 1), false)
    decreases n
  {
    if n > 0 {
      var next := w.Delete(keys[0], faults).0;
      assert !FaultAt(w, faults, 0).throws;
      forall i | 0 <= i < n ensures FaultAt(next, faults, i) == FaultAt(w, faults, i + 1) {
        LaterFaults(w, next, faults, i);
      }
      LaterFaults(w, next, faults, n - 1);
      ClearStops(next, keys[1..], n - 1, faults);
      assert keys[..n] == [keys[0]] + keys[1..][..n - 1];
      assert w.storage - {keys[0]} - KeySet(keys[1..][..n - 1]) == w.storage - KeySet(keys[..n]);
    } else {
      assert w.storage - KeySet(keys[..0]) == w.storage;
    }
  }

  /** So a sign-out that gets as far as the clearing, and stops there, forgets the handles last of all. */
  lemma ClearedInOrder(w: World, n: nat, faults: Faults)
    requires n < 8 && (forall i :: 0 <= i < n ==> !FaultAt(w, faults, i).throws)
    requires FaultAt(w, faults, n).throws && !FaultAt(w, faults, n).effect
    ensures w.Clear(ALL_KEYS, faults).0.storage == w.storage - KeySet(DELETED[..n])
  {
    assert ALL_KEYS == DELETED;
    ClearStops(w, ALL_KEYS, n, faults);
  }

  ////////// Rolling back and signing out, call by call //////////

  predicate LandsAt(w: World, faults: Faults, n: nat) { !FaultAt(w, faults, n).throws || FaultAt(w, faults, n).effect }

  /** What the n-th deletion from now takes out. */
  function Gone(w: World, faults: Faults, n: nat, handle: string): set<string> {
    if LandsAt(w, faults, n) then {handle} else {}
  }

  function One(handles: map<Protocol, string>, p: Protocol): nat { if p in handles then 1 else 0 }

  /** Which of the drawn profiles a rollback leaves: one deletion for each, in the order they were drawn. */
  lemma RollbackLeaves(s: Progress, faults: Faults)
    ensures var (w, h) := (s.world, s.handles);
      var (second, third) := (One(h, WireGuard), One(h, WireGuard) + One(h, AmneziaWg));
      UndoAll(s, faults) == World(w.storage,
        w.profiles - (if WireGuard in h then Gone(w, faults, 0, h[WireGuard]) else {})
          - (if AmneziaWg in h then Gone(w, faults, second, h[AmneziaWg]) else {})
          - (if VlessReality in h then Gone(w, faults, third, h[VlessReality]) else {}),
        w.clock + third + One(h, VlessReality))
  {
  }

  /** How a read of a handle and the deletion of its profile go, starting with the n-th call from now. */
  predicate Forgotten(w: World, faults: Faults, n: nat, p: Protocol, provisioner: bool) {
    !FaultAt(w, faults, n).throws
    && (HandleKey(p) in w.storage && provisioner ==> !FaultAt(w, faults, n + 1).throws)
  }

  function CallsFor(w: World, p: Protocol, provisioner: bool): nat {
    if HandleKey(p) in w.storage && provisioner then 2 else 1
  }

  /** The profile of a protocol's handle, taken out by the n-th call from now. */
  function TakenOut(w: World, faults: Faults, n: nat, p: Protocol, provisioner: bool): set<string> {
    if HandleKey(p) in w.storage && provisioner then Gone(w, faults, n, w.storage[HandleKey(p)]) else {}
  }

  lemma ForgetExactly(v: World, w: World, n: nat, p: Protocol, provisioner: bool, faults: Faults)
    requires w.storage == v.storage && w.clock == v.clock + n
    ensures var (after, ok) := Forget(w, p, provisioner, faults);
      ok == Forgotten(v, faults, n, p, provisioner) && after.storage == v.storage
      && (ok ==> after.clock == v.clock + n + CallsFor(v, p, provisioner))
      && after.profiles == w.profiles
        - (if FaultAt(v, faults, n).throws then {} else TakenOut(v, faults, n + 1, p, provisioner))
  {
  }

  /**
    A sign-out reads and deletes WireGuard's profile first, then AmneziaWG's, then VLESS's. When it stops in
    between, exactly the profiles before that are gone, and nothing was cleared.
   */
  lemma SignOutStops(w: World, provisioner: bool, faults: Faults)
    ensures var (after, ok) := SignedOut(w, provisioner, faults);
      var n2 := CallsFor(w, WireGuard, provisioner);
      var n3 := n2 + CallsFor(w, AmneziaWg, provisioner);
      var first :=
        w.profiles - (if FaultAt(w, faults, 0).throws then {} else TakenOut(w, faults, 1, WireGuard, provisioner));
      var second :=
        first - (if FaultAt(w, faults, n2).throws then {} else TakenOut(w, faults, n2 + 1, AmneziaWg, provisioner));
      var third :=
        second - (if FaultAt(w, faults, n3).throws then {} else TakenOut(w, faults, n3 + 1, VlessReality, provisioner));
      if !Forgotten(w, faults, 0, WireGuard, provisioner) then
        !ok && after.profiles == first && after.storage == w.storage
      else if !Forgotten(w, faults, n2, AmneziaWg, provisioner) then
        !ok && after.profiles == second && after.storage == w.storage
      else if !Forgotten(w, faults, n3, VlessReality, provisioner) then
        !ok && after.profiles == third && after.storage == w.storage
      else after.profiles == third
  {
    hide Forget, Forgotten, CallsFor, TakenOut, FaultAt, ALL_KEYS;
    var (w1, ok1) := Forget(w, WireGuard, provisioner, faults);
    ForgetExactly(w, w, 0, WireGuard, provisioner, faults);
    if ok1 {
      var n2 := CallsFor(w, WireGuard, provisioner);
      ForgetExactly(w, w1, n2, AmneziaWg, provisioner, faults);
      var (w2, ok2) := Forget(w1, AmneziaWg, provisioner, faults);
      if ok2 {
        ForgetExactly(w, w2, n2 + CallsFor(w, AmneziaWg, provisioner), VlessReality, provisioner, faults);
        var (w3, ok3) := Forget(w2, VlessReality, provisioner, faults);
        if ok3 { ClearKeepsProfiles(w3, ALL_KEYS, faults); }
      }
    }
  }

  lemma {:induction false} ClearKeepsProfiles(w: World, keys: seq<Key>, faults: Faults)
    ensures w.Clear(keys, faults).0.profiles == w.profiles
    decreases keys
  {
    if keys != [] && w.Delete(keys[0], faults).1 { ClearKeepsProfiles(w.Delete(keys[0], faults).0, keys[1..], faults); }
  }
}
