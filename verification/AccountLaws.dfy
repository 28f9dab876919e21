/** What activation and sign-out promise, whichever calls fail. */
module AccountLaws {
  import opened Basics
  import opened Contracts
  import opened Account

  ////////// What a plan does to the profiles //////////

  /** The profile a provisioning call stored before it threw, so that nobody knows its handle. */
  function Orphan(s: Progress, plan: seq<Action>, faults: Faults): set<string>
    decreases plan
  {
    if plan == [] then {}
    else
      var (after, ok) := Perform(s, plan[0], faults);
      if ok then Orphan(after, plan[1..], faults)
      else if plan[0].ProvisionFor? then after.world.profiles - s.world.profiles
      else {}
  }

  /** Every protocol is provisioned at most once, and not again if it has a handle already. */
  predicate ProvisionsOnce(plan: seq<Action>, handles: map<Protocol, string>) {
    (forall i :: 0 <= i < |plan| && plan[i].ProvisionFor? ==> plan[i].p !in handles)
    && (forall i, j :: 0 <= i < j < |plan| && plan[i].ProvisionFor? ==> plan[i] != plan[j])
  }

  lemma ProvisionsOnceLater(plan: seq<Action>, handles: map<Protocol, string>, after: map<Protocol, string>)
    requires plan != [] && ProvisionsOnce(plan, handles)
    requires after == handles
      || (plan[0].ProvisionFor? && plan[0].p in after && after == handles[plan[0].p := after[plan[0].p]])
    ensures ProvisionsOnce(plan[1..], after)
  {
    forall i | 0 <= i < |plan[1..]| && plan[1..][i].ProvisionFor? ensures plan[1..][i].p !in after {
      assert plan[1..][i] == plan[i + 1] && plan[0] != plan[i + 1];
    }
  }

  lemma ProvisionsOnceConcat(a: seq<Action>, b: seq<Action>)
    requires ProvisionsOnce(a, map[]) && ProvisionsOnce(b, map[])
    requires forall i, j :: 0 <= i < |a| && 0 <= j < |b| && a[i].ProvisionFor? ==> a[i] != b[j]
    ensures ProvisionsOnce(a + b, map[])
  {
  }

  predicate Single(orphan: set<string>) { forall x, y :: x in orphan && y in orphan ==> x == y }

  /** The handles drawn are new and different; they and an orphan are all that was added to the profiles. */
  predicate Tracks(initial: set<string>, s: Progress, orphan: set<string>) {
    s.world.profiles == initial + s.handles.Values + orphan
    && orphan !! (initial + s.handles.Values) && Single(orphan)
    && (forall p :: p in s.handles ==> s.handles[p] !in initial)
    && (forall p, q :: p in s.handles && q in s.handles && p != q ==> s.handles[p] != s.handles[q])
  }

  lemma DrawTracks(initial: set<string>, s: Progress, p: Protocol, faults: Faults)
    requires Tracks(initial, s, {}) && p !in s.handles
    ensures var (after, ok) := Perform(s, ProvisionFor(p), faults);
      Tracks(initial, after, if ok then {} else after.world.profiles - s.world.profiles)
  {
    var (after, ok) := Perform(s, ProvisionFor(p), faults);
    var h := s.world.Now(faults).handle;
    if ok {
      NewHandleTracks(initial, s, p, h, after);
    } else {
      var left := after.world.profiles - s.world.profiles;
      assert left == {} || left == {h};
      assert after.world.profiles == s.world.profiles + left;
    }
  }

  lemma NewHandleTracks(initial: set<string>, s: Progress, p: Protocol, h: string, t: Progress)
    requires Tracks(initial, s, {}) && p !in s.handles && h !in s.world.profiles
    requires t.handles == s.handles[p := h] && t.world.profiles == s.world.profiles + {h}
    ensures Tracks(initial, t, {})
  {
    ValuesGrow(s.handles, p, h);
    assert t.world.profiles == initial + t.handles.Values + {};
    forall q | q in s.handles ensures s.handles[q] != h { assert s.handles[q] in s.handles.Values; }
  }

  lemma ValuesGrow(handles: map<Protocol, string>, p: Protocol, h: string)
    requires p !in handles
    ensures handles[p := h].Values == handles.Values + {h}
  {
    var after := handles[p := h];
    assert p in after && after[p] == h;
    forall v | v in handles.Values ensures v in after.Values {
      var q :| q in handles && handles[q] == v;
      assert q in after && after[q] == v;
    }
  }

  lemma StepTracks(initial: set<string>, s: Progress, action: Action, faults: Faults)
    requires Tracks(initial, s, {}) && (action.ProvisionFor? ==> action.p !in s.handles)
    ensures var (after, ok) := Perform(s, action, faults);
      Tracks(initial, after, if !ok && action.ProvisionFor? then after.world.profiles - s.world.profiles else {})
  {
    hide Tracks;
    if action.ProvisionFor? {
      DrawTracks(initial, s, action.p, faults);
    } else {
      SameTracks(initial, s, Perform(s, action, faults).0);
    }
  }

  lemma SameTracks(initial: set<string>, s: Progress, t: Progress)
    requires Tracks(initial, s, {}) && s.world.profiles == t.world.profiles && s.handles == t.handles
    ensures Tracks(initial, t, {})
  {
  }

  lemma StepHandles(s: Progress, action: Action, faults: Faults)
    ensures var (after, ok) := Perform(s, action, faults);
      after.handles == s.handles
      || (ok && action.ProvisionFor? && action.p in after.handles
        && after.handles == s.handles[action.p := after.handles[action.p]])
  {
  }

  lemma {:induction false} PlanTracks(initial: set<string>, s: Progress, plan: seq<Action>, faults: Faults)
    requires Tracks(initial, s, {}) && ProvisionsOnce(plan, s.handles)
    ensures var (after, ok) := PerformAll(s, plan, faults);
      Tracks(initial, after, Orphan(s, plan, faults)) && (ok ==> Orphan(s, plan, faults) == {})
    decreases plan
  {
    hide Tracks, Perform, ProvisionsOnce;
    if plan != [] {
      FirstOnce(plan, s.handles);
      StepTracks(initial, s, plan[0], faults);
      StepHandles(s, plan[0], faults);
      var (after, ok) := Perform(s, plan[0], faults);
      if ok {
        ProvisionsOnceLater(plan, s.handles, after.handles);
        PlanTracks(initial, after, plan[1..], faults);
      }
    }
  }

  lemma PlanProvisionsOnce(a: Activation, provisioner: bool)
    ensures ProvisionsOnce(Plan(a, provisioner), map[])
  {
    var p1, p2 := [WriteKey(ActivationKeyText, a.key)], WireGuardPlan(a.credentials.wireguard, provisioner);
    var p3, p4 := ProtocolPlan(AmneziaWg, a.credentials.amneziawg, provisioner),
      ProtocolPlan(VlessReality, a.credentials.vless, provisioner);
    var p5 := [WriteKey(Session, a.session)];
    ProvisionsOnceConcat(p1, p2);
    ProvisionsOnceConcat(p1 + p2, p3);
    ProvisionsOnceConcat(p1 + p2 + p3, p4);
    ProvisionsOnceConcat(p1 + p2 + p3 + p4, p5);
  }

  lemma FirstOnce(plan: seq<Action>, handles: map<Protocol, string>)
    requires plan != [] && ProvisionsOnce(plan, handles)
    ensures plan[0].ProvisionFor? ==> plan[0].p !in handles
  {
  }

  ////////// A failed activation leaves nothing //////////

  /** The next call takes effect, whether it throws or not. */
  predicate Lands(w: World, faults: Faults) { !w.Now(faults).throws || w.Now(faults).effect }

  predicate UndoLands(w: World, handles: map<Protocol, string>, p: Protocol, faults: Faults) {
    p in handles ==> Lands(w, faults)
  }

  /** Every deletion of the rollback takes effect. */
  predicate UndoAllLands(s: Progress, faults: Faults) {
    var w1 := Undo(s.world, s.handles, WireGuard, faults);
    var w2 := Undo(w1, s.handles, AmneziaWg, faults);
    UndoLands(s.world, s.handles, WireGuard, faults) && UndoLands(w1, s.handles, AmneziaWg, faults)
    && UndoLands(w2, s.handles, VlessReality, faults)
  }

  function HandleOf(handles: map<Protocol, string>, p: Protocol): set<string> {
    if p in handles then {handles[p]} else {}
  }

  function Removed(w: World, handles: map<Protocol, string>, p: Protocol, faults: Faults): set<string> {
    if UndoLands(w, handles, p, faults) then HandleOf(handles, p) else {}
  }

  lemma UndoRemoves(w: World, handles: map<Protocol, string>, p: Protocol, faults: Faults)
    ensures Undo(w, handles, p, faults).profiles == w.profiles - Removed(w, handles, p, faults)
    ensures Undo(w, handles, p, faults).storage == w.storage
    ensures Removed(w, handles, p, faults) == HandleOf(handles, p) <==> UndoLands(w, handles, p, faults)
  {
  }

  lemma AllHandles(handles: map<Protocol, string>)
    ensures handles.Values == HandleOf(handles, WireGuard) + HandleOf(handles, AmneziaWg)
      + HandleOf(handles, VlessReality)
  {
    forall v ensures v in handles.Values
      <==> v in HandleOf(handles, WireGuard) + HandleOf(handles, AmneziaWg) + HandleOf(handles, VlessReality) {
      if v in handles.Values {
        var p: Protocol :| p in handles && handles[p] == v;
        assert p == WireGuard || p == AmneziaWg || p == VlessReality;
      }
    }
  }

  lemma AllRemoved(kept: set<string>, h1: set<string>, h2: set<string>, h3: set<string>, r1: set<string>,
      r2: set<string>, r3: set<string>)
    requires kept !! h1 !! h2 !! h3
    requires (r1 == h1 || r1 == {}) && (r2 == h2 || r2 == {}) && (r3 == h3 || r3 == {})
    ensures kept + (h1 + h2 + h3) - r1 - r2 - r3 == kept <==> r1 == h1 && r2 == h2 && r3 == h3
  {
    var left := kept + (h1 + h2 + h3) - r1 - r2 - r3;
    if x :| x in h1 && x !in r1 { assert x in left; }
    if x :| x in h2 && x !in r2 { assert x in left; }
    if x :| x in h3 && x !in r3 { assert x in left; }
  }

  /** Rolling back undoes all of the drawn handles exactly when every deletion takes effect. */
  lemma UndoAllExactly(initial: set<string>, s: Progress, orphan: set<string>, faults: Faults)
    requires Tracks(initial, s, orphan)
    ensures UndoAll(s, faults).storage == s.world.storage
    ensures UndoAll(s, faults).profiles == initial + orphan <==> UndoAllLands(s, faults)
  {
    hide Undo, Removed, UndoLands, Tracks, HandleOf;
    var w1 := Undo(s.world, s.handles, WireGuard, faults);
    var w2 := Undo(w1, s.handles, AmneziaWg, faults);
    UndoRemoves(s.world, s.handles, WireGuard, faults);
    UndoRemoves(w1, s.handles, AmneziaWg, faults);
    UndoRemoves(w2, s.handles, VlessReality, faults);
    HandlesApart(initial, s, orphan);
    RemovedOrNot(s.world, s.handles, WireGuard, faults);
    RemovedOrNot(w1, s.handles, AmneziaWg, faults);
    RemovedOrNot(w2, s.handles, VlessReality, faults);
    AllRemoved(initial + orphan, HandleOf(s.handles, WireGuard), HandleOf(s.handles, AmneziaWg),
      HandleOf(s.handles, VlessReality),
      Removed(s.world, s.handles, WireGuard, faults), Removed(w1, s.handles, AmneziaWg, faults),
      Removed(w2, s.handles, VlessReality, faults));
  }

  lemma RemovedOrNot(w: World, handles: map<Protocol, string>, p: Protocol, faults: Faults)
    ensures Removed(w, handles, p, faults) == HandleOf(handles, p) || Removed(w, handles, p, faults) == {}
  {
  }

  lemma HandlesApart(initial: set<string>, s: Progress, orphan: set<string>)
    requires Tracks(initial, s, orphan)
    ensures (initial + orphan) !! HandleOf(s.handles, WireGuard) !! HandleOf(s.handles, AmneziaWg)
      !! HandleOf(s.handles, VlessReality)
    ensures s.world.profiles
      == (initial + orphan) + (HandleOf(s.handles, WireGuard) + HandleOf(s.handles, AmneziaWg)
        + HandleOf(s.handles, VlessReality))
  {
    forall p | p in s.handles ensures s.handles[p] in s.handles.Values {}
    AllHandles(s.handles);
  }

  lemma {:induction false} ClearWorks(w: World, keys: seq<Key>, faults: Faults)
    ensures w.Clear(keys, faults).0.profiles == w.profiles
    ensures w.Clear(keys, faults).1 ==> w.Clear(keys, faults).0.storage == w.storage - (set k | k in keys)
    ensures forall k ::
      k in w.Clear(keys, faults).0.storage ==> k in w.storage && w.storage[k] == w.Clear(keys, faults).0.storage[k]
    decreases keys
  {
    if keys != [] {
      var (next, ok) := w.Delete(keys[0], faults);
      if ok {
        ClearWorks(next, keys[1..], faults);
        assert w.storage - {keys[0]} - (set k | k in keys[1..]) == w.storage - (set k | k in keys);
      }
    }
  }

  lemma EveryKey(k: Key)
    ensures k in ALL_KEYS
  {
    assert ALL_KEYS[0] == ActivationKeyText && ALL_KEYS[1] == Session && ALL_KEYS[2] == WireGuardText
      && ALL_KEYS[3] == AmneziaWgText && ALL_KEYS[4] == VlessText && ALL_KEYS[5] == WireGuardHandle
      && ALL_KEYS[6] == AmneziaWgHandle && ALL_KEYS[7] == VlessHandle;
  }

  lemma ClearAll(w: World, faults: Faults)
    ensures w.Clear(ALL_KEYS, faults).0.profiles == w.profiles
    ensures w.Clear(ALL_KEYS, faults).1 ==> w.Clear(ALL_KEYS, faults).0.storage == map[]
  {
    ClearWorks(w, ALL_KEYS, faults);
    if w.Clear(ALL_KEYS, faults).1 {
      forall k | k in w.storage ensures k !in w.Clear(ALL_KEYS, faults).0.storage { EveryKey(k); }
    }
  }

  /** A provisioning call is the first to fail, and it took effect with a fresh handle before it threw. */
  predicate Orphaned(s: Progress, plan: seq<Action>, faults: Faults)
    decreases plan
  {
    plan != [] &&
    var (after, ok) := Perform(s, plan[0], faults);
    var f := s.world.Now(faults);
    if ok then Orphaned(after, plan[1..], faults)
    else plan[0].ProvisionFor? && f.throws && f.effect && f.handle !in s.world.profiles
  }

  lemma {:induction false} OrphanExactly(s: Progress, plan: seq<Action>, faults: Faults)
    ensures Orphan(s, plan, faults) != {} <==> Orphaned(s, plan, faults)
    decreases plan
  {
    if plan != [] {
      var (after, ok) := Perform(s, plan[0], faults);
      if ok {
        OrphanExactly(after, plan[1..], faults);
      } else if Orphaned(s, plan, faults) {
        assert s.world.Now(faults).handle in after.world.profiles - s.world.profiles;
      }
    }
  }

  lemma UndoSparesOrphan(initial: set<string>, s: Progress, orphan: set<string>, faults: Faults)
    requires Tracks(initial, s, orphan)
    ensures initial + orphan <= UndoAll(s, faults).profiles
  {
    hide Undo, Removed, UndoLands, Tracks;
    var w1 := Undo(s.world, s.handles, WireGuard, faults);
    var w2 := Undo(w1, s.handles, AmneziaWg, faults);
    UndoRemoves(s.world, s.handles, WireGuard, faults);
    UndoRemoves(w1, s.handles, AmneziaWg, faults);
    UndoRemoves(w2, s.handles, VlessReality, faults);
    HandlesApart(initial, s, orphan);
    RemovedOrNot(s.world, s.handles, WireGuard, faults);
    RemovedOrNot(w1, s.handles, AmneziaWg, faults);
    RemovedOrNot(w2, s.handles, VlessReality, faults);
  }

  /** The first call that throws still deletes its key if the key is there, and no key is there after it. */
  predicate ClearLands(w: World, keys: seq<Key>, faults: Faults)
    decreases keys
  {
    keys == [] ||
    var (next, ok) := w.Delete(keys[0], faults);
    if ok then ClearLands(next, keys[1..], faults) else forall k :: k in keys ==> k !in next.storage
  }

  lemma {:induction false} ClearedExactly(w: World, keys: seq<Key>, faults: Faults)
    ensures (forall k :: k in keys ==> k !in w.Clear(keys, faults).0.storage) <==> ClearLands(w, keys, faults)
    decreases keys
  {
    if keys != [] {
      var (next, ok) := w.Delete(keys[0], faults);
      if ok {
        ClearedExactly(next, keys[1..], faults);
        ClearWorks(next, keys[1..], faults);
        assert forall k :: k in keys <==> k == keys[0] || k in keys[1..];
        assert keys[0] !in next.storage;
      }
    }
  }

  lemma EmptyExactly(w: World, faults: Faults)
    ensures w.Clear(ALL_KEYS, faults).0.storage == map[] <==> ClearLands(w, ALL_KEYS, faults)
  {
    ClearedExactly(w, ALL_KEYS, faults);
    var storage := w.Clear(ALL_KEYS, faults).0.storage;
    forall k ensures k in ALL_KEYS { EveryKey(k); }
    if forall k :: k in ALL_KEYS ==> k !in storage { assert storage == map[]; }
  }

  /**
    After an activation that threw, wherever it threw and whatever was stored before: the profiles are those
    held before exactly if every deletion of the rollback took effect and the failing call left no orphan;
    the storage is empty exactly if the clearing got through to the last key that was there.
   */
  lemma FailedActivation(w: World, a: Activation, provisioner: bool, faults: Faults)
    requires !Activated(w, a, provisioner, faults).1
    ensures var start := Progress(w, map[]);
      var (s, after) := (PerformAll(start, Plan(a, provisioner), faults).0, Activated(w, a, provisioner, faults).0);
      (after.profiles == w.profiles <==> UndoAllLands(s, faults) && !Orphaned(start, Plan(a, provisioner), faults))
      && (after.storage == map[] <==> ClearLands(UndoAll(s, faults), ALL_KEYS, faults))
  {
    hide PerformAll, Plan, UndoAll, UndoAllLands, ProvisionsOnce, Orphan, Orphaned, ClearLands;
    var start := Progress(w, map[]);
    var orphan := Orphan(start, Plan(a, provisioner), faults);
    LeftProfiles(w, a, provisioner, faults);
    var s := PerformAll(start, Plan(a, provisioner), faults).0;
    OrphanExactly(start, Plan(a, provisioner), faults);
    EmptyExactly(UndoAll(s, faults), faults);
    if Activated(w, a, provisioner, faults).0.profiles == w.profiles { assert orphan <= w.profiles; }
  }

  /** What a failed activation leaves at the service: the profiles of before, an orphan at most, and the undeleted. */
  lemma LeftProfiles(w: World, a: Activation, provisioner: bool, faults: Faults)
    requires !Activated(w, a, provisioner, faults).1
    ensures var start := Progress(w, map[]);
      var (s, after) := (PerformAll(start, Plan(a, provisioner), faults).0, Activated(w, a, provisioner, faults).0);
      var orphan := Orphan(start, Plan(a, provisioner), faults);
      Single(orphan) && orphan !! w.profiles && w.profiles + orphan <= after.profiles
      && (after.profiles == w.profiles + orphan <==> UndoAllLands(s, faults))
  {
    hide PerformAll, Plan, UndoAll, UndoAllLands, ProvisionsOnce;
    var start := Progress(w, map[]);
    PlanProvisionsOnce(a, provisioner);
    StartTracks(w);
    PlanTracks(w.profiles, start, Plan(a, provisioner), faults);
    var s := PerformAll(start, Plan(a, provisioner), faults).0;
    var orphan := Orphan(start, Plan(a, provisioner), faults);
    UndoAllExactly(w.profiles, s, orphan, faults);
    UndoSparesOrphan(w.profiles, s, orphan, faults);
    ClearAll(UndoAll(s, faults), faults);
  }

  lemma StartTracks(w: World)
    ensures Tracks(w.profiles, Progress(w, map[]), {})
  {
    assert w.profiles + Progress(w, map[]).handles.Values + {} == w.profiles;
  }

  /** No call from now on fails. */
  predicate Calm(w: World, faults: Faults) { forall i :: w.clock <= i < |faults| ==> !faults[i].throws }

  /** When nothing fails during the rollback, a failed activation leaves nothing, exactly if it left no orphan. */
  lemma AllOrNothing(w: World, a: Activation, provisioner: bool, faults: Faults)
    requires !Activated(w, a, provisioner, faults).1
    requires Calm(PerformAll(Progress(w, map[]), Plan(a, provisioner), faults).0.world, faults)
    ensures var after := Activated(w, a, provisioner, faults).0;
      after.storage == map[] && (after.profiles == w.profiles
        <==> !Orphaned(Progress(w, map[]), Plan(a, provisioner), faults))
  {
    hide PerformAll, Plan, Calm, UndoAll, UndoAllLands, Orphaned, ClearLands;
    var s := PerformAll(Progress(w, map[]), Plan(a, provisioner), faults).0;
    FailedActivation(w, a, provisioner, faults);
    CalmUndo(s, faults);
    CalmClear(UndoAll(s, faults), ALL_KEYS, faults);
    ClearAll(UndoAll(s, faults), faults);
  }

  lemma CalmUndo(s: Progress, faults: Faults)
    requires Calm(s.world, faults)
    ensures UndoAllLands(s, faults) && Calm(UndoAll(s, faults), faults)
  {
  }

  lemma {:induction false} CalmClear(w: World, keys: seq<Key>, faults: Faults)
    requires Calm(w, faults)
    ensures w.Clear(keys, faults).1
    decreases keys
  {
    if keys != [] { CalmClear(w.Delete(keys[0], faults).0, keys[1..], faults); }
  }

  ////////// A returned activation is complete //////////

  /**
    A protocol's credential is held by the service under a stored handle, or stored itself, or absent; never
    two of these.
   */
  predicate Settled(w: World, handles: map<Protocol, string>, p: Protocol, text: Option<string>, provisioner: bool) {
    if provisioner && text.Some? then
      p in handles && HandleKey(p) in w.storage && w.storage[HandleKey(p)] == handles[p] && handles[p] in w.profiles
      && TextKey(p) !in w.storage
    else
      p !in handles && HandleKey(p) !in w.storage
      && if provisioner || text.None? || text.value == "" then TextKey(p) !in w.storage
         else TextKey(p) in w.storage && w.storage[TextKey(p)] == text.value
  }

  /** Nothing but the two keys of one protocol and its handle changed. */
  predicate OnlyFor(p: Protocol, s: Progress, t: Progress) {
    (forall k :: k != TextKey(p) && k != HandleKey(p) ==>
      (k in t.world.storage <==> k in s.world.storage)
      && (k in s.world.storage && k in t.world.storage ==> t.world.storage[k] == s.world.storage[k]))
    && (forall q :: q != p ==>
        (q in t.handles <==> q in s.handles) && (q in s.handles && q in t.handles ==> t.handles[q] == s.handles[q]))
    && s.world.profiles <= t.world.profiles
  }

  lemma WireGuardSettles(s: Progress, text: Option<string>, provisioner: bool, faults: Faults)
    requires WireGuard !in s.handles && PerformAll(s, WireGuardPlan(text, provisioner), faults).1
    ensures var t := PerformAll(s, WireGuardPlan(text, provisioner), faults).0;
      Settled(t.world, t.handles, WireGuard, text, provisioner) && OnlyFor(WireGuard, s, t)
  {
    hide PerformAll;
    if provisioner && text.Some? {
      var first := [ProvisionFor(WireGuard), SaveHandle(WireGuard)];
      assert WireGuardPlan(text, provisioner) == first + [DeleteKey(WireGuardText)];
      PerformConcat(s, first, [DeleteKey(WireGuardText)], faults);
      PerformTwo(s, ProvisionFor(WireGuard), SaveHandle(WireGuard), faults);
      PerformOne(PerformAll(s, first, faults).0, DeleteKey(WireGuardText), faults);
    } else {
      PerformTwo(s, TextAction(WireGuardText, text), DeleteKey(WireGuardHandle), faults);
    }
  }

  lemma ProtocolSettles(s: Progress, p: Protocol, text: Option<string>, provisioner: bool, faults: Faults)
    requires p !in s.handles && PerformAll(s, ProtocolPlan(p, text, provisioner), faults).1
    ensures var t := PerformAll(s, ProtocolPlan(p, text, provisioner), faults).0;
      Settled(t.world, t.handles, p, text, provisioner) && OnlyFor(p, s, t)
  {
    hide PerformAll;
    var action := TextAction(TextKey(p), if provisioner then None else text);
    var last := if provisioner && text.Some? then [ProvisionFor(p), SaveHandle(p)] else [DeleteKey(HandleKey(p))];
    PerformConcat(s, [action], last, faults);
    PerformOne(s, action, faults);
    var t := Perform(s, action, faults).0;
    if provisioner && text.Some? {
      PerformTwo(t, ProvisionFor(p), SaveHandle(p), faults);
    } else {
      PerformOne(t, DeleteKey(HandleKey(p)), faults);
    }
  }

  lemma StaysSettled(s: Progress, t: Progress, p: Protocol, q: Protocol, text: Option<string>, provisioner: bool)
    requires Settled(s.world, s.handles, q, text, provisioner) && OnlyFor(p, s, t) && p != q
    ensures Settled(t.world, t.handles, q, text, provisioner)
  {
  }

  /** The three parts leave each protocol settled, and the activation key as it was written. */
  lemma PartsSettle(s: Progress, a: Activation, provisioner: bool, faults: Faults)
    requires s.handles == map[]
    requires PerformAll(s, WireGuardPlan(a.credentials.wireguard, provisioner), faults).1
    requires PerformAll(PerformAll(s, WireGuardPlan(a.credentials.wireguard, provisioner), faults).0,
                        ProtocolPlan(AmneziaWg, a.credentials.amneziawg, provisioner), faults).1
    requires PerformAll(PerformAll(PerformAll(s, WireGuardPlan(a.credentials.wireguard, provisioner), faults).0,
                                   ProtocolPlan(AmneziaWg, a.credentials.amneziawg, provisioner), faults).0,
                        ProtocolPlan(VlessReality, a.credentials.vless, provisioner), faults).1
    ensures var s1 := PerformAll(s, WireGuardPlan(a.credentials.wireguard, provisioner), faults).0;
      var s2 := PerformAll(s1, ProtocolPlan(AmneziaWg, a.credentials.amneziawg, provisioner), faults).0;
      var s3 := PerformAll(s2, ProtocolPlan(VlessReality, a.credentials.vless, provisioner), faults).0;
      (forall p :: Settled(s3.world, s3.handles, p, a.credentials.Of(p), provisioner))
      && (ActivationKeyText in s.world.storage ==>
          ActivationKeyText in s3.world.storage
            && s3.world.storage[ActivationKeyText] == s.world.storage[ActivationKeyText])
  {
    hide PerformAll, WireGuardPlan, ProtocolPlan, Settled;
    var s1 := PerformAll(s, WireGuardPlan(a.credentials.wireguard, provisioner), faults).0;
    var s2 := PerformAll(s1, ProtocolPlan(AmneziaWg, a.credentials.amneziawg, provisioner), faults).0;
    var s3 := PerformAll(s2, ProtocolPlan(VlessReality, a.credentials.vless, provisioner), faults).0;
    WireGuardSettles(s, a.credentials.wireguard, provisioner, faults);
    ProtocolSettles(s1, AmneziaWg, a.credentials.amneziawg, provisioner, faults);
    ProtocolSettles(s2, VlessReality, a.credentials.vless, provisioner, faults);
    StaysSettled(s1, s2, AmneziaWg, WireGuard, a.credentials.wireguard, provisioner);
    StaysSettled(s2, s3, VlessReality, WireGuard, a.credentials.wireguard, provisioner);
    StaysSettled(s2, s3, VlessReality, AmneziaWg, a.credentials.amneziawg, provisioner);
    forall p: Protocol ensures Settled(s3.world, s3.handles, p, a.credentials.Of(p), provisioner) {
      assert p == WireGuard || p == AmneziaWg || p == VlessReality;
    }
  }

  /**
    After an activation that returned, whatever was stored before: the key and the session are there, and
    of each protocol either the handle of a profile the service newly holds, or the text, or neither.
   */
  lemma ReturnedActivation(w: World, a: Activation, provisioner: bool, faults: Faults)
    requires Activated(w, a, provisioner, faults).1
    ensures var after := Activated(w, a, provisioner, faults).0;
      var handles := PerformAll(Progress(w, map[]), Plan(a, provisioner), faults).0.handles;
      Session in after.storage && after.storage[Session] == a.session
      && ActivationKeyText in after.storage && after.storage[ActivationKeyText] == a.key
      && (forall p :: Settled(after, handles, p, a.credentials.Of(p), provisioner))
      && after.profiles == w.profiles + handles.Values
      && (forall p :: p in handles ==> handles[p] !in w.profiles)
  {
    hide PerformAll, Plan, WireGuardPlan, ProtocolPlan, ProvisionsOnce;
    var start := Progress(w, map[]);
    PlanProvisionsOnce(a, provisioner);
    StartTracks(w);
    PlanTracks(w.profiles, start, Plan(a, provisioner), faults);
    PlanInParts(start, a, provisioner, faults);
    var s := Perform(start, WriteKey(ActivationKeyText, a.key), faults).0;
    PartsSettle(s, a, provisioner, faults);
  }

  ////////// The session is written last //////////

  lemma {:induction false} SessionUntouched(s: Progress, plan: seq<Action>, faults: Faults)
    requires forall i ::
      0 <= i < |plan| ==> plan[i] != DeleteKey(Session) && (plan[i].WriteKey? ==> plan[i].key != Session)
    ensures var w := PerformAll(s, plan, faults).0.world;
      (Session in w.storage <==> Session in s.world.storage)
      && (Session in s.world.storage ==> w.storage[Session] == s.world.storage[Session])
    decreases plan
  {
    if plan != [] { SessionUntouched(Perform(s, plan[0], faults).0, plan[1..], faults); }
  }

  /**
    Whenever an activation is cut short before its last call, the stored session is still the one from before,
    if any.
   */
  lemma SessionWrittenLast(w: World, a: Activation, provisioner: bool, faults: Faults, n: nat)
    requires n < |Plan(a, provisioner)|
    ensures var cut := PerformAll(Progress(w, map[]), Plan(a, provisioner)[..n], faults).0.world;
      (Session in cut.storage <==> Session in w.storage)
        && (Session in w.storage ==> cut.storage[Session] == w.storage[Session])
  {
    hide PerformAll;
    SessionUntouched(Progress(w, map[]), Plan(a, provisioner)[..n], faults);
  }

  ////////// Signing out //////////

  /** The handles the storage knows. */
  function Known(w: World): set<string> {
    set p: Protocol | p in {WireGuard, AmneziaWg, VlessReality} && HandleKey(p) in w.storage :: w.storage[HandleKey(p)]
  }

  /** No handle was forgotten: it is still stored, or its profile is gone. */
  predicate Remembers(before: World, w: World) {
    (forall p :: HandleKey(p) in before.storage ==>
      (HandleKey(p) in w.storage && w.storage[HandleKey(p)] == before.storage[HandleKey(p)])
      || before.storage[HandleKey(p)] !in w.profiles)
    && (forall p ::
        HandleKey(p) in w.storage ==>
          HandleKey(p) in before.storage && w.storage[HandleKey(p)] == before.storage[HandleKey(p)])
    && before.profiles - Known(before) <= w.profiles <= before.profiles
  }

  lemma ForgetRemembers(before: World, w: World, p: Protocol, provisioner: bool, faults: Faults)
    requires Remembers(before, w)
    ensures var (after, ok) := Forget(w, p, provisioner, faults);
      Remembers(before, after) && after.storage == w.storage
      && (forall q ::
          HandleKey(q) in w.storage && w.storage[HandleKey(q)] !in w.profiles
          ==> w.storage[HandleKey(q)] !in after.profiles)
      && (ok && provisioner && HandleKey(p) in w.storage ==> w.storage[HandleKey(p)] !in after.profiles)
  {
    if HandleKey(p) in w.storage {
      assert before.storage[HandleKey(p)] in Known(before);
    }
  }

  /** One sign-out, wherever it fails, never forgets the handle of a profile that still exists. */
  lemma SignOutRemembers(before: World, w: World, faults: Faults)
    requires Remembers(before, w)
    ensures var (after, ok) := SignedOut(w, true, faults);
      Remembers(before, after)
      && (ok ==> after.storage == map[] && after.profiles == before.profiles - Known(before))
  {
    hide Remembers, Forget;
    var (w1, ok1) := Forget(w, WireGuard, true, faults);
    ForgetRemembers(before, w, WireGuard, true, faults);
    if ok1 {
      var (w2, ok2) := Forget(w1, AmneziaWg, true, faults);
      ForgetRemembers(before, w1, AmneziaWg, true, faults);
      if ok2 {
        var (w3, ok3) := Forget(w2, VlessReality, true, faults);
        ForgetRemembers(before, w2, VlessReality, true, faults);
        if ok3 {
          forall p | HandleKey(p) in w3.storage ensures w3.storage[HandleKey(p)] !in w3.profiles {
            assert p == WireGuard || p == AmneziaWg || p == VlessReality;
          }
          ClearRemembers(before, w3, faults);
        }
      }
    }
  }

  /** Once the profiles of all known handles are gone, the handles may be forgotten. */
  lemma ClearRemembers(before: World, w: World, faults: Faults)
    requires Remembers(before, w) && forall p :: HandleKey(p) in w.storage ==> w.storage[HandleKey(p)] !in w.profiles
    ensures var (after, ok) := w.Clear(ALL_KEYS, faults);
      Remembers(before, after) && after.profiles == before.profiles - Known(before) && (ok ==> after.storage == map[])
  {
    ClearWorks(w, ALL_KEYS, faults);
    ClearAll(w, faults);
    forall x | x in Known(before) ensures x !in w.profiles {
      var p :| p in {WireGuard, AmneziaWg, VlessReality} && HandleKey(p) in before.storage
        && before.storage[HandleKey(p)] == x;
    }
  }

  /** Repeated attempts to sign out, each with its own faults. */
  function SignOuts(w: World, attempts: seq<Faults>): World {
    if attempts == [] then w
    else SignedOut(SignOuts(w, attempts[..|attempts| - 1]).(clock := 0), true, attempts[|attempts| - 1]).0
  }

  lemma {:induction false} SignOutsRemember(w: World, attempts: seq<Faults>)
    ensures Remembers(w, SignOuts(w, attempts))
  {
    hide Remembers, SignedOut;
    if attempts == [] {
      RemembersItself(w);
    } else {
      var before := SignOuts(w, attempts[..|attempts| - 1]);
      SignOutsRemember(w, attempts[..|attempts| - 1]);
      SameMemory(w, before, before.(clock := 0));
      SignOutRemembers(w, before.(clock := 0), attempts[|attempts| - 1]);
    }
  }

  lemma RemembersItself(w: World)
    ensures Remembers(w, w)
  {
  }

  lemma SameMemory(before: World, w: World, v: World)
    requires Remembers(before, w) && v.storage == w.storage && v.profiles == w.profiles
    ensures Remembers(before, v)
  {
  }

  lemma CalmSignOut(w: World, provisioner: bool, faults: Faults)
    requires Calm(w, faults)
    ensures SignedOut(w, provisioner, faults).1
  {
    hide Calm, Forget;
    CalmForget(w, WireGuard, provisioner, faults);
    var w1 := Forget(w, WireGuard, provisioner, faults).0;
    CalmForget(w1, AmneziaWg, provisioner, faults);
    var w2 := Forget(w1, AmneziaWg, provisioner, faults).0;
    CalmForget(w2, VlessReality, provisioner, faults);
    CalmClear(Forget(w2, VlessReality, provisioner, faults).0, ALL_KEYS, faults);
  }

  lemma CalmForget(w: World, p: Protocol, provisioner: bool, faults: Faults)
    requires Calm(w, faults)
    ensures Forget(w, p, provisioner, faults).1 && Calm(Forget(w, p, provisioner, faults).0, faults)
  {
  }

  /**
    Signing out can be repeated: after any number of attempts that failed anywhere, one that meets no
    fault deletes every profile whose handle was known at first, no other, and all account data.
   */
  lemma SignOutRetryable(w: World, attempts: seq<Faults>, faults: Faults)
    requires forall i :: 0 <= i < |faults| ==> !faults[i].throws
    ensures var (after, ok) := SignedOut(SignOuts(w, attempts).(clock := 0), true, faults);
      ok && after.storage == map[] && after.profiles == w.profiles - Known(w)
  {
    hide Remembers, SignedOut;
    SignOutsRemember(w, attempts);
    var v := SignOuts(w, attempts);
    SameMemory(w, v, v.(clock := 0));
    CalmSignOut(v.(clock := 0), true, faults);
    SignOutRemembers(w, v.(clock := 0), faults);
  }

  ////////// What is forgotten //////////

  /** A handle that was known is known no more, although the service still holds its profile. */
  predicate Forgets(before: World, after: World) {
    exists h :: h in Known(before) && h in after.profiles && h !in Known(after)
  }

  /**
    When no call fails, restoring forgets a profile exactly if there is a damaged session and a known profile
    is held.
   */
  lemma RestoreForgets(w: World, decodes: bool, faults: Faults)
    requires Calm(w, faults)
    ensures var after := Restored(w, decodes, faults).0;
      (Forgets(w, after) <==> !decodes && Session in w.storage && Known(w) * w.profiles != {})
      && (Known(after) == Known(w) <==> decodes || Session !in w.storage || Known(w) == {})
      && after.profiles == w.profiles
  {
    hide Calm, Known;
    CalmRead(w, faults);
    if Session in w.storage && !decodes {
      var w1 := w.Read(Session, faults).0;
      CalmClear(w1, ALL_KEYS, faults);
      ClearAll(w1, faults);
      NothingKnown(w1.Clear(ALL_KEYS, faults).0);
      if h :| h in Known(w) * w.profiles { assert h in Known(w) && h in w.profiles; }
    } else {
      SameKnown(w, Restored(w, decodes, faults).0);
    }
  }

  lemma NothingKnown(w: World)
    requires w.storage == map[]
    ensures Known(w) == {}
  {
  }

  lemma SameKnown(w: World, v: World)
    requires w.storage == v.storage
    ensures Known(w) == Known(v)
  {
  }

  lemma CalmRead(w: World, faults: Faults)
    requires Calm(w, faults)
    ensures !w.Now(faults).throws && Calm(w.Read(Session, faults).0, faults)
  {
  }

  /**
    Activating over an old session keeps the old profiles, but replaces or deletes their handles: it forgets
    a profile exactly if a known one was held.
   */
  lemma ReactivationForgets(w: World, a: Activation, provisioner: bool, faults: Faults)
    requires Activated(w, a, provisioner, faults).1
    ensures var after := Activated(w, a, provisioner, faults).0;
      w.profiles <= after.profiles && Known(after) !! w.profiles
      && (Forgets(w, after) <==> Known(w) * w.profiles != {})
  {
    hide Activated, PerformAll, Plan;
    ReturnedActivation(w, a, provisioner, faults);
    var after := Activated(w, a, provisioner, faults).0;
    NewlyKnown(w, a, provisioner, faults);
    if h :| h in Known(w) * w.profiles { assert h in Known(w) && h in after.profiles && h !in Known(after); }
    if h :| h in Known(w) && h in after.profiles && h !in Known(after) { assert h in Known(w) * w.profiles; }
  }

  /** The handles known after an activation are exactly those it drew. */
  lemma NewlyKnown(w: World, a: Activation, provisioner: bool, faults: Faults)
    requires Activated(w, a, provisioner, faults).1
    ensures Known(Activated(w, a, provisioner, faults).0)
      == PerformAll(Progress(w, map[]), Plan(a, provisioner), faults).0.handles.Values
  {
    hide Activated, PerformAll, Plan;
    ReturnedActivation(w, a, provisioner, faults);
    var after := Activated(w, a, provisioner, faults).0;
    var handles := PerformAll(Progress(w, map[]), Plan(a, provisioner), faults).0.handles;
    forall p: Protocol ensures HandleKey(p) in after.storage <==> p in handles {
      assert Settled(after, handles, p, a.credentials.Of(p), provisioner);
    }
    forall p | p in handles ensures handles[p] in Known(after) {
      assert Settled(after, handles, p, a.credentials.Of(p), provisioner);
      assert p in {WireGuard, AmneziaWg, VlessReality};
    }
    forall h | h in Known(after) ensures h in handles.Values {
      var p :| p in {WireGuard, AmneziaWg, VlessReality} && HandleKey(p) in after.storage
        && after.storage[HandleKey(p)] == h;
      assert Settled(after, handles, p, a.credentials.Of(p), provisioner);
    }
  }

  /**
    An activation that throws over an old session, and is rolled back without a fault, forgets a profile exactly
    if a known one was held, or the orphan it left has a handle that was stored before.
   */
  lemma RollbackForgets(w: World, a: Activation, provisioner: bool, faults: Faults)
    requires !Activated(w, a, provisioner, faults).1
    requires Calm(PerformAll(Progress(w, map[]), Plan(a, provisioner), faults).0.world, faults)
    ensures var (start, after) := (Progress(w, map[]), Activated(w, a, provisioner, faults).0);
      (Forgets(w, after) <==> Known(w) * (w.profiles + Orphan(start, Plan(a, provisioner), faults)) != {})
      && (!Orphaned(start, Plan(a, provisioner), faults) ==> (Forgets(w, after) <==> Known(w) * w.profiles != {}))
  {
    hide PerformAll, Plan, Calm, UndoAll, UndoAllLands, Orphan, Orphaned, Known;
    var after := Activated(w, a, provisioner, faults).0;
    LeftProfiles(w, a, provisioner, faults);
    CalmUndo(PerformAll(Progress(w, map[]), Plan(a, provisioner), faults).0, faults);
    OrphanExactly(Progress(w, map[]), Plan(a, provisioner), faults);
    AllOrNothing(w, a, provisioner, faults);
    NothingKnown(after);
    ForgetsAll(w, after);
  }

  lemma ForgetsAll(w: World, after: World)
    requires Known(after) == {}
    ensures Forgets(w, after) <==> Known(w) * after.profiles != {}
  {
    hide Known;
    if h :| h in Known(w) * after.profiles { assert h in Known(w) && h in after.profiles; }
    if h :| h in Known(w) && h in after.profiles { assert h in Known(w) * after.profiles; }
  }

  /**
    When no call fails, signing out deletes all account data, and forgets a profile exactly if there is no
    provisioner to delete a known one that is held.
   */
  lemma SignOutForgets(w: World, provisioner: bool, faults: Faults)
    requires Calm(w, faults)
    ensures var (after, ok) := SignedOut(w, provisioner, faults);
      ok && after.storage == map[] && after.profiles == (if provisioner then w.profiles - Known(w) else w.profiles)
      && (Forgets(w, after) <==> !provisioner && Known(w) * w.profiles != {})
  {
    hide Calm, Known, Remembers, SignedOut;
    var after := SignedOut(w, provisioner, faults).0;
    CalmSignOut(w, provisioner, faults);
    if provisioner {
      RemembersItself(w);
      SignOutRemembers(w, w, faults);
    } else {
      IdleSignOut(w, faults);
    }
    NothingKnown(after);
    ForgetsAll(w, after);
  }

  /** Without a provisioner, signing out leaves the service alone. */
  lemma IdleSignOut(w: World, faults: Faults)
    ensures var (after, ok) := SignedOut(w, false, faults);
      after.profiles == w.profiles && (ok ==> after.storage == map[])
  {
    hide Forget;
    var w1 := Forget(w, WireGuard, false, faults).0;
    var w2 := Forget(w1, AmneziaWg, false, faults).0;
    IdleForget(w, WireGuard, faults);
    IdleForget(w1, AmneziaWg, faults);
    IdleForget(w2, VlessReality, faults);
    ClearAll(Forget(w2, VlessReality, false, faults).0, faults);
  }

  lemma IdleForget(w: World, p: Protocol, faults: Faults)
    ensures Forget(w, p, false, faults).0.profiles == w.profiles
  {
  }

  ////////// Concretely //////////

  const SIGNED_OUT := World(map[], {}, 0)

  const ONE_CREDENTIAL := Activation("key", "session", Credentials(Some("text"), None, None))

  const WORKS := Fault(false, false, "handle")

  lemma FirstAction(s: Progress, plan: seq<Action>, faults: Faults)
    requires plan != []
    ensures var (after, ok) := Perform(s, plan[0], faults);
      PerformAll(s, plan, faults) == (if ok then PerformAll(after, plan[1..], faults) else (after, false))
    ensures var (after, ok) := Perform(s, plan[0], faults);
      ok ==> Orphaned(s, plan, faults) == Orphaned(after, plan[1..], faults)
  {
  }

  lemma OnePlan()
    ensures var plan := Plan(ONE_CREDENTIAL, true);
      |plan| > 3 && plan[0] == WriteKey(ActivationKeyText, "key") && plan[1] == ProvisionFor(WireGuard)
        && plan[2] == SaveHandle(WireGuard)
  {
  }

  lemma FirstActions(s: Progress, faults: Faults)
    ensures PerformAll(s, Plan(ONE_CREDENTIAL, true), faults) ==
      var r1 := Perform(s, WriteKey(ActivationKeyText, "key"), faults);
      var r2 := Perform(r1.0, ProvisionFor(WireGuard), faults);
      var r3 := Perform(r2.0, SaveHandle(WireGuard), faults);
      if !r1.1 then r1 else if !r2.1 then r2 else if !r3.1 then r3
        else PerformAll(r3.0, Plan(ONE_CREDENTIAL, true)[3..], faults)
    ensures var r1 := Perform(s, WriteKey(ActivationKeyText, "key"), faults);
      r1.1 ==>
        Orphaned(s, Plan(ONE_CREDENTIAL, true), faults) == Orphaned(r1.0, Plan(ONE_CREDENTIAL, true)[1..], faults)
    ensures Plan(ONE_CREDENTIAL, true)[1..] != [] && Plan(ONE_CREDENTIAL, true)[1..][0] == ProvisionFor(WireGuard)
  {
    hide Perform, PerformAll, Orphaned, Plan;
    OnePlan();
    var plan := Plan(ONE_CREDENTIAL, true);
    var r1 := Perform(s, plan[0], faults);
    var r2 := Perform(r1.0, plan[1], faults);
    assert plan[1..][1..] == plan[2..] && plan[2..][1..] == plan[3..];
    FirstAction(s, plan, faults);
    FirstAction(r1.0, plan[1..], faults);
    FirstAction(r2.0, plan[2..], faults);
  }

  /** A provisioning call that stores the profile and then throws: the activation fails and the profile stays. */
  lemma OrphanStays()
    ensures var faults := [WORKS, Fault(true, true, "handle")];
      !Activated(SIGNED_OUT, ONE_CREDENTIAL, true, faults).1
      && Activated(SIGNED_OUT, ONE_CREDENTIAL, true, faults).0.profiles != SIGNED_OUT.profiles
  {
    hide PerformAll, Plan, UndoAll, UndoAllLands, ClearLands;
    var faults := [WORKS, Fault(true, true, "handle")];
    FirstActions(Progress(SIGNED_OUT, map[]), faults);
    FailedActivation(SIGNED_OUT, ONE_CREDENTIAL, true, faults);
  }

  const UNSAVED := [WORKS, WORKS, Fault(true, false, ""), Fault(true, false, "")]

  lemma UnsavedAttempt()
    ensures var (s, ok) := PerformAll(Progress(SIGNED_OUT, map[]), Plan(ONE_CREDENTIAL, true), UNSAVED);
      !ok && s.world.clock == 3 && s.handles == map[WireGuard := "handle"]
  {
    hide PerformAll, Plan;
    FirstActions(Progress(SIGNED_OUT, map[]), UNSAVED);
  }

  /** Saving the handle fails, and then deleting the profile fails as well: the profile stays. */
  lemma UndeletedStays()
    ensures !Activated(SIGNED_OUT, ONE_CREDENTIAL, true, UNSAVED).1
      && Activated(SIGNED_OUT, ONE_CREDENTIAL, true, UNSAVED).0.profiles != SIGNED_OUT.profiles
  {
    hide PerformAll, Plan, ClearLands, Orphaned;
    UnsavedAttempt();
    FailedActivation(SIGNED_OUT, ONE_CREDENTIAL, true, UNSAVED);
  }

  const SIGNED_IN := World(map[Session := "damaged", WireGuardHandle := "handle"], {"handle"}, 0)

  /** A damaged session and one stored handle: restoring forgets the profile, which the service goes on holding. */
  lemma DamagedSessionForgets()
    ensures Forgets(SIGNED_IN, Restored(SIGNED_IN, false, []).0)
  {
    hide Restored, Known;
    RestoreForgets(SIGNED_IN, false, []);
    assert "handle" in Known(SIGNED_IN) * SIGNED_IN.profiles by { SignedInKnows(); }
  }

  lemma SignedInKnows()
    ensures "handle" in Known(SIGNED_IN)
  {
    assert SIGNED_IN.storage[HandleKey(WireGuard)] == "handle" && WireGuard in {WireGuard, AmneziaWg, VlessReality};
  }

  /** Without faults, a plan that provisions nothing goes through. */
  lemma {:induction false} PlainPlanWorks(s: Progress, plan: seq<Action>)
    requires forall i :: 0 <= i < |plan| ==> !plan[i].ProvisionFor? && !plan[i].SaveHandle?
    ensures PerformAll(s, plan, []).1
    decreases plan
  {
    if plan != [] { PlainPlanWorks(Perform(s, plan[0], []).0, plan[1..]); }
  }

  /** Activating again, here without a provisioner, forgets the profile of the handle stored before. */
  lemma NewSessionForgets()
    ensures Activated(SIGNED_IN, ONE_CREDENTIAL, false, []).1
    ensures Forgets(SIGNED_IN, Activated(SIGNED_IN, ONE_CREDENTIAL, false, []).0)
  {
    hide PerformAll, Known, Forgets;
    PlainPlanWorks(Progress(SIGNED_IN, map[]), Plan(ONE_CREDENTIAL, false));
    ReactivationForgets(SIGNED_IN, ONE_CREDENTIAL, false, []);
    assert "handle" in Known(SIGNED_IN) * SIGNED_IN.profiles by { SignedInKnows(); }
  }

  /** Signing out without a provisioner forgets the profile as well. */
  lemma IdleSignOutForgets()
    ensures Forgets(SIGNED_IN, SignedOut(SIGNED_IN, false, []).0)
  {
    hide SignedOut, Known, Forgets;
    SignOutForgets(SIGNED_IN, false, []);
    assert "handle" in Known(SIGNED_IN) * SIGNED_IN.profiles by { SignedInKnows(); }
  }

  const FIRST_FAILS := [Fault(true, false, "")]

  lemma FirstWriteFails(provisioner: bool)
    ensures PerformAll(Progress(SIGNED_IN, map[]), Plan(ONE_CREDENTIAL, provisioner), FIRST_FAILS)
      == (Progress(SIGNED_IN.(clock := 1), map[]), false)
    ensures !Orphaned(Progress(SIGNED_IN, map[]), Plan(ONE_CREDENTIAL, provisioner), FIRST_FAILS)
  {
    assert Plan(ONE_CREDENTIAL, provisioner)[0] == WriteKey(ActivationKeyText, "key");
  }

  /** So does an activation whose very first call fails. */
  lemma FailedAgainForgets(provisioner: bool)
    ensures !Activated(SIGNED_IN, ONE_CREDENTIAL, provisioner, FIRST_FAILS).1
    ensures Forgets(SIGNED_IN, Activated(SIGNED_IN, ONE_CREDENTIAL, provisioner, FIRST_FAILS).0)
  {
    hide PerformAll, Plan, Orphaned, Orphan, Known, Forgets;
    FirstWriteFails(provisioner);
    RollbackForgets(SIGNED_IN, ONE_CREDENTIAL, provisioner, FIRST_FAILS);
    assert "handle" in Known(SIGNED_IN) * SIGNED_IN.profiles by { SignedInKnows(); }
  }
}
