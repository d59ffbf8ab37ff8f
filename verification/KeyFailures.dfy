/** Runs that reach the exact limits of the registry's promises. */
module KeyFailures {
  import opened Prelude
  import opened KeyEntry
  import opened KeyStore
  import opened KeyStoreLaws
  import opened KeyRegistry
  import opened KeyDurability
  import opened KeyPromises

  // ----- a leftover survives a full replace

  /** A store holding one key, confirmed at time 5. */
  function OneKeyDisk(e: Entry): Disk {
    Disk(GoodMeta(Meta(1, "1", 5, 5)), map[RecordKey(1, e.id) := Seal(1, e)])
  }

  function OneKeyStore(e: Entry): Store {
    Store(OneKeyDisk(e), 1, 5)
  }

  function Emptied(version: string, s: Store): Provider {
    Provider(Registry(map[], map[], version), Link(true, s, false, false, false))
  }

  const REFUSE_ALL := LoadOptions(0, (x: Entry) => false)

  function BeforeStart(e: Entry): World {
    World(OneKeyDisk(e), None, {Live(OneKeyDisk(e))}, map[], {5})
  }

  function Started(e: Entry): World {
    var s := OneKeyStore(e);
    World(s.disk, Some(Emptied("1", s)), {Live(s.disk), View("1", map[])}, Skipped(Live(s.disk), map[]), {5})
  }

  function Replaced(e: Entry): World {
    var t := WithMeta(OneKeyStore(e), "2", 7, 7);
    World(t.disk, Some(Emptied("2", t)), {View("2", map[])}, Still(Started(e).left, Live(t.disk)), {5, 7})
  }

  lemma OneRecordListed(e: Entry)
    requires ValidEntry(e)
    ensures var keys := [PersistedKey(e.id, Some(e))]; Lists(OneKeyDisk(e).recs, 1, keys) && IdsOf(keys) == {e.id}
  {
    WireRoundTrip(e);
    var pk := PersistedKey(e.id, Some(e));
    assert EntryAt(OneKeyDisk(e).recs, RecordKey(1, e.id)) == Some(e);
    assert [pk][..0] == [] && IdsOf([pk]) == {e.id};
  }

  lemma SkippedAndLeftBehind(e: Entry)
    requires ValidEntry(e)
    ensures WarmStarted(Boot(OneKeyDisk(e)), REFUSE_ALL, 6, Emptied("1", OneKeyStore(e)), Installed({e.id}))
  {
    var d, s, pk := OneKeyDisk(e), OneKeyStore(e), PersistedKey(e.id, Some(e));
    var snap := Snapshot("1", 5, 5, [pk]);
    OneRecordListed(e);
    assert WasLoaded(Store(d, 0, 0), s, snap);
    assert Accounted(pk, REFUSE_ALL, 6, map[], {e.id});
    assert WarmStart(Boot(d), s, snap, REFUSE_ALL, 6, Emptied("1", s), Installed({e.id}));
  }

  lemma EmptyReplaceTouches(s: Store)
    requires s.gen > 0
    ensures Mutated(Emptied("1", s), ReplaceAll("2", []), 7, Emptied("2", WithMeta(s, "2", 7, 7)), Done)
  {
  }

  lemma StartStep(e: Entry)
    requires ValidEntry(e)
    ensures Step(BeforeStart(e), Restart(REFUSE_ALL, 6, Installed({e.id}), false), Started(e))
  {
    SkippedAndLeftBehind(e);
    assert RestartStep(BeforeStart(e), REFUSE_ALL, 6, Installed({e.id}), false, Emptied("1", OneKeyStore(e)),
                       Started(e));
  }

  lemma ReplaceStep(e: Entry)
    ensures Step(Started(e), Mutate(ReplaceAll("2", []), 7, Done, false), Replaced(e))
  {
    var s := OneKeyStore(e);
    EmptyReplaceTouches(s);
    assert MutateStep(Started(e), Emptied("1", s), ReplaceAll("2", []), 7, Done, false,
                      Emptied("2", WithMeta(s, "2", 7, 7)), Replaced(e));
  }

  /**
   * The exception of a full replace is reachable with any key: a warm start skips the key (its policy no longer
   * admits it) and the cleanup fails; key-sync then pushes an empty registry, which is acknowledged; the key's
   * record is still live on disk, so a later start under a policy that admits it restores the key.
   */
  lemma LeftoverSurvivesReplaceAll(e: Entry)
    requires ValidEntry(e)
    ensures Run([BeforeStart(e), Started(e), Replaced(e)],
                [Restart(REFUSE_ALL, 6, Installed({e.id}), false), Mutate(ReplaceAll("2", []), 7, Done, false)])
    ensures Replaced(e).proc.value.reg.byID == map[] && Live(Replaced(e).disk).entries == map[e.id := e]
  {
    StartStep(e);
    ReplaceStep(e);
    OneKeyIsLive(e);
  }

  lemma OneKeyIsLive(e: Entry)
    requires ValidEntry(e)
    ensures Init(BeforeStart(e)) && Live(OneKeyDisk(e)).entries == map[e.id := e] == Live(Replaced(e).disk).entries
  {
    WireRoundTrip(e);
    var recs := OneKeyDisk(e).recs;
    assert EntryAt(recs, RecordKey(1, e.id)) == Some(e);
    assert Readable(recs, 1) == map[e.id := e];
  }

  // ----- a leftover takes the place of an acknowledged key

  lemma OneMoreStep(ws: seq<World>, evs: seq<Event>, ev: Event, w: World)
    requires Run(ws, evs) && Step(ws[|evs|], ev, w)
    ensures Run(ws + [w], evs + [ev])
  {
    var xs, es := ws + [w], evs + [ev];
    forall i | 0 <= i < |es| ensures Step(xs[i], es[i], xs[i + 1]) {
      if i < |evs| { assert xs[i] == ws[i] && es[i] == evs[i] && xs[i + 1] == ws[i + 1]; }
    }
  }

  lemma FourSteps(w0: World, w1: World, w2: World, w3: World, w4: World, e0: Event, e1: Event, e2: Event, e3: Event)
    requires Init(w0) && Step(w0, e0, w1) && Step(w1, e1, w2) && Step(w2, e2, w3) && Step(w3, e3, w4)
    ensures Run([w0, w1, w2, w3, w4], [e0, e1, e2, e3])
  {
    assert Run([w0], []);
    OneMoreStep([w0], [], e0, w1);
    assert [w0] + [w1] == [w0, w1] && [] + [e0] == [e0];
    OneMoreStep([w0, w1], [e0], e1, w2);
    assert [w0, w1] + [w2] == [w0, w1, w2] && [e0] + [e1] == [e0, e1];
    OneMoreStep([w0, w1, w2], [e0, e1], e2, w3);
    assert [w0, w1, w2] + [w3] == [w0, w1, w2, w3] && [e0, e1] + [e2] == [e0, e1, e2];
    OneMoreStep([w0, w1, w2, w3], [e0, e1, e2], e3, w4);
    assert [w0, w1, w2, w3] + [w4] == [w0, w1, w2, w3, w4] && [e0, e1, e2] + [e3] == [e0, e1, e2, e3];
  }

  const ADMIT_ALL := LoadOptions(0, (x: Entry) => true)

  /** The leftover `a` and the key `b` that was set while `a` was not in memory, under the same hash. */
  function TwoKeyDisk(a: Entry, b: Entry): Disk {
    Disk(GoodMeta(Meta(1, "2", 7, 5)), map[RecordKey(1, a.id) := Seal(1, a), RecordKey(1, b.id) := Seal(1, b)])
  }

  function TwoKeyStore(a: Entry, b: Entry): Store {
    Store(TwoKeyDisk(a, b), 1, 5)
  }

  function Holding(version: string, e: Entry, s: Store): Provider {
    Provider(Registry(map[e.keyHash := e], map[e.id := e], version), Link(true, s, false, false, false))
  }

  function Acknowledged(a: Entry, b: Entry): World {
    var s := TwoKeyStore(a, b);
    World(s.disk, Some(Holding("2", b, s)), {View("2", map[b.id := b])}, Still(Started(a).left, Live(s.disk)), {5})
  }

  function Crashed(a: Entry, b: Entry): World {
    Acknowledged(a, b).(proc := None)
  }

  function OnlyFirst(a: Entry): Store {
    Store(Disk(GoodMeta(Meta(1, "2", 7, 5)), map[RecordKey(1, a.id) := Seal(1, a)]), 1, 5)
  }

  function Restarted(a: Entry, b: Entry): World {
    var p := Holding("2", a, OnlyFirst(a));
    World(OnlyFirst(a).disk, Some(p), Crashed(a, b).since + {ViewOf(p.reg)},
          Skipped(Live(OnlyFirst(a).disk), map[a.id := a]), {5})
  }

  /** Two keys of one hash, the first of which is listed first. */
  ghost predicate SameHash(a: Entry, b: Entry) {
    && ValidEntry(a) && ValidEntry(b) && a.keyHash == b.keyHash && LexLess(a.id, b.id)
    && a.id != b.id && a.expiresAt.None? && b.expiresAt.None?
  }

  lemma SetOverLeftover(a: Entry, b: Entry)
    requires SameHash(a, b)
    ensures Step(Started(a), Mutate(Upsert("2", b), 7, Done, false), Acknowledged(a, b))
  {
    ValidIsNormal(b);
    var s, t := OneKeyStore(a), TwoKeyStore(a, b);
    var p, p' := Emptied("1", s), Holding("2", b, t);
    assert Judge(ViewOf(p.reg), Upsert("2", b)) == Accepted(View("2", map[b.id := b]));
    assert Upserted(s, "2", b, 7, t, true);
    assert Mutated(p, Upsert("2", b), 7, p', Done);
    assert MutateStep(Started(a), p, Upsert("2", b), 7, Done, false, p', Acknowledged(a, b));
  }

  lemma TwoIds(a: PersistedKey, b: PersistedKey)
    ensures IdsOf([a, b]) == {a.id, b.id}
  {
    assert [a][..0] == [] && IdsOf([a]) == {a.id};
    assert [a, b][..1] == [a];
  }

  lemma TwoRecords(a: Entry, b: Entry)
    requires SameHash(a, b)
    ensures Lists(TwoKeyDisk(a, b).recs, 1, [PersistedKey(a.id, Some(a)), PersistedKey(b.id, Some(b))])
  {
    WireRoundTrip(a);
    WireRoundTrip(b);
    var recs, ka, kb := TwoKeyDisk(a, b).recs, PersistedKey(a.id, Some(a)), PersistedKey(b.id, Some(b));
    assert EntryAt(recs, RecordKey(1, a.id)) == Some(a) && EntryAt(recs, RecordKey(1, b.id)) == Some(b);
    TwoIds(ka, kb);
  }

  lemma LeftoverIsRestoredFirst(a: Entry, b: Entry)
    requires SameHash(a, b)
    ensures var keys := [PersistedKey(a.id, Some(a)), PersistedKey(b.id, Some(b))];
            Restores(keys, ADMIT_ALL, 8, map[a.id := a], {b.id})
  {
    ValidIsNormal(a);
    ValidIsNormal(b);
    var ka, kb := PersistedKey(a.id, Some(a)), PersistedKey(b.id, Some(b));
    TwoIds(ka, kb);
    assert Accounted(ka, ADMIT_ALL, 8, map[a.id := a], {b.id});
    assert map[a.id := a][a.id].keyHash == b.keyHash;
    assert Accounted(kb, ADMIT_ALL, 8, map[a.id := a], {b.id});
  }

  lemma InstallOverLeftover(a: Entry, b: Entry)
    requires SameHash(a, b)
    ensures var keys := [PersistedKey(a.id, Some(a)), PersistedKey(b.id, Some(b))];
            InstalledSnapshot(TwoKeyStore(a, b), Snapshot("2", 7, 5, keys), ADMIT_ALL, 8, Boot(TwoKeyDisk(a, b)),
                              Holding("2", a, OnlyFirst(a)), Installed({b.id}))
  {
    LeftoverIsRestoredFirst(a, b);
    assert OneRegistry(Holding("2", a, OnlyFirst(a)).reg);
  }

  lemma WarmStartOverLeftover(a: Entry, b: Entry)
    requires SameHash(a, b)
    ensures WarmStarted(Boot(TwoKeyDisk(a, b)), ADMIT_ALL, 8, Holding("2", a, OnlyFirst(a)), Installed({b.id}))
  {
    var keys := [PersistedKey(a.id, Some(a)), PersistedKey(b.id, Some(b))];
    var s, snap, p := TwoKeyStore(a, b), Snapshot("2", 7, 5, keys), Holding("2", a, OnlyFirst(a));
    TwoRecords(a, b);
    assert WasLoaded(Store(s.disk, 0, 0), s, snap);
    InstallOverLeftover(a, b);
    assert WarmStart(Boot(s.disk), s, snap, ADMIT_ALL, 8, p, Installed({b.id}));
  }

  lemma RestartOverLeftover(a: Entry, b: Entry)
    requires SameHash(a, b)
    ensures Step(Crashed(a, b), Restart(ADMIT_ALL, 8, Installed({b.id}), false), Restarted(a, b))
  {
    WarmStartOverLeftover(a, b);
    assert RestartStep(Crashed(a, b), ADMIT_ALL, 8, Installed({b.id}), false, Holding("2", a, OnlyFirst(a)),
                       Restarted(a, b));
  }

  /**
   * A clash is reachable with any two keys of one hash whose ids sort `a` first: `a` is skipped at a warm start and not
   * removed, `b` is set and acknowledged, and a later warm start that admits both restores `a`, skips `b` as a
   * duplicate and removes its record: an acknowledged key is gone.
   */
  lemma LeftoverDisplacesAcknowledgedKey(a: Entry, b: Entry)
    requires SameHash(a, b)
    ensures Run([BeforeStart(a), Started(a), Acknowledged(a, b), Crashed(a, b), Restarted(a, b)],
                [Restart(REFUSE_ALL, 6, Installed({a.id}), false), Mutate(Upsert("2", b), 7, Done, false), Crash,
                 Restart(ADMIT_ALL, 8, Installed({b.id}), false)])
    ensures b.id !in Restarted(a, b).proc.value.reg.byID && b.id !in Live(Restarted(a, b).disk).entries
  {
    StartStep(a);
    SetOverLeftover(a, b);
    RestartOverLeftover(a, b);
    OneKeyIsLive(a);
    FourSteps(BeforeStart(a), Started(a), Acknowledged(a, b), Crashed(a, b), Restarted(a, b),
              Restart(REFUSE_ALL, 6, Installed({a.id}), false), Mutate(Upsert("2", b), 7, Done, false), Crash,
              Restart(ADMIT_ALL, 8, Installed({b.id}), false));
  }

  // ----- a delete acknowledged without a store

  function Degraded(e: Entry): World {
    World(OneKeyDisk(e), Some(MEMORY_ONLY), {Live(OneKeyDisk(e))}, map[], {5})
  }

  function DeletedInMemory(e: Entry): World {
    Degraded(e).(proc := Some(MEMORY_ONLY.(reg := Registry(map[], map[], "3"))))
  }

  function Back(e: Entry): World {
    var s := OneKeyStore(e);
    World(s.disk, Some(Holding("1", e, s)), {Live(s.disk), View("1", map[e.id := e])},
          Skipped(Live(s.disk), map[e.id := e]), {5})
  }

  lemma DegradedStart(e: Entry)
    ensures Step(BeforeStart(e), Restart(ADMIT_ALL, 6, Failed(false), false), Degraded(e))
  {
    var p := Boot(OneKeyDisk(e));
    assert WasLoaded(p.link.store, p.link.store, ReadError);
    assert WarmStart(p, p.link.store, ReadError, ADMIT_ALL, 6, p, Failed(false));
    assert RestartStep(BeforeStart(e), ADMIT_ALL, 6, Failed(false), false, p, Degraded(e));
  }

  lemma DegradedDelete(e: Entry)
    requires e.id != ""
    ensures Step(Degraded(e), Mutate(Delete("3", e.id), 7, Done, false), DeletedInMemory(e))
  {
    var p' := MEMORY_ONLY.(reg := Registry(map[], map[], "3"));
    assert Mutated(MEMORY_ONLY, Delete("3", e.id), 7, p', Done);
    assert MutateStep(Degraded(e), MEMORY_ONLY, Delete("3", e.id), 7, Done, false, p', DeletedInMemory(e));
  }

  lemma OneRecord(e: Entry)
    requires ValidEntry(e) && e.expiresAt.None?
    ensures var keys := [PersistedKey(e.id, Some(e))];
            Lists(OneKeyDisk(e).recs, 1, keys) && Restores(keys, ADMIT_ALL, 8, map[e.id := e], {})
  {
    OneRecordListed(e);
    ValidIsNormal(e);
    assert Accounted(PersistedKey(e.id, Some(e)), ADMIT_ALL, 8, map[e.id := e], {});
  }

  lemma WarmStartFindsIt(e: Entry)
    requires ValidEntry(e) && e.expiresAt.None?
    ensures WarmStarted(Boot(OneKeyDisk(e)), ADMIT_ALL, 8, Holding("1", e, OneKeyStore(e)), Installed({}))
  {
    var s, p := OneKeyStore(e), Holding("1", e, OneKeyStore(e));
    var snap := Snapshot("1", 5, 5, [PersistedKey(e.id, Some(e))]);
    OneRecord(e);
    assert WasLoaded(Store(s.disk, 0, 0), s, snap);
    assert InstalledSnapshot(s, snap, ADMIT_ALL, 8, Boot(s.disk), p, Installed({}));
    assert WarmStart(Boot(s.disk), s, snap, ADMIT_ALL, 8, p, Installed({}));
  }

  lemma BackAfterRestart(e: Entry)
    requires ValidEntry(e) && e.expiresAt.None?
    ensures Step(DeletedInMemory(e).(proc := None), Restart(ADMIT_ALL, 8, Installed({}), false), Back(e))
  {
    var w, p := DeletedInMemory(e).(proc := None), Holding("1", e, OneKeyStore(e));
    WarmStartFindsIt(e);
    assert RestartStep(w, ADMIT_ALL, 8, Installed({}), false, p, Back(e));
  }

  /**
   * A router that cannot read its store runs without one and acknowledges a delete in memory only; after a restart
   * that can read it, the key is back.
   */
  lemma DegradedDeleteComesBack(e: Entry)
    requires ValidEntry(e) && e.expiresAt.None?
    ensures Run([BeforeStart(e), Degraded(e), DeletedInMemory(e), DeletedInMemory(e).(proc := None), Back(e)],
                [Restart(ADMIT_ALL, 6, Failed(false), false), Mutate(Delete("3", e.id), 7, Done, false), Crash,
                 Restart(ADMIT_ALL, 8, Installed({}), false)])
    ensures Back(e).proc.value.reg.byID == map[e.id := e]
  {
    DegradedStart(e);
    DegradedDelete(e);
    BackAfterRestart(e);
    OneKeyIsLive(e);
    FourSteps(BeforeStart(e), Degraded(e), DeletedInMemory(e), DeletedInMemory(e).(proc := None), Back(e),
              Restart(ADMIT_ALL, 6, Failed(false), false), Mutate(Delete("3", e.id), 7, Done, false), Crash,
              Restart(ADMIT_ALL, 8, Installed({}), false));
  }
}
