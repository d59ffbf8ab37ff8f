/**
 * Whole runs of the durable registry: mutations, background repairs, shutdowns, crashes inside or
 * between calls, and warm starts, in any order. A world is one disk and at most one running process,
 * together with the history the promises speak about.
 */
module KeyDurability {
  import opened Prelude
  import opened KeyEntry
  import opened KeyStore
  import opened KeyStoreLaws
  import opened KeyRegistry

  /**
   * since:    the registries held in memory at or after the last durable acknowledgement; for a warm start that died
   *           while it removed skipped records, the registry it was about to install
   * left:     live records the last warm start skipped and its cleanup did not remove
   * confirms: the times of full replaces since the last completed reset
   */
  datatype World = World(
    disk: Disk,
    proc: Option<Provider>,
    since: set<View>,
    left: map<string, Entry>,
    confirms: set<Time>)

  /** `crashed` ends the process inside the call, after its last write and before it returns. */
  datatype Event =
    | Mutate(m: Mutation, now: Time, r: Outcome, crashed: bool)
    | Retry(now: Time, crashed: bool)
    | Close
    | Crash
    | Restart(opts: LoadOptions, now: Time, report: Report, crashed: bool)

  const NOTHING := View("", map[])
  const MEMORY_ONLY := Provider(EMPTY, Link(false, Store(Disk(NoMeta, map[]), 0, 0), false, true, false))

  function Boot(d: Disk): Provider {
    Provider(EMPTY, Link(true, Store(d, 0, 0), false, false, false))
  }

  /** The skipped records that are still live, unchanged. */
  function Still(left: map<string, Entry>, live: View): map<string, Entry> {
    map id | id in left && id in live.entries && live.entries[id] == left[id] :: left[id]
  }

  /** `live` is `v` plus possibly some of the records in `left`. */
  ghost predicate Extends(live: View, v: View, left: map<string, Entry>) {
    && live.version == v.version
    && (forall id :: id in v.entries ==> id in live.entries && live.entries[id] == v.entries[id])
    && (forall id :: id in live.entries && id !in v.entries ==> id in left && left[id] == live.entries[id])
  }

  ghost function Since(since: set<View>, p: Provider, m: Mutation, r: Outcome, crashed: bool): set<View> {
    match Judge(ViewOf(p.reg), m)
    case Refused(_) => since
    case Accepted(v) => if !p.link.wired then since else if r == Done && !crashed then {v} else since + {v}
  }

  function DiskAfter(w: World, p: Provider, p': Provider): Disk {
    if p.link.wired then p'.link.store.disk else w.disk
  }

  ghost predicate MutateStep(w: World, p: Provider, m: Mutation, now: Time, r: Outcome, crashed: bool, p': Provider,
                             w': World) {
    var d := DiskAfter(w, p, p');
    && Mutated(p, m, now, p', r)
    && w' == World(d, if crashed then None else Some(p'), Since(w.since, p, m, r, crashed), Still(w.left, Live(d)),
                   if m.ReplaceAll? && p.link.wired && !r.Rejected? then w.confirms + {now} else w.confirms)
  }

  ghost predicate RetryStep(w: World, p: Provider, now: Time, crashed: bool, p': Provider, w': World) {
    var d := p'.link.store.disk;
    && p.link.wired && p.link.retrying && Retried(p, now, p')
    && w' == World(d, if crashed then None else Some(p'), w.since, Still(w.left, Live(d)), w.confirms)
  }

  ghost predicate RestartStep(w: World, opts: LoadOptions, now: Time, report: Report, crashed: bool, p': Provider,
                              w': World) {
    var d := p'.link.store.disk;
    && WarmStarted(Boot(w.disk), opts, now, p', report)
    && w' == World(d,
                   if crashed then None else Some(if report.Failed? then MEMORY_ONLY else p'),
                   w.since + Restored(p', report),
                   if report.Installed? then Skipped(Live(d), p'.reg.byID) else Still(w.left, Live(d)),
                   if report == Discarded then {} else w.confirms)
  }

  ghost predicate Step(w: World, ev: Event, w': World) {
    match ev
    case Mutate(m, now, r, crashed) =>
      w.proc.Some? && exists p' :: MutateStep(w, w.proc.value, m, now, r, crashed, p', w')
    case Retry(now, crashed) => w.proc.Some? && exists p' :: RetryStep(w, w.proc.value, now, crashed, p', w')
    case Close =>
      w.proc.Some? && w.proc.value.link.wired &&
      w' == w.(proc := Some(w.proc.value.(link := w.proc.value.link.(closed := true))))
    case Crash => w' == w.(proc := None)
    case Restart(opts, now, report, crashed) =>
      w.proc.None? && exists p' :: RestartStep(w, opts, now, report, crashed, p', w')
  }

  /** The registries a warm start puts in memory: the restored one, or none when the snapshot is dropped. */
  ghost function Restored(p: Provider, report: Report): set<View> {
    match report
    case Installed(_) => {ViewOf(p.reg)}
    case NothingStored => {}
    case Discarded => {NOTHING}
    case Failed(discarding) => if discarding then {NOTHING} else {}
  }

  function Skipped(live: View, kept: map<string, Entry>): map<string, Entry> {
    map id | id in live.entries && id !in kept :: live.entries[id]
  }

  ghost predicate UniqueHashes(m: map<string, Entry>) {
    forall a, b :: a in m && b in m && m[a].keyHash == m[b].keyHash ==> a == b
  }

  lemma RegistryHasUniqueHashes(r: Registry)
    requires OneRegistry(r)
    ensures UniqueHashes(r.byID)
  {
    forall a, b | a in r.byID && b in r.byID && r.byID[a].keyHash == r.byID[b].keyHash ensures a == b {
      assert r.byID[a].id == a && r.byID[b].id == b && r.byHash[r.byID[a].keyHash] == r.byID[a];
    }
  }

  ghost predicate Init(w: World) {
    && ValidDisk(w.disk) && w.proc.None? && UniqueHashes(Live(w.disk).entries)
    && w.since == {Live(w.disk)} && w.left == map[] && w.confirms == {ConfirmedAt(w.disk)}
  }

  /** What a restart would see is a registry memory held since the last durable acknowledgement. */
  ghost predicate Durable(w: World) {
    exists v :: v in w.since && Extends(Live(w.disk), v, w.left)
  }

  ghost predicate GoodProcess(p: Provider, w: World) {
    && OneRegistry(p.reg)
    && (p.link.wired ==>
          && p.link.store.disk == w.disk && Synced(p.link.store)
          && ViewOf(p.reg) in w.since
          && (!p.link.dirty ==> Extends(Live(w.disk), ViewOf(p.reg), w.left))
          && (p.link.dirty ==> p.link.retrying || p.link.closed))
  }

  ghost predicate Inv(w: World) {
    && ValidDisk(w.disk)
    && Durable(w)
    && (ConfirmedAt(w.disk) == 0 || ConfirmedAt(w.disk) in w.confirms)
    && (w.proc.Some? ==> GoodProcess(w.proc.value, w))
  }

  ghost predicate Run(ws: seq<World>, evs: seq<Event>) {
    && |ws| == |evs| + 1 && Init(ws[0])
    && forall i :: 0 <= i < |evs| ==> Step(ws[i], evs[i], ws[i + 1])
  }

  // ----- views

  lemma StillExtends(live: View, v: View, left: map<string, Entry>)
    requires Extends(live, v, left)
    ensures Extends(live, v, Still(left, live))
  {
  }

  lemma PutExtends(live: View, v: View, left: map<string, Entry>, version: string, e: Entry)
    requires Extends(live, v, left)
    ensures var live' := View(version, live.entries[e.id := e]);
            Extends(live', View(version, v.entries[e.id := e]), Still(left, live'))
  {
  }

  lemma DropExtends(live: View, v: View, left: map<string, Entry>, version: string, id: string)
    requires Extends(live, v, left)
    ensures var live' := View(version, live.entries - {id});
            Extends(live', View(version, v.entries - {id}), Still(left, live'))
  {
  }

  // ----- one store write

  lemma EnumeratedAreValid(entries: seq<Entry>, m: map<string, Entry>)
    requires Enumerates(entries, m) && ValidEntries(m)
    ensures AllValid(entries)
  {
    forall e | e in entries ensures ValidEntry(e) {
      var i :| 0 <= i < |entries| && entries[i] == e;
      assert m[entries[i].id] == entries[i];
    }
  }

  lemma RewriteLaw(s: Store, v: View, now: Time, confirmedAt: Time, s': Store, ok: bool)
    requires Synced(s) && ValidEntries(v.entries) && Rewrote(s, v, now, confirmedAt, s', ok)
    ensures Synced(s')
    ensures || (!ok && Live(s'.disk) == Live(s.disk) && ConfirmedAt(s'.disk) == ConfirmedAt(s.disk))
            || (Live(s'.disk) == v && ConfirmedAt(s'.disk) == Confirmation(s, confirmedAt))
  {
    var entries :| Enumerates(entries, v.entries) && WroteGeneration(s, v.version, entries, now, confirmedAt, s', ok);
    EnumeratedAreValid(entries, v.entries);
    GenerationSwitchIsAllOrNothing(s, v.version, entries, now, confirmedAt, s', ok);
  }

  /** A write leaves the old live registry or (up to skipped leftovers) the new one. */
  ghost predicate GoodWrite(s: Store, v': View, left: map<string, Entry>, s': Store, ok: bool) {
    && Synced(s')
    && ((!ok && Live(s'.disk) == Live(s.disk)) || Extends(Live(s'.disk), v', Still(left, Live(s'.disk))))
  }

  lemma UpsertWrite(s: Store, v: View, version: string, e: Entry, left: map<string, Entry>, now: Time, s': Store,
                    ok: bool)
    requires Synced(s) && ValidEntry(e) && Extends(Live(s.disk), v, left) && Upserted(s, version, e, now, s', ok)
    ensures GoodWrite(s, View(version, v.entries[e.id := e]), left, s', ok)
    ensures ConfirmedAt(s'.disk) == ConfirmedAt(s.disk)
  {
    UpsertLaw(s, version, e, now, s', ok);
    PutExtends(Live(s.disk), v, left, version, e);
  }

  lemma DeleteWrite(s: Store, v: View, version: string, id: string, left: map<string, Entry>, now: Time, s': Store,
                    ok: bool)
    requires Synced(s) && Extends(Live(s.disk), v, left) && Deleted(s, version, id, now, s', ok)
    ensures GoodWrite(s, View(version, v.entries - {id}), left, s', ok) && ConfirmedAt(s'.disk) == ConfirmedAt(s.disk)
  {
    DeleteLaw(s, version, id, now, s', ok);
    DropExtends(Live(s.disk), v, left, version, id);
  }

  lemma TouchWrite(s: Store, v: View, version: string, left: map<string, Entry>, now: Time, s': Store, ok: bool)
    requires Synced(s) && Extends(Live(s.disk), v, left) && Touched(s, version, now, now, s', ok)
    ensures GoodWrite(s, View(version, v.entries), left, s', ok)
    ensures ConfirmedAt(s'.disk) == ConfirmedAt(s.disk) || ConfirmedAt(s'.disk) == now
  {
    TouchLaw(s, version, now, now, s', ok);
    StillExtends(View(version, Live(s.disk).entries), View(version, v.entries), left);
  }

  lemma RewriteWrite(s: Store, v': View, left: map<string, Entry>, now: Time, confirmedAt: Time, s': Store, ok: bool)
    requires Synced(s) && ValidEntries(v'.entries) && Rewrote(s, v', now, confirmedAt, s', ok)
    ensures GoodWrite(s, v', left, s', ok)
    ensures ConfirmedAt(s'.disk) == ConfirmedAt(s.disk) || (confirmedAt != 0 && ConfirmedAt(s'.disk) == confirmedAt)
  {
    RewriteLaw(s, v', now, confirmedAt, s', ok);
  }

  /** An accepted mutation's write, incremental or repairing. Only a full replace moves the confirmation time. */
  lemma WriteLaw(s: Store, dirty: bool, v: View, m: Mutation, v': View, left: map<string, Entry>, now: Time, s': Store,
                 ok: bool)
    requires Synced(s) && ValidEntries(v'.entries) && Judge(v, m) == Accepted(v')
    requires !dirty ==> Extends(Live(s.disk), v, left)
    requires Wrote(s, dirty, v, m, v', now, s', ok)
    ensures GoodWrite(s, v', left, s', ok)
    ensures ConfirmedAt(s'.disk) == ConfirmedAt(s.disk) || (m.ReplaceAll? && ConfirmedAt(s'.disk) == now)
  {
    if dirty {
      RewriteWrite(s, v', left, now, if m.ReplaceAll? then now else 0, s', ok);
    } else if m.Upsert? {
      UpsertWrite(s, v, m.version, Normalize(m.entry).value, left, now, s', ok);
    } else if m.Delete? {
      DeleteWrite(s, v, m.version, m.id, left, now, s', ok);
    } else if v.entries == v'.entries {
      TouchWrite(s, v, m.version, left, now, s', ok);
    } else {
      RewriteWrite(s, v', left, now, now, s', ok);
    }
  }

  // ----- one step

  lemma RefusedKeepsInv(w: World, m: Mutation, now: Time, r: Outcome, crashed: bool, p': Provider, w': World)
    requires Inv(w) && w.proc.Some? && MutateStep(w, w.proc.value, m, now, r, crashed, p', w')
    requires Judge(ViewOf(w.proc.value.reg), m).Refused?
    ensures Inv(w')
  {
    var p := w.proc.value;
    var u :| u in w.since && Extends(Live(w.disk), u, w.left);
    StillExtends(Live(w.disk), u, w.left);
    if p.link.wired && !p.link.dirty { StillExtends(Live(w.disk), ViewOf(p.reg), w.left); }
  }

  lemma AcceptedKeepsInv(w: World, m: Mutation, now: Time, r: Outcome, crashed: bool, p': Provider, w': World)
    requires Inv(w) && w.proc.Some? && MutateStep(w, w.proc.value, m, now, r, crashed, p', w')
    requires Judge(ViewOf(w.proc.value.reg), m).Accepted?
    ensures Inv(w')
  {
    var p := w.proc.value;
    var v' := Judge(ViewOf(p.reg), m).view;
    var u :| u in w.since && Extends(Live(w.disk), u, w.left);
    StillExtends(Live(w.disk), u, w.left);
    if p.link.wired {
      if !p.link.closed {
        WriteLaw(p.link.store, p.link.dirty, ViewOf(p.reg), m, v', w.left, now, p'.link.store, r == Done);
      }
      assert v' in w'.since;
    }
  }

  lemma MutateKeepsInv(w: World, m: Mutation, now: Time, r: Outcome, crashed: bool, p': Provider, w': World)
    requires Inv(w) && w.proc.Some? && MutateStep(w, w.proc.value, m, now, r, crashed, p', w')
    ensures Inv(w')
  {
    if Judge(ViewOf(w.proc.value.reg), m).Refused? {
      RefusedKeepsInv(w, m, now, r, crashed, p', w');
    } else {
      AcceptedKeepsInv(w, m, now, r, crashed, p', w');
    }
  }

  lemma RetryKeepsInv(w: World, now: Time, crashed: bool, p': Provider, w': World)
    requires Inv(w) && w.proc.Some? && RetryStep(w, w.proc.value, now, crashed, p', w')
    ensures Inv(w') && ConfirmedAt(w'.disk) == ConfirmedAt(w.disk)
  {
    var p := w.proc.value;
    var v := ViewOf(p.reg);
    var u :| u in w.since && Extends(Live(w.disk), u, w.left);
    StillExtends(Live(w.disk), u, w.left);
    if p.link.closed || !p.link.dirty {
      if !p.link.dirty { StillExtends(Live(w.disk), v, w.left); }
    } else {
      var ok: bool :| Rewrote(p.link.store, v, now, 0, p'.link.store, ok)
                      && p' == p.(link := Link(p.link.wired, p'.link.store, !ok, p.link.closed, !ok));
      RewriteWrite(p.link.store, v, w.left, now, 0, p'.link.store, ok);
    }
  }

  /** Removing skipped records from the live generation leaves exactly the restored ones and the leftovers. */
  lemma RestoredExtends(s: Store, keys: seq<PersistedKey>, opts: LoadOptions, now: Time, kept: map<string, Entry>,
                        skipped: set<string>, recs': map<RecordKey, Record>)
    requires ValidDisk(s.disk) && Lists(s.disk.recs, s.gen, keys) && Restores(keys, opts, now, kept, skipped)
    requires Pruned(s.disk.recs, recs', set id | id in skipped :: RecordKey(s.gen, id))
    ensures forall id :: id in kept ==> EntryAt(recs', RecordKey(s.gen, id)) == Some(kept[id])
    ensures forall k :: k in recs' ==> k in s.disk.recs && recs'[k] == s.disk.recs[k]
  {
    IdsOfMembers(keys);
    forall id | id in kept ensures EntryAt(recs', RecordKey(s.gen, id)) == Some(kept[id]) {
      var i :| 0 <= i < |keys| && keys[i].id == id;
      assert Accounted(keys[i], opts, now, kept, skipped) && IsRecord(s.disk.recs, s.gen, keys[i]);
      ValidIsNormal(keys[i].entry.value);
      assert RecordKey(s.gen, id) !in (set j | j in skipped :: RecordKey(s.gen, j));
    }
  }

  lemma InstallKeepsInv(w: World, s: Store, snap: Loaded, opts: LoadOptions, now: Time, p': Provider, report: Report,
                        w': World)
    requires Inv(w) && WasLoaded(Store(w.disk, 0, 0), s, snap) && snap.Snapshot?
    requires InstalledSnapshot(s, snap, opts, now, Boot(w.disk), p', report)
    requires w'.disk == p'.link.store.disk && w'.since == w.since + {ViewOf(p'.reg)} && w'.confirms == w.confirms
    requires w'.left == Skipped(Live(w'.disk), p'.reg.byID)
    requires w'.proc.Some? ==> w'.proc.value == p'
    ensures Inv(w') && Live(w'.disk).version == ViewOf(p'.reg).version
  {
    LoadLaw(Store(w.disk, 0, 0), s, snap);
    var recs' := w'.disk.recs;
    RestoredExtends(s, snap.keys, opts, now, p'.reg.byID, report.skipped, recs');
    assert w'.disk.meta == w.disk.meta;
    assert p'.reg.version == snap.version by { EmptyIsLeast(snap.version); }
    assert Extends(Live(w'.disk), ViewOf(p'.reg), w'.left);
  }

  lemma EmptyIsLeast(v: string)
    ensures LexLess("", v) || v == ""
  {
  }

  lemma DiscardKeepsInv(w: World, s: Store, snap: Loaded, now: Time, p': Provider, report: Report, w': World)
    requires Inv(w) && WasLoaded(Store(w.disk, 0, 0), s, snap) && snap != ReadError
    requires DiscardedSnapshot(s, now, Boot(w.disk), p', report)
    requires w'.disk == p'.link.store.disk && w'.since == w.since + {NOTHING} && w'.left == Still(w.left, Live(w'.disk))
    requires w'.confirms == if report == Discarded then {} else w.confirms
    requires w'.proc.Some? ==> w'.proc.value == if report.Failed? then MEMORY_ONLY else p'
    ensures Inv(w')
  {
    LoadLaw(Store(w.disk, 0, 0), s, snap);
    ResetLaw(s, now, p'.link.store, report == Discarded);
    var u :| u in w.since && Extends(Live(w.disk), u, w.left);
    StillExtends(Live(w.disk), u, w.left);
    assert NOTHING in w'.since && u in w'.since;
  }

  lemma NothingLoadedKeepsInv(w: World, s: Store, snap: Loaded, p': Provider, w': World)
    requires Inv(w) && WasLoaded(Store(w.disk, 0, 0), s, snap) && (snap == ReadError || snap == Fresh)
    requires p' == Boot(w.disk).(link := Boot(w.disk).link.(store := s))
    requires w'.disk == s.disk && w'.since == w.since && w'.confirms == w.confirms
    requires w'.left == Still(w.left, Live(w'.disk))
    requires w'.proc.Some? ==> w'.proc.value == if snap == ReadError then MEMORY_ONLY else p'
    ensures Inv(w')
  {
    LoadLaw(Store(w.disk, 0, 0), s, snap);
    var u :| u in w.since && Extends(Live(w.disk), u, w.left);
    StillExtends(Live(w.disk), u, w.left);
    assert snap == Fresh ==> u.entries == map[];
  }

  lemma RestartKeepsInv(w: World, opts: LoadOptions, now: Time, report: Report, crashed: bool, p': Provider, w': World)
    requires Inv(w) && w.proc.None? && RestartStep(w, opts, now, report, crashed, p', w')
    ensures Inv(w')
  {
    var p := Boot(w.disk);
    var s, snap :| WasLoaded(p.link.store, s, snap) && WarmStart(p, s, snap, opts, now, p', report);
    if report.Installed? {
      InstallKeepsInv(w, s, snap, opts, now, p', report, w');
    } else if snap == ReadError || snap == Fresh {
      NothingLoadedKeepsInv(w, s, snap, p', w');
    } else {
      DiscardKeepsInv(w, s, snap, now, p', report, w');
    }
  }

  lemma StepKeepsInv(w: World, ev: Event, w': World)
    requires Inv(w) && Step(w, ev, w')
    ensures Inv(w')
  {
    match ev
    case Mutate(m, now, r, crashed) =>
      var p' :| MutateStep(w, w.proc.value, m, now, r, crashed, p', w');
      MutateKeepsInv(w, m, now, r, crashed, p', w');
    case Retry(now, crashed) =>
      var p' :| RetryStep(w, w.proc.value, now, crashed, p', w');
      RetryKeepsInv(w, now, crashed, p', w');
    case Close =>
    case Crash =>
    case Restart(opts, now, report, crashed) =>
      var p' :| RestartStep(w, opts, now, report, crashed, p', w');
      RestartKeepsInv(w, opts, now, report, crashed, p', w');
  }

  /** No registry in the history gave two ids one hash. */
  ghost predicate NoSharedHashes(w: World) {
    forall v :: v in w.since ==> UniqueHashes(v.entries)
  }

  lemma MutateKeepsHashesApart(w: World, m: Mutation, now: Time, r: Outcome, crashed: bool, p': Provider, w': World)
    requires NoSharedHashes(w) && w.proc.Some? && MutateStep(w, w.proc.value, m, now, r, crashed, p', w')
    ensures NoSharedHashes(w')
  {
    if Judge(ViewOf(w.proc.value.reg), m).Accepted? { RegistryHasUniqueHashes(p'.reg); }
  }

  lemma RestartKeepsHashesApart(w: World, opts: LoadOptions, now: Time, report: Report, crashed: bool, p': Provider,
                                w': World)
    requires NoSharedHashes(w) && RestartStep(w, opts, now, report, crashed, p', w')
    ensures NoSharedHashes(w')
  {
    if report.Installed? { RegistryHasUniqueHashes(p'.reg); }
  }

  lemma StepKeepsHashesApart(w: World, ev: Event, w': World)
    requires NoSharedHashes(w) && Step(w, ev, w')
    ensures NoSharedHashes(w')
  {
    match ev
    case Mutate(m, now, r, crashed) =>
      var p' :| MutateStep(w, w.proc.value, m, now, r, crashed, p', w');
      MutateKeepsHashesApart(w, m, now, r, crashed, p', w');
    case Restart(opts, now, report, crashed) =>
      var p' :| RestartStep(w, opts, now, report, crashed, p', w');
      RestartKeepsHashesApart(w, opts, now, report, crashed, p', w');
    case _ =>
  }

  // ----- whole runs

  lemma {:induction false} InvAlongRun(ws: seq<World>, evs: seq<Event>, i: nat)
    requires Run(ws, evs) && i < |ws|
    ensures Inv(ws[i]) && NoSharedHashes(ws[i])
  {
    if i == 0 {
      assert Extends(Live(ws[0].disk), Live(ws[0].disk), ws[0].left);
    } else {
      InvAlongRun(ws, evs, i - 1);
      StepKeepsInv(ws[i - 1], evs[i - 1], ws[i]);
      StepKeepsHashesApart(ws[i - 1], evs[i - 1], ws[i]);
    }
  }

  /**
   * In every state of every run, what a restart would find is a registry that memory held at or after
   * the last durable acknowledgement, plus at most the skipped records a warm start failed to remove.
   * A running process that is not dirty agrees with the disk, and a dirty one has a repair pending.
   */
  lemma DurabilityOverRuns(ws: seq<World>, evs: seq<Event>, i: nat)
    requires Run(ws, evs) && i < |ws|
    ensures Durable(ws[i])
    ensures ws[i].left == map[] ==> Live(ws[i].disk) in ws[i].since
    ensures ws[i].proc.Some? ==>
              var p := ws[i].proc.value;
              && OneRegistry(p.reg)
              && (p.link.wired && !p.link.dirty && ws[i].left == map[] ==> Live(ws[i].disk) == ViewOf(p.reg))
              && (p.link.wired && p.link.dirty ==> p.link.retrying || p.link.closed)
  {
    InvAlongRun(ws, evs, i);
    var w := ws[i];
    var v :| v in w.since && Extends(Live(w.disk), v, w.left);
    if w.left == map[] {
      ExtendsNothing(Live(w.disk), v);
      if w.proc.Some? && w.proc.value.link.wired && !w.proc.value.link.dirty {
        ExtendsNothing(Live(w.disk), ViewOf(w.proc.value.reg));
      }
    }
  }

  lemma StepKeepsNothingLeft(w: World, ev: Event, w': World)
    requires Step(w, ev, w') && w.left == map[] && !(ev.Restart? && ev.report.Installed?)
    ensures w'.left == map[]
  {
  }

  /** Every warm start up to step i that installed a snapshot also got its skipped records removed. */
  ghost predicate CleanedUp(ws: seq<World>, evs: seq<Event>, i: nat)
    requires |ws| == |evs| + 1 && i < |ws|
  {
    forall k :: 0 <= k < i && evs[k].Restart? && evs[k].report.Installed? ==> ws[k + 1].left == map[]
  }

  lemma {:induction false} NothingLeft(ws: seq<World>, i: nat)
    requires i < |ws| && ws[0].left == map[] && forall k :: 0 <= k < i && ws[k].left == map[] ==>
              ws[k + 1].left == map[]
    ensures ws[i].left == map[]
  {
    if i > 0 { NothingLeft(ws, i - 1); }
  }

  /**
   * With those cleanups a restart finds exactly a registry that memory held at or after the last durable
   * acknowledgement.
   */
  lemma CleanedUpRunsAreExact(ws: seq<World>, evs: seq<Event>, i: nat)
    requires Run(ws, evs) && i < |ws| && CleanedUp(ws, evs, i)
    ensures Live(ws[i].disk) in ws[i].since
  {
    forall k | 0 <= k < i && ws[k].left == map[] ensures ws[k + 1].left == map[] {
      if !(evs[k].Restart? && evs[k].report.Installed?) { StepKeepsNothingLeft(ws[k], evs[k], ws[k + 1]); }
    }
    NothingLeft(ws, i);
    DurabilityOverRuns(ws, evs, i);
  }

  lemma ExtendsNothing(live: View, v: View)
    requires Extends(live, v, map[])
    ensures live == v
  {
    assert live.entries == v.entries;
  }
}
