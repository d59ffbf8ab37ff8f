/** What the durable registry promises its users, as consequences of the run invariant. */
module KeyPromises {
  import opened Prelude
  import opened KeyEntry
  import opened KeyStore
  import opened KeyStoreLaws
  import opened KeyRegistry
  import opened KeyDurability

  // ----- revocation

  /** Nothing on disk, in memory, or in the history back to the last acknowledgement holds `id`. */
  ghost predicate Gone(id: string, w: World) {
    && id !in Live(w.disk).entries && id !in w.left
    && (forall v :: v in w.since ==> id !in v.entries)
    && (w.proc.Some? ==> id !in w.proc.value.reg.byID)
  }

  predicate Adds(ev: Event, id: string) {
    ev.Mutate? &&
    match ev.m
    case Upsert(_, e) => e.id == id
    case ReplaceAll(_, es) => exists e :: e in es && e.id == id
    case Delete(_, _) => false
  }

  lemma JudgedWithout(v: View, m: Mutation, id: string)
    requires id !in v.entries && Judge(v, m).Accepted?
    requires match m
             case Upsert(_, e) => e.id != id
             case ReplaceAll(_, es) => forall e :: e in es ==> e.id != id
             case Delete(_, _) => true
    ensures id !in Judge(v, m).view.entries
  {
    if m.ReplaceAll? {
      var es := NormalizeAll(m.entries).value;
      ByIdMembers(es);
      forall k | k in ById(es) ensures k != id {
        var i :| 0 <= i < |es| && es[i] == ById(es)[k];
        assert m.entries[i] in m.entries;
      }
    }
  }

  lemma MutateKeepsGone(w: World, m: Mutation, now: Time, r: Outcome, crashed: bool, p': Provider, w': World,
                        id: string)
    requires Inv(w) && w.proc.Some? && MutateStep(w, w.proc.value, m, now, r, crashed, p', w')
    requires Gone(id, w) && !Adds(Mutate(m, now, r, crashed), id)
    ensures Gone(id, w')
  {
    var p := w.proc.value;
    if Judge(ViewOf(p.reg), m).Accepted? {
      var v' := Judge(ViewOf(p.reg), m).view;
      JudgedWithout(ViewOf(p.reg), m, id);
      if p.link.wired && !p.link.closed {
        WriteLaw(p.link.store, p.link.dirty, ViewOf(p.reg), m, v', w.left, now, p'.link.store, r == Done);
      }
    }
  }

  lemma RestartKeepsGone(w: World, opts: LoadOptions, now: Time, report: Report, crashed: bool, p': Provider, w': World,
                         id: string)
    requires Inv(w) && w.proc.None? && RestartStep(w, opts, now, report, crashed, p', w') && Gone(id, w)
    ensures Gone(id, w')
  {
    var b := Boot(w.disk);
    var s, snap :| WasLoaded(b.link.store, s, snap) && WarmStart(b, s, snap, opts, now, p', report);
    if report.Installed? {
      InstallKeepsGone(w, opts, now, report, crashed, p', w', id, s, snap);
    } else {
      NoInstallKeepsGone(w, opts, now, report, crashed, p', w', id, s, snap);
    }
  }

  lemma InstallKeepsGone(w: World, opts: LoadOptions, now: Time, report: Report, crashed: bool, p': Provider, w': World,
                         id: string, s: Store, snap: Loaded)
    requires Inv(w) && w.proc.None? && RestartStep(w, opts, now, report, crashed, p', w') && Gone(id, w)
    requires WasLoaded(Boot(w.disk).link.store, s, snap) && report.Installed?
    requires WarmStart(Boot(w.disk), s, snap, opts, now, p', report)
    ensures Gone(id, w')
  {
    LoadLaw(Boot(w.disk).link.store, s, snap);
    RestoredExtends(s, snap.keys, opts, now, p'.reg.byID, report.skipped, w'.disk.recs);
    forall k | k in p'.reg.byID ensures k in Live(w'.disk).entries {
      assert EntryAt(w'.disk.recs, RecordKey(s.gen, k)).Some?;
    }
  }

  lemma NoInstallKeepsGone(w: World, opts: LoadOptions, now: Time, report: Report, crashed: bool, p': Provider,
                           w': World, id: string, s: Store, snap: Loaded)
    requires Inv(w) && w.proc.None? && RestartStep(w, opts, now, report, crashed, p', w') && Gone(id, w)
    requires WasLoaded(Boot(w.disk).link.store, s, snap) && !report.Installed?
    requires WarmStart(Boot(w.disk), s, snap, opts, now, p', report)
    ensures Gone(id, w')
  {
    LoadLaw(Boot(w.disk).link.store, s, snap);
    if snap != ReadError && snap != Fresh { ResetLaw(s, now, p'.link.store, report == Discarded); }
  }

  lemma GoneStaysGone(w: World, ev: Event, w': World, id: string)
    requires Inv(w) && Step(w, ev, w') && Gone(id, w) && !Adds(ev, id)
    ensures Gone(id, w')
  {
    match ev
    case Mutate(m, now, r, crashed) =>
      var p' :| MutateStep(w, w.proc.value, m, now, r, crashed, p', w');
      MutateKeepsGone(w, m, now, r, crashed, p', w', id);
    case Retry(now, crashed) =>
      var p' :| RetryStep(w, w.proc.value, now, crashed, p', w');
      var p := w.proc.value;
      if !p.link.closed && p.link.dirty {
        var ok: bool :| Rewrote(p.link.store, ViewOf(p.reg), now, 0, p'.link.store, ok)
                        && p' == p.(link := Link(p.link.wired, p'.link.store, !ok, p.link.closed, !ok));
        RewriteLaw(p.link.store, ViewOf(p.reg), now, 0, p'.link.store, ok);
      }
    case Close =>
    case Crash =>
    case Restart(opts, now, report, crashed) =>
      var p' :| RestartStep(w, opts, now, report, crashed, p', w');
      RestartKeepsGone(w, opts, now, report, crashed, p', w', id);
  }

  /** Step `i` is a delete of `id` that a process with a store acknowledged. */
  ghost predicate DurablyDeletes(w: World, ev: Event, id: string) {
    && ev.Mutate? && ev.m.Delete? && ev.m.id == id && ev.r == Done && !ev.crashed
    && w.proc.Some? && w.proc.value.link.wired
  }

  lemma DeleteMakesGone(w: World, ev: Event, w': World, id: string)
    requires Inv(w) && Step(w, ev, w') && DurablyDeletes(w, ev, id)
    ensures Gone(id, w')
  {
    var p := w.proc.value;
    var p' :| MutateStep(w, p, ev.m, ev.now, ev.r, ev.crashed, p', w');
    if p.link.dirty {
      RewriteLaw(p.link.store, ViewOf(p'.reg), ev.now, 0, p'.link.store, true);
    } else {
      DeleteLaw(p.link.store, ev.m.version, id, ev.now, p'.link.store, true);
    }
  }

  lemma NextKeepsGone(ws: seq<World>, evs: seq<Event>, k: nat, id: string)
    requires Run(ws, evs) && k < |evs| && Gone(id, ws[k]) && !Adds(evs[k], id)
    ensures Gone(id, ws[k + 1])
  {
    InvAlongRun(ws, evs, k);
    GoneStaysGone(ws[k], evs[k], ws[k + 1], id);
  }

  lemma {:induction false} GoneFrom(ws: seq<World>, i: nat, j: nat, id: string)
    requires i < j < |ws| && Gone(id, ws[i + 1])
    requires forall k :: i < k < j && Gone(id, ws[k]) ==> Gone(id, ws[k + 1])
    ensures Gone(id, ws[j])
    decreases j
  {
    if j > i + 1 { GoneFrom(ws, i, j - 1, id); }
  }

  /**
   * A revocation acknowledged by a process with a store never comes back: not in memory, not on disk,
   * through any later failures, repairs, crashes and warm starts, until some mutation adds the id again.
   */
  lemma AcknowledgedDeleteStaysGone(ws: seq<World>, evs: seq<Event>, i: nat, j: nat, id: string)
    requires Run(ws, evs) && i < j < |ws| && DurablyDeletes(ws[i], evs[i], id)
    requires forall k :: i < k < j ==> !Adds(evs[k], id)
    ensures id !in Live(ws[j].disk).entries
    ensures ws[j].proc.Some? ==> id !in ws[j].proc.value.reg.byID
    ensures Gone(id, ws[j])
  {
    InvAlongRun(ws, evs, i);
    DeleteMakesGone(ws[i], evs[i], ws[i + 1], id);
    forall k | i < k < j && Gone(id, ws[k]) ensures Gone(id, ws[k + 1]) { NextKeepsGone(ws, evs, k, id); }
    GoneFrom(ws, i, j, id);
  }

  // ----- full replaces

  /**
   * A full replace acknowledged by a process with a store makes the disk equal the pushed registry,
   * except in exactly one case: the store is clean, the pushed set equals the one in memory (so only
   * the meta record is rewritten), and records skipped by the warm start are still on disk.
   */
  lemma ReplaceAllIsExactUnlessLeftovers(w: World, ev: Event, w': World)
    requires Inv(w) && Step(w, ev, w')
    requires ev.Mutate? && ev.m.ReplaceAll? && ev.r == Done && !ev.crashed
    requires w.proc.Some? && w.proc.value.link.wired
    ensures Judge(ViewOf(w.proc.value.reg), ev.m).Accepted?
    ensures var p, v := w.proc.value, Judge(ViewOf(w.proc.value.reg), ev.m).view;
            Live(w'.disk) == v
            <==> !(!p.link.dirty && p.reg.byID == v.entries && Live(w.disk).entries != p.reg.byID)
  {
    var p := w.proc.value;
    var p' :| MutateStep(w, p, ev.m, ev.now, ev.r, ev.crashed, p', w');
    var v := Judge(ViewOf(p.reg), ev.m).view;
    if !p.link.dirty && p.reg.byID == v.entries {
      TouchLaw(p.link.store, ev.m.version, ev.now, ev.now, p'.link.store, true);
    } else {
      RewriteLaw(p.link.store, v, ev.now, ev.now, p'.link.store, true);
    }
  }

  /**
   * On a clean store whose live registry is the one in memory, rewriting only the meta record leaves
   * the same registry, version and times as writing a whole new generation, the first write included.
   */
  lemma TouchRefinesRewrite(s: Store, v: View, version: string, now: Time, t: Store, u: Store)
    requires Synced(s) && ValidEntries(v.entries) && Live(s.disk) == v
    requires Touched(s, version, now, now, t, true) && Rewrote(s, View(version, v.entries), now, now, u, true)
    ensures Synced(t) && Synced(u) && Live(t.disk) == Live(u.disk) == View(version, v.entries)
    ensures t.disk.meta.meta.savedAt == u.disk.meta.meta.savedAt && ConfirmedAt(t.disk) == ConfirmedAt(u.disk)
  {
    TouchLaw(s, version, now, now, t, true);
    RewriteLaw(s, View(version, v.entries), now, now, u, true);
  }

  // ----- confirmation and age

  /** Single-key writes and background rewrites, failed or not, never move the confirmation time. */
  lemma OnlyReplacesConfirm(w: World, ev: Event, w': World)
    requires Inv(w) && Step(w, ev, w')
    requires ev.Retry? || (ev.Mutate? && !ev.m.ReplaceAll?)
    ensures ConfirmedAt(w'.disk) == ConfirmedAt(w.disk)
  {
    var p := w.proc.value;
    if ev.Retry? {
      var p' :| RetryStep(w, p, ev.now, ev.crashed, p', w');
      RetryKeepsInv(w, ev.now, ev.crashed, p', w');
    } else {
      var p' :| MutateStep(w, p, ev.m, ev.now, ev.r, ev.crashed, p', w');
      if Judge(ViewOf(p.reg), ev.m).Accepted? && p.link.wired && !p.link.closed {
        WriteLaw(p.link.store, p.link.dirty, ViewOf(p.reg), ev.m, ViewOf(p'.reg), w.left, ev.now, p'.link.store,
                 ev.r == Done);
      }
    }
  }

  predicate Stamped(d: Disk, version: string, now: Time) {
    d.meta.GoodMeta? && d.meta.meta.version == version && d.meta.meta.savedAt == now
  }

  lemma RewriteStamps(s: Store, v: View, now: Time, confirmedAt: Time, s': Store)
    requires Rewrote(s, v, now, confirmedAt, s', true)
    ensures Stamped(s'.disk, v.version, now)
  {
  }

  lemma WriteStamps(s: Store, dirty: bool, v: View, m: Mutation, v': View, now: Time, s': Store)
    requires Wrote(s, dirty, v, m, v', now, s', true) && v'.version == m.version
    ensures Stamped(s'.disk, m.version, now)
  {
    if dirty {
      RewriteStamps(s, v', now, if m.ReplaceAll? then now else 0, s');
    } else if m.ReplaceAll? && v.entries != v'.entries {
      RewriteStamps(s, v', now, now, s');
    }
  }

  /** What an acknowledged mutation of a process with a store wrote. */
  lemma AcknowledgedWrote(p: Provider, m: Mutation, now: Time, p': Provider)
    requires p.link.wired && Mutated(p, m, now, p', Done)
    ensures var v' := ViewOf(p'.reg);
            v'.version == m.version
            && Wrote(p.link.store, p.link.dirty, ViewOf(p.reg), m, v', now, p'.link.store, true)
  {
  }

  /** A mutation that a process with a store acknowledges leaves its version and its time in the meta cell ... */
  lemma AcknowledgedIsStamped(w: World, ev: Event, w': World)
    requires Inv(w) && Step(w, ev, w') && ev.Mutate? && ev.r == Done && w.proc.Some? && w.proc.value.link.wired
    ensures w'.disk.meta.GoodMeta?
    ensures w'.disk.meta.meta.version == ev.m.version && w'.disk.meta.meta.savedAt == ev.now
  {
    var p := w.proc.value;
    var p' :| MutateStep(w, p, ev.m, ev.now, ev.r, ev.crashed, p', w');
    AcknowledgedWrote(p, ev.m, ev.now, p');
    WriteStamps(p.link.store, p.link.dirty, ViewOf(p.reg), ev.m, ViewOf(p'.reg), ev.now, p'.link.store);
  }

  /** ... and a full replace confirms the snapshot at that time. */
  lemma ReplaceConfirmsNow(w: World, ev: Event, w': World)
    requires Inv(w) && Step(w, ev, w') && ev.Mutate? && ev.m.ReplaceAll? && ev.r == Done && ev.now != 0
    requires w.proc.Some? && w.proc.value.link.wired
    ensures ConfirmedAt(w'.disk) == ev.now
  {
    var p := w.proc.value;
    var p' :| MutateStep(w, p, ev.m, ev.now, ev.r, ev.crashed, p', w');
  }

  ghost predicate ConfirmedAndYoung(d: Disk, now: Time, maxAge: int) {
    && d.meta.GoodMeta? && ConfirmedAt(d) != 0
    && now - d.meta.meta.savedAt <= maxAge && now - ConfirmedAt(d) <= maxAge
  }

  lemma AgeGate(w: World, ev: Event, w': World)
    requires Step(w, ev, w') && ev.Restart? && ev.report.Installed? && ev.opts.maxAge > 0
    ensures ConfirmedAndYoung(w.disk, ev.now, ev.opts.maxAge)
  {
    var b := Boot(w.disk);
    var p' :| RestartStep(w, ev.opts, ev.now, ev.report, ev.crashed, p', w');
    var s, snap :| WasLoaded(b.link.store, s, snap) && WarmStart(b, s, snap, ev.opts, ev.now, p', ev.report);
  }

  /** The age rule over the disk and the options: no max age, or confirmed and not older than that. */
  ghost predicate Acceptable(d: Disk, opts: LoadOptions, now: Time) {
    opts.maxAge <= 0 || ConfirmedAndYoung(d, now, opts.maxAge)
  }

  lemma InstallsIff(d: Disk, opts: LoadOptions, now: Time, p': Provider, report: Report)
    requires WarmStarted(Boot(d), opts, now, p', report) && d.meta.GoodMeta? && report != Failed(false)
    ensures report.Installed? <==> Acceptable(d, opts, now)
    ensures report.Installed? || report == Discarded || report == Failed(true)
  {
    var b := Boot(d);
    var s, snap :| WasLoaded(b.link.store, s, snap) && WarmStart(b, s, snap, opts, now, p', report);
  }

  /**
   * A warm start whose reads succeed on a good meta cell installs the snapshot if and only if there is no max age, or
   * the snapshot was confirmed and neither its last write nor its confirmation is older than that.
   */
  lemma WarmStartInstallsIff(w: World, ev: Event, w': World)
    requires Step(w, ev, w') && ev.Restart? && ev.report != Failed(false) && w.disk.meta.GoodMeta?
    ensures var m := w.disk.meta.meta;
            ev.report.Installed? <==>
              || ev.opts.maxAge <= 0
              || (&& m.confirmedAt != 0
                  && ev.now - m.savedAt <= ev.opts.maxAge && ev.now - m.confirmedAt <= ev.opts.maxAge)
  {
    var p' :| RestartStep(w, ev.opts, ev.now, ev.report, ev.crashed, p', w');
    InstallsIff(w.disk, ev.opts, ev.now, p', ev.report);
  }

  /**
   * With a max age, a warm start installs a snapshot only when its last write and its last confirmation
   * are both within that age, and the confirmation is the time of a real full replace since the last
   * completed reset.
   */
  lemma InstalledOnlyIfConfirmedAndYoung(ws: seq<World>, evs: seq<Event>, i: nat)
    requires Run(ws, evs) && i < |evs|
    requires evs[i].Restart? && evs[i].report.Installed? && evs[i].opts.maxAge > 0
    ensures ConfirmedAndYoung(ws[i].disk, evs[i].now, evs[i].opts.maxAge)
    ensures ConfirmedAt(ws[i].disk) in ws[i].confirms
  {
    InvAlongRun(ws, evs, i);
    AgeGate(ws[i], evs[i], ws[i + 1]);
  }

  // ----- warm start

  /** `kept` is `live` without its expired entries and those the admission check refuses. */
  ghost predicate Filtered(live: map<string, Entry>, opts: LoadOptions, now: Time, kept: map<string, Entry>) {
    && (forall id :: id in kept ==> id in live && kept[id] == live[id])
    && (forall id :: id in live ==> (id in kept <==> Restorable(live[id], opts, now)))
  }

  /** No two records that would be restored share a hash. */
  ghost predicate NoClash(live: map<string, Entry>, opts: LoadOptions, now: Time) {
    forall a, b :: a in live && b in live && a != b && live[a].keyHash == live[b].keyHash ==>
      !Restorable(live[a], opts, now) || !Restorable(live[b], opts, now)
  }

  predicate Restorable(e: Entry, opts: LoadOptions, now: Time) {
    (e.expiresAt.None? || now < e.expiresAt.value) && opts.admit(e)
  }

  lemma ListedAt(s: Store, keys: seq<PersistedKey>, id: string) returns (i: nat)
    requires Lists(s.disk.recs, s.gen, keys) && id in Readable(s.disk.recs, s.gen)
    ensures i < |keys| && keys[i] == PersistedKey(id, Some(Readable(s.disk.recs, s.gen)[id]))
  {
    IdsOfMembers(keys);
    assert RecordKey(s.gen, id).id in IdsOf(keys);
    i :| 0 <= i < |keys| && keys[i].id == id;
    assert IsRecord(s.disk.recs, s.gen, keys[i]);
  }

  /** A live record is restored if it is restorable, unless a record restored before it has its hash. */
  lemma LiveRecordIsJudged(s: Store, keys: seq<PersistedKey>, opts: LoadOptions, now: Time,
                           kept: map<string, Entry>, skipped: set<string>, id: string)
    requires ValidDisk(s.disk) && Lists(s.disk.recs, s.gen, keys) && Restores(keys, opts, now, kept, skipped)
    requires id in Readable(s.disk.recs, s.gen)
    ensures var e := Readable(s.disk.recs, s.gen)[id];
            && (id in kept ==> kept[id] == e && Restorable(e, opts, now))
            && (id !in kept && Restorable(e, opts, now) ==> HashHeld(kept, e.keyHash, id))
  {
    var e := Readable(s.disk.recs, s.gen)[id];
    var i := ListedAt(s, keys, id);
    assert Accounted(keys[i], opts, now, kept, skipped) && ValidEntry(e);
    ValidIsNormal(e);
  }

  lemma InstalledIsFiltered(d: Disk, s: Store, snap: Loaded, opts: LoadOptions, now: Time, p': Provider, r: Report)
    requires ValidDisk(d) && NoClash(Live(d).entries, opts, now)
    requires WasLoaded(Store(d, 0, 0), s, snap) && snap.Snapshot?
    requires InstalledSnapshot(s, snap, opts, now, Boot(d), p', r)
    ensures Filtered(Live(d).entries, opts, now, p'.reg.byID)
  {
    var live, kept := Live(d).entries, p'.reg.byID;
    LoadLaw(Store(d, 0, 0), s, snap);
    forall id | id in kept ensures id in live && kept[id] == live[id] {
      KeptIsLive(s, snap.keys, opts, now, kept, r.skipped, id);
    }
    forall id | id in live ensures id in kept <==> Restorable(live[id], opts, now) {
      LiveRecordIsJudged(s, snap.keys, opts, now, kept, r.skipped, id);
      if id !in kept && Restorable(live[id], opts, now) {
        var other :| other in kept && kept[other].keyHash == live[id].keyHash && LexLess(other, id);
        LiveRecordIsJudged(s, snap.keys, opts, now, kept, r.skipped, other);
        assert false;
      }
    }
  }

  lemma FilteredHasNoClash(live: map<string, Entry>, opts: LoadOptions, now: Time, r: Registry)
    requires OneRegistry(r) && Filtered(live, opts, now, r.byID)
    ensures NoClash(live, opts, now)
  {
    RegistryHasUniqueHashes(r);
  }

  lemma InstalledFrom(d: Disk, opts: LoadOptions, now: Time, report: Report, p': Provider)
    returns (s: Store, snap: Loaded)
    requires WarmStarted(Boot(d), opts, now, p', report) && report.Installed?
    ensures WasLoaded(Store(d, 0, 0), s, snap) && snap.Snapshot?
    ensures InstalledSnapshot(s, snap, opts, now, Boot(d), p', report)
  {
    s, snap :| WasLoaded(Boot(d).link.store, s, snap) && WarmStart(Boot(d), s, snap, opts, now, p', report);
  }

  lemma InstallRestoresIff(d: Disk, s: Store, snap: Loaded, opts: LoadOptions, now: Time, p': Provider, r: Report)
    requires ValidDisk(d) && WasLoaded(Store(d, 0, 0), s, snap) && snap.Snapshot?
    requires InstalledSnapshot(s, snap, opts, now, Boot(d), p', r)
    ensures p'.reg.version == Live(d).version
    ensures Filtered(Live(d).entries, opts, now, p'.reg.byID) <==> NoClash(Live(d).entries, opts, now)
  {
    LoadLaw(Store(d, 0, 0), s, snap);
    EmptyIsLeast(snap.version);
    if NoClash(Live(d).entries, opts, now) { InstalledIsFiltered(d, s, snap, opts, now, p', r); }
    if Filtered(Live(d).entries, opts, now, p'.reg.byID) {
      FilteredHasNoClash(Live(d).entries, opts, now, p'.reg);
    }
  }

  lemma FilteredMeans(live: map<string, Entry>, opts: LoadOptions, now: Time, kept: map<string, Entry>, id: string)
    requires Filtered(live, opts, now, kept)
    ensures id in kept <==>
            id in live && (live[id].expiresAt.None? || now < live[id].expiresAt.value) && opts.admit(live[id])
    ensures id in kept ==> kept[id] == live[id]
  {
  }

  /**
   * In every reachable state, leftovers included, a warm start that installs a snapshot restores exactly the stored
   * keys that are neither expired nor refused, unchanged, if and only if no two of those share a hash; the version is
   * restored in any case.
   */
  lemma WarmStartRestoresIff(w: World, ev: Event, w': World)
    requires Inv(w) && Step(w, ev, w') && ev.Restart? && ev.report.Installed? && !ev.crashed
    ensures w'.proc.Some? && w'.proc.value.reg.version == Live(w.disk).version
    ensures Filtered(Live(w.disk).entries, ev.opts, ev.now, w'.proc.value.reg.byID)
            <==> NoClash(Live(w.disk).entries, ev.opts, ev.now)
    ensures NoClash(Live(w.disk).entries, ev.opts, ev.now) ==>
              var live, kept := Live(w.disk).entries, w'.proc.value.reg.byID;
              forall id :: id in kept <==>
                id in live && (live[id].expiresAt.None? || ev.now < live[id].expiresAt.value) && ev.opts.admit(live[id])
  {
    var p' :| RestartStep(w, ev.opts, ev.now, ev.report, ev.crashed, p', w');
    var s, snap := InstalledFrom(w.disk, ev.opts, ev.now, ev.report, p');
    InstallRestoresIff(w.disk, s, snap, ev.opts, ev.now, p', ev.report);
    var live, kept := Live(w.disk).entries, p'.reg.byID;
    if NoClash(live, ev.opts, ev.now) {
      forall id
        ensures id in kept <==> id in live && (live[id].expiresAt.None? || ev.now < live[id].expiresAt.value)
                                && ev.opts.admit(live[id])
      {
        FilteredMeans(live, ev.opts, ev.now, kept, id);
      }
    }
  }

  /** Without leftovers nothing clashes: every registry the disk can hold was one the router had in memory. */
  lemma NoLeftoversNoClash(w: World, opts: LoadOptions, now: Time)
    requires Inv(w) && NoSharedHashes(w) && w.left == map[]
    ensures NoClash(Live(w.disk).entries, opts, now)
  {
    var u :| u in w.since && Extends(Live(w.disk), u, w.left);
    ExtendsNothing(Live(w.disk), u);
  }

  lemma KeptIsLive(s: Store, keys: seq<PersistedKey>, opts: LoadOptions, now: Time,
                   kept: map<string, Entry>, skipped: set<string>, id: string)
    requires ValidDisk(s.disk) && Lists(s.disk.recs, s.gen, keys) && Restores(keys, opts, now, kept, skipped)
    requires id in kept
    ensures var live := Readable(s.disk.recs, s.gen); id in live && live[id] == kept[id]
  {
    IdsOfMembers(keys);
    var i :| 0 <= i < |keys| && keys[i].id == id;
    assert IsRecord(s.disk.recs, s.gen, keys[i]) && Accounted(keys[i], opts, now, kept, skipped);
    ValidIsNormal(keys[i].entry.value);
  }

  // ----- version

  predicate EndsProcess(ev: Event) {
    match ev
    case Mutate(_, _, _, crashed) => crashed
    case Retry(_, crashed) => crashed
    case Close => false
    case Crash => true
    case Restart(_, _, _, _) => true
  }

  lemma StepKeepsVersion(w: World, ev: Event, w': World)
    requires w.proc.Some? && Step(w, ev, w') && !EndsProcess(ev)
    ensures w'.proc.Some? && !LexLess(w'.proc.value.reg.version, w.proc.value.reg.version)
  {
    NotLessItself(w.proc.value.reg.version);
    if ev.Mutate? {
      var p' :| MutateStep(w, w.proc.value, ev.m, ev.now, ev.r, ev.crashed, p', w');
    } else if ev.Retry? {
      var p' :| RetryStep(w, w.proc.value, ev.now, ev.crashed, p', w');
    }
  }

  /** Within one process the registry version never decreases. */
  lemma {:induction false} VersionNeverDecreases(ws: seq<World>, evs: seq<Event>, i: nat, j: nat)
    requires Run(ws, evs) && i <= j < |ws| && ws[i].proc.Some?
    requires forall k :: i <= k < j ==> !EndsProcess(evs[k])
    ensures ws[j].proc.Some? && !LexLess(ws[j].proc.value.reg.version, ws[i].proc.value.reg.version)
    decreases j
  {
    if i == j {
      NotLessItself(ws[i].proc.value.reg.version);
    } else {
      VersionNeverDecreases(ws, evs, i, j - 1);
      StepKeepsVersion(ws[j - 1], evs[j - 1], ws[j]);
      NotLessIsTransitive(ws[i].proc.value.reg.version, ws[j - 1].proc.value.reg.version, ws[j].proc.value.reg.version);
    }
  }
}
