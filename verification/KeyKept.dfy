/** A key whose setting was acknowledged stays: the counterpart of revocation. */
module KeyKept {
  import opened Prelude
  import opened KeyEntry
  import opened KeyStore
  import opened KeyStoreLaws
  import opened KeyRegistry
  import opened KeyDurability
  import opened KeyPromises

  predicate Has(v: View, e: Entry) {
    e.id in v.entries && v.entries[e.id] == e
  }

  /** The disk and every registry in the history hold the entry. */
  ghost predicate Held(e: Entry, w: World) {
    Has(Live(w.disk), e) && forall v :: v in w.since ==> Has(v, e)
  }

  /** The mutation, if it is accepted, leaves the key out or replaces it. */
  predicate Changes(m: Mutation, e: Entry) {
    match m
    case Upsert(_, raw) => raw.id == e.id && Normalize(raw) != Some(e)
    case Delete(_, id) => id == e.id
    case ReplaceAll(_, raw) => NormalizeAll(raw).Some? && e !in NormalizeAll(raw).value
  }

  /** A live record listed before the key would be restored under the key's hash. */
  ghost predicate Rivaled(live: map<string, Entry>, opts: LoadOptions, now: Time, e: Entry) {
    exists id :: id in live && LexLess(id, e.id) && live[id].keyHash == e.keyHash && Restorable(live[id], opts, now)
  }

  /** A warm start that can read the disk drops the key: with the whole snapshot, or as one of its records. */
  ghost predicate Drops(d: Disk, opts: LoadOptions, now: Time, e: Entry) {
    !Acceptable(d, opts, now) || !Restorable(e, opts, now) || Rivaled(Live(d).entries, opts, now, e)
  }

  /**
   * The event is a mutation that a process with a store accepts and that replaces or removes the key, or a warm start
   * that can read the disk and finds the snapshot too old, does not admit the key, or admits a record with its hash
   * listed before it.
   */
  ghost predicate Touches(w: World, ev: Event, e: Entry) {
    match ev
    case Mutate(m, _, _, _) =>
      && w.proc.Some? && w.proc.value.link.wired && Judge(ViewOf(w.proc.value.reg), m).Accepted?
      && Changes(m, e)
    case Restart(opts, now, report, _) => report != Failed(false) && Drops(w.disk, opts, now, e)
    case _ => false
  }

  // ----- one step

  /** A list of distinct keys holds each of them under its id. */
  lemma ListedIsHeld(es: seq<Entry>, e: Entry)
    requires DistinctKeys(es) && e in es
    ensures e.id in ById(es) && ById(es)[e.id] == e
  {
    ByIdMembers(es);
    var i :| 0 <= i < |es| && es[i] == e;
    var j :| 0 <= j < |es| && es[j] == ById(es)[e.id];
  }

  lemma JudgeKeeps(v: View, m: Mutation, e: Entry)
    requires Has(v, e) && !Changes(m, e) && Judge(v, m).Accepted?
    ensures Has(Judge(v, m).view, e)
  {
    if m.ReplaceAll? { ListedIsHeld(NormalizeAll(m.entries).value, e); }
  }

  lemma WriteKeeps(s: Store, v': View, left: map<string, Entry>, s': Store, ok: bool, e: Entry)
    requires GoodWrite(s, v', left, s', ok) && Has(v', e) && (ok || Has(Live(s.disk), e))
    ensures Has(Live(s'.disk), e)
  {
  }

  /** What is on disk after a mutation's write. */
  lemma PersistKeeps(w: World, p: Provider, m: Mutation, now: Time, r: Outcome, p': Provider, e: Entry)
    requires Inv(w) && w.proc == Some(p) && p.link.wired && Mutated(p, m, now, p', r)
    requires Judge(ViewOf(p.reg), m).Accepted?
    requires Has(Judge(ViewOf(p.reg), m).view, e) && (r == Done || Has(Live(w.disk), e))
    ensures Has(Live(p'.link.store.disk), e)
  {
    var v' := Judge(ViewOf(p.reg), m).view;
    if !p.link.closed {
      WriteLaw(p.link.store, p.link.dirty, ViewOf(p.reg), m, v', w.left, now, p'.link.store, r == Done);
      WriteKeeps(p.link.store, v', w.left, p'.link.store, r == Done, e);
    }
  }

  /** What an accepted mutation of a process with a store adds to the history. */
  lemma MutateAdds(w: World, m: Mutation, now: Time, r: Outcome, crashed: bool, p': Provider, w': World)
    requires w.proc.Some? && w.proc.value.link.wired && MutateStep(w, w.proc.value, m, now, r, crashed, p', w')
    requires Judge(ViewOf(w.proc.value.reg), m).Accepted?
    ensures w'.disk == p'.link.store.disk && w'.since <= w.since + {Judge(ViewOf(w.proc.value.reg), m).view}
  {
  }

  lemma AddedKeepsHeld(w: World, v: View, w': World, e: Entry)
    requires Held(e, w) && Has(v, e) && Has(Live(w'.disk), e) && w'.since <= w.since + {v}
    ensures Held(e, w')
  {
  }

  lemma SetKeepsHeld(w: World, m: Mutation, now: Time, r: Outcome, crashed: bool, p': Provider, w': World, e: Entry)
    requires Inv(w) && Held(e, w) && w.proc.Some? && w.proc.value.link.wired && !Changes(m, e)
    requires MutateStep(w, w.proc.value, m, now, r, crashed, p', w') && Judge(ViewOf(w.proc.value.reg), m).Accepted?
    ensures Held(e, w')
  {
    var p := w.proc.value;
    JudgeKeeps(ViewOf(p.reg), m, e);
    PersistKeeps(w, p, m, now, r, p', e);
    MutateAdds(w, m, now, r, crashed, p', w');
    AddedKeepsHeld(w, Judge(ViewOf(p.reg), m).view, w', e);
  }

  lemma MutateKeepsHeld(w: World, m: Mutation, now: Time, r: Outcome, crashed: bool, p': Provider, w': World, e: Entry)
    requires Inv(w) && Held(e, w) && w.proc.Some? && !Touches(w, Mutate(m, now, r, crashed), e)
    requires MutateStep(w, w.proc.value, m, now, r, crashed, p', w')
    ensures Held(e, w')
  {
    var p := w.proc.value;
    if p.link.wired && Judge(ViewOf(p.reg), m).Accepted? {
      SetKeepsHeld(w, m, now, r, crashed, p', w', e);
    } else {
      assert w'.disk == w.disk && w'.since == w.since;
    }
  }

  lemma RetryKeepsHeld(w: World, now: Time, crashed: bool, p': Provider, w': World, e: Entry)
    requires Inv(w) && Held(e, w) && w.proc.Some? && RetryStep(w, w.proc.value, now, crashed, p', w')
    ensures Held(e, w')
  {
    var p := w.proc.value;
    if !p.link.closed && p.link.dirty {
      var ok: bool :| Rewrote(p.link.store, ViewOf(p.reg), now, 0, p'.link.store, ok)
                      && p' == p.(link := Link(p.link.wired, p'.link.store, !ok, p.link.closed, !ok));
      RewriteLaw(p.link.store, ViewOf(p.reg), now, 0, p'.link.store, ok);
    }
  }

  /** A live record that is admitted and has no rival for its hash is restored ... */
  lemma UnrivaledIsKept(s: Store, keys: seq<PersistedKey>, opts: LoadOptions, now: Time, kept: map<string, Entry>,
                        skipped: set<string>, e: Entry)
    requires ValidDisk(s.disk) && Lists(s.disk.recs, s.gen, keys) && Restores(keys, opts, now, kept, skipped)
    requires var live := Readable(s.disk.recs, s.gen);
             e.id in live && live[e.id] == e && Restorable(e, opts, now) && !Rivaled(live, opts, now, e)
    ensures e.id in kept && kept[e.id] == e
  {
    LiveRecordIsJudged(s, keys, opts, now, kept, skipped, e.id);
    if e.id !in kept {
      var id :| id in kept && kept[id].keyHash == e.keyHash && LexLess(id, e.id);
      KeptIsLive(s, keys, opts, now, kept, skipped, id);
      LiveRecordIsJudged(s, keys, opts, now, kept, skipped, id);
      assert false;
    }
  }

  lemma InstallKeeps(w: World, s: Store, snap: Loaded, opts: LoadOptions, now: Time, p': Provider, r: Report, e: Entry)
    requires Inv(w) && Has(Live(w.disk), e) && Restorable(e, opts, now) && !Rivaled(Live(w.disk).entries, opts, now, e)
    requires WasLoaded(Store(w.disk, 0, 0), s, snap) && snap.Snapshot?
    requires InstalledSnapshot(s, snap, opts, now, Boot(w.disk), p', r)
    ensures Has(ViewOf(p'.reg), e) && Has(Live(p'.link.store.disk), e)
  {
    LoadLaw(Store(w.disk, 0, 0), s, snap);
    UnrivaledIsKept(s, snap.keys, opts, now, p'.reg.byID, r.skipped, e);
    RestoredExtends(s, snap.keys, opts, now, p'.reg.byID, r.skipped, p'.link.store.disk.recs);
  }

  lemma NothingInstalled(d: Disk, opts: LoadOptions, now: Time, p': Provider, report: Report)
    requires WarmStarted(Boot(d), opts, now, p', report) && report == Failed(false)
    ensures p'.link.store.disk == d
  {
  }

  /** A warm start that admits the key, and none with its hash before it, keeps it on disk and puts it into memory. */
  lemma WarmStartKeeps(w: World, opts: LoadOptions, now: Time, report: Report, p': Provider, e: Entry)
    requires Inv(w) && Has(Live(w.disk), e) && (report == Failed(false) || !Drops(w.disk, opts, now, e))
    requires WarmStarted(Boot(w.disk), opts, now, p', report)
    ensures Has(Live(p'.link.store.disk), e) && (report != Failed(false) ==> report.Installed?)
    ensures report.Installed? ==> Has(ViewOf(p'.reg), e)
  {
    if report != Failed(false) {
      InstallsIff(w.disk, opts, now, p', report);
      var s, snap := InstalledFrom(w.disk, opts, now, report, p');
      InstallKeeps(w, s, snap, opts, now, p', report, e);
    } else {
      NothingInstalled(w.disk, opts, now, p', report);
    }
  }

  lemma RestartKeepsHeld(w: World, opts: LoadOptions, now: Time, report: Report, crashed: bool, p': Provider, w': World,
                         e: Entry)
    requires Inv(w) && Held(e, w) && (report == Failed(false) || !Drops(w.disk, opts, now, e))
    requires RestartStep(w, opts, now, report, crashed, p', w')
    ensures Held(e, w')
  {
    WarmStartKeeps(w, opts, now, report, p', e);
    if report.Installed? { AddedKeepsHeld(w, ViewOf(p'.reg), w', e); }
  }

  lemma StepKeepsHeld(w: World, ev: Event, w': World, e: Entry)
    requires Inv(w) && Step(w, ev, w') && Held(e, w) && !Touches(w, ev, e)
    ensures Held(e, w')
  {
    match ev
    case Mutate(m, now, r, crashed) =>
      var p' :| MutateStep(w, w.proc.value, m, now, r, crashed, p', w');
      MutateKeepsHeld(w, m, now, r, crashed, p', w', e);
    case Retry(now, crashed) =>
      var p' :| RetryStep(w, w.proc.value, now, crashed, p', w');
      RetryKeepsHeld(w, now, crashed, p', w', e);
    case Restart(opts, now, report, crashed) =>
      var p' :| RestartStep(w, opts, now, report, crashed, p', w');
      RestartKeepsHeld(w, opts, now, report, crashed, p', w', e);
    case _ =>
  }

  // ----- and the converse

  lemma ChangedIsLost(v: View, m: Mutation, e: Entry)
    requires Changes(m, e) && Judge(v, m).Accepted?
    ensures !Has(Judge(v, m).view, e)
  {
    if m.ReplaceAll? { ByIdMembers(NormalizeAll(m.entries).value); }
  }

  /** ... and one with a rival is not: the first of those with the hash is kept, and it is not this one. */
  lemma RivaledIsLost(s: Store, keys: seq<PersistedKey>, opts: LoadOptions, now: Time, kept: map<string, Entry>,
                      skipped: set<string>, e: Entry)
    requires ValidDisk(s.disk) && Lists(s.disk.recs, s.gen, keys) && Restores(keys, opts, now, kept, skipped)
    requires UniqueHashes(kept) && Rivaled(Readable(s.disk.recs, s.gen), opts, now, e)
    ensures !(e.id in kept && kept[e.id] == e)
  {
    var live := Readable(s.disk.recs, s.gen);
    var id :| id in live && LexLess(id, e.id) && live[id].keyHash == e.keyHash && Restorable(live[id], opts, now);
    NotLessItself(e.id);
    LiveRecordIsJudged(s, keys, opts, now, kept, skipped, id);
    if id !in kept {
      var other :| other in kept && kept[other].keyHash == e.keyHash && LexLess(other, id);
      LessIsTransitive(other, id, e.id);
    }
  }

  lemma UninstalledIsLost(s: Store, keys: seq<PersistedKey>, opts: LoadOptions, now: Time, kept: map<string, Entry>,
                          skipped: set<string>, e: Entry)
    requires ValidDisk(s.disk) && Lists(s.disk.recs, s.gen, keys) && Restores(keys, opts, now, kept, skipped)
    requires UniqueHashes(kept)
    requires var live := Readable(s.disk.recs, s.gen);
             e.id in live && live[e.id] == e && (!Restorable(e, opts, now) || Rivaled(live, opts, now, e))
    ensures !(e.id in kept && kept[e.id] == e)
  {
    if Restorable(e, opts, now) {
      RivaledIsLost(s, keys, opts, now, kept, skipped, e);
    } else {
      LiveRecordIsJudged(s, keys, opts, now, kept, skipped, e.id);
    }
  }

  lemma InstallLoses(w: World, s: Store, snap: Loaded, opts: LoadOptions, now: Time, p': Provider, r: Report, e: Entry)
    requires Inv(w) && Has(Live(w.disk), e)
    requires !Restorable(e, opts, now) || Rivaled(Live(w.disk).entries, opts, now, e)
    requires WasLoaded(Store(w.disk, 0, 0), s, snap) && snap.Snapshot?
    requires InstalledSnapshot(s, snap, opts, now, Boot(w.disk), p', r)
    ensures !Has(ViewOf(p'.reg), e)
  {
    LoadLaw(Store(w.disk, 0, 0), s, snap);
    RegistryHasUniqueHashes(p'.reg);
    UninstalledIsLost(s, snap.keys, opts, now, p'.reg.byID, r.skipped, e);
  }

  lemma WarmStartLoses(w: World, opts: LoadOptions, now: Time, report: Report, p': Provider, e: Entry)
    requires Inv(w) && Has(Live(w.disk), e) && report.Installed?
    requires !Restorable(e, opts, now) || Rivaled(Live(w.disk).entries, opts, now, e)
    requires WarmStarted(Boot(w.disk), opts, now, p', report)
    ensures !Has(ViewOf(p'.reg), e)
  {
    var s, snap := InstalledFrom(w.disk, opts, now, report, p');
    InstallLoses(w, s, snap, opts, now, p', report, e);
  }

  lemma AddedLoses(v: View, w': World, e: Entry)
    requires v in w'.since && !Has(v, e)
    ensures !Held(e, w')
  {
  }

  lemma RestartLoses(w: World, opts: LoadOptions, now: Time, report: Report, crashed: bool, p': Provider, w': World,
                     e: Entry)
    requires Inv(w) && Held(e, w) && report != Failed(false) && Drops(w.disk, opts, now, e)
    requires RestartStep(w, opts, now, report, crashed, p', w')
    ensures !Held(e, w')
  {
    InstallsIff(w.disk, opts, now, p', report);
    if report.Installed? {
      WarmStartLoses(w, opts, now, report, p', e);
      AddedLoses(ViewOf(p'.reg), w', e);
    } else {
      AddedLoses(NOTHING, w', e);
    }
  }

  /** A step keeps the key if and only if it does not touch it. */
  lemma KeptIffUntouched(w: World, ev: Event, w': World, e: Entry)
    requires Inv(w) && Step(w, ev, w') && Held(e, w)
    ensures Held(e, w') <==> !Touches(w, ev, e)
  {
    if !Touches(w, ev, e) {
      StepKeepsHeld(w, ev, w', e);
    } else if ev.Mutate? {
      var p' :| MutateStep(w, w.proc.value, ev.m, ev.now, ev.r, ev.crashed, p', w');
      var v := Judge(ViewOf(w.proc.value.reg), ev.m).view;
      ChangedIsLost(ViewOf(w.proc.value.reg), ev.m, e);
      AddedLoses(v, w', e);
    } else {
      var p' :| RestartStep(w, ev.opts, ev.now, ev.report, ev.crashed, p', w');
      RestartLoses(w, ev.opts, ev.now, ev.report, ev.crashed, p', w', e);
    }
  }

  // ----- whole runs

  predicate Sets(m: Mutation, e: Entry) {
    match m
    case Upsert(_, raw) => Normalize(raw) == Some(e)
    case Delete(_, _) => false
    case ReplaceAll(_, raw) => NormalizeAll(raw).Some? && e in NormalizeAll(raw).value
  }

  /** The event sets the key, alone or within a full push, and a process with a store acknowledges it. */
  ghost predicate DurablySets(w: World, ev: Event, e: Entry) {
    ev.Mutate? && Sets(ev.m, e) && ev.r == Done && !ev.crashed && w.proc.Some? && w.proc.value.link.wired
  }

  lemma SetMakesHeld(w: World, ev: Event, w': World, e: Entry)
    requires Inv(w) && Step(w, ev, w') && DurablySets(w, ev, e)
    ensures Held(e, w')
  {
    var p := w.proc.value;
    var p' :| MutateStep(w, p, ev.m, ev.now, ev.r, ev.crashed, p', w');
    SetIsJudged(ViewOf(p.reg), ev.m, e);
    PersistKeeps(w, p, ev.m, ev.now, ev.r, p', e);
  }

  lemma SetIsJudged(v: View, m: Mutation, e: Entry)
    requires Sets(m, e) && Judge(v, m).Accepted?
    ensures Has(Judge(v, m).view, e)
  {
    if m.ReplaceAll? { ListedIsHeld(NormalizeAll(m.entries).value, e); }
  }

  lemma HeldIsInMemory(w: World, e: Entry)
    requires Inv(w) && Held(e, w) && w.proc.Some? && w.proc.value.link.wired
    ensures Has(ViewOf(w.proc.value.reg), e)
  {
  }

  /** No step between i and j touches the key. */
  ghost predicate Undisturbed(ws: seq<World>, evs: seq<Event>, i: nat, j: nat, e: Entry)
    requires |ws| == |evs| + 1 && j < |ws|
  {
    forall k :: i < k < j ==> !Touches(ws[k], evs[k], e)
  }

  lemma NextTouchesOrKeeps(ws: seq<World>, evs: seq<Event>, k: nat, e: Entry)
    requires Run(ws, evs) && k < |evs| && Held(e, ws[k])
    ensures Held(e, ws[k + 1]) <==> !Touches(ws[k], evs[k], e)
  {
    InvAlongRun(ws, evs, k);
    KeptIffUntouched(ws[k], evs[k], ws[k + 1], e);
  }

  lemma {:induction false} HeldFrom(ws: seq<World>, i: nat, j: nat, e: Entry)
    requires i < j < |ws| && Held(e, ws[i + 1])
    requires forall k :: i < k < j && Held(e, ws[k]) ==> Held(e, ws[k + 1])
    ensures Held(e, ws[j])
    decreases j
  {
    if j > i + 1 { HeldFrom(ws, i, j - 1, e); }
  }

  /**
   * A key whose setting a process with a store acknowledged, alone or within a full push, is still on disk, and in the
   * memory of every later process with a store, through any failures, repairs, crashes, warm starts, leftovers, refused
   * mutations and full pushes that carry it, as long as no accepted mutation replaces or removes it and every warm
   * start admits it and no record with its hash listed before it.
   */
  lemma AcknowledgedKeyStays(ws: seq<World>, evs: seq<Event>, i: nat, j: nat, e: Entry)
    requires Run(ws, evs) && i < j < |ws| && DurablySets(ws[i], evs[i], e) && Undisturbed(ws, evs, i, j, e)
    ensures Held(e, ws[j])
    ensures ws[j].proc.Some? && ws[j].proc.value.link.wired ==> Has(ViewOf(ws[j].proc.value.reg), e)
  {
    InvAlongRun(ws, evs, i);
    SetMakesHeld(ws[i], evs[i], ws[i + 1], e);
    forall k | i < k < j && Held(e, ws[k]) ensures Held(e, ws[k + 1]) { NextTouchesOrKeeps(ws, evs, k, e); }
    HeldFrom(ws, i, j, e);
    InvAlongRun(ws, evs, j);
    if ws[j].proc.Some? && ws[j].proc.value.link.wired { HeldIsInMemory(ws[j], e); }
  }

  /** An acknowledged key is held all along a run if and only if no step of it touches the key. */
  lemma KeptAlongRunIff(ws: seq<World>, evs: seq<Event>, i: nat, j: nat, e: Entry)
    requires Run(ws, evs) && i < j < |ws| && DurablySets(ws[i], evs[i], e)
    ensures (forall k :: i < k <= j ==> Held(e, ws[k])) <==> Undisturbed(ws, evs, i, j, e)
  {
    if Undisturbed(ws, evs, i, j, e) {
      forall k | i < k <= j ensures Held(e, ws[k]) { AcknowledgedKeyStays(ws, evs, i, k, e); }
    } else if forall k :: i < k <= j ==> Held(e, ws[k]) {
      forall k | i < k < j ensures !Touches(ws[k], evs[k], e) { NextTouchesOrKeeps(ws, evs, k, e); }
    }
  }
}
