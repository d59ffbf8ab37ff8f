/**
 * The in-memory key registry and its persistence: two indexes and a version, mirrored to the store by
 * incremental writes, repaired by full rewrites while dirty, and warm-started from the store.
 */
module KeyRegistry {
  import opened Prelude
  import opened KeyEntry
  import opened KeyStore

  datatype Registry = Registry(byHash: map<string, Entry>, byID: map<string, Entry>, version: string)

  const EMPTY := Registry(map[], map[], "")

  /** Both indexes hold exactly the same entries, each under its own hash and its own id. */
  ghost predicate SameIndex(byHash: map<string, Entry>, byID: map<string, Entry>) {
    && (forall id :: id in byID ==>
          byID[id].id == id && byID[id].keyHash in byHash && byHash[byID[id].keyHash] == byID[id])
    && (forall h :: h in byHash ==> byHash[h].keyHash == h && byHash[h].id in byID && byID[byHash[h].id] == byHash[h])
  }

  ghost predicate OneRegistry(r: Registry) {
    SameIndex(r.byHash, r.byID) && ValidEntries(r.byID)
  }

  /** Dropping the rotated-out hash is what keeps the indexes equal when an id gets a new hash. */
  lemma PutKeepsIndex(byHash: map<string, Entry>, byID: map<string, Entry>, e: Entry)
    requires SameIndex(byHash, byID) && (e.keyHash in byHash ==> byHash[e.keyHash].id == e.id)
    ensures SameIndex((if e.id in byID then byHash - {byID[e.id].keyHash} else byHash)[e.keyHash := e], byID[e.id := e])
  {
  }

  lemma AddKeepsIndex(byHash: map<string, Entry>, byID: map<string, Entry>, e: Entry)
    requires SameIndex(byHash, byID) && e.keyHash !in byHash && e.id !in byID
    ensures SameIndex(byHash[e.keyHash := e], byID[e.id := e])
  {
  }

  lemma DropKeepsIndex(byHash: map<string, Entry>, byID: map<string, Entry>, id: string)
    requires SameIndex(byHash, byID) && id in byID
    ensures SameIndex(byHash - {byID[id].keyHash}, byID - {id})
  {
  }

  function ViewOf(r: Registry): View {
    View(r.version, r.byID)
  }

  datatype Mutation =
    | Upsert(version: string, entry: Entry)
    | Delete(version: string, id: string)
    | ReplaceAll(version: string, entries: seq<Entry>)

  datatype Reason = Invalid | Stale | HashTaken | Duplicate

  datatype Verdict = Accepted(view: View) | Refused(reason: Reason)

  ghost predicate DistinctKeys(entries: seq<Entry>) {
    forall i, j :: 0 <= i < j < |entries| ==> entries[i].id != entries[j].id && entries[i].keyHash != entries[j].keyHash
  }

  function NormalizeAll(entries: seq<Entry>): (r: Option<seq<Entry>>)
    ensures r.Some? <==> forall e :: e in entries ==> Normalize(e).Some?
    ensures r.Some? ==> |r.value| == |entries| && forall i :: 0 <= i < |entries| ==>
              Some(r.value[i]) == Normalize(entries[i])
  {
    if entries == [] then Some([])
    else
      var n := |entries| - 1;
      assert forall e :: e in entries <==> e in entries[..n] || e == entries[n];
      match (NormalizeAll(entries[..n]), Normalize(entries[n]))
      case (Some(es), Some(e)) => Some(es + [e])
      case _ => None
  }

  /** The mutations on one plain map: what the two indexes together must amount to. */
  ghost function Judge(v: View, m: Mutation): Verdict {
    match m
    case Upsert(version, raw) =>
      var e := Normalize(raw);
      if e.None? then Refused(Invalid)
      else if LexLess(version, v.version) then Refused(Stale)
      else if exists id :: id in v.entries && v.entries[id].keyHash == e.value.keyHash && id != e.value.id then
        Refused(HashTaken)
      else Accepted(View(version, v.entries[e.value.id := e.value]))
    case Delete(version, id) =>
      if id == "" then Refused(Invalid)
      else if LexLess(version, v.version) then Refused(Stale)
      else Accepted(View(version, v.entries - {id}))
    case ReplaceAll(version, raw) =>
      var es := NormalizeAll(raw);
      if es.None? then Refused(Invalid)
      else if !DistinctKeys(es.value) then Refused(Duplicate)
      else if LexLess(version, v.version) then Refused(Stale)
      else Accepted(View(version, ById(es.value)))
  }

  /** The persistence side of a provider; `wired` is false for a memory-only registry. */
  datatype Link = Link(wired: bool, store: Store, dirty: bool, closed: bool, retrying: bool)

  datatype Provider = Provider(reg: Registry, link: Link)

  datatype Outcome = Done | NotDurable | Rejected(reason: Reason)

  ghost predicate Enumerates(entries: seq<Entry>, m: map<string, Entry>) {
    && ById(entries) == m
    && (forall i :: 0 <= i < |entries| ==> entries[i].id in m && m[entries[i].id] == entries[i])
  }

  /** A full rewrite of the registry `v`. */
  ghost predicate Rewrote(s: Store, v: View, now: Time, confirmedAt: Time, s': Store, ok: bool) {
    exists entries :: Enumerates(entries, v.entries) && WroteGeneration(s, v.version, entries, now, confirmedAt, s', ok)
  }

  /** The store write that follows an accepted mutation taking the registry from `v` to `v'`. */
  ghost predicate Wrote(s: Store, dirty: bool, v: View, m: Mutation, v': View, now: Time, s': Store, ok: bool) {
    if dirty then Rewrote(s, v', now, if m.ReplaceAll? then now else 0, s', ok)
    else match m
      case Upsert(version, raw) => Normalize(raw).Some? && Upserted(s, version, Normalize(raw).value, now, s', ok)
      case Delete(version, id) => Deleted(s, version, id, now, s', ok)
      case ReplaceAll(version, _) =>
        if v.entries == v'.entries then Touched(s, version, now, now, s', ok) else Rewrote(s, v', now, now, s', ok)
  }

  /** Persistence of an accepted mutation: without a store it is a no-op, a failure leaves the link dirty. */
  ghost predicate Persisted(l: Link, v: View, m: Mutation, v': View, now: Time, l': Link, r: Outcome) {
    if !l.wired then l' == l && r == Done
    else
      && (r == Done || r == NotDurable)
      && (l.closed ==> r == NotDurable && l'.store == l.store)
      && (!l.closed ==> Wrote(l.store, l.dirty, v, m, v', now, l'.store, r == Done))
      && l' == Link(true, l'.store, r != Done, l.closed, l.retrying || (r != Done && !l.closed))
  }

  /** One mutation call: refused and nothing changes, or applied in memory and then written. */
  ghost predicate Mutated(p: Provider, m: Mutation, now: Time, p': Provider, r: Outcome) {
    match Judge(ViewOf(p.reg), m)
    case Refused(why) => p' == p && r == Rejected(why)
    case Accepted(v) =>
      OneRegistry(p'.reg) && ViewOf(p'.reg) == v && Persisted(p.link, ViewOf(p.reg), m, v, now, p'.link, r)
  }

  /** One turn of the background repair. */
  ghost predicate Retried(p: Provider, now: Time, p': Provider) {
    if p.link.closed || !p.link.dirty then p' == p.(link := p.link.(retrying := false))
    else exists ok: bool ::
      && Rewrote(p.link.store, ViewOf(p.reg), now, 0, p'.link.store, ok)
      && p' == p.(link := Link(p.link.wired, p'.link.store, !ok, p.link.closed, !ok))
  }

  /** Restore options: 0 disables the age check; `admit` is the cross-config admission check. */
  datatype LoadOptions = LoadOptions(maxAge: int, admit: Entry -> bool)

  datatype Report = Failed(discarding: bool) | NothingStored | Discarded | Installed(skipped: set<string>)

  predicate Expired(e: Entry, now: Time) {
    e.expiresAt.Some? && e.expiresAt.value <= now
  }

  /** A key expires at one moment and for good. */
  lemma ExpiryIsFinal(e: Entry, now: Time, later: Time)
    requires Expired(e, now) && now <= later
    ensures Expired(e, later) && exists t :: e.expiresAt == Some(t) && t <= now
    ensures forall before :: before < e.expiresAt.value ==> !Expired(e, before)
  {
  }

  /** The entry a persisted record contributes, before the duplicate-hash check. */
  function Candidate(pk: PersistedKey, opts: LoadOptions, now: Time): Option<Entry> {
    if pk.entry.None? then None
    else
      var e := Normalize(pk.entry.value);
      if e.None? || Expired(e.value, now) || !opts.admit(e.value) then None else e
  }

  /** The age the max-age check sees: from the older of last write and last confirmation, at least 0. */
  function SnapshotAge(savedAt: Time, confirmedAt: Time, now: Time): int {
    var ref := if confirmedAt != 0 && confirmedAt < savedAt then confirmedAt else savedAt;
    if now - ref < 0 then 0 else now - ref
  }

  predicate TooOld(opts: LoadOptions, savedAt: Time, confirmedAt: Time, now: Time) {
    opts.maxAge > 0 && (confirmedAt == 0 || SnapshotAge(savedAt, confirmedAt, now) > opts.maxAge)
  }

  /** Not too old: no max age, or confirmed and neither the last write nor the confirmation older than that. */
  lemma NotTooOldIff(opts: LoadOptions, savedAt: Time, confirmedAt: Time, now: Time)
    ensures !TooOld(opts, savedAt, confirmedAt, now) <==>
            || opts.maxAge <= 0
            || (confirmedAt != 0 && now - savedAt <= opts.maxAge && now - confirmedAt <= opts.maxAge)
  {
  }

  /** A kept entry listed before `before` has the hash. */
  ghost predicate HashHeld(kept: map<string, Entry>, hash: string, before: string) {
    exists id :: id in kept && kept[id].keyHash == hash && LexLess(id, before)
  }

  /** One record: restored as its candidate, or skipped for want of a candidate or as its hash was taken before. */
  ghost predicate Accounted(pk: PersistedKey, opts: LoadOptions, now: Time, kept: map<string, Entry>,
                            skipped: set<string>) {
    var c := Candidate(pk, opts, now);
    if pk.id in skipped then c.None? || HashHeld(kept, c.value.keyHash, pk.id)
    else pk.id in kept && c == Some(kept[pk.id])
  }

  /** Every record is restored or skipped, and skipped only for a reason. */
  ghost predicate Restores(keys: seq<PersistedKey>, opts: LoadOptions, now: Time, kept: map<string, Entry>,
                           skipped: set<string>) {
    && kept.Keys + skipped == IdsOf(keys) && kept.Keys !! skipped
    && (forall i :: 0 <= i < |keys| ==> Accounted(keys[i], opts, now, kept, skipped))
  }

  ghost predicate DiscardedSnapshot(s: Store, now: Time, p: Provider, p': Provider, r: Report) {
    && (r == Discarded || r == Failed(true))
    && p' == p.(link := p.link.(store := p'.link.store))
    && WasReset(s, now, p'.link.store, r == Discarded)
  }

  ghost predicate InstalledSnapshot(s: Store, snap: Loaded, opts: LoadOptions, now: Time, p: Provider, p': Provider,
                                    r: Report)
    requires snap.Snapshot?
  {
    && r.Installed?
    && Restores(snap.keys, opts, now, p'.reg.byID, r.skipped)
    && OneRegistry(p'.reg)
    && p'.reg.version == (if LexLess(p.reg.version, snap.version) then snap.version else p.reg.version)
    && p' == Provider(p'.reg, p.link.(store := p'.link.store))
    && p'.link.store == s.(disk := p'.link.store.disk) && p'.link.store.disk.meta == s.disk.meta
    && Pruned(s.disk.recs, p'.link.store.disk.recs, set id | id in r.skipped :: RecordKey(s.gen, id))
  }

  ghost predicate WarmStart(p: Provider, s: Store, snap: Loaded, opts: LoadOptions, now: Time, p': Provider,
                            r: Report) {
    match snap
    case ReadError => r == Failed(false) && p' == p.(link := p.link.(store := s))
    case Fresh => r == NothingStored && p' == p.(link := p.link.(store := s))
    case Unusable => DiscardedSnapshot(s, now, p, p', r)
    case Snapshot(_, savedAt, confirmedAt, _) =>
      if TooOld(opts, savedAt, confirmedAt, now) then DiscardedSnapshot(s, now, p, p', r)
      else InstalledSnapshot(s, snap, opts, now, p, p', r)
  }

  /** One LoadKeyStore call on a provider with a store wired. */
  ghost predicate WarmStarted(p: Provider, opts: LoadOptions, now: Time, p': Provider, r: Report) {
    exists s, snap :: WasLoaded(p.link.store, s, snap) && WarmStart(p, s, snap, opts, now, p', r)
  }

  /** Fails on the first repeated id or hash. */
  method CheckDuplicates(entries: seq<Entry>) returns (ok: bool)
    ensures ok <==> DistinctKeys(entries)
  {
    var seenIds: map<string, int>, seenHashes: map<string, int> := map[], map[];
    var i := 0;
    while i < |entries|
      invariant 0 <= i <= |entries| && DistinctKeys(entries[..i])
      invariant forall id :: id in seenIds <==> exists j :: 0 <= j < i && entries[j].id == id
      invariant forall h :: h in seenHashes <==> exists j :: 0 <= j < i && entries[j].keyHash == h
    {
      if entries[i].id in seenIds || entries[i].keyHash in seenHashes {
        return false;
      }
      seenIds, seenHashes := seenIds[entries[i].id := i], seenHashes[entries[i].keyHash := i];
      i := i + 1;
    }
    assert entries[..i] == entries;
    ok := true;
  }

  /** The sequence of a registry's entries, each id once. */
  method EntriesOf(byID: map<string, Entry>) returns (entries: seq<Entry>)
    requires forall id :: id in byID ==> byID[id].id == id
    ensures Enumerates(entries, byID) && |entries| == |byID|
  {
    entries := [];
    var todo := byID.Keys;
    while todo != {}
      invariant todo <= byID.Keys && Enumerates(entries, byID - todo) && |entries| + |todo| == |byID|
      decreases todo
    {
      var id :| id in todo;
      ByIdAppend(entries, byID[id]);
      assert byID - (todo - {id}) == (byID - todo)[id := byID[id]];
      entries, todo := entries + [byID[id]], todo - {id};
    }
    assert byID - todo == byID;
  }

  function ByHash(entries: seq<Entry>): map<string, Entry> {
    if entries == [] then map[]
    else
      var n := |entries| - 1;
      ByHash(entries[..n])[entries[n].keyHash := entries[n]]
  }

  lemma {:induction false} NotIndexed(entries: seq<Entry>, e: Entry)
    requires forall i :: 0 <= i < |entries| ==> entries[i].id != e.id && entries[i].keyHash != e.keyHash
    ensures e.keyHash !in ByHash(entries) && e.id !in ById(entries)
  {
    if entries != [] { NotIndexed(entries[..|entries| - 1], e); }
  }

  /** Indexes built from a list without repeated ids or hashes agree. */
  lemma {:induction false} BuiltIndexesAgree(entries: seq<Entry>)
    requires DistinctKeys(entries)
    ensures SameIndex(ByHash(entries), ById(entries))
  {
    if entries != [] {
      var n := |entries| - 1;
      BuiltIndexesAgree(entries[..n]);
      NotIndexed(entries[..n], entries[n]);
      AddKeepsIndex(ByHash(entries[..n]), ById(entries[..n]), entries[n]);
    }
  }

  lemma AllValidById(entries: seq<Entry>)
    requires forall i :: 0 <= i < |entries| ==> ValidEntry(entries[i])
    ensures ValidEntries(ById(entries))
  {
    ByIdMembers(entries);
  }

  method BuildIndexes(entries: seq<Entry>) returns (byHash: map<string, Entry>, byID: map<string, Entry>)
    ensures byHash == ByHash(entries) && byID == ById(entries)
  {
    byHash, byID := map[], map[];
    var i := 0;
    while i < |entries|
      invariant 0 <= i <= |entries|
      invariant byHash == ByHash(entries[..i]) && byID == ById(entries[..i])
    {
      var e := entries[i];
      byHash, byID := byHash[e.keyHash := e], byID[e.id := e];
      assert entries[..i + 1][..i] == entries[..i];
      i := i + 1;
    }
    assert entries[..i] == entries;
  }

  /** The running state of the restore loop. */
  datatype Restored = Restored(byHash: map<string, Entry>, byID: map<string, Entry>, skip: set<string>)

  function RestoreStep(r: Restored, pk: PersistedKey, opts: LoadOptions, now: Time): Restored {
    var c := Candidate(pk, opts, now);
    if c.None? || c.value.keyHash in r.byHash then r.(skip := r.skip + {pk.id})
    else r.(byHash := r.byHash[c.value.keyHash := c.value], byID := r.byID[c.value.id := c.value])
  }

  function RestoreAll(keys: seq<PersistedKey>, opts: LoadOptions, now: Time): Restored {
    if keys == [] then Restored(map[], map[], {})
    else RestoreStep(RestoreAll(keys[..|keys| - 1], opts, now), keys[|keys| - 1], opts, now)
  }

  /** First come, first kept among records that share a hash. */
  method Restore(keys: seq<PersistedKey>, opts: LoadOptions, now: Time) returns (r: Restored)
    ensures r == RestoreAll(keys, opts, now)
  {
    r := Restored(map[], map[], {});
    var i := 0;
    while i < |keys|
      invariant 0 <= i <= |keys| && r == RestoreAll(keys[..i], opts, now)
    {
      var c := Candidate(keys[i], opts, now);
      if c.None? || c.value.keyHash in r.byHash {
        r := r.(skip := r.skip + {keys[i].id});
      } else {
        r := r.(byHash := r.byHash[c.value.keyHash := c.value], byID := r.byID[c.value.id := c.value]);
      }
      assert keys[..i + 1][..i] == keys[..i];
      i := i + 1;
    }
    assert keys[..i] == keys;
  }

  ghost predicate OwnIds(keys: seq<PersistedKey>) {
    forall i :: 0 <= i < |keys| && keys[i].entry.Some? ==> keys[i].entry.value.id == keys[i].id
  }

  lemma {:induction false} RestoredIds(keys: seq<PersistedKey>, opts: LoadOptions, now: Time)
    requires OwnIds(keys)
    ensures var r := RestoreAll(keys, opts, now); r.byID.Keys + r.skip == IdsOf(keys)
  {
    if keys != [] { RestoredIds(keys[..|keys| - 1], opts, now); }
  }

  lemma {:induction false} RestoredValid(keys: seq<PersistedKey>, opts: LoadOptions, now: Time)
    ensures ValidEntries(RestoreAll(keys, opts, now).byID)
  {
    if keys != [] { RestoredValid(keys[..|keys| - 1], opts, now); }
  }

  lemma {:induction false} RestoredIndexesAgree(keys: seq<PersistedKey>, opts: LoadOptions, now: Time)
    requires DistinctIds(keys) && OwnIds(keys)
    ensures var r := RestoreAll(keys, opts, now); SameIndex(r.byHash, r.byID) && r.byID.Keys !! r.skip
  {
    if keys != [] {
      var n := |keys| - 1;
      var q := RestoreAll(keys[..n], opts, now);
      RestoredIndexesAgree(keys[..n], opts, now);
      RestoredIds(keys[..n], opts, now);
      IdsOfMembers(keys[..n]);
      assert keys[n].id !in q.byID && keys[n].id !in q.skip;
      var c := Candidate(keys[n], opts, now);
      if c.Some? && c.value.keyHash !in q.byHash {
        AddKeepsIndex(q.byHash, q.byID, c.value);
      }
    }
  }

  /** The restore loop accounts for every record. */
  lemma {:induction false} RestoreAllRestores(keys: seq<PersistedKey>, opts: LoadOptions, now: Time)
    requires DistinctIds(keys) && InOrder(keys) && OwnIds(keys)
    ensures var r := RestoreAll(keys, opts, now); Restores(keys, opts, now, r.byID, r.skip)
  {
    RestoredIds(keys, opts, now);
    RestoredIndexesAgree(keys, opts, now);
    if keys != [] {
      var n := |keys| - 1;
      var q, r := RestoreAll(keys[..n], opts, now), RestoreAll(keys, opts, now);
      RestoreAllRestores(keys[..n], opts, now);
      RestoredIndexesAgree(keys[..n], opts, now);
      RestoredAreBefore(keys, opts, now);
      NewlyAccounted(q, keys[n], opts, now);
      forall i | 0 <= i < n ensures Accounted(keys[i], opts, now, r.byID, r.skip) {
        assert keys[i] == keys[..n][i];
        StaysAccounted(keys[i], keys[n], opts, now, q);
      }
    }
  }

  /** What is restored so far is listed before the next record. */
  lemma RestoredAreBefore(keys: seq<PersistedKey>, opts: LoadOptions, now: Time)
    requires keys != [] && DistinctIds(keys) && InOrder(keys) && OwnIds(keys)
    ensures var n := |keys| - 1; var q := RestoreAll(keys[..n], opts, now);
            && keys[n].id !in q.byID && keys[n].id !in q.skip
            && forall id :: id in q.byID ==> LexLess(id, keys[n].id)
  {
    var n := |keys| - 1;
    RestoredIds(keys[..n], opts, now);
    IdsOfMembers(keys[..n]);
  }

  lemma ListedRestores(recs: map<RecordKey, Record>, g: nat, keys: seq<PersistedKey>, opts: LoadOptions, now: Time)
    requires Lists(recs, g, keys)
    ensures var r := RestoreAll(keys, opts, now);
            Restores(keys, opts, now, r.byID, r.skip) && SameIndex(r.byHash, r.byID) && ValidEntries(r.byID)
  {
    assert OwnIds(keys) by {
      forall i | 0 <= i < |keys| && keys[i].entry.Some? ensures keys[i].entry.value.id == keys[i].id {
        assert IsRecord(recs, g, keys[i]);
      }
    }
    RestoreAllRestores(keys, opts, now);
    RestoredIndexesAgree(keys, opts, now);
    RestoredValid(keys, opts, now);
  }

  lemma NewlyAccounted(q: Restored, pk: PersistedKey, opts: LoadOptions, now: Time)
    requires SameIndex(q.byHash, q.byID) && pk.id !in q.skip && forall id :: id in q.byID ==> LexLess(id, pk.id)
    requires pk.entry.Some? ==> pk.entry.value.id == pk.id
    ensures var r := RestoreStep(q, pk, opts, now); Accounted(pk, opts, now, r.byID, r.skip)
  {
    var c := Candidate(pk, opts, now);
    if c.Some? && c.value.keyHash in q.byHash {
      var id := q.byHash[c.value.keyHash].id;
      assert id in q.byID && q.byID[id].keyHash == c.value.keyHash;
    }
  }

  lemma StaysAccounted(pk: PersistedKey, next: PersistedKey, opts: LoadOptions, now: Time, q: Restored)
    requires Accounted(pk, opts, now, q.byID, q.skip) && next.id != pk.id && next.id !in q.byID
    requires next.entry.Some? ==> next.entry.value.id == next.id
    ensures var r := RestoreStep(q, next, opts, now); Accounted(pk, opts, now, r.byID, r.skip)
  {
    var c := Candidate(pk, opts, now);
    if pk.id in q.skip && c.Some? {
      var id :| id in q.byID && q.byID[id].keyHash == c.value.keyHash && LexLess(id, pk.id);
      assert RestoreStep(q, next, opts, now).byID[id].keyHash == c.value.keyHash;
    }
  }

  /** Looking the hash up in one index answers the collision question about the other. */
  lemma HashLookup(r: Registry, e: Entry)
    requires OneRegistry(r)
    ensures (e.keyHash in r.byHash && r.byHash[e.keyHash].id != e.id)
            <==> exists id :: id in r.byID && r.byID[id].keyHash == e.keyHash && id != e.id
  {
    if e.keyHash in r.byHash && r.byHash[e.keyHash].id != e.id {
      var id := r.byHash[e.keyHash].id;
      assert id in r.byID && r.byID[id].keyHash == e.keyHash && id != e.id;
    }
  }

  /** Pruning other generations does not change the list of a generation's records. */
  lemma PrunedLists(recs: map<RecordKey, Record>, recs': map<RecordKey, Record>, g: nat, keys: seq<PersistedKey>)
    requires Lists(recs, g, keys) && Pruned(recs, recs', recs.Keys - KeysOf(recs, g))
    ensures Lists(recs', g, keys)
  {
    forall i | 0 <= i < |keys| ensures IsRecord(recs', g, keys[i]) { assert IsRecord(recs, g, keys[i]); }
  }

  /** A warm start does not depend on what the provider's store was before the load. */
  lemma StoreIsReplaced(p: Provider, q: Provider, s: Store, snap: Loaded, opts: LoadOptions, now: Time, p': Provider,
                        r: Report)
    requires WarmStart(p, s, snap, opts, now, p', r) && q.reg == p.reg && q.link.(store := s) == p.link.(store := s)
    ensures WarmStart(q, s, snap, opts, now, p', r)
  {
  }

  /** What the restore loop made, put in place and cleaned up after. */
  lemma RestoredIsInstalled(s: Store, snap: Loaded, opts: LoadOptions, now: Time, p: Provider, p': Provider,
                            restored: Restored)
    requires snap.Snapshot? && Restores(snap.keys, opts, now, restored.byID, restored.skip)
    requires SameIndex(restored.byHash, restored.byID) && ValidEntries(restored.byID)
    requires p'.reg == Registry(restored.byHash, restored.byID,
                                if LexLess(p.reg.version, snap.version) then snap.version else p.reg.version)
    requires p'.link == p.link.(store := p'.link.store) && p'.link.store == s.(disk := p'.link.store.disk)
    requires p'.link.store.disk.meta == s.disk.meta
    requires Pruned(s.disk.recs, p'.link.store.disk.recs, set id | id in restored.skip :: RecordKey(s.gen, id))
    ensures InstalledSnapshot(s, snap, opts, now, p, p', Installed(restored.skip))
  {
  }

  /** An accepted mutation, applied and then persisted. */
  lemma AcceptedIsMutated(p: Provider, m: Mutation, now: Time, p': Provider, r: Outcome)
    requires Judge(ViewOf(p.reg), m) == Accepted(ViewOf(p'.reg)) && OneRegistry(p'.reg)
    requires Persisted(p.link, ViewOf(p.reg), m, ViewOf(p'.reg), now, p'.link, r)
    ensures Mutated(p, m, now, p', r)
  {
  }

  /** The checks of an upsert. */
  method JudgeUpsert(byHash: map<string, Entry>, ghost reg: Registry, v: string, version: string, raw: Entry)
    returns (why: Option<Reason>, e: Entry)
    requires OneRegistry(reg) && byHash == reg.byHash && version == reg.version
    ensures Judge(ViewOf(reg), Upsert(v, raw))
            == if why.Some? then Refused(why.value) else Accepted(View(v, reg.byID[e.id := e]))
    ensures why.None? ==> Normalize(raw) == Some(e) && (e.keyHash in byHash ==> byHash[e.keyHash].id == e.id)
  {
    e := raw;
    var n := Normalize(raw);
    if n.None? { return Some(Invalid), e; }
    if LexLess(v, version) { return Some(Stale), e; }
    e := n.value;
    HashLookup(reg, e);
    why := if e.keyHash in byHash && byHash[e.keyHash].id != e.id then Some(HashTaken) else None;
  }

  /** The checks of a full push and the indexes it would install. */
  method JudgePush(ghost before: View, version: string, v: string, raw: seq<Entry>)
    returns (why: Option<Reason>, pushed: Registry)
    requires version == before.version
    ensures Judge(before, ReplaceAll(v, raw)) == if why.Some? then Refused(why.value) else Accepted(ViewOf(pushed))
    ensures why.None? ==> OneRegistry(pushed) && pushed.version == v
  {
    pushed := Registry(map[], map[], v);
    var n := NormalizeAll(raw);
    if n.None? { return Some(Invalid), pushed; }
    var distinct := CheckDuplicates(n.value);
    if !distinct { return Some(Duplicate), pushed; }
    var hashes, ids := BuildIndexes(n.value);
    if LexLess(v, version) { return Some(Stale), pushed; }
    BuiltIndexesAgree(n.value);
    AllValidById(n.value);
    return None, Registry(hashes, ids, v);
  }

  class DynamicKeyProvider {
    var byHash: map<string, Entry>
    var byID: map<string, Entry>
    var version: string
    var store: BadgerKeyStore?
    var dirty: bool
    var closed: bool
    var retrying: bool

    ghost function Reg(): Registry
      reads this
    {
      Registry(byHash, byID, version)
    }

    ghost function LinkState(): Link
      reads this, store
    {
      Link(store != null, if store == null then Store(Disk(NoMeta, map[]), 0, 0) else store.State(),
           dirty, closed, retrying)
    }

    ghost function State(): Provider
      reads this, store
    {
      Provider(Reg(), LinkState())
    }

    constructor (s: BadgerKeyStore?)
      ensures store == s && Reg() == EMPTY && !dirty && !closed && !retrying
    {
      byHash, byID, version := map[], map[], "";
      store, dirty, closed, retrying := s, false, false, false;
    }

    /** Lookup by hash: succeeds exactly for the one current entry carrying it, if enabled and unexpired. */
    method Authenticate(hash: string, now: Time) returns (r: Option<Entry>)
      requires OneRegistry(Reg())
      ensures r.Some? <==>
                exists id :: id in byID && byID[id].keyHash == hash && byID[id].enabled
                             && (byID[id].expiresAt.None? || now < byID[id].expiresAt.value)
      ensures r.Some? ==> r.value.id in byID && byID[r.value.id] == r.value && r.value.keyHash == hash
    {
      if hash !in byHash || !byHash[hash].enabled || Expired(byHash[hash], now) { return None; }
      r := Some(byHash[hash]);
    }

    method Rewrite(now: Time, confirmedAt: Time, fuse: nat) returns (ok: bool)
      requires store != null && OneRegistry(Reg())
      modifies store
      ensures Rewrote(old(store.State()), ViewOf(Reg()), now, confirmedAt, store.State(), ok)
      ensures ok <==> fuse >= RewriteCost(old(store.State()), |byID|)
    {
      var entries := EntriesOf(byID);
      ok := store.WriteGeneration(version, entries, now, confirmedAt, fuse);
    }

    method MarkDirty()
      modifies this`dirty, this`retrying
      ensures dirty && retrying == (old(retrying) || !closed)
    {
      dirty := true;
      if !retrying && !closed { retrying := true; }
    }

    /** The store write for a mutation already applied in memory; `before` is the view it was applied to. */
    method Write(ghost before: View, m: Mutation, same: bool, now: Time, fuse: nat) returns (ok: bool)
      requires store != null && OneRegistry(Reg()) && m.version == version
      requires m.Upsert? ==> Normalize(m.entry).Some? && Normalize(m.entry).value.id in byID
      requires m.ReplaceAll? ==> (same <==> before.entries == byID)
      modifies store
      ensures Wrote(old(store.State()), dirty, before, m, ViewOf(Reg()), now, store.State(), ok)
      ensures fuse >= RewriteCost(old(store.State()), |byID|) ==> ok
    {
      if dirty {
        ok := Rewrite(now, if m.ReplaceAll? then now else 0, fuse);
        return;
      }
      match m
      case Upsert(v, raw) => ok := store.Upsert(v, Normalize(raw).value, now, fuse);
      case Delete(v, id) => ok := store.Delete(v, id, now, fuse);
      case ReplaceAll(v, _) =>
        if same { ok := store.Touch(v, now, now, fuse); } else { ok := Rewrite(now, now, fuse); }
    }

    method PersistOpen(ghost before: View, m: Mutation, same: bool, now: Time, fuse: nat) returns (r: Outcome)
      requires store != null && !closed && OneRegistry(Reg()) && m.version == version
      requires m.Upsert? ==> Normalize(m.entry).Some? && Normalize(m.entry).value.id in byID
      requires m.ReplaceAll? ==> (same <==> before.entries == byID)
      modifies this`dirty, this`retrying, store
      ensures r == Done || r == NotDurable
      ensures Wrote(old(store.State()), old(dirty), before, m, ViewOf(Reg()), now, store.State(), r == Done)
      ensures dirty == (r != Done) && retrying == (old(retrying) || r != Done)
      ensures fuse >= RewriteCost(old(store.State()), |byID|) ==> r == Done
    {
      var ok := Write(before, m, same, now, fuse);
      if !ok {
        MarkDirty();
        return NotDurable;
      }
      dirty := false;
      r := Done;
    }

    method Persist(ghost before: View, m: Mutation, same: bool, now: Time, fuse: nat) returns (r: Outcome)
      requires OneRegistry(Reg()) && m.version == version
      requires m.Upsert? ==> Normalize(m.entry).Some? && Normalize(m.entry).value.id in byID
      requires m.ReplaceAll? && store != null ==> (same <==> before.entries == byID)
      modifies this`dirty, this`retrying, store
      ensures Persisted(old(LinkState()), before, m, ViewOf(Reg()), now, LinkState(), r)
      ensures store != null && !closed && fuse >= RewriteCost(old(store.State()), |byID|) ==> r == Done
    {
      if store == null { return Done; }
      if closed {
        MarkDirty();
        return NotDurable;
      }
      r := PersistOpen(before, m, same, now, fuse);
    }

    /** The in-memory part of an upsert, rotation of the hash included. */
    method PutEntry(v: string, e: Entry)
      requires OneRegistry(Reg()) && ValidEntry(e) && (e.keyHash in byHash ==> byHash[e.keyHash].id == e.id)
      modifies this`byHash, this`byID, this`version
      ensures OneRegistry(Reg()) && ViewOf(Reg()) == View(v, old(byID)[e.id := e])
    {
      PutKeepsIndex(byHash, byID, e);
      ghost var hashes := (if e.id in byID then byHash - {byID[e.id].keyHash} else byHash)[e.keyHash := e];
      if e.id in byID && byID[e.id].keyHash != e.keyHash {
        byHash := byHash - {byID[e.id].keyHash};
      }
      byHash, byID, version := byHash[e.keyHash := e], byID[e.id := e], v;
      assert byHash == hashes;
    }

    /** The in-memory part of a delete; an absent id only moves the version. */
    method DropEntry(v: string, id: string)
      requires OneRegistry(Reg())
      modifies this`byHash, this`byID, this`version
      ensures OneRegistry(Reg()) && ViewOf(Reg()) == View(v, old(byID) - {id})
    {
      if id in byID {
        var e := byID[id];
        DropKeepsIndex(byHash, byID, id);
        if e.keyHash in byHash && byHash[e.keyHash] == e {
          byHash := byHash - {e.keyHash};
        }
        byID := byID - {id};
      }
      version := v;
      assert byID == old(byID) - {id};
    }

    method UpsertKey(v: string, raw: Entry, now: Time, fuse: nat) returns (r: Outcome)
      requires OneRegistry(Reg())
      modifies this, store
      ensures store == old(store) && OneRegistry(Reg())
      ensures Mutated(old(State()), Upsert(v, raw), now, State(), r)
      ensures store != null && !closed && fuse >= RewriteCost(old(store.State()), |byID|) ==> r != NotDurable
    {
      ghost var before := ViewOf(Reg());
      var why, e := JudgeUpsert(byHash, Reg(), v, version, raw);
      if why.Some? { return Rejected(why.value); }
      PutEntry(v, e);
      r := Persist(before, Upsert(v, raw), false, now, fuse);
      AcceptedIsMutated(old(State()), Upsert(v, raw), now, State(), r);
    }

    method DeleteKey(v: string, id: string, now: Time, fuse: nat) returns (r: Outcome)
      requires OneRegistry(Reg())
      modifies this, store
      ensures store == old(store) && OneRegistry(Reg())
      ensures Mutated(old(State()), Delete(v, id), now, State(), r)
      ensures store != null && !closed && fuse >= RewriteCost(old(store.State()), |byID|) ==> r != NotDurable
    {
      ghost var before := ViewOf(Reg());
      if id == "" { return Rejected(Invalid); }
      if LexLess(v, version) { return Rejected(Stale); }
      DropEntry(v, id);
      r := Persist(before, Delete(v, id), false, now, fuse);
    }

    method Swap(reg: Registry)
      modifies this`byHash, this`byID, this`version
      ensures Reg() == reg
    {
      byHash, byID, version := reg.byHash, reg.byID, reg.version;
    }

    method ReplaceAllKeys(v: string, raw: seq<Entry>, now: Time, fuse: nat) returns (r: Outcome)
      requires OneRegistry(Reg())
      modifies this, store
      ensures store == old(store) && OneRegistry(Reg())
      ensures Mutated(old(State()), ReplaceAll(v, raw), now, State(), r)
      ensures store != null && !closed && fuse >= RewriteCost(old(store.State()), |byID|) ==> r != NotDurable
    {
      ghost var before := ViewOf(Reg());
      var why, pushed := JudgePush(before, version, v, raw);
      if why.Some? { return Rejected(why.value); }
      var same := store != null && byID == pushed.byID;
      Swap(pushed);
      r := Persist(before, ReplaceAll(v, raw), same, now, fuse);
      AcceptedIsMutated(old(State()), ReplaceAll(v, raw), now, State(), r);
    }

    /** One pass of the background retry loop. */
    method RetryOnce(now: Time, fuse: nat)
      requires OneRegistry(Reg()) && (store == null ==> closed || !dirty)
      modifies this`dirty, this`retrying, store
      ensures Retried(old(State()), now, State())
      ensures dirty == (old(dirty) && (closed || store == null || fuse < RewriteCost(old(store.State()), |byID|)))
      ensures retrying == (dirty && !closed)
    {
      if closed || !dirty {
        retrying := false;
        return;
      }
      var ok := Rewrite(now, 0, fuse);
      dirty, retrying := !ok, !ok;
    }

    /** A snapshot that is not restored is wiped. */
    method Discard(now: Time, fuse: nat) returns (r: Report)
      requires store != null
      modifies store
      ensures DiscardedSnapshot(old(store.State()), now, old(State()), State(), r)
      ensures r == Discarded <==> fuse >= RewriteCost(old(store.State()), 0)
    {
      var ok := store.Reset(now, fuse);
      return if ok then Discarded else Failed(true);
    }

    /** Restores what can be restored; skipped records are removed best effort. */
    method Install(snap: Loaded, opts: LoadOptions, now: Time, fuse: nat) returns (r: Report)
      requires store != null && snap.Snapshot? && Lists(store.disk.recs, store.gen, snap.keys)
      modifies this`byHash, this`byID, this`version, store`disk
      ensures InstalledSnapshot(old(store.State()), snap, opts, now, old(State()), State(), r)
      ensures fuse >= |r.skipped| && store.gen != 0 ==> forall id :: id in r.skipped ==>
                RecordKey(store.gen, id) !in store.disk.recs
    {
      var restored := Restore(snap.keys, opts, now);
      ListedRestores(store.disk.recs, store.gen, snap.keys, opts, now);
      Cleanup(restored.skip, fuse);
      byHash, byID := restored.byHash, restored.byID;
      if LexLess(version, snap.version) { version := snap.version; }
      r := Installed(restored.skip);
      RestoredIsInstalled(old(store.State()), snap, opts, now, old(State()), State(), restored);
    }

    method Cleanup(skip: set<string>, fuse: nat)
      requires store != null
      modifies store`disk
      ensures store.disk.meta == old(store.disk.meta)
      ensures Pruned(old(store.disk.recs), store.disk.recs, set id | id in skip :: RecordKey(store.gen, id))
      ensures fuse >= |skip| && store.gen != 0 ==> forall id :: id in skip ==>
                RecordKey(store.gen, id) !in store.disk.recs
    {
      if skip != {} {
        var ok := store.DeleteRecords(skip, fuse);
      }
    }

    method AgeCheck(snap: Loaded, opts: LoadOptions, now: Time, fuse2: nat, fuse3: nat) returns (r: Report)
      requires store != null && OneRegistry(Reg()) && snap.Snapshot? && Lists(store.disk.recs, store.gen, snap.keys)
      modifies this`byHash, this`byID, this`version, store
      ensures OneRegistry(Reg()) && WarmStart(old(State()), old(store.State()), snap, opts, now, State(), r)
      ensures r.Installed? <==> !TooOld(opts, snap.savedAt, snap.confirmedAt, now)
      ensures r != Failed(false) && r != NothingStored
      ensures r.Installed? && fuse3 >= |r.skipped| && store.gen != 0 ==>
                forall id :: id in r.skipped ==> RecordKey(store.gen, id) !in store.disk.recs
    {
      if TooOld(opts, snap.savedAt, snap.confirmedAt, now) {
        r := Discard(now, fuse2);
      } else {
        r := Install(snap, opts, now, fuse3);
      }
    }

    /** What becomes of a loaded snapshot. */
    method UseSnapshot(snap: Loaded, opts: LoadOptions, now: Time, fuse2: nat, fuse3: nat) returns (r: Report)
      requires store != null && OneRegistry(Reg())
      requires snap.Snapshot? ==> Lists(store.disk.recs, store.gen, snap.keys)
      modifies this`byHash, this`byID, this`version, store
      ensures OneRegistry(Reg()) && WarmStart(old(State()), old(store.State()), snap, opts, now, State(), r)
      ensures (r == Failed(false) <==> snap == ReadError) && (r == NothingStored <==> snap == Fresh)
      ensures snap.Snapshot? ==>
                (r.Installed? <==>
                   || opts.maxAge <= 0
                   || (&& snap.confirmedAt != 0
                       && now - snap.savedAt <= opts.maxAge && now - snap.confirmedAt <= opts.maxAge))
      ensures r.Installed? && fuse3 >= |r.skipped| && store.gen != 0 ==>
                forall id :: id in r.skipped ==> RecordKey(store.gen, id) !in store.disk.recs
    {
      match snap
      case ReadError => r := Failed(false);
      case Fresh => r := NothingStored;
      case Unusable => r := Discard(now, fuse2);
      case Snapshot(_, savedAt, confirmedAt, _) =>
        NotTooOldIff(opts, savedAt, confirmedAt, now);
        r := AgeCheck(snap, opts, now, fuse2, fuse3);
    }

    /** The fuses bound the writes of the load, of a reset and of the cleanup of skipped records. */
    method LoadKeyStore(opts: LoadOptions, now: Time, metaReads: bool, recordsRead: bool, fuse: nat, fuse2: nat,
                        fuse3: nat)
      returns (r: Report)
      requires OneRegistry(Reg())
      modifies this`byHash, this`byID, this`version, store
      ensures OneRegistry(Reg())
      ensures store == null ==> State() == old(State()) && r == NothingStored
      ensures store != null ==> WarmStarted(old(State()), opts, now, State(), r)
      ensures store != null ==> (r == Failed(false) <==> !metaReads || (!recordsRead && old(store.disk.meta).GoodMeta?))
      ensures store != null && metaReads ==> (r == NothingStored <==> old(store.disk.meta).NoMeta?)
      ensures store != null && metaReads && recordsRead && old(store.disk.meta).GoodMeta? ==>
                var m := old(store.disk.meta).meta;
                r.Installed? <==>
                  || opts.maxAge <= 0
                  || (m.confirmedAt != 0 && now - m.savedAt <= opts.maxAge && now - m.confirmedAt <= opts.maxAge)
      ensures store != null && r.Installed? && fuse3 >= |r.skipped| && store.gen != 0 ==>
                forall id :: id in r.skipped ==> RecordKey(store.gen, id) !in store.disk.recs
    {
      if store == null { return NothingStored; }
      var snap := store.Load(metaReads, recordsRead, fuse);
      ghost var s := store.State();
      assert WasLoaded(old(store.State()), s, snap);
      if snap.Snapshot? { PrunedLists(old(store.disk.recs), store.disk.recs, store.gen, snap.keys); }
      ghost var p := State();
      r := UseSnapshot(snap, opts, now, fuse2, fuse3);
      StoreIsReplaced(p, old(State()), s, snap, opts, now, State(), r);
    }

    method Close()
      modifies this`closed
      ensures closed == (old(closed) || store != null)
    {
      if store == null || closed { return; }
      closed := true;
    }

    /** Drop the store and start empty; the registry is memory-only from here on. */
    method Degrade()
      modifies this
      ensures store == null && Reg() == EMPTY && dirty == old(dirty) && retrying == old(retrying)
      ensures closed == (old(closed) || old(store) != null)
    {
      if store != null {
        Close();
        store := null;
      }
      byHash, byID, version := map[], map[], "";
    }
  }
}
