/** What each store operation does to the registry a restart would see. */
module KeyStoreLaws {
  import opened Prelude
  import opened KeyEntry
  import opened KeyStore

  ghost predicate AllValid(entries: seq<Entry>) {
    forall e :: e in entries ==> ValidEntry(e)
  }

  /** A generation filled from valid entries reads back as exactly those entries. */
  lemma ReadsBack(recs: map<RecordKey, Record>, g: nat, entries: map<string, Entry>)
    requires ValidEntries(entries)
    requires forall k: RecordKey :: k.gen == g ==>
               && (k in recs <==> k.id in entries)
               && (k.id in entries ==> recs[k] == Seal(g, entries[k.id]))
    ensures Readable(recs, g) == entries
  {
    var m := Readable(recs, g);
    forall id ensures id in m <==> id in entries {
      var k := RecordKey(g, id);
      assert k.id == id;
      assert k.id in entries ==> recs[k] == Seal(g, entries[id]) && Opens(k, recs[k]);
    }
    forall id | id in m ensures m[id] == entries[id] {
      assert recs[RecordKey(g, id)] == Seal(g, entries[RecordKey(g, id).id]);
      WireRoundTrip(entries[id]);
    }
  }

  lemma UntouchedGenerationReadsSame(recs: map<RecordKey, Record>, recs': map<RecordKey, Record>, g: nat)
    requires forall k: RecordKey :: k.gen == g ==> SameAt(recs, recs', k)
    ensures Readable(recs', g) == Readable(recs, g)
  {
    var m, m' := Readable(recs, g), Readable(recs', g);
    forall id ensures id in m <==> id in m' { assert SameAt(recs, recs', RecordKey(g, id)); }
    forall id | id in m ensures m[id] == m'[id] { assert SameAt(recs, recs', RecordKey(g, id)); }
  }

  lemma UncommittedIsInvisible(s: Store, entries: seq<Entry>, s': Store)
    requires Synced(s) && AllValid(entries) && Uncommitted(s, entries, s')
    ensures Synced(s') && Live(s'.disk) == Live(s.disk) && ConfirmedAt(s'.disk) == ConfirmedAt(s.disk)
  {
    if s.disk.meta.GoodMeta? {
      UntouchedGenerationReadsSame(s.disk.recs, s'.disk.recs, s.disk.meta.meta.gen);
    }
    forall k | k in s'.disk.recs && Opens(k, s'.disk.recs[k]) ensures ValidEntry(FromWire(s'.disk.recs[k].wire)) {
      if k.gen != s.gen + 1 {
        assert SameAt(s.disk.recs, s'.disk.recs, k);
      } else if !(k in s.disk.recs && s'.disk.recs[k] == s.disk.recs[k]) {
        var e :| e in entries && e.id == k.id && s'.disk.recs[k] == Seal(s.gen + 1, e);
        WireRoundTrip(e);
      }
    }
  }

  lemma CommittedIsComplete(s: Store, version: string, entries: seq<Entry>, savedAt: Time, conf: Time, s': Store)
    requires ValidDisk(s.disk) && AllValid(entries) && Committed(s, version, ById(entries), savedAt, conf, s')
    ensures Synced(s') && Live(s'.disk) == View(version, ById(entries)) && ConfirmedAt(s'.disk) == conf
  {
    var m := ById(entries);
    ByIdMembers(entries);
    assert ValidEntries(m);
    ReadsBack(s'.disk.recs, s.gen + 1, m);
    forall k | k in s'.disk.recs && Opens(k, s'.disk.recs[k]) ensures ValidEntry(FromWire(s'.disk.recs[k].wire)) {
      if k.gen == s.gen + 1 {
        assert s'.disk.recs[k] == Seal(s.gen + 1, m[k.id]);
        WireRoundTrip(m[k.id]);
      } else {
        assert SameAt(s.disk.recs, s'.disk.recs, k);
      }
    }
  }

  /**
   * Stopping a full rewrite anywhere, even inside a batch, leaves the old registry or the complete new
   * one. `Synced` covers an unreadable meta cell: the counter restarts at 0 while records of any
   * generation, the target included, may still be on disk.
   */
  lemma GenerationSwitchIsAllOrNothing(s: Store, version: string, entries: seq<Entry>, savedAt: Time,
                                       confirmedAt: Time, s': Store, ok: bool)
    requires Synced(s) && AllValid(entries)
    requires WroteGeneration(s, version, entries, savedAt, confirmedAt, s', ok)
    ensures Synced(s')
    ensures || (!ok && Live(s'.disk) == Live(s.disk) && ConfirmedAt(s'.disk) == ConfirmedAt(s.disk))
            || (Live(s'.disk) == View(version, ById(entries)) && ConfirmedAt(s'.disk) == Confirmation(s, confirmedAt))
  {
    if !ok && Uncommitted(s, entries, s') {
      UncommittedIsInvisible(s, entries, s');
    } else {
      CommittedIsComplete(s, version, entries, savedAt, Confirmation(s, confirmedAt), s');
    }
  }

  lemma ByIdOfOne(e: Entry)
    ensures ById([e]) == map[e.id := e]
  {
    assert [e][..0] == [];
  }

  lemma PutReadsBack(recs: map<RecordKey, Record>, g: nat, e: Entry)
    requires ValidEntry(e)
    ensures Readable(recs[RecordKey(g, e.id) := Seal(g, e)], g) == Readable(recs, g)[e.id := e]
  {
    WireRoundTrip(e);
    var recs' := recs[RecordKey(g, e.id) := Seal(g, e)];
    assert EntryAt(recs', RecordKey(g, e.id)) == Some(e);
    assert forall id :: id != e.id ==> EntryAt(recs', RecordKey(g, id)) == EntryAt(recs, RecordKey(g, id));
    forall id ensures id in Readable(recs', g) <==> id in Readable(recs, g) || id == e.id { ReadableAt(recs', g, id); }
  }

  lemma ReadableAt(recs: map<RecordKey, Record>, g: nat, id: string)
    ensures id in Readable(recs, g) <==> EntryAt(recs, RecordKey(g, id)).Some?
  {
  }

  lemma DropReadsBack(recs: map<RecordKey, Record>, g: nat, id: string)
    ensures Readable(recs - {RecordKey(g, id)}, g) == Readable(recs, g) - {id}
  {
    var recs' := recs - {RecordKey(g, id)};
    assert forall i :: i != id ==> EntryAt(recs', RecordKey(g, i)) == EntryAt(recs, RecordKey(g, i));
  }

  /** A single-key write changes that key and the version, or nothing, and never the confirmation time. */
  lemma UpsertLaw(s: Store, version: string, e: Entry, savedAt: Time, s': Store, ok: bool)
    requires Synced(s) && ValidEntry(e) && Upserted(s, version, e, savedAt, s', ok)
    ensures Synced(s') && ConfirmedAt(s'.disk) == ConfirmedAt(s.disk)
    ensures || (!ok && Live(s'.disk) == Live(s.disk))
            || Live(s'.disk) == View(version, Live(s.disk).entries[e.id := e])
  {
    if s.gen == 0 {
      GenerationSwitchIsAllOrNothing(s, version, [e], savedAt, 0, s', ok);
      ByIdOfOne(e);
    } else if ok {
      WireRoundTrip(e);
      PutReadsBack(s.disk.recs, s.gen, e);
    }
  }

  lemma DeleteLaw(s: Store, version: string, id: string, savedAt: Time, s': Store, ok: bool)
    requires Synced(s) && Deleted(s, version, id, savedAt, s', ok)
    ensures Synced(s') && ConfirmedAt(s'.disk) == ConfirmedAt(s.disk)
    ensures || (!ok && Live(s'.disk) == Live(s.disk))
            || Live(s'.disk) == View(version, Live(s.disk).entries - {id})
  {
    if s.gen == 0 {
      GenerationSwitchIsAllOrNothing(s, version, [], savedAt, 0, s', ok);
      assert Live(s.disk).entries - {id} == map[];
    } else if ok {
      DropReadsBack(s.disk.recs, s.gen, id);
    }
  }

  lemma TouchLaw(s: Store, version: string, savedAt: Time, confirmedAt: Time, s': Store, ok: bool)
    requires Synced(s) && Touched(s, version, savedAt, confirmedAt, s', ok)
    ensures Synced(s')
    ensures || (!ok && Live(s'.disk) == Live(s.disk) && ConfirmedAt(s'.disk) == ConfirmedAt(s.disk))
            || (Live(s'.disk) == View(version, Live(s.disk).entries)
                && ConfirmedAt(s'.disk) == Confirmation(s, confirmedAt))
  {
    if s.gen == 0 {
      GenerationSwitchIsAllOrNothing(s, version, [], savedAt, confirmedAt, s', ok);
    }
  }

  /** A failed Reset leaves the disk as it was or already empty; only a completed one is trusted. */
  lemma ResetLaw(s: Store, savedAt: Time, s': Store, ok: bool)
    requires Synced(s) && WasReset(s, savedAt, s', ok)
    ensures ValidDisk(s'.disk) && (ok ==> Synced(s') && ConfirmedAt(s'.disk) == 0 && Live(s'.disk) == View("", map[]))
    ensures || (!ok && Live(s'.disk) == Live(s.disk) && ConfirmedAt(s'.disk) == ConfirmedAt(s.disk))
            || (Live(s'.disk) == View("", map[]) && ConfirmedAt(s'.disk) == 0)
  {
    var z := s.(confirmedAt := 0);
    if ok {
      CommittedIsComplete(z, "", [], savedAt, 0, s');
    } else {
      var c :| WroteGeneration(z, "", [], savedAt, 0, s'.(confirmedAt := c), false) && s'.confirmedAt == s.confirmedAt;
      var t := s'.(confirmedAt := c);
      if Uncommitted(z, [], t) {
        assert Uncommitted(s, [], t.(confirmedAt := s.confirmedAt));
        UncommittedIsInvisible(s, [], t.(confirmedAt := s.confirmedAt));
      } else {
        CommittedIsComplete(z, "", [], savedAt, 0, t);
      }
    }
  }

  /** Pruning records outside the live generation changes nothing a restart sees. */
  lemma LoadLaw(s: Store, s': Store, r: Loaded)
    requires ValidDisk(s.disk) && s.gen == 0 && s.confirmedAt == 0 && WasLoaded(s, s', r)
    ensures ValidDisk(s'.disk) && Live(s'.disk) == Live(s.disk) && s'.disk.meta == s.disk.meta
    ensures r != ReadError ==> Synced(s')
    ensures r.Snapshot? ==> s.disk.meta.GoodMeta? && Lists(s'.disk.recs, s'.gen, r.keys)
  {
    if r.Snapshot? {
      var g := s.disk.meta.meta.gen;
      forall k: RecordKey | k.gen == g ensures SameAt(s.disk.recs, s'.disk.recs, k) {
      }
      UntouchedGenerationReadsSame(s.disk.recs, s'.disk.recs, g);
      forall i | 0 <= i < |r.keys| ensures IsRecord(s'.disk.recs, g, r.keys[i]) {
        assert SameAt(s.disk.recs, s'.disk.recs, RecordKey(g, r.keys[i].id));
      }
    }
  }
}
