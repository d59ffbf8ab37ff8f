/**
 * The generational on-disk key store.
 *
 * The database holds one meta cell and one cell per (generation, id). A transaction is one atomic
 * change; a write batch is a series of atomic changes that may stop anywhere. Every call takes a
 * `fuse`: that many atomic changes reach the disk, the next one fails and the call returns an error.
 * A crash inside a call leaves the disk that some fuse leaves.
 */
module KeyStore {
  import opened Prelude
  import opened KeyEntry

  datatype RecordKey = RecordKey(gen: nat, id: string)

  /** A sealed record opens only under the key it was sealed for; Garbage fails its MAC or decode. */
  datatype Record = Sealed(key: RecordKey, wire: WireEntry) | Garbage

  datatype Meta = Meta(gen: nat, version: string, savedAt: Time, confirmedAt: Time)

  /** BadMeta: fails its MAC, does not decode, or carries another schema version. */
  datatype MetaCell = NoMeta | BadMeta | GoodMeta(meta: Meta)

  datatype Disk = Disk(meta: MetaCell, recs: map<RecordKey, Record>)

  /** What a registry holds: its version and its entries by id. */
  datatype View = View(version: string, entries: map<string, Entry>)

  datatype Store = Store(disk: Disk, gen: nat, confirmedAt: Time)

  function Seal(gen: nat, e: Entry): (r: Record) {
    Sealed(RecordKey(gen, e.id), ToWire(e))
  }

  predicate Opens(k: RecordKey, r: Record) {
    r.Sealed? && r.key == k && r.wire.id == k.id
  }

  /** What a reader gets from one cell: an absent or unreadable record yields nothing. */
  function EntryAt(recs: map<RecordKey, Record>, k: RecordKey): Option<Entry> {
    if k in recs && Opens(k, recs[k]) then Some(FromWire(recs[k].wire)) else None
  }

  function ReadableIds(recs: map<RecordKey, Record>, g: nat): (s: set<string>)
    ensures forall id :: id in s <==> EntryAt(recs, RecordKey(g, id)).Some?
  {
    var s := set k | k in recs && k.gen == g && Opens(k, recs[k]) :: k.id;
    assert forall id :: EntryAt(recs, RecordKey(g, id)).Some? ==> RecordKey(g, id).id in s;
    s
  }

  /** The entries a reader gets out of generation `g`. */
  function Readable(recs: map<RecordKey, Record>, g: nat): (m: map<string, Entry>)
    ensures forall id :: id in m <==> EntryAt(recs, RecordKey(g, id)).Some?
    ensures forall id :: id in m ==> Some(m[id]) == EntryAt(recs, RecordKey(g, id))
  {
    map id | id in ReadableIds(recs, g) :: EntryAt(recs, RecordKey(g, id)).value
  }

  /** The registry a restart would see. */
  function Live(d: Disk): View {
    if d.meta.GoodMeta? then View(d.meta.meta.version, Readable(d.recs, d.meta.meta.gen)) else View("", map[])
  }

  function ConfirmedAt(d: Disk): Time {
    if d.meta.GoodMeta? then d.meta.meta.confirmedAt else 0
  }

  ghost predicate SameAt(m: map<RecordKey, Record>, m': map<RecordKey, Record>, k: RecordKey) {
    (k in m <==> k in m') && (k in m ==> m'[k] == m[k])
  }

  /** Some of `keys` are gone, nothing else changed. */
  ghost predicate Pruned(m: map<RecordKey, Record>, m': map<RecordKey, Record>, keys: set<RecordKey>) {
    && (forall k :: k in m' ==> k in m && m'[k] == m[k])
    && (forall k :: k in m && k !in keys ==> k in m')
  }

  /** The keys of generation `g`, as a prefix scan returns them. */
  function KeysOf(recs: map<RecordKey, Record>, g: nat): (s: set<RecordKey>)
    ensures forall k :: k in s <==> k in recs && k.gen == g
  {
    set k | k in recs && k.gen == g
  }

  /** Every record that opens carries an entry validation accepts: only the router can seal one. */
  ghost predicate ValidDisk(d: Disk) {
    && (d.meta.GoodMeta? ==> d.meta.meta.gen > 0)
    && (forall k :: k in d.recs && Opens(k, d.recs[k]) ==> ValidEntry(FromWire(d.recs[k].wire)))
  }

  /** The in-memory fields agree with the meta cell; the generation a rewrite targets is not live. */
  ghost predicate Synced(s: Store) {
    && ValidDisk(s.disk)
    && (s.disk.meta.GoodMeta? ==> s.gen == s.disk.meta.meta.gen && s.confirmedAt == s.disk.meta.meta.confirmedAt)
    && (!s.disk.meta.GoodMeta? ==> s.gen == 0 && s.confirmedAt == 0)
  }

  ghost predicate ValidEntries(m: map<string, Entry>) {
    forall id :: id in m ==> m[id].id == id && ValidEntry(m[id])
  }

  /** Later entries win, as later batch writes to one key do. */
  function ById(entries: seq<Entry>): map<string, Entry> {
    if entries == [] then map[]
    else
      var n := |entries| - 1;
      ById(entries[..n])[entries[n].id := entries[n]]
  }

  lemma {:induction false} ByIdMembers(entries: seq<Entry>)
    ensures forall id :: id in ById(entries) ==> ById(entries)[id].id == id && ById(entries)[id] in entries
    ensures forall i :: 0 <= i < |entries| ==> entries[i].id in ById(entries)
  {
    if entries != [] { ByIdMembers(entries[..|entries| - 1]); }
  }

  lemma ByIdAppend(entries: seq<Entry>, e: Entry)
    ensures ById(entries + [e]) == ById(entries)[e.id := e]
  {
    assert (entries + [e])[..|entries|] == entries;
  }

  function Confirmation(s: Store, confirmedAt: Time): Time {
    if confirmedAt != 0 then confirmedAt else s.confirmedAt
  }

  /** A rewrite that stopped before its commit point: only the target generation may differ. */
  ghost predicate Uncommitted(s: Store, entries: seq<Entry>, s': Store) {
    var g := s.gen + 1;
    && s'.gen == s.gen && s'.confirmedAt == s.confirmedAt && s'.disk.meta == s.disk.meta
    && (forall k: RecordKey :: k.gen != g ==> SameAt(s.disk.recs, s'.disk.recs, k))
    && (forall k: RecordKey :: k.gen == g && k in s'.disk.recs ==>
          || (k in s.disk.recs && s'.disk.recs[k] == s.disk.recs[k])
          || (exists e :: e in entries && e.id == k.id && s'.disk.recs[k] == Seal(g, e)))
  }

  /** Meta points at a generation holding exactly `entries`; the previous one is gone or partly gone. */
  ghost predicate Committed(s: Store, version: string, entries: map<string, Entry>, savedAt: Time, conf: Time,
                            s': Store) {
    var g := s.gen + 1;
    && s'.gen == g && s'.confirmedAt == conf
    && s'.disk.meta == GoodMeta(Meta(g, version, savedAt, conf))
    && (forall k: RecordKey :: k.gen == g ==>
          && (k in s'.disk.recs <==> k.id in entries)
          && (k.id in entries ==> s'.disk.recs[k] == Seal(g, entries[k.id])))
    && (forall k: RecordKey :: k.gen == s.gen && k in s'.disk.recs ==> SameAt(s.disk.recs, s'.disk.recs, k))
    && (forall k: RecordKey :: k.gen != g && k.gen != s.gen ==> SameAt(s.disk.recs, s'.disk.recs, k))
  }

  /** Every way a full rewrite can end. */
  ghost predicate WroteGeneration(s: Store, version: string, entries: seq<Entry>, savedAt: Time, confirmedAt: Time,
                            s': Store, ok: bool) {
    || (!ok && Uncommitted(s, entries, s'))
    || (&& Committed(s, version, ById(entries), savedAt, Confirmation(s, confirmedAt), s')
        && (ok && s.gen != 0 ==> forall k: RecordKey :: k.gen == s.gen ==> k !in s'.disk.recs))
  }

  function WithMeta(s: Store, version: string, savedAt: Time, conf: Time): Store {
    Store(s.disk.(meta := GoodMeta(Meta(s.gen, version, savedAt, conf))), s.gen, conf)
  }

  ghost predicate Upserted(s: Store, version: string, e: Entry, savedAt: Time, s': Store, ok: bool) {
    if s.gen == 0 then WroteGeneration(s, version, [e], savedAt, 0, s', ok)
    else if !ok then s' == s
    else
      var t := WithMeta(s, version, savedAt, s.confirmedAt);
      s' == t.(disk := t.disk.(recs := s.disk.recs[RecordKey(s.gen, e.id) := Seal(s.gen, e)]))
  }

  ghost predicate Deleted(s: Store, version: string, id: string, savedAt: Time, s': Store, ok: bool) {
    if s.gen == 0 then WroteGeneration(s, version, [], savedAt, 0, s', ok)
    else if !ok then s' == s
    else
      var t := WithMeta(s, version, savedAt, s.confirmedAt);
      s' == t.(disk := t.disk.(recs := s.disk.recs - {RecordKey(s.gen, id)}))
  }

  ghost predicate Touched(s: Store, version: string, savedAt: Time, confirmedAt: Time, s': Store, ok: bool) {
    if s.gen == 0 then WroteGeneration(s, version, [], savedAt, confirmedAt, s', ok)
    else s' == if ok then WithMeta(s, version, savedAt, Confirmation(s, confirmedAt)) else s
  }

  /** On failure the in-memory confirmation time is put back, even when the rewrite had committed. */
  ghost predicate WasReset(s: Store, savedAt: Time, s': Store, ok: bool) {
    if ok then WroteGeneration(s.(confirmedAt := 0), "", [], savedAt, 0, s', true)
    else exists c :: WroteGeneration(s.(confirmedAt := 0), "", [], savedAt, 0, s'.(confirmedAt := c), false)
                     && s'.confirmedAt == s.confirmedAt
  }

  /** One persisted record: its entry, or None when it did not open. */
  datatype PersistedKey = PersistedKey(id: string, entry: Option<Entry>)

  datatype Loaded =
    | ReadError
    | Fresh
    | Unusable
    | Snapshot(version: string, savedAt: Time, confirmedAt: Time, keys: seq<PersistedKey>)

  function IdsOf(keys: seq<PersistedKey>): set<string> {
    if keys == [] then {} else IdsOf(keys[..|keys| - 1]) + {keys[|keys| - 1].id}
  }

  lemma {:induction false} IdsOfMembers(keys: seq<PersistedKey>)
    ensures forall id :: id in IdsOf(keys) <==> exists i :: 0 <= i < |keys| && keys[i].id == id
  {
    if keys != [] { IdsOfMembers(keys[..|keys| - 1]); }
  }

  ghost predicate DistinctIds(keys: seq<PersistedKey>) {
    forall i, j :: 0 <= i < j < |keys| ==> keys[i].id != keys[j].id
  }

  ghost predicate InOrder(keys: seq<PersistedKey>) {
    forall i, j :: 0 <= i < j < |keys| ==> LexLess(keys[i].id, keys[j].id)
  }

  /** `keys` lists every record of generation `g` once, in the byte order of the ids. */
  ghost predicate Lists(recs: map<RecordKey, Record>, g: nat, keys: seq<PersistedKey>) {
    && DistinctIds(keys) && InOrder(keys)
    && (forall i :: 0 <= i < |keys| ==> IsRecord(recs, g, keys[i]))
    && (forall k :: k in recs && k.gen == g ==> k.id in IdsOf(keys))
  }

  ghost predicate IsRecord(recs: map<RecordKey, Record>, g: nat, pk: PersistedKey) {
    var k := RecordKey(g, pk.id);
    k in recs && pk.entry == EntryAt(recs, k)
  }

  ghost predicate WasLoaded(s: Store, s': Store, r: Loaded) {
    match s.disk.meta
    case NoMeta => s' == s && (r == ReadError || r == Fresh)
    case BadMeta => (s' == s && r == ReadError) || (s' == Store(s.disk, 0, 0) && r == Unusable)
    case GoodMeta(m) =>
      || (s' == s && r == ReadError)
      || (s' == Store(s.disk, m.gen, m.confirmedAt) && r == ReadError)
      || (&& s'.gen == m.gen && s'.confirmedAt == m.confirmedAt && s'.disk.meta == s.disk.meta
          && Pruned(s.disk.recs, s'.disk.recs, s.disk.recs.Keys - KeysOf(s.disk.recs, m.gen))
          && r.Snapshot? && r.version == m.version && r.savedAt == m.savedAt && r.confirmedAt == m.confirmedAt
          && Lists(s.disk.recs, m.gen, r.keys))
  }

  /** Once the new generation is filled and meta points at it, removing old records cannot hurt it. */
  lemma FlipCommits(s: Store, filled: map<RecordKey, Record>, entries: seq<Entry>, s': Store)
    requires s'.disk.meta.GoodMeta?
    requires s'.gen == s'.disk.meta.meta.gen == s.gen + 1 && s'.confirmedAt == s'.disk.meta.meta.confirmedAt
    requires Holds(filled, s.gen + 1, entries)
    requires forall k: RecordKey :: k.gen != s.gen + 1 ==> SameAt(s.disk.recs, filled, k)
    requires Pruned(filled, s'.disk.recs, KeysOf(filled, s.gen))
    ensures Committed(s, s'.disk.meta.meta.version, ById(entries), s'.disk.meta.meta.savedAt, s'.confirmedAt, s')
  {
    forall k: RecordKey | k.gen != s.gen ensures SameAt(filled, s'.disk.recs, k) {
      assert k !in KeysOf(filled, s.gen);
    }
  }

  /** The atomic changes a full rewrite with `n` entries takes. */
  function RewriteCost(s: Store, n: nat): nat {
    |KeysOf(s.disk.recs, s.gen + 1)| + n + 1 + if s.gen == 0 then 0 else |KeysOf(s.disk.recs, s.gen)|
  }

  lemma {:induction false} OneKeyPerId(ids: set<string>, g: nat)
    ensures |set id | id in ids :: RecordKey(g, id)| <= |ids|
  {
    var keys := set id | id in ids :: RecordKey(g, id);
    if ids == {} {
      assert keys == {};
    } else {
      var id :| id in ids;
      OneKeyPerId(ids - {id}, g);
      assert keys == (set j | j in ids - {id} :: RecordKey(g, j)) + {RecordKey(g, id)};
    }
  }

  /** The store's iterator: the least id first. */
  method NextKey(todo: set<RecordKey>, g: nat) returns (k: RecordKey)
    requires todo != {} && forall j :: j in todo ==> j.gen == g
    ensures k in todo && forall j :: j in todo ==> j == k || LexLess(k.id, j.id)
  {
    k :| k in todo;
    var rest := todo - {k};
    while rest != {}
      invariant k in todo && rest <= todo && k !in rest
      invariant forall j :: j in todo && j !in rest ==> j == k || LexLess(k.id, j.id)
      decreases rest
    {
      var j :| j in rest;
      LessIsTotal(k.id, j.id);
      if LexLess(j.id, k.id) {
        forall i | i in todo && i !in rest && i != k ensures LexLess(j.id, i.id) { LessIsTransitive(j.id, k.id, i.id); }
        k := j;
      }
      rest := rest - {j};
    }
  }

  method ListRecords(recs: map<RecordKey, Record>, g: nat) returns (keys: seq<PersistedKey>)
    ensures Lists(recs, g, keys)
  {
    keys := [];
    var todo := KeysOf(recs, g);
    while todo != {}
      invariant todo <= KeysOf(recs, g) && DistinctIds(keys) && InOrder(keys)
      invariant forall i :: 0 <= i < |keys| ==> IsRecord(recs, g, keys[i]) && RecordKey(g, keys[i].id) !in todo
      invariant forall i, k :: 0 <= i < |keys| && k in todo ==> LexLess(keys[i].id, k.id)
      invariant forall k :: k in recs && k.gen == g && k !in todo ==> k.id in IdsOf(keys)
      decreases todo
    {
      var k := NextKey(todo, g);
      var pk := PersistedKey(k.id, EntryAt(recs, k));
      assert (keys + [pk])[..|keys|] == keys;
      keys, todo := keys + [pk], todo - {k};
    }
  }

  class BadgerKeyStore {
    var disk: Disk
    var gen: nat
    var confirmedAt: Time

    ghost function State(): Store
      reads this
    {
      Store(disk, gen, confirmedAt)
    }

    constructor (d: Disk)
      ensures State() == Store(d, 0, 0)
    {
      disk, gen, confirmedAt := d, 0, 0;
    }

    method DeleteKeys(keys: set<RecordKey>, fuse: nat) returns (ok: bool, left: nat)
      modifies this`disk
      ensures left <= fuse && disk.meta == old(disk.meta)
      ensures Pruned(old(disk.recs), disk.recs, keys)
      ensures ok ==> disk.recs == old(disk.recs) - keys
      ensures ok <==> fuse >= |keys|
      ensures ok ==> left == fuse - |keys|
    {
      var todo := keys;
      left := fuse;
      while todo != {}
        invariant left == fuse - (|keys| - |todo|) && todo <= keys && disk.meta == old(disk.meta)
        invariant disk.recs == old(disk.recs) - (keys - todo)
        decreases todo
      {
        if left == 0 { return false, left; }
        var k :| k in todo;
        disk := disk.(recs := disk.recs - {k});
        assert keys - (todo - {k}) == (keys - todo) + {k};
        todo, left := todo - {k}, left - 1;
      }
      assert keys - todo == keys;
      ok := true;
    }

    method DeletePrefix(g: nat, fuse: nat) returns (ok: bool, left: nat)
      modifies this`disk
      ensures left <= fuse && disk.meta == old(disk.meta)
      ensures Pruned(old(disk.recs), disk.recs, KeysOf(old(disk.recs), g))
      ensures ok ==> forall k :: k in disk.recs <==> k in old(disk.recs) && k.gen != g
      ensures ok <==> fuse >= |KeysOf(old(disk.recs), g)|
      ensures ok ==> left == fuse - |KeysOf(old(disk.recs), g)|
    {
      ok, left := DeleteKeys(KeysOf(disk.recs, g), fuse);
    }

    /** Steps 0 and 1 of a rewrite: empty generation `g`, then write one record per entry into it. */
    method FillGeneration(g: nat, entries: seq<Entry>, fuse: nat) returns (ok: bool, left: nat)
      modifies this`disk
      ensures left <= fuse && disk.meta == old(disk.meta)
      ensures forall k: RecordKey :: k.gen != g ==> SameAt(old(disk.recs), disk.recs, k)
      ensures ok ==> Holds(disk.recs, g, entries)
      ensures ok <==> fuse >= |KeysOf(old(disk.recs), g)| + |entries|
      ensures ok ==> left == fuse - |KeysOf(old(disk.recs), g)| - |entries|
      ensures forall k: RecordKey :: k.gen == g && k in disk.recs ==>
                || (k in old(disk.recs) && disk.recs[k] == old(disk.recs)[k])
                || (exists e :: e in entries && e.id == k.id && disk.recs[k] == Seal(g, e))
    {
      ok, left := DeletePrefix(g, fuse);
      if !ok { return; }
      var i := 0;
      while i < |entries|
        invariant 0 <= i <= |entries| && left == fuse - |KeysOf(old(disk.recs), g)| - i && disk.meta == old(disk.meta)
        invariant forall k: RecordKey :: k.gen != g ==> SameAt(old(disk.recs), disk.recs, k)
        invariant Holds(disk.recs, g, entries[..i])
      {
        if left == 0 {
          ByIdMembers(entries[..i]);
          assert forall e :: e in entries[..i] ==> e in entries;
          return false, left;
        }
        var e := entries[i];
        disk := disk.(recs := disk.recs[RecordKey(g, e.id) := Seal(g, e)]);
        ByIdAppend(entries[..i], e);
        assert entries[..i + 1] == entries[..i] + [e];
        i, left := i + 1, left - 1;
      }
      assert entries[..i] == entries;
      ByIdMembers(entries);
    }

    method WriteGeneration(version: string, entries: seq<Entry>, savedAt: Time, newConfirmation: Time, fuse: nat)
      returns (ok: bool)
      modifies this
      ensures WroteGeneration(old(State()), version, entries, savedAt, newConfirmation, State(), ok)
      ensures ok <==> fuse >= RewriteCost(old(State()), |entries|)
    {
      var oldGen, newGen := gen, gen + 1;
      var conf := if newConfirmation != 0 then newConfirmation else confirmedAt;
      var left;
      ok, left := FillGeneration(newGen, entries, fuse);
      if !ok || left == 0 {
        assert Uncommitted(old(State()), entries, State());
        return false;
      }
      ghost var filled := disk.recs;
      disk := disk.(meta := GoodMeta(Meta(newGen, version, savedAt, conf)));
      gen, confirmedAt := newGen, conf;
      if oldGen != 0 {
        assert KeysOf(disk.recs, oldGen) == KeysOf(old(disk.recs), oldGen);
        ok, left := DeletePrefix(oldGen, left - 1);
      }
      FlipCommits(old(State()), filled, entries, State());
    }

    method Upsert(version: string, e: Entry, savedAt: Time, fuse: nat) returns (ok: bool)
      modifies this
      ensures Upserted(old(State()), version, e, savedAt, State(), ok)
      ensures ok <==> fuse >= if old(gen) == 0 then RewriteCost(old(State()), 1) else 1
    {
      if gen == 0 {
        ok := WriteGeneration(version, [e], savedAt, 0, fuse);
        return;
      }
      if fuse == 0 { return false; }
      disk := Disk(GoodMeta(Meta(gen, version, savedAt, confirmedAt)), disk.recs[RecordKey(gen, e.id) := Seal(gen, e)]);
      ok := true;
    }

    method Delete(version: string, id: string, savedAt: Time, fuse: nat) returns (ok: bool)
      modifies this
      ensures Deleted(old(State()), version, id, savedAt, State(), ok)
      ensures ok <==> fuse >= if old(gen) == 0 then RewriteCost(old(State()), 0) else 1
    {
      if gen == 0 {
        ok := WriteGeneration(version, [], savedAt, 0, fuse);
        return;
      }
      if fuse == 0 { return false; }
      disk := Disk(GoodMeta(Meta(gen, version, savedAt, confirmedAt)), disk.recs - {RecordKey(gen, id)});
      ok := true;
    }

    method Touch(version: string, savedAt: Time, newConfirmation: Time, fuse: nat) returns (ok: bool)
      modifies this
      ensures Touched(old(State()), version, savedAt, newConfirmation, State(), ok)
      ensures ok <==> fuse >= if old(gen) == 0 then RewriteCost(old(State()), 0) else 1
    {
      if gen == 0 {
        ok := WriteGeneration(version, [], savedAt, newConfirmation, fuse);
        return;
      }
      var conf := confirmedAt;
      if newConfirmation != 0 { conf := newConfirmation; }
      if fuse == 0 { return false; }
      disk := disk.(meta := GoodMeta(Meta(gen, version, savedAt, conf)));
      confirmedAt := conf;
      ok := true;
    }

    method Reset(savedAt: Time, fuse: nat) returns (ok: bool)
      modifies this
      ensures WasReset(old(State()), savedAt, State(), ok)
      ensures ok <==> fuse >= RewriteCost(old(State()), 0)
    {
      var prev := confirmedAt;
      confirmedAt := 0;
      ghost var before := State();
      ok := WriteGeneration("", [], savedAt, 0, fuse);
      assert WroteGeneration(before, "", [], savedAt, 0, State(), ok);
      if !ok {
        ghost var c := confirmedAt;
        ghost var after := State();
        confirmedAt := prev;
        assert State().(confirmedAt := c) == after;
      }
    }

    method DeleteRecords(ids: set<string>, fuse: nat) returns (ok: bool)
      modifies this`disk
      ensures disk.meta == old(disk.meta)
      ensures Pruned(old(disk.recs), disk.recs, set id | id in ids :: RecordKey(gen, id))
      ensures ok && gen != 0 ==> disk.recs == old(disk.recs) - (set id | id in ids :: RecordKey(gen, id))
      ensures fuse >= |ids| ==> ok
    {
      if gen == 0 || ids == {} {
        return true;
      }
      var left;
      OneKeyPerId(ids, gen);
      ok, left := DeleteKeys(set id | id in ids :: RecordKey(gen, id), fuse);
    }

    /** The two flags say whether reading the meta cell and the records succeeds. */
    method Load(metaReads: bool, recordsRead: bool, fuse: nat) returns (r: Loaded)
      modifies this
      ensures WasLoaded(old(State()), State(), r)
      ensures r == ReadError <==> !metaReads || (!recordsRead && old(disk.meta).GoodMeta?)
      ensures r.Snapshot? && fuse >= |old(disk.recs).Keys - KeysOf(old(disk.recs), gen)| ==>
                forall k :: k in disk.recs ==> k.gen == gen
    {
      if !metaReads { return ReadError; }
      match disk.meta
      case NoMeta => return Fresh;
      case BadMeta =>
        gen, confirmedAt := 0, 0;
        return Unusable;
      case GoodMeta(meta) =>
        gen, confirmedAt := meta.gen, meta.confirmedAt;
        if !recordsRead { return ReadError; }
        var keys := ListRecords(disk.recs, gen);
        var ok, left := DeleteKeys(disk.recs.Keys - KeysOf(disk.recs, gen), fuse);
        r := Snapshot(meta.version, meta.savedAt, meta.confirmedAt, keys);
    }
  }

  /** Generation `g` holds exactly the given entries. */
  ghost predicate Holds(recs: map<RecordKey, Record>, g: nat, entries: seq<Entry>) {
    forall k: RecordKey :: k.gen == g ==>
      && (k in recs <==> k.id in ById(entries))
      && (k in recs ==> recs[k] == Seal(g, ById(entries)[k.id]))
  }
}
