/** What the registry accepts, field by field, and what an accepted mutation leaves (internal/auth/dynamic_key.go). */
module KeyRules {
  import opened Prelude
  import opened KeyEntry
  import opened KeyStore
  import opened KeyRegistry

  // ----- entries

  predicate HexDigit(c: char) {
    '0' <= c <= '9' || 'a' <= c <= 'f' || 'A' <= c <= 'F'
  }

  lemma {:induction false} LowerAt(s: string)
    ensures |Lower(s)| == |s| && forall i :: 0 <= i < |s| ==> Lower(s)[i] == LowerChar(s[i])
  {
    if s != "" { LowerAt(s[1..]); }
  }

  lemma {:induction false} AllHexAt(s: string)
    ensures AllHex(s) <==> forall i :: 0 <= i < |s| ==> '0' <= s[i] <= '9' || 'a' <= s[i] <= 'f'
  {
    if s != "" {
      AllHexAt(s[1..]);
      assert forall i :: 0 < i < |s| ==> s[i] == s[1..][i - 1];
    }
  }

  lemma LoweredHex(s: string)
    ensures |Lower(s)| == |s| && (AllHex(Lower(s)) <==> forall i :: 0 <= i < |s| ==> HexDigit(s[i]))
  {
    LowerAt(s);
    AllHexAt(Lower(s));
  }

  /**
   * An entry is accepted if and only if it names its id, owner and key, carries 64 hexadecimal digits in any case, a
   * share between 0 and 1, no negative bucket and no empty per-model block.
   */
  lemma EntryAcceptedIff(e: Entry)
    ensures Normalize(e).Some? <==>
            && e.id != "" && e.owner != "" && e.name != ""
            && |e.keyHash| == 64 && (forall i :: 0 <= i < 64 ==> HexDigit(e.keyHash[i]))
            && 0.0 <= e.quota.maxOccupancyShare <= 1.0
            && e.quota.inputTokensPerMinute >= 0 && e.quota.outputTokensPerMinute >= 0
            && (e.quota.perModel.Some? ==> e.quota.perModel.value != map[])
  {
    LoweredHex(e.keyHash);
  }

  /** Two accepted entries get the same hash if and only if theirs agree up to case. */
  lemma HashesAgreeUpToCase(a: Entry, b: Entry)
    requires Normalize(a).Some? && Normalize(b).Some?
    ensures Normalize(a).value.keyHash == Normalize(b).value.keyHash <==>
            |a.keyHash| == |b.keyHash|
            && forall i :: 0 <= i < |a.keyHash| ==> LowerChar(a.keyHash[i]) == LowerChar(b.keyHash[i])
  {
    LowerAt(a.keyHash);
    LowerAt(b.keyHash);
    if Lower(a.keyHash) == Lower(b.keyHash) {
      forall i | 0 <= i < |a.keyHash| ensures LowerChar(a.keyHash[i]) == LowerChar(b.keyHash[i]) {
        assert Lower(a.keyHash)[i] == Lower(b.keyHash)[i];
      }
    }
  }

  // ----- mutations

  /** The version is the current one or a later one. */
  predicate NotOlder(version: string, current: string) {
    version == current || LexLess(current, version)
  }

  lemma NotOlderIff(version: string, current: string)
    ensures NotOlder(version, current) <==> !LexLess(version, current)
  {
    LessIsTotal(version, current);
    NotLessItself(current);
    if LexLess(version, current) && LexLess(current, version) { LessIsTransitive(current, version, current); }
  }

  /** No other id holds the hash. */
  predicate FreeFor(entries: map<string, Entry>, hash: string, id: string) {
    forall other :: other in entries && entries[other].keyHash == hash ==> other == id
  }

  lemma UpsertAcceptedIff(v: View, version: string, raw: Entry)
    ensures var r, e := Judge(v, Upsert(version, raw)), Normalize(raw);
            && (r.Accepted? <==> e.Some? && NotOlder(version, v.version) && FreeFor(v.entries, e.value.keyHash, raw.id))
            && (r.Accepted? ==> r.view.version == version && r.view.entries == v.entries[raw.id := e.value])
            && (r == Refused(Invalid) <==> e.None?)
            && (r == Refused(Stale) <==> e.Some? && LexLess(version, v.version))
  {
    NotOlderIff(version, v.version);
  }

  lemma DeleteAcceptedIff(v: View, version: string, id: string)
    ensures var r := Judge(v, Delete(version, id));
            && (r.Accepted? <==> id != "" && NotOlder(version, v.version))
            && (r.Accepted? ==> r.view.version == version && id !in r.view.entries
                                && forall k :: k != id ==> SameKey(v.entries, r.view.entries, k))
            && (r == Refused(Invalid) <==> id == "")
  {
    NotOlderIff(version, v.version);
  }

  predicate SameKey(a: map<string, Entry>, b: map<string, Entry>, k: string) {
    (k in a <==> k in b) && (k in a ==> a[k] == b[k])
  }

  /** The normalized entry of the i-th entry pushed. */
  predicate Pushes(raw: seq<Entry>, i: int, e: Entry) {
    0 <= i < |raw| && Normalize(raw[i]) == Some(e)
  }

  /**
   * A full push is accepted if and only if every entry is, no two share an id or a hash, and it is not older; the
   * registry is then exactly what was pushed.
   */
  lemma PushAcceptedIff(v: View, version: string, raw: seq<Entry>)
    ensures var r := Judge(v, ReplaceAll(version, raw));
            && (r.Accepted? <==>
                  && (forall i :: 0 <= i < |raw| ==> Normalize(raw[i]).Some?)
                  && (forall i, j, a, b :: i < j && Pushes(raw, i, a) && Pushes(raw, j, b) ==>
                        a.id != b.id && a.keyHash != b.keyHash)
                  && NotOlder(version, v.version))
            && (r.Accepted? ==> r.view.version == version)
            && (r.Accepted? ==> forall e: Entry :: (e.id in r.view.entries && r.view.entries[e.id] == e)
                                            <==> exists i :: Pushes(raw, i, e))
  {
    NotOlderIff(version, v.version);
    var es := NormalizeAll(raw);
    if es.Some? {
      DistinctPushes(raw, es.value);
      if DistinctKeys(es.value) { PushIsHeld(raw, es.value); }
    }
  }

  lemma DistinctPushes(raw: seq<Entry>, es: seq<Entry>)
    requires |es| == |raw| && forall i :: 0 <= i < |raw| ==> Normalize(raw[i]) == Some(es[i])
    ensures DistinctKeys(es) <==> forall i, j, a, b :: i < j && Pushes(raw, i, a) && Pushes(raw, j, b) ==>
              a.id != b.id && a.keyHash != b.keyHash
  {
    if !DistinctKeys(es) {
      var i, j :| 0 <= i < j < |es| && !(es[i].id != es[j].id && es[i].keyHash != es[j].keyHash);
      assert Pushes(raw, i, es[i]) && Pushes(raw, j, es[j]);
    }
  }

  lemma PushIsHeld(raw: seq<Entry>, es: seq<Entry>)
    requires |es| == |raw| && (forall i :: 0 <= i < |raw| ==> Normalize(raw[i]) == Some(es[i])) && DistinctKeys(es)
    ensures forall e: Entry :: (e.id in ById(es) && ById(es)[e.id] == e) <==> exists i :: Pushes(raw, i, e)
  {
    ByIdMembers(es);
    forall e: Entry | e.id in ById(es) && ById(es)[e.id] == e ensures exists i :: Pushes(raw, i, e) {
      var i :| 0 <= i < |es| && es[i] == e;
      assert Pushes(raw, i, e);
    }
    forall e | exists i :: Pushes(raw, i, e) ensures e.id in ById(es) && ById(es)[e.id] == e {
      var i :| Pushes(raw, i, e);
      var j :| 0 <= j < |es| && es[j] == ById(es)[e.id];
      assert es[i] == e && es[j].id == e.id;
    }
  }

  /** Replaying an accepted mutation is accepted and changes nothing: delivery may repeat. */
  lemma ReplayIsAccepted(v: View, m: Mutation)
    requires Judge(v, m).Accepted?
    ensures Judge(Judge(v, m).view, m) == Judge(v, m)
  {
    NotLessItself(m.version);
    var w := Judge(v, m).view;
    match m
    case Upsert(version, raw) => assert w.entries[raw.id := Normalize(raw).value] == w.entries;
    case Delete(version, id) => assert w.entries - {id} == w.entries;
    case ReplaceAll(_, _) =>
  }
}
