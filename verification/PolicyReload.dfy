/** Reloading the policy directory into a running router (internal/router/router.go), and every sequence of updates. */
module PolicyReload {
  import opened PolicyIndex

  /**
   * What a reload sees: the files that parsed, in load order; the stems whose file is there and readable; those whose
   * file did not change since the last load; those whose document names a fallback provider that is not configured.
   */
  datatype Dir = Dir(files: seq<File>, present: set<string>, same: set<string>, refused: set<string>)

  function Loaded(d: Dir): Documents {
    Resolve(d.files).named
  }

  // ----- the merge

  /** A model of an unchanged file, or of a held document whose file is there but did not load. */
  predicate EstablishedBy(d: Dir, held: Documents, stem: string, m: string) {
    || (stem in Loaded(d) && stem in d.same && m in Loaded(d)[stem].models)
    || (stem in held && stem !in Loaded(d) && stem in d.present && m in held[stem].models)
  }

  ghost predicate Established(d: Dir, held: Documents, m: string) {
    exists stem :: EstablishedBy(d, held, stem, m)
  }

  /** A loaded document is turned away for its provider, or when it is new or changed and names an established model. */
  ghost predicate Drops(d: Dir, held: Documents, stem: string) {
    && stem in Loaded(d)
    && (stem in d.refused || (stem !in d.same && exists m :: m in Loaded(d)[stem].models && Established(d, held, m)))
  }

  ghost predicate Takes(d: Dir, held: Documents, stem: string) {
    stem in Loaded(d) && !Drops(d, held, stem)
  }

  /** A held document stays when its file is there and nothing new was taken under its name. */
  ghost predicate Keeps(d: Dir, held: Documents, stem: string) {
    stem in held && stem in d.present && !Takes(d, held, stem)
  }

  /** The documents a reload stores. */
  ghost predicate Merges(d: Dir, held: Documents, r: Documents) {
    && (forall stem :: stem in r <==> Takes(d, held, stem) || Keeps(d, held, stem))
    && (forall stem :: Takes(d, held, stem) ==> r[stem] == Loaded(d)[stem])
    && (forall stem :: Keeps(d, held, stem) ==> r[stem] == held[stem])
  }

  /**
   * What a reload stores, stem by stem: the loaded document unless its provider is missing or it is new or changed and
   * names a model of an unchanged file or of a held document whose file did not load; else the held document if its
   * file is there.
   */
  lemma StoredIs(d: Dir, held: Documents, r: Documents, stem: string)
    requires Merges(d, held, r)
    ensures var loaded := Loaded(d);
            var taken := && stem in loaded && stem !in d.refused
                         && (stem in d.same
                             || forall m, other :: m in loaded[stem].models ==>
                                  && !(other in loaded && other in d.same && m in loaded[other].models)
                                  && !(other in held && other !in loaded && other in d.present
                                       && m in held[other].models));
            && (stem in r <==> taken || (stem in held && stem in d.present))
            && (stem in r ==> r[stem] == if taken then loaded[stem] else held[stem])
  {
    var loaded := Loaded(d);
    if Takes(d, held, stem) && stem !in d.same {
      forall m, other | m in loaded[stem].models
        ensures !(other in loaded && other in d.same && m in loaded[other].models)
        ensures !(other in held && other !in loaded && other in d.present && m in held[other].models)
      {
        assert !Established(d, held, m);
        assert !EstablishedBy(d, held, other, m);
      }
    }
    assert stem in r <==> Takes(d, held, stem) || Keeps(d, held, stem);
  }

  lemma MergeIsUnique(d: Dir, held: Documents, r: Documents, r': Documents)
    requires Merges(d, held, r) && Merges(d, held, r')
    ensures r == r'
  {
    forall stem | stem in r ensures stem in r' && r[stem] == r'[stem] {
      assert Takes(d, held, stem) || Keeps(d, held, stem);
    }
    forall stem | stem in r' ensures stem in r { assert Takes(d, held, stem) || Keeps(d, held, stem); }
  }

  /** The first pass: the models of unchanged files, then those of held documents whose file did not load. */
  method EstablishedOwners(d: Dir, held: Documents, loaded: Documents) returns (owned: set<string>)
    requires loaded == Loaded(d)
    ensures forall m :: m in owned <==> Established(d, held, m)
  {
    owned := {};
    var left := loaded.Keys;
    while left != {}
      invariant left <= loaded.Keys
      invariant forall m :: m in owned ==> Established(d, held, m)
      invariant forall stem, m :: stem in loaded && stem !in left && EstablishedBy(d, held, stem, m) ==> m in owned
      decreases left
    {
      var stem :| stem in left;
      if stem in d.same {
        assert forall m :: m in loaded[stem].models ==> EstablishedBy(d, held, stem, m);
        owned := owned + (set m | m in loaded[stem].models);
      }
      left := left - {stem};
    }
    left := held.Keys;
    while left != {}
      invariant left <= held.Keys
      invariant forall m :: m in owned ==> Established(d, held, m)
      invariant forall stem, m :: stem in loaded && EstablishedBy(d, held, stem, m) ==> m in owned
      invariant forall stem, m :: stem in held && stem !in left && EstablishedBy(d, held, stem, m) ==> m in owned
      decreases left
    {
      var stem :| stem in left;
      if stem !in loaded && stem in d.present {
        assert forall m :: m in held[stem].models ==> EstablishedBy(d, held, stem, m);
        owned := owned + (set m | m in held[stem].models);
      }
      left := left - {stem};
    }
  }

  method NamesOwned(models: seq<string>, owned: set<string>) returns (conflict: bool)
    ensures conflict <==> exists m :: m in models && m in owned
  {
    for i := 0 to |models|
      invariant forall j :: 0 <= j < i ==> models[j] !in owned
    {
      if models[i] in owned { return true; }
    }
    return false;
  }

  /** The second pass: what is taken of the loaded documents. */
  method Validated(d: Dir, held: Documents, loaded: Documents) returns (valid: Documents)
    requires loaded == Loaded(d)
    ensures forall stem :: stem in valid <==> Takes(d, held, stem)
    ensures forall stem :: stem in valid ==> stem in loaded && valid[stem] == loaded[stem]
  {
    var owned := EstablishedOwners(d, held, loaded);
    valid := map[];
    var left := loaded.Keys;
    while left != {}
      invariant left <= loaded.Keys
      invariant forall stem :: stem in valid <==> stem in loaded && stem !in left && Takes(d, held, stem)
      invariant forall stem :: stem in valid ==> valid[stem] == loaded[stem]
      decreases left
    {
      var stem :| stem in left;
      left := left - {stem};
      if stem !in d.same {
        var conflict := NamesOwned(loaded[stem].models, owned);
        if conflict { continue; }
      }
      if stem in d.refused { continue; }
      valid := valid[stem := loaded[stem]];
    }
  }

  /** The whole reload: the two passes, then held documents whose file is still there. */
  method Reload(d: Dir, held: Documents) returns (valid: Documents)
    ensures Merges(d, held, valid)
  {
    var snap := LoadDirSnapshot(d.files);
    valid := Validated(d, held, snap.named);
    ghost var taken := valid;
    var left := held.Keys;
    while left != {}
      invariant left <= held.Keys
      invariant forall stem :: stem in valid <==> stem in taken || (stem !in left && Keeps(d, held, stem))
      invariant forall stem :: stem in taken ==> valid[stem] == taken[stem]
      invariant forall stem :: stem in valid && stem !in taken ==> valid[stem] == held[stem]
      decreases left
    {
      var stem :| stem in left;
      left := left - {stem};
      if stem !in valid && stem in d.present { valid := valid[stem := held[stem]]; }
    }
  }

  // ----- when a reload keeps claims apart

  /**
   * A held document and a loaded one name the same model and neither is turned away: because the held document's file
   * did not load and the other file is unchanged, so never checked; or because the held document's own file loaded,
   * which leaves its old models unprotected, and was then turned away.
   */
  ghost predicate Clash(d: Dir, held: Documents, stem: string, other: string, m: string) {
    && stem in held && stem in d.present && m in held[stem].models
    && other in Loaded(d) && other != stem && m in Loaded(d)[other].models && other !in d.refused
    && if stem in Loaded(d) then Drops(d, held, stem) && Takes(d, held, other) else other in d.same
  }

  ghost predicate SafeReload(d: Dir, held: Documents) {
    forall stem, other, m :: !Clash(d, held, stem, other, m)
  }

  lemma ClashIsStored(d: Dir, held: Documents, r: Documents, stem: string, other: string, m: string)
    requires Merges(d, held, r) && Clash(d, held, stem, other, m)
    ensures !Disjoint(r)
  {
    assert Keeps(d, held, stem) && Takes(d, held, other);
    assert stem in r && other in r && m in r[stem].models && m in r[other].models;
  }

  lemma SharedIsClash(d: Dir, held: Documents, r: Documents, stem: string, other: string, m: string)
    requires Merges(d, held, r) && Keeps(d, held, stem) && Takes(d, held, other)
    requires m in held[stem].models && m in Loaded(d)[other].models
    ensures Clash(d, held, stem, other, m)
  {
    if stem !in Loaded(d) {
      assert EstablishedBy(d, held, stem, m);
      assert Established(d, held, m);
    }
  }

  /** From documents that claim no model twice, a reload stores such documents exactly when nothing clashes. */
  lemma ReloadKeepsDisjointIff(d: Dir, held: Documents, r: Documents)
    requires Disjoint(held) && Merges(d, held, r)
    ensures Disjoint(r) <==> SafeReload(d, held)
  {
    LoadIsDisjoint(d.files);
    if !SafeReload(d, held) {
      var stem, other, m :| Clash(d, held, stem, other, m);
      ClashIsStored(d, held, r, stem, other, m);
    } else {
      forall a, b, m | a in r && b in r && m in r[a].models && m in r[b].models ensures a == b {
        SafeIsDisjoint(d, held, r, a, b, m);
      }
    }
  }

  lemma SafeIsDisjoint(d: Dir, held: Documents, r: Documents, a: string, b: string, m: string)
    requires Disjoint(held) && Disjoint(Loaded(d)) && Merges(d, held, r) && SafeReload(d, held)
    requires a in r && b in r && m in r[a].models && m in r[b].models
    ensures a == b
  {
    assert (Takes(d, held, a) || Keeps(d, held, a)) && (Takes(d, held, b) || Keeps(d, held, b));
    if a != b {
      if Keeps(d, held, a) && Takes(d, held, b) { SharedIsClash(d, held, r, a, b, m); }
      if Keeps(d, held, b) && Takes(d, held, a) { SharedIsClash(d, held, r, b, a, m); }
    }
  }

  // ----- every sequence of updates

  /** The documents in force, and those the reload in progress read before it merges. */
  datatype Docs = Docs(named: Documents, seen: Documents)

  datatype Update = SetNamed(name: string, p: Policy) | Delete(name: string) | Look | Store(d: Dir)

  ghost predicate Updates(x: Docs, u: Update, y: Docs) {
    match u
    case SetNamed(name, p) => y == x.(named := if Refused(x.named, name, p) then x.named else x.named[name := p])
    case Delete(name) => y == x.(named := x.named - {name})
    case Look => y == x.(seen := x.named)
    case Store(d) => y.seen == x.seen && Merges(d, x.seen, y.named)
  }

  /** A run from a start that loaded the directory. */
  ghost predicate Run(files: seq<File>, xs: seq<Docs>, us: seq<Update>) {
    && |xs| == |us| + 1 && xs[0] == Docs(Resolve(files).named, Resolve(files).named)
    && forall i :: 0 <= i < |us| ==> Updates(xs[i], us[i], xs[i + 1])
  }

  lemma SetKeepsDisjoint(named: Documents, name: string, p: Policy)
    requires Disjoint(named) && !Refused(named, name, p)
    ensures Disjoint(named[name := p])
  {
    forall m, other | m in p.models && other in named && other != name ensures m !in named[other].models {
      assert !Taken(named, name, m, other);
    }
  }

  lemma UpdateKeepsDisjoint(x: Docs, u: Update, y: Docs)
    requires Disjoint(x.named) && Disjoint(x.seen) && Updates(x, u, y)
    ensures Disjoint(y.seen)
    ensures Disjoint(y.named) <==> (u.Store? ==> SafeReload(u.d, x.seen))
  {
    match u
    case SetNamed(name, p) => if !Refused(x.named, name, p) { SetKeepsDisjoint(x.named, name, p); }
    case Delete(_) =>
    case Look =>
    case Store(d) => ReloadKeepsDisjointIff(d, x.seen, y.named);
  }

  ghost predicate DisjointUpTo(xs: seq<Docs>, i: nat) {
    forall k :: 0 <= k <= i && k < |xs| ==> Disjoint(xs[k].named)
  }

  ghost predicate SafeUpTo(xs: seq<Docs>, us: seq<Update>, i: nat)
    requires |xs| == |us| + 1
  {
    forall k :: 0 <= k < i && k < |us| && us[k].Store? ==> SafeReload(us[k].d, xs[k].seen)
  }

  /**
   * In every run of admin updates and reloads, admin updates that fall inside a reload included, no model is ever
   * claimed by two documents if and only if no reload met a clash.
   */
  lemma {:induction false} ClaimsStayDisjointIff(files: seq<File>, xs: seq<Docs>, us: seq<Update>, i: nat)
    requires Run(files, xs, us) && i < |xs|
    ensures DisjointUpTo(xs, i) <==> SafeUpTo(xs, us, i)
    ensures DisjointUpTo(xs, i) ==> Disjoint(xs[i].seen)
  {
    if i == 0 {
      LoadIsDisjoint(files);
    } else {
      ClaimsStayDisjointIff(files, xs, us, i - 1);
      if DisjointUpTo(xs, i - 1) {
        UpdateKeepsDisjoint(xs[i - 1], us[i - 1], xs[i]);
      }
    }
  }

  // ----- the two ways a reload can clash

  lemma ResolveOne(f: File)
    requires f.doc.models != []
    ensures Resolve([f]).named == map[f.stem := f.doc]
  {
    assert [f][..0] == [];
  }

  lemma ResolveTwo(f: File, g: File)
    requires f.doc.models != [] && g.doc.models != [] && f.stem != g.stem
    requires forall m :: m in g.doc.models ==> m !in f.doc.models
    ensures Resolve([f, g]).named == map[f.stem := f.doc, g.stem := g.doc]
  {
    ResolveOne(f);
    assert [f, g][..1] == [f] && [f][..0] == [];
    var s := Resolve([f]);
    forall m ensures m in s.claimedBy ==> m in f.doc.models { ClaimAt(map[], f.doc.models, f.stem, m); }
    assert !Conflicts(s, g);
  }

  /**
   * s held model m; its file now names n and a provider that is not configured, and a new file t names m. The reload
   * takes t, turns s away and keeps the old document of s: both claim m.
   */
  lemma EditedFileLosesItsModel(was: Policy, edited: Policy, next: Policy, m: string, n: string)
    requires was.models == [m] && edited.models == [n] && next.models == [m] && m != n
    ensures var d := Dir([File("s", edited), File("t", next)], {"s", "t"}, {}, {"s"});
            var stored := map["s" := was, "t" := next];
            && Merges(d, map["s" := was], stored) && !Disjoint(stored)
            && Run([File("s", was)],
                   [Docs(map["s" := was], map["s" := was]), Docs(stored, map["s" := was])], [Store(d)])
  {
    var d := Dir([File("s", edited), File("t", next)], {"s", "t"}, {}, {"s"});
    var held, stored := map["s" := was], map["s" := was, "t" := next];
    ResolveOne(File("s", was));
    ResolveTwo(File("s", edited), File("t", next));
    assert Loaded(d) == map["s" := edited, "t" := next];
    forall x ensures !Established(d, held, x) { }
    assert Drops(d, held, "s") && Takes(d, held, "t") && Keeps(d, held, "s");
    assert Merges(d, held, stored);
    assert m in stored["s"].models && m in stored["t"].models;
  }

  /**
   * The document a is deleted and s set to its model m through the admin API; the file of s is there but does not
   * load, the file of a is unchanged. The reload brings a back unchecked and keeps s: both claim m.
   */
  lemma UnchangedFileIsNotChecked(a: Policy, s: Policy, m: string)
    requires a.models == [m] && s.models == [m]
    ensures var d := Dir([File("a", a)], {"a", "s"}, {"a"}, {});
            var stored := map["a" := a, "s" := s];
            && !Disjoint(stored)
            && Run([File("a", a)],
                   [Docs(map["a" := a], map["a" := a]), Docs(map[], map["a" := a]), Docs(map["s" := s], map["a" := a]),
                    Docs(map["s" := s], map["s" := s]), Docs(stored, map["s" := s])],
                   [Delete("a"), SetNamed("s", s), Look, Store(d)])
  {
    var d := Dir([File("a", a)], {"a", "s"}, {"a"}, {});
    var held, stored := map["s" := s], map["a" := a, "s" := s];
    ResolveOne(File("a", a));
    assert Loaded(d) == map["a" := a];
    assert Takes(d, held, "a") && Keeps(d, held, "s");
    assert Merges(d, held, stored);
    assert m in stored["a"].models && m in stored["s"].models;
    assert map["a" := a] - {"a"} == map[];
  }
}
