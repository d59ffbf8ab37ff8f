/**
 * Named policy documents, the indexes derived from them and the directory load (internal/policy/executor.go,
 * loader.go).
 */
module PolicyIndex {
  import opened Prelude

  /** A policy document: the models it claims; `inherits` when it leaves routing to the global policy. */
  datatype Policy = Policy(models: seq<string>, inherits: bool, profile: Option<nat>, alias: Option<nat>, routing: nat)

  type Documents = map<string, Policy>

  datatype State = State(
    global: Policy, named: Documents, modelPolicies: map<string, Policy>,
    profiles: map<string, nat>, aliases: map<string, nat>)

  // ----- what the indexes mean

  /** No model is claimed by two documents. */
  ghost predicate Disjoint(named: Documents) {
    forall a, b, m :: a in named && b in named && m in named[a].models && m in named[b].models ==> a == b
  }

  predicate Routes(named: Documents, name: string, model: string) {
    name in named && !named[name].inherits && model in named[name].models
  }

  predicate Profiles(named: Documents, name: string, model: string) {
    name in named && named[name].profile.Some? && model in named[name].models
  }

  predicate Aliases(named: Documents, name: string, model: string) {
    name in named && named[name].alias.Some? && model in named[name].models
  }

  /** Each index holds a model exactly when some document provides it, with the value of such a document. */
  ghost predicate RoutingIndex(r: map<string, Policy>, named: Documents) {
    && (forall n, m :: Routes(named, n, m) ==> m in r)
    && forall m :: m in r ==> exists n :: Routes(named, n, m) && r[m] == named[n]
  }

  ghost predicate ProfileIndex(r: map<string, nat>, named: Documents) {
    && (forall n, m :: Profiles(named, n, m) ==> m in r)
    && forall m :: m in r ==> exists n :: Profiles(named, n, m) && Some(r[m]) == named[n].profile
  }

  ghost predicate AliasIndex(r: map<string, nat>, named: Documents) {
    && (forall n, m :: Aliases(named, n, m) ==> m in r)
    && forall m :: m in r ==> exists n :: Aliases(named, n, m) && Some(r[m]) == named[n].alias
  }

  ghost predicate Indexed(s: State) {
    && RoutingIndex(s.modelPolicies, s.named) && ProfileIndex(s.profiles, s.named) && AliasIndex(s.aliases, s.named)
  }

  /** A model is indexed exactly when some document that sets the attribute lists it, with such a document's value. */
  lemma IndexedIff(s: State, m: string)
    requires Indexed(s)
    ensures m in s.modelPolicies <==> exists n :: n in s.named && !s.named[n].inherits && m in s.named[n].models
    ensures m in s.profiles <==> exists n :: n in s.named && s.named[n].profile.Some? && m in s.named[n].models
    ensures m in s.profiles ==>
              exists n :: n in s.named && m in s.named[n].models && s.named[n].profile == Some(s.profiles[m])
    ensures m in s.aliases <==> exists n :: n in s.named && s.named[n].alias.Some? && m in s.named[n].models
    ensures m in s.aliases ==>
              exists n :: n in s.named && m in s.named[n].models && s.named[n].alias == Some(s.aliases[m])
  {
    RoutedIff(s, m);
    ProfiledIff(s, m);
    AliasedIff(s, m);
  }

  lemma RoutedIff(s: State, m: string)
    requires RoutingIndex(s.modelPolicies, s.named)
    ensures m in s.modelPolicies <==> exists n :: n in s.named && !s.named[n].inherits && m in s.named[n].models
  {
    if n :| n in s.named && !s.named[n].inherits && m in s.named[n].models { assert Routes(s.named, n, m); }
    if m in s.modelPolicies { var n :| Routes(s.named, n, m); }
  }

  lemma ProfiledIff(s: State, m: string)
    requires ProfileIndex(s.profiles, s.named)
    ensures m in s.profiles <==> exists n :: n in s.named && s.named[n].profile.Some? && m in s.named[n].models
    ensures m in s.profiles ==>
              exists n :: n in s.named && m in s.named[n].models && s.named[n].profile == Some(s.profiles[m])
  {
    if n :| n in s.named && s.named[n].profile.Some? && m in s.named[n].models { assert Profiles(s.named, n, m); }
    if m in s.profiles { var n :| Profiles(s.named, n, m) && Some(s.profiles[m]) == s.named[n].profile; }
  }

  lemma AliasedIff(s: State, m: string)
    requires AliasIndex(s.aliases, s.named)
    ensures m in s.aliases <==> exists n :: n in s.named && s.named[n].alias.Some? && m in s.named[n].models
    ensures m in s.aliases ==>
              exists n :: n in s.named && m in s.named[n].models && s.named[n].alias == Some(s.aliases[m])
  {
    if n :| n in s.named && s.named[n].alias.Some? && m in s.named[n].models { assert Aliases(s.named, n, m); }
    if m in s.aliases { var n :| Aliases(s.named, n, m) && Some(s.aliases[m]) == s.named[n].alias; }
  }

  /** With disjoint claims the indexes are determined by the documents: no order of building them can matter. */
  lemma IndexesAreUnique(s: State, t: State)
    requires Disjoint(s.named) && Indexed(s) && Indexed(t) && s.named == t.named
    ensures s.modelPolicies == t.modelPolicies && s.profiles == t.profiles && s.aliases == t.aliases
  {
    OneRoutingIsUnique(s.modelPolicies, t.modelPolicies, s.named);
    ProfilesAreUnique(s.profiles, t.profiles, s.named);
    AliasesAreUnique(s.aliases, t.aliases, s.named);
  }

  lemma ProfilesAreUnique(r: map<string, nat>, r': map<string, nat>, named: Documents)
    requires Disjoint(named) && ProfileIndex(r, named) && ProfileIndex(r', named)
    ensures r == r'
  {
    assert forall m :: m in r <==> m in r';
    forall m | m in r ensures r[m] == r'[m] {
      var n :| Profiles(named, n, m) && Some(r[m]) == named[n].profile;
      var n' :| Profiles(named, n', m) && Some(r'[m]) == named[n'].profile;
    }
  }

  lemma AliasesAreUnique(r: map<string, nat>, r': map<string, nat>, named: Documents)
    requires Disjoint(named) && AliasIndex(r, named) && AliasIndex(r', named)
    ensures r == r'
  {
    assert forall m :: m in r <==> m in r';
    forall m | m in r ensures r[m] == r'[m] {
      var n :| Aliases(named, n, m) && Some(r[m]) == named[n].alias;
      var n' :| Aliases(named, n', m) && Some(r'[m]) == named[n'].alias;
    }
  }

  /** Whoever routes a model routes it the same way. */
  ghost predicate OneRouting(named: Documents) {
    forall a, b, m :: Routes(named, a, m) && Routes(named, b, m) ==> named[a] == named[b]
  }

  // ----- the order of building

  /** An order in which the loop may visit the documents: each once. */
  ghost predicate Orders(order: seq<string>, names: set<string>) {
    && (forall n :: n in order <==> n in names)
    && forall i, j :: 0 <= i < j < |order| ==> order[i] != order[j]
  }

  /** The routing index as the loop builds it: a later document overrides an earlier one. */
  function Built(named: Documents, order: seq<string>): map<string, Policy>
    requires forall n :: n in order ==> n in named
  {
    if order == [] then map[]
    else
      var front, p := Built(named, order[..|order| - 1]), named[order[|order| - 1]];
      if p.inherits then front else front + (map m | m in p.models :: p)
  }

  /** What a document visited routes is in the index ... */
  lemma {:induction false} BuiltCovers(named: Documents, order: seq<string>, n: string, m: string)
    requires (forall n :: n in order ==> n in named) && n in order && Routes(named, n, m)
    ensures m in Built(named, order)
  {
    var front := order[..|order| - 1];
    if n in front { BuiltCovers(named, front, n, m); }
  }

  /** ... and what is in the index is a visited document's. */
  lemma {:induction false} BuiltFrom(named: Documents, order: seq<string>, m: string) returns (n: string)
    requires (forall n :: n in order ==> n in named) && m in Built(named, order)
    ensures Routes(named, n, m) && Built(named, order)[m] == named[n]
  {
    n := order[|order| - 1];
    if !Routes(named, n, m) { n := BuiltFrom(named, order[..|order| - 1], m); }
  }

  lemma BuiltIsIndex(named: Documents, order: seq<string>)
    requires Orders(order, named.Keys)
    ensures RoutingIndex(Built(named, order), named)
  {
    var r := Built(named, order);
    forall n, m | Routes(named, n, m) ensures m in r { BuiltCovers(named, order, n, m); }
    forall m | m in r ensures exists n :: Routes(named, n, m) && r[m] == named[n] {
      var n := BuiltFrom(named, order, m);
    }
  }

  lemma {:induction false} SomeOrder(names: set<string>) returns (order: seq<string>)
    ensures Orders(order, names)
    decreases |names|
  {
    if names == {} {
      order := [];
    } else {
      var n :| n in names;
      order := SomeOrder(names - {n});
      order := order + [n];
    }
  }

  /** Some order visits the document last, so its models are routed by it. */
  lemma VisitedLast(named: Documents, a: string, m: string) returns (order: seq<string>)
    requires Routes(named, a, m)
    ensures Orders(order, named.Keys) && m in Built(named, order) && Built(named, order)[m] == named[a]
  {
    var front := SomeOrder(named.Keys - {a});
    order := front + [a];
    assert order[..|order| - 1] == front;
  }

  lemma OneRoutingIsUnique(r: map<string, Policy>, r': map<string, Policy>, named: Documents)
    requires OneRouting(named) && RoutingIndex(r, named) && RoutingIndex(r', named)
    ensures r == r'
  {
    assert forall m :: m in r <==> m in r';
    forall m | m in r ensures r[m] == r'[m] {
      var n :| Routes(named, n, m) && r[m] == named[n];
      var n' :| Routes(named, n', m) && r'[m] == named[n'];
    }
  }

  lemma SameInAnyOrder(named: Documents, o: seq<string>, o': seq<string>)
    requires OneRouting(named) && Orders(o, named.Keys) && Orders(o', named.Keys)
    ensures Built(named, o) == Built(named, o')
  {
    BuiltIsIndex(named, o);
    BuiltIsIndex(named, o');
    OneRoutingIsUnique(Built(named, o), Built(named, o'), named);
  }

  /** Every order of visiting the documents builds the same routing index exactly when no model is routed two ways. */
  lemma RoutingIsUniqueIff(named: Documents)
    ensures OneRouting(named) <==>
            forall o, o' :: Orders(o, named.Keys) && Orders(o', named.Keys) ==> Built(named, o) == Built(named, o')
  {
    if OneRouting(named) {
      forall o, o' | Orders(o, named.Keys) && Orders(o', named.Keys) ensures Built(named, o) == Built(named, o') {
        SameInAnyOrder(named, o, o');
      }
    } else {
      var a, b, m :| Routes(named, a, m) && Routes(named, b, m) && named[a] != named[b];
      var o := VisitedLast(named, a, m);
      var o' := VisitedLast(named, b, m);
      assert Built(named, o)[m] != Built(named, o')[m];
    }
  }

  // ----- building the indexes

  /** The routing index, built in the order the documents happen to come in. */
  method BuildModelPolicies(named: Documents) returns (r: map<string, Policy>, ghost order: seq<string>)
    ensures RoutingIndex(r, named) && Orders(order, named.Keys) && r == Built(named, order)
  {
    r, order := map[], [];
    var left := named.Keys;
    while left != {}
      invariant left <= named.Keys && Orders(order, named.Keys - left) && r == Built(named, order)
      decreases left
    {
      var n :| n in left;
      if !named[n].inherits {
        r := PutAll(r, named[n].models, named[n]);
      }
      assert (order + [n])[..|order|] == order;
      order := order + [n];
      left := left - {n};
    }
    BuiltIsIndex(named, order);
  }

  method PutAll(r0: map<string, Policy>, models: seq<string>, p: Policy) returns (r: map<string, Policy>)
    ensures r == r0 + (map m | m in models :: p)
  {
    r := r0;
    for i := 0 to |models|
      invariant r == r0 + (map m | m in models[..i] :: p)
    {
      r := r[models[i] := p];
      assert models[..i + 1] == models[..i] + [models[i]];
    }
    assert models[..|models|] == models;
  }

  method PutProfile(r0: map<string, nat>, n: string, named: Documents) returns (r: map<string, nat>)
    requires n in named
    requires forall m :: m in r0 ==> exists n :: Profiles(named, n, m) && Some(r0[m]) == named[n].profile
    ensures forall m :: m in r0 || Profiles(named, n, m) ==> m in r
    ensures forall m :: m in r ==> exists n :: Profiles(named, n, m) && Some(r[m]) == named[n].profile
  {
    r := r0;
    var p := named[n];
    if p.profile.Some? {
      for i := 0 to |p.models|
        invariant forall m :: m in r0 || m in p.models[..i] ==> m in r
        invariant forall m :: m in r ==> exists n :: Profiles(named, n, m) && Some(r[m]) == named[n].profile
      {
        assert Profiles(named, n, p.models[i]);
        r := r[p.models[i] := p.profile.value];
      }
      assert p.models[..|p.models|] == p.models;
    }
  }

  method PutAlias(r0: map<string, nat>, n: string, named: Documents) returns (r: map<string, nat>)
    requires n in named
    requires forall m :: m in r0 ==> exists n :: Aliases(named, n, m) && Some(r0[m]) == named[n].alias
    ensures forall m :: m in r0 || Aliases(named, n, m) ==> m in r
    ensures forall m :: m in r ==> exists n :: Aliases(named, n, m) && Some(r[m]) == named[n].alias
  {
    r := r0;
    var p := named[n];
    if p.alias.Some? {
      for i := 0 to |p.models|
        invariant forall m :: m in r0 || m in p.models[..i] ==> m in r
        invariant forall m :: m in r ==> exists n :: Aliases(named, n, m) && Some(r[m]) == named[n].alias
      {
        assert Aliases(named, n, p.models[i]);
        r := r[p.models[i] := p.alias.value];
      }
      assert p.models[..|p.models|] == p.models;
    }
  }

  method NewPolicyState(global: Policy, named: Documents) returns (s: State)
    ensures s.global == global && s.named == named && Indexed(s)
  {
    var modelPolicies, _ := BuildModelPolicies(named);
    var profiles: map<string, nat>, aliases: map<string, nat> := map[], map[];
    var left := named;
    while left != map[]
      invariant left.Keys <= named.Keys
      invariant forall n, m :: Profiles(named, n, m) && n !in left ==> m in profiles
      invariant forall m :: m in profiles ==> exists n :: Profiles(named, n, m) && Some(profiles[m]) == named[n].profile
      invariant forall n, m :: Aliases(named, n, m) && n !in left ==> m in aliases
      invariant forall m :: m in aliases ==> exists n :: Aliases(named, n, m) && Some(aliases[m]) == named[n].alias
      decreases |left|
    {
      var n :| n in left;
      profiles := PutProfile(profiles, n, named);
      aliases := PutAlias(aliases, n, named);
      left := left - {n};
    }
    s := State(global, named, modelPolicies, profiles, aliases);
  }

  // ----- the directory load

  /** A policy file that parsed, in load order; `stem` is its name without the extension. */
  datatype File = File(stem: string, doc: Policy)

  /** What a directory load has decided so far. */
  datatype Snapshot = Snapshot(named: Documents, claimedBy: map<string, string>, conflicted: set<string>)

  predicate Conflicts(s: Snapshot, f: File) {
    exists m :: m in f.doc.models && m in s.claimedBy
  }

  function Claim(claimedBy: map<string, string>, models: seq<string>, stem: string): map<string, string> {
    if models == [] then claimedBy else Claim(claimedBy, models[..|models| - 1], stem)[models[|models| - 1] := stem]
  }

  function Keep(s: Snapshot, f: File): Snapshot {
    s.(named := s.named[f.stem := f.doc], claimedBy := Claim(s.claimedBy, f.doc.models, f.stem))
  }

  function Resolve(files: seq<File>): Snapshot {
    if files == [] then Snapshot(map[], map[], {})
    else
      var s, f := Resolve(files[..|files| - 1]), files[|files| - 1];
      if f.doc.models == [] then s
      else if Conflicts(s, f) then s.(conflicted := s.conflicted + {f.stem})
      else Keep(s, f)
  }

  method HasConflict(s: Snapshot, f: File) returns (conflict: bool)
    ensures conflict == Conflicts(s, f)
  {
    for i := 0 to |f.doc.models|
      invariant forall j :: 0 <= j < i ==> f.doc.models[j] !in s.claimedBy
    {
      if f.doc.models[i] in s.claimedBy { return true; }
    }
    return false;
  }

  method ClaimAll(claimedBy: map<string, string>, models: seq<string>, stem: string) returns (r: map<string, string>)
    ensures r == Claim(claimedBy, models, stem)
  {
    r := claimedBy;
    for i := 0 to |models|
      invariant r == Claim(claimedBy, models[..i], stem)
    {
      assert models[..i + 1][..i] == models[..i];
      r := r[models[i] := stem];
    }
    assert models[..|models|] == models;
  }

  /** Files in order; one that lists no model is skipped, one that lists a claimed model is left out whole. */
  method LoadDirSnapshot(files: seq<File>) returns (s: Snapshot)
    ensures s == Resolve(files)
  {
    s := Snapshot(map[], map[], {});
    for i := 0 to |files|
      invariant s == Resolve(files[..i])
    {
      assert files[..i + 1][..i] == files[..i];
      if |files[i].doc.models| == 0 { continue; }
      var conflict := HasConflict(s, files[i]);
      if conflict {
        s := s.(conflicted := s.conflicted + {files[i].stem});
      } else {
        var claimedBy := ClaimAll(s.claimedBy, files[i].doc.models, files[i].stem);
        s := s.(named := s.named[files[i].stem := files[i].doc], claimedBy := claimedBy);
      }
    }
    assert files[..|files|] == files;
  }

  lemma {:induction false} ClaimAt(claimedBy: map<string, string>, models: seq<string>, stem: string, m: string)
    ensures m in Claim(claimedBy, models, stem) <==> m in claimedBy || m in models
    ensures m in models ==> Claim(claimedBy, models, stem)[m] == stem
    ensures m in claimedBy && m !in models ==> Claim(claimedBy, models, stem)[m] == claimedBy[m]
  {
    if models != [] {
      var front := models[..|models| - 1];
      ClaimAt(claimedBy, front, stem, m);
      assert models == front + [models[|models| - 1]];
    }
  }

  ghost predicate Owned(s: Snapshot) {
    forall n, m :: n in s.named && m in s.named[n].models ==> m in s.claimedBy && s.claimedBy[m] == n
  }

  lemma {:induction false} LoadedIsOwned(files: seq<File>)
    ensures Owned(Resolve(files))
  {
    if files != [] {
      var s, f := Resolve(files[..|files| - 1]), files[|files| - 1];
      LoadedIsOwned(files[..|files| - 1]);
      if !Conflicts(s, f) { ClaimKeepsOwned(s, f); }
    }
  }

  lemma ClaimKeepsOwned(s: Snapshot, f: File)
    requires Owned(s) && !Conflicts(s, f)
    ensures Owned(Keep(s, f))
  {
    forall m ensures m in Claim(s.claimedBy, f.doc.models, f.stem) <==> m in s.claimedBy || m in f.doc.models
      ensures m in f.doc.models ==> Claim(s.claimedBy, f.doc.models, f.stem)[m] == f.stem
      ensures m in s.claimedBy && m !in f.doc.models ==> Claim(s.claimedBy, f.doc.models, f.stem)[m] == s.claimedBy[m]
    {
      ClaimAt(s.claimedBy, f.doc.models, f.stem, m);
    }
  }

  /** Whatever the directory holds, the documents a load keeps claim no model twice. */
  lemma LoadIsDisjoint(files: seq<File>)
    ensures Disjoint(Resolve(files).named)
  {
    LoadedIsOwned(files);
    var s := Resolve(files);
    forall a, b, m | a in s.named && b in s.named && m in s.named[a].models && m in s.named[b].models ensures a == b {
      assert s.claimedBy[m] == a;
      assert s.claimedBy[m] == b;
    }
  }

  /** A file is kept unless it names no model or one that a kept file before it names. */
  predicate Kept(files: seq<File>, i: nat)
    requires i < |files|
  {
    files[i].doc.models != [] && !Conflicts(Resolve(files[..i]), files[i])
  }

  predicate KeptWith(files: seq<File>, i: nat, m: string) {
    i < |files| && Kept(files, i) && m in files[i].doc.models
  }

  lemma {:induction false} ClaimedIffKept(files: seq<File>, m: string)
    ensures m in Resolve(files).claimedBy <==> exists i :: KeptWith(files, i, m)
  {
    if files != [] {
      var front, n := files[..|files| - 1], |files| - 1;
      ClaimedIffKept(front, m);
      ClaimAt(Resolve(front).claimedBy, files[n].doc.models, files[n].stem, m);
      forall i: nat | i < n ensures KeptWith(front, i, m) <==> KeptWith(files, i, m) {
        assert front[..i] == files[..i];
      }
      assert Kept(files, n) && m in files[n].doc.models ==> KeptWith(files, n, m);
    }
  }

  /** The oldest claim wins: a file that names models is left out exactly when an earlier kept file shares one. */
  lemma OldestClaimWins(files: seq<File>, i: nat)
    requires i < |files| && files[i].doc.models != []
    ensures !Kept(files, i) <==> exists j: nat, m :: j < i && KeptWith(files, j, m) && m in files[i].doc.models
  {
    forall m ensures m in Resolve(files[..i]).claimedBy <==> exists j: nat :: j < i && KeptWith(files, j, m) {
      ClaimedIffKept(files[..i], m);
      forall j: nat | j < i ensures KeptWith(files[..i], j, m) <==> KeptWith(files, j, m) {
        assert files[..i][..j] == files[..j];
      }
    }
  }

  /** Every claimed model is in the document that claims it. */
  ghost predicate Backed(s: Snapshot) {
    forall m :: m in s.claimedBy ==> s.claimedBy[m] in s.named && m in s.named[s.claimedBy[m]].models
  }

  predicate KeptAs(files: seq<File>, i: nat, stem: string) {
    i < |files| && Kept(files, i) && files[i].stem == stem
  }

  /** No two kept files share a stem, as x.yaml and x.yml do. */
  ghost predicate FreshStems(files: seq<File>) {
    forall i: nat, j: nat, stem :: KeptAs(files, i, stem) && KeptAs(files, j, stem) ==> i == j
  }

  lemma KeptAsBefore(files: seq<File>, front: seq<File>, i: nat, stem: string)
    requires files != [] && front == files[..|files| - 1] && i < |front|
    ensures KeptAs(front, i, stem) <==> KeptAs(files, i, stem)
  {
    assert front[..i] == files[..i];
  }

  lemma {:induction false} NamedIffKept(files: seq<File>, stem: string)
    ensures stem in Resolve(files).named <==> exists i :: KeptAs(files, i, stem)
  {
    if files != [] {
      var front, n := files[..|files| - 1], |files| - 1;
      NamedIffKept(front, stem);
      forall i: nat | i < n ensures KeptAs(front, i, stem) <==> KeptAs(files, i, stem) {
        KeptAsBefore(files, front, i, stem);
      }
      assert Kept(files, n) && files[n].stem == stem ==> KeptAs(files, n, stem);
    }
  }

  lemma FreshStemsBefore(files: seq<File>, front: seq<File>)
    requires files != [] && front == files[..|files| - 1] && FreshStems(files)
    ensures FreshStems(front) && (Kept(files, |front|) ==> files[|front|].stem !in Resolve(front).named)
  {
    forall i: nat, j: nat, stem | KeptAs(front, i, stem) && KeptAs(front, j, stem) ensures i == j {
      KeptAsBefore(files, front, i, stem);
      KeptAsBefore(files, front, j, stem);
    }
    var stem := files[|front|].stem;
    NamedIffKept(front, stem);
    forall i | Kept(files, |front|) && KeptAs(front, i, stem) ensures i == |front| {
      KeptAsBefore(files, front, i, stem);
      assert KeptAs(files, |front|, stem);
    }
  }

  lemma FreshStemsAfter(files: seq<File>, front: seq<File>)
    requires files != [] && front == files[..|files| - 1] && FreshStems(front)
    requires Kept(files, |front|) ==> files[|front|].stem !in Resolve(front).named
    ensures FreshStems(files)
  {
    NamedIffKept(front, files[|front|].stem);
    forall i: nat, j: nat, stem | KeptAs(files, i, stem) && KeptAs(files, j, stem) ensures i == j {
      if i < |front| { KeptAsBefore(files, front, i, stem); }
      if j < |front| { KeptAsBefore(files, front, j, stem); }
    }
  }

  ghost predicate NamesModels(s: Snapshot) {
    forall n :: n in s.named ==> s.named[n].models != []
  }

  lemma {:induction false} LoadedNameModels(files: seq<File>)
    ensures NamesModels(Resolve(files))
  {
    if files != [] { LoadedNameModels(files[..|files| - 1]); }
  }

  lemma KeepBackedIff(s: Snapshot, f: File)
    requires Owned(s) && NamesModels(s) && !Conflicts(s, f) && f.doc.models != []
    ensures Backed(Keep(s, f)) <==> Backed(s) && f.stem !in s.named
  {
    var t := Keep(s, f);
    forall m ensures m in t.claimedBy <==> m in s.claimedBy || m in f.doc.models
      ensures m in f.doc.models ==> t.claimedBy[m] == f.stem
      ensures m in s.claimedBy && m !in f.doc.models ==> t.claimedBy[m] == s.claimedBy[m]
    {
      ClaimAt(s.claimedBy, f.doc.models, f.stem, m);
    }
    if f.stem in s.named {
      var m := s.named[f.stem].models[0];
      assert m in s.named[f.stem].models && m in s.claimedBy && m !in f.doc.models;
      assert !Backed(t);
    } else if !Backed(s) {
      var m :| m in s.claimedBy && !(s.claimedBy[m] in s.named && m in s.named[s.claimedBy[m]].models);
      assert m !in f.doc.models && t.claimedBy[m] == s.claimedBy[m];
      assert !Backed(t);
    } else {
      assert Backed(t);
    }
  }

  /** A load keeps the document of every model it counts as claimed exactly when no kept file reuses a stem. */
  lemma {:induction false} ClaimsAreBackedIff(files: seq<File>)
    ensures Backed(Resolve(files)) <==> FreshStems(files)
  {
    if files != [] {
      var front, f := files[..|files| - 1], files[|files| - 1];
      ClaimsAreBackedIff(front);
      if FreshStems(files) { FreshStemsBefore(files, front); }
      if FreshStems(front) && (Kept(files, |front|) ==> f.stem !in Resolve(front).named) {
        FreshStemsAfter(files, front);
      }
      LoadedIsOwned(front);
      LoadedNameModels(front);
      if Kept(files, |files| - 1) { KeepBackedIff(Resolve(front), f); }
    }
  }

  /** x.yaml then x.yml: the first file's model is lost, yet a later file that names it is turned away. */
  lemma ReusedStemLosesItsModels(a: Policy, b: Policy, m: string, other: string)
    requires a.models == [m] && b.models == [other] && m != other
    ensures var s := Resolve([File("x", a), File("x", b), File("y", a)]);
            s.named == map["x" := b] && m in s.claimedBy && "y" in s.conflicted
  {
    var f, g, h := File("x", a), File("x", b), File("y", a);
    var s0 := Snapshot(map[], map[], {});
    ResolveNext([], f, s0);
    ClaimOne(map[], m, "x");
    var s1 := Snapshot(map["x" := a], map[m := "x"], {});
    assert [] + [f] == [f];
    ResolveNext([f], g, s1);
    ClaimOne(map[m := "x"], other, "x");
    var s2 := Snapshot(map["x" := b], map[m := "x", other := "x"], {});
    assert [f] + [g] == [f, g] && [f, g] + [h] == [f, g, h];
    ResolveNext([f, g], h, s2);
    assert m in h.doc.models && m in s2.claimedBy;
  }

  lemma ResolveNext(files: seq<File>, f: File, s: Snapshot)
    requires Resolve(files) == s && f.doc.models != []
    ensures Resolve(files + [f]) == if Conflicts(s, f) then s.(conflicted := s.conflicted + {f.stem}) else Keep(s, f)
  {
    assert (files + [f])[..|files|] == files;
  }

  lemma ClaimOne(claimedBy: map<string, string>, m: string, stem: string)
    ensures Claim(claimedBy, [m], stem) == claimedBy[m := stem]
  {
    assert [m][..0] == [];
  }

  // ----- the executor

  /** Searching the documents for the one that routes the model. */
  ghost predicate Governs(global: Policy, named: Documents, model: string, p: Policy) {
    if exists n :: Routes(named, n, model) then forall n :: Routes(named, n, model) ==> p == named[n] else p == global
  }

  predicate Taken(named: Documents, name: string, model: string, other: string) {
    other in named && other != name && model in named[other].models
  }

  predicate Refused(named: Documents, name: string, p: Policy) {
    exists m, other :: m in p.models && other in named && Taken(named, name, m, other)
  }

  /** With a model claimed once the policy returned is the claimant's; claimed twice, it is some claimant's. */
  ghost predicate Served(s: State, model: string, p: Policy) {
    && (Disjoint(s.named) ==> Governs(s.global, s.named, model, p))
    && (if exists n :: Routes(s.named, n, model) then exists n :: Routes(s.named, n, model) && p == s.named[n]
        else p == s.global)
  }

  class Executor {
    var state: State

    ghost predicate Valid()
      reads this
    {
      Indexed(state)
    }

    constructor (initial: Policy)
      ensures Valid() && state.named == map[] && state.global == initial
    {
      state := State(initial, map[], map[], map[], map[]);
    }

    method SetPolicy(p: Policy)
      requires Valid()
      modifies this
      ensures Valid() && state.global == p && state.named == old(state.named)
    {
      state := NewPolicyState(p, state.named);
    }

    /** The document that routes the model, if there is one, else the global policy. */
    method EffectivePolicy(model: string) returns (p: Policy)
      requires Valid()
      ensures Served(state, model, p)
      ensures if exists n :: n in state.named && !state.named[n].inherits && model in state.named[n].models
              then exists n :: n in state.named && !state.named[n].inherits && model in state.named[n].models
                               && p == state.named[n]
              else p == state.global
    {
      if model in state.modelPolicies { return state.modelPolicies[model]; }
      return state.global;
    }

    /** A document that would claim another's model is refused, naming a real conflict. */
    method SetNamedPolicy(name: string, p: Policy) returns (conflict: Option<(string, string)>)
      requires Valid()
      modifies this
      ensures Valid() && state.global == old(state.global)
      ensures conflict.Some? <==> Refused(old(state.named), name, p)
      ensures conflict.Some? <==> exists other, m :: other in old(state.named) && other != name && m in p.models
                                                     && m in old(state.named)[other].models
      ensures conflict.None? ==> state.named == old(state.named)[name := p]
      ensures conflict.Some? ==> state == old(state) && conflict.value.0 in p.models
      ensures conflict.Some? ==> Taken(state.named, name, conflict.value.0, conflict.value.1)
    {
      conflict := FindConflict(state.named, name, p);
      if conflict.None? {
        state := NewPolicyState(state.global, state.named[name := p]);
      }
    }

    method DeleteNamedPolicy(name: string)
      requires Valid()
      modifies this
      ensures Valid() && state.global == old(state.global) && state.named == old(state.named) - {name}
    {
      state := NewPolicyState(state.global, state.named - {name});
    }

    /** Any map is taken as it is: nothing here checks its claims. */
    method SetNamedPoliciesFromSnapshot(named: Documents)
      modifies this
      ensures Valid() && state.global == old(state.global) && state.named == named
    {
      state := NewPolicyState(state.global, named);
    }
  }

  method FindConflict(named: Documents, name: string, p: Policy) returns (conflict: Option<(string, string)>)
    ensures conflict.Some? <==> Refused(named, name, p)
    ensures conflict.Some? ==> conflict.value.0 in p.models && Taken(named, name, conflict.value.0, conflict.value.1)
  {
    for i := 0 to |p.models|
      invariant forall j, other :: 0 <= j < i && other in named ==> !Taken(named, name, p.models[j], other)
    {
      var left := named.Keys;
      while left != {}
        invariant left <= named.Keys
        invariant forall other :: other in named && other !in left ==> !Taken(named, name, p.models[i], other)
        decreases left
      {
        var other :| other in left;
        if other != name && p.models[i] in named[other].models {
          assert Taken(named, name, p.models[i], other) && p.models[i] in p.models;
          return Some((p.models[i], other));
        }
        left := left - {other};
      }
    }
    return None;
  }
}
