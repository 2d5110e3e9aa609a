/** Loading kernel modules, dependencies first. */
module ModuleLoader {
  import opened Wrappers

  /** Ok, ERROR_MOD_LOADED, ERROR_MOD_NONE, and whatever else init may return. */
  datatype Code = Ok | Loaded | Unknown | Failed(code: int)

  /** A module with what its init will return, and then sysfs_add_entry. */
  datatype Module = Module(name: string, deps: seq<string>, init: Code, entry: Code)

  /** A call of a module's init, with the modules loaded at that moment. */
  datatype Call = Call(mod: Module, loaded: seq<Module>)

  /** Both lists grow at the front. */
  datatype Loader = Loader(registered: seq<Module>, loaded: seq<Module>, calls: seq<Call>)

  function Lookup(list: seq<Module>, name: string): Option<Module> {
    if list == [] then None else if list[0].name == name then Some(list[0]) else Lookup(list[1..], name)
  }

  function Removed(list: seq<Module>, name: string): seq<Module> {
    if list == [] then [] else if list[0].name == name then list[1..] else [list[0]] + Removed(list[1..], name)
  }

  type Rank = string -> nat

  /** Dependencies rank below their module: there are no cycles. */
  ghost predicate Acyclic(list: seq<Module>, rank: Rank) {
    forall m, d :: m in list && d in m.deps ==> rank(d) < rank(m.name)
  }

  predicate Accepted(c: Code) {
    c == Ok || c == Loaded
  }

  // ------------------------------------------------------------- module_load

  /** module_load */
  ghost function Load(s: Loader, name: string, rank: Rank): (r: (Loader, Code))
    requires Acyclic(s.registered, rank)
    ensures forall m :: m in r.0.registered ==> m in s.registered
    decreases rank(name), 1, 0
  {
    if Lookup(s.loaded, name).Some? then (s, Loaded)
    else match Lookup(s.registered, name)
         case None => (s, Unknown)
         case Some(m) =>
           LookupIn(s.registered, name);
           var (s', c) := LoadAll(s, m.deps, rank(name), rank);
           if c != Ok then (s', c)
           else
             RemovedIn(s'.registered, name);
             var called := s'.(calls := s'.calls + [Call(m, s'.loaded)]);
             if m.init != Ok then (called, m.init)
             else if m.entry != Ok then (called, m.entry)
             else (called.(registered := Removed(s'.registered, name), loaded := [m] + s'.loaded), Ok)
  }

  /** The loop over a module's dependencies. */
  ghost function LoadAll(s: Loader, deps: seq<string>, bound: nat, rank: Rank): (r: (Loader, Code))
    requires Acyclic(s.registered, rank) && forall d :: d in deps ==> rank(d) < bound
    ensures forall m :: m in r.0.registered ==> m in s.registered
    decreases bound, 0, |deps|
  {
    if deps == [] then (s, Ok)
    else
      var (s', c) := Load(s, deps[0], rank);
      if !Accepted(c) then (s', c) else LoadAll(s', deps[1..], bound, rank)
  }

  lemma {:induction false} LookupIn(list: seq<Module>, name: string)
    ensures Lookup(list, name).Some? ==> Lookup(list, name).value in list && Lookup(list, name).value.name == name
    ensures Lookup(list, name).None? <==> forall m :: m in list ==> m.name != name
  {
    if list != [] && list[0].name != name {
      LookupIn(list[1..], name);
      assert forall m :: m in list <==> m == list[0] || m in list[1..];
    }
  }

  lemma {:induction false} RemovedIn(list: seq<Module>, name: string)
    ensures forall m :: m in Removed(list, name) ==> m in list
    ensures forall x :: x != name ==> Lookup(Removed(list, name), x) == Lookup(list, x)
    ensures Lookup(list, name).Some? ==>
              multiset(list) == multiset(Removed(list, name)) + multiset{Lookup(list, name).value}
  {
    if list != [] {
      assert list == [list[0]] + list[1..];
      if list[0].name != name { RemovedIn(list[1..], name); }
    }
  }

  // ------------------------------------------------------------------- effects

  /** What any call does: modules of rank below `bound` may have moved from one list
      to the front of the other, and nothing else has changed. */
  ghost predicate Moved(s: Loader, s': Loader, bound: nat, rank: Rank) {
    && |s.loaded| <= |s'.loaded| && s'.loaded[|s'.loaded| - |s.loaded|..] == s.loaded
    && multiset(s'.registered) + multiset(s'.loaded) == multiset(s.registered) + multiset(s.loaded)
    && (forall m :: m in s'.registered ==> m in s.registered)
    && (forall x :: rank(x) >= bound ==> Lookup(s'.registered, x) == Lookup(s.registered, x))
    && (forall m :: m in s'.loaded ==> m in s.loaded || rank(m.name) < bound)
  }

  lemma MovedTwice(a: Loader, b: Loader, c: Loader, bound: nat, rank: Rank)
    requires Moved(a, b, bound, rank) && Moved(b, c, bound, rank)
    ensures Moved(a, c, bound, rank)
  {
    var j, k := |b.loaded| - |a.loaded|, |c.loaded| - |b.loaded|;
    assert c.loaded[k + j..] == c.loaded[k..][j..];
  }

  lemma {:induction false} LoadMoves(s: Loader, name: string, rank: Rank)
    requires Acyclic(s.registered, rank)
    ensures Moved(s, Load(s, name, rank).0, rank(name) + 1, rank)
    decreases rank(name), 1, 0
  {
    hide Lookup, Removed;
    LookupIn(s.registered, name);
    if Lookup(s.loaded, name).None? && Lookup(s.registered, name).Some? {
      var m := Lookup(s.registered, name).value;
      LoadAllMoves(s, m.deps, rank(name), rank);
      var (s', c) := LoadAll(s, m.deps, rank(name), rank);
      RemovedIn(s'.registered, name);
    }
  }

  lemma {:induction false} LoadAllMoves(s: Loader, deps: seq<string>, bound: nat, rank: Rank)
    requires Acyclic(s.registered, rank) && forall d :: d in deps ==> rank(d) < bound
    ensures Moved(s, LoadAll(s, deps, bound, rank).0, bound, rank)
    decreases bound, 0, |deps|
  {
    if deps != [] {
      LoadMoves(s, deps[0], rank);
      var (s', c) := Load(s, deps[0], rank);
      if Accepted(c) {
        LoadAllMoves(s', deps[1..], bound, rank);
        MovedTwice(s, s', LoadAll(s', deps[1..], bound, rank).0, bound, rank);
      }
    }
  }

  /** No init, and no sysfs, answers ERROR_MOD_LOADED for itself. */
  ghost predicate Honest(list: seq<Module>) {
    forall m :: m in list ==> m.init != Loaded && m.entry != Loaded
  }

  predicate IsLoaded(s: Loader, name: string) {
    Lookup(s.loaded, name).Some?
  }

  lemma {:induction false} SuffixLookup(list: seq<Module>, k: nat, name: string)
    requires k <= |list| && Lookup(list[k..], name).Some?
    ensures Lookup(list, name).Some?
  {
    LookupIn(list[k..], name);
    LookupIn(list, name);
  }

  lemma MovedKeeps(s: Loader, s': Loader, bound: nat, rank: Rank, name: string)
    requires Moved(s, s', bound, rank)
    ensures IsLoaded(s, name) ==> IsLoaded(s', name)
    ensures rank(name) >= bound ==> (IsLoaded(s', name) <==> IsLoaded(s, name))
  {
    hide Lookup;
    LookupIn(s.loaded, name);
    LookupIn(s'.loaded, name);
    if IsLoaded(s, name) { SuffixLookup(s'.loaded, |s'.loaded| - |s.loaded|, name); }
  }

  /** A module is loaded afterwards exactly if it was before or the call says Ok:
      a failure never marks one loaded. */
  lemma LoadMarks(s: Loader, name: string, rank: Rank)
    requires Acyclic(s.registered, rank)
    ensures var (s', c) := Load(s, name, rank);
            && (IsLoaded(s', name) <==> IsLoaded(s, name) || c == Ok)
            && (IsLoaded(s, name) ==> s' == s && c == Loaded)
            && (Honest(s.registered) ==> (IsLoaded(s', name) <==> Accepted(c)))
  {
    hide Removed, Lookup, LoadAll, Moved;
    if !IsLoaded(s, name) && Lookup(s.registered, name).Some? {
      LookupIn(s.registered, name);
      var m := Lookup(s.registered, name).value;
      LoadAllMoves(s, m.deps, rank(name), rank);
      var (s', c) := LoadAll(s, m.deps, rank(name), rank);
      MovedKeeps(s, s', rank(name), rank, name);
      AllRefuses(s, m.deps, rank(name), rank);
      LookupFront(m, s'.loaded);
    }
  }

  lemma LookupFront(m: Module, list: seq<Module>)
    ensures Lookup([m] + list, m.name) == Some(m)
  {
  }

  lemma {:induction false} AllRefuses(s: Loader, deps: seq<string>, bound: nat, rank: Rank)
    requires Acyclic(s.registered, rank) && forall d :: d in deps ==> rank(d) < bound
    ensures LoadAll(s, deps, bound, rank).1 == Ok || !Accepted(LoadAll(s, deps, bound, rank).1)
    decreases |deps|
  {
    if deps != [] {
      var (s', c) := Load(s, deps[0], rank);
      if Accepted(c) { AllRefuses(s', deps[1..], bound, rank); }
    }
  }

  /** The answer ERROR_MOD_LOADED from an init passes for a loaded dependency: here
      "b" is loaded although "a", on which it depends, is not. */
  lemma LyingInit()
    ensures var a, b := Module("a", [], Loaded, Ok), Module("b", ["a"], Ok, Ok);
            var rank := (n: string) => if n == "b" then 1 else 0;
            && Acyclic([b, a], rank)
            && var (s, c) := Load(Loader([b, a], [], []), "b", rank);
               c == Ok && IsLoaded(s, "b") && !IsLoaded(s, "a")
  {
    var a, b := Module("a", [], Loaded, Ok), Module("b", ["a"], Ok, Ok);
    var rank := (n: string) => if n == "b" then 1 else 0;
    var s := Loader([b, a], [], []);
    assert Lookup(s.registered, "b") == Some(b);
    assert s.registered[1..] == [a] && Lookup(s.registered[1..], "a") == Some(a);
    assert Lookup(s.registered, "a") == Some(a);
    var s1 := s.(calls := [Call(a, [])]);
    assert LoadAll(s, [], 0, rank) == (s, Ok);
    assert LoadAll(s, a.deps, rank("a"), rank) == (s, Ok) && s1 == s.(calls := s.calls + [Call(a, s.loaded)]);
    assert Load(s, "a", rank) == (s1, Loaded);
    assert ["a"][1..] == [];
    assert LoadAll(s1, [], 1, rank) == (s1, Ok);
    assert LoadAll(s, b.deps, 1, rank) == (s1, Ok);
    assert Load(s, "b", rank).1 == Ok && Load(s, "b", rank).0.loaded == [b];
  }

  // ------------------------------------------------------------- topological order

  /** Everything a loaded module depends on was loaded before it. */
  ghost predicate DepsFirst(loaded: seq<Module>) {
    forall i, d :: 0 <= i < |loaded| && d in loaded[i].deps ==> Lookup(loaded[i + 1..], d).Some?
  }

  /** Every init ran with all dependencies loaded. */
  ghost predicate CallsReady(calls: seq<Call>) {
    forall k, d :: 0 <= k < |calls| && d in calls[k].mod.deps ==> Lookup(calls[k].loaded, d).Some?
  }

  ghost predicate Ordered(s: Loader) {
    DepsFirst(s.loaded) && CallsReady(s.calls)
  }

  lemma PushDeps(m: Module, loaded: seq<Module>)
    requires DepsFirst(loaded) && forall d :: d in m.deps ==> Lookup(loaded, d).Some?
    ensures DepsFirst([m] + loaded)
  {
    var r := [m] + loaded;
    forall i, d | 0 <= i < |r| && d in r[i].deps ensures Lookup(r[i + 1..], d).Some? {
      if i == 0 { assert r[1..] == loaded; } else { assert r[i + 1..] == loaded[i..]; }
    }
  }

  lemma PushCall(calls: seq<Call>, c: Call)
    requires CallsReady(calls) && forall d :: d in c.mod.deps ==> Lookup(c.loaded, d).Some?
    ensures CallsReady(calls + [c])
  {
  }

  /** `path` leads from a module to a dependency of a dependency of it. */
  ghost predicate DependsVia(loaded: seq<Module>, i: nat, path: seq<string>)
    requires i < |loaded|
    decreases |path|
  {
    path != [] && path[0] in loaded[i].deps
    && (|path| > 1 ==> exists j :: 0 <= j < |loaded| && loaded[j].name == path[0] && DependsVia(loaded, j, path[1..]))
  }

  // Names of loaded modules are distinct: a name once loaded is never loaded again.
  ghost predicate OnceEach(loaded: seq<Module>) {
    forall i, j :: 0 <= i < j < |loaded| ==> loaded[i].name != loaded[j].name
  }

  /** Dependencies of dependencies too, however far, were loaded before. */
  lemma {:induction false} TransitiveFirst(loaded: seq<Module>, i: nat, path: seq<string>)
    requires DepsFirst(loaded) && OnceEach(loaded) && i < |loaded| && DependsVia(loaded, i, path)
    ensures exists k :: i < k < |loaded| && loaded[k].name == path[|path| - 1]
    decreases |path|
  {
    LookupIn(loaded[i + 1..], path[0]);
    var m := Lookup(loaded[i + 1..], path[0]).value;
    var k :| 0 <= k < |loaded[i + 1..]| && loaded[i + 1..][k] == m;
    assert loaded[i + 1 + k].name == path[0];
    if |path| > 1 {
      var j :| 0 <= j < |loaded| && loaded[j].name == path[0] && DependsVia(loaded, j, path[1..]);
      assert j == i + 1 + k;
      TransitiveFirst(loaded, j, path[1..]);
    }
  }

  /** No module is loaded twice, and no name. */
  lemma {:induction false} LoadOnce(s: Loader, name: string, rank: Rank)
    requires Acyclic(s.registered, rank) && OnceEach(s.loaded)
    ensures OnceEach(Load(s, name, rank).0.loaded)
    decreases rank(name), 1, 0
  {
    hide Removed, Moved;
    if !IsLoaded(s, name) && Lookup(s.registered, name).Some? {
      LookupIn(s.registered, name);
      var m := Lookup(s.registered, name).value;
      LoadAllOnce(s, m.deps, rank(name), rank);
      var (s', c) := LoadAll(s, m.deps, rank(name), rank);
      LoadAllMoves(s, m.deps, rank(name), rank);
      MovedKeeps(s, s', rank(name), rank, name);
      LookupIn(s'.loaded, name);
    }
  }

  lemma {:induction false} LoadAllOnce(s: Loader, deps: seq<string>, bound: nat, rank: Rank)
    requires Acyclic(s.registered, rank) && OnceEach(s.loaded) && forall d :: d in deps ==> rank(d) < bound
    ensures OnceEach(LoadAll(s, deps, bound, rank).0.loaded)
    decreases bound, 0, |deps|
  {
    if deps != [] {
      LoadOnce(s, deps[0], rank);
      var (s', c) := Load(s, deps[0], rank);
      if Accepted(c) { LoadAllOnce(s', deps[1..], bound, rank); }
    }
  }

  // -------------------------------------------------------------- what it answers

  /** The module's own init and entry are taken for success. */
  predicate Passes(m: Module) {
    m.init == Loaded || (m.init == Ok && Accepted(m.entry))
  }

  /** The module would be taken for loaded although it fails to start: its init, or
      after it sysfs, answers ERROR_MOD_LOADED. */
  predicate Lies(s: Loader, name: string) {
    !IsLoaded(s, name) &&
    match Lookup(s.registered, name)
    case None => false
    case Some(m) => Passes(m) && !(m.init == Ok && m.entry == Ok)
  }

  /** Everything below `name` is there and passes, honestly or not. */
  ghost predicate Acceptable(s: Loader, name: string, rank: Rank)
    requires Acyclic(s.registered, rank)
    decreases rank(name)
  {
    IsLoaded(s, name) ||
    match Lookup(s.registered, name)
    case None => false
    case Some(m) =>
      LookupIn(s.registered, name);
      Passes(m) && forall d :: d in m.deps ==> Acceptable(s, d, rank)
  }

  /** `s'` has loaded more of what `s` accepts and no liar, and lost nothing. */
  ghost predicate Progress(s: Loader, s': Loader, rank: Rank)
    requires Acyclic(s.registered, rank)
  {
    && Acyclic(s'.registered, rank)
    && (forall x :: IsLoaded(s', x) ==> Acceptable(s, x, rank) && !Lies(s, x))
    && (forall x :: IsLoaded(s, x) ==> IsLoaded(s', x))
    && (forall x :: !IsLoaded(s', x) ==> Lookup(s'.registered, x) == Lookup(s.registered, x))
  }

  lemma {:induction false} SameAcceptable(s: Loader, s': Loader, rank: Rank, name: string)
    requires Acyclic(s.registered, rank) && Progress(s, s', rank)
    ensures Acceptable(s', name, rank) <==> Acceptable(s, name, rank)
    ensures Lies(s', name) <==> Lies(s, name)
    decreases rank(name)
  {
    if !IsLoaded(s', name) && Lookup(s.registered, name).Some? {
      LookupIn(s.registered, name);
      var m := Lookup(s.registered, name).value;
      forall d | d in m.deps ensures Acceptable(s', d, rank) <==> Acceptable(s, d, rank) {
        SameAcceptable(s, s', rank, d);
      }
    }
  }

  lemma ProgressTwice(a: Loader, b: Loader, c: Loader, rank: Rank)
    requires Acyclic(a.registered, rank) && Progress(a, b, rank) && Progress(b, c, rank)
    ensures Progress(a, c, rank)
  {
    hide Acceptable, Lookup, Lies;
    forall x | IsLoaded(c, x) ensures Acceptable(a, x, rank) && !Lies(a, x) { SameAcceptable(a, b, rank, x); }
  }

  lemma NoProgress(s: Loader, rank: Rank)
    requires Acyclic(s.registered, rank)
    ensures Progress(s, s, rank)
  {
  }

  /** The end of a load: the module itself goes to the front, if it starts. */
  lemma LoadTail(s: Loader, s': Loader, name: string, rank: Rank)
    requires Acyclic(s.registered, rank) && Progress(s, s', rank) && !IsLoaded(s', name) && Acceptable(s, name, rank)
    requires Lookup(s'.registered, name).Some? && !Lies(s, name)
    ensures var r := s'.(registered := Removed(s'.registered, name),
                         loaded := [Lookup(s'.registered, name).value] + s'.loaded);
            Progress(s, r, rank)
  {
    hide Acceptable, Lies, Lookup, Removed;
    var m := Lookup(s'.registered, name).value;
    var r := s'.(registered := Removed(s'.registered, name), loaded := [m] + s'.loaded);
    LookupIn(s'.registered, name);
    RemovedIn(s'.registered, name);
    forall x ensures IsLoaded(r, x) <==> x == name || IsLoaded(s', x) { LookupCons(m, s'.loaded, x); }
  }

  lemma LookupCons(m: Module, list: seq<Module>, x: string)
    ensures Lookup([m] + list, x) == if x == m.name then Some(m) else Lookup(list, x)
  {
    assert ([m] + list)[1..] == list;
  }

  /** Only what a call records changes. */
  lemma ProgressCall(s: Loader, s': Loader, rank: Rank, calls: seq<Call>)
    requires Acyclic(s.registered, rank) && Progress(s, s', rank)
    ensures Progress(s, s'.(calls := calls), rank)
  {
    hide Acceptable, Lies, Lookup;
    var r := s'.(calls := calls);
    assert forall x :: IsLoaded(r, x) == IsLoaded(s', x);
  }

  /** What the call returns, whatever the modules answer: it is taken for success
      exactly when everything below passes, and nothing is loaded but what passes
      and does not lie. */
  lemma {:induction false} LoadAccepts(s: Loader, name: string, rank: Rank)
    requires Acyclic(s.registered, rank)
    ensures Progress(s, Load(s, name, rank).0, rank)
    ensures Accepted(Load(s, name, rank).1) <==> Acceptable(s, name, rank)
    decreases rank(name), 1, 0
  {
    hide Removed, Progress;
    NoProgress(s, rank);
    if !IsLoaded(s, name) && Lookup(s.registered, name).Some? {
      LookupIn(s.registered, name);
      var m := Lookup(s.registered, name).value;
      LoadAllAccepts(s, m.deps, rank(name), rank);
      AllRefuses(s, m.deps, rank(name), rank);
      var (s', c) := LoadAll(s, m.deps, rank(name), rank);
      LoadAllMoves(s, m.deps, rank(name), rank);
      MovedKeeps(s, s', rank(name), rank, name);
      if c == Ok {
        var calls := s'.calls + [Call(m, s'.loaded)];
        ProgressCall(s, s', rank, calls);
        if m.init == Ok && m.entry == Ok { LoadTail(s, s'.(calls := calls), name, rank); }
      }
    }
  }

  lemma {:induction false} LoadAllAccepts(s: Loader, deps: seq<string>, bound: nat, rank: Rank)
    requires Acyclic(s.registered, rank) && forall d :: d in deps ==> rank(d) < bound
    ensures Progress(s, LoadAll(s, deps, bound, rank).0, rank)
    ensures LoadAll(s, deps, bound, rank).1 == Ok <==> forall d :: d in deps ==> Acceptable(s, d, rank)
    decreases bound, 0, |deps|
  {
    hide Load, Lookup, Acceptable, Progress;
    if deps == [] {
      NoProgress(s, rank);
    } else {
      LoadAccepts(s, deps[0], rank);
      assert forall d :: d in deps <==> d == deps[0] || d in deps[1..];
      var (s', c) := Load(s, deps[0], rank);
      if Accepted(c) {
        LoadAllAccepts(s', deps[1..], bound, rank);
        ProgressTwice(s, s', LoadAll(s', deps[1..], bound, rank).0, rank);
        forall d | d in deps[1..] ensures Acceptable(s', d, rank) <==> Acceptable(s, d, rank) {
          SameAcceptable(s, s', rank, d);
        }
      }
    }
  }

  /** A dependency that was accepted is loaded, unless it lies. */
  lemma AcceptedOrLies(s: Loader, name: string, rank: Rank)
    requires Acyclic(s.registered, rank) && Accepted(Load(s, name, rank).1)
    ensures IsLoaded(Load(s, name, rank).0, name) <==> !Lies(s, name)
  {
    hide Removed, Progress, Moved;
    LoadMarks(s, name, rank);
    if !IsLoaded(s, name) && Lookup(s.registered, name).Some? {
      LookupIn(s.registered, name);
      AllRefuses(s, Lookup(s.registered, name).value.deps, rank(name), rank);
    }
  }

  /** A module is taken for loaded without being so exactly when everything below it
      passes and it lies itself. */
  lemma FalseClaim(s: Loader, name: string, rank: Rank)
    requires Acyclic(s.registered, rank)
    ensures var (s', c) := Load(s, name, rank);
            Accepted(c) && !IsLoaded(s', name) <==> Acceptable(s, name, rank) && Lies(s, name)
  {
    hide Load, Acceptable, Lies;
    LoadAccepts(s, name, rank);
    if Accepted(Load(s, name, rank).1) { AcceptedOrLies(s, name, rank); }
  }

  lemma {:induction false} AllAcceptedOrLie(s: Loader, deps: seq<string>, bound: nat, rank: Rank, d: string)
    requires Acyclic(s.registered, rank) && forall x :: x in deps ==> rank(x) < bound
    requires LoadAll(s, deps, bound, rank).1 == Ok && d in deps
    ensures IsLoaded(LoadAll(s, deps, bound, rank).0, d) <==> !Lies(s, d)
    decreases |deps|
  {
    hide Load, Lookup, Lies, Progress, Moved, Acceptable;
    LoadAllAccepts(s, deps, bound, rank);
    LoadAccepts(s, deps[0], rank);
    var (s', c) := Load(s, deps[0], rank);
    var r := LoadAll(s', deps[1..], bound, rank).0;
    SameAcceptable(s, s', rank, d);
    LoadAllMoves(s', deps[1..], bound, rank);
    MovedKeeps(s', r, bound, rank, d);
    if d in deps[1..] {
      AllAcceptedOrLie(s', deps[1..], bound, rank, d);
    } else {
      AcceptedOrLies(s, d, rank);
      LiarsStayOut(s, LoadAll(s, deps, bound, rank).0, rank, d);
    }
  }

  lemma LiarsStayOut(s: Loader, s': Loader, rank: Rank, d: string)
    requires Acyclic(s.registered, rank) && Progress(s, s', rank)
    ensures Lies(s, d) ==> !IsLoaded(s', d)
  {
  }

  // --------------------------------------------------------------- when in order

  /** No module below `name` that the load gets to would start without one of its
      dependencies: those it tries are clean, and if all of them pass, none lies. */
  ghost predicate Clean(s: Loader, name: string, rank: Rank)
    requires Acyclic(s.registered, rank)
    decreases rank(name), 1, 0
  {
    IsLoaded(s, name) ||
    match Lookup(s.registered, name)
    case None => true
    case Some(m) =>
      LookupIn(s.registered, name);
      && CleanAll(s, m.deps, rank(name), rank)
      && ((forall d :: d in m.deps ==> Acceptable(s, d, rank)) ==> forall d :: d in m.deps ==> !Lies(s, d))
  }

  /** Each dependency that the loop reaches is clean: it stops at the first that is
      not acceptable. */
  ghost predicate CleanAll(s: Loader, deps: seq<string>, bound: nat, rank: Rank)
    requires Acyclic(s.registered, rank) && forall d :: d in deps ==> rank(d) < bound
    decreases bound, 0, |deps|
  {
    deps == [] || (Clean(s, deps[0], rank) && (Acceptable(s, deps[0], rank) ==> CleanAll(s, deps[1..], bound, rank)))
  }

  /** What has been loaded since `s` was clean there. */
  ghost predicate CleanSince(s: Loader, s': Loader, rank: Rank)
    requires Acyclic(s.registered, rank)
  {
    forall x :: IsLoaded(s', x) ==> Clean(s, x, rank)
  }

  lemma {:induction false} SameClean(s: Loader, s': Loader, rank: Rank, name: string)
    requires Acyclic(s.registered, rank) && Progress(s, s', rank) && CleanSince(s, s', rank)
    ensures Clean(s', name, rank) <==> Clean(s, name, rank)
    decreases rank(name), 1, 0
  {
    hide Acceptable, Lies;
    if !IsLoaded(s', name) && Lookup(s.registered, name).Some? {
      LookupIn(s.registered, name);
      var m := Lookup(s.registered, name).value;
      forall d | d in m.deps
        ensures (Acceptable(s', d, rank) <==> Acceptable(s, d, rank)) && (Lies(s', d) <==> Lies(s, d))
      {
        SameAcceptable(s, s', rank, d);
      }
      SameCleanAll(s, s', rank, m.deps, rank(name));
    }
  }

  lemma {:induction false} SameCleanAll(s: Loader, s': Loader, rank: Rank, deps: seq<string>, bound: nat)
    requires Acyclic(s.registered, rank) && Progress(s, s', rank) && CleanSince(s, s', rank)
    requires forall d :: d in deps ==> rank(d) < bound
    ensures CleanAll(s', deps, bound, rank) <==> CleanAll(s, deps, bound, rank)
    decreases bound, 0, |deps|
  {
    hide Acceptable, Lies, Clean, Progress, CleanSince;
    if deps != [] {
      SameClean(s, s', rank, deps[0]);
      SameAcceptable(s, s', rank, deps[0]);
      SameCleanAll(s, s', rank, deps[1..], bound);
    }
  }

  lemma CleanTwice(a: Loader, b: Loader, c: Loader, rank: Rank)
    requires Acyclic(a.registered, rank) && Progress(a, b, rank) && CleanSince(a, b, rank) && CleanSince(b, c, rank)
    ensures CleanSince(a, c, rank)
  {
    hide Clean, Progress;
    forall x | IsLoaded(c, x) ensures Clean(a, x, rank) { SameClean(a, b, rank, x); }
  }

  lemma CleanStart(s: Loader, rank: Rank)
    requires Acyclic(s.registered, rank)
    ensures CleanSince(s, s, rank)
  {
  }

  /** Calls are never taken back. */
  lemma {:induction false} LoadCalls(s: Loader, name: string, rank: Rank)
    requires Acyclic(s.registered, rank)
    ensures s.calls <= Load(s, name, rank).0.calls
    decreases rank(name), 1, 0
  {
    hide Lookup, Removed;
    if !IsLoaded(s, name) && Lookup(s.registered, name).Some? {
      LookupIn(s.registered, name);
      LoadAllCalls(s, Lookup(s.registered, name).value.deps, rank(name), rank);
    }
  }

  lemma {:induction false} LoadAllCalls(s: Loader, deps: seq<string>, bound: nat, rank: Rank)
    requires Acyclic(s.registered, rank) && forall d :: d in deps ==> rank(d) < bound
    ensures s.calls <= LoadAll(s, deps, bound, rank).0.calls
    decreases bound, 0, |deps|
  {
    if deps != [] {
      LoadCalls(s, deps[0], rank);
      var (s', c) := Load(s, deps[0], rank);
      if Accepted(c) { LoadAllCalls(s', deps[1..], bound, rank); }
    }
  }

  lemma Unready(calls: seq<Call>, more: seq<Call>)
    requires !CallsReady(calls) && calls <= more
    ensures !CallsReady(more)
  {
    var k, d :| 0 <= k < |calls| && d in calls[k].mod.deps && Lookup(calls[k].loaded, d).None?;
    assert more[k] == calls[k];
  }

  /** An init called without one of its dependencies. */
  lemma BadCall(calls: seq<Call>, c: Call, d: string)
    requires d in c.mod.deps && Lookup(c.loaded, d).None?
    ensures !CallsReady(calls + [c])
  {
    assert (calls + [c])[|calls|] == c;
  }

  /** The last part of a load whose dependencies were all accepted. */
  lemma LastCall(s: Loader, s': Loader, m: Module, rank: Rank)
    requires Acyclic(s.registered, rank) && Ordered(s')
    requires forall d :: d in m.deps ==> (IsLoaded(s', d) <==> !Lies(s, d))
    ensures var calls := s'.calls + [Call(m, s'.loaded)];
            if forall d :: d in m.deps ==> !Lies(s, d) then CallsReady(calls) && DepsFirst([m] + s'.loaded)
            else !CallsReady(calls)
  {
    hide Lies, CallsReady, DepsFirst;
    if forall d :: d in m.deps ==> !Lies(s, d) {
      PushCall(s'.calls, Call(m, s'.loaded));
      PushDeps(m, s'.loaded);
    } else {
      var d :| d in m.deps && Lies(s, d);
      BadCall(s'.calls, Call(m, s'.loaded), d);
    }
  }

  /** The order is kept exactly by a clean load, and a load that is not clean runs
      some init without its dependencies. */
  lemma {:induction false} LoadKeepsOrder(s: Loader, name: string, rank: Rank)
    requires Acyclic(s.registered, rank) && Ordered(s)
    ensures if Clean(s, name, rank) then Ordered(Load(s, name, rank).0) && CleanSince(s, Load(s, name, rank).0, rank)
            else !CallsReady(Load(s, name, rank).0.calls)
    decreases rank(name), 1, 0
  {
    hide Removed, DepsFirst, CallsReady, CleanAll, Acceptable, Lies, CleanSince, Moved;
    CleanStart(s, rank);
    if !IsLoaded(s, name) && Lookup(s.registered, name).Some? {
      LookupIn(s.registered, name);
      var m := Lookup(s.registered, name).value;
      LoadAllKeepsOrder(s, m.deps, rank(name), rank);
      LoadAllAccepts(s, m.deps, rank(name), rank);
      var (s', c) := LoadAll(s, m.deps, rank(name), rank);
      if c == Ok {
        var calls := s'.calls + [Call(m, s'.loaded)];
        if CleanAll(s, m.deps, rank(name), rank) {
          forall d | d in m.deps ensures IsLoaded(s', d) <==> !Lies(s, d) {
            AllAcceptedOrLie(s, m.deps, rank(name), rank, d);
          }
          LastCall(s, s', m, rank);
          if Clean(s, name, rank) { CleanPush(s, s', m, rank); }
        } else {
          Unready(s'.calls, calls);
        }
      }
    }
  }

  lemma CleanPush(s: Loader, s': Loader, m: Module, rank: Rank)
    requires Acyclic(s.registered, rank) && CleanSince(s, s', rank) && Clean(s, m.name, rank)
    ensures forall r: Loader :: r.loaded == s'.loaded || r.loaded == [m] + s'.loaded ==> CleanSince(s, r, rank)
  {
    hide Clean, Lookup;
    forall r: Loader, x | (r.loaded == s'.loaded || r.loaded == [m] + s'.loaded) && IsLoaded(r, x)
      ensures Clean(s, x, rank)
    {
      LookupCons(m, s'.loaded, x);
    }
  }

  lemma {:induction false} LoadAllKeepsOrder(s: Loader, deps: seq<string>, bound: nat, rank: Rank)
    requires Acyclic(s.registered, rank) && Ordered(s) && forall d :: d in deps ==> rank(d) < bound
    ensures if CleanAll(s, deps, bound, rank)
            then Ordered(LoadAll(s, deps, bound, rank).0) && CleanSince(s, LoadAll(s, deps, bound, rank).0, rank)
            else !CallsReady(LoadAll(s, deps, bound, rank).0.calls)
    decreases bound, 0, |deps|
  {
    hide Load, Lookup, DepsFirst, CallsReady, Clean, Acceptable, CleanSince, Progress;
    if deps == [] {
      CleanStart(s, rank);
    } else {
      LoadKeepsOrder(s, deps[0], rank);
      LoadAccepts(s, deps[0], rank);
      var (s', c) := Load(s, deps[0], rank);
      if Accepted(c) {
        var r := LoadAll(s', deps[1..], bound, rank).0;
        LoadAllCalls(s', deps[1..], bound, rank);
        if Clean(s, deps[0], rank) {
          LoadAllKeepsOrder(s', deps[1..], bound, rank);
          SameCleanAll(s, s', rank, deps[1..], bound);
          if CleanAll(s', deps[1..], bound, rank) { CleanTwice(s, s', r, rank); }
        } else {
          Unready(s'.calls, r.calls);
        }
      }
    }
  }

  /** module_load keeps the order, every dependency loaded before an init runs,
      exactly when it is clean. */
  lemma LoadOrdered(s: Loader, name: string, rank: Rank)
    requires Acyclic(s.registered, rank) && Ordered(s)
    ensures Ordered(Load(s, name, rank).0) <==> Clean(s, name, rank)
  {
    LoadKeepsOrder(s, name, rank);
  }

  // ------------------------------------------------------------- when it succeeds

  /** Everything below `name` is there and starts without error. */
  ghost predicate Loadable(s: Loader, name: string, rank: Rank)
    requires Acyclic(s.registered, rank)
    decreases rank(name)
  {
    IsLoaded(s, name) ||
    match Lookup(s.registered, name)
    case None => false
    case Some(m) =>
      LookupIn(s.registered, name);
      m.init == Ok && m.entry == Ok && forall d :: d in m.deps ==> Loadable(s, d, rank)
  }

  /** To be loadable is to be accepted, in order and without a lie. */
  lemma {:induction false} LoadableIs(s: Loader, name: string, rank: Rank)
    requires Acyclic(s.registered, rank)
    ensures Loadable(s, name, rank) <==> Acceptable(s, name, rank) && Clean(s, name, rank) && !Lies(s, name)
    decreases rank(name), 1
  {
    if !IsLoaded(s, name) && Lookup(s.registered, name).Some? {
      LookupIn(s.registered, name);
      var m := Lookup(s.registered, name).value;
      forall d | d in m.deps
        ensures Loadable(s, d, rank) <==> Acceptable(s, d, rank) && Clean(s, d, rank) && !Lies(s, d)
      {
        LoadableIs(s, d, rank);
      }
      if forall d :: d in m.deps ==> Acceptable(s, d, rank) { CleanAllOf(s, m.deps, rank(name), rank); }
    }
  }

  lemma {:induction false} CleanAllOf(s: Loader, deps: seq<string>, bound: nat, rank: Rank)
    requires Acyclic(s.registered, rank) && forall d :: d in deps ==> rank(d) < bound && Acceptable(s, d, rank)
    ensures CleanAll(s, deps, bound, rank) <==> forall d :: d in deps ==> Clean(s, d, rank)
    decreases |deps|
  {
    hide Acceptable, Clean;
    if deps != [] {
      assert forall d :: d in deps <==> d == deps[0] || d in deps[1..];
      assert deps[0] in deps;
      CleanAllOf(s, deps[1..], bound, rank);
    }
  }

  /** The module ends up loaded, and everything in order, exactly when it is
      loadable, whatever else the registry holds. */
  lemma LoadSucceeds(s: Loader, name: string, rank: Rank)
    requires Acyclic(s.registered, rank) && Ordered(s)
    ensures var (s', c) := Load(s, name, rank);
            IsLoaded(s', name) && Ordered(s') <==> Loadable(s, name, rank)
  {
    hide Load, Clean, Acceptable, Loadable, Lies, Ordered;
    LoadOrdered(s, name, rank);
    LoadAccepts(s, name, rank);
    LoadableIs(s, name, rank);
    LoadMarks(s, name, rank);
    if Accepted(Load(s, name, rank).1) { AcceptedOrLies(s, name, rank); }
  }

  // ------------------------------------------------------------ honest registries

  lemma HonestTruth(s: Loader, name: string)
    requires Honest(s.registered)
    ensures !Lies(s, name)
  {
    LookupIn(s.registered, name);
  }

  lemma {:induction false} HonestLoadable(s: Loader, name: string, rank: Rank)
    requires Acyclic(s.registered, rank) && Honest(s.registered)
    ensures Acceptable(s, name, rank) <==> Loadable(s, name, rank)
    decreases rank(name)
  {
    if !IsLoaded(s, name) && Lookup(s.registered, name).Some? {
      LookupIn(s.registered, name);
      var m := Lookup(s.registered, name).value;
      forall d | d in m.deps ensures Acceptable(s, d, rank) <==> Loadable(s, d, rank) { HonestLoadable(s, d, rank); }
    }
  }

  lemma {:induction false} HonestClean(s: Loader, name: string, rank: Rank)
    requires Acyclic(s.registered, rank) && Honest(s.registered)
    ensures Clean(s, name, rank)
    decreases rank(name), 1, 0
  {
    hide Lies, Acceptable, CleanAll;
    if !IsLoaded(s, name) && Lookup(s.registered, name).Some? {
      LookupIn(s.registered, name);
      var m := Lookup(s.registered, name).value;
      forall d | d in m.deps ensures !Lies(s, d) { HonestTruth(s, d); }
      HonestCleanAll(s, m.deps, rank(name), rank);
    }
  }

  lemma {:induction false} HonestCleanAll(s: Loader, deps: seq<string>, bound: nat, rank: Rank)
    requires Acyclic(s.registered, rank) && Honest(s.registered) && forall d :: d in deps ==> rank(d) < bound
    ensures CleanAll(s, deps, bound, rank)
    decreases bound, 0, |deps|
  {
    hide Clean, Acceptable;
    if deps != [] {
      HonestClean(s, deps[0], rank);
      HonestCleanAll(s, deps[1..], bound, rank);
    }
  }

  /** With no liar in the registry: always in order, success exactly when loadable,
      and whatever gets loaded, even on the way to a failure, was loadable. */
  lemma HonestLoad(s: Loader, name: string, rank: Rank)
    requires Acyclic(s.registered, rank) && Honest(s.registered) && Ordered(s)
    ensures var (s', c) := Load(s, name, rank);
            && Ordered(s') && (Accepted(c) <==> Loadable(s, name, rank))
            && forall x :: IsLoaded(s', x) ==> Loadable(s, x, rank)
  {
    hide Load, Clean, Acceptable, Loadable, Lies, Ordered, Lookup;
    LoadOrdered(s, name, rank);
    LoadAccepts(s, name, rank);
    HonestClean(s, name, rank);
    HonestLoadable(s, name, rank);
    forall x ensures Acceptable(s, x, rank) <==> Loadable(s, x, rank) { HonestLoadable(s, x, rank); }
  }

  // ------------------------------------------------------------- the real thing

  class Registry {
    var registered: seq<Module>
    var loaded: seq<Module>
    ghost var calls: seq<Call>

    ghost function Now(): Loader
      reads this
    {
      Loader(registered, loaded, calls)
    }

    /** modules_init */
    constructor ()
      ensures Now() == Loader([], [], [])
    {
      registered, loaded, calls := [], [], [];
    }

    /** module_register_static */
    method Register(m: Module)
      modifies this`registered
      ensures Now() == Loader([m] + old(registered), old(loaded), old(calls))
      ensures forall x :: Lookup(registered, x) == if x == m.name then Some(m) else Lookup(old(registered), x)
    {
      forall x ensures Lookup([m] + registered, x) == if x == m.name then Some(m) else Lookup(registered, x) {
        LookupCons(m, registered, x);
      }
      registered := [m] + registered;
    }

    /** module_load */
    method LoadModule(name: string, ghost rank: Rank) returns (c: Code)
      requires Acyclic(registered, rank)
      modifies this
      ensures (Now(), c) == Load(old(Now()), name, rank)
      ensures Acyclic(registered, rank)
      ensures old(Ordered(Now())) ==> (Ordered(Now()) <==> old(Clean(Now(), name, rank)))
      decreases rank(name)
    {
      hide Lookup, Removed, Ordered, Clean;
      if Ordered(Now()) { LoadOrdered(Now(), name, rank); }
      var found := Find(loaded, name);
      if found.Some? { return Loaded; }
      found := Find(registered, name);
      if found.None? { return Unknown; }
      var m := found.value;
      LookupIn(registered, name);
      ghost var start := Now();
      var i := 0;
      assert m.deps[0..] == m.deps;
      while i < |m.deps|
        invariant i <= |m.deps| && Acyclic(registered, rank)
        invariant LoadAll(start, m.deps, rank(name), rank) == LoadAll(Now(), m.deps[i..], rank(name), rank)
      {
        assert m.deps[i..][0] == m.deps[i] && m.deps[i..][1..] == m.deps[i + 1..];
        c := LoadModule(m.deps[i], rank);
        if c != Ok && c != Loaded { return c; }
        i := i + 1;
      }
      RemovedIn(registered, name);
      calls := calls + [Call(m, loaded)];
      if m.init != Ok { return m.init; }
      if m.entry != Ok { return m.entry; }
      registered := Removed(registered, name);
      loaded := [m] + loaded;
      return Ok;
    }
  }

  method Find(list: seq<Module>, name: string) returns (r: Option<Module>)
    ensures r == Lookup(list, name)
  {
    for i := 0 to |list|
      invariant Lookup(list, name) == Lookup(list[i..], name)
    {
      assert list[i..][0] == list[i] && list[i..][1..] == list[i + 1..];
      if list[i].name == name { return Some(list[i]); }
    }
    return None;
  }
}
