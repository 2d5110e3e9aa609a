/** Which code module_load returns: that of the one module at fault. */
module ModuleAnswers {
  import opened Wrappers
  import opened ModuleLoader

  /** What a module answers for itself. */
  function Own(s: Loader, name: string): Code {
    if IsLoaded(s, name) then Loaded
    else match Lookup(s.registered, name)
         case None => Unknown
         case Some(m) => if m.init != Ok then m.init else m.entry
  }

  /** The first dependency that is not acceptable, if any. */
  ghost function FirstBad(s: Loader, deps: seq<string>, rank: Rank): (r: Option<string>)
    requires Acyclic(s.registered, rank)
    ensures r.Some? ==> r.value in deps && !Acceptable(s, r.value, rank)
    ensures r.None? <==> forall d :: d in deps ==> Acceptable(s, d, rank)
  {
    if deps == [] then None
    else
      assert forall d :: d in deps <==> d == deps[0] || d in deps[1..];
      if !Acceptable(s, deps[0], rank) then Some(deps[0]) else FirstBad(s, deps[1..], rank)
  }

  /** Whose fault the answer is: the module's own, or that of its first dependency that
      is not acceptable, and so on down. */
  ghost function Culprit(s: Loader, name: string, rank: Rank): string
    requires Acyclic(s.registered, rank)
    decreases rank(name)
  {
    if IsLoaded(s, name) then name
    else match Lookup(s.registered, name)
         case None => name
         case Some(m) =>
           LookupIn(s.registered, name);
           match FirstBad(s, m.deps, rank)
           case None => name
           case Some(d) => Culprit(s, d, rank)
  }

  lemma {:induction false} CulpritRefused(s: Loader, name: string, rank: Rank)
    requires Acyclic(s.registered, rank) && !Acceptable(s, name, rank)
    ensures !Acceptable(s, Culprit(s, name, rank), rank) && !Accepted(Own(s, Culprit(s, name, rank)))
    decreases rank(name)
  {
    if Lookup(s.registered, name).Some? {
      LookupIn(s.registered, name);
      var bad := FirstBad(s, Lookup(s.registered, name).value.deps, rank);
      if bad.Some? { CulpritRefused(s, bad.value, rank); }
    }
  }

  lemma {:induction false} SameFirstBad(s: Loader, s': Loader, deps: seq<string>, rank: Rank)
    requires Acyclic(s.registered, rank) && Progress(s, s', rank)
    ensures FirstBad(s', deps, rank) == FirstBad(s, deps, rank)
  {
    hide Acceptable, Progress;
    if deps != [] {
      SameAcceptable(s, s', rank, deps[0]);
      SameFirstBad(s, s', deps[1..], rank);
    }
  }

  /** Loading other modules shifts no blame. */
  lemma {:induction false} SameCulprit(s: Loader, s': Loader, name: string, rank: Rank)
    requires Acyclic(s.registered, rank) && Progress(s, s', rank) && !Acceptable(s, name, rank)
    ensures Culprit(s', name, rank) == Culprit(s, name, rank)
    ensures Own(s', Culprit(s, name, rank)) == Own(s, Culprit(s, name, rank))
    decreases rank(name)
  {
    hide Acceptable;
    StillOut(s, s', name, rank);
    if Lookup(s.registered, name).Some? {
      LookupIn(s.registered, name);
      var m := Lookup(s.registered, name).value;
      SameFirstBad(s, s', m.deps, rank);
      var bad := FirstBad(s, m.deps, rank);
      if bad.Some? { SameCulprit(s, s', bad.value, rank); }
    }
  }

  lemma StillOut(s: Loader, s': Loader, name: string, rank: Rank)
    requires Acyclic(s.registered, rank) && Progress(s, s', rank) && !Acceptable(s, name, rank)
    ensures !IsLoaded(s, name) && !IsLoaded(s', name) && Lookup(s'.registered, name) == Lookup(s.registered, name)
  {
  }

  /** Whatever the registry and its modules' answers: module_load returns what the module
      at fault answers for itself, ERROR_MOD_NONE if that is missing. */
  lemma {:induction false} LoadAnswers(s: Loader, name: string, rank: Rank)
    requires Acyclic(s.registered, rank)
    ensures Load(s, name, rank).1 == Own(s, Culprit(s, name, rank))
    decreases rank(name), 1, 0
  {
    hide Removed, Acceptable, LoadAll;
    if !IsLoaded(s, name) && Lookup(s.registered, name).Some? {
      LookupIn(s.registered, name);
      LoadAllAnswers(s, Lookup(s.registered, name).value.deps, rank(name), rank);
    }
  }

  lemma {:induction false} LoadAllAnswers(s: Loader, deps: seq<string>, bound: nat, rank: Rank)
    requires Acyclic(s.registered, rank) && forall d :: d in deps ==> rank(d) < bound
    ensures var bad := FirstBad(s, deps, rank); var c := LoadAll(s, deps, bound, rank).1;
            if bad.None? then c == Ok else c == Own(s, Culprit(s, bad.value, rank)) && c != Ok
    decreases bound, 0, |deps|
  {
    hide Load, Lookup, Acceptable, Progress, Own, Culprit;
    if deps != [] {
      LoadAnswers(s, deps[0], rank);
      LoadAccepts(s, deps[0], rank);
      var (s', c) := Load(s, deps[0], rank);
      if Accepted(c) {
        LoadAllAnswers(s', deps[1..], bound, rank);
        SameFirstBad(s, s', deps[1..], rank);
        var bad := FirstBad(s, deps[1..], rank);
        if bad.Some? { SameCulprit(s, s', bad.value, rank); }
      }
    }
  }
}
