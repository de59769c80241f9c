/**
 What holds over every run of the profiler callbacks: what the profiler's fields say about the events
 so far, when calls may be redirected to the managed profiler, when the startup hook is inserted, and
 whose methods are rewritten at all.
 */
module CallbackTheorems {
  import opened Bytes
  import opened Callbacks

  /** The run starts when the profiler attaches. */
  predicate Begins(s: State) {
    s == Start(s.desktop, s.instrumentNeutral, s.version)
  }

  lemma OneStep(s: State, es: seq<Event>, n: nat)
    requires n < |es|
    ensures Before(s, es, n + 1) == Next(Before(s, es, n), es[n])
  {
    assert es[..n + 1][..n] == es[..n] && es[..n + 1][n] == es[n];
  }

  lemma NoStep(s: State, es: seq<Event>)
    ensures Before(s, es, 0) == s
  {
  }

  // ---------- The fields, from the events ----------

  /** Settings never change, and the profiler is attached until a shutdown. */
  lemma {:induction false} AttachedExactly(s: State, es: seq<Event>, n: nat)
    requires Begins(s) && n <= |es|
    ensures var t := Before(s, es, n);
            && t.desktop == s.desktop && t.instrumentNeutral == s.instrumentNeutral && t.version == s.version
            && (t.attached <==> Attached(es, n))
  {
    NoStep(s, es);
    if n > 0 {
      hide *;
      AttachedExactly(s, es, n - 1);
      OneStep(s, es, n - 1);
      SettingsStep(Before(s, es, n - 1), es[n - 1]);
      AttachedNext(es, n - 1);
    }
  }

  lemma SettingsStep(t: State, e: Event)
    ensures var u := Next(t, e);
            && u.desktop == t.desktop && u.instrumentNeutral == t.instrumentNeutral && u.version == t.version
            && (u.attached <==> t.attached && !e.Shutdown?)
  {
  }

  lemma AttachedNext(es: seq<Event>, n: nat)
    requires n < |es|
    ensures Attached(es, n + 1) <==> Attached(es, n) && !es[n].Shutdown?
  {
  }

  ghost predicate CorlibSeen(es: seq<Event>, n: nat)
    requires n <= |es|
  {
    exists i :: 0 <= i < n && LoadsCorlib(es, i)
  }

  /** The flag is set by the first load of the core library and says so ever after. */
  lemma {:induction false} CorlibFlag(s: State, es: seq<Event>, n: nat)
    requires Begins(s) && n <= |es|
    ensures Before(s, es, n).corlibLoaded <==> CorlibSeen(es, n)
  {
    NoStep(s, es);
    if n > 0 {
      hide *;
      CorlibFlag(s, es, n - 1);
      LoadsCorlibWhen(s, es, n - 1);
      OneStep(s, es, n - 1);
      CorlibStep(Before(s, es, n - 1), es[n - 1]);
      CorlibSeenNext(es, n - 1);
    }
  }

  predicate CorlibArrives(t: State, e: Event) {
    e.ModuleLoad? && e.loaded.Some? && t.attached && IsCorlib(e.loaded.value.name)
  }

  lemma LoadsCorlibWhen(s: State, es: seq<Event>, n: nat)
    requires Begins(s) && n < |es|
    ensures LoadsCorlib(es, n) <==> CorlibArrives(Before(s, es, n), es[n])
    ensures LoadsCorlib(es, n) ==> es[n].ModuleLoad? && es[n].loaded.Some?
  {
    AttachedExactly(s, es, n);
    hide Before;
    hide Attached;
  }

  lemma CorlibStep(t: State, e: Event)
    ensures var u := Next(t, e);
            && (u.corlibLoaded <==> t.corlibLoaded || CorlibArrives(t, e))
            && (CorlibArrives(t, e) ==> e.ModuleLoad? && e.loaded.Some?)
            && u.corlibDomain == if !t.corlibLoaded && CorlibArrives(t, e) then e.loaded.value.domain else t.corlibDomain
  {
  }

  lemma CorlibSeenNext(es: seq<Event>, n: nat)
    requires n < |es|
    ensures CorlibSeen(es, n + 1) <==> CorlibSeen(es, n) || LoadsCorlib(es, n)
  {
    hide LoadsCorlib;
  }

  lemma CorlibInNext(es: seq<Event>, n: nat, d: Domain)
    requires n < |es|
    ensures LoadsCorlib(es, n) ==> es[n].ModuleLoad? && es[n].loaded.Some?
    ensures CorlibIn(es, n + 1, d) <==>
              CorlibIn(es, n, d) || (!CorlibSeen(es, n) && LoadsCorlib(es, n) && es[n].loaded.value.domain == d)
    ensures CorlibIn(es, n, d) ==> CorlibSeen(es, n)
  {
    assert LoadsCorlib(es, n) ==> es[n].ModuleLoad? && es[n].loaded.Some?;
    hide LoadsCorlib;
  }

  /** Whether the core library has loaded, and the domain of its first load. */
  lemma {:induction false} CorlibExactly(s: State, es: seq<Event>, n: nat, d: Domain)
    requires Begins(s) && n <= |es|
    ensures var t := Before(s, es, n); t.corlibLoaded && t.corlibDomain == d <==> CorlibIn(es, n, d)
  {
    NoStep(s, es);
    if n > 0 {
      hide *;
      CorlibExactly(s, es, n - 1, d);
      CorlibFlag(s, es, n - 1);
      LoadsCorlibWhen(s, es, n - 1);
      OneStep(s, es, n - 1);
      CorlibStep(Before(s, es, n - 1), es[n - 1]);
      CorlibInNext(es, n - 1, d);
    }
  }

  lemma KnownAssemblies(name: string)
    ensures name in SKIPPED <==> KnownAssembly(name)
  {
  }

  lemma StoredWhen(l: Loaded)
    ensures Stored(l) <==>
              && !l.windowsRuntime && !KnownAssembly(l.name) && l.callerMatches && l.metadataOk && l.scopeOk
              && (l.name == "Microsoft.AspNetCore.Hosting" || l.targetMatches)
  {
    KnownAssemblies(l.name);
    hide KnownAssembly;
  }

  lemma {:induction false} TracksWhen(s: State, es: seq<Event>, n: nat, id: ModuleId)
    requires Begins(s) && n < |es|
    ensures var t := Before(s, es, n);
            Tracks(es, n, id) <==>
              && es[n].ModuleLoad? && es[n].id == id && es[n].loaded.Some? && t.attached
              && !(!t.corlibLoaded && IsCorlib(es[n].loaded.value.name)) && Stored(es[n].loaded.value)
  {
    AttachedExactly(s, es, n);
    CorlibFlag(s, es, n);
    LoadsCorlibWhen(s, es, n);
    if es[n].ModuleLoad? && es[n].loaded.Some? {
      StoredWhen(es[n].loaded.value);
    }
    assert CorlibSeen(es, n) <==> exists j :: 0 <= j < n && LoadsCorlib(es, j);
    hide Before;
    hide Attached;
    hide LoadsCorlib;
    hide KnownAssembly;
    hide Stored;
    hide IsCorlib;
  }

  lemma TracksLoads(es: seq<Event>, n: nat, id: ModuleId)
    requires n < |es| && Tracks(es, n, id)
    ensures es[n].ModuleLoad? && es[n].loaded.Some?
  {
  }

  lemma TrackedByNext(es: seq<Event>, n: nat, id: ModuleId, m: Module, i: nat)
    requires n < |es|
    ensures i < n ==> (TrackedBy(es, n + 1, id, m, i) <==> TrackedBy(es, n, id, m, i) && !Tracks(es, n, id) && es[n] != ModuleUnload(id))
    ensures i == n ==> (TrackedBy(es, n + 1, id, m, i) <==>
              es[n].ModuleLoad? && es[n].loaded.Some? && Tracks(es, n, id) && m == Module(es[n].loaded.value.name, es[n].loaded.value.domain))
    ensures TrackedBy(es, n + 1, id, m, i) ==> i <= n
  {
    hide Tracks;
  }

  lemma {:induction false} TrackedNext(es: seq<Event>, n: nat, id: ModuleId, m: Module)
    requires n < |es|
    ensures Tracks(es, n, id) ==> es[n].ModuleLoad? && es[n].loaded.Some?
    ensures TrackedAs(es, n + 1, id, m) <==>
              if Tracks(es, n, id) then m == Module(es[n].loaded.value.name, es[n].loaded.value.domain)
              else TrackedAs(es, n, id, m) && es[n] != ModuleUnload(id)
  {
    if Tracks(es, n, id) {
      TracksLoads(es, n, id);
    }
    hide Tracks;
    hide TrackedBy;
    TrackedByNext(es, n, id, m, n);
    if TrackedAs(es, n + 1, id, m) {
      var i :| TrackedBy(es, n + 1, id, m, i);
      TrackedByNext(es, n, id, m, i);
    }
    if TrackedAs(es, n, id, m) {
      var i :| TrackedBy(es, n, id, m, i);
      TrackedInside(es, n, id, m, i);
      TrackedByNext(es, n, id, m, i);
    }
  }

  lemma TrackedInside(es: seq<Event>, n: nat, id: ModuleId, m: Module, i: nat)
    requires n <= |es| && TrackedBy(es, n, id, m, i)
    ensures i < n
  {
  }

  /** The module map holds exactly the modules tracked by a load and not unloaded since, as that load named them. */
  lemma {:induction false} TrackedExactly(s: State, es: seq<Event>, n: nat, id: ModuleId, m: Module)
    requires Begins(s) && n <= |es|
    ensures var t := Before(s, es, n); id in t.modules && t.modules[id] == m <==> TrackedAs(es, n, id, m)
  {
    NoStep(s, es);
    if n > 0 {
      hide *;
      TrackedExactly(s, es, n - 1, id, m);
      TracksWhen(s, es, n - 1, id);
      TrackedNext(es, n - 1, id, m);
      OneStep(s, es, n - 1);
      ModulesStep(Before(s, es, n - 1), es[n - 1], id);
    }
  }

  lemma ModulesStep(t: State, e: Event, id: ModuleId)
    ensures var u := Next(t, e);
            if e.ModuleLoad? && e.id == id && e.loaded.Some? && t.attached
               && !(!t.corlibLoaded && IsCorlib(e.loaded.value.name)) && Stored(e.loaded.value)
            then id in u.modules && u.modules[id] == Module(e.loaded.value.name, e.loaded.value.domain)
            else if e == ModuleUnload(id) then id !in u.modules
            else (id in u.modules <==> id in t.modules) && (id in t.modules ==> u.modules[id] == t.modules[id])
  {
    hide Stored;
    hide IsCorlib;
  }

  lemma {:induction false} UnloadsWhen(s: State, es: seq<Event>, n: nat, d: Domain)
    requires Begins(s) && n < |es|
    ensures var t := Before(s, es, n);
            UnloadsFrom(es, n, d) <==> es[n].ModuleUnload? && es[n].id in t.modules && t.modules[es[n].id].domain == d
  {
    var t := Before(s, es, n);
    hide Before;
    hide TrackedAs;
    if es[n].ModuleUnload? {
      if es[n].id in t.modules {
        TrackedExactly(s, es, n, es[n].id, t.modules[es[n].id]);
      }
      if m :| TrackedAs(es, n, es[n].id, m) && m.domain == d {
        TrackedExactly(s, es, n, es[n].id, m);
      }
    }
  }

  lemma {:induction false} LoadedSinceNext(version: string, es: seq<Event>, n: nat, d: Domain)
    requires n < |es|
    ensures LoadedSince(version, es, n + 1, d) <==>
              LoadsProfiler(version, es, n, d) || (LoadedSince(version, es, n, d) && !UnloadsFrom(es, n, d))
  {
    hide LoadsProfiler;
    hide UnloadsFrom;
  }

  /** The set of profiled domains says exactly where the profiler is usable. */
  lemma {:induction false} ProfiledExactly(s: State, es: seq<Event>, n: nat, d: Domain)
    requires Begins(s) && n <= |es|
    ensures d in Before(s, es, n).profiled <==> LoadedSince(s.version, es, n, d)
  {
    NoStep(s, es);
    if n > 0 {
      hide *;
      var k := n - 1;
      ProfiledExactly(s, es, k, d);
      LoadsProfilerWhen(s, es, k, d);
      UnloadsWhen(s, es, k, d);
      LoadedSinceNext(s.version, es, k, d);
      OneStep(s, es, k);
      ProfiledStep(Before(s, es, k), es[k], d);
    }
  }

  predicate ProfilerArrives(t: State, e: Event, d: Domain) {
    && e.AssemblyLoad? && e.assembly.Some? && t.attached && e.assembly.value.name == MANAGED
    && e.assembly.value.version == t.version && e.assembly.value.domain == d
  }

  lemma LoadsProfilerWhen(s: State, es: seq<Event>, n: nat, d: Domain)
    requires Begins(s) && n < |es|
    ensures LoadsProfiler(s.version, es, n, d) <==> ProfilerArrives(Before(s, es, n), es[n], d)
  {
    AttachedExactly(s, es, n);
    hide Before;
    hide Attached;
  }

  lemma ProfiledStep(t: State, e: Event, d: Domain)
    ensures d in Next(t, e).profiled <==>
              || ProfilerArrives(t, e, d)
              || (d in t.profiled && !(e.ModuleUnload? && e.id in t.modules && t.modules[e.id].domain == d))
  {
    hide Stored;
    hide IsCorlib;
  }

  lemma {:induction false} LoadedSharedNext(version: string, es: seq<Event>, n: nat, d: Domain)
    requires n < |es| && (es[n].AssemblyLoad? && es[n].assembly.Some? ==> es[n].assembly.value.domain == d)
    ensures LoadedShared(version, es, n + 1) <==>
              LoadedShared(version, es, n) || (LoadsProfiler(version, es, n, d) && CorlibIn(es, n, d))
  {
    forall c | LoadsProfiler(version, es, n, c)
      ensures c == d
    {
    }
    hide LoadsProfiler;
    hide CorlibIn;
  }

  /** The flag for a shared profiler: on desktop, it loaded into the domain of the core library. */
  lemma {:induction false} NeutralExactly(s: State, es: seq<Event>, n: nat)
    requires Begins(s) && n <= |es|
    ensures Before(s, es, n).neutral <==> s.desktop && LoadedShared(s.version, es, n)
  {
    NoStep(s, es);
    if n > 0 {
      hide *;
      var t, e := Before(s, es, n - 1), es[n - 1];
      var d := if e.AssemblyLoad? && e.assembly.Some? then e.assembly.value.domain else 0;
      NeutralExactly(s, es, n - 1);
      AttachedExactly(s, es, n - 1);
      CorlibExactly(s, es, n - 1, d);
      LoadsProfilerWhen(s, es, n - 1, d);
      LoadedSharedNext(s.version, es, n - 1, d);
      OneStep(s, es, n - 1);
      NeutralStep(t, e, d);
    }
  }

  lemma NeutralStep(t: State, e: Event, d: Domain)
    requires e.AssemblyLoad? && e.assembly.Some? ==> e.assembly.value.domain == d
    ensures Next(t, e).neutral <==> t.neutral || (t.desktop && ProfilerArrives(t, e, d) && t.corlibLoaded && t.corlibDomain == d)
  {
    hide Stored;
    hide IsCorlib;
  }

  lemma {:induction false} CompilesWhen(s: State, es: seq<Event>, n: nat, m: Module)
    requires Begins(s) && n < |es|
    ensures CompilesIn(es, n, m) <==> Acts(Before(s, es, n), es[n], m)
  {
    AttachedExactly(s, es, n);
    if es[n].Jit? && es[n].compiled.Some? {
      TrackedExactly(s, es, n, es[n].compiled.value.moduleId, m);
    }
    hide Before;
    hide TrackedAs;
    hide Attached;
  }

  lemma {:induction false} CompiledNext(es: seq<Event>, n: nat, d: Domain)
    requires n < |es|
    ensures CompiledBefore(es, n + 1, d) <==> CompiledBefore(es, n, d) || exists m :: CompilesIn(es, n, m) && m.domain == d
  {
    hide CompilesIn;
  }

  /** A domain is marked exactly when a method of it has been compiled. */
  lemma {:induction false} JittedExactly(s: State, es: seq<Event>, n: nat, d: Domain)
    requires Begins(s) && n <= |es|
    ensures d in Before(s, es, n).jitted <==> CompiledBefore(es, n, d)
  {
    NoStep(s, es);
    if n > 0 {
      hide *;
      var k := n - 1;
      var t, e := Before(s, es, k), es[k];
      JittedExactly(s, es, k, d);
      forall m: Module
        ensures CompilesIn(es, k, m) <==> Acts(t, e, m)
      {
        CompilesWhen(s, es, k, m);
      }
      CompiledNext(es, k, d);
      OneStep(s, es, k);
      JittedStep(t, e, d);
    }
  }

  /** The callback gets as far as the startup hook, in a method of `m`. */
  predicate Acts(t: State, e: Event, m: Module) {
    e.Jit? && Compiles(t, e.safe, e.compiled) && t.modules[e.compiled.value.moduleId] == m
  }

  lemma JittedStep(t: State, e: Event, d: Domain)
    ensures d in Next(t, e).jitted <==> d in t.jitted || exists m :: Acts(t, e, m) && m.domain == d
  {
    if e.Jit? && Compiles(t, e.safe, e.compiled) {
      assert Acts(t, e, t.modules[e.compiled.value.moduleId]);
    }
    hide Stored;
    hide IsCorlib;
  }

  // ---------- What a callback does to method bodies ----------

  /** The gate of the code is the condition on events. */
  lemma {:induction false} GateExactly(s: State, es: seq<Event>, n: nat, d: Domain, r: Request)
    requires Begins(s) && n <= |es|
    ensures Gate(Before(s, es, n), d, r) <==> MayRedirect(s, es, n, d, r.wrapperAssembly)
  {
    AttachedExactly(s, es, n);
    ProfiledExactly(s, es, n, d);
    NeutralExactly(s, es, n);
    CorlibExactly(s, es, n, d);
    hide Before;
    hide LoadedSince;
    hide LoadedShared;
    hide CorlibIn;
  }

  lemma {:induction false} RedirectsFound(s: State, es: seq<Event>, n: nat, m: Module, id: ModuleId, rs: seq<Request>)
    returns (at: seq<nat>)
    requires Begins(s) && n <= |es|
    ensures RedirectsAt(s, es, n, m, id, rs, Redirects(Before(s, es, n), m.domain, id, rs), at)
  {
    hide MayRedirect;
    hide Gate;
    hide Before;
    if rs == [] {
      at := [];
    } else {
      var last := |rs| - 1;
      at := RedirectsFound(s, es, n, m, id, rs[..last]);
      GateExactly(s, es, n, m.domain, rs[last]);
      RedirectsLast(Before(s, es, n), m.domain, id, rs);
      hide Redirects;
      if MayRedirect(s, es, n, m.domain, rs[last].wrapperAssembly) {
        at := at + [last];
      }
    }
  }

  lemma {:induction false} RedirectsLast(s: State, d: Domain, id: ModuleId, rs: seq<Request>)
    requires rs != []
    ensures Redirects(s, d, id, rs) ==
            Redirects(s, d, id, rs[..|rs| - 1]) +
            if Gate(s, d, rs[|rs| - 1]) then [Redirect(d, id, rs[|rs| - 1].wrapperAssembly)] else []
  {
    if |rs| > 1 {
      RedirectsLast(s, d, id, rs[1..]);
      assert rs[1..][..|rs| - 2] == rs[..|rs| - 1][1..];
    }
  }

  /** A callback that compiles no method of a tracked module leaves all bodies alone. */
  lemma {:induction false} OthersDoNothing(s: State, es: seq<Event>, n: nat)
    requires Begins(s) && n < |es| && EffectsAt(s, es, n) != []
    ensures exists m :: CompilesIn(es, n, m)
  {
    var m := Before(s, es, n).modules[es[n].compiled.value.moduleId];
    CompilesWhen(s, es, n, m);
  }

  lemma EffectsAre(s: State, es: seq<Event>, n: nat, m: Module)
    requires Begins(s) && n < |es| && CompilesIn(es, n, m)
    ensures var c := es[n].compiled.value;
            var hook := if CompiledBefore(es, n, m.domain) then [] else [Hook(m.domain, c.moduleId)];
            EffectsAt(s, es, n) ==
            if !ReachesCalls(es, n, m) then hook else
              hook + Inserts(m.domain, c.moduleId, c.insertions) + Redirects(Before(s, es, n), m.domain, c.moduleId, c.requests)
  {
    CompilesWhen(s, es, n, m);
    JittedExactly(s, es, n, m.domain);
    hide Before;
    hide CompiledBefore;
    hide TrackedAs;
    hide Attached;
    hide Inserts;
    hide Redirects;
  }

  /**
   Everything a compilation does, in order: the startup hook if it is the first in its domain, then
   every insertion, then the redirections that the load gate admits, in the order of the calls.
   */
  lemma {:induction false} EffectsInOrder(s: State, es: seq<Event>, n: nat, m: Module)
    requires Begins(s) && n < |es| && CompilesIn(es, n, m)
    ensures var fs := EffectsAt(s, es, n); var c := es[n].compiled.value; var id := c.moduleId; var d := m.domain;
            var h := if CompiledBefore(es, n, d) then 0 else 1;
            && h <= |fs| && (h == 1 ==> fs[0] == Hook(d, id))
            && if !ReachesCalls(es, n, m) then |fs| == h else
               && h + c.insertions <= |fs|
               && (forall k :: h <= k < h + c.insertions ==> fs[k] == Insert(d, id))
               && RedirectsInOrder(s, es, n, m, id, c.requests, fs[h + c.insertions..])
  {
    CompilesJit(es, n, m);
    hide *;
    var c := es[n].compiled.value;
    EffectsAre(s, es, n, m);
    var at := RedirectsFound(s, es, n, m, c.moduleId, c.requests);
    var redirects := Redirects(Before(s, es, n), m.domain, c.moduleId, c.requests);
    RedirectsIntro(s, es, n, m, c.moduleId, c.requests, redirects, at);
    var hook := if CompiledBefore(es, n, m.domain) then [] else [Hook(m.domain, c.moduleId)];
    var fs := EffectsAt(s, es, n);
    if ReachesCalls(es, n, m) {
      InsertsAmid(hook, m.domain, c.moduleId, c.insertions, redirects);
    }
  }

  lemma CompilesJit(es: seq<Event>, n: nat, m: Module)
    requires n < |es| && CompilesIn(es, n, m)
    ensures es[n].Jit? && es[n].compiled.Some?
  {
  }

  lemma InsertsAmid(front: seq<Effect>, d: Domain, id: ModuleId, n: nat, back: seq<Effect>)
    ensures var fs := front + Inserts(d, id, n) + back;
            && |fs| == |front| + n + |back| && fs[..|front|] == front && fs[|front| + n..] == back
            && (|front| > 0 ==> fs[0] == front[0])
            && forall k :: |front| <= k < |front| + n ==> fs[k] == Insert(d, id)
  {
  }

  lemma RedirectsIntro(
    s: State, es: seq<Event>, n: nat, m: Module, id: ModuleId, rs: seq<Request>, fs: seq<Effect>, at: seq<nat>)
    requires n <= |es| && RedirectsAt(s, es, n, m, id, rs, fs, at)
    ensures RedirectsInOrder(s, es, n, m, id, rs, fs)
  {
  }

  // ---------- What follows for every run ----------

  lemma {:induction false} RedirectedIff(s: State, es: seq<Event>, n: nat, m: Module, f: Effect)
    requires Begins(s) && n < |es| && CompilesIn(es, n, m) && f.Redirect?
    ensures var c := es[n].compiled.value;
            f in EffectsAt(s, es, n) <==>
              && ReachesCalls(es, n, m) && f.domain == m.domain && f.moduleId == c.moduleId
              && Request(f.wrapperAssembly) in c.requests && MayRedirect(s, es, n, m.domain, f.wrapperAssembly)
  {
    var t, c := Before(s, es, n), es[n].compiled.value;
    EffectsAre(s, es, n, m);
    var at := RedirectsFound(s, es, n, m, c.moduleId, c.requests);
    var inserts, redirects := Inserts(m.domain, c.moduleId, c.insertions), Redirects(t, m.domain, c.moduleId, c.requests);
    assert f !in inserts;
    hide *;
    InRedirects(s, es, n, m, c.moduleId, c.requests, redirects, at, f);
  }

  lemma InRedirects(
    s: State, es: seq<Event>, n: nat, m: Module, id: ModuleId, rs: seq<Request>, fs: seq<Effect>, at: seq<nat>, f: Effect)
    requires n <= |es| && RedirectsAt(s, es, n, m, id, rs, fs, at) && f.Redirect?
    ensures f in fs <==> f.domain == m.domain && f.moduleId == id && Request(f.wrapperAssembly) in rs && MayRedirect(s, es, n, m.domain, f.wrapperAssembly)
  {
    hide MayRedirect;
    if Request(f.wrapperAssembly) in rs && MayRedirect(s, es, n, m.domain, f.wrapperAssembly) && f.domain == m.domain && f.moduleId == id {
      var k :| 0 <= k < |rs| && rs[k] == Request(f.wrapperAssembly);
      assert MayRedirect(s, es, n, m.domain, rs[k].wrapperAssembly);
      var q :| 0 <= q < |at| && at[q] == k;
      assert fs[q] == f;
    }
  }

  /**
   The load gate over all runs, in both directions: a matched call is redirected to a managed-profiler
   wrapper exactly when a version-matched managed profiler has loaded into the caller's domain with
   no tracked module of that domain unloaded since, or, on desktop, into the domain of the core
   library after that; and, on desktop, a caller in that domain is to be instrumented.
   */
  lemma {:induction false} LoadGate(s: State, es: seq<Event>, n: nat, m: Module)
    requires Begins(s) && n < |es| && CompilesIn(es, n, m)
    ensures var managed := "SignalFx.Tracing.ClrProfiler.Managed"; var c := es[n].compiled.value;
            Redirect(m.domain, c.moduleId, managed) in EffectsAt(s, es, n) <==>
              && ReachesCalls(es, n, m) && Request(managed) in c.requests
              && (LoadedSince(s.version, es, n, m.domain) || (s.desktop && LoadedShared(s.version, es, n)))
              && (s.desktop && CorlibIn(es, n, m.domain) ==> s.instrumentNeutral)
  {
    RedirectedIff(s, es, n, m, Redirect(m.domain, es[n].compiled.value.moduleId, "SignalFx.Tracing.ClrProfiler.Managed"));
    hide CompilesIn;
    hide EffectsAt;
    hide LoadedSince;
    hide LoadedShared;
    hide CorlibIn;
  }

  lemma EffectKinds(s: State, es: seq<Event>, n: nat, m: Module, k: nat)
    requires Begins(s) && n < |es| && CompilesIn(es, n, m) && k < |EffectsAt(s, es, n)|
    ensures var f := EffectsAt(s, es, n)[k]; var c := es[n].compiled.value;
            && f.moduleId == c.moduleId && f.domain == m.domain
            && (f.Hook? <==> k == 0 && !CompiledBefore(es, n, m.domain))
  {
    CompilesJit(es, n, m);
    hide *;
    var c := es[n].compiled.value;
    EffectsAre(s, es, n, m);
    var hook := if CompiledBefore(es, n, m.domain) then [] else [Hook(m.domain, c.moduleId)];
    if ReachesCalls(es, n, m) {
      RedirectKinds(Before(s, es, n), m.domain, c.moduleId, c.requests);
      KindsInOrder(hook, m.domain, c.moduleId, c.insertions, Redirects(Before(s, es, n), m.domain, c.moduleId, c.requests), k);
    }
  }

  lemma KindsInOrder(front: seq<Effect>, d: Domain, id: ModuleId, n: nat, back: seq<Effect>, k: nat)
    requires k < |front + Inserts(d, id, n) + back| && (front == [] || front == [Hook(d, id)])
    requires forall f :: f in back ==> f.Redirect? && f.moduleId == id && f.domain == d
    ensures var f := (front + Inserts(d, id, n) + back)[k];
            f.moduleId == id && f.domain == d && (f.Hook? <==> k < |front|)
  {
    var fs := front + Inserts(d, id, n) + back;
    if k < |front| {
      assert fs[k] == front[k];
    } else if k < |front| + n {
      assert fs[k] == Inserts(d, id, n)[k - |front|];
    } else {
      assert fs[k] == back[k - |front| - n];
      assert fs[k] in back;
    }
  }

  lemma {:induction false} RedirectKinds(s: State, d: Domain, id: ModuleId, rs: seq<Request>)
    ensures forall f :: f in Redirects(s, d, id, rs) ==> f.Redirect? && f.moduleId == id && f.domain == d
  {
    if rs != [] {
      RedirectKinds(s, d, id, rs[1..]);
    }
  }

  /**
   Only methods of currently tracked modules are ever rewritten, each in its module's domain, and none
   of an assembly on the list of known ones: not the runtime's own, not the profiler's.
   */
  lemma {:induction false} OnlyTrackedRewritten(s: State, es: seq<Event>, n: nat, f: Effect)
    returns (m: Module)
    requires Begins(s) && n < |es| && f in EffectsAt(s, es, n)
    ensures TrackedAs(es, n, f.moduleId, m) && f.domain == m.domain && !KnownAssembly(m.assembly)
  {
    OthersDoNothing(s, es, n);
    m :| CompilesIn(es, n, m);
    var k :| 0 <= k < |EffectsAt(s, es, n)| && EffectsAt(s, es, n)[k] == f;
    EffectKinds(s, es, n, m, k);
    assert TrackedAs(es, n, f.moduleId, m);
    hide EffectsAt;
    hide KnownAssembly;
  }

  /** In each AppDomain the startup hook is attempted at most once over a whole run. */
  lemma {:induction false} HookAtMostOnce(s: State, es: seq<Event>, i: nat, j: nat, d: Domain, a: ModuleId, b: ModuleId)
    requires Begins(s) && i < |es| && j < |es| && Hook(d, a) in EffectsAt(s, es, i) && Hook(d, b) in EffectsAt(s, es, j)
    ensures i == j && a == b
  {
    var m := HookedIn(s, es, i, d, a);
    var o := HookedIn(s, es, j, d, b);
    hide CompilesIn;
    hide EffectsAt;
  }

  lemma {:induction false} HookedIn(s: State, es: seq<Event>, n: nat, d: Domain, id: ModuleId) returns (m: Module)
    requires Begins(s) && n < |es| && Hook(d, id) in EffectsAt(s, es, n)
    ensures CompilesIn(es, n, m) && m.domain == d && es[n].compiled.Some? && es[n].compiled.value.moduleId == id && !CompiledBefore(es, n, d)
  {
    OthersDoNothing(s, es, n);
    m :| CompilesIn(es, n, m);
    var k :| 0 <= k < |EffectsAt(s, es, n)| && EffectsAt(s, es, n)[k] == Hook(d, id);
    EffectKinds(s, es, n, m, k);
    assert es[n].Jit? && es[n].compiled.Some?;
    hide EffectsAt;
    hide TrackedAs;
  }

  /** Any insertion or redirection in a domain comes after the hook of that domain. */
  lemma {:induction false} HookComesFirst(s: State, es: seq<Event>, n: nat, k: nat) returns (i: nat, id: ModuleId)
    requires Begins(s) && n < |es| && k < |EffectsAt(s, es, n)| && !EffectsAt(s, es, n)[k].Hook?
    ensures i <= n && |EffectsAt(s, es, i)| > 0 && EffectsAt(s, es, i)[0] == Hook(EffectsAt(s, es, n)[k].domain, id)
    ensures i == n ==> k > 0
  {
    OthersDoNothing(s, es, n);
    var m :| CompilesIn(es, n, m);
    EffectKinds(s, es, n, m, k);
    i := FirstCompiled(es, n, m.domain, m);
    var o :| CompilesIn(es, i, o) && o.domain == m.domain;
    id := es[i].compiled.value.moduleId;
    EffectsInOrder(s, es, i, o);
    hide EffectsAt;
    hide CompilesIn;
    hide ReachesCalls;
  }

  lemma {:induction false} FirstCompiled(es: seq<Event>, n: nat, d: Domain, m: Module) returns (i: nat)
    requires n < |es| && CompilesIn(es, n, m) && m.domain == d
    ensures i <= n && !CompiledBefore(es, i, d) && exists o :: CompilesIn(es, i, o) && o.domain == d
    ensures i < n ==> CompiledBefore(es, n, d)
    ensures es[i].Jit? && es[i].compiled.Some?
  {
    if CompiledBefore(es, n, d) {
      var j, o :| 0 <= j < n && CompilesIn(es, j, o) && o.domain == d;
      i := FirstCompiled(es, j, d, o);
    } else {
      i := n;
      assert CompilesIn(es, n, m) && m.domain == d;
    }
  }
}
