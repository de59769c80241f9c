/**
 The callback object itself (cor_profiler.h:18-98): its fields, and the callbacks that update them in
 place. Each callback is proved to take the step that the state machine describes.
 */
module CorProfilerObject {
  import opened Bytes
  import opened Callbacks

  class CorProfiler {
    const desktop: bool
    const instrumentNeutral: bool
    const version: string
    var isAttached: bool
    var corlibModuleLoaded: bool
    var corlibAppDomain: Domain
    var profilerLoadedNeutral: bool
    var profilerLoadedDomains: set<Domain>
    var firstJitDomains: set<Domain>
    var modules: map<ModuleId, Module>

    function View(): State
      reads this
    {
      State(desktop, instrumentNeutral, version, isAttached, corlibModuleLoaded, corlibAppDomain,
            profilerLoadedNeutral, profilerLoadedDomains, firstJitDomains, modules)
    }

    constructor (desktop: bool, instrumentNeutral: bool, version: string)
      ensures View() == Start(desktop, instrumentNeutral, version)
    {
      this.desktop, this.instrumentNeutral, this.version := desktop, instrumentNeutral, version;
      isAttached := true;
      corlibModuleLoaded, corlibAppDomain := false, 0;
      profilerLoadedNeutral := false;
      profilerLoadedDomains, firstJitDomains, modules := {}, {}, map[];
    }

    method AssemblyLoadFinished(assembly: Option<Assembly>)
      modifies this
      ensures View() == Next(old(View()), AssemblyLoad(assembly))
    {
      if assembly.None? || !isAttached {
        return;
      }
      var a := assembly.value;
      if a.name == MANAGED && a.version == version {
        profilerLoadedDomains := profilerLoadedDomains + {a.domain};
        if desktop && corlibModuleLoaded {
          if a.domain == corlibAppDomain {
            profilerLoadedNeutral := true;
          }
        }
      }
    }

    method ModuleLoadFinished(id: ModuleId, loaded: Option<Loaded>)
      modifies this
      ensures View() == Next(old(View()), ModuleLoad(id, loaded))
    {
      if loaded.None? || !isAttached {
        return;
      }
      var l := loaded.value;
      if !corlibModuleLoaded && IsCorlib(l.name) {
        corlibModuleLoaded := true;
        corlibAppDomain := l.domain;
        return;
      }
      if l.windowsRuntime {
        return;
      }
      if l.name in SKIPPED {
        return;
      }
      if !l.callerMatches || !l.metadataOk {
        return;
      }
      if l.name != HOSTING {
        if !l.targetMatches {
          return;
        }
      }
      if !l.scopeOk {
        return;
      }
      modules := modules[id := Module(l.name, l.domain)];
    }

    method ModuleUnloadStarted(id: ModuleId)
      modifies this
      ensures View() == Next(old(View()), ModuleUnload(id))
    {
      if id in modules {
        var metadata := modules[id];
        if metadata.domain in profilerLoadedDomains {
          profilerLoadedDomains := profilerLoadedDomains - {metadata.domain};
        }
        modules := modules - {id};
      }
    }

    method ShutdownStarted()
      modifies this
      ensures View() == Next(old(View()), Event.Shutdown)
    {
      isAttached := false;
    }

    /** The gate that every matched call passes or fails on its own. */
    method RedirectCalls(domain: Domain, id: ModuleId, requests: seq<Request>) returns (effects: seq<Effect>)
      ensures effects == Redirects(View(), domain, id, requests)
    {
      effects := [];
      var i := 0;
      while i < |requests|
        invariant i <= |requests|
        invariant Redirects(View(), domain, id, requests) == effects + Redirects(View(), domain, id, requests[i..])
      {
        var r := requests[i];
        var loaded := profilerLoadedNeutral || domain in profilerLoadedDomains;
        var blocked := !loaded && r.wrapperAssembly == MANAGED;
        if !blocked {
          blocked := desktop && corlibModuleLoaded && domain == corlibAppDomain && !instrumentNeutral &&
                     r.wrapperAssembly == MANAGED;
        }
        assert Gate(View(), domain, r) == !blocked;
        assert requests[i..][1..] == requests[i + 1..];
        if !blocked {
          effects := effects + [Redirect(domain, id, r.wrapperAssembly)];
        }
        i := i + 1;
      }
      assert effects + [] == effects;
    }

    method JITCompilationStarted(safe: bool, compiled: Option<Method>) returns (effects: seq<Effect>)
      modifies this
      ensures View() == Next(old(View()), Jit(safe, compiled))
      ensures effects == Effects(old(View()), Jit(safe, compiled))
    {
      effects := [];
      if !isAttached || !safe || compiled.None? {
        return;
      }
      var m := compiled.value;
      if m.moduleId !in modules {
        return;
      }
      var metadata := modules[m.moduleId];
      if !m.callerValid {
        return;
      }
      if metadata.domain !in firstJitDomains {
        firstJitDomains := firstJitDomains + {metadata.domain};
        effects := [Hook(metadata.domain, m.moduleId)];
      }
      if metadata.assembly == HOSTING || !m.hasReplacements || m.insertionFailed {
        return;
      }
      var redirected := RedirectCalls(metadata.domain, m.moduleId, m.requests);
      RedirectsIgnoreHooks(old(View()), View(), metadata.domain, m.moduleId, m.requests);
      effects := effects + Inserts(metadata.domain, m.moduleId, m.insertions) + redirected;
    }
  }

  /** Whether a call is redirected does not depend on which domains have been hooked. */
  lemma {:induction false} RedirectsIgnoreHooks(s: State, t: State, d: Domain, id: ModuleId, rs: seq<Request>)
    requires t == s.(jitted := t.jitted)
    ensures Redirects(s, d, id, rs) == Redirects(t, d, id, rs)
  {
    if rs != [] {
      RedirectsIgnoreHooks(s, t, d, id, rs[1..]);
    }
  }
}
