/**
 The profiler callbacks as a state machine (cor_profiler.cpp:201-581): assembly load, module load and
 unload, JIT compilation and shutdown over the module map and the AppDomain sets. Each callback holds
 the module-map lock, so each is one atomic step. What the runtime and the metadata answer is part of
 the event.
 */
module Callbacks {
  import opened Bytes

  const MANAGED := "SignalFx.Tracing.ClrProfiler.Managed"
  const HOSTING := "Microsoft.AspNetCore.Hosting"

  const SKIPPED: set<string> := {
    "mscorlib", "netstandard", "SignalFx.Tracing", MANAGED, "SignalFx.Tracing.OpenTracing", "MsgPack",
    "MsgPack.Serialization.EmittingSerializers.GeneratedSerealizers0",
    "MsgPack.Serialization.EmittingSerializers.GeneratedSerealizers1",
    "MsgPack.Serialization.EmittingSerializers.GeneratedSerealizers2",
    "Sigil", "Sigil.Emit.DynamicAssembly", "System.Core", "System.Runtime", "System.IO.FileSystem",
    "System.Collections", "System.Runtime.Extensions", "System.Threading.Tasks",
    "System.Runtime.InteropServices", "System.Runtime.InteropServices.RuntimeInformation",
    "System.ComponentModel", "System.Console", "System.Diagnostics.DiagnosticSource",
    "Microsoft.Extensions.Options", "Microsoft.Extensions.ObjectPool", "System.Configuration",
    "System.Xml.Linq", "Microsoft.AspNetCore.Razor.Language", "Microsoft.AspNetCore.Mvc.RazorPages",
    "Microsoft.CSharp", "Newtonsoft.Json", "Anonymously Hosted DynamicMethods Assembly", "ISymWrapper" }

  type Domain = int
  type ModuleId = int

  datatype Module = Module(assembly: string, domain: Domain)

  /** The fields of CorProfiler that callbacks read and write, and the two settings fixed at startup. */
  datatype State = State(
    desktop: bool, instrumentNeutral: bool, version: string,
    attached: bool, corlibLoaded: bool, corlibDomain: Domain, neutral: bool,
    profiled: set<Domain>, jitted: set<Domain>, modules: map<ModuleId, Module>)

  /** An assembly that finished loading, with the Major.Minor.Build of its metadata. */
  datatype Assembly = Assembly(name: string, domain: Domain, version: string)

  /** A module that finished loading, and what each later check of the callback finds out about it. */
  datatype Loaded = Loaded(name: string, domain: Domain, windowsRuntime: bool, callerMatches: bool,
                           metadataOk: bool, targetMatches: bool, scopeOk: bool)

  /** A call that passed every check up to the load gate, by the assembly its wrapper lives in. */
  datatype Request = Request(wrapperAssembly: string)

  datatype Method = Method(moduleId: ModuleId, callerValid: bool, hasReplacements: bool,
                           insertions: nat, insertionFailed: bool, requests: seq<Request>)

  /** `None` stands for a failed status or a failed lookup, which ends the callback. */
  datatype Event =
    | AssemblyLoad(assembly: Option<Assembly>)
    | ModuleLoad(id: ModuleId, loaded: Option<Loaded>)
    | ModuleUnload(id: ModuleId)
    | Jit(safe: bool, compiled: Option<Method>)
    | Shutdown

  /** What a callback does to method bodies. */
  datatype Effect =
    | Hook(domain: Domain, moduleId: ModuleId)
    | Insert(domain: Domain, moduleId: ModuleId)
    | Redirect(domain: Domain, moduleId: ModuleId, wrapperAssembly: string)

  function Start(desktop: bool, instrumentNeutral: bool, version: string): State {
    State(desktop, instrumentNeutral, version, true, false, 0, false, {}, {}, map[])
  }

  // ---------- One callback ----------

  function OnAssemblyLoad(s: State, a: Option<Assembly>): State {
    if a.None? || !s.attached || a.value.name != MANAGED || a.value.version != s.version then s
    else
      s.(profiled := s.profiled + {a.value.domain},
         neutral := s.neutral || (s.desktop && s.corlibLoaded && a.value.domain == s.corlibDomain))
  }

  predicate IsCorlib(name: string) {
    name == "mscorlib" || name == "System.Private.CoreLib"
  }

  /** The module passes every filter and its metadata is stored. */
  predicate Stored(l: Loaded) {
    && !l.windowsRuntime && l.name !in SKIPPED && l.callerMatches && l.metadataOk
    && (l.name == HOSTING || l.targetMatches) && l.scopeOk
  }

  function OnModuleLoad(s: State, id: ModuleId, l: Option<Loaded>): State {
    if l.None? || !s.attached then s
    else if !s.corlibLoaded && IsCorlib(l.value.name) then s.(corlibLoaded := true, corlibDomain := l.value.domain)
    else if Stored(l.value) then s.(modules := s.modules[id := Module(l.value.name, l.value.domain)])
    else s
  }

  function OnModuleUnload(s: State, id: ModuleId): State {
    if id !in s.modules then s
    else s.(profiled := s.profiled - {s.modules[id].domain}, modules := s.modules - {id})
  }

  /** ProfilerAssemblyIsLoadedIntoAppDomain (cor_profiler.cpp:1125-1129). */
  predicate ProfilerLoaded(s: State, d: Domain) {
    s.neutral || d in s.profiled
  }

  /** The two checks between a matched call and its replacement (cor_profiler.cpp:789-821). */
  predicate Gate(s: State, d: Domain, r: Request) {
    r.wrapperAssembly == MANAGED ==>
      && ProfilerLoaded(s, d)
      && !(s.desktop && s.corlibLoaded && d == s.corlibDomain && !s.instrumentNeutral)
  }

  function Redirects(s: State, d: Domain, id: ModuleId, rs: seq<Request>): (r: seq<Effect>) {
    if rs == [] then []
    else (if Gate(s, d, rs[0]) then [Redirect(d, id, rs[0].wrapperAssembly)] else []) + Redirects(s, d, id, rs[1..])
  }

  function Inserts(d: Domain, id: ModuleId, n: nat): (r: seq<Effect>)
    ensures |r| == n && forall k :: 0 <= k < n ==> r[k] == Insert(d, id)
  {
    seq(n, _ => Insert(d, id))
  }

  /** The JIT callback acts on this method at all. */
  predicate Compiles(s: State, safe: bool, m: Option<Method>) {
    s.attached && safe && m.Some? && m.value.moduleId in s.modules && m.value.callerValid
  }

  function JitEffects(s: State, safe: bool, m: Option<Method>): seq<Effect> {
    if !Compiles(s, safe, m) then []
    else
      var id := m.value.moduleId;
      var d := s.modules[id].domain;
      var hook := if d in s.jitted then [] else [Hook(d, id)];
      if s.modules[id].assembly == HOSTING || !m.value.hasReplacements then hook
      else if m.value.insertionFailed then hook
      else hook + Inserts(d, id, m.value.insertions) + Redirects(s, d, id, m.value.requests)
  }

  function OnJit(s: State, safe: bool, m: Option<Method>): State {
    if !Compiles(s, safe, m) then s else s.(jitted := s.jitted + {s.modules[m.value.moduleId].domain})
  }

  function Next(s: State, e: Event): State {
    match e
    case AssemblyLoad(a) => OnAssemblyLoad(s, a)
    case ModuleLoad(id, l) => OnModuleLoad(s, id, l)
    case ModuleUnload(id) => OnModuleUnload(s, id)
    case Jit(safe, m) => OnJit(s, safe, m)
    case Shutdown => s.(attached := false)
  }

  function Effects(s: State, e: Event): seq<Effect> {
    if e.Jit? then JitEffects(s, e.safe, e.compiled) else []
  }

  // ---------- Runs ----------

  /** The state after a run. */
  function After(s: State, es: seq<Event>): State {
    if es == [] then s else Next(After(s, es[..|es| - 1]), es[|es| - 1])
  }

  /** The state that event `n` finds. */
  function Before(s: State, es: seq<Event>, n: nat): State
    requires n <= |es|
  {
    After(s, es[..n])
  }

  function EffectsAt(s: State, es: seq<Event>, n: nat): seq<Effect>
    requires n < |es|
  {
    Effects(Before(s, es, n), es[n])
  }

  // ---------- What has happened, read off the events alone ----------

  /** No shutdown before event `n`. */
  predicate Attached(es: seq<Event>, n: nat)
    requires n <= |es|
  {
    forall j :: 0 <= j < n ==> !es[j].Shutdown?
  }

  /** Event `i` is the load of the core library. */
  predicate LoadsCorlib(es: seq<Event>, i: nat)
    requires i < |es|
  {
    && es[i].ModuleLoad? && es[i].loaded.Some? && Attached(es, i)
    && (es[i].loaded.value.name == "mscorlib" || es[i].loaded.value.name == "System.Private.CoreLib")
  }

  /** The first of those loads before event `n` was into domain `d`. */
  ghost predicate CorlibIn(es: seq<Event>, n: nat, d: Domain)
    requires n <= |es|
  {
    exists i :: 0 <= i < n && LoadsCorlib(es, i) && es[i].loaded.value.domain == d && forall j :: 0 <= j < i ==> !LoadsCorlib(es, j)
  }

  /** Event `i` is the load of a managed profiler of this version into domain `d`. */
  predicate LoadsProfiler(version: string, es: seq<Event>, i: nat, d: Domain)
    requires i < |es|
  {
    && es[i].AssemblyLoad? && es[i].assembly.Some? && Attached(es, i)
    && es[i].assembly.value.name == "SignalFx.Tracing.ClrProfiler.Managed" && es[i].assembly.value.version == version
    && es[i].assembly.value.domain == d
  }

  /** The assemblies that are never instrumented (cor_profiler.cpp:329-362). */
  predicate KnownAssembly(name: string) {
    name in ["mscorlib", "netstandard", "SignalFx.Tracing", "SignalFx.Tracing.ClrProfiler.Managed",
             "SignalFx.Tracing.OpenTracing", "MsgPack", "MsgPack.Serialization.EmittingSerializers.GeneratedSerealizers0",
             "MsgPack.Serialization.EmittingSerializers.GeneratedSerealizers1",
             "MsgPack.Serialization.EmittingSerializers.GeneratedSerealizers2", "Sigil", "Sigil.Emit.DynamicAssembly",
             "System.Core", "System.Runtime", "System.IO.FileSystem", "System.Collections", "System.Runtime.Extensions",
             "System.Threading.Tasks", "System.Runtime.InteropServices",
             "System.Runtime.InteropServices.RuntimeInformation", "System.ComponentModel", "System.Console",
             "System.Diagnostics.DiagnosticSource", "Microsoft.Extensions.Options", "Microsoft.Extensions.ObjectPool",
             "System.Configuration", "System.Xml.Linq", "Microsoft.AspNetCore.Razor.Language",
             "Microsoft.AspNetCore.Mvc.RazorPages", "Microsoft.CSharp", "Newtonsoft.Json",
             "Anonymously Hosted DynamicMethods Assembly", "ISymWrapper"]
  }

  /** Event `i` loads module `id`, and no filter stops it. */
  ghost predicate Tracks(es: seq<Event>, i: nat, id: ModuleId)
    requires i < |es|
  {
    && es[i].ModuleLoad? && es[i].id == id && es[i].loaded.Some? && Attached(es, i)
    && var l := es[i].loaded.value;
       && !(LoadsCorlib(es, i) && forall j :: 0 <= j < i ==> !LoadsCorlib(es, j))
       && !l.windowsRuntime && !KnownAssembly(l.name) && l.callerMatches && l.metadataOk && l.scopeOk
       && (l.name == "Microsoft.AspNetCore.Hosting" || l.targetMatches)
  }

  /** Event `i`, before event `n`, tracked module `id` as `m`, and none since has tracked or unloaded that module. */
  ghost predicate TrackedBy(es: seq<Event>, n: nat, id: ModuleId, m: Module, i: nat)
    requires n <= |es|
  {
    && i < n && es[i].ModuleLoad? && es[i].loaded.Some? && Tracks(es, i, id)
    && m == Module(es[i].loaded.value.name, es[i].loaded.value.domain)
    && forall j :: i < j < n ==> !Tracks(es, j, id) && es[j] != ModuleUnload(id)
  }

  ghost predicate TrackedAs(es: seq<Event>, n: nat, id: ModuleId, m: Module)
    requires n <= |es|
  {
    exists i :: TrackedBy(es, n, id, m, i)
  }

  /** Event `i` unloads a module tracked in domain `d`. */
  ghost predicate UnloadsFrom(es: seq<Event>, i: nat, d: Domain)
    requires i < |es|
  {
    es[i].ModuleUnload? && exists m :: TrackedAs(es, i, es[i].id, m) && m.domain == d
  }

  /** The profiler loaded into `d` before event `n` and no tracked module of `d` has been unloaded since. */
  ghost predicate LoadedSince(version: string, es: seq<Event>, n: nat, d: Domain)
    requires n <= |es|
  {
    exists i :: 0 <= i < n && LoadsProfiler(version, es, i, d) && forall j :: i < j < n ==> !UnloadsFrom(es, j, d)
  }

  /** The profiler loaded into the domain of the core library, after the core library. */
  ghost predicate LoadedShared(version: string, es: seq<Event>, n: nat)
    requires n <= |es|
  {
    exists i, d :: 0 <= i < n && LoadsProfiler(version, es, i, d) && CorlibIn(es, i, d)
  }

  /** Event `n` compiles a method of a tracked module `m`. */
  ghost predicate CompilesIn(es: seq<Event>, n: nat, m: Module)
    requires n < |es|
  {
    && es[n].Jit? && es[n].safe && es[n].compiled.Some? && es[n].compiled.value.callerValid && Attached(es, n)
    && TrackedAs(es, n, es[n].compiled.value.moduleId, m)
  }

  /** Some method of domain `d` has been compiled before event `n`. */
  ghost predicate CompiledBefore(es: seq<Event>, n: nat, d: Domain)
    requires n <= |es|
  {
    exists i, m :: 0 <= i < n && CompilesIn(es, i, m) && m.domain == d
  }

  /** Event `n` compiles a method of `m` and gets as far as the calls of that method. */
  ghost predicate ReachesCalls(es: seq<Event>, n: nat, m: Module)
    requires n < |es|
  {
    && CompilesIn(es, n, m) && m.assembly != "Microsoft.AspNetCore.Hosting"
    && es[n].compiled.value.hasReplacements && !es[n].compiled.value.insertionFailed
  }

  /**
   A matched call in domain `d` may be redirected to a wrapper of this assembly. For the managed
   profiler's own, that profiler has to be usable in the domain, and code that desktop shares between
   domains has to be instrumented at all.
   */
  ghost predicate MayRedirect(s: State, es: seq<Event>, n: nat, d: Domain, wrapperAssembly: string)
    requires n <= |es|
  {
    wrapperAssembly == "SignalFx.Tracing.ClrProfiler.Managed" ==>
      && (LoadedSince(s.version, es, n, d) || (s.desktop && LoadedShared(s.version, es, n)))
      && (s.desktop && CorlibIn(es, n, d) ==> s.instrumentNeutral)
  }

  /** `fs` redirects exactly the calls among `rs` that may be redirected, in the order of `rs`. */
  ghost predicate RedirectsInOrder(s: State, es: seq<Event>, n: nat, m: Module, id: ModuleId, rs: seq<Request>, fs: seq<Effect>)
    requires n <= |es|
  {
    exists at: seq<nat> :: RedirectsAt(s, es, n, m, id, rs, fs, at)
  }

  ghost predicate RedirectsAt(
    s: State, es: seq<Event>, n: nat, m: Module, id: ModuleId, rs: seq<Request>, fs: seq<Effect>, at: seq<nat>)
    requires n <= |es|
  {
    && |at| == |fs|
    && (forall q :: 0 <= q < |at| ==>
          at[q] < |rs| && MayRedirect(s, es, n, m.domain, rs[at[q]].wrapperAssembly) &&
          fs[q] == Redirect(m.domain, id, rs[at[q]].wrapperAssembly))
    && (forall p, q :: 0 <= p < q < |at| ==> at[p] < at[q])
    && (forall k :: 0 <= k < |rs| && MayRedirect(s, es, n, m.domain, rs[k].wrapperAssembly) ==> k in at)
  }
}
