/**
 The per-module cache of wrapper references (module_metadata.h:48-92, metadata_builder.cpp:49-148,
 cor_profiler.cpp:1064-1123) against a simple metadata store. Cache keys are the strings the source
 builds (integration.h:223-231); they leave out the method signature.
 */
module WrapperCache {
  import opened Bytes

  /** The parts of a wrapper's MethodReference that name it; versions as their printed form. */
  datatype Wrapper = Wrapper(assembly: string, typeName: string, methodName: string,
                             signature: seq<byte>, minVersion: string, maxVersion: string)

  function TypeKey(w: Wrapper): string {
    "[" + w.assembly + "]" + w.typeName + "_vMin_" + w.minVersion + "_vMax_" + w.maxVersion
  }

  function MethodKey(w: Wrapper): string {
    "[" + w.assembly + "]" + w.typeName + "." + w.methodName + "_vMin_" + w.minVersion + "_vMax_" + w.maxVersion
  }

  // ---------- The metadata store ----------

  /** Where a type reference is resolved: in the module itself, or in an assembly reference. */
  datatype Scope = Self | Ref(index: nat)

  datatype Member = Member(parent: nat, name: string, signature: seq<byte>)

  /** Assembly references in order of emission, and the type and member references with their tokens. */
  datatype Store = Store(assemblies: seq<string>, types: map<(Scope, string), nat>, members: map<Member, nat>, next: nat)

  /** Which of the foreign calls made on behalf of one lookup would succeed. */
  datatype Env = Env(moduleOk: bool, assemblyOk: bool, typeOk: bool, memberOk: bool)

  /** FindAssemblyRef: the first assembly reference with that name. */
  function FirstRef(assemblies: seq<string>, name: string): (r: Option<nat>)
    ensures r.Some? ==> r.value < |assemblies| && assemblies[r.value] == name
  {
    if assemblies == [] then None
    else if assemblies[0] == name then Some(0)
    else
      match FirstRef(assemblies[1..], name)
      case None => None
      case Some(k) => Some(k + 1)
  }

  function ScopeOf(store: Store, self: string, w: Wrapper): Option<Scope> {
    if w.assembly == self then Some(Self)
    else
      match FirstRef(store.assemblies, w.assembly)
      case None => None
      case Some(k) => Some(Ref(k))
  }

  /** A store, and the token that was found or defined in it. */
  datatype Found = Found(store: Store, token: Option<nat>)

  /** Find the type reference, or define it; defining one that exists gives the existing one. */
  function FindOrDefineType(env: Env, store: Store, self: string, w: Wrapper): Found {
    match ScopeOf(store, self, w)
    case None => Found(store, None)
    case Some(scope) =>
      var key := (scope, w.typeName);
      if key in store.types then Found(store, Some(store.types[key]))
      else if !env.typeOk then Found(store, None)
      else Found(store.(types := store.types[key := store.next], next := store.next + 1), Some(store.next))
  }

  function FindOrDefineMember(env: Env, store: Store, parent: nat, w: Wrapper): Found {
    var key := Member(parent, w.methodName, w.signature);
    if key in store.members then Found(store, Some(store.members[key]))
    else if !env.memberOk then Found(store, None)
    else Found(store.(members := store.members[key := store.next], next := store.next + 1), Some(store.next))
  }

  /** EmitAssemblyRef appends a reference; its failure is only logged. */
  function EmitAssembly(env: Env, store: Store, w: Wrapper): Store {
    if env.assemblyOk then store.(assemblies := store.assemblies + [w.assembly]) else store
  }

  /** The reference without any cache: emit the assembly reference, then find or define type and member. */
  function Uncached(env: Env, store: Store, self: string, w: Wrapper): Found {
    var t := FindOrDefineType(env, EmitAssembly(env, store, w), self, w);
    if t.token.None? then t else FindOrDefineMember(env, t.store, t.token.value, w)
  }

  // ---------- The cache ----------

  /** ModuleMetadata: wrapper_refs, wrapper_parent_type and failed_wrapper_keys, beside the store. */
  datatype Cache = Cache(store: Store, members: map<string, nat>, types: map<string, nat>, failed: set<string>)

  datatype Lookup = Lookup(cache: Cache, token: Option<nat>)

  /** MetadataBuilder::FindWrapperTypeRef. */
  function FindWrapperType(env: Env, c: Cache, self: string, w: Wrapper): Lookup {
    if TypeKey(w) in c.types then Lookup(c, Some(c.types[TypeKey(w)]))
    else
      var f := FindOrDefineType(env, c.store, self, w);
      if f.token.None? then Lookup(c.(store := f.store), None)
      else Lookup(c.(store := f.store, types := c.types[TypeKey(w) := f.token.value]), f.token)
  }

  /** MetadataBuilder::StoreWrapperMethodRef; a failure is recorded under the method key. */
  function StoreWrapper(env: Env, c: Cache, self: string, w: Wrapper): Lookup {
    if MethodKey(w) in c.members then Lookup(c, Some(c.members[MethodKey(w)]))
    else
      var t := FindWrapperType(env, c, self, w);
      if t.token.None? then Lookup(t.cache.(failed := t.cache.failed + {MethodKey(w)}), None)
      else
        var f := FindOrDefineMember(env, t.cache.store, t.token.value, w);
        if f.token.None? then Lookup(t.cache.(store := f.store, failed := t.cache.failed + {MethodKey(w)}), None)
        else Lookup(t.cache.(store := f.store, members := t.cache.members[MethodKey(w) := f.token.value]), f.token)
  }

  /** CorProfiler::GetWrapperMethodRef. */
  function GetWrapper(env: Env, c: Cache, self: string, w: Wrapper): Lookup {
    if MethodKey(w) in c.members then Lookup(c, Some(c.members[MethodKey(w)]))
    else if !env.moduleOk then Lookup(c, None)
    else StoreWrapper(env, c.(store := EmitAssembly(env, c.store, w)), self, w)
  }

  /** One replacement's pass: nothing at all if its key failed before, else one lookup per matching call. */
  function Replace(c: Cache, self: string, w: Wrapper, envs: seq<Env>): Cache {
    if MethodKey(w) in c.failed then c else LookUpEach(c, self, w, envs)
  }

  function LookUpEach(c: Cache, self: string, w: Wrapper, envs: seq<Env>): Cache
    decreases |envs|
  {
    if envs == [] then c else LookUpEach(GetWrapper(envs[0], c, self, w).cache, self, w, envs[1..])
  }

  // ---------- Agreement ----------

  predicate SameType(a: Wrapper, b: Wrapper) {
    a.assembly == b.assembly && a.typeName == b.typeName
  }

  predicate SameMethod(a: Wrapper, b: Wrapper) {
    SameType(a, b) && a.methodName == b.methodName && a.signature == b.signature
  }

  /** No two wrappers share a key and name different types or methods. */
  ghost predicate KeysDistinguish(ws: set<Wrapper>) {
    forall a, b :: a in ws && b in ws ==>
      && (TypeKey(a) == TypeKey(b) ==> SameType(a, b))
      && (MethodKey(a) == MethodKey(b) ==> SameMethod(a, b))
  }

  /** The token the store holds for the wrapper's type, if any. */
  function TypeToken(store: Store, self: string, w: Wrapper): Option<nat> {
    var scope := ScopeOf(store, self, w);
    if scope.Some? && (scope.value, w.typeName) in store.types then Some(store.types[(scope.value, w.typeName)]) else None
  }

  function MemberToken(store: Store, self: string, w: Wrapper): Option<nat> {
    var t := TypeToken(store, self, w);
    if t.Some? && Member(t.value, w.methodName, w.signature) in store.members
    then Some(store.members[Member(t.value, w.methodName, w.signature)]) else None
  }

  /** Every cached token is the one the store holds for every wrapper with that key. */
  ghost predicate Coherent(c: Cache, self: string, ws: set<Wrapper>) {
    && (forall w :: w in ws && TypeKey(w) in c.types ==> TypeToken(c.store, self, w) == Some(c.types[TypeKey(w)]))
    && (forall w :: w in ws && MethodKey(w) in c.members ==> MemberToken(c.store, self, w) == Some(c.members[MethodKey(w)]))
  }

  /** The store only grows. */
  ghost predicate Grows(a: Store, b: Store) {
    && a.assemblies <= b.assemblies
    && (forall k :: k in a.types ==> k in b.types && b.types[k] == a.types[k])
    && (forall k :: k in a.members ==> k in b.members && b.members[k] == a.members[k])
  }

  lemma {:induction false} FirstRefStable(a: seq<string>, b: seq<string>, name: string)
    requires a <= b && FirstRef(a, name).Some?
    ensures FirstRef(b, name) == FirstRef(a, name)
  {
    if a[0] != name {
      FirstRefStable(a[1..], b[1..], name);
    }
  }

  lemma TokensStable(a: Store, b: Store, self: string, w: Wrapper)
    requires Grows(a, b)
    ensures TypeToken(a, self, w).Some? ==> TypeToken(b, self, w) == TypeToken(a, self, w)
    ensures MemberToken(a, self, w).Some? ==> MemberToken(b, self, w) == MemberToken(a, self, w)
  {
    if w.assembly != self && FirstRef(a.assemblies, w.assembly).Some? {
      FirstRefStable(a.assemblies, b.assemblies, w.assembly);
    }
  }

  lemma DefinesType(env: Env, store: Store, self: string, w: Wrapper)
    ensures var f := FindOrDefineType(env, store, self, w);
            && Grows(store, f.store)
            && (f.token.Some? ==> TypeToken(f.store, self, w) == f.token)
            && (TypeToken(store, self, w).Some? ==> f == Found(store, TypeToken(store, self, w)))
  {
  }

  lemma DefinesMember(env: Env, store: Store, parent: nat, self: string, w: Wrapper)
    requires TypeToken(store, self, w) == Some(parent)
    ensures var f := FindOrDefineMember(env, store, parent, w);
            && Grows(store, f.store)
            && (f.token.Some? ==> MemberToken(f.store, self, w) == f.token)
            && (MemberToken(store, self, w).Some? ==> f == Found(store, MemberToken(store, self, w)))
            && TypeToken(f.store, self, w) == Some(parent)
  {
  }
}
