/**
 The wrapper-reference cache answers as the uncached lookup would, over every run, exactly when cache
 keys distinguish the wrappers; entries never change, and a failed key is never tried again by a later
 replacement. The cache object itself updates its maps in place.
 */
module WrapperCacheTheorems {
  import opened Bytes
  import opened WrapperCache

  lemma SameTokens(store: Store, self: string, a: Wrapper, b: Wrapper)
    ensures SameType(a, b) ==> TypeToken(store, self, a) == TypeToken(store, self, b)
    ensures SameMethod(a, b) ==> MemberToken(store, self, a) == MemberToken(store, self, b)
  {
  }

  lemma {:induction false} CoherentGrows(c: Cache, store: Store, self: string, ws: set<Wrapper>)
    requires Coherent(c, self, ws) && Grows(c.store, store)
    ensures Coherent(c.(store := store), self, ws)
  {
    forall w | w in ws
      ensures TypeKey(w) in c.types ==> TypeToken(store, self, w) == Some(c.types[TypeKey(w)])
      ensures MethodKey(w) in c.members ==> MemberToken(store, self, w) == Some(c.members[MethodKey(w)])
    {
      TokensStable(c.store, store, self, w);
    }
  }

  lemma {:induction false} CoherentType(c: Cache, self: string, ws: set<Wrapper>, w: Wrapper, token: nat)
    requires Coherent(c, self, ws) && KeysDistinguish(ws) && w in ws && TypeToken(c.store, self, w) == Some(token)
    ensures Coherent(c.(types := c.types[TypeKey(w) := token]), self, ws)
  {
    hide TypeKey;
    hide MethodKey;
    hide TypeToken;
    hide MemberToken;
    forall v | v in ws && TypeKey(v) == TypeKey(w)
      ensures TypeToken(c.store, self, v) == Some(token)
    {
      SameTokens(c.store, self, v, w);
    }
  }

  lemma {:induction false} CoherentMember(c: Cache, self: string, ws: set<Wrapper>, w: Wrapper, token: nat)
    requires Coherent(c, self, ws) && KeysDistinguish(ws) && w in ws && MemberToken(c.store, self, w) == Some(token)
    ensures Coherent(c.(members := c.members[MethodKey(w) := token]), self, ws)
  {
    hide TypeKey;
    hide MethodKey;
    hide TypeToken;
    hide MemberToken;
    forall v | v in ws && MethodKey(v) == MethodKey(w)
      ensures MemberToken(c.store, self, v) == Some(token)
    {
      SameTokens(c.store, self, v, w);
    }
  }

  /** Cached entries and recorded failures are never changed or dropped. */
  ghost predicate Keeps(a: Cache, b: Cache) {
    && (forall k :: k in a.members ==> k in b.members && b.members[k] == a.members[k])
    && (forall k :: k in a.types ==> k in b.types && b.types[k] == a.types[k])
    && a.failed <= b.failed
  }

  /** The type step finds what the uncached step would, and keeps the cache coherent. */
  lemma {:induction false} TypeStepAgrees(env: Env, c: Cache, self: string, ws: set<Wrapper>, w: Wrapper)
    requires Coherent(c, self, ws) && KeysDistinguish(ws) && w in ws
    ensures var r, f := FindWrapperType(env, c, self, w), FindOrDefineType(env, c.store, self, w);
            && r.token == f.token && r.cache.store == f.store
            && Coherent(r.cache, self, ws) && Keeps(c, r.cache) && r.cache.members == c.members
            && (r.token.Some? ==> TypeToken(r.cache.store, self, w) == r.token)
  {
    DefinesType(env, c.store, self, w);
    var f := FindOrDefineType(env, c.store, self, w);
    hide TypeKey;
    hide MethodKey;
    hide FindOrDefineType;
    hide TypeToken;
    hide MemberToken;
    hide KeysDistinguish;
    if TypeKey(w) !in c.types {
      CoherentGrows(c, f.store, self, ws);
      if f.token.Some? {
        CoherentType(c.(store := f.store), self, ws, w, f.token.value);
      }
    }
  }

  lemma CoherentFailed(c: Cache, self: string, ws: set<Wrapper>, failed: set<string>)
    requires Coherent(c, self, ws)
    ensures Coherent(c.(failed := failed), self, ws)
  {
    hide TypeToken;
    hide MemberToken;
    hide TypeKey;
    hide MethodKey;
  }

  lemma {:induction false} MemberStepAgrees(env: Env, c: Cache, self: string, ws: set<Wrapper>, w: Wrapper, parent: nat)
    requires Coherent(c, self, ws) && KeysDistinguish(ws) && w in ws
    requires TypeToken(c.store, self, w) == Some(parent) && MethodKey(w) !in c.members
    ensures var f := FindOrDefineMember(env, c.store, parent, w);
            if f.token.None? then Coherent(c.(store := f.store, failed := c.failed + {MethodKey(w)}), self, ws)
            else Coherent(c.(store := f.store, members := c.members[MethodKey(w) := f.token.value]), self, ws)
  {
    hide *;
    DefinesMember(env, c.store, parent, self, w);
    var f := FindOrDefineMember(env, c.store, parent, w);
    CoherentGrows(c, f.store, self, ws);
    if f.token.None? {
      CoherentFailed(c.(store := f.store), self, ws, c.failed + {MethodKey(w)});
    } else {
      CoherentMember(c.(store := f.store), self, ws, w, f.token.value);
    }
  }

  lemma {:induction false} StoreAgrees(env: Env, c: Cache, self: string, ws: set<Wrapper>, w: Wrapper)
    requires Coherent(c, self, ws) && KeysDistinguish(ws) && w in ws && MethodKey(w) !in c.members
    ensures var r, t := StoreWrapper(env, c, self, w), FindOrDefineType(env, c.store, self, w);
            && r.token == (if t.token.None? then None else FindOrDefineMember(env, t.store, t.token.value, w).token)
            && Coherent(r.cache, self, ws) && Keeps(c, r.cache)
            && (r.token.None? ==> MethodKey(w) in r.cache.failed)
  {
    TypeStepAgrees(env, c, self, ws, w);
    var t := FindWrapperType(env, c, self, w);
    hide TypeKey;
    hide MethodKey;
    hide FindWrapperType;
    hide FindOrDefineType;
    hide FindOrDefineMember;
    hide TypeToken;
    hide Coherent;
    hide KeysDistinguish;
    if t.token.None? {
      CoherentFailed(t.cache, self, ws, t.cache.failed + {MethodKey(w)});
    } else {
      MemberStepAgrees(env, t.cache, self, ws, w, t.token.value);
    }
  }

  lemma HitAgrees(env: Env, c: Cache, self: string, ws: set<Wrapper>, w: Wrapper)
    requires Coherent(c, self, ws) && w in ws && MethodKey(w) in c.members
    ensures Uncached(env, c.store, self, w).token == Some(c.members[MethodKey(w)])
  {
    var store := EmitAssembly(env, c.store, w);
    TokensStable(c.store, store, self, w);
    DefinesType(env, store, self, w);
    hide MethodKey;
    hide TypeKey;
    hide FindOrDefineType;
    DefinesMember(env, store, TypeToken(store, self, w).value, self, w);
  }

  /**
   One lookup: the reference is what the uncached find-or-define gives in the same store, a failure is
   recorded, no entry changes, and the cache stays coherent.
   */
  lemma {:induction false} LookupAgrees(env: Env, c: Cache, self: string, ws: set<Wrapper>, w: Wrapper)
    requires Coherent(c, self, ws) && KeysDistinguish(ws) && w in ws
    ensures var r := GetWrapper(env, c, self, w);
            && (env.moduleOk || MethodKey(w) in c.members ==> r.token == Uncached(env, c.store, self, w).token)
            && Coherent(r.cache, self, ws) && Keeps(c, r.cache)
            && (env.moduleOk && r.token.None? ==> MethodKey(w) in r.cache.failed)
  {
    var store := EmitAssembly(env, c.store, w);
    assert Grows(c.store, store);
    hide MethodKey;
    hide TypeKey;
    hide Coherent;
    hide Grows;
    hide FindOrDefineType;
    hide FindOrDefineMember;
    hide StoreWrapper;
    hide EmitAssembly;
    hide KeysDistinguish;
    if MethodKey(w) in c.members {
      HitAgrees(env, c, self, ws, w);
    } else if env.moduleOk {
      CoherentGrows(c, store, self, ws);
      StoreAgrees(env, c.(store := store), self, ws, w);
    }
  }

  // ---------- Runs ----------

  datatype Call = Call(env: Env, wrapper: Wrapper)

  function AfterCalls(c: Cache, self: string, calls: seq<Call>): Cache {
    if calls == [] then c
    else
      var n := |calls| - 1;
      GetWrapper(calls[n].env, AfterCalls(c, self, calls[..n]), self, calls[n].wrapper).cache
  }

  predicate Over(calls: seq<Call>, ws: set<Wrapper>) {
    forall i :: 0 <= i < |calls| ==> calls[i].wrapper in ws && calls[i].env.moduleOk
  }

  /** A module's metadata as it loads, nothing cached yet. */
  function Loaded(store: Store): Cache {
    Cache(store, map[], map[], {})
  }

  /** Call `n` returns what the uncached lookup would return at that moment. */
  predicate AgreesAt(store: Store, self: string, calls: seq<Call>, n: nat)
    requires n < |calls|
  {
    var c := AfterCalls(Loaded(store), self, calls[..n]);
    GetWrapper(calls[n].env, c, self, calls[n].wrapper).token == Uncached(calls[n].env, c.store, self, calls[n].wrapper).token
  }

  ghost predicate AlwaysAgrees(self: string, ws: set<Wrapper>) {
    forall store: Store, calls: seq<Call>, n: nat :: Over(calls, ws) && n < |calls| ==> AgreesAt(store, self, calls, n)
  }

  lemma {:induction false} CoherentAfter(store: Store, self: string, ws: set<Wrapper>, calls: seq<Call>)
    requires KeysDistinguish(ws) && Over(calls, ws)
    ensures Coherent(AfterCalls(Loaded(store), self, calls), self, ws)
    decreases |calls|
  {
    if calls != [] {
      var n := |calls| - 1;
      CoherentAfter(store, self, ws, calls[..n]);
      LookupAgrees(calls[n].env, AfterCalls(Loaded(store), self, calls[..n]), self, ws, calls[n].wrapper);
      hide GetWrapper;
      hide Coherent;
    }
  }

  const NOTHING: Store := Store([], map[], map[], 0)
  const ALL_OK: Env := Env(true, true, true, true)

  lemma FirstLookup(self: string, a: Wrapper)
    ensures var c := AfterCalls(Loaded(NOTHING), self, [Call(ALL_OK, a)]);
            var key := ((if a.assembly == self then Self else Ref(0)), a.typeName);
            && c.store == Store([a.assembly], map[key := 0], map[Member(0, a.methodName, a.signature) := 1], 2)
            && c.types == map[TypeKey(a) := 0] && c.members == map[MethodKey(a) := 1]
  {
    hide TypeKey;
    hide MethodKey;
    var one := [Call(ALL_OK, a)];
    assert one[..0] == [];
    assert AfterCalls(Loaded(NOTHING), self, []) == Loaded(NOTHING);
    assert FirstRef([a.assembly], a.assembly) == Some(0);
    assert [] + [a.assembly] == [a.assembly];
  }

  lemma SecondUncached(self: string, a: Wrapper, b: Wrapper)
    requires !SameMethod(a, b)
    ensures var c := AfterCalls(Loaded(NOTHING), self, [Call(ALL_OK, a)]);
            Uncached(ALL_OK, c.store, self, b).token == Some(if SameType(a, b) then 2 else 3)
  {
    FirstLookup(self, a);
    hide TypeKey;
    hide MethodKey;
    hide AfterCalls;
    var two := [a.assembly] + [b.assembly];
    assert two == [a.assembly, b.assembly];
    assert two[1..] == [b.assembly];
    assert FirstRef([b.assembly], b.assembly) == Some(0);
    assert FirstRef(two, b.assembly) == Some(if a.assembly == b.assembly then 0 else 1);
  }

  /** Two wrappers that share a key but not what they name make the cache give a wrong reference. */
  lemma CollisionDisagrees(self: string, a: Wrapper, b: Wrapper)
    requires (MethodKey(a) == MethodKey(b) && !SameMethod(a, b)) || (TypeKey(a) == TypeKey(b) && !SameType(a, b))
    ensures !AgreesAt(NOTHING, self, [Call(ALL_OK, a), Call(ALL_OK, b)], 1)
  {
    var calls := [Call(ALL_OK, a), Call(ALL_OK, b)];
    assert calls[..1] == [Call(ALL_OK, a)];
    FirstLookup(self, a);
    SecondUncached(self, a, b);
    hide TypeKey;
    hide MethodKey;
    hide AfterCalls;
    hide Uncached;
    hide FirstRef;
  }

  /**
   Cache agreement: every reference returned, in every run over a set of wrappers on any module, is the
   uncached one if and only if the keys of those wrappers tell different types and methods apart.
   */
  lemma {:induction false} AgreementIffKeysDistinguish(self: string, ws: set<Wrapper>)
    ensures AlwaysAgrees(self, ws) <==> KeysDistinguish(ws)
  {
    if KeysDistinguish(ws) {
      forall store: Store, calls: seq<Call>, n: nat | Over(calls, ws) && n < |calls|
        ensures AgreesAt(store, self, calls, n)
      {
        CoherentAfter(store, self, ws, calls[..n]);
        LookupAgrees(calls[n].env, AfterCalls(Loaded(store), self, calls[..n]), self, ws, calls[n].wrapper);
      }
    } else {
      var a, b :| a in ws && b in ws &&
        !((TypeKey(a) == TypeKey(b) ==> SameType(a, b)) && (MethodKey(a) == MethodKey(b) ==> SameMethod(a, b)));
      var calls := [Call(ALL_OK, a), Call(ALL_OK, b)];
      CollisionDisagrees(self, a, b);
      assert Over(calls, ws) && !AgreesAt(NOTHING, self, calls, 1);
    }
  }

  /** Two overloads of one wrapper method, told apart only by signature, do share a key. */
  lemma OverloadsShareKey(a: Wrapper, signature: seq<byte>)
    requires a.signature != signature
    ensures var b := a.(signature := signature);
            !KeysDistinguish({a, b}) && MethodKey(a) == MethodKey(b) && !SameMethod(a, b)
  {
    var b := a.(signature := signature);
    assert a in {a, b} && b in {a, b};
  }

  lemma {:induction false} FirstRefFinds(assemblies: seq<string>, name: string)
    requires name in assemblies
    ensures FirstRef(assemblies, name).Some?
  {
    if assemblies[0] != name {
      FirstRefFinds(assemblies[1..], name);
    }
  }

  /** If none of the foreign calls fails, a lookup returns a reference, whatever the cache holds. */
  lemma {:induction false} LookupSucceeds(c: Cache, self: string, w: Wrapper)
    ensures GetWrapper(Env(true, true, true, true), c, self, w).token.Some?
  {
    var assemblies := c.store.assemblies + [w.assembly];
    assert assemblies[|assemblies| - 1] == w.assembly;
    FirstRefFinds(assemblies, w.assembly);
    hide FirstRef;
    hide TypeKey;
    hide MethodKey;
  }

  // ---------- Which keys tell wrappers apart ----------

  /** Two splits of one text at a separator whose first character occurs in neither front part. */
  lemma FrontSplit(x: string, y: string, x': string, y': string, c: string)
    requires c != "" && c[0] !in x && c[0] !in x' && x + c + y == x' + c + y'
    ensures x == x' && y == y'
  {
    var t := x + c + y;
    assert t[|x|] == c[0] && (x' + c + y')[|x'|] == c[0];
    assert t[..|x|] == x && (x' + c + y')[..|x'|] == x';
    assert t[|x| + |c|..] == y && (x' + c + y')[|x'| + |c|..] == y';
  }

  /** The same at a separator whose last character occurs in neither back part. */
  lemma BackSplit(x: string, y: string, x': string, y': string, c: string)
    requires c != "" && c[|c| - 1] !in y && c[|c| - 1] !in y' && x + c + y == x' + c + y'
    ensures x == x' && y == y'
  {
    var t, t' := x + c + y, x' + c + y';
    var last := c[|c| - 1];
    assert t[|x| + |c| - 1] == last && t'[|x'| + |c| - 1] == last;
    assert t[..|x|] == x && t'[..|x'|] == x';
    assert t[|x| + |c|..] == y && t'[|x'| + |c|..] == y';
  }

  /** Names as assemblies, methods and versions have them: no ']', no '.' and no '_' respectively. */
  predicate Separable(w: Wrapper) {
    ']' !in w.assembly && '.' !in w.methodName && '_' !in w.minVersion && '_' !in w.maxVersion
  }

  predicate SameVersions(a: Wrapper, b: Wrapper) {
    a.minVersion == b.minVersion && a.maxVersion == b.maxVersion
  }

  /** A key that names `middle` in an assembly, between two versions. */
  lemma KeySplit(a: Wrapper, b: Wrapper, x: string, y: string)
    requires Separable(a) && Separable(b)
    requires "[" + a.assembly + "]" + x + "_vMin_" + a.minVersion + "_vMax_" + a.maxVersion
             == "[" + b.assembly + "]" + y + "_vMin_" + b.minVersion + "_vMax_" + b.maxVersion
    ensures a.assembly == b.assembly && x == y && SameVersions(a, b)
  {
    var p, q := "[" + a.assembly + "]" + x, "[" + b.assembly + "]" + y;
    BackSplit(p + "_vMin_" + a.minVersion, a.maxVersion, q + "_vMin_" + b.minVersion, b.maxVersion, "_vMax_");
    BackSplit(p, a.minVersion, q, b.minVersion, "_vMin_");
    FrontSplit("[" + a.assembly, x, "[" + b.assembly, y, "]");
    assert ("[" + a.assembly)[1..] == a.assembly && ("[" + b.assembly)[1..] == b.assembly;
  }

  /** A type key stands for one assembly, one type and one pair of versions. */
  lemma {:induction false} TypeKeyExactly(a: Wrapper, b: Wrapper)
    requires Separable(a) && Separable(b)
    ensures TypeKey(a) == TypeKey(b) <==> a.assembly == b.assembly && a.typeName == b.typeName && SameVersions(a, b)
  {
    if TypeKey(a) == TypeKey(b) {
      KeySplit(a, b, a.typeName, b.typeName);
    }
  }

  /** A method key stands for one method name in these. */
  lemma {:induction false} MethodKeyExactly(a: Wrapper, b: Wrapper)
    requires Separable(a) && Separable(b)
    ensures MethodKey(a) == MethodKey(b) <==>
              a.assembly == b.assembly && a.typeName == b.typeName && a.methodName == b.methodName && SameVersions(a, b)
  {
    if MethodKey(a) == MethodKey(b) {
      var x, y := a.typeName + "." + a.methodName, b.typeName + "." + b.methodName;
      assert forall w: Wrapper {:trigger MethodKey(w)} ::
        MethodKey(w) == "[" + w.assembly + "]" + (w.typeName + "." + w.methodName) + "_vMin_" + w.minVersion + "_vMax_" + w.maxVersion;
      KeySplit(a, b, x, y);
      BackSplit(a.typeName, a.methodName, b.typeName, b.methodName, ".");
    }
  }

  /** Wrappers that agree in all their names have the same signature: no overloads. */
  ghost predicate OneSignature(ws: set<Wrapper>) {
    forall a, b :: a in ws && b in ws && SameType(a, b) && a.methodName == b.methodName && SameVersions(a, b) ==>
      a.signature == b.signature
  }

  /** For such names the keys tell the wrappers apart exactly when there are no overloads among them. */
  lemma {:induction false} SeparableDistinguish(ws: set<Wrapper>)
    requires forall w :: w in ws ==> Separable(w)
    ensures KeysDistinguish(ws) <==> OneSignature(ws)
  {
    forall a, b | a in ws && b in ws
      ensures TypeKey(a) == TypeKey(b) ==> SameType(a, b)
      ensures MethodKey(a) == MethodKey(b) <==> SameType(a, b) && a.methodName == b.methodName && SameVersions(a, b)
    {
      TypeKeyExactly(a, b);
      MethodKeyExactly(a, b);
    }
    hide TypeKey;
    hide MethodKey;
  }

  /** So over these wrappers every reference is the right one in every run on any module, unless there are overloads. */
  lemma {:induction false} SeparableAgreement(self: string, ws: set<Wrapper>)
    requires forall w :: w in ws ==> Separable(w)
    ensures AlwaysAgrees(self, ws) <==> OneSignature(ws)
  {
    AgreementIffKeysDistinguish(self, ws);
    SeparableDistinguish(ws);
    hide AlwaysAgrees;
    hide KeysDistinguish;
  }

  // ---------- The row behind a reference ----------

  /** Every member row has a token of its own. */
  ghost predicate RowsApart(store: Store) {
    && (forall k :: k in store.members ==> store.members[k] < store.next)
    && (forall j, k :: j in store.members && k in store.members && store.members[j] == store.members[k] ==> j == k)
  }

  lemma TypeRowsApart(env: Env, store: Store, self: string, w: Wrapper)
    requires RowsApart(store)
    ensures RowsApart(FindOrDefineType(env, store, self, w).store)
  {
    hide ScopeOf;
  }

  lemma MemberRowsApart(env: Env, store: Store, parent: nat, w: Wrapper)
    requires RowsApart(store)
    ensures RowsApart(FindOrDefineMember(env, store, parent, w).store)
  {
  }

  lemma EmitRowsApart(env: Env, store: Store, w: Wrapper)
    requires RowsApart(store)
    ensures RowsApart(EmitAssembly(env, store, w))
  {
  }

  lemma {:induction false} LookupRowsApart(env: Env, c: Cache, self: string, w: Wrapper)
    requires RowsApart(c.store)
    ensures RowsApart(GetWrapper(env, c, self, w).cache.store)
  {
    hide TypeKey;
    hide MethodKey;
    hide RowsApart;
    hide FindOrDefineType;
    hide FindOrDefineMember;
    hide EmitAssembly;
    var store := EmitAssembly(env, c.store, w);
    EmitRowsApart(env, c.store, w);
    TypeRowsApart(env, store, self, w);
    var t := FindWrapperType(env, c.(store := store), self, w);
    if t.token.Some? {
      MemberRowsApart(env, t.cache.store, t.token.value, w);
    }
  }

  lemma {:induction false} RowsStayApart(store: Store, self: string, calls: seq<Call>)
    requires RowsApart(store)
    ensures RowsApart(AfterCalls(Loaded(store), self, calls).store)
    decreases |calls|
  {
    hide RowsApart;
    hide GetWrapper;
    if calls != [] {
      var n := |calls| - 1;
      RowsStayApart(store, self, calls[..n]);
      LookupRowsApart(calls[n].env, AfterCalls(Loaded(store), self, calls[..n]), self, calls[n].wrapper);
    }
  }

  /** Row `k` is that of the wrapper's own method: its parent is the wrapper's type in the wrapper's assembly. */
  ghost predicate RowOf(store: Store, self: string, w: Wrapper, k: Member) {
    && k.name == w.methodName && k.signature == w.signature
    && exists scope :: (scope, w.typeName) in store.types && store.types[(scope, w.typeName)] == k.parent &&
         if w.assembly == self then scope == Self else
           scope.Ref? && scope.index < |store.assemblies| && store.assemblies[scope.index] == w.assembly
           && w.assembly !in store.assemblies[..scope.index]
  }

  lemma {:induction false} FirstRefIsFirst(assemblies: seq<string>, name: string)
    ensures match FirstRef(assemblies, name)
            case None => name !in assemblies
            case Some(k) => assemblies[k] == name && name !in assemblies[..k]
  {
    if assemblies != [] && assemblies[0] != name {
      FirstRefIsFirst(assemblies[1..], name);
      assert assemblies == [assemblies[0]] + assemblies[1..];
      if FirstRef(assemblies[1..], name).Some? {
        var k := FirstRef(assemblies[1..], name).value;
        assert assemblies[..k + 1] == [assemblies[0]] + assemblies[1..][..k];
      }
    }
  }

  lemma MemberRow(store: Store, self: string, w: Wrapper, k: Member)
    requires RowsApart(store) && MemberToken(store, self, w).Some?
    requires k in store.members && store.members[k] == MemberToken(store, self, w).value
    ensures RowOf(store, self, w, k)
  {
    FirstRefIsFirst(store.assemblies, w.assembly);
    var scope := ScopeOf(store, self, w).value;
    assert (scope, w.typeName) in store.types && store.types[(scope, w.typeName)] == k.parent;
  }

  /**
   In every run on any module, a returned reference stands for the row of the wrapper's own method, in
   its type and assembly and with its signature, as long as keys tell the wrappers apart.
   */
  lemma {:induction false} ReferenceIsRight(store: Store, self: string, ws: set<Wrapper>, calls: seq<Call>, n: nat, k: Member)
    requires KeysDistinguish(ws) && Over(calls, ws) && n < |calls| && RowsApart(store)
    ensures var r := GetWrapper(calls[n].env, AfterCalls(Loaded(store), self, calls[..n]), self, calls[n].wrapper);
            r.token.Some? && k in r.cache.store.members && r.cache.store.members[k] == r.token.value ==>
              RowOf(r.cache.store, self, calls[n].wrapper, k)
  {
    var c, w := AfterCalls(Loaded(store), self, calls[..n]), calls[n].wrapper;
    CoherentAfter(store, self, ws, calls[..n]);
    RowsStayApart(store, self, calls[..n]);
    LookupAgrees(calls[n].env, c, self, ws, w);
    LookupRowsApart(calls[n].env, c, self, w);
    var r := GetWrapper(calls[n].env, c, self, w);
    if r.token.Some? && k in r.cache.store.members && r.cache.store.members[k] == r.token.value {
      ReturnedIsCached(calls[n].env, c, self, w);
      hide *;
      CoherentHit(r.cache, self, ws, w);
      MemberRow(r.cache.store, self, w, k);
    }
  }

  lemma ReturnedIsCached(env: Env, c: Cache, self: string, w: Wrapper)
    requires GetWrapper(env, c, self, w).token.Some?
    ensures var r := GetWrapper(env, c, self, w);
            MethodKey(w) in r.cache.members && r.cache.members[MethodKey(w)] == r.token.value
  {
    hide MethodKey;
    hide TypeKey;
    hide FindOrDefineType;
    hide FindOrDefineMember;
  }

  lemma CoherentHit(c: Cache, self: string, ws: set<Wrapper>, w: Wrapper)
    requires Coherent(c, self, ws) && w in ws && MethodKey(w) in c.members
    ensures MemberToken(c.store, self, w) == Some(c.members[MethodKey(w)])
  {
  }

  // ---------- Failures ----------

  /** Call `n` gets as far as the metadata and returns no reference. */
  predicate FailsAt(store: Store, self: string, calls: seq<Call>, n: nat)
    requires n < |calls|
  {
    calls[n].env.moduleOk && GetWrapper(calls[n].env, AfterCalls(Loaded(store), self, calls[..n]), self, calls[n].wrapper).token.None?
  }

  lemma FailedStep(env: Env, c: Cache, self: string, w: Wrapper, key: string)
    ensures var r := GetWrapper(env, c, self, w);
            key in r.cache.failed <==> key in c.failed || (env.moduleOk && r.token.None? && key == MethodKey(w))
  {
    hide MethodKey;
    hide TypeKey;
    hide FindOrDefineType;
    hide FindOrDefineMember;
  }

  /** A key is recorded as failed exactly if some lookup under it has failed. */
  lemma {:induction false} FailedExactly(store: Store, self: string, calls: seq<Call>, key: string)
    ensures key in AfterCalls(Loaded(store), self, calls).failed <==>
              exists n :: 0 <= n < |calls| && FailsAt(store, self, calls, n) && MethodKey(calls[n].wrapper) == key
    decreases |calls|
  {
    hide MethodKey;
    hide GetWrapper;
    if calls != [] {
      var last := |calls| - 1;
      var front := calls[..last];
      FailedExactly(store, self, front, key);
      FailedStep(calls[last].env, AfterCalls(Loaded(store), self, front), self, calls[last].wrapper, key);
      forall n | 0 <= n < last
        ensures FailsAt(store, self, front, n) == FailsAt(store, self, calls, n)
      {
        assert front[..n] == calls[..n];
      }
      assert FailsAt(store, self, calls, last) <==>
             calls[last].env.moduleOk && GetWrapper(calls[last].env, AfterCalls(Loaded(store), self, front), self, calls[last].wrapper).token.None?;
      hide AfterCalls;
      hide FailsAt;
      if n :| 0 <= n < |calls| && FailsAt(store, self, calls, n) && MethodKey(calls[n].wrapper) == key {
        assert n < last ==> FailsAt(store, self, front, n) && front[n] == calls[n];
      }
      if n :| 0 <= n < |front| && FailsAt(store, self, front, n) && MethodKey(front[n].wrapper) == key {
        assert FailsAt(store, self, calls, n);
      }
    }
  }

  lemma {:induction false} LookupKeeps(env: Env, c: Cache, self: string, w: Wrapper)
    ensures Keeps(c, GetWrapper(env, c, self, w).cache)
  {
    hide TypeKey;
    hide MethodKey;
    hide FindOrDefineType;
    hide FindOrDefineMember;
  }

  lemma {:induction false} LookUpEachKeeps(c: Cache, self: string, w: Wrapper, envs: seq<Env>)
    ensures Keeps(c, LookUpEach(c, self, w, envs))
    decreases |envs|
  {
    if envs != [] {
      LookupKeeps(envs[0], c, self, w);
      LookUpEachKeeps(GetWrapper(envs[0], c, self, w).cache, self, w, envs[1..]);
      hide GetWrapper;
    }
  }

  datatype Pass = Pass(wrapper: Wrapper, envs: seq<Env>)

  function AfterPasses(c: Cache, self: string, ps: seq<Pass>): Cache
    decreases |ps|
  {
    if ps == [] then c else AfterPasses(Replace(c, self, ps[0].wrapper, ps[0].envs), self, ps[1..])
  }

  /**
   Over any sequence of replacements, cached entries never change, recorded failures stay, and a
   replacement whose key has failed changes nothing at all: its wrapper is not looked up again.
   */
  lemma {:induction false} FailedKeyNeverRetried(c: Cache, self: string, ps: seq<Pass>, w: Wrapper, envs: seq<Env>)
    requires MethodKey(w) in c.failed
    ensures Keeps(c, AfterPasses(c, self, ps))
    ensures Replace(AfterPasses(c, self, ps), self, w, envs) == AfterPasses(c, self, ps)
    decreases |ps|
  {
    if ps != [] {
      LookUpEachKeeps(c, self, ps[0].wrapper, ps[0].envs);
      FailedKeyNeverRetried(Replace(c, self, ps[0].wrapper, ps[0].envs), self, ps[1..], w, envs);
    }
  }

  // ---------- The cache object ----------

  class ModuleMetadata {
    const assemblyName: string
    var store: Store
    var wrapperRefs: map<string, nat>
    var wrapperParentType: map<string, nat>
    var failedWrapperKeys: set<string>

    function View(): Cache
      reads this
    {
      Cache(store, wrapperRefs, wrapperParentType, failedWrapperKeys)
    }

    constructor (assemblyName: string, store: Store)
      ensures this.assemblyName == assemblyName && View() == Cache(store, map[], map[], {})
    {
      this.assemblyName, this.store := assemblyName, store;
      wrapperRefs, wrapperParentType, failedWrapperKeys := map[], map[], {};
    }

    method FindWrapperTypeRef(env: Env, w: Wrapper) returns (typeRef: Option<nat>)
      modifies this
      ensures var r := FindWrapperType(env, old(View()), assemblyName, w); View() == r.cache && typeRef == r.token
    {
      var key := TypeKey(w);
      if key in wrapperParentType {
        return Some(wrapperParentType[key]);
      }
      var f := FindOrDefineType(env, store, assemblyName, w);
      store := f.store;
      if f.token.Some? {
        wrapperParentType := wrapperParentType[key := f.token.value];
      }
      return f.token;
    }

    method StoreWrapperMethodRef(env: Env, w: Wrapper) returns (stored: bool)
      modifies this
      ensures var r := StoreWrapper(env, old(View()), assemblyName, w);
              View() == r.cache && stored == r.token.Some? && (stored ==> MethodKey(w) in wrapperRefs && wrapperRefs[MethodKey(w)] == r.token.value)
    {
      var key := MethodKey(w);
      if key in wrapperRefs {
        return true;
      }
      var typeRef := FindWrapperTypeRef(env, w);
      if typeRef.None? {
        failedWrapperKeys := failedWrapperKeys + {key};
        return false;
      }
      var f := FindOrDefineMember(env, store, typeRef.value, w);
      store := f.store;
      if f.token.None? {
        failedWrapperKeys := failedWrapperKeys + {key};
        return false;
      }
      wrapperRefs := wrapperRefs[key := f.token.value];
      return true;
    }

    method GetWrapperMethodRef(env: Env, w: Wrapper) returns (token: Option<nat>)
      modifies this
      ensures var r := GetWrapper(env, old(View()), assemblyName, w); View() == r.cache && token == r.token
    {
      var key := MethodKey(w);
      if key !in wrapperRefs {
        if !env.moduleOk {
          return None;
        }
        store := EmitAssembly(env, store, w);
        var stored := StoreWrapperMethodRef(env, w);
        if !stored {
          return None;
        }
      }
      return Some(wrapperRefs[key]);
    }
  }
}
