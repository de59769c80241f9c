/**
 Replacements whose wrapper references come from the module's cache (cor_profiler.cpp:688-720): that a
 reference carries its wrapper's signature follows from the cache keys.
 */
module CachedRules {
  import opened Bytes
  import opened Layout
  import opened Replacement
  import opened RewrittenForm
  import opened Acceptance
  import opened WrapperCache
  import opened WrapperCacheTheorems
  import opened Pipeline

  /** For a member reference the metadata give the signature in its row. */
  ghost predicate ReadsRows(rule: Rule, store: Store) {
    forall k :: k in store.members ==> rule.signatureOf(store.members[k]) == Some(k.signature)
  }

  /**
   The rule is that of wrapper `w`, whose reference is in the cache: every decision calls this
   reference, or a method spec of it, which has the signature of the method it instantiates.
   */
  ghost predicate CallsCached(rule: Rule, c: Cache, w: Wrapper) {
    && MethodKey(w) in c.members && rule.wrapperSignature == w.signature
    && forall t :: rule.decide(t).Some? ==>
         rule.signatureOf(rule.decide(t).value.wrapper) == rule.signatureOf(c.members[MethodKey(w)])
  }

  /** What the types of the source give: size_t of at least 32 bits, static wrappers, operands that fit. */
  ghost predicate RuleTyped(rule: Rule) {
    && rule.word >= 0x1_0000_0000 && !IsInstanceMethod(rule.wrapperSignature)
    && forall t :: rule.decide(t).Some? ==> Writable(rule.decide(t).value)
  }

  lemma SomeRow(store: Store, self: string, w: Wrapper)
    requires MemberToken(store, self, w).Some?
    ensures exists k :: k in store.members && store.members[k] == MemberToken(store, self, w).value && k.signature == w.signature
  {
    var parent := TypeToken(store, self, w).value;
    var k := Member(parent, w.methodName, w.signature);
    assert k in store.members && store.members[k] == MemberToken(store, self, w).value;
  }

  /** After any run on any module, a rule that calls a cached reference satisfies what the loop needs of it. */
  lemma {:induction false} CachedRuleOk(store: Store, self: string, ws: set<Wrapper>, calls: seq<Call>, rule: Rule, w: Wrapper)
    requires KeysDistinguish(ws) && Over(calls, ws) && w in ws && RuleTyped(rule)
    requires var c := AfterCalls(Loaded(store), self, calls); CallsCached(rule, c, w) && ReadsRows(rule, c.store)
    ensures RuleOk(rule)
  {
    var c := AfterCalls(Loaded(store), self, calls);
    CoherentAfter(store, self, ws, calls);
    CoherentHit(c, self, ws, w);
    SomeRow(c.store, self, w);
    var k :| k in c.store.members && c.store.members[k] == c.members[MethodKey(w)] && k.signature == w.signature;
    assert rule.signatureOf(c.store.members[k]) == Some(k.signature);
    hide AfterCalls;
    hide Coherent;
    hide MethodKey;
    hide KeysDistinguish;
  }

  /** So if cache keys distinguish the wrappers, the loops of all replacements end on every list. */
  lemma {:induction false} CachedRulesEnd(store: Store, self: string, ws: set<Wrapper>, calls: seq<Call>, rules: seq<Rule>, wrappers: seq<Wrapper>, code: Code)
    requires KeysDistinguish(ws) && Over(calls, ws) && |wrappers| == |rules|
    requires forall k {:trigger rules[k]} :: 0 <= k < |rules| ==>
               var c := AfterCalls(Loaded(store), self, calls);
               wrappers[k] in ws && RuleTyped(rules[k]) && CallsCached(rules[k], c, wrappers[k]) && ReadsRows(rules[k], c.store)
    ensures RulesOk(rules) && EndsAll(code, Planners(rules))
  {
    hide KeysDistinguish;
    hide RuleTyped;
    hide CallsCached;
    hide ReadsRows;
    hide RuleOk;
    hide AfterCalls;
    hide EndsAll;
    forall k | 0 <= k < |rules|
      ensures RuleOk(rules[k])
    {
      CachedRuleOk(store, self, ws, calls, rules[k], wrappers[k]);
    }
    RulesEnd(rules, code);
  }

  /** With names as they are, that takes no more than that no wrapper is overloaded. */
  lemma {:induction false} SeparableRulesEnd(store: Store, self: string, ws: set<Wrapper>, calls: seq<Call>, rules: seq<Rule>, wrappers: seq<Wrapper>, code: Code)
    requires (forall w :: w in ws ==> Separable(w)) && OneSignature(ws) && Over(calls, ws) && |wrappers| == |rules|
    requires forall k {:trigger rules[k]} :: 0 <= k < |rules| ==>
               var c := AfterCalls(Loaded(store), self, calls);
               wrappers[k] in ws && RuleTyped(rules[k]) && CallsCached(rules[k], c, wrappers[k]) && ReadsRows(rules[k], c.store)
    ensures RulesOk(rules) && EndsAll(code, Planners(rules))
  {
    hide *;
    SeparableDistinguish(ws);
    CachedRulesEnd(store, self, ws, calls, rules, wrappers, code);
  }
}
