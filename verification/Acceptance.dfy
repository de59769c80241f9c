/**
 The test on argument counts that decides whether a wrapper fits a call target
 (cor_profiler.cpp:636-686), with the wrap-around of size_t subtraction, and the decisions about call
 targets that rest on it.
 */
module Acceptance {
  import opened Bytes
  import opened Opcodes
  import opened Layout
  import opened Codec
  import opened Signatures
  import opened SignatureRendering
  import opened Replacement
  import opened Sweeps
  import opened RewrittenForm

  const HASTHIS := 0x20
  const ADDED_PARAMETERS := 3

  predicate IsInstanceMethod(data: seq<byte>) {
    data != [] && data[0] as int / HASTHIS % 2 == 1
  }

  /** Subtraction of two size_t values, `word` being 2^32 or 2^64: it wraps instead of going negative. */
  function Minus(a: int, b: int, word: int): int {
    if a >= b then a - b else a - b + word
  }

  predicate Accepted(wrapper: seq<byte>, target: seq<byte>, word: int) {
    && |wrapper| >= ADDED_PARAMETERS + 3
    && var expected := Minus(NumberOfArguments(wrapper), ADDED_PARAMETERS, word);
       (if IsInstanceMethod(target) then Minus(expected, 1, word) else expected) == NumberOfArguments(target)
  }

  /** The stack slots a call to a method with this signature consumes. */
  function StackArguments(data: seq<byte>): nat {
    NumberOfArguments(data) + if IsInstanceMethod(data) then 1 else 0
  }

  /**
   A static wrapper is accepted exactly when its signature has at least six bytes and it takes the
   target's arguments, the instance included, and three more; no wrap-around lets another through.
   */
  lemma AcceptedTakesThreeMore(wrapper: seq<byte>, target: seq<byte>, word: int)
    requires word >= 0x1_0000_0000
    ensures Accepted(wrapper, target, word) <==>
            |wrapper| >= 6 && NumberOfArguments(wrapper) == StackArguments(target) + 3
  {
  }

  // ---------- Decisions ----------

  /**
   One method replacement. `signatureOf` is the signature that the metadata give for a token
   (GetFunctionInfo; that of the generic method for a method spec), None where there is none;
   `decide` is what all checks but the one on argument counts make of a call target.
   */
  datatype Rule = Rule(wrapperSignature: seq<byte>, word: int, signatureOf: int -> Option<seq<byte>>, decide: int -> Option<Plan>)

  /** The decision about each call target. */
  function PlannerOf(rule: Rule): Planner {
    (t: int) =>
      match rule.signatureOf(t)
      case None => None
      case Some(target) => if Accepted(rule.wrapperSignature, target, rule.word) then rule.decide(t) else None
  }

  /**
   What the metadata guarantee: size_t has at least 32 bits, wrappers are static, tokens fit 32 bits
   and the pointer 64, and the reference that a decision calls carries the wrapper's signature.
   */
  ghost predicate RuleOk(rule: Rule) {
    && rule.word >= 0x1_0000_0000 && !IsInstanceMethod(rule.wrapperSignature)
    && forall t :: rule.decide(t).Some? ==>
         && Writable(rule.decide(t).value)
         && rule.signatureOf(rule.decide(t).value.wrapper) == Some(rule.wrapperSignature)
  }

  /**
   The tests that the source makes on one instruction, written out: a call (0x28) or callvirt (0x6F)
   of a method with a known signature, a wrapper of at least six signature bytes that takes three
   arguments more than the call has on the stack, and no further check against it.
   */
  predicate Replaceable(x: Instr<nat>, rule: Rule) {
    && (x.op == 0x28 || x.op == 0x6F) && x.operand.Imm?
    && var t := x.operand.value;
       && rule.signatureOf(t).Some? && rule.decide(t).Some?
       && |rule.wrapperSignature| >= 6
       && NumberOfArguments(rule.wrapperSignature) == StackArguments(rule.signatureOf(t).value) + 3
  }

  /** The decisions about call targets match exactly those instructions. */
  lemma MatchesIffReplaceable(rule: Rule, x: Instr<nat>)
    requires RuleOk(rule) && (x.op == 0x28 || x.op == 0x6F ==> x.operand.Imm?)
    ensures Matches(x, PlannerOf(rule)) <==> Replaceable(x, rule)
    ensures Replaceable(x, rule) ==> PlannerOf(rule)(x.operand.value) == rule.decide(x.operand.value)
  {
    if x.operand.Imm? && rule.signatureOf(x.operand.value).Some? {
      AcceptedTakesThreeMore(rule.wrapperSignature, rule.signatureOf(x.operand.value).value, rule.word);
    }
  }

  /** On the encoding of a method signature: the parameters, and the instance if the bit 0x20 is set. */
  lemma StackArgumentsOfEncoding(conv: byte, generics: Option<byte>, ts: seq<Type>)
    requires TypesOk(ts) && 1 <= |ts| <= 128
    requires (generics.Some? <==> conv / 0x10 % 2 == 1) && (generics.Some? ==> generics.value > 0)
    ensures StackArguments(EncMethod(conv, generics, ts)) == |ts| - 1 + conv / 0x20 % 2
  {
    MethodHeader(conv, generics, ts);
    assert EncMethod(conv, generics, ts)[0] == conv;
  }

  /** A wrapper is never accepted as its own target: it would have to take three arguments more than it takes. */
  lemma WrapperNotItsOwnTarget(wrapper: seq<byte>, word: int)
    requires word >= 0x1_0000_0000
    ensures !Accepted(wrapper, wrapper, word)
  {
    AcceptedTakesThreeMore(wrapper, wrapper, word);
  }

  /** So no replacement ever rewrites a call that it has inserted, and its loop ends on every list. */
  lemma {:induction false} RuleEnds(rule: Rule, code: Code)
    requires RuleOk(rule)
    ensures WrappersUnmatched(PlannerOf(rule)) && PlanFits(PlannerOf(rule)) && Ends(code, PlannerOf(rule))
  {
    var plan := PlannerOf(rule);
    forall t | plan(t).Some?
      ensures plan(plan(t).value.wrapper).None? && Writable(plan(t).value)
    {
      assert plan(t) == rule.decide(t);
      WrapperNotItsOwnTarget(rule.wrapperSignature, rule.word);
    }
    UnmatchedEnds(code, plan);
  }

  /** The call inserted for an accepted target consumes exactly three more stack slots. */
  lemma {:induction false} PlannedTakesThreeMore(rule: Rule, t: int)
    requires RuleOk(rule) && PlannerOf(rule)(t).Some?
    ensures var p := PlannerOf(rule)(t).value;
            && rule.signatureOf(t).Some? && rule.signatureOf(p.wrapper).Some?
            && StackArguments(rule.signatureOf(p.wrapper).value) == StackArguments(rule.signatureOf(t).value) + 3
  {
    AcceptedTakesThreeMore(rule.wrapperSignature, rule.signatureOf(t).value, rule.word);
    assert PlannerOf(rule)(t) == rule.decide(t);
  }
}
