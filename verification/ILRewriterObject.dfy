/**
 The rewriter's own data structure (il_rewriter.h:20-76): a circular doubly linked list of mutable
 instruction nodes around a sentinel, branch operands as pointers to nodes.
 */
module ILRewriterObject {
  import opened Bytes
  import opened Opcodes
  import opened Layout
  import opened Codec
  import opened Replacement

  /** ILInstr; the union of operand fields is either an immediate or a pointer to another node. */
  class ILInstr {
    var next: ILInstr?
    var prev: ILInstr?
    var opcode: nat
    var offset: nat
    var operand: Operand<ILInstr?>

    constructor (opcode: nat, operand: Operand<ILInstr?>)
      ensures this.opcode == opcode && this.operand == operand
    {
      this.opcode, this.operand := opcode, operand;
      offset, next, prev := 0, null, null;
    }
  }

  /** Position `k` of the list; every position outside it is the sentinel. */
  function NodeAt(nodes: seq<ILInstr>, sentinel: ILInstr, k: int): ILInstr {
    if 0 <= k < |nodes| then nodes[k] else sentinel
  }

  ghost predicate Distinct(nodes: seq<ILInstr>) {
    forall i, j :: 0 <= i < j < |nodes| ==> nodes[i] != nodes[j]
  }

  /** `nodes` are linked in this order, forwards and backwards, through the sentinel. */
  ghost predicate Linked(nodes: seq<ILInstr>, sentinel: ILInstr)
    reads sentinel`next, sentinel`prev, nodes`next, nodes`prev
  {
    && sentinel !in nodes && Distinct(nodes)
    && sentinel.next == NodeAt(nodes, sentinel, 0)
    && sentinel.prev == NodeAt(nodes, sentinel, |nodes| - 1)
    && (forall i {:trigger nodes[i]} :: 0 <= i < |nodes| ==> nodes[i].next == NodeAt(nodes, sentinel, i + 1))
    && (forall i {:trigger nodes[i]} :: 0 <= i < |nodes| ==> nodes[i].prev == NodeAt(nodes, sentinel, i - 1))
  }

  /** The instructions along the list. */
  ghost function ContentOf(nodes: seq<ILInstr>): (r: seq<Instr<ILInstr?>>)
    reads nodes
    ensures |r| == |nodes|
  {
    seq(|nodes|, i requires 0 <= i < |nodes| reads nodes => Instr(nodes[i].opcode, nodes[i].operand))
  }

  class ILRewriter {
    const sentinel: ILInstr
    var maxStack: nat
    var nInstrs: nat
    ghost var nodes: seq<ILInstr>

    ghost predicate Valid()
      reads this, sentinel`next, sentinel`prev, nodes`next, nodes`prev
    {
      Linked(nodes, sentinel) && |nodes| <= nInstrs
    }

    ghost function Content(): (r: seq<Instr<ILInstr?>>)
      reads this, nodes
      ensures |r| == |nodes|
    {
      ContentOf(nodes)
    }

    constructor (maxStack: nat)
      ensures Valid() && fresh(sentinel) && nodes == [] && this.maxStack == maxStack && nInstrs == 0
    {
      var s := new ILInstr(0, Imm(0));
      s.next, s.prev := s, s;
      sentinel := s;
      this.maxStack, nInstrs := maxStack, 0;
      nodes := [];
    }

    /** The four pointer writes that both insertions perform, between positions k - 1 and k of `was`. */
    method WriteLinks(before: ILInstr, what: ILInstr, where: ILInstr, ghost was: seq<ILInstr>, ghost k: nat)
      requires Linked(was, sentinel)
      requires k <= |was| && where == NodeAt(was, sentinel, k) && before == NodeAt(was, sentinel, k - 1)
      requires what != sentinel && what !in was
      modifies sentinel`next, sentinel`prev, was`next, was`prev, what`next, what`prev
      ensures what.next == where && what.prev == before
      ensures sentinel.next == if k == 0 then what else NodeAt(was, sentinel, 0)
      ensures sentinel.prev == if k == |was| then what else NodeAt(was, sentinel, |was| - 1)
      ensures forall i {:trigger was[i]} :: 0 <= i < |was| ==>
                was[i].next == if i == k - 1 then what else NodeAt(was, sentinel, i + 1)
      ensures forall i {:trigger was[i]} :: 0 <= i < |was| ==>
                was[i].prev == if i == k then what else NodeAt(was, sentinel, i - 1)
    {
      Neighbours(was, sentinel, before, what, where, k);
      what.next := where;
      what.prev := before;
      where.prev := what;
      before.next := what;
    }

    method Link(before: ILInstr, what: ILInstr, where: ILInstr, ghost was: seq<ILInstr>, ghost k: nat)
      requires Linked(was, sentinel)
      requires k <= |was| && where == NodeAt(was, sentinel, k) && before == NodeAt(was, sentinel, k - 1)
      requires what != sentinel && what !in was
      modifies sentinel`next, sentinel`prev, was`next, was`prev, what`next, what`prev
      ensures Linked(Splice(was, k, [what]), sentinel)
    {
      hide NodeAt;
      ghost var d := Ordered(was, sentinel);
      WriteLinks(before, what, where, was, k);
      LinkedAfter(was, Splice(was, k, [what]), sentinel, what, k);
    }

    /** Also AdjustState: every node linked in raises the maximum depth by what its opcode pushes. */
    method InsertBefore(where: ILInstr, what: ILInstr, ghost k: nat)
      requires Valid() && k <= |nodes| < nInstrs && where == NodeAt(nodes, sentinel, k)
      requires what != sentinel && what !in nodes
      modifies this`nodes, this`maxStack, sentinel`next, sentinel`prev, nodes`next, nodes`prev, what`next, what`prev
      ensures Valid() && nodes == Splice(old(nodes), k, [what])
      ensures maxStack == old(maxStack) + Pushes(what.opcode)
    {
      hide Linked;
      hide NodeAt;
      hide Pushes;
      PrevAt(nodes, sentinel, k);
      ghost var was := nodes;
      Link(where.prev, what, where, was, k);
      maxStack := maxStack + Pushes(what.opcode);
      nodes := Splice(was, k, [what]);
    }

    method InsertAfter(where: ILInstr, what: ILInstr, ghost k: nat)
      requires Valid() && k <= |nodes| < nInstrs && where == NodeAt(nodes, sentinel, k - 1)
      requires what != sentinel && what !in nodes
      modifies this`nodes, this`maxStack, sentinel`next, sentinel`prev, nodes`next, nodes`prev, what`next, what`prev
      ensures Valid() && nodes == Splice(old(nodes), k, [what])
      ensures maxStack == old(maxStack) + Pushes(what.opcode)
    {
      hide Linked;
      hide NodeAt;
      hide Pushes;
      NextAt(nodes, sentinel, k);
      ghost var was := nodes;
      Link(where, what, where.next, was, k);
      maxStack := maxStack + Pushes(what.opcode);
      nodes := Splice(was, k, [what]);
    }

    /** NewILInstr, the field writes and InsertBefore, as every emitter of ILRewriterWrapper does them. */
    method EmitBefore(where: ILInstr, opcode: nat, operand: Operand<ILInstr?>, ghost k: nat) returns (x: ILInstr)
      requires Valid() && k <= |nodes| && where == NodeAt(nodes, sentinel, k)
      modifies this`nodes, this`maxStack, this`nInstrs, sentinel`next, sentinel`prev, nodes`next, nodes`prev
      ensures Valid() && fresh(x) && nodes == Splice(old(nodes), k, [x])
      ensures x.opcode == opcode && x.operand == operand
      ensures Content() == Splice(old(Content()), k, [Instr(opcode, operand)])
      ensures maxStack == old(maxStack) + Pushes(opcode) && nInstrs == old(nInstrs) + 1
    {
      hide Linked;
      hide NodeAt;
      hide Pushes;
      nInstrs := nInstrs + 1;
      x := new ILInstr(opcode, operand);
      InsertBefore(where, x, k);
      SplicedContent(old(nodes), nodes, x, k);
    }

    method EmitAfter(where: ILInstr, opcode: nat, operand: Operand<ILInstr?>, ghost k: nat) returns (x: ILInstr)
      requires Valid() && k <= |nodes| && where == NodeAt(nodes, sentinel, k - 1)
      modifies this`nodes, this`maxStack, this`nInstrs, sentinel`next, sentinel`prev, nodes`next, nodes`prev
      ensures Valid() && fresh(x) && nodes == Splice(old(nodes), k, [x])
      ensures x.opcode == opcode && x.operand == operand
      ensures Content() == Splice(old(Content()), k, [Instr(opcode, operand)])
      ensures maxStack == old(maxStack) + Pushes(opcode) && nInstrs == old(nInstrs) + 1
    {
      hide Linked;
      hide NodeAt;
      hide Pushes;
      nInstrs := nInstrs + 1;
      x := new ILInstr(opcode, operand);
      InsertAfter(where, x, k);
      SplicedContent(old(nodes), nodes, x, k);
    }

    /** The three extra arguments, each emitted before the wrapper call at position k. */
    method LoadArguments(where: ILInstr, opcode: nat, p: Plan, ghost k: nat)
      requires Valid() && k < |nodes| && where == nodes[k]
      modifies this`nodes, this`maxStack, this`nInstrs, sentinel`next, sentinel`prev, nodes`next, nodes`prev
      ensures Valid() && Grown(old(nodes), nodes, k, 3)
      ensures forall i :: 0 <= i < |nodes| ==> nodes[i] in old(nodes) || fresh(nodes[i])
      ensures Content() == Splice(old(Content()), k, Arguments(opcode, p))
      ensures maxStack == old(maxStack) + 3 && nInstrs == old(nInstrs) + 3
    {
      hide *;
      ghost var n0, c0 := nodes, Content();
      PushesOne(p.mvid);
      var first: Instr<ILInstr?>, second: Instr<ILInstr?> := LoadInt32(opcode), LoadInt32(p.token);
      var third: Instr<ILInstr?> := LoadInt64(p.mvid);
      IndexIs(nodes, sentinel, k);
      var x := EmitBefore(where, first.op, first.operand, k);
      ghost var n1, c1 := nodes, Content();
      SplicedAfter(n0, n1, x, k);
      SplicedAfter(c0, c1, first, k);
      IndexIs(nodes, sentinel, k + 1);
      var y := EmitBefore(where, second.op, second.operand, k + 1);
      ghost var n2, c2 := nodes, Content();
      SplicedAfter(n1, n2, y, k + 1);
      SplicedAfter(c1, c2, second, k + 1);
      IndexIs(nodes, sentinel, k + 2);
      var z := EmitBefore(where, third.op, third.operand, k + 2);
      SplicedAfter(n2, nodes, z, k + 2);
      SplicedThrice(n0, n1, n2, nodes, x, y, z, k);
      GrownMeans(n0, nodes, k, 3);
      SplicedThrice(c0, c1, c2, Content(), first, second, third, k);
      ArgumentsAre<ILInstr?>(opcode, p);
    }

    method BoxAndCall(where: ILInstr, p: Plan, ghost k: nat) returns (c: ILInstr)
      requires Valid() && k <= |nodes| && where == NodeAt(nodes, sentinel, k)
      modifies this`nodes, this`maxStack, this`nInstrs, sentinel`next, sentinel`prev, nodes`next, nodes`prev
      ensures Valid() && Grown(old(nodes), nodes, k, |BoxCode<ILInstr?>(p)| + 1) && c == nodes[k + |BoxCode<ILInstr?>(p)|]
      ensures forall i :: 0 <= i < |nodes| ==> nodes[i] in old(nodes) || fresh(nodes[i])
      ensures Content() == Splice(old(Content()), k, BoxCode(p) + [Instr(CALL, Imm(p.wrapper))])
      ensures maxStack == old(maxStack) + |BoxCode<ILInstr?>(p)| + 1 && nInstrs == old(nInstrs) + |BoxCode<ILInstr?>(p)| + 1
    {
      hide Linked;
      hide Pushes;
      PushesOne(p.mvid);
      if p.box.Some? {
        var _ := EmitBefore(where, BOX, Imm(p.box.value), k);
        c := EmitBefore(where, CALL, Imm(p.wrapper), k + 1);
      } else {
        c := EmitBefore(where, CALL, Imm(p.wrapper), k);
      }
    }

    method ArgumentsAndUnbox(c: ILInstr, opcode: nat, p: Plan, ghost k: nat)
      requires Valid() && k < |nodes| && c == nodes[k]
      modifies this`nodes, this`maxStack, this`nInstrs, sentinel`next, sentinel`prev, nodes`next, nodes`prev
      ensures Valid() && |nodes| == |old(nodes)| + 3 + |UnboxCode<ILInstr?>(p)|
      ensures nodes[..k] == old(nodes)[..k] && nodes[k + 4 + |UnboxCode<ILInstr?>(p)|..] == old(nodes)[k + 1..]
      ensures forall i :: 0 <= i < |nodes| ==> nodes[i] in old(nodes) || fresh(nodes[i])
      ensures Content() == old(Content())[..k] + Arguments(opcode, p) + [old(Content())[k]] + UnboxCode(p) + old(Content())[k + 1..]
      ensures maxStack == old(maxStack) + 3 + |UnboxCode<ILInstr?>(p)| && nInstrs == old(nInstrs) + 3 + |UnboxCode<ILInstr?>(p)|
    {
      hide Linked;
      hide Pushes;
      hide Arguments;
      hide ContentOf;
      hide Splice;
      PushesOne(p.mvid);
      ghost var was, content := nodes, Content();
      LoadArguments(c, opcode, p, k);
      ghost var had, middle := nodes, Content();
      assert had[k + 3] == had[k + 3..][0];
      if p.unbox.Some? {
        var x := EmitAfter(c, UNBOX_ANY, Imm(p.unbox.value), k + 4);
        SplicedAfter(had, nodes, x, k + 4);
        SplicedAfter(middle, Content(), Instr(UNBOX_ANY, Imm(p.unbox.value)), k + 4);
      }
      AfterArguments(content, middle, Arguments(opcode, p), k);
      GrownAround(was, had, k, 3);
    }

    method NopOut(at: ILInstr, ghost k: nat) returns (q: ILInstr)
      requires Valid() && k < |nodes| && at == nodes[k]
      modifies at`opcode
      ensures Valid() && q == NodeAt(nodes, sentinel, k + 1)
      ensures Content() == old(Content())[k := old(Content())[k].(op := NOP)]
    {
      hide Linked;
      hide NodeAt;
      NextOf(nodes, sentinel, k);
      ghost var content := Content();
      ghost var d := Ordered(nodes, sentinel);
      at.opcode := NOP;
      q := at.next;
      NopContent(nodes, k, content);
    }

    /**
     The modification of one call site (cor_profiler.cpp:823-971): the call's own node becomes the
     nop and everything else is linked in behind it. Returns the node after the inserted ones.
     */
    method ReplaceSite(at: ILInstr, p: Plan, ghost k: nat) returns (q: ILInstr)
      requires Valid() && k < |nodes| && at == nodes[k]
      modifies this`nodes, this`maxStack, this`nInstrs, sentinel`next, sentinel`prev, nodes`next, nodes`prev, at`opcode
      ensures Valid()
      ensures Grown(old(nodes), nodes, k + 1, |Block(old(Content())[k], p)| - 1)
      ensures q == NodeAt(old(nodes), sentinel, k + 1)
      ensures forall i :: 0 <= i < |nodes| ==> nodes[i] in old(nodes) || fresh(nodes[i])
      ensures Content() == old(Content())[..k] + Block(old(Content())[k], p) + old(Content())[k + 1..]
      ensures maxStack == old(maxStack) + |Block(old(Content())[k], p)| - 1
      ensures nInstrs == old(nInstrs) + |Block(old(Content())[k], p)| - 1
    {
      hide *;
      var opcode := at.opcode;
      ghost var was, content := nodes, Content();
      ContentAt(nodes, content, k, this);
      q := NopOut(at, k);
      var c := BoxAndCall(q, p, k + 1);
      ghost var middle, had := Content(), nodes;
      GrownMeans(was, had, k + 1, |BoxCode<ILInstr?>(p)| + 1);
      ArgumentsAndUnbox(c, opcode, p, k + 1 + |BoxCode<ILInstr?>(p)|);
      SiteContent(content, middle, Content(), p, k);
      GrownTwice(was, had, nodes, k + 1, |BoxCode<ILInstr?>(p)|, |UnboxCode<ILInstr?>(p)|);
    }
  }

  lemma SplicedAfter<T>(was: seq<T>, now: seq<T>, x: T, k: nat)
    requires k <= |was| && now == Splice(was, k, [x])
    ensures |now| == |was| + 1 && now[k] == x && now[..k] == was[..k] && now[k + 1..] == was[k..]
    ensures now == was[..k] + [x] + was[k..]
    ensures forall i :: 0 <= i < |now| ==> now[i] == x || now[i] in was
    ensures k < |was| ==> now[k + 1] == was[k]
  {
  }

  lemma SplicedThrice<T>(a: seq<T>, b: seq<T>, c: seq<T>, d: seq<T>, x: T, y: T, z: T, k: nat)
    requires k <= |a| && b == Splice(a, k, [x]) && c == Splice(b, k + 1, [y]) && d == Splice(c, k + 2, [z])
    ensures d == Splice(a, k, [x, y, z])
    ensures |d| == |a| + 3 && d[..k] == a[..k] && d[k + 3..] == a[k..]
  {
  }

  lemma AfterArguments<T>(was: seq<T>, now: seq<T>, mid: seq<T>, k: nat)
    requires k < |was| && now == Splice(was, k, mid)
    ensures |now| == |was| + |mid| && now[..k + |mid| + 1] == was[..k] + mid + [was[k]]
    ensures now[k + |mid| + 1..] == was[k + 1..] && now == was[..k] + mid + [was[k]] + was[k + 1..]
  {
  }

  lemma GrownAround<T>(was: seq<T>, now: seq<T>, k: nat, m: nat)
    requires k < |was| && Grown(was, now, k, m)
    ensures now[k + m + 1..] == was[k + 1..] && now[..k + m + 1][..k] == was[..k]
  {
    assert now[k + m..][1..] == now[k + m + 1..];
  }

  lemma ContentAt(nodes: seq<ILInstr>, content: seq<Instr<ILInstr?>>, k: nat, rewriter: ILRewriter)
    requires k < |nodes| && nodes == rewriter.nodes && content == rewriter.Content()
    ensures content[k].op == nodes[k].opcode
  {
  }

  lemma GrownTwice<T>(was: seq<T>, had: seq<T>, now: seq<T>, k: nat, b: nat, u: nat)
    requires Grown(was, had, k, b + 1)
    requires |now| == |had| + 3 + u && now[..k + b] == had[..k + b] && now[k + b + 4 + u..] == had[k + b + 1..]
    ensures Grown(was, now, k, b + 4 + u)
  {
    assert now[..k] == now[..k + b][..k] == had[..k + b][..k] == had[..k];
  }

  lemma SiteContent<L>(was: seq<Instr<L>>, middle: seq<Instr<L>>, now: seq<Instr<L>>, p: Plan, k: nat)
    requires k < |was| 
    requires middle == Splice(was[k := was[k].(op := NOP)], k + 1, BoxCode(p) + [Instr(CALL, Imm(p.wrapper))])
    requires var j := k + 1 + |BoxCode<L>(p)|;
             now == middle[..j] + Arguments(was[k].op, p) + [middle[j]] + UnboxCode(p) + middle[j + 1..]
    ensures now == was[..k] + Block(was[k], p) + was[k + 1..]
    ensures |Block(was[k], p)| == |BoxCode<L>(p)| + 5 + |UnboxCode<L>(p)|
  {
    var j := k + 1 + |BoxCode<L>(p)|;
    hide BoxCode;
    hide UnboxCode;
    hide LoadInt32;
    assert middle[..j] == was[..k] + [was[k].(op := NOP)] + BoxCode(p);
    assert middle[j] == Instr(CALL, Imm(p.wrapper));
    assert middle[j + 1..] == was[k + 1..];
    assert Arguments(was[k].op, p) + [middle[j]] == [LoadInt32(was[k].op), LoadInt32(p.token), Instr(LDC_I8, Imm(p.mvid)), Instr(CALL, Imm(p.wrapper))];
  }

  lemma NopContent(nodes: seq<ILInstr>, k: nat, was: seq<Instr<ILInstr?>>)
    requires Distinct(nodes) && k < |nodes| == |was| && nodes[k].opcode == NOP && nodes[k].operand == was[k].operand
    requires forall i :: 0 <= i < |nodes| && i != k ==> was[i] == Instr(nodes[i].opcode, nodes[i].operand)
    ensures ContentOf(nodes) == was[k := was[k].(op := NOP)]
  {
  }

  /** ILRewriterWrapper::LoadInt64 (il_rewriter_wrapper.cpp:21-26). */
  function LoadInt64<L>(v: int): (x: Instr<L>)
    ensures Pushes(x.op) == 1
  {
    Instr(LDC_I8, Imm(v))
  }

  lemma ArgumentsAre<L>(opcode: nat, p: Plan)
    ensures Arguments<L>(opcode, p) == [LoadInt32(opcode), LoadInt32(p.token), LoadInt64(p.mvid)]
  {
  }

  lemma IndexIs(nodes: seq<ILInstr>, sentinel: ILInstr, k: nat)
    requires k < |nodes|
    ensures NodeAt(nodes, sentinel, k) == nodes[k]
  {
  }

  lemma GrownMeans<T>(was: seq<T>, now: seq<T>, k: nat, m: nat)
    ensures Grown(was, now, k, m) <==>
            k <= |was| && |now| == |was| + m && now[..k] == was[..k] && now[k + m..] == was[k..]
  {
  }

  /** `now` is `was` with m nodes put in at position k. */
  predicate Grown<T(==)>(was: seq<T>, now: seq<T>, k: nat, m: nat) {
    && k <= |was| && |now| == |was| + m
    && now[..k] == was[..k] && now[k + m..] == was[k..]
  }

  function Arguments<L>(opcode: nat, p: Plan): (r: seq<Instr<L>>)
    ensures |r| == 3
  {
    [LoadInt32(opcode), LoadInt32(p.token), LoadInt64(p.mvid)]
  }

  lemma PushesOne(v: int)
    ensures Pushes(LDC_I8) == 1 && Pushes(CALL) == 1 && Pushes(BOX) == 1 && Pushes(UNBOX_ANY) == 1 && Pushes(NOP) == 0
  {
  }

  lemma SplicedContent(was: seq<ILInstr>, now: seq<ILInstr>, x: ILInstr, k: nat)
    requires k <= |was| && now == Splice(was, k, [x])
    ensures ContentOf(now) == Splice(ContentOf(was), k, [Instr(x.opcode, x.operand)])
  {
  }

  function Splice<T>(s: seq<T>, k: nat, mid: seq<T>): (r: seq<T>)
    requires k <= |s|
    ensures |r| == |s| + |mid|
  {
    s[..k] + mid + s[k..]
  }

  lemma PrevAt(nodes: seq<ILInstr>, sentinel: ILInstr, k: nat)
    requires Linked(nodes, sentinel) && k <= |nodes|
    ensures NodeAt(nodes, sentinel, k).prev == NodeAt(nodes, sentinel, k - 1)
  {
  }

  /** A cursor at position `i`: at the end exactly on the sentinel, otherwise on a node of its own. */
  lemma CursorInside(nodes: seq<ILInstr>, sentinel: ILInstr, p: ILInstr, i: nat)
    requires Linked(nodes, sentinel) && i <= |nodes| && p == NodeAt(nodes, sentinel, i)
    ensures p == sentinel <==> i == |nodes|
    ensures i < |nodes| ==>
              && p == nodes[i] && p !in nodes[..i] && p !in nodes[i + 1..]
              && p.next == NodeAt(nodes, sentinel, i + 1)
  {
  }

  lemma NextOf(nodes: seq<ILInstr>, sentinel: ILInstr, k: nat)
    requires Linked(nodes, sentinel) && k < |nodes|
    ensures nodes[k].next == NodeAt(nodes, sentinel, k + 1)
  {
  }

  lemma NextAt(nodes: seq<ILInstr>, sentinel: ILInstr, k: nat)
    requires Linked(nodes, sentinel) && k <= |nodes|
    ensures NodeAt(nodes, sentinel, k - 1).next == NodeAt(nodes, sentinel, k)
  {
  }

  ghost function Ordered(was: seq<ILInstr>, sentinel: ILInstr): (r: bool)
    reads sentinel`next, sentinel`prev, was`next, was`prev
    requires Linked(was, sentinel)
    ensures Distinct(was) && sentinel !in was
  {
    true
  }

  /** The list after the four pointer writes. */
  lemma LinkedAfter(was: seq<ILInstr>, now: seq<ILInstr>, sentinel: ILInstr, what: ILInstr, k: nat)
    requires k <= |was| && now == was[..k] + [what] + was[k..]
    requires Distinct(was) && what !in was && sentinel !in was && what != sentinel
    requires sentinel.next == if k == 0 then what else NodeAt(was, sentinel, 0)
    requires sentinel.prev == if k == |was| then what else NodeAt(was, sentinel, |was| - 1)
    requires forall i {:trigger was[i]} :: 0 <= i < |was| ==>
               was[i].next == if i == k - 1 then what else NodeAt(was, sentinel, i + 1)
    requires forall i {:trigger was[i]} :: 0 <= i < |was| ==>
               was[i].prev == if i == k then what else NodeAt(was, sentinel, i - 1)
    requires what.next == NodeAt(was, sentinel, k) && what.prev == NodeAt(was, sentinel, k - 1)
    ensures Linked(now, sentinel)
  {
    hide NodeAt;
    Spliced(was, now, sentinel, what, k);
    LinkedForward(was, now, sentinel, what, k);
    LinkedBackward(was, now, sentinel, what, k);
  }

  lemma LinkedForward(was: seq<ILInstr>, now: seq<ILInstr>, sentinel: ILInstr, what: ILInstr, k: nat)
    requires k <= |was| && now == was[..k] + [what] + was[k..]
    requires sentinel.next == if k == 0 then what else NodeAt(was, sentinel, 0)
    requires forall i {:trigger was[i]} :: 0 <= i < |was| ==>
               was[i].next == if i == k - 1 then what else NodeAt(was, sentinel, i + 1)
    requires what.next == NodeAt(was, sentinel, k)
    ensures sentinel.next == NodeAt(now, sentinel, 0)
    ensures forall i {:trigger now[i]} :: 0 <= i < |now| ==> now[i].next == NodeAt(now, sentinel, i + 1)
  {
    forall i {:trigger now[i]} | 0 <= i < |now|
      ensures now[i].next == NodeAt(now, sentinel, i + 1)
    {
      assert now[i] == if i < k then was[i] else if i == k then what else was[i - 1];
    }
  }

  lemma LinkedBackward(was: seq<ILInstr>, now: seq<ILInstr>, sentinel: ILInstr, what: ILInstr, k: nat)
    requires k <= |was| && now == was[..k] + [what] + was[k..]
    requires sentinel.prev == if k == |was| then what else NodeAt(was, sentinel, |was| - 1)
    requires forall i {:trigger was[i]} :: 0 <= i < |was| ==>
               was[i].prev == if i == k then what else NodeAt(was, sentinel, i - 1)
    requires what.prev == NodeAt(was, sentinel, k - 1)
    ensures sentinel.prev == NodeAt(now, sentinel, |now| - 1)
    ensures forall i {:trigger now[i]} :: 0 <= i < |now| ==> now[i].prev == NodeAt(now, sentinel, i - 1)
  {
    forall i {:trigger now[i]} | 0 <= i < |now|
      ensures now[i].prev == NodeAt(now, sentinel, i - 1)
    {
      assert now[i] == if i < k then was[i] else if i == k then what else was[i - 1];
    }
  }

  lemma Neighbours(was: seq<ILInstr>, sentinel: ILInstr, before: ILInstr, what: ILInstr, where: ILInstr, k: nat)
    requires Distinct(was) && sentinel !in was && what !in was && k <= |was|
    requires where == NodeAt(was, sentinel, k) && before == NodeAt(was, sentinel, k - 1)
    ensures where == sentinel || where in was
    ensures before == sentinel || before in was
    ensures forall i {:trigger was[i]} :: 0 <= i < |was| ==>
              (was[i] == before <==> i == k - 1) && (was[i] == where <==> i == k) && was[i] != what && was[i] != sentinel
  {
  }

  /** Positions before and after a node is spliced in at position k. */
  lemma Spliced(was: seq<ILInstr>, now: seq<ILInstr>, sentinel: ILInstr, what: ILInstr, k: nat)
    requires k <= |was| && now == was[..k] + [what] + was[k..]
    requires Distinct(was) && what !in was && sentinel !in was && what != sentinel
    ensures Distinct(now) && sentinel !in now
    ensures forall i :: 0 <= i < k ==> NodeAt(now, sentinel, i) == NodeAt(was, sentinel, i)
    ensures NodeAt(now, sentinel, k) == what
    ensures forall i :: k < i <= |now| ==> NodeAt(now, sentinel, i) == NodeAt(was, sentinel, i - 1)
  {
    forall i, j | 0 <= i < j < |now|
      ensures now[i] != now[j]
    {
      assert now[i] == (if i < k then was[i] else if i == k then what else was[i - 1]);
      assert now[j] == (if j < k then was[j] else if j == k then what else was[j - 1]);
    }
  }
}
