/**
 Exception clauses as the rewriter holds them, pointers to nodes (il_rewriter.h:33-47): read from byte
 offsets by ImportEH, left alone by every splice, written from the nodes' offsets by Export.
 */
module ClausePass {
  import opened Bytes
  import opened Layout
  import opened Codec
  import opened Replacement
  import opened Regions
  import opened Sweeps
  import opened ILRewriterObject
  import opened ImportPass
  import opened ReplacementPass
  import opened ExportPass

  datatype NodeCatch = NodeToken(token: int) | NodeFilter(begin: ILInstr)

  /** EHClause. */
  datatype NodeClause = NodeClause(flags: nat, tryBegin: ILInstr, tryEnd: ILInstr,
                                   handlerBegin: ILInstr, handlerEnd: ILInstr, catch: NodeCatch)

  /** The pointers of `n` are the positions of `c`. */
  predicate Stands(nodes: seq<ILInstr>, sentinel: ILInstr, n: NodeClause, c: Clause) {
    && ClauseOk(c, |nodes|) && n.flags == c.flags
    && n.tryBegin == NodeAt(nodes, sentinel, c.tryBegin) && n.tryEnd == NodeAt(nodes, sentinel, c.tryEnd)
    && n.handlerBegin == NodeAt(nodes, sentinel, c.handlerBegin)
    && n.handlerEnd == NodeAt(nodes, sentinel, c.handlerLast)
    && match c.catch
       case ClassToken(t) => n.catch == NodeToken(t)
       case FilterBegin(p) => n.catch == NodeFilter(NodeAt(nodes, sentinel, p))
  }

  // ---------- Import ----------

  lemma LookupIs(table: seq<ILInstr?>, nodes: seq<ILInstr>, raws: seq<Raw>, sentinel: ILInstr, size: nat, off: int)
    requires Tabled(table, nodes, raws, sentinel) && size == |table| - 1 && StartsBelow(raws, size)
    ensures |nodes| == |raws|
    ensures InstrAt(raws, size, off).None? ==> Target(table, off) == null
    ensures InstrAt(raws, size, off).Some? ==>
              InstrAt(raws, size, off).value <= |nodes| &&
              Target(table, off) == NodeAt(nodes, sentinel, InstrAt(raws, size, off).value)
  {
    TargetIs(table, nodes, raws, sentinel, size, off);
  }

  /** One iteration of ImportEH; None where an offset hits no instruction. */
  method ReadClause(rewriter: ILRewriter, table: array<ILInstr?>, f: FatClause, ghost raws: seq<Raw>, ghost size: nat)
    returns (n: Option<NodeClause>)
    requires rewriter.Valid() && table.Length == size + 1 && StartsBelow(raws, size)
    requires Tabled(table[..], rewriter.nodes, raws, rewriter.sentinel)
    ensures var c := ImportClause(raws, size, f);
            && (n.Some? <==> c.Some?)
            && (n.Some? ==> Stands(rewriter.nodes, rewriter.sentinel, n.value, c.value))
  {
    hide InstrAt;
    hide Tabled;
    hide Linked;
    hide NodeAt;
    hide Target;
    ghost var nodes, sentinel := rewriter.nodes, rewriter.sentinel;
    LookupIs(table[..], nodes, raws, sentinel, size, f.tryOffset);
    LookupIs(table[..], nodes, raws, sentinel, size, f.tryOffset + f.tryLength);
    LookupIs(table[..], nodes, raws, sentinel, size, f.handlerOffset);
    LookupIs(table[..], nodes, raws, sentinel, size, f.handlerOffset + f.handlerLength);
    LookupIs(table[..], nodes, raws, sentinel, size, f.tokenOrFilter);
    var tb := Lookup(table, f.tryOffset);
    var te := Lookup(table, f.tryOffset + f.tryLength);
    var hb := Lookup(table, f.handlerOffset);
    var he := Lookup(table, f.handlerOffset + f.handlerLength);
    var fb := Lookup(table, f.tokenOrFilter);
    if tb == null || te == null || hb == null || he == null || (IsFilter(f.flags) && fb == null) {
      return None;
    }
    ghost var c := ImportClause(raws, size, f).value;
    ghost var end := InstrAt(raws, size, f.handlerOffset + f.handlerLength).value;
    BeforeNode(nodes, sentinel, end);
    n := Some(NodeClause(f.flags, tb, te, hb, he.prev, if IsFilter(f.flags) then NodeFilter(fb) else NodeToken(f.tokenOrFilter)));
  }

  ghost predicate AllStand(nodes: seq<ILInstr>, sentinel: ILInstr, ns: seq<NodeClause>, cs: seq<Clause>) {
    |ns| == |cs| && forall i {:trigger ns[i]} :: 0 <= i < |ns| ==> Stands(nodes, sentinel, ns[i], cs[i])
  }

  predicate ClausesResolve(raws: seq<Raw>, size: nat, fs: seq<FatClause>) {
    forall i {:trigger fs[i]} :: 0 <= i < |fs| ==> ImportClause(raws, size, fs[i]).Some?
  }

  function ImportClauses(raws: seq<Raw>, size: nat, fs: seq<FatClause>): (cs: seq<Clause>)
    requires ClausesResolve(raws, size, fs)
    ensures |cs| == |fs| && forall i :: 0 <= i < |fs| ==> cs[i] == ImportClause(raws, size, fs[i]).value
  {
    seq(|fs|, i requires 0 <= i < |fs| => ImportClause(raws, size, fs[i]).value)
  }

  /** ImportEH (il_rewriter.cpp:305-339); it fails where an offset hits no instruction, which the source asserts. */
  method ImportEH(rewriter: ILRewriter, table: array<ILInstr?>, fs: seq<FatClause>, ghost raws: seq<Raw>, ghost size: nat)
    returns (ok: bool, ns: seq<NodeClause>)
    requires rewriter.Valid() && table.Length == size + 1 && StartsBelow(raws, size)
    requires Tabled(table[..], rewriter.nodes, raws, rewriter.sentinel)
    ensures ok <==> ClausesResolve(raws, size, fs)
    ensures ok ==> AllStand(rewriter.nodes, rewriter.sentinel, ns, ImportClauses(raws, size, fs))
  {
    hide Tabled;
    hide Stands;
    hide ImportClause;
    hide Linked;
    ns := [];
    for i := 0 to |fs|
      invariant |ns| == i
      invariant forall j {:trigger fs[j]} :: 0 <= j < i ==>
                  && ImportClause(raws, size, fs[j]).Some?
                  && Stands(rewriter.nodes, rewriter.sentinel, ns[j], ImportClause(raws, size, fs[j]).value)
    {
      var n := ReadClause(rewriter, table, fs[i], raws, size);
      if n.None? {
        assert ImportClause(raws, size, fs[i]).None?;
        return false, [];
      }
      ns := ns + [n.value];
    }
    return true, ns;
  }

  /** The clause loop of Export (il_rewriter.cpp:566-584). */
  method ExportClauses(rewriter: ILRewriter, ns: seq<NodeClause>, ghost code: Code, ghost cs: seq<Clause>) returns (fs: seq<FatClause>)
    requires rewriter.Valid() && |rewriter.nodes| == |code| && AllStand(rewriter.nodes, rewriter.sentinel, ns, cs)
    requires Offsets(rewriter.nodes, code) && rewriter.sentinel.offset == CodeSize(code)
    ensures |fs| == |cs|
    ensures forall i :: 0 <= i < |cs| ==> ClauseOk(cs[i], |code|) && fs[i] == ExportClause(code, cs[i])
  {
    hide Stands;
    hide ExportClause;
    hide Linked;
    hide Offsets;
    fs := [];
    for i := 0 to |ns|
      invariant |fs| == i
      invariant forall j :: 0 <= j < i ==> ClauseOk(cs[j], |code|) && fs[j] == ExportClause(code, cs[j])
    {
      var f := WriteClause(rewriter, ns[i], code, cs[i]);
      fs := fs + [f];
    }
  }

  lemma BeforeNode(nodes: seq<ILInstr>, sentinel: ILInstr, p: nat)
    requires Linked(nodes, sentinel) && p <= |nodes|
    ensures NodeAt(nodes, sentinel, p).prev == NodeAt(nodes, sentinel, Prev(p, |nodes|)) && Prev(p, |nodes|) <= |nodes|
  {
    PrevAt(nodes, sentinel, p);
  }

  lemma AfterNode(nodes: seq<ILInstr>, sentinel: ILInstr, p: nat)
    requires Linked(nodes, sentinel) && p <= |nodes|
    ensures NodeAt(nodes, sentinel, p).next == NodeAt(nodes, sentinel, Next(p, |nodes|)) && Next(p, |nodes|) <= |nodes|
  {
    if p < |nodes| {
      NextOf(nodes, sentinel, p);
    } else {
      NextAt(nodes, sentinel, 0);
    }
  }

  // ---------- Export ----------

  /** One iteration of the clause loop of Export (il_rewriter.cpp:566-584). */
  method WriteClause(rewriter: ILRewriter, n: NodeClause, ghost code: Code, ghost c: Clause) returns (f: FatClause)
    requires rewriter.Valid() && |rewriter.nodes| == |code| && Stands(rewriter.nodes, rewriter.sentinel, n, c)
    requires Offsets(rewriter.nodes, code) && rewriter.sentinel.offset == CodeSize(code)
    ensures ClauseOk(c, |code|) && f == ExportClause(code, c)
  {
    hide Linked;
    hide NodeAt;
    hide Offsets;
    hide Offset;
    ghost var nodes, sentinel := rewriter.nodes, rewriter.sentinel;
    OffsetAt(nodes, sentinel, code, c.tryBegin);
    OffsetAt(nodes, sentinel, code, c.tryEnd);
    OffsetAt(nodes, sentinel, code, c.handlerBegin);
    AfterNode(nodes, sentinel, c.handlerLast);
    OffsetAt(nodes, sentinel, code, Next(c.handlerLast, |code|));
    if c.catch.FilterBegin? {
      OffsetAt(nodes, sentinel, code, c.catch.pos);
    }
    f := FatClause(n.flags, n.tryBegin.offset, n.tryEnd.offset - n.tryBegin.offset, n.handlerBegin.offset,
                   n.handlerEnd.next.offset - n.handlerBegin.offset,
                   match n.catch case NodeToken(t) => t case NodeFilter(p) => p.offset);
  }

  // ---------- Call replacement ----------

  /** The clause after the loop of one replacement. */
  ghost function SweptClause(code: Code, plan: Planner, c: Clause): (r: Clause)
    requires Ends(code, plan) && ClauseOk(c, |code|)
    ensures ClauseOk(r, |Swept(code, plan)|)
  {
    Clause(c.flags, SweptPos(code, plan, c.tryBegin), SweptPos(code, plan, c.tryEnd),
           SweptPos(code, plan, c.handlerBegin), SweptPos(code, plan, c.handlerLast),
           match c.catch
           case ClassToken(t) => ClassToken(t)
           case FilterBegin(p) => FilterBegin(SweptPos(code, plan, p)))
  }

  /** Nobody touches the clauses, yet they stand at the moved positions: the nodes carry them. */
  lemma {:induction false} ClausesFollow(
    was: seq<ILInstr>, now: seq<ILInstr>, sentinel: ILInstr, code: Code, plan: Planner, n: NodeClause, c: Clause)
    requires Stands(was, sentinel, n, c) && Followed(was, now, sentinel, code, plan) && |now| == |Swept(code, plan)|
    ensures ClauseOk(c, |code|) && Stands(now, sentinel, n, SweptClause(code, plan, c))
  {
    hide NodeAt;
    hide SweptPos;
    hide Swept;
  }

  lemma {:induction false} SweptClauseStep(code: Code, plan: Planner, c: Clause)
    requires Ends(code, plan) && ClauseOk(c, |code|)
    ensures var moved := MoveClause(code, plan, c);
            && ClauseOk(moved, |Rewrite(code, plan)|)
            && (LastChosen(code, plan) ==> Ends(Rewrite(code, plan), plan))
            && SweptClause(code, plan, c) ==
               if LastChosen(code, plan) then SweptClause(Rewrite(code, plan), plan, moved) else moved
  {
    hide SweptPos;
    hide LastChosen;
    hide Pos;
    hide Rewrite;
    SweptPosStep(code, plan, c.tryBegin);
    SweptPosStep(code, plan, c.tryEnd);
    SweptPosStep(code, plan, c.handlerBegin);
    SweptPosStep(code, plan, c.handlerLast);
    if c.catch.FilterBegin? {
      SweptPosStep(code, plan, c.catch.pos);
    }
  }
}
