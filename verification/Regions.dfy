/**
 Exception clauses: how they are read from byte offsets (ILRewriter::ImportEH, il_rewriter.cpp:305-339),
 how they are written back (il_rewriter.cpp:566-584), and what call replacement does to them. A
 clause points at instructions; the handler is kept by its last instruction, inclusive.
 */
module Regions {
  import opened Bytes
  import opened Opcodes
  import opened Layout
  import opened Codec
  import opened Replacement

  const FILTER_FLAG := 1

  /** The union member in use depends on the filter flag (il_rewriter.h:42-46). */
  datatype Catch = ClassToken(token: int) | FilterBegin(pos: nat)

  datatype Clause = Clause(flags: nat, tryBegin: nat, tryEnd: nat, handlerBegin: nat, handlerLast: nat, catch: Catch)

  /** A fat clause, as section II.25.4.6 of ECMA-335 lays it out. */
  datatype FatClause = FatClause(flags: nat, tryOffset: int, tryLength: int,
                                 handlerOffset: int, handlerLength: int, tokenOrFilter: int)

  predicate IsFilter(flags: nat) {
    flags % 2 == FILTER_FLAG
  }

  /** The list is circular through its sentinel, which stands at position `n`. */
  function Next(p: nat, n: nat): nat {
    if p >= n then 0 else p + 1
  }

  function Prev(p: nat, n: nat): nat {
    if p == 0 then n else p - 1
  }

  predicate ClauseOk(c: Clause, n: nat) {
    && c.tryBegin <= n && c.tryEnd <= n && c.handlerBegin <= n && c.handlerLast <= n
    && (c.catch.FilterBegin? <==> IsFilter(c.flags))
    && (c.catch.FilterBegin? ==> c.catch.pos <= n)
  }

  // ---------- Coverage ----------

  datatype Cover = Cover(inTry: bool, inFilter: bool, inHandler: bool)

  /** Which parts of the clause the instruction at `p` lies in, in a list of `n` instructions. */
  function CoverOf(c: Clause, n: nat, p: nat): Cover {
    Cover(c.tryBegin <= p < c.tryEnd,
          c.catch.FilterBegin? && c.catch.pos <= p < c.handlerBegin,
          c.handlerBegin <= p < Next(c.handlerLast, n))
  }

  function Covers(cs: seq<Clause>, n: nat, p: nat): (r: seq<Cover>)
    ensures |r| == |cs|
  {
    seq(|cs|, i requires 0 <= i < |cs| => CoverOf(cs[i], n, p))
  }

  lemma CoverAt(cs: seq<Clause>, n: nat, p: nat, j: nat)
    requires j < |cs|
    ensures Covers(cs, n, p)[j] == CoverOf(cs[j], n, p)
  {
  }

  /** Same flags, and the same class token where there is one. */
  predicate SameKind(c: Clause, d: Clause) {
    d.flags == c.flags && (c.catch.ClassToken? ==> d.catch == c.catch)
  }

  // ---------- Export and import ----------

  function ExportClause(code: Code, c: Clause): FatClause
    requires ClauseOk(c, |code|)
  {
    FatClause(c.flags,
              Offset(code, c.tryBegin),
              Offset(code, c.tryEnd) - Offset(code, c.tryBegin),
              Offset(code, c.handlerBegin),
              Offset(code, Next(c.handlerLast, |code|)) - Offset(code, c.handlerBegin),
              match c.catch
              case ClassToken(t) => t
              case FilterBegin(p) => Offset(code, p))
  }

  /** Null where an offset hits no instruction. */
  function ImportClause(raws: seq<Raw>, size: nat, f: FatClause): (r: Option<Clause>) {
    var tb := InstrAt(raws, size, f.tryOffset);
    var te := InstrAt(raws, size, f.tryOffset + f.tryLength);
    var hb := InstrAt(raws, size, f.handlerOffset);
    var he := InstrAt(raws, size, f.handlerOffset + f.handlerLength);
    var fb := InstrAt(raws, size, f.tokenOrFilter);
    if tb.None? || te.None? || hb.None? || he.None? || (IsFilter(f.flags) && fb.None?) then None
    else Some(Clause(f.flags, tb.value, te.value, hb.value, Prev(he.value, |raws|),
                     if IsFilter(f.flags) then FilterBegin(fb.value) else ClassToken(f.tokenOrFilter)))
  }

  predicate StartsInstr(code: Code, p: nat) {
    p == |code| || (p < |code| && code[p].op != SWITCH_ARG)
  }

  /** Every boundary of the clause is the start of an instruction, so that import can find it again. */
  predicate BoundariesOk(code: Code, c: Clause) {
    && ClauseOk(c, |code|)
    && StartsInstr(code, c.tryBegin) && StartsInstr(code, c.tryEnd)
    && StartsInstr(code, c.handlerBegin) && StartsInstr(code, Next(c.handlerLast, |code|))
    && (c.catch.FilterBegin? ==> StartsInstr(code, c.catch.pos))
  }

  /** A clause that is exported and imported again points at the same instructions. */
  lemma {:induction false} ClauseRoundTrip(code: Code, c: Clause)
    requires Closed(code) && BoundariesOk(code, c)
    ensures ImportClause(Raws(code, 0), CodeSize(code), ExportClause(code, c)) == Some(c)
  {
    hide Offset;
    hide InstrAt;
    hide Raws;
    hide Closed;
    ResolvesOffset(code, c.tryBegin);
    ResolvesOffset(code, c.tryEnd);
    ResolvesOffset(code, c.handlerBegin);
    ResolvesOffset(code, Next(c.handlerLast, |code|));
    if c.catch.FilterBegin? {
      ResolvesOffset(code, c.catch.pos);
    }
  }

  predicate ByteIn(o: int, begin: int, length: int) {
    begin <= o < begin + length
  }

  lemma {:induction false} OffsetOrder(code: Code, i: nat, j: nat)
    requires i <= |code| && j <= |code|
    ensures Offset(code, i) < Offset(code, j) <==> i < j
  {
    if i < j {
      OffsetSpan(code, i, j);
    } else {
      OffsetSpan(code, j, i);
    }
  }

  /** The exported byte ranges cover the instructions that the clause covers, and no others. */
  lemma {:induction false} ExportedRangesExact(code: Code, c: Clause, p: nat)
    requires ClauseOk(c, |code|) && p < |code|
    ensures var f := ExportClause(code, c); var o := Offset(code, p); var k := CoverOf(c, |code|, p);
            && (ByteIn(o, f.tryOffset, f.tryLength) <==> k.inTry)
            && (ByteIn(o, f.handlerOffset, f.handlerLength) <==> k.inHandler)
            && (c.catch.FilterBegin? ==> (f.tokenOrFilter <= o < f.handlerOffset <==> k.inFilter))
  {
    OffsetOrder(code, p, c.tryBegin);
    OffsetOrder(code, p, c.tryEnd);
    OffsetOrder(code, p, c.handlerBegin);
    OffsetOrder(code, p, Next(c.handlerLast, |code|));
    hide Offset;
    if c.catch.FilterBegin? {
      OffsetOrder(code, p, c.catch.pos);
    }
  }

  // ---------- Call replacement ----------

  /** The clause after the pass: its pointers are unchanged, so its positions follow the nodes. */
  function MoveClause(code: Code, plan: Planner, c: Clause): (r: Clause)
    requires ClauseOk(c, |code|)
  {
    Clause(c.flags, Pos(code, plan, c.tryBegin), Pos(code, plan, c.tryEnd),
           Pos(code, plan, c.handlerBegin), Pos(code, plan, c.handlerLast),
           match c.catch
           case ClassToken(t) => ClassToken(t)
           case FilterBegin(p) => FilterBegin(Pos(code, plan, p)))
  }

  /** Position `Pos(i) + k` of block `i` is before the node of `b` exactly when `i` is before `b`. */
  lemma {:induction false} BlockOrder(code: Code, plan: Planner, i: nat, k: nat, b: nat)
    requires i < |code| && k < |BlockAt(code, plan, i)| && b <= |code|
    ensures Pos(code, plan, i) + k < Pos(code, plan, b) <==> i < b
  {
    if i < b {
      PosGrows(code, plan, i, b);
    } else {
      PosGrows(code, plan, b, i);
    }
  }

  /**
   Every instruction of a block lies in the try and filter ranges of the instruction it came from.
   It lies in the same handler ranges too, except where that instruction ends the handler: then
   everything spliced in after it falls outside.
   */
  lemma {:induction false} BlockKeepsCover(code: Code, plan: Planner, c: Clause, i: nat, k: nat)
    requires ClauseOk(c, |code|) && i < |code| && k < |BlockAt(code, plan, i)|
    ensures var n := Pos(code, plan, |code|); var c' := MoveClause(code, plan, c);
            && ClauseOk(c', n)
            && var was, now := CoverOf(c, |code|, i), CoverOf(c', n, Pos(code, plan, i) + k);
            && now.inTry == was.inTry && now.inFilter == was.inFilter
            && (now.inHandler == was.inHandler <==>
                  !(c.handlerBegin <= i && c.handlerLast == i && k > 0))
  {
    PosGrows(code, plan, c.tryBegin, |code|);
    PosGrows(code, plan, c.tryEnd, |code|);
    PosGrows(code, plan, c.handlerBegin, |code|);
    PosGrows(code, plan, c.handlerLast, |code|);
    BlockOrder(code, plan, i, k, c.tryBegin);
    BlockOrder(code, plan, i, k, c.tryEnd);
    BlockOrder(code, plan, i, k, c.handlerBegin);
    BlockOrder(code, plan, i, k, c.handlerLast);
    if c.catch.FilterBegin? {
      PosGrows(code, plan, c.catch.pos, |code|);
      BlockOrder(code, plan, i, k, c.catch.pos);
    }
    if c.handlerLast < i {
      PosGrows(code, plan, c.handlerLast, i);
    }
    hide Pos;
    hide BlockAt;
  }

  function MoveClauses(code: Code, plan: Planner, cs: seq<Clause>): (r: seq<Clause>)
    requires forall i :: 0 <= i < |cs| ==> ClauseOk(cs[i], |code|)
    ensures |r| == |cs|
  {
    seq(|cs|, i requires 0 <= i < |cs| => MoveClause(code, plan, cs[i]))
  }

  /** The call at `i` is not the last instruction of any handler. */
  predicate NotHandlerEnd(cs: seq<Clause>, i: nat) {
    forall j :: 0 <= j < |cs| ==> cs[j].handlerLast != i
  }

  lemma {:induction false} CoversKept(code: Code, plan: Planner, cs: seq<Clause>, i: nat, k: nat)
    requires forall j :: 0 <= j < |cs| ==> ClauseOk(cs[j], |code|)
    requires i < |code| && k < |BlockAt(code, plan, i)| && (k == 0 || NotHandlerEnd(cs, i))
    ensures Covers(MoveClauses(code, plan, cs), Pos(code, plan, |code|), Pos(code, plan, i) + k)
            == Covers(cs, |code|, i)
  {
    hide CoverOf;
    hide Pos;
    forall j | 0 <= j < |cs|
      ensures CoverOf(MoveClause(code, plan, cs[j]), Pos(code, plan, |code|), Pos(code, plan, i) + k)
              == CoverOf(cs[j], |code|, i)
    {
      BlockKeepsCover(code, plan, cs[j], i, k);
    }
  }
}
