/**
 Exception clauses through the whole chain of import, rewriting and export: their boundaries stay
 instruction starts, so the output imports again, clauses included.
 */
module RegionChain {
  import opened Bytes
  import opened Opcodes
  import opened Layout
  import opened Codec
  import opened Decoding
  import opened Replacement
  import opened Regions
  import opened Sweeps
  import opened RewrittenForm
  import opened StackMachine
  import opened Simulation
  import opened Preservation
  import opened ClausePass
  import opened Acceptance
  import opened SiteConditions
  import opened Pipeline

  // ---------- Import ----------

  /** Whatever an offset resolves to is the start of an instruction. */
  lemma {:induction false} ResolvedStarts(b: seq<byte>, off: int)
    requires Import(b).Some? && ReadFrom(b, 0).Ok?
    ensures var at := InstrAt(ReadFrom(b, 0).value, |b|, off);
            at.Some? ==> StartsInstr(Import(b).value, at.value)
  {
    ImportAgrees(b);
    var raws, code := ReadFrom(b, 0).value, Import(b).value;
    Walk(b, raws, code, 0);
    var at := InstrAt(raws, |b|, off);
    hide Import;
    hide ReadFrom;
    hide TablesOk;
    hide RawOk;
    if at.Some? && at.value < |code| {
      assert raws[at.value].start == off;
      assert ReadAs(raws[at.value], Offset(code, at.value));
      AgreeAt(raws, code, at.value);
    }
  }

  lemma FrontStarts(code: Code)
    requires WellFormed(code)
    ensures StartsInstr(code, 0)
  {
  }

  lemma {:induction false} ImportedBoundaries(b: seq<byte>, f: FatClause)
    requires Import(b).Some? && ReadFrom(b, 0).Ok? && ImportClause(ReadFrom(b, 0).value, |b|, f).Some?
    ensures BoundariesOk(Import(b).value, ImportClause(ReadFrom(b, 0).value, |b|, f).value)
  {
    hide *;
    ImportWellFormed(b);
    FrontStarts(Import(b).value);
    ResolvedStarts(b, f.tryOffset);
    ResolvedStarts(b, f.tryOffset + f.tryLength);
    ResolvedStarts(b, f.handlerOffset);
    ResolvedStarts(b, f.handlerOffset + f.handlerLength);
    ResolvedStarts(b, f.tokenOrFilter);
    SameCount(b);
    BoundariesFrom(Import(b).value, ReadFrom(b, 0).value, |b|, f);
  }

  lemma BoundariesFrom(code: Code, raws: seq<Raw>, size: nat, f: FatClause)
    requires |raws| == |code| && StartsInstr(code, 0) && ImportClause(raws, size, f).Some?
    requires InstrAt(raws, size, f.tryOffset).Some? ==> StartsInstr(code, InstrAt(raws, size, f.tryOffset).value)
    requires var end := InstrAt(raws, size, f.tryOffset + f.tryLength); end.Some? ==> StartsInstr(code, end.value)
    requires InstrAt(raws, size, f.handlerOffset).Some? ==> StartsInstr(code, InstrAt(raws, size, f.handlerOffset).value)
    requires var end := InstrAt(raws, size, f.handlerOffset + f.handlerLength); end.Some? ==> StartsInstr(code, end.value)
    requires InstrAt(raws, size, f.tokenOrFilter).Some? ==> StartsInstr(code, InstrAt(raws, size, f.tokenOrFilter).value)
    ensures BoundariesOk(code, ImportClause(raws, size, f).value)
  {
    hide InstrAt;
    hide StartsInstr;
  }

  lemma SameCount(b: seq<byte>)
    requires Import(b).Some? && ReadFrom(b, 0).Ok?
    ensures |ReadFrom(b, 0).value| == |Import(b).value|
  {
  }

  // ---------- Rewriting ----------

  lemma {:induction false} PosStarts(code: Code, plan: Planner, p: nat)
    requires p <= |code| && StartsInstr(code, p)
    ensures StartsInstr(Rewrite(code, plan), Pos(code, plan, p))
  {
    RewriteSize(code, plan, p);
    if p < |code| {
      TargetKept(code, plan, p);
    }
  }

  /** The end of a handler, one behind the node of its last instruction. */
  lemma {:induction false} EndStarts(code: Code, plan: Planner, last: nat)
    requires WellFormed(code) && PlanFits(plan) && last <= |code| && StartsInstr(code, Next(last, |code|))
    ensures StartsInstr(Rewrite(code, plan), Next(Pos(code, plan, last), |Rewrite(code, plan)|))
  {
    hide *;
    RewriteSize(code, plan, last);
    if last == |code| {
      RewriteWellFormed(code, plan);
      FrontStarts(Rewrite(code, plan));
      NextIs(Pos(code, plan, last), |Rewrite(code, plan)|);
    } else {
      NextIs(last, |code|);
      PosAfter(code, plan, last);
      BlockNotEmpty(code, plan, last);
      RewriteSize(code, plan, last + 1);
      NextIs(Pos(code, plan, last), |Rewrite(code, plan)|);
      if Chosen(code, plan, last) {
        ChosenLong(code, plan, last);
        RewrittenSound(code, plan, last, 1);
        SoundOp(Rewrite(code, plan)[Pos(code, plan, last) + 1]);
        InsideStarts(Rewrite(code, plan), Pos(code, plan, last) + 1);
      } else {
        OneBlock(code, plan, last);
        PosStarts(code, plan, last + 1);
      }
    }
  }

  lemma NextIs(p: nat, n: nat)
    ensures Next(p, n) == if p >= n then 0 else p + 1
  {
  }

  lemma BlockNotEmpty(code: Code, plan: Planner, i: nat)
    requires i < |code|
    ensures |BlockAt(code, plan, i)| >= 1
  {
  }

  lemma ChosenLong(code: Code, plan: Planner, i: nat)
    requires i < |code| && Chosen(code, plan, i)
    ensures |BlockAt(code, plan, i)| >= 5
  {
  }

  lemma InsideStarts(code: Code, p: nat)
    requires p < |code| && code[p].op != SWITCH_ARG
    ensures StartsInstr(code, p)
  {
  }

  lemma {:induction false} MovedBoundaries(code: Code, plan: Planner, c: Clause)
    requires WellFormed(code) && PlanFits(plan) && BoundariesOk(code, c)
    ensures BoundariesOk(Rewrite(code, plan), MoveClause(code, plan, c))
  {
    PosStarts(code, plan, c.tryBegin);
    PosStarts(code, plan, c.tryEnd);
    PosStarts(code, plan, c.handlerBegin);
    EndStarts(code, plan, c.handlerLast);
    RewriteSize(code, plan, c.handlerLast);
    if c.catch.FilterBegin? {
      PosStarts(code, plan, c.catch.pos);
      RewriteSize(code, plan, c.catch.pos);
    }
    RewriteSize(code, plan, c.tryBegin);
    RewriteSize(code, plan, c.tryEnd);
    RewriteSize(code, plan, c.handlerBegin);
    hide Rewrite;
    hide Pos;
    hide StartsInstr;
    hide Next;
    hide WellFormed;
  }

  ghost predicate BodyBoundaries(b: Body) {
    BodyOk(b) && WellFormed(b.code) && forall i :: 0 <= i < |b.clauses| ==> BoundariesOk(b.code, b.clauses[i])
  }

  lemma {:induction false} PassBoundaries(b: Body, plan: Planner)
    requires BodyBoundaries(b) && PlanFits(plan)
    ensures BodyBoundaries(RewriteBody(b, plan))
  {
    var r := RewriteBody(b, plan);
    RewriteWellFormed(b.code, plan);
    hide WellFormed;
    hide Rewrite;
    hide BoundariesOk;
    hide MoveClause;
    forall i | 0 <= i < |r.clauses|
      ensures BoundariesOk(r.code, r.clauses[i])
    {
      MovedBoundaries(b.code, plan, b.clauses[i]);
    }
  }

  lemma {:induction false} PassesBoundaries(b: Body, passes: seq<Planner>)
    requires BodyBoundaries(b) && forall k :: 0 <= k < |passes| ==> PlanFits(passes[k])
    ensures BodyBoundaries(RewriteAll(b, passes))
    decreases |passes|
  {
    hide BodyBoundaries;
    hide PlanFits;
    if passes != [] {
      BoundariesBody(b);
      PassBoundaries(b, passes[0]);
      BoundariesBody(RewriteBody(b, passes[0]));
      PassesBoundaries(RewriteBody(b, passes[0]), passes[1..]);
    } else {
      BoundariesBody(b);
    }
  }

  lemma BoundariesBody(b: Body)
    requires BodyBoundaries(b)
    ensures BodyOk(b) && WellFormed(b.code)
  {
  }

  lemma {:induction false} SweepPassesOf(code: Code, plan: Planner)
    requires Ends(code, plan)
    ensures forall k :: 0 <= k < |SweepPasses(code, plan)| ==> SweepPasses(code, plan)[k] == plan
    decreases Rounds(code, plan)
  {
    hide Ends;
    if LastChosen(code, plan) {
      NextRound(code, plan);
      SweepPassesOf(Rewrite(code, plan), plan);
    }
  }

  /** Every pass that the loops amount to is a pass of one of the plans. */
  lemma {:induction false} AllPassesOf(code: Code, plans: seq<Planner>)
    requires EndsAll(code, plans)
    ensures PassesOf(AllPasses(code, plans), plans)
    decreases |plans|
  {
    if plans != [] {
      var first, rest := SweepPasses(code, plans[0]), AllPasses(Swept(code, plans[0]), plans[1..]);
      SweepPassesOf(code, plans[0]);
      AllPassesOf(Swept(code, plans[0]), plans[1..]);
      forall j | 0 <= j < |first + rest|
        ensures IsPlan((first + rest)[j], plans)
      {
        if j >= |first| {
          var k := PassIs(rest, plans[1..], j - |first|);
          assert (first + rest)[j] == plans[k + 1];
        } else {
          assert (first + rest)[j] == plans[0];
        }
      }
    }
  }

  lemma PassesFit(passes: seq<Planner>, plans: seq<Planner>)
    requires PassesOf(passes, plans) && PlansFit(plans)
    ensures forall k :: 0 <= k < |passes| ==> PlanFits(passes[k])
  {
    hide PlanFits;
    forall j | 0 <= j < |passes|
      ensures PlanFits(passes[j])
    {
      var k := PassIs(passes, plans, j);
    }
  }

  // ---------- Export and import again ----------

  lemma {:induction false} WideBoundaries(code: Code, wide: Code, c: Clause)
    requires Widening(code, wide) && BoundariesOk(code, c)
    ensures BoundariesOk(wide, c)
  {
    hide Offset;
  }

  /** A body whose settled layout is stored imports again: the same code and the same clauses. */
  lemma {:induction false} BodyReadsBack(body: Body, out: Stored, maxStack: int)
    requires BodyBoundaries(body) && BodyOk(body) && StoredAs(out, body, maxStack) && CodeSize(Settle(body.code)) < 0x8000_0000
    ensures var wide := Settle(body.code);
            && Widening(body.code, wide) && Decode(out.bytes) == Ok(Imported(wide)) && Resolvable(Imported(wide))
            && ImportBody(out.bytes, out.clauses) == Some(Body(AsCode(Imported(wide)), body.clauses))
  {
    var code, wide := body.code, Settle(body.code);
    ExportImportRoundTrip(code);
    WideWellFormed(code, wide);
    SettledRaws(wide);
    var bytes, raws, fats := Encode(wide), Raws(wide, 0), out.clauses;
    assert Closed(wide) && |bytes| == CodeSize(wide);
    assert out.bytes == bytes && |fats| == |body.clauses|;
    assert forall i :: 0 <= i < |fats| ==> ClauseOk(body.clauses[i], |wide|) && fats[i] == ExportClause(wide, body.clauses[i]);
    hide *;
    ImportedResolves(wide);
    ImportIs(bytes);
    forall i {:trigger fats[i]} | 0 <= i < |fats|
      ensures ImportClause(raws, |bytes|, fats[i]) == Some(body.clauses[i])
    {
      BodyClause(body, i);
      WideBoundaries(code, wide, body.clauses[i]);
      ClauseRoundTrip(wide, body.clauses[i]);
    }
    ClausesBack(raws, |bytes|, fats, body.clauses);
    ImportBodyIs(bytes, fats);
    ImportBodyHas(bytes, fats);
  }

  lemma BodyClause(body: Body, i: nat)
    requires BodyBoundaries(body) && i < |body.clauses|
    ensures BoundariesOk(body.code, body.clauses[i])
  {
  }

  lemma ClausesBack(raws: seq<Raw>, size: nat, fats: seq<FatClause>, cs: seq<Clause>)
    requires |fats| == |cs| && forall i {:trigger fats[i]} :: 0 <= i < |fats| ==> ImportClause(raws, size, fats[i]) == Some(cs[i])
    ensures ClausesResolve(raws, size, fats) && ImportClauses(raws, size, fats) == cs
  {
    hide ImportClause;
  }

  lemma ImportBodyHas(b: seq<byte>, fats: seq<FatClause>)
    requires Import(b).Some? && ReadFrom(b, 0).Ok? && ClausesResolve(ReadFrom(b, 0).value, |b|, fats)
    ensures ImportBody(b, fats) == Some(Body(Import(b).value, ImportClauses(ReadFrom(b, 0).value, |b|, fats)))
  {
  }

  lemma {:induction false} WideWellFormed(code: Code, wide: Code)
    requires WellFormed(code) && Widening(code, wide) && Closed(wide)
    ensures WellFormed(wide)
  {
    TablesWiden(code, wide, 0);
    hide TablesOk;
  }

  lemma {:induction false} SettledRaws(wide: Code)
    requires WellFormed(wide) && Closed(wide) && Settled(wide) && CodeSize(wide) < 0x8000_0000
    ensures ReadFrom(Encode(wide), 0) == Ok(Raws(wide, 0))
  {
    ReadsFrom(wide, 0);
    assert Offset(wide, 0) == 0;
  }

  lemma ImportedResolves(code: Code)
    ensures Resolvable(Imported(code))
  {
    hide KindOf;
  }

  /**
   Whatever is written for a body that could be imported can be imported again: the instrumented
   code, short branches widened where they had to be, and every clause at its instructions.
   */
  lemma {:induction false} OutputReadsBack(held: Stored, plans: seq<Planner>, out: Stored, maxStack: int)
    requires ImportBody(held.bytes, held.clauses).Some? && BodyOk(ImportBody(held.bytes, held.clauses).value)
    requires EndsAll(ImportBody(held.bytes, held.clauses).value.code, plans) && PlansFit(plans)
    requires var body := Instrumented(ImportBody(held.bytes, held.clauses).value, plans);
             StoredAs(out, body, maxStack) && CodeSize(Settle(body.code)) < 0x8000_0000
    ensures var body := Instrumented(ImportBody(held.bytes, held.clauses).value, plans); var wide := Settle(body.code);
            && Widening(body.code, wide)
            && ImportBody(out.bytes, out.clauses) == Some(Body(AsCode(Imported(wide)), body.clauses))
  {
    var start := ImportBody(held.bytes, held.clauses).value;
    var body := Instrumented(start, plans);
    assert body == RewriteAll(start, AllPasses(start.code, plans));
    StartBoundaries(held.bytes, held.clauses);
    AllPassesOf(start.code, plans);
    hide *;
    PassesFit(AllPasses(start.code, plans), plans);
    PassesBoundaries(start, AllPasses(start.code, plans));
    BodyReadsBack(body, out, maxStack);
  }

  lemma {:induction false} StartBoundaries(b: seq<byte>, fats: seq<FatClause>)
    requires ImportBody(b, fats).Some?
    ensures BodyBoundaries(ImportBody(b, fats).value)
  {
    ImportBodyIs(b, fats);
    ImportBodyOk(b, fats);
    var body := ImportBody(b, fats).value;
    hide BoundariesOk;
    hide ImportClause;
    hide WellFormed;
    hide BodyOk;
    hide ReadFrom;
    hide Import;
    forall i | 0 <= i < |body.clauses|
      ensures BoundariesOk(body.code, body.clauses[i])
    {
      assert ImportClause(ReadFrom(b, 0).value, |b|, fats[i]).Some?;
      ImportedBoundaries(b, fats[i]);
    }
  }

  // ---------- Regions through the whole chain ----------

  lemma {:induction false} ResolvedOffset(b: seq<byte>, off: int)
    requires Import(b).Some? && ReadFrom(b, 0).Ok?
    ensures var at := InstrAt(ReadFrom(b, 0).value, |b|, off);
            at.Some? ==> at.value <= |Import(b).value| && Offset(Import(b).value, at.value) == off
  {
    ImportAgrees(b);
    var raws, code := ReadFrom(b, 0).value, Import(b).value;
    Walk(b, raws, code, 0);
    SameCount(b);
    var at := InstrAt(raws, |b|, off);
    hide Import;
    hide ReadFrom;
    hide TablesOk;
    hide RawOk;
    hide Offset;
    if at.Some? && off != |b| {
      assert raws[at.value].start == off && off >= 0;
      assert ReadAs(raws[at.value], Offset(code, at.value));
    }
  }

  lemma NextOfPrev(p: nat, n: nat)
    requires p <= n
    ensures Next(Prev(p, n), n) == p && Prev(p, n) <= n
  {
  }

  /** Exporting an imported clause gives the clause that was imported. */
  lemma {:induction false} ClauseExportAfterImport(b: seq<byte>, f: FatClause)
    requires Import(b).Some? && ReadFrom(b, 0).Ok? && ImportClause(ReadFrom(b, 0).value, |b|, f).Some?
    ensures var c := ImportClause(ReadFrom(b, 0).value, |b|, f).value;
            ClauseOk(c, |Import(b).value|) && ExportClause(Import(b).value, c) == f
  {
    hide *;
    SameCount(b);
    ResolvedOffset(b, f.tryOffset);
    ResolvedOffset(b, f.tryOffset + f.tryLength);
    ResolvedOffset(b, f.handlerOffset);
    ResolvedOffset(b, f.handlerOffset + f.handlerLength);
    ResolvedOffset(b, f.tokenOrFilter);
    ExportsBack(Import(b).value, ReadFrom(b, 0).value, |b|, f);
  }

  lemma ExportsBack(code: Code, raws: seq<Raw>, size: nat, f: FatClause)
    requires |raws| == |code| && ImportClause(raws, size, f).Some?
    requires InstrAt(raws, size, f.tryOffset).Some? ==>
               InstrAt(raws, size, f.tryOffset).value <= |code| && Offset(code, InstrAt(raws, size, f.tryOffset).value) == f.tryOffset
    requires var at := InstrAt(raws, size, f.tryOffset + f.tryLength);
             at.Some? ==> at.value <= |code| && Offset(code, at.value) == f.tryOffset + f.tryLength
    requires var at := InstrAt(raws, size, f.handlerOffset); at.Some? ==> at.value <= |code| && Offset(code, at.value) == f.handlerOffset
    requires var at := InstrAt(raws, size, f.handlerOffset + f.handlerLength);
             at.Some? ==> at.value <= |code| && Offset(code, at.value) == f.handlerOffset + f.handlerLength
    requires var at := InstrAt(raws, size, f.tokenOrFilter); at.Some? ==> at.value <= |code| && Offset(code, at.value) == f.tokenOrFilter
    ensures var c := ImportClause(raws, size, f).value; ClauseOk(c, |code|) && ExportClause(code, c) == f
  {
    hide InstrAt;
    hide Offset;
    hide Next;
    hide Prev;
    NextOfPrev(InstrAt(raws, size, f.handlerOffset + f.handlerLength).value, |code|);
  }

  /** Where instruction `i` stands after the passes. */
  ghost function PosAll(b: Body, passes: seq<Planner>, i: nat): (p: nat)
    requires BodyOk(b) && i <= |b.code|
    ensures p <= |RewriteAll(b, passes).code|
    ensures i < |b.code| ==> p < |RewriteAll(b, passes).code|
    decreases |passes|
  {
    if passes == [] then i
    else
      PosGrows(b.code, passes[0], i, |b.code|);
      PosAll(RewriteBody(b, passes[0]), passes[1..], Pos(b.code, passes[0], i))
  }

  lemma {:induction false} PassKeepsCovers(b: Body, plan: Planner, i: nat, k: nat)
    requires BodyOk(b) && i < |b.code| && k < |BlockAt(b.code, plan, i)| && (k == 0 || NotHandlerEnd(b.clauses, i))
    ensures var r := RewriteBody(b, plan);
            Covers(r.clauses, |r.code|, Pos(b.code, plan, i) + k) == Covers(b.clauses, |b.code|, i)
  {
    BodyParts(b, plan);
    RewriteLength(b.code, plan);
    hide RewriteBody;
    hide Pos;
    CoversKept(b.code, plan, b.clauses, i, k);
  }

  /** An original instruction keeps its regions through every pass. */
  lemma {:induction false} ImageKeepsCovers(b: Body, passes: seq<Planner>, i: nat)
    requires BodyOk(b) && i < |b.code|
    ensures var r := RewriteAll(b, passes);
            |r.clauses| == |b.clauses| && Covers(r.clauses, |r.code|, PosAll(b, passes, i)) == Covers(b.clauses, |b.code|, i)
    decreases |passes|
  {
    if passes != [] {
      var b' := RewriteBody(b, passes[0]);
      BodyParts(b, passes[0]);
      BlockNotEmpty(b.code, passes[0], i);
      PosGrows(b.code, passes[0], i, |b.code|);
      RewriteLength(b.code, passes[0]);
      PassKeepsCovers(b, passes[0], i, 0);
      ImageKeepsCovers(b', passes[1..], Pos(b.code, passes[0], i));
      hide RewriteBody;
      hide Covers;
      hide Pos;
    }
  }

  /** No pass rewrites the last instruction of a handler. */
  predicate ClearPasses(b: Body, passes: seq<Planner>)
    requires BodyOk(b)
    decreases |passes|
  {
    passes == [] ||
    ((forall i :: 0 <= i < |b.code| && Chosen(b.code, passes[0], i) ==> NotHandlerEnd(b.clauses, i)) &&
     ClearPasses(RewriteBody(b, passes[0]), passes[1..]))
  }

  lemma {:induction false} ClearFrom(b: Body, passes: seq<Planner>, plans: seq<Planner>)
    requires BodyOk(b) && HandlersClear(b, plans) && PassesOf(passes, plans)
    ensures ClearPasses(b, passes)
    decreases |passes|
  {
    if passes != [] {
      var k := PassIs(passes, plans, 0);
      forall i | 0 <= i < |b.code| && Chosen(b.code, passes[0], i)
        ensures NotHandlerEnd(b.clauses, i)
      {
        assert Matches(b.code[i], plans[k]) && AnyPlan(b.code[i], plans);
      }
      HandlersClearStep(b, passes[0], plans);
      hide HandlersClear;
      hide RewriteBody;
      PassesRest(passes, plans);
      ClearFrom(RewriteBody(b, passes[0]), passes[1..], plans);
    }
  }

  /**
   Every instruction of the rewritten body, original or inserted, lies in exactly the regions of the
   original instruction from whose call it comes.
   */
  lemma {:induction false} OriginKeepsCovers(b: Body, passes: seq<Planner>, q: nat) returns (i: nat)
    requires BodyOk(b) && ClearPasses(b, passes) && q < |RewriteAll(b, passes).code|
    ensures i < |b.code| && PosAll(b, passes, i) <= q < PosAll(b, passes, i + 1)
    ensures var r := RewriteAll(b, passes);
            |r.clauses| == |b.clauses| && Covers(r.clauses, |r.code|, q) == Covers(b.clauses, |b.code|, i)
    decreases |passes|
  {
    hide *;
    if passes == [] {
      i := q;
      NoPasses(b, q);
    } else {
      var plan := passes[0];
      var b' := RewriteBody(b, plan);
      BodyParts(b, plan);
      RewriteLength(b.code, plan);
      FirstPass(b, passes);
      var q' := OriginKeepsCovers(b', passes[1..], q);
      var k;
      i, k := BlockOf(b.code, plan, q', |b.code|);
      BlockBounds(b.code, plan, i, k);
      ClearHere(b, passes, i);
      PassKeepsCovers(b, plan, i, k);
      MovedCount(b.code, plan, b.clauses);
      BlockBounds(b.code, plan, i, k);
      PosAllGrows(b', passes[1..], Pos(b.code, plan, i), q');
      PosAllGrows(b', passes[1..], q' + 1, Pos(b.code, plan, i + 1));
      PosAllStep(b, passes, i);
      PosAllStep(b, passes, i + 1);
    }
  }

  lemma NoPasses(b: Body, q: nat)
    requires BodyOk(b)
    ensures RewriteAll(b, []) == b && (q < |b.code| ==> PosAll(b, [], q) == q && PosAll(b, [], q + 1) == q + 1)
  {
  }

  lemma FirstPass(b: Body, passes: seq<Planner>)
    requires BodyOk(b) && passes != []
    ensures RewriteAll(b, passes) == RewriteAll(RewriteBody(b, passes[0]), passes[1..])
    ensures ClearPasses(b, passes) ==> ClearPasses(RewriteBody(b, passes[0]), passes[1..])
  {
  }

  lemma ClearHere(b: Body, passes: seq<Planner>, i: nat)
    requires BodyOk(b) && passes != [] && ClearPasses(b, passes) && i < |b.code|
    ensures Chosen(b.code, passes[0], i) ==> NotHandlerEnd(b.clauses, i)
  {
  }

  lemma MovedCount(code: Code, plan: Planner, cs: seq<Clause>)
    requires forall i :: 0 <= i < |cs| ==> ClauseOk(cs[i], |code|)
    ensures |MoveClauses(code, plan, cs)| == |cs|
  {
  }

  lemma BlockBounds(code: Code, plan: Planner, i: nat, k: nat)
    requires i < |code| && k < |BlockAt(code, plan, i)|
    ensures Pos(code, plan, i) + k < Pos(code, plan, i + 1) <= Pos(code, plan, |code|)
    ensures k > 0 ==> Chosen(code, plan, i)
  {
    PosGrows(code, plan, i + 1, |code|);
  }

  lemma PosAllStep(b: Body, passes: seq<Planner>, i: nat)
    requires BodyOk(b) && i <= |b.code| && passes != []
    ensures Pos(b.code, passes[0], i) <= |RewriteBody(b, passes[0]).code|
    ensures PosAll(b, passes, i) == PosAll(RewriteBody(b, passes[0]), passes[1..], Pos(b.code, passes[0], i))
  {
    PosGrows(b.code, passes[0], i, |b.code|);
  }

  lemma {:induction false} PosAllGrows(b: Body, passes: seq<Planner>, i: nat, j: nat)
    requires BodyOk(b) && i <= j <= |b.code|
    ensures PosAll(b, passes, i) + (j - i) <= PosAll(b, passes, j)
    decreases |passes|
  {
    if passes != [] {
      PosGrows(b.code, passes[0], i, j);
      PosAllStep(b, passes, i);
      PosAllStep(b, passes, j);
      hide PosAll;
      hide RewriteBody;
      hide Pos;
      PosAllGrows(RewriteBody(b, passes[0]), passes[1..], Pos(b.code, passes[0], i), Pos(b.code, passes[0], j));
    }
  }

  /**
   The byte offset `o` lies in the same parts of clause `f` as `o'` in those of clause `g`: with the
   lowest flag bit set the clause has a filter range, otherwise it keeps its class token.
   */
  predicate SameRegions(f: FatClause, o: int, g: FatClause, o': int) {
    && g.flags == f.flags
    && (ByteIn(o, f.tryOffset, f.tryLength) <==> ByteIn(o', g.tryOffset, g.tryLength))
    && (ByteIn(o, f.handlerOffset, f.handlerLength) <==> ByteIn(o', g.handlerOffset, g.handlerLength))
    && (f.flags % 2 == 1 ==> (f.tokenOrFilter <= o < f.handlerOffset <==> g.tokenOrFilter <= o' < g.handlerOffset))
    && (f.flags % 2 == 0 ==> g.tokenOrFilter == f.tokenOrFilter)
  }

  lemma {:induction false} SameCoverSameRegions(code: Code, c: Clause, i: nat, wide: Code, d: Clause, q: nat)
    requires ClauseOk(c, |code|) && ClauseOk(d, |wide|) && i < |code| && q < |wide| && SameKind(c, d)
    requires CoverOf(d, |wide|, q) == CoverOf(c, |code|, i)
    ensures SameRegions(ExportClause(code, c), Offset(code, i), ExportClause(wide, d), Offset(wide, q))
  {
    ExportedRangesExact(code, c, i);
    ExportedRangesExact(wide, d, q);
    hide CoverOf;
    hide Offset;
    hide ByteIn;
  }

  lemma {:induction false} KindKept(b: Body, passes: seq<Planner>, j: nat)
    requires BodyOk(b) && j < |b.clauses|
    ensures |RewriteAll(b, passes).clauses| == |b.clauses| && SameKind(b.clauses[j], RewriteAll(b, passes).clauses[j])
    decreases |passes|
  {
    if passes != [] {
      BodyParts(b, passes[0]);
      assert RewriteBody(b, passes[0]).clauses[j] == MoveClause(b.code, passes[0], b.clauses[j]);
      KindKept(RewriteBody(b, passes[0]), passes[1..], j);
    }
  }

  /** One clause and one instruction of the stored body, against a written body in which they have their counterparts. */
  lemma {:induction false} RegionsAcross(held: Stored, after: Body, out: Stored, maxStack: int, j: nat, i: nat, q: nat)
    requires ImportBody(held.bytes, held.clauses).Some? && BodyOk(ImportBody(held.bytes, held.clauses).value)
    requires BodyOk(after) && StoredAs(out, after, maxStack)
    requires var body := ImportBody(held.bytes, held.clauses).value;
             && j < |held.clauses| == |body.clauses| == |after.clauses| && i < |body.code| && q < |after.code|
             && SameKind(body.clauses[j], after.clauses[j])
             && CoverOf(after.clauses[j], |after.code|, q) == CoverOf(body.clauses[j], |body.code|, i)
    ensures var body := ImportBody(held.bytes, held.clauses).value; var wide := Settle(after.code);
            && j < |out.clauses| && q < |wide|
            && SameRegions(held.clauses[j], Offset(body.code, i), out.clauses[j], Offset(wide, q))
  {
    var body := ImportBody(held.bytes, held.clauses).value;
    var wide := Settle(after.code);
    SettleWidens(after.code);
    assert |wide| == |after.code|;
    ImportBodyIs(held.bytes, held.clauses);
    assert ImportClause(ReadFrom(held.bytes, 0).value, |held.bytes|, held.clauses[j]).Some?;
    assert body.clauses[j] == ImportClause(ReadFrom(held.bytes, 0).value, |held.bytes|, held.clauses[j]).value;
    assert |out.clauses| == |after.clauses| && ClauseOk(after.clauses[j], |wide|);
    assert out.clauses[j] == ExportClause(wide, after.clauses[j]);
    hide *;
    ClauseExportAfterImport(held.bytes, held.clauses[j]);
    SameCoverSameRegions(body.code, body.clauses[j], i, wide, after.clauses[j], q);
  }

  lemma ClauseCount(held: Stored)
    requires ImportBody(held.bytes, held.clauses).Some?
    ensures |ImportBody(held.bytes, held.clauses).value.clauses| == |held.clauses|
  {
  }

  /**
   Regions survive import, all passes and export: for every clause, the byte offset of an original
   instruction lies in the stored try, handler or filter range if and only if the offset of its image
   lies in the one that is written.
   */
  lemma {:induction false} RegionsSurvive(held: Stored, plans: seq<Planner>, out: Stored, maxStack: int, j: nat, i: nat)
    requires ImportBody(held.bytes, held.clauses).Some? && BodyOk(ImportBody(held.bytes, held.clauses).value)
    requires EndsAll(ImportBody(held.bytes, held.clauses).value.code, plans)
    requires StoredAs(out, Instrumented(ImportBody(held.bytes, held.clauses).value, plans), maxStack)
    requires j < |held.clauses| && i < |ImportBody(held.bytes, held.clauses).value.code|
    ensures var body := ImportBody(held.bytes, held.clauses).value; var wide := Settle(Instrumented(body, plans).code);
            var q := PosAll(body, AllPasses(body.code, plans), i);
            && j < |out.clauses| && q < |wide|
            && SameRegions(held.clauses[j], Offset(body.code, i), out.clauses[j], Offset(wide, q))
  {
    var body := ImportBody(held.bytes, held.clauses).value;
    var passes := AllPasses(body.code, plans);
    assert Instrumented(body, plans) == RewriteAll(body, passes);
    hide *;
    ImageKeepsCovers(body, passes, i);
    var after, q := Instrumented(body, plans), PosAll(body, passes, i);
    ClauseCount(held);
    KindKept(body, passes, j);
    CoverAt(after.clauses, |after.code|, q, j);
    CoverAt(body.clauses, |body.code|, i, j);
    RegionsAcross(held, after, out, maxStack, j, i, q);
  }

  /**
   The same for every instruction that is written, inserted ones included, against the call it was
   inserted for, as long as no matching call of the stored body ends a handler.
   */
  lemma {:induction false} InsertedRegionsSurvive(held: Stored, plans: seq<Planner>, out: Stored, maxStack: int, j: nat, q: nat)
    returns (i: nat)
    requires ImportBody(held.bytes, held.clauses).Some? && BodyOk(ImportBody(held.bytes, held.clauses).value)
    requires EndsAll(ImportBody(held.bytes, held.clauses).value.code, plans)
    requires StoredAs(out, Instrumented(ImportBody(held.bytes, held.clauses).value, plans), maxStack)
    requires HandlersClear(ImportBody(held.bytes, held.clauses).value, plans) && j < |held.clauses|
    requires q < |Instrumented(ImportBody(held.bytes, held.clauses).value, plans).code|
    ensures var body := ImportBody(held.bytes, held.clauses).value; var wide := Settle(Instrumented(body, plans).code);
            var passes := AllPasses(body.code, plans);
            && i < |body.code| && PosAll(body, passes, i) <= q < PosAll(body, passes, i + 1)
            && j < |out.clauses| && q < |wide|
            && SameRegions(held.clauses[j], Offset(body.code, i), out.clauses[j], Offset(wide, q))
  {
    var body := ImportBody(held.bytes, held.clauses).value;
    var passes := AllPasses(body.code, plans);
    assert Instrumented(body, plans) == RewriteAll(body, passes);
    hide *;
    AllPassesOf(body.code, plans);
    ClearFrom(body, passes, plans);
    i := OriginKeepsCovers(body, passes, q);
    var after := Instrumented(body, plans);
    ClauseCount(held);
    KindKept(body, passes, j);
    CoverAt(after.clauses, |after.code|, q, j);
    CoverAt(body.clauses, |body.code|, i, j);
    RegionsAcross(held, after, out, maxStack, j, i, q);
  }
}
