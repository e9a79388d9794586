/** The two variables that only the final combiner declares: when a shader mentions them too
    early, so that it does not compile. */
module CombinerDeclared {
  import opened CombinerState
  import opened Hlsl
  import opened CombinerHlsl

  /** The colour sum and the product, which are declared before the final combiner. */
  predicate Late(r: Register) {
    r == REG_V1R0_SUM || r == REG_EF_PROD
  }

  predicate ExprMentions(e: Expr) {
    match e
    case Read(s, _) => s.Reg? && Late(s.n)
    case Var(_) => false
    case Const(_) => false
    case Plus(x, y) => ExprMentions(x) || ExprMentions(y)
    case Minus(x, y) => ExprMentions(x) || ExprMentions(y)
    case Times(x, y) => ExprMentions(x) || ExprMentions(y)
    case Neg(x) => ExprMentions(x)
    case Max0(x) => ExprMentions(x)
    case Saturate(x) => ExprMentions(x)
    case ClampOne(x) => ExprMentions(x)
    case DotXxx(x, y) => ExprMentions(x) || ExprMentions(y)
    case Blue(x) => ExprMentions(x)
    case MuxCd(x, y) => ExprMentions(x) || ExprMentions(y)
  }

  predicate StmtMentions(s: Stmt) {
    match s
    case Load(r, source) => Late(r) || (source.Reg? && Late(source.n))
    case Fetch(r, _) => Late(r)
    case SetMux(_) => false
    case Let(_, e) => ExprMentions(e)
    case SetRgb(r, e) => Late(r) || ExprMentions(e)
    case SetAlpha(r, e) => Late(r) || ExprMentions(e)
    case ResultRgb(e) => ExprMentions(e)
    case ResultAlpha(e) => ExprMentions(e)
    case Clear(r) => Late(r)
    case TestAlpha => false
  }

  predicate Mentions(p: Program) {
    if p == [] then false else Mentions(p[..|p| - 1]) || StmtMentions(p[|p| - 1])
  }

  lemma {:induction false} MentionsJoin(p: Program, q: Program)
    ensures Mentions(p + q) <==> Mentions(p) || Mentions(q)
  {
    if q == [] {
      assert p + q == p;
    } else {
      var k := |q| - 1;
      MentionsJoin(p, q[..k]);
      assert (p + q)[..|p| + k] == p + q[..k];
    }
  }

  lemma {:induction false} MentionsOne(s: Stmt)
    ensures Mentions([s]) <==> StmtMentions(s)
  {
    assert [s][..0] == [];
  }

  lemma {:induction false} InputMentions(i: Input, alpha: bool, c0: nat, c1: nat)
    ensures ExprMentions(MappedInput(i, alpha, c0, c1)) <==> Late(i.reg)
  {
    var v := Read(InputSource(i.reg, c0, c1), InputSwizzle(i.alphaRep, alpha));
    assert ExprMentions(v) <==> Late(i.reg);
    hide InputSource;
    hide InputSwizzle;
    assert ExprMentions(Max0(v)) == ExprMentions(v) == ExprMentions(Times(Const(2.0), Max0(v)));
  }

  lemma {:induction false} RgbReadsMention(g: Stage, c0: nat, c1: nat, n: nat)
    requires g.Valid() && n <= 4
    ensures Mentions(RgbReads(g, c0, c1, n)) <==> exists k {:trigger g.rgbInput[k]} :: 0 <= k < n && Late(g.rgbInput[k].reg)
  {
    hide MappedInput;
    if n > 0 {
      RgbReadsMention(g, c0, c1, n - 1);
      var s := Let(InRgb(n - 1), MappedInput(g.rgbInput[n - 1], false, c0, c1));
      MentionsJoin(RgbReads(g, c0, c1, n - 1), [s]);
      MentionsOne(s);
      InputMentions(g.rgbInput[n - 1], false, c0, c1);
    }
  }

  lemma {:induction false} AlphaReadsMention(g: Stage, c0: nat, c1: nat, n: nat)
    requires g.Valid() && n <= 4
    ensures Mentions(AlphaReads(g, c0, c1, n)) <==> exists k {:trigger g.alphaInput[k]} :: 0 <= k < n && Late(g.alphaInput[k].reg)
  {
    hide MappedInput;
    if n > 0 {
      AlphaReadsMention(g, c0, c1, n - 1);
      var s := Let(InAlpha(n - 1), MappedInput(g.alphaInput[n - 1], true, c0, c1));
      MentionsJoin(AlphaReads(g, c0, c1, n - 1), [s]);
      MentionsOne(s);
      InputMentions(g.alphaInput[n - 1], true, c0, c1);
    }
  }

  lemma {:induction false} WriteMentions(dst: Register, b: bool, l: Local)
    ensures Mentions(WriteRgb(dst, l)) <==> Late(dst)
    ensures Mentions(WriteAlpha(dst, l)) <==> Late(dst)
    ensures Mentions(WriteBlue(dst, b, l)) ==> Late(dst)
  {
    MentionsOne(SetRgb(RegName(dst), Var(l)));
    MentionsOne(SetAlpha(RegName(dst), Var(l)));
    MentionsOne(SetAlpha(RegName(dst), Blue(Var(l))));
    assert !ExprMentions(Blue(Var(l)));
    hide Mentions;
  }

  predicate OutputLate(o: Output) {
    Late(o.abDst) || Late(o.cdDst) || Late(o.sumDst)
  }

  lemma {:induction false} WritesMention(g: Stage)
    ensures Mentions(Writes(g)) <==> OutputLate(g.rgbOutput) || OutputLate(g.alphaOutput)
  {
    var o, a := g.rgbOutput, g.alphaOutput;
    var p1, p2 := WriteRgb(o.abDst, AbRgb), WriteBlue(o.abDst, o.abBlueToAlpha, AbRgb);
    var p3, p4 := WriteRgb(o.cdDst, CdRgb), WriteBlue(o.cdDst, o.cdBlueToAlpha, CdRgb);
    var p5, p6, p7, p8 := WriteRgb(o.sumDst, SumRgb), WriteAlpha(a.abDst, AbAlpha), WriteAlpha(a.cdDst, CdAlpha), WriteAlpha(a.sumDst, SumAlpha);
    WriteMentions(o.abDst, o.abBlueToAlpha, AbRgb);
    WriteMentions(o.cdDst, o.cdBlueToAlpha, CdRgb);
    WriteMentions(o.sumDst, false, SumRgb);
    WriteMentions(a.abDst, false, AbAlpha);
    WriteMentions(a.cdDst, false, CdAlpha);
    WriteMentions(a.sumDst, false, SumAlpha);
    hide WriteRgb;
    hide WriteBlue;
    hide WriteAlpha;
    hide Mentions;
    MentionsJoin(p1, p2);
    MentionsJoin(p1 + p2, p3);
    MentionsJoin(p1 + p2 + p3, p4);
    MentionsJoin(p1 + p2 + p3 + p4, p5);
    MentionsJoin(p1 + p2 + p3 + p4 + p5, p6);
    MentionsJoin(p1 + p2 + p3 + p4 + p5 + p6, p7);
    MentionsJoin(p1 + p2 + p3 + p4 + p5 + p6 + p7, p8);
  }

  lemma {:induction false} MentionsAll(p: Program)
    ensures Mentions(p) <==> exists i {:trigger p[i]} :: 0 <= i < |p| && StmtMentions(p[i])
  {
    if p != [] {
      var q := p[..|p| - 1];
      MentionsAll(q);
      assert forall i {:trigger q[i]} :: 0 <= i < |q| ==> q[i] == p[i];
      if i :| 0 <= i < |p| && StmtMentions(p[i]) {
        if i < |q| { assert StmtMentions(q[i]); }
      }
    }
  }

  lemma {:induction false} ProductsDoNot(g: Stage)
    ensures !Mentions(Products(g))
  {
    MentionsAll(Products(g));
    hide Mentions;
  }

  lemma {:induction false} MapLocalDoesNot(l: Local, m: OutputMapping)
    ensures !StmtMentions(MapLocal(l, m))
  {
    var v := Var(l);
    assert !ExprMentions(Minus(v, Const(0.5)));
    assert !ExprMentions(OutputMapped(m, v));
  }

  lemma {:induction false} MappingsDoNot(g: Stage)
    ensures !Mentions(Mappings(g))
  {
    var m, n := g.rgbOutput.outputMap, g.alphaOutput.outputMap;
    MapLocalDoesNot(AbRgb, m);
    MapLocalDoesNot(CdRgb, m);
    MapLocalDoesNot(SumRgb, m);
    MapLocalDoesNot(AbAlpha, n);
    MapLocalDoesNot(CdAlpha, n);
    MapLocalDoesNot(SumAlpha, n);
    MentionsAll(Mappings(g));
    hide Mentions;
    hide MapLocal;
  }

  /** A stage names one of them: as an input or as a destination. */
  predicate StageNames(g: Stage)
    requires g.Valid()
  {
    || (exists k {:trigger g.rgbInput[k]} :: 0 <= k < 4 && Late(g.rgbInput[k].reg))
    || (exists k {:trigger g.alphaInput[k]} :: 0 <= k < 4 && Late(g.alphaInput[k].reg))
    || OutputLate(g.rgbOutput) || OutputLate(g.alphaOutput)
  }

  lemma {:induction false} StageMentions(s: State, i: nat)
    requires s.Valid() && i < s.numStages
    ensures Mentions(StageProgram(s, i)) <==> StageNames(s.stages[i])
  {
    var g := s.stages[i];
    var c0 := if !s.count.known || s.count.uniqueC0 then i else 0;
    var c1 := if !s.count.known || s.count.uniqueC1 then i else 0;
    var p1, p2, p3, p4, p5, p6 := StageHead(s, c0, c1), RgbReads(g, c0, c1, 4), AlphaReads(g, c0, c1, 4), Products(g), Mappings(g), Writes(g);
    MentionsAll(p1);
    assert !Mentions(p1);
    RgbReadsMention(g, c0, c1, 4);
    AlphaReadsMention(g, c0, c1, 4);
    ProductsDoNot(g);
    MappingsDoNot(g);
    WritesMention(g);
    hide Mentions;
    hide StageHead;
    hide RgbReads;
    hide AlphaReads;
    hide Products;
    hide Mappings;
    hide Writes;
    MentionsJoin(p1, p2);
    MentionsJoin(p1 + p2, p3);
    MentionsJoin(p1 + p2 + p3, p4);
    MentionsJoin(p1 + p2 + p3 + p4, p5);
    MentionsJoin(p1 + p2 + p3 + p4 + p5, p6);
  }

  /** The stages of a shader mention a variable that is not declared yet exactly when some
      stage names register 14 or 15. */
  lemma {:induction false} UndeclaredIff(s: State, n: nat)
    requires s.Valid() && n <= s.numStages
    ensures Mentions(StagesProgram(s, n)) <==> exists i {:trigger s.stages[i]} :: 0 <= i < n && StageNames(s.stages[i])
  {
    hide StageProgram;
    hide StageNames;
    if n > 0 {
      UndeclaredIff(s, n - 1);
      MentionsJoin(StagesProgram(s, n - 1), StageProgram(s, n - 1));
      StageMentions(s, n - 1);
    }
  }
}
