/** Which statements leave the block they are lowered into. */
module LoweringEnds {
  import opened Hir
  import opened Lowering
  import opened LoweringGrowth
  import opened Scoping
  import Source

  /** Lowering a statement ends the current block exactly when the statement leaves. */
  lemma {:induction false} EndsIs(s: Source.Stmt, st: Builder)
    requires st.Ready() && LoopsIn(st) && Accepted(s, st.loops != [])
    ensures LowerStmt(s, st).Terminated() <==> Ends(s)
    decreases s, 0
  {
    match s
    case Let(v, e) => BindEndsNot(v, e, st);
    case Assign(v, e) => BindEndsNot(v, e, st);
    case Print(e) => ExprGrows(e, st);
    case ExprStmt(e) => ExprGrows(e, st);
    case If(c, t, els) => var r := IfGrows(c, t, els, st);
    case While(c, b) => var r := WhileGrows(c, b, st);
    case Block(ss) => AllEnds(ss, st);
    case Break =>
    case Continue =>
    case Return(e) =>
  }

  lemma BindEndsNot(v: Hir.Var, e: Source.Expr, st: Builder)
    requires st.Ready()
    ensures var (s1, o) := LowerExpr(e, st); !BindLocal(s1, v, o).Terminated()
  {
    ExprGrows(e, st);
  }

  lemma {:induction false} AllEnds(ss: seq<Source.Stmt>, st: Builder)
    requires st.Ready() && LoopsIn(st) && AllAccepted(ss, st.loops != [])
    ensures LowerAll(ss, st).Terminated() <==> exists i :: 0 <= i < |ss| && Ends(ss[i])
    decreases ss, 1
  {
    if ss != [] {
      EndsIs(ss[0], st);
      var s1 := LowerStmt(ss[0], st);
      if s1.Ready() {
        AllEnds(ss[1..], s1);
        if exists i :: 0 <= i < |ss| && Ends(ss[i]) {
          var i :| 0 <= i < |ss| && Ends(ss[i]);
          assert ss[1..][i - 1] == ss[i];
        }
      } else {
        assert LowerAll(ss[1..], s1) == s1;
      }
    }
  }
}
