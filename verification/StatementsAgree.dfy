/** Statements in both back ends: the two meanings go the same way unless the machine's fails, and it fails exactly
    when the native run evaluates an expression one of whose operands, needed or not, has no value. */
module StatementsAgree {
  import opened Wrappers
  import opened Scoping
  import opened VirtualMachine
  import opened ValueTypes
  import opened VmSource
  import BytecodeCorrect
  import Source

  /** The two meanings end alike, errors included where `exact`; the variables visible afterwards agree. When the
      machine's ends in an error, what it printed until then native code prints too. */
  ghost predicate FlowsAgree(r: Flow, q: Source.Flow, types: Types, visible: set<Source.Var>, after: set<Source.Var>,
                             exact: bool) {
    AllWords(r.out) &&
    match r
    case Next(v, o) => q.Next? && q.out == EraseAll(o) && Agrees(v, q.vars, types, after)
    case Broke(v, o) => q.Broke? && q.out == EraseAll(o) && Agrees(v, q.vars, types, visible)
    case Continued(v, o) => q.Continued? && q.out == EraseAll(o) && Agrees(v, q.vars, types, visible)
    case Returned(x, o) => q == Source.Returned(Erase(x), EraseAll(o)) && IsWord(x)
    case Trapped(o) => EraseAll(o) <= q.out && (exact ==> q == Source.Trapped(EraseAll(o)))
    case OutOfFuel(o) => q == Source.OutOfFuel(EraseAll(o))
  }

  /** Nothing that has been printed is taken back. */
  lemma {:induction false} OutputGrows(s: Source.Stmt, m: Source.Vars, out: seq<int>, params: seq<int>, fuel: nat)
    ensures out <= Source.Exec(s, m, out, params, fuel).out
    decreases fuel, s, 0
  {
    match s
    case If(_, t, els) =>
      OutputGrows(t, m, out, params, fuel);
      if els.Some? { OutputGrows(els.value, m, out, params, fuel); }
    case While(_, b) =>
      if fuel > 0 {
        OutputGrows(b, m, out, params, fuel - 1);
        var q := Source.Exec(b, m, out, params, fuel - 1);
        if q.Next? || q.Continued? { OutputGrows(s, q.vars, q.out, params, fuel - 1); }
      }
    case Block(ss) => AllOutputGrows(ss, m, out, params, fuel);
    case _ =>
  }

  lemma {:induction false} AllOutputGrows(ss: seq<Source.Stmt>, m: Source.Vars, out: seq<int>, params: seq<int>,
                                          fuel: nat)
    ensures out <= Source.ExecAll(ss, m, out, params, fuel).out
    decreases fuel, ss, 1
  {
    if ss != [] {
      OutputGrows(ss[0], m, out, params, fuel);
      var q := Source.Exec(ss[0], m, out, params, fuel);
      if q.Next? { AllOutputGrows(ss[1..], q.vars, q.out, params, fuel); }
    }
  }

  lemma {:induction false} VisibleGrows(s: Source.Stmt, sc: Scope)
    requires Check(s, sc).Some?
    ensures sc.visible <= Check(s, sc).value.visible
  {
  }

  lemma {:induction false} AllVisibleGrows(ss: seq<Source.Stmt>, sc: Scope)
    requires CheckAll(ss, sc).Some?
    ensures sc.visible <= CheckAll(ss, sc).value.visible
  {
    if ss != [] {
      VisibleGrows(ss[0], sc);
      AllVisibleGrows(ss[1..], Check(ss[0], sc).value);
    }
  }

  lemma StoreAgrees(v: Source.Var, e: Source.Expr, types: Types, sc: Scope, vars: Slots, m: Source.Vars,
                    out: seq<Value>, params: seq<int>, exact: bool)
    requires v < |vars| && (exact ==> ExprUnguarded(e)) && AllWords(out)
    requires v in types && Widens(TypeOf(e, types), types[v]) && ExprVars(e) <= sc.visible
    requires Agrees(vars, m, types, sc.visible)
    ensures var q := match Source.Eval(e, m, params)
                     case None => Source.Trapped(EraseAll(out))
                     case Some(x) => Source.Next(m[v := x], EraseAll(out));
            FlowsAgree(Store(v, VmSource.Eval(e, vars), vars, out), q, types, sc.visible, sc.visible + {v},
                       exact)
  {
    TakeAgrees(e, types, sc, vars, m, params, exact);
    if VmSource.Eval(e, vars).Some? {
      var x, y := VmSource.Eval(e, vars).value, Source.Eval(e, m, params).value;
      forall u | u in sc.visible + {v} ensures SlotAgrees(vars[v := x], m[v := y], types, u) {
        if u != v { assert SlotAgrees(vars, m, types, u); }
      }
    }
  }

  lemma {:induction false} StmtAgrees(s: Source.Stmt, types: Types, sc: Scope, vars: Slots, m: Source.Vars,
                                      out: seq<Value>, params: seq<int>, fuel: nat, exact: bool)
    requires Typed(s, types) && Check(s, sc).Some? && Agrees(vars, m, types, sc.visible)
    requires Fits(s, |vars|) && (exact ==> Unguarded(s)) && AllWords(out)
    ensures FlowsAgree(VmSource.Exec(s, vars, out, fuel), Source.Exec(s, m, EraseAll(out), params, fuel), types,
                       sc.visible, Check(s, sc).value.visible, exact)
    decreases fuel, s, 1
  {
    hide VmSource.Eval, Source.Eval, SlotAgrees, TypeOf, ExprUnguarded, ExprFits, Matches, Total;
    match s
    case Let(v, e) => StoreAgrees(v, e, types, sc, vars, m, out, params, exact);
    case Assign(v, e) =>
      StoreAgrees(v, e, types, sc, vars, m, out, params, exact);
      assert sc.visible + {v} == sc.visible;
    case Print(e) =>
      TakeAgrees(e, types, sc, vars, m, params, exact);
      if VmSource.Eval(e, vars).Some? {
        assert EraseAll(out + [VmSource.Eval(e, vars).value]) == EraseAll(out) + [Erase(VmSource.Eval(e, vars).value)];
      }
    case ExprStmt(e) => TakeAgrees(e, types, sc, vars, m, params, exact);
    case If(c, t, els) => IfAgrees(c, t, els, types, sc, vars, m, out, params, fuel, exact);
    case While(c, b) => LoopAgrees(c, b, types, sc, vars, m, out, params, fuel, exact);
    case Block(ss) =>
      BlockAgrees(ss, types, sc, vars, m, out, params, fuel, exact);
      AllVisibleGrows(ss, sc);
    case Break =>
    case Continue =>
    case Return(e) => TakeAgrees(e, types, sc, vars, m, params, exact);
  }

  lemma TakeAgrees(e: Source.Expr, types: Types, sc: Scope, vars: Slots, m: Source.Vars, params: seq<int>,
                   exact: bool)
    requires exact ==> ExprUnguarded(e)
    requires TypeOf(e, types).Some? && ExprVars(e) <= sc.visible && Agrees(vars, m, types, sc.visible)
    ensures VmSource.Eval(e, vars).Some? <==> Total(e, m)
    ensures VmSource.Eval(e, vars).Some? ==>
      var x, y := VmSource.Eval(e, vars).value, Source.Eval(e, m, params);
      && y.Some? && Matches(x, y.value, TypeOf(e, types).value) && (x.Truthy() <==> y.value != 0) && IsWord(x)
      && (Exact(e, types) ==> y.value == Erase(x))
    ensures exact && VmSource.Eval(e, vars).None? ==> Source.Eval(e, m, params).None?
  {
    ParamsDoNotMatter(e, m, params);
    ExprAgrees(e, types, vars, m);
    if exact { UnguardedTotal(e, types, m); }
  }

  lemma {:induction false} IfAgrees(c: Source.Expr, t: Source.Stmt, els: Option<Source.Stmt>, types: Types, sc: Scope,
                                    vars: Slots, m: Source.Vars, out: seq<Value>, params: seq<int>, fuel: nat,
                                    exact: bool)
    requires Fits(Source.If(c, t, els), |vars|) && (exact ==> Unguarded(Source.If(c, t, els))) && AllWords(out)
    requires var s := Source.If(c, t, els);
             Typed(s, types) && Check(s, sc).Some? && Agrees(vars, m, types, sc.visible)
    ensures var s := Source.If(c, t, els);
            FlowsAgree(VmSource.Exec(s, vars, out, fuel), Source.Exec(s, m, EraseAll(out), params, fuel), types,
                       sc.visible, sc.visible, exact)
    decreases fuel, Source.If(c, t, els), 0
  {
    hide TypeOf, ExprUnguarded, ExprFits, ExprVars, VmSource.Eval, Source.Eval, SlotAgrees, Matches, Total, Exact,
         Store, Source.AfterBody;
    TakeAgrees(c, types, sc, vars, m, params, exact);
    if VmSource.Eval(c, vars).None? {
      OutputGrows(Source.If(c, t, els), m, EraseAll(out), params, fuel);
    } else {
      var sc1 := Scope(sc.visible, Check(t, sc).value.declared);
      if VmSource.Eval(c, vars).value.Truthy() {
        StmtAgrees(t, types, sc, vars, m, out, params, fuel, exact);
        VisibleGrows(t, sc);
      } else if els.Some? {
        StmtAgrees(els.value, types, sc1, vars, m, out, params, fuel, exact);
        VisibleGrows(els.value, sc1);
      }
    }
  }

  lemma {:induction false} LoopAgrees(c: Source.Expr, b: Source.Stmt, types: Types, sc: Scope, vars: Slots,
                                      m: Source.Vars, out: seq<Value>, params: seq<int>, fuel: nat, exact: bool)
    requires Fits(Source.While(c, b), |vars|) && (exact ==> Unguarded(Source.While(c, b))) && AllWords(out)
    requires var s := Source.While(c, b);
             Typed(s, types) && Check(s, sc).Some? && Agrees(vars, m, types, sc.visible)
    ensures var s := Source.While(c, b);
            FlowsAgree(VmSource.Exec(s, vars, out, fuel), Source.Exec(s, m, EraseAll(out), params, fuel), types,
                       sc.visible, sc.visible, exact)
    decreases fuel, Source.While(c, b), 0
  {
    hide TypeOf, ExprUnguarded, ExprFits, ExprVars, VmSource.Eval, Source.Eval, SlotAgrees, Matches, Total, Exact,
         Store, EraseAll, Source.ExecAll;
    if fuel > 0 {
      TakeAgrees(c, types, sc, vars, m, params, exact);
      if VmSource.Eval(c, vars).None? {
        OutputGrows(Source.While(c, b), m, EraseAll(out), params, fuel);
      } else if VmSource.Eval(c, vars).value.Truthy() {
        StmtAgrees(b, types, sc, vars, m, out, params, fuel - 1, exact);
        VisibleGrows(b, sc);
        BytecodeCorrect.FrameKept(b, vars, out, fuel - 1);
        var r, q := VmSource.Exec(b, vars, out, fuel - 1), Source.Exec(b, m, EraseAll(out), params, fuel - 1);
        assert VmSource.Exec(Source.While(c, b), vars, out, fuel) == VmSource.AfterBody(r, Source.While(c, b), fuel);
        assert Source.Exec(Source.While(c, b), m, EraseAll(out), params, fuel)
            == Source.AfterBody(q, Source.While(c, b), params, fuel);
        if r.Next? || r.Continued? {
          LoopAgrees(c, b, types, sc, r.vars, q.vars, r.out, params, fuel - 1, exact);
        } else if q.Next? || q.Continued? {
          OutputGrows(Source.While(c, b), q.vars, q.out, params, fuel - 1);
        }
      }
    }
  }

  lemma {:induction false} BlockAgrees(ss: seq<Source.Stmt>, types: Types, sc: Scope, vars: Slots, m: Source.Vars,
                                       out: seq<Value>, params: seq<int>, fuel: nat, exact: bool)
    requires forall i :: 0 <= i < |ss| ==> Fits(ss[i], |vars|) && (exact ==> Unguarded(ss[i]))
    requires (forall i :: 0 <= i < |ss| ==> Typed(ss[i], types)) && CheckAll(ss, sc).Some?
    requires Agrees(vars, m, types, sc.visible) && AllWords(out)
    ensures FlowsAgree(VmSource.ExecAll(ss, vars, out, fuel), Source.ExecAll(ss, m, EraseAll(out), params, fuel), types,
                       sc.visible, CheckAll(ss, sc).value.visible, exact)
    decreases fuel, ss, 0
  {
    if ss != [] {
      StmtAgrees(ss[0], types, sc, vars, m, out, params, fuel, exact);
      VisibleGrows(ss[0], sc);
      BytecodeCorrect.FrameKept(ss[0], vars, out, fuel);
      var r, q := VmSource.Exec(ss[0], vars, out, fuel), Source.Exec(ss[0], m, EraseAll(out), params, fuel);
      if r.Next? {
        BlockAgrees(ss[1..], types, Check(ss[0], sc).value, r.vars, q.vars, r.out, params, fuel, exact);
      } else if q.Next? {
        AllOutputGrows(ss[1..], q.vars, q.out, params, fuel);
      }
    }
  }

  // ----- which runs the machine fails on -----

  /** Every expression that the native run evaluates is total. */
  predicate TotalRun(s: Source.Stmt, m: Source.Vars, params: seq<int>, fuel: nat)
    decreases fuel, s, 0
  {
    match s
    case Let(_, e) => Total(e, m)
    case Assign(_, e) => Total(e, m)
    case Print(e) => Total(e, m)
    case ExprStmt(e) => Total(e, m)
    case Return(e) => Total(e, m)
    case If(c, t, els) =>
      && Total(c, m)
      && (match (Source.Eval(c, m, params), els)
          case (Some(0), None) => true
          case (Some(0), Some(e)) => TotalRun(e, m, params, fuel)
          case (_, _) => TotalRun(t, m, params, fuel))
    case While(c, b) =>
      fuel > 0 ==>
        && Total(c, m)
        && (Source.Eval(c, m, params) == Some(0) ||
            (&& TotalRun(b, m, params, fuel - 1)
             && (match Source.Exec(b, m, [], params, fuel - 1)
                 case Next(m1, _) => TotalRun(s, m1, params, fuel - 1)
                 case Continued(m1, _) => TotalRun(s, m1, params, fuel - 1)
                 case _ => true)))
    case Block(ss) => AllTotalRun(ss, m, params, fuel)
    case Break => true
    case Continue => true
  }

  predicate AllTotalRun(ss: seq<Source.Stmt>, m: Source.Vars, params: seq<int>, fuel: nat)
    decreases fuel, ss, 1
  {
    ss == [] ||
    (&& TotalRun(ss[0], m, params, fuel)
     && (match Source.Exec(ss[0], m, [], params, fuel)
         case Next(m1, _) => AllTotalRun(ss[1..], m1, params, fuel)
         case _ => true))
  }

  /** The same way on, with the same variables and result. */
  predicate SameWay(q: Source.Flow, r: Source.Flow) {
    match q
    case Next(m, _) => r.Next? && r.vars == m
    case Broke(m, _) => r.Broke? && r.vars == m
    case Continued(m, _) => r.Continued? && r.vars == m
    case Returned(x, _) => r.Returned? && r.value == x
    case Trapped(_) => r.Trapped?
    case OutOfFuel(_) => r.OutOfFuel?
  }

  /** What has been printed before does not matter to a run. */
  lemma {:induction false} OutputDoesNotMatter(s: Source.Stmt, m: Source.Vars, out: seq<int>, o: seq<int>,
                                               params: seq<int>, fuel: nat)
    ensures SameWay(Source.Exec(s, m, out, params, fuel), Source.Exec(s, m, o, params, fuel))
    decreases fuel, s, 0
  {
    match s
    case If(_, t, els) =>
      OutputDoesNotMatter(t, m, out, o, params, fuel);
      if els.Some? { OutputDoesNotMatter(els.value, m, out, o, params, fuel); }
    case While(c, b) =>
      if fuel > 0 {
        OutputDoesNotMatter(b, m, out, o, params, fuel - 1);
        var q, r := Source.Exec(b, m, out, params, fuel - 1), Source.Exec(b, m, o, params, fuel - 1);
        if Source.Eval(c, m, params).Some? && Source.Eval(c, m, params) != Some(0) {
          assert Source.Exec(s, m, out, params, fuel) == Source.AfterBody(q, s, params, fuel);
          assert Source.Exec(s, m, o, params, fuel) == Source.AfterBody(r, s, params, fuel);
        }
        if q.Next? || q.Continued? { OutputDoesNotMatter(s, q.vars, q.out, r.out, params, fuel - 1); }
      }
    case Block(ss) => AllOutputDoesNotMatter(ss, m, out, o, params, fuel);
    case _ =>
  }

  lemma {:induction false} AllOutputDoesNotMatter(ss: seq<Source.Stmt>, m: Source.Vars, out: seq<int>, o: seq<int>,
                                                  params: seq<int>, fuel: nat)
    ensures SameWay(Source.ExecAll(ss, m, out, params, fuel), Source.ExecAll(ss, m, o, params, fuel))
    decreases fuel, ss, 1
  {
    if ss != [] {
      OutputDoesNotMatter(ss[0], m, out, o, params, fuel);
      var q, r := Source.Exec(ss[0], m, out, params, fuel), Source.Exec(ss[0], m, o, params, fuel);
      if q.Next? { AllOutputDoesNotMatter(ss[1..], q.vars, q.out, r.out, params, fuel); }
    }
  }

  /** The machine's run of a typed statement ends in an error exactly when the native run evaluates an expression
      that is not total. */
  lemma {:induction false} FailsIff(s: Source.Stmt, types: Types, sc: Scope, vars: Slots, m: Source.Vars,
                                    out: seq<Value>, params: seq<int>, fuel: nat)
    requires Typed(s, types) && Check(s, sc).Some? && Agrees(vars, m, types, sc.visible) && Fits(s, |vars|)
    requires AllWords(out)
    ensures VmSource.Exec(s, vars, out, fuel).Trapped? <==> !TotalRun(s, m, params, fuel)
    decreases fuel, s, 1
  {
    hide VmSource.Eval, Source.Eval, SlotAgrees, Agrees, TypeOf, ExprFits, Total;
    match s
    case Let(_, e) => TakeAgrees(e, types, sc, vars, m, params, false);
    case Assign(_, e) => TakeAgrees(e, types, sc, vars, m, params, false);
    case Print(e) => TakeAgrees(e, types, sc, vars, m, params, false);
    case ExprStmt(e) => TakeAgrees(e, types, sc, vars, m, params, false);
    case Return(e) => TakeAgrees(e, types, sc, vars, m, params, false);
    case If(c, t, els) =>
      TakeAgrees(c, types, sc, vars, m, params, false);
      if VmSource.Eval(c, vars).Some? {
        if VmSource.Eval(c, vars).value.Truthy() {
          FailsIff(t, types, sc, vars, m, out, params, fuel);
        } else if els.Some? {
          FailsIff(els.value, types, Scope(sc.visible, Check(t, sc).value.declared), vars, m, out, params, fuel);
        }
      }
    case While(c, b) => LoopFailsIff(c, b, types, sc, vars, m, out, params, fuel);
    case Block(ss) => AllFailIff(ss, types, sc, vars, m, out, params, fuel);
    case Break =>
    case Continue =>
  }

  lemma {:induction false} LoopFailsIff(c: Source.Expr, b: Source.Stmt, types: Types, sc: Scope, vars: Slots,
                                        m: Source.Vars, out: seq<Value>, params: seq<int>, fuel: nat)
    requires var s := Source.While(c, b);
             Typed(s, types) && Check(s, sc).Some? && Agrees(vars, m, types, sc.visible) && Fits(s, |vars|)
    requires AllWords(out)
    ensures var s := Source.While(c, b);
            VmSource.Exec(s, vars, out, fuel).Trapped? <==> !TotalRun(s, m, params, fuel)
    decreases fuel, Source.While(c, b), 0
  {
    hide VmSource.Eval, Source.Eval, SlotAgrees, TypeOf, ExprFits, Total;
    if fuel > 0 {
      TakeAgrees(c, types, sc, vars, m, params, false);
      if VmSource.Eval(c, vars).Some? && VmSource.Eval(c, vars).value.Truthy() {
        FailsIff(b, types, sc, vars, m, out, params, fuel - 1);
        StmtAgrees(b, types, sc, vars, m, out, params, fuel - 1, false);
        VisibleGrows(b, sc);
        BytecodeCorrect.FrameKept(b, vars, out, fuel - 1);
        OutputDoesNotMatter(b, m, EraseAll(out), [], params, fuel - 1);
        var r, q := VmSource.Exec(b, vars, out, fuel - 1), Source.Exec(b, m, EraseAll(out), params, fuel - 1);
        if r.Next? || r.Continued? { LoopFailsIff(c, b, types, sc, r.vars, q.vars, r.out, params, fuel - 1); }
      }
    }
  }

  lemma {:induction false} AllFailIff(ss: seq<Source.Stmt>, types: Types, sc: Scope, vars: Slots, m: Source.Vars,
                                      out: seq<Value>, params: seq<int>, fuel: nat)
    requires (forall i :: 0 <= i < |ss| ==> Fits(ss[i], |vars|) && Typed(ss[i], types)) && CheckAll(ss, sc).Some?
    requires Agrees(vars, m, types, sc.visible)
    requires AllWords(out)
    ensures VmSource.ExecAll(ss, vars, out, fuel).Trapped? <==> !AllTotalRun(ss, m, params, fuel)
    decreases fuel, ss, 0
  {
    if ss != [] {
      FailsIff(ss[0], types, sc, vars, m, out, params, fuel);
      StmtAgrees(ss[0], types, sc, vars, m, out, params, fuel, false);
      BytecodeCorrect.FrameKept(ss[0], vars, out, fuel);
      OutputDoesNotMatter(ss[0], m, EraseAll(out), [], params, fuel);
      var r, q := VmSource.Exec(ss[0], vars, out, fuel), Source.Exec(ss[0], m, EraseAll(out), params, fuel);
      if r.Next? { AllFailIff(ss[1..], types, Check(ss[0], sc).value, r.vars, q.vars, r.out, params, fuel); }
    }
  }
}
