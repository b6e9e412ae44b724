/** What every run of the machine keeps, from any state whatever: no cell stays black because of the
  run, values and filled slots are final, and the call depth is restored. */
module Runs {
  import opened Options
  import opened Syntax
  import opened Scoping
  import opened Reference
  import opened Machine

  /** A cell can only change from a thunk to a value. */
  predicate CellKept(a: Cell, b: Cell) {
    a == b || (a.Thunk? && b.Val?)
  }

  /** An environment can only have empty slots filled. */
  predicate EnvKept(a: Env, b: Env) {
    && a.up == b.up
    && |a.values| == |b.values|
    && forall d :: 0 <= d < |a.values| && a.values[d].Some? ==> b.values[d] == a.values[d]
  }

  predicate Keeps(st: State, st': State) {
    && |st.cells| <= |st'.cells|
    && |st.envs| <= |st'.envs|
    && (forall c :: 0 <= c < |st.cells| ==> CellKept(st.cells[c], st'.cells[c]))
    && (forall c :: |st.cells| <= c < |st'.cells| ==> !st'.cells[c].BlackHole?)
    && (forall r :: 0 <= r < |st.envs| ==> EnvKept(st.envs[r], st'.envs[r]))
    && st'.callDepth == st.callDepth
    && st'.maxCallDepth == st.maxCallDepth
  }

  lemma KeepsSelf(st: State)
    ensures Keeps(st, st)
  {
  }

  lemma KeepsTrans(a: State, b: State, c: State)
    requires Keeps(a, b) && Keeps(b, c)
    ensures Keeps(a, c)
  {
    forall i | 0 <= i < |a.cells|
      ensures CellKept(a.cells[i], c.cells[i])
    {
      assert CellKept(a.cells[i], b.cells[i]) && CellKept(b.cells[i], c.cells[i]);
    }
    forall r | 0 <= r < |a.envs|
      ensures EnvKept(a.envs[r], c.envs[r])
    {
      assert EnvKept(a.envs[r], b.envs[r]) && EnvKept(b.envs[r], c.envs[r]);
    }
    forall i | |a.cells| <= i < |c.cells|
      ensures !c.cells[i].BlackHole?
    {
      if i < |b.cells| {
        assert CellKept(b.cells[i], c.cells[i]);
      }
    }
  }

  // ---- building frames ----

  lemma MaybeThunkKeeps(e: Expr, env: nat, st: State)
    ensures Keeps(st, MaybeThunk(e, env, st).st)
    ensures MaybeThunk(e, env, st).st.envs == st.envs
  {
  }

  /** The cell that a variable refers to without searching any `with`, if its slot is filled. */
  ghost function FilledSlot(e: Expr, env: nat, st: State): Option<nat> {
    var slot := match e
      case Var(_, VarRef(NoWith, level, displ)) => ReadSlot(st.envs, env, level, displ)
      case InheritFrom(displ) => ReadSlot(st.envs, env, 0, displ)
      case _ => None;
    if slot.Some? then slot.value else None
  }

  /** Delaying makes a thunk only for what needs work. A variable whose slot is filled is delayed as the
    cell of that slot, so that it is computed once for all who share it, and evaluating the variable is
    forcing that cell; a literal and the empty list are values at once. */
  lemma DelayShares(e: Expr, env: nat, st: State, fuel: nat)
    ensures var a, slot := MaybeThunk(e, env, st), FilledSlot(e, env, st);
            && (slot.Some? ==> a == Alloc(slot.value, st) && Eval(e, env, st, fuel + 1) == Force(a.id, a.st, fuel))
            && (slot.None? ==> a.id == |st.cells| && a.st.cells[..a.id] == st.cells && |a.st.cells| == a.id + 1)
            && (slot.None? && (e.Lit? || e == List([])) ==>
                  a.st.cells[a.id].Val? && Eval(e, env, st, fuel + 1) == Run(Ok(a.st.cells[a.id].v), st))
            && (slot.None? && !e.Lit? && e != List([]) ==> a.st.cells[a.id] == Thunk(env, e))
  {
  }

  lemma SetSlotKeeps(base: State, env: nat, displ: nat, c: nat, st: State)
    requires Keeps(base, st) && env >= |base.envs|
    ensures Keeps(base, SetSlot(env, displ, c, st))
  {
  }

  lemma {:induction false} ThunkAllKeeps(es: seq<Expr>, env: nat, st: State)
    ensures Keeps(st, ThunkAll(es, env, st).st)
    decreases |es|
  {
    if es != [] {
      var a := MaybeThunk(es[0], env, st);
      MaybeThunkKeeps(es[0], env, st);
      ThunkAllKeeps(es[1..], env, a.st);
      KeepsTrans(st, a.st, ThunkAll(es, env, st).st);
    }
  }

  lemma {:induction false} FillFromsKeeps(base: State, froms: seq<Expr>, i: nat, inheritEnv: nat, up: nat, st: State)
    requires Keeps(base, st) && inheritEnv >= |base.envs|
    ensures Keeps(base, FillFroms(froms, i, inheritEnv, up, st))
    decreases |froms| - i
  {
    if i < |froms| {
      var a := MaybeThunk(froms[i], up, st);
      MaybeThunkKeeps(froms[i], up, st);
      KeepsTrans(base, st, a.st);
      SetSlotKeeps(base, inheritEnv, i, a.id, a.st);
      FillFromsKeeps(base, froms, i + 1, inheritEnv, up, SetSlot(inheritEnv, i, a.id, a.st));
    }
  }

  lemma BuildInheritKeeps(base: State, froms: seq<Expr>, up: nat, st: State)
    requires Keeps(base, st)
    ensures Keeps(base, BuildInheritEnv(froms, up, st).st)
  {
    if froms != [] {
      var a := NewEnv(|froms|, up, st);
      assert Keeps(st, a.st);
      KeepsTrans(base, st, a.st);
      FillFromsKeeps(base, froms, 0, a.id, up, a.st);
    }
  }

  lemma {:induction false} FillAttrsKeeps(base: State, attrs: seq<AttrDef>, i: nat, rec: bool, self: nat,
                                          outer: nat, inherit: nat, st: State)
    requires Keeps(base, st) && (rec ==> self >= |base.envs|)
    ensures Keeps(base, FillAttrs(attrs, i, rec, self, outer, inherit, st).st)
    decreases |attrs| - i
  {
    if i < |attrs| {
      var env := ChooseByKind(attrs[i].kind, self, outer, inherit);
      var a := MaybeThunk(attrs[i].e, env, st);
      MaybeThunkKeeps(attrs[i].e, env, st);
      KeepsTrans(base, st, a.st);
      if rec {
        SetSlotKeeps(base, self, i, a.id, a.st);
      }
      FillAttrsKeeps(base, attrs, i + 1, rec, self, outer, inherit,
                     if rec then SetSlot(self, i, a.id, a.st) else a.st);
    }
  }

  lemma BuildRecKeeps(attrs: seq<AttrDef>, froms: seq<Expr>, env: nat, st: State)
    ensures Keeps(st, BuildRec(attrs, froms, env, st).st)
  {
    var a := NewEnv(|attrs|, env, st);
    BuildInheritKeeps(st, froms, a.id, a.st);
    var inh := BuildInheritEnv(froms, a.id, a.st);
    FillAttrsKeeps(st, attrs, 0, true, a.id, env, inh.id, inh.st);
  }

  lemma {:induction false} FillFormalsKeeps(base: State, formals: seq<Formal>, i: nat, first: nat,
                                            attrs: seq<VAttr>, env: nat, st: State)
    requires Keeps(base, st) && env >= |base.envs|
    ensures Keeps(base, FillFormals(formals, i, first, attrs, env, st).st)
    decreases |formals| - i
  {
    if i < |formals| {
      match GetAttr(attrs, formals[i].name)
      case Some(c) =>
        SetSlotKeeps(base, env, first + i, c, st);
        FillFormalsKeeps(base, formals, i + 1, first, attrs, env, SetSlot(env, first + i, c, st));
      case None =>
        if formals[i].def.Some? {
          var a := MaybeThunk(formals[i].def.value, env, st);
          MaybeThunkKeeps(formals[i].def.value, env, st);
          KeepsTrans(base, st, a.st);
          SetSlotKeeps(base, env, first + i, a.id, a.st);
          FillFormalsKeeps(base, formals, i + 1, first, attrs, env, SetSlot(env, first + i, a.id, a.st));
        }
    }
  }

  // ---- evaluating ----

  lemma {:induction false} EvalKeeps(e: Expr, env: nat, st: State, fuel: nat)
    ensures Keeps(st, Eval(e, env, st, fuel).st)
    decreases fuel, 0
  {
    hide Keeps;
    KeepsSelf(st);
    if fuel > 0 {
      match e
      case Lit(_) =>
      case Lambda(_, _, _) =>
      case Var(name, ref) => VarKeeps(name, ref, env, st, fuel);
      case InheritFrom(d) =>
        if c :| ReadSlot(st.envs, env, 0, d) == Some(Some(c)) {
          ForceKeeps(c, st, fuel - 1);
        }
      case Select(e1, path, def) =>
        EvalKeeps(e1, env, st, fuel - 1);
        var r := Eval(e1, env, st, fuel - 1);
        if r.out.Ok? {
          SelectKeeps(r.out.value, path, def, env, r.st, fuel - 1);
          KeepsTrans(st, r.st, Eval(e, env, st, fuel).st);
        }
      case HasAttr(e1, path) =>
        EvalKeeps(e1, env, st, fuel - 1);
        var r := Eval(e1, env, st, fuel - 1);
        if r.out.Ok? {
          HasAttrKeeps(r.out.value, path, r.st, fuel - 1);
          KeepsTrans(st, r.st, Eval(e, env, st, fuel).st);
        }
      case Attrs(rec, attrs, froms) =>
        if rec {
          BuildRecKeeps(attrs, froms, env, st);
        } else {
          BuildInheritKeeps(st, froms, env, st);
          var inh := BuildInheritEnv(froms, env, st);
          FillAttrsKeeps(st, attrs, 0, false, env, env, inh.id, inh.st);
        }
      case List(elems) => ThunkAllKeeps(elems, env, st);
      case Call(fun, args) => CallKeeps(fun, args, env, st, fuel);
      case Let(attrs, froms, body) =>
        BuildRecKeeps(attrs, froms, env, st);
        var b := BuildRec(attrs, froms, env, st);
        EvalKeeps(body, |st.envs|, b.st, fuel - 1);
        KeepsTrans(st, b.st, Eval(e, env, st, fuel).st);
      case With(source, body, _) =>
        var a := NewEnv(1, env, st);
        var t := MaybeThunk(source, env, a.st);
        var st1 := SetSlot(a.id, 0, t.id, t.st);
        WithFrameKeeps(source, env, st);
        EvalKeeps(body, a.id, st1, fuel - 1);
        KeepsTrans(st, st1, Eval(e, env, st, fuel).st);
      case If(cond, thn, els) =>
        EvalKeeps(cond, env, st, fuel - 1);
        var r := Eval(cond, env, st, fuel - 1);
        if r.out.Ok? && r.out.value.VConst? && r.out.value.c.CBool? {
          EvalKeeps(if r.out.value.c.b then thn else els, env, r.st, fuel - 1);
          KeepsTrans(st, r.st, Eval(e, env, st, fuel).st);
        }
    }
  }

  lemma WithFrameKeeps(source: Expr, env: nat, st: State)
    ensures var a := NewEnv(1, env, st);
            var t := MaybeThunk(source, env, a.st);
            Keeps(st, SetSlot(a.id, 0, t.id, t.st))
  {
    var a := NewEnv(1, env, st);
    var t := MaybeThunk(source, env, a.st);
    MaybeThunkKeeps(source, env, a.st);
    KeepsTrans(st, a.st, t.st);
    SetSlotKeeps(st, a.id, 0, t.id, t.st);
  }

  lemma {:induction false} VarKeeps(name: Symbol, ref: VarRef, env: nat, st: State, fuel: nat)
    requires fuel > 0
    ensures Keeps(st, Eval(Var(name, ref), env, st, fuel).st)
    decreases fuel - 1, 3
  {
    if ref.fromWith.NoWith? {
      if c :| ReadSlot(st.envs, env, ref.level, ref.displ) == Some(Some(c)) {
        ForceKeeps(c, st, fuel - 1);
      }
    } else if e' :| UpEnv(st.envs, env, ref.level) == Some(e') {
      LookupWithKeeps(name, ref.fromWith, e', st, fuel - 1);
      var r := LookupWith(name, ref.fromWith, e', st, fuel - 1);
      if r.out.Ok? {
        ForceKeeps(r.out.value, r.st, fuel - 1);
        KeepsTrans(st, r.st, Force(r.out.value, r.st, fuel - 1).st);
      }
    }
  }

  lemma {:induction false} CallKeeps(fun: Expr, args: seq<Expr>, env: nat, st: State, fuel: nat)
    requires fuel > 0
    ensures Keeps(st, Eval(Call(fun, args), env, st, fuel).st)
    decreases fuel - 1, 5
  {
    EvalKeeps(fun, env, st, fuel - 1);
    var r := Eval(fun, env, st, fuel - 1);
    if r.out.Ok? {
      ThunkAllKeeps(args, env, r.st);
      var cs := ThunkAll(args, env, r.st);
      CallFunctionKeeps(r.out.value, cs.ids, cs.st, fuel - 1);
      KeepsTrans(st, r.st, cs.st);
      KeepsTrans(st, cs.st, CallFunction(r.out.value, cs.ids, cs.st, fuel - 1).st);
    }
  }

  /** The cell being forced ends as a value, or as exactly the thunk it was. */
  lemma {:induction false} ForceKeeps(c: nat, st: State, fuel: nat)
    ensures Keeps(st, Force(c, st, fuel).st)
    ensures c < |st.cells| && Force(c, st, fuel).out.Err? ==> Force(c, st, fuel).st.cells[c] == st.cells[c]
    ensures c < |st.cells| && Force(c, st, fuel).out.Ok? ==>
              Force(c, st, fuel).st.cells[c] == Val(Force(c, st, fuel).out.value)
    decreases fuel, 1
  {
    if c < |st.cells| && st.cells[c].Thunk? {
      var st1 := SetCell(c, BlackHole, st);
      var r := Eval(st.cells[c].e, st.cells[c].env, st1, fuel);
      EvalKeeps(st.cells[c].e, st.cells[c].env, st1, fuel);
      var st2 := Force(c, st, fuel).st;
      assert CellKept(st1.cells[c], r.st.cells[c]);
      forall i | 0 <= i < |st.cells|
        ensures CellKept(st.cells[i], st2.cells[i])
      {
        assert CellKept(st1.cells[i], r.st.cells[i]);
      }
    }
  }

  lemma {:induction false} LookupWithKeeps(name: Symbol, link: WithLink, env: nat, st: State, fuel: nat)
    ensures Keeps(st, LookupWith(name, link, env, st, fuel).st)
    decreases fuel, 2, link
  {
    if link.WithLink? {
      if c :| ReadSlot(st.envs, env, 0, 0) == Some(Some(c)) {
        ForceKeeps(c, st, fuel);
        var r := Force(c, st, fuel);
        if r.out.Ok? && r.out.value.VAttrs? && GetAttr(r.out.value.attrs, name).None? && !link.parentWith.NoWith? {
          if env' :| UpEnv(r.st.envs, env, link.prevWith) == Some(env') {
            LookupWithKeeps(name, link.parentWith, env', r.st, fuel);
            KeepsTrans(st, r.st, LookupWith(name, link.parentWith, env', r.st, fuel).st);
          }
        }
      }
    }
  }

  lemma {:induction false} SelectKeeps(v: Value, path: seq<Symbol>, def: Option<Expr>, env: nat, st: State, fuel: nat)
    ensures Keeps(st, SelectV(v, path, def, env, st, fuel).st)
    decreases fuel, 2, |path|
  {
    if path != [] {
      match if v.VAttrs? then GetAttr(v.attrs, path[0]) else None
      case None =>
        if def.Some? {
          EvalKeeps(def.value, env, st, fuel);
        }
      case Some(c) =>
        ForceKeeps(c, st, fuel);
        var r := Force(c, st, fuel);
        if r.out.Ok? {
          SelectKeeps(r.out.value, path[1..], def, env, r.st, fuel);
          KeepsTrans(st, r.st, SelectV(r.out.value, path[1..], def, env, r.st, fuel).st);
        }
    }
  }

  lemma {:induction false} HasAttrKeeps(v: Value, path: seq<Symbol>, st: State, fuel: nat)
    ensures Keeps(st, HasAttrV(v, path, st, fuel).st)
    decreases fuel, 2, |path|
  {
    if path != [] {
      match if v.VAttrs? then GetAttr(v.attrs, path[0]) else None
      case None =>
      case Some(c) =>
        if |path| > 1 {
          ForceKeeps(c, st, fuel);
          var r := Force(c, st, fuel);
          if r.out.Ok? {
            HasAttrKeeps(r.out.value, path[1..], r.st, fuel);
            KeepsTrans(st, r.st, HasAttrV(r.out.value, path[1..], r.st, fuel).st);
          }
        }
    }
  }

  lemma EnterLeave(st: State, r: Run<Value>)
    requires Keeps(Enter(st), r.st)
    ensures Keeps(st, Leave(r).st)
  {
  }

  lemma {:induction false} CallFunctionKeeps(f: Value, args: seq<nat>, st: State, fuel: nat)
    ensures Keeps(st, CallFunction(f, args, st, fuel).st)
    decreases fuel, 4, 0
  {
    if st.callDepth <= st.maxCallDepth {
      CallLoopKeeps(f, args, Enter(st), fuel);
      EnterLeave(st, CallLoop(f, args, Enter(st), fuel));
    }
  }

  lemma {:induction false} CallCellKeeps(c: nat, args: seq<nat>, st: State, fuel: nat)
    ensures Keeps(st, CallCell(c, args, st, fuel).st)
    decreases fuel, 4, 0
  {
    if st.callDepth <= st.maxCallDepth {
      ForceKeeps(c, Enter(st), fuel);
      var r := Force(c, Enter(st), fuel);
      if r.out.Ok? {
        CallLoopKeeps(r.out.value, args, r.st, fuel);
        KeepsTrans(Enter(st), r.st, CallLoop(r.out.value, args, r.st, fuel).st);
        EnterLeave(st, CallLoop(r.out.value, args, r.st, fuel));
      } else {
        EnterLeave(st, r);
      }
    }
  }

  lemma {:induction false} CallLoopKeeps(f: Value, args: seq<nat>, st: State, fuel: nat)
    ensures Keeps(st, CallLoop(f, args, st, fuel).st)
    decreases fuel, 3, |args|
  {
    if args != [] {
      CallOneKeeps(f, args[0], st, fuel);
      var r := CallOne(f, args[0], st, fuel);
      if r.out.Ok? {
        CallLoopKeeps(r.out.value, args[1..], r.st, fuel);
        KeepsTrans(st, r.st, CallLoop(r.out.value, args[1..], r.st, fuel).st);
      }
    }
  }

  lemma {:induction false} CallOneKeeps(f: Value, arg: nat, st: State, fuel: nat)
    ensures Keeps(st, CallOne(f, arg, st, fuel).st)
    decreases fuel, 2, 0
  {
    match f
    case VLambda(name, formals, body, env) =>
      if formals.None? {
        var a := NewEnv(if name.Some? then 1 else 0, env, st);
        SetSlotKeeps(st, a.id, 0, arg, a.st);
        var st1 := SetSlot(a.id, 0, arg, a.st);
        EvalKeeps(body, a.id, st1, fuel);
        KeepsTrans(st, st1, Eval(body, a.id, st1, fuel).st);
      } else {
        ForceKeeps(arg, st, fuel);
        var r := Force(arg, st, fuel);
        if r.out.Ok? && r.out.value.VAttrs? {
          CallFormalsKeeps(name, formals.value, body, env, arg, r.out.value.attrs, r.st, fuel);
          KeepsTrans(st, r.st, CallFormals(name, formals.value, body, env, arg, r.out.value.attrs, r.st, fuel).st);
        }
      }
    case VAttrs(attrs) =>
      if c :| GetAttr(attrs, FUNCTOR) == Some(c) {
        if fuel > 0 {
          var self := NewCell(Val(f), st);
          CallCellKeeps(c, [self.id, arg], self.st, fuel - 1);
          KeepsTrans(st, self.st, CallCell(c, [self.id, arg], self.st, fuel - 1).st);
        }
      }
    case _ =>
  }

  lemma {:induction false} CallFormalsKeeps(name: Option<Symbol>, formals: Formals, body: Expr, env: nat, arg: nat,
                                            attrs: seq<VAttr>, st: State, fuel: nat)
    ensures Keeps(st, CallFormals(name, formals, body, env, arg, attrs, st, fuel).st)
    decreases fuel, 1
  {
    var first := if name.Some? then 1 else 0;
    var a := NewEnv(first + |formals.formals|, env, st);
    var st1 := if name.Some? then SetSlot(a.id, 0, arg, a.st) else a.st;
    SetSlotKeeps(st, a.id, 0, arg, a.st);
    FillFormalsKeeps(st, formals.formals, 0, first, attrs, a.id, st1);
    var r := FillFormals(formals.formals, 0, first, attrs, a.id, st1);
    if r.out.Ok? {
      EvalKeeps(body, a.id, r.st, fuel);
      KeepsTrans(st, r.st, Eval(body, a.id, r.st, fuel).st);
    }
  }

  // ---- what it comes to ----

  function BlackHoles(st: State): set<nat> {
    set c | 0 <= c < |st.cells| && st.cells[c].BlackHole?
  }

  lemma BlackHolesKept(st: State, st': State)
    requires Keeps(st, st')
    ensures BlackHoles(st') == BlackHoles(st)
  {
    forall c | 0 <= c < |st'.cells|
      ensures c in BlackHoles(st') <==> c in BlackHoles(st)
    {
      if c < |st.cells| {
        assert CellKept(st.cells[c], st'.cells[c]);
      }
    }
  }

  /** However forcing a cell ends, exactly the same cells are black and the call depth is the same as
    before; a cell whose computation failed is the thunk it was, so it can be forced again. */
  lemma ForceRestores(c: nat, st: State, fuel: nat)
    requires c < |st.cells|
    ensures var r := Force(c, st, fuel);
            && BlackHoles(r.st) == BlackHoles(st)
            && r.st.callDepth == st.callDepth
            && (r.out.Err? ==> c < |r.st.cells| && r.st.cells[c] == st.cells[c])
            && (r.out.Ok? ==> Force(c, r.st, fuel) == r)
  {
    ForceKeeps(c, st, fuel);
    BlackHolesKept(st, Force(c, st, fuel).st);
  }

  /** A slot that is filled holds the same cell for ever, and a value once computed is never computed
    again. */
  lemma SlotsAndValuesAreFinal(e: Expr, env: nat, st: State, fuel: nat, r: nat, d: nat, c: nat)
    requires r < |st.envs| && d < |st.envs[r].values| && st.envs[r].values[d] == Some(c)
    ensures var st' := Eval(e, env, st, fuel).st;
            && r < |st'.envs| && d < |st'.envs[r].values| && st'.envs[r].values[d] == Some(c)
            && (c < |st.cells| && st.cells[c].Val? ==> c < |st'.cells| && st'.cells[c] == st.cells[c])
  {
    EvalKeeps(e, env, st, fuel);
    assert EnvKept(st.envs[r], Eval(e, env, st, fuel).st.envs[r]);
    if c < |st.cells| {
      assert CellKept(st.cells[c], Eval(e, env, st, fuel).st.cells[c]);
    }
  }
}
