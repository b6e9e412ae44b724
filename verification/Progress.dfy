/** When the reference semantics has an outcome, the machine reaches one too: it does not run into a
  black hole, and fuel as large as the reference budget is enough. */
module Progress {
  import opened Options
  import opened Syntax
  import opened Scoping
  import opened Reference
  import opened Fuel
  import opened Machine
  import opened Runs
  import opened Meaning
  import opened Frames
  import opened FormalsMatch
  import opened Inversion
  import opened Soundness

  /** Not stopped by a black hole, not for lack of fuel if there is at least `n`, and not by the limit on
    calls if that leaves room for `n` more. */
  predicate Halts<T>(out: Outcome<T>, n: nat, fuel: nat, st: State) {
    && out != Err(InfiniteRecursion)
    && (fuel >= n ==> out != Err(OutOfFuel))
    && (st.callDepth + n <= st.maxCallDepth + 1 ==> out != Err(StackOverflow))
  }

  ghost predicate NoOutcomeBelow(c: Closure, n: nat) {
    forall k: nat :: k < n ==> EvalClosure(c, k) == Err(OutOfFuel)
  }

  /** The cells under evaluation stand for closures that have no outcome at any budget below `n`. */
  ghost predicate Pending(st: State, m: Denotation, n: nat) {
    && |st.cells| == |m.cells|
    && forall c :: 0 <= c < |st.cells| && st.cells[c].BlackHole? ==> NoOutcomeBelow(m.cells[c], n)
  }

  lemma PendingLess(st: State, m: Denotation, n: nat, k: nat)
    requires Pending(st, m, n) && k <= n
    ensures Pending(st, m, k)
  {
  }

  lemma PendingKept(st: State, st': State, m: Denotation, m': Denotation, n: nat)
    requires Pending(st, m, n) && Keeps(st, st') && Extends(m, m') && |st'.cells| == |m'.cells|
    ensures Pending(st', m', n) && st'.callDepth == st.callDepth && st'.maxCallDepth == st.maxCallDepth
  {
    forall c | 0 <= c < |st'.cells| && st'.cells[c].BlackHole?
      ensures NoOutcomeBelow(m'.cells[c], n)
    {
      assert c < |st.cells|;
      assert CellKept(st.cells[c], st'.cells[c]);
    }
  }

  /** Two final outcomes agree, whatever the budgets. */
  lemma Agree(src: Expr, s: Scope, a: nat, b: nat)
    requires Final(EvalN(src, s, a)) && Final(EvalN(src, s, b))
    ensures EvalN(src, s, a) == EvalN(src, s, b)
  {
    if a <= b {
      MoreFuel(src, s, a, b);
    } else {
      MoreFuel(src, s, b, a);
    }
  }

  lemma AgreeClosure(c: Closure, a: nat, b: nat)
    requires Final(EvalClosure(c, a)) && Final(EvalClosure(c, b))
    ensures EvalClosure(c, a) == EvalClosure(c, b)
  {
    if a <= b {
      MoreFuelClosure(c, a, b);
    } else {
      MoreFuelClosure(c, b, a);
    }
  }

  lemma AgreeWith(s: Scope, name: Symbol, a: nat, b: nat)
    requires Final(WithBinding(s, name, a)) && Final(WithBinding(s, name, b))
    ensures WithBinding(s, name, a) == WithBinding(s, name, b)
  {
    if a <= b {
      MoreFuelWith(s, name, a, b);
    } else {
      MoreFuelWith(s, name, b, a);
    }
  }

  lemma AgreeApply(f: NValue, arg: Closure, a: nat, b: nat)
    requires Final(Apply(f, arg, a)) && Final(Apply(f, arg, b))
    ensures Apply(f, arg, a) == Apply(f, arg, b)
  {
    if a <= b {
      MoreFuelApply(f, arg, a, b);
    } else {
      MoreFuelApply(f, arg, b, a);
    }
  }

  // ---- forcing ----

  /** The smallest budget at which a closure has an outcome. */
  lemma {:induction false} Smallest(c: Closure, n: nat) returns (k: nat)
    requires Final(EvalClosure(c, n))
    ensures k <= n && Final(EvalClosure(c, k)) && NoOutcomeBelow(c, k)
  {
    k := 0;
    while !Final(EvalClosure(c, k))
      invariant k <= n && NoOutcomeBelow(c, k)
      decreases n - k
    {
      k := k + 1;
    }
  }

  lemma BlackenPending(c: nat, st: State, m: Denotation, n: nat, k: nat)
    requires Pending(st, m, n + 1) && c < |st.cells| && k <= n && NoOutcomeBelow(m.cells[c], k)
    ensures Pending(SetCell(c, BlackHole, st), m, k)
  {
  }

  lemma ThunkIs(c: nat, st: State, m: Denotation)
    requires Good(st, m) && c < |st.cells| && st.cells[c].Thunk? && Live(m.cells[c])
    ensures var Thunk(env, e) := st.cells[c];
            && m.cells[c].Clo? && env < |st.envs| && m.cells[c].s == m.envs[env]
            && BoundTo(m.cells[c].e, m.envs[env], e)
            && Ready(env, SetCell(c, BlackHole, st), m)
  {
    assert CellOk(st.cells[c], m.cells[c], m);
    SetCellMeans(c, BlackHole, st, m);
  }

  lemma {:induction false} ProgressForce(c: nat, clo: Closure, st: State, m: Denotation, n: nat, fuel: nat)
    requires Good(st, m) && CellAlias(clo, c, m) && Final(EvalClosure(clo, n)) && Pending(st, m, n + 1)
    ensures Halts(Force(c, st, fuel).out, n, fuel, st)
    decreases n, 1, 0
  {
    hide Means, AllFilled, BoundTo;
    var k: nat :| AliasIn(clo, m.cells[c], k);
    AliasEval(clo, m.cells[c], k, n);
    if st.cells[c].BlackHole? {
      assert false;
    } else if st.cells[c].Thunk? {
      var n1 := Smallest(m.cells[c], n - k);
      ThunkIs(c, st, m);
      BlackenPending(c, st, m, n, n1);
      ProgressEval(m.cells[c].e, st.cells[c].e, st.cells[c].env, SetCell(c, BlackHole, st), m, n1, fuel);
    }
  }

  // ---- `with` chains ----

  lemma {:induction false} ProgressLookupWith(name: Symbol, link: WithLink, env: nat, st: State, m: Denotation,
                                              n: nat, fuel: nat)
    requires Ready(env, st, m) && m.envs[env].WithFrame? && link == LinkOf(Shape(m.envs[env].up))
    requires Final(WithBinding(m.envs[env], name, n)) && Pending(st, m, n + 1)
    ensures Halts(LookupWith(name, link, env, st, fuel).out, n, fuel, st)
    decreases n, 2, link
  {
    hide Means, ValRel, AllFilled, CellAlias, Shape, LinkOf;
    var s := m.envs[env];
    var c := WithSlot(env, st, m);
    ProgressForce(c, s.source, st, m, n, fuel);
    var n1, m1 := SoundForce(c, s.source, st, m, fuel);
    var r := Force(c, st, fuel);
    if r.out.Ok? {
      var v, nv := r.out.value, EvalClosure(s.source, n1).value;
      AgreeClosure(s.source, n1, n);
      AttrOf(v, nv, name, m1);
      if v.VAttrs? && GetAttr(v.attrs, name).None? && !link.parentWith.NoWith? {
        ForceKeeps(c, st, fuel);
        PendingKept(st, r.st, m, m1, n + 1);
        var env' := HopEnv(link, env, r.st, m1);
        WithBindingHop(s.up, 0, name, n);
        ProgressLookupWith(name, link.parentWith, env', r.st, m1, n, fuel);
      }
    }
  }

  // ---- expressions ----

  ghost predicate Converges(src: Expr, e: Expr, env: nat, st: State, m: Denotation, n: nat) {
    Ready(env, st, m) && BoundTo(src, m.envs[env], e) && Final(EvalN(src, m.envs[env], n)) && Pending(st, m, n)
  }

  lemma {:induction false} ProgressEval(src: Expr, e: Expr, env: nat, st: State, m: Denotation, n: nat, fuel: nat)
    requires Converges(src, e, env, st, m, n)
    ensures Halts(Eval(e, env, st, fuel).out, n, fuel, st)
    decreases n, 0, 0
  {
    if fuel > 0 {
      match src
      case Lit(_) => BoundLit(src, m.envs[env], e);
      case Lambda(_, _, _) => BoundLambda(src, m.envs[env], e);
      case Attrs(_, _, _) => BuildsHalt(src, e, env, st, m, fuel);
      case List(_) => BoundList(src, m.envs[env], e);
      case Var(_, _) => ProgressVar(src, e, env, st, m, n, fuel);
      case InheritFrom(_) => ProgressFrom(src, e, env, st, m, n, fuel);
      case Select(_, _, _) => ProgressSelect(src, e, env, st, m, n, fuel);
      case HasAttr(_, _) => ProgressHasAttr(src, e, env, st, m, n, fuel);
      case Call(_, _) => ProgressCall(src, e, env, st, m, n, fuel);
      case Let(_, _, _) => ProgressLet(src, e, env, st, m, n, fuel);
      case With(_, _, _) => ProgressWith(src, e, env, st, m, n, fuel);
      case If(_, _, _) => ProgressIf(src, e, env, st, m, n, fuel);
    }
  }

  lemma BuildsHalt(src: Expr, e: Expr, env: nat, st: State, m: Denotation, fuel: nat)
    requires fuel > 0 && src.Attrs? && Ready(env, st, m) && BoundTo(src, m.envs[env], e)
    ensures Eval(e, env, st, fuel).out.Ok?
  {
    hide Means, AllFilled, BoundTo;
    if src.recursive {
      BoundRec(src, m.envs[env], e);
    } else {
      BoundPlain(src, m.envs[env], e);
    }
  }

  lemma {:induction false} ProgressVar(src: Expr, e: Expr, env: nat, st: State, m: Denotation, n: nat, fuel: nat)
    requires fuel > 0 && src.Var? && Converges(src, e, env, st, m, n)
    ensures n > 0 && Halts(Eval(e, env, st, fuel).out, n, fuel, st)
    decreases n - 1, 4, 0
  {
    hide Means, ValRel, AllFilled, BoundTo, Shape, LexicalBinding;
    var s, name := m.envs[env], src.name;
    BoundVar(src, s, e);
    if Lexical(name, Shape(s), 0).Some? {
      var ref := ReadVarMeans(name, env, st, m);
      var c := ReadSlot(st.envs, env, ref.level, ref.displ).value.value;
      ProgressForce(c, LexicalBinding(s, name).value, st, m, n - 1, fuel - 1);
    } else {
      NoLexical(name, env, st, m);
      ProgressVarWith(src, e, env, st, m, n, fuel);
    }
  }

  lemma {:induction false} ProgressVarWith(src: Expr, e: Expr, env: nat, st: State, m: Denotation, n: nat, fuel: nat)
    requires fuel > 0 && src.Var? && Converges(src, e, env, st, m, n)
    requires Lexical(src.name, Shape(m.envs[env]), 0).None? && LexicalBinding(m.envs[env], src.name).None?
    ensures n > 0 && Halts(Eval(e, env, st, fuel).out, n, fuel, st)
    decreases n - 1, 3, 0
  {
    hide Means, ValRel, AllFilled, BoundTo, Shape, LexicalBinding, CellAlias, Pending, Keeps;
    var s, name := m.envs[env], src.name;
    BoundVar(src, s, e);
    var env' := NearestWithEnv(name, e.ref, env, st, m);
    WithBindingHop(s, 0, name, n - 1);
    ProgressLookupWith(name, e.ref.fromWith, env', st, m, n - 1, fuel - 1);
    var n1, m1 := SoundLookupWith(name, e.ref.fromWith, env', st, m, fuel - 1);
    var r := LookupWith(name, e.ref.fromWith, env', st, fuel - 1);
    if r.out.Ok? {
      WithBindingHop(s, 0, name, n1);
      AgreeWith(s, name, n1, n - 1);
      LookupWithKeeps(name, e.ref.fromWith, env', st, fuel - 1);
      PendingKept(st, r.st, m, m1, n);
      ProgressForce(r.out.value, WithBinding(s, name, n1).value, r.st, m1, n - 1, fuel - 1);
    }
  }

  lemma {:induction false} ProgressFrom(src: Expr, e: Expr, env: nat, st: State, m: Denotation, n: nat, fuel: nat)
    requires fuel > 0 && src.InheritFrom? && Converges(src, e, env, st, m, n)
    ensures n > 0 && Halts(Eval(e, env, st, fuel).out, n, fuel, st)
    decreases n - 1, 3, 0
  {
    hide Means, ValRel, AllFilled, BoundTo, CellAlias;
    var s, d := m.envs[env], src.displ;
    BoundFrom(src, s, e);
    var c := FromSlot(d, env, st, m);
    ProgressForce(c, Clo(s.froms[d], s.up), st, m, n - 1, fuel - 1);
  }

  lemma {:induction false} ProgressSelect(src: Expr, e: Expr, env: nat, st: State, m: Denotation, n: nat, fuel: nat)
    requires fuel > 0 && src.Select? && Converges(src, e, env, st, m, n)
    ensures n > 0 && Halts(Eval(e, env, st, fuel).out, n, fuel, st)
    decreases n - 1, 3, 0
  {
    hide Means, ValRel, AllFilled, BoundTo, CellAlias;
    var s := m.envs[env];
    BoundSelect(src, s, e);
    PendingLess(st, m, n, n - 1);
    ProgressEval(src.e, e.e, env, st, m, n - 1, fuel - 1);
    var n1, m1 := SoundEval(src.e, e.e, env, st, m, fuel - 1);
    var r := Eval(e.e, env, st, fuel - 1);
    if r.out.Ok? {
      Agree(src.e, s, n1, n - 1);
      EvalKeeps(e.e, env, st, fuel - 1);
      PendingKept(st, r.st, m, m1, n);
      ProgressSelectV(r.out.value, EvalN(src.e, s, n1).value, src.path, src.def, e.def, env, r.st, m1, n - 1, fuel - 1);
    }
  }

  lemma {:induction false} ProgressSelectV(v: Value, nv: NValue, path: seq<Symbol>, src: Option<Expr>,
                                           def: Option<Expr>, env: nat, st: State, m: Denotation, n: nat, fuel: nat)
    requires Ready(env, st, m) && ValRel(v, nv, m) && (src.Some? <==> def.Some?)
    requires src.Some? ==> BoundTo(src.value, m.envs[env], def.value)
    requires Final(SelectN(nv, path, src, m.envs[env], n)) && Pending(st, m, n + 1)
    ensures Halts(SelectV(v, path, def, env, st, fuel).out, n, fuel, st)
    decreases n, 2, |path|
  {
    hide Means, ValRel, AllFilled, BoundTo, CellAlias;
    if path != [] {
      AttrOf(v, nv, path[0], m);
      if v.VAttrs? && GetAttr(v.attrs, path[0]).Some? {
        var c, clo := GetAttr(v.attrs, path[0]).value, FindAttr(nv.attrs, path[0]).value;
        ProgressForce(c, clo, st, m, n, fuel);
        var n1, m1 := SoundForce(c, clo, st, m, fuel);
        var r := Force(c, st, fuel);
        if r.out.Ok? {
          AgreeClosure(clo, n1, n);
          ForceKeeps(c, st, fuel);
          PendingKept(st, r.st, m, m1, n + 1);
          ProgressSelectV(r.out.value, EvalClosure(clo, n1).value, path[1..], src, def, env, r.st, m1, n, fuel);
        }
      } else if def.Some? {
        PendingLess(st, m, n + 1, n);
        ProgressEval(src.value, def.value, env, st, m, n, fuel);
      }
    }
  }

  lemma {:induction false} ProgressHasAttr(src: Expr, e: Expr, env: nat, st: State, m: Denotation, n: nat, fuel: nat)
    requires fuel > 0 && src.HasAttr? && Converges(src, e, env, st, m, n)
    ensures n > 0 && Halts(Eval(e, env, st, fuel).out, n, fuel, st)
    decreases n - 1, 3, 0
  {
    hide Means, ValRel, AllFilled, BoundTo, CellAlias;
    var s := m.envs[env];
    BoundHasAttr(src, s, e);
    PendingLess(st, m, n, n - 1);
    ProgressEval(src.e, e.e, env, st, m, n - 1, fuel - 1);
    var n1, m1 := SoundEval(src.e, e.e, env, st, m, fuel - 1);
    var r := Eval(e.e, env, st, fuel - 1);
    if r.out.Ok? {
      Agree(src.e, s, n1, n - 1);
      EvalKeeps(e.e, env, st, fuel - 1);
      PendingKept(st, r.st, m, m1, n);
      ProgressHasAttrV(r.out.value, EvalN(src.e, s, n1).value, src.path, r.st, m1, n - 1, fuel - 1);
    }
  }

  lemma {:induction false} ProgressHasAttrV(v: Value, nv: NValue, path: seq<Symbol>, st: State, m: Denotation, n: nat,
                                            fuel: nat)
    requires Good(st, m) && ValRel(v, nv, m)
    requires Final(HasAttrN(nv, path, n)) && Pending(st, m, n + 1)
    ensures Halts(HasAttrV(v, path, st, fuel).out, n, fuel, st)
    decreases n, 2, |path|
  {
    hide Means, ValRel, AllFilled, CellAlias;
    if path != [] {
      AttrOf(v, nv, path[0], m);
      if v.VAttrs? && GetAttr(v.attrs, path[0]).Some? && |path| > 1 {
        var c, clo := GetAttr(v.attrs, path[0]).value, FindAttr(nv.attrs, path[0]).value;
        ProgressForce(c, clo, st, m, n, fuel);
        var n1, m1 := SoundForce(c, clo, st, m, fuel);
        var r := Force(c, st, fuel);
        if r.out.Ok? {
          AgreeClosure(clo, n1, n);
          ForceKeeps(c, st, fuel);
          PendingKept(st, r.st, m, m1, n + 1);
          ProgressHasAttrV(r.out.value, EvalClosure(clo, n1).value, path[1..], r.st, m1, n, fuel);
        }
      }
    }
  }

  lemma {:induction false} ProgressLet(src: Expr, e: Expr, env: nat, st: State, m: Denotation, n: nat, fuel: nat)
    requires fuel > 0 && src.Let? && Converges(src, e, env, st, m, n)
    ensures n > 0 && Halts(Eval(e, env, st, fuel).out, n, fuel, st)
    decreases n - 1, 3, 0
  {
    hide Means, ValRel, AllFilled, BoundTo, CellAlias, DefsBound;
    var s := m.envs[env];
    BoundLet(src, s, e);
    var m1 := BuildRecMeans(src.attrs, e.attrs, src.froms, e.froms, env, st, m);
    var b := BuildRec(e.attrs, e.froms, env, st);
    MeansSizes(b.st, m1);
    BuildRecKeeps(e.attrs, e.froms, env, st);
    PendingKept(st, b.st, m, m1, n);
    PendingLess(b.st, m1, n, n - 1);
    ProgressEval(src.body, e.body, |st.envs|, b.st, m1, n - 1, fuel - 1);
  }

  lemma {:induction false} ProgressWith(src: Expr, e: Expr, env: nat, st: State, m: Denotation, n: nat, fuel: nat)
    requires fuel > 0 && src.With? && Converges(src, e, env, st, m, n)
    ensures n > 0 && Halts(Eval(e, env, st, fuel).out, n, fuel, st)
    decreases n - 1, 3, 0
  {
    hide Means, ValRel, AllFilled, BoundTo, CellAlias, Keeps;
    var s := m.envs[env];
    BoundWith(src, s, e);
    var m1 := WithFrameMeans(src.scope, e.scope, env, st, m);
    var a := NewEnv(1, env, st);
    var t := MaybeThunk(e.scope, env, a.st);
    var st1 := SetSlot(a.id, 0, t.id, t.st);
    WithFrameKeeps(e.scope, env, st);
    PendingKept(st, st1, m, m1, n);
    PendingLess(st1, m1, n, n - 1);
    ProgressEval(src.body, e.body, a.id, st1, m1, n - 1, fuel - 1);
  }

  lemma {:induction false} ProgressIf(src: Expr, e: Expr, env: nat, st: State, m: Denotation, n: nat, fuel: nat)
    requires fuel > 0 && src.If? && Converges(src, e, env, st, m, n)
    ensures n > 0 && Halts(Eval(e, env, st, fuel).out, n, fuel, st)
    decreases n - 1, 3, 0
  {
    hide Means, AllFilled, BoundTo, CellAlias;
    var s := m.envs[env];
    BoundIf(src, s, e);
    PendingLess(st, m, n, n - 1);
    ProgressEval(src.cond, e.cond, env, st, m, n - 1, fuel - 1);
    var n1, m1 := SoundEval(src.cond, e.cond, env, st, m, fuel - 1);
    var r := Eval(e.cond, env, st, fuel - 1);
    if r.out.Ok? && r.out.value.VConst? && r.out.value.c.CBool? {
      var b := r.out.value.c.b;
      Agree(src.cond, s, n1, n - 1);
      EvalKeeps(e.cond, env, st, fuel - 1);
      PendingKept(st, r.st, m, m1, n);
      PendingLess(r.st, m1, n, n - 1);
      ProgressEval(if b then src.thn else src.els, if b then e.thn else e.els, env, r.st, m1, n - 1, fuel - 1);
    }
  }

  // ---- calls ----

  lemma {:induction false} ProgressCall(src: Expr, e: Expr, env: nat, st: State, m: Denotation, n: nat, fuel: nat)
    requires fuel > 0 && src.Call? && Converges(src, e, env, st, m, n)
    ensures n > 0 && Halts(Eval(e, env, st, fuel).out, n, fuel, st)
    decreases n - 1, 6, 0
  {
    hide Means, AllFilled, BoundTo, ValRel, Keeps, Pending, CallFunction, ApplyAll, ThunkAll;
    var s := m.envs[env];
    BoundCall(src, s, e);
    PendingLess(st, m, n, n - 1);
    ProgressEval(src.fun, e.fun, env, st, m, n - 1, fuel - 1);
    var n1, m1 := SoundEval(src.fun, e.fun, env, st, m, fuel - 1);
    var r := Eval(e.fun, env, st, fuel - 1);
    if r.out.Ok? {
      var f, nf := r.out.value, EvalN(src.fun, s, n1).value;
      Agree(src.fun, s, n1, n - 1);
      EvalKeeps(e.fun, env, st, fuel - 1);
      PendingKept(st, r.st, m, m1, n);
      var m2 := ThunkAllMeans(src.args, e.args, env, r.st, m1);
      var cs := ThunkAll(e.args, env, r.st);
      var nargs := seq(|src.args|, i requires 0 <= i < |src.args| => Clo(src.args[i], s));
      ValRelExtends(f, nf, m1, m2);
      GoodAlloc(r.st, m1, cs.st, m2);
      ThunkAllKeeps(e.args, env, r.st);
      PendingKept(r.st, cs.st, m1, m2, n);
      ProgressCallFunction(f, nf, cs.ids, nargs, cs.st, m2, n - 1, fuel - 1);
    }
  }

  lemma {:induction false} ProgressCallFunction(f: Value, nf: NValue, args: seq<nat>, nargs: seq<Closure>, st: State,
                                                m: Denotation, n: nat, fuel: nat)
    requires Good(st, m) && ValRel(f, nf, m) && ArgsAlias(args, nargs, m)
    requires Final(ApplyAll(nf, nargs, n)) && Pending(st, m, n + 1)
    ensures Halts(CallFunction(f, args, st, fuel).out, n, fuel, Enter(st))
    decreases n, 5, 0
  {
    if st.callDepth <= st.maxCallDepth {
      ProgressCallLoop(f, nf, args, nargs, Enter(st), m, n, fuel);
    }
  }

  lemma {:induction false} ProgressCallLoop(f: Value, nf: NValue, args: seq<nat>, nargs: seq<Closure>, st: State,
                                            m: Denotation, n: nat, fuel: nat)
    requires Good(st, m) && ValRel(f, nf, m) && ArgsAlias(args, nargs, m)
    requires Final(ApplyAll(nf, nargs, n)) && Pending(st, m, n + 1)
    ensures Halts(CallLoop(f, args, st, fuel).out, n, fuel, st)
    decreases n, 4, |args|
  {
    hide Means, AllFilled, ValRel, Keeps;
    if args != [] {
      assert CellAlias(nargs[0], args[0], m);
      ProgressCallOne(f, nf, args[0], nargs[0], st, m, n, fuel);
      var n1, m1 := SoundCallOne(f, nf, args[0], nargs[0], st, m, fuel);
      var r := CallOne(f, args[0], st, fuel);
      if r.out.Ok? {
        AgreeApply(nf, nargs[0], n1, n);
        ArgsAliasExtends(args, nargs, m, m1);
        assert ArgsAlias(args[1..], nargs[1..], m1) by {
          forall i | 0 <= i < |args| - 1
            ensures CellAlias(nargs[1..][i], args[1..][i], m1)
          {
            assert CellAlias(nargs[i + 1], args[i + 1], m1);
          }
        }
        CallOneKeeps(f, args[0], st, fuel);
        PendingKept(st, r.st, m, m1, n + 1);
        ProgressCallLoop(r.out.value, Apply(nf, nargs[0], n1).value, args[1..], nargs[1..], r.st, m1, n, fuel);
      }
    }
  }

  lemma {:induction false} ProgressCallOne(f: Value, nf: NValue, arg: nat, narg: Closure, st: State, m: Denotation,
                                           n: nat, fuel: nat)
    requires Good(st, m) && ValRel(f, nf, m) && CellAlias(narg, arg, m)
    requires Final(Apply(nf, narg, n)) && Pending(st, m, n + 1)
    ensures Halts(CallOne(f, arg, st, fuel).out, n, fuel, st)
    decreases n, 3, 0
  {
    hide Means, AllFilled, CellAlias;
    match f
    case VLambda(_, formals, _, _) =>
      if formals.None? {
        ProgressCallPlain(f, nf, arg, narg, st, m, n, fuel);
      } else {
        ProgressCallFormals(f, nf, arg, narg, st, m, n, fuel);
      }
    case VAttrs(attrs) =>
      AttrOf(f, nf, FUNCTOR, m);
      if GetAttr(attrs, FUNCTOR).Some? && fuel > 0 {
        ProgressCallFunctor(f, nf, arg, narg, st, m, n, fuel);
      }
    case _ =>
  }

  lemma {:induction false} ProgressCallPlain(f: Value, nf: NValue, arg: nat, narg: Closure, st: State, m: Denotation,
                                             n: nat, fuel: nat)
    requires Good(st, m) && ValRel(f, nf, m) && CellAlias(narg, arg, m)
    requires Final(Apply(nf, narg, n)) && Pending(st, m, n + 1)
    requires f.VLambda? && f.formals.None?
    ensures Halts(CallOne(f, arg, st, fuel).out, n, fuel, st)
    decreases n, 2, 0
  {
    hide Means, AllFilled, CellAlias, BoundTo, Keeps;
    LambdaParts(Lambda(nf.arg, nf.formals, nf.body), nf.s, Lambda(f.arg, f.formals, f.body));
    var m1 := PlainFrameMeans(f, nf, arg, narg, st, m);
    var a := NewEnv(1, f.env, st);
    var st1 := SetSlot(a.id, 0, arg, a.st);
    PlainFrameKeeps(f.env, arg, st);
    PendingKept(st, st1, m, m1, n + 1);
    PendingLess(st1, m1, n + 1, n);
    ProgressEval(nf.body, f.body, a.id, st1, m1, n, fuel);
  }

  lemma PlainFrameKeeps(env: nat, arg: nat, st: State)
    ensures var a := NewEnv(1, env, st); Keeps(st, SetSlot(a.id, 0, arg, a.st))
  {
    var a := NewEnv(1, env, st);
    SetSlotKeeps(st, a.id, 0, arg, a.st);
  }

  lemma {:induction false} ProgressCallFunctor(f: Value, nf: NValue, arg: nat, narg: Closure, st: State, m: Denotation,
                                               n: nat, fuel: nat)
    requires Good(st, m) && ValRel(f, nf, m) && CellAlias(narg, arg, m)
    requires Final(Apply(nf, narg, n)) && Pending(st, m, n + 1)
    requires fuel > 0 && f.VAttrs? && GetAttr(f.attrs, FUNCTOR).Some?
    ensures n > 0 && Halts(CallOne(f, arg, st, fuel).out, n, fuel, st)
    decreases n - 1, 6, 0
  {
    hide Means, ValRel, AllFilled, CellAlias;
    AttrOf(f, nf, FUNCTOR, m);
    var c, clo := GetAttr(f.attrs, FUNCTOR).value, FindAttr(nf.attrs, FUNCTOR).value;
    var m1 := SelfCell(f, nf, arg, narg, c, clo, st, m);
    var self := NewCell(Val(f), st);
    assert Keeps(st, self.st);
    PendingKept(st, self.st, m, m1, n);
    var args, nargs := [self.id, arg], [Done(nf), narg];
    if self.st.callDepth <= self.st.maxCallDepth {
      ProgressForce(c, clo, Enter(self.st), m1, n - 1, fuel - 1);
      var n1, m2 := SoundForce(c, clo, Enter(self.st), m1, fuel - 1);
      var r := Force(c, Enter(self.st), fuel - 1);
      if r.out.Ok? {
        AgreeClosure(clo, n1, n - 1);
        ArgsAliasExtends(args, nargs, m1, m2);
        ForceKeeps(c, Enter(self.st), fuel - 1);
        PendingKept(Enter(self.st), r.st, m1, m2, n);
        ProgressCallLoop(r.out.value, EvalClosure(clo, n1).value, args, nargs, r.st, m2, n - 1, fuel - 1);
      }
    }
  }

  lemma {:induction false} ProgressCallFormals(f: Value, nf: NValue, arg: nat, narg: Closure, st: State, m: Denotation,
                                               n: nat, fuel: nat)
    requires Good(st, m) && ValRel(f, nf, m) && CellAlias(narg, arg, m)
    requires Final(Apply(nf, narg, n)) && Pending(st, m, n + 1)
    requires f.VLambda? && f.formals.Some?
    ensures Halts(CallOne(f, arg, st, fuel).out, n, fuel, st)
    decreases n, 2, 0
  {
    hide Means, AllFilled, BoundTo, Keeps;
    LambdaParts(Lambda(nf.arg, nf.formals, nf.body), nf.s, Lambda(f.arg, f.formals, f.body));
    ProgressForce(arg, narg, st, m, n, fuel);
    var n1, m1 := SoundForce(arg, narg, st, m, fuel);
    var r := Force(arg, st, fuel);
    if r.out.Ok? && r.out.value.VAttrs? {
      AgreeClosure(narg, n1, n);
      ValRelExtends(f, nf, m, m1);
      ForceKeeps(arg, st, fuel);
      PendingKept(st, r.st, m, m1, n + 1);
      ProgressMatched(f, nf, arg, narg, r.out.value.attrs, EvalClosure(narg, n1).value.attrs, r.st, m1, n, fuel);
    }
  }

  lemma {:induction false} ProgressMatched(f: Value, nf: NValue, arg: nat, narg: Closure, attrs: seq<VAttr>,
                                           nattrs: seq<NAttr>, st: State, m: Denotation, n: nat, fuel: nat)
    requires Good(st, m) && f.VLambda? && ValRel(f, nf, m) && f.formals.Some? && nf.NLambda? && nf.formals.Some?
    requires CellAlias(narg, arg, m) && ValRel(VAttrs(attrs), NAttrs(nattrs), m)
    requires Final(ApplyMatched(nf, narg, nattrs, n)) && Pending(st, m, n + 1)
    ensures Halts(CallFormals(f.arg, f.formals.value, f.body, f.env, arg, attrs, st, fuel).out, n, fuel, st)
    decreases n, 1, 0
  {
    hide Means, AllFilled, CellAlias, Shape, FormalBound, Keeps, BoundTo, FrameOk, FillFormals, Pending;
    var s := LamFrame(nf.arg, nf.formals, narg, nattrs, nf.s);
    hide ValRel;
    var formals := f.formals.value.formals;
    MatchOutcome(f, nf, attrs, nattrs, m);
    var first := FirstFormal(f.arg);
    var a := NewEnv(first + |formals|, f.env, st);
    var st1 := if f.arg.Some? then SetSlot(a.id, 0, arg, a.st) else a.st;
    FillFormalsOutcome(formals, 0, first, attrs, a.id, st1);
    assert formals[0..] == formals;
    if MatchError(nf.formals.value, nattrs).None? {
      var m1 := FormalsFrameMeans(f, nf, arg, narg, attrs, nattrs, st, m);
      BodyIsBound(f, nf, narg, nattrs, m);
      var r := FillFormals(formals, 0, first, attrs, a.id, st1);
      FormalsFrameKeeps(f, arg, attrs, st);
      PendingKept(st, r.st, m, m1, n + 1);
      PendingLess(r.st, m1, n + 1, n);
      ProgressEval(nf.body, f.body, a.id, r.st, m1, n, fuel);
    }
  }

  lemma FormalsFrameKeeps(f: Value, arg: nat, attrs: seq<VAttr>, st: State)
    requires f.VLambda? && f.formals.Some?
    ensures var first := if f.arg.Some? then 1 else 0;
            var a := NewEnv(first + |f.formals.value.formals|, f.env, st);
            var st1 := if f.arg.Some? then SetSlot(a.id, 0, arg, a.st) else a.st;
            Keeps(st, FillFormals(f.formals.value.formals, 0, first, attrs, a.id, st1).st)
  {
    var first := if f.arg.Some? then 1 else 0;
    var a := NewEnv(first + |f.formals.value.formals|, f.env, st);
    var st1 := if f.arg.Some? then SetSlot(a.id, 0, arg, a.st) else a.st;
    SetSlotKeeps(st, a.id, 0, arg, a.st);
    FillFormalsKeeps(st, f.formals.value.formals, 0, first, attrs, a.id, st1);
  }
}
