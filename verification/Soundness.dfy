/** Every outcome the machine reaches is the outcome of the reference semantics. */
module Soundness {
  import opened Options
  import opened Syntax
  import opened Scoping
  import opened Reference
  import opened Fuel
  import opened Machine
  import opened Meaning
  import opened Frames
  import opened FormalsMatch
  import opened Inversion

  /** Errors of the program itself, as opposed to limits of the machine. */
  predicate Genuine(x: Error) {
    !x.OutOfFuel? && !x.InfiniteRecursion? && !x.StackOverflow? && !x.Crash?
  }

  /** The machine never crashes; a value it returns is the reference value and a genuine error it
    reports is the reference error. */
  ghost predicate Faithful(out: Outcome<Value>, o: Outcome<NValue>, m: Denotation) {
    match out
    case Ok(v) => o.Ok? && ValRel(v, o.value, m)
    case Err(x) => x != Crash && (Genuine(x) ==> o == Err(x))
  }

  /** After a run from a heap meaning `m`, whether it gave a value or an error, the heap means `m'`. */
  ghost predicate After<T>(r: Run<T>, m: Denotation, m': Denotation) {
    Good(r.st, m') && Extends(m, m')
  }

  ghost predicate Good(st: State, m: Denotation) {
    Means(st, m) && AllFilled(st, m) && |st.cells| == |m.cells| && |st.envs| == |m.envs|
  }

  ghost predicate Ready(env: nat, st: State, m: Denotation) {
    Good(st, m) && InUse(env, st, m)
  }

  function Max(a: nat, b: nat): nat {
    if a < b then b else a
  }

  /** Allocating cells keeps all frames filled. */
  lemma GoodAlloc(st: State, m: Denotation, st': State, m': Denotation)
    requires Good(st, m) && Means(st', m') && st'.envs == st.envs && m'.envs == m.envs
    ensures Good(st', m')
  {
  }

  /** Related values are sets alike, with the same names bound to related things. */
  lemma AttrOf(v: Value, nv: NValue, name: Symbol, m: Denotation)
    requires ValRel(v, nv, m)
    ensures v.VAttrs? <==> nv.NAttrs?
    ensures v.VAttrs? ==> (GetAttr(v.attrs, name).Some? <==> FindAttr(nv.attrs, name).Some?)
    ensures v.VAttrs? && GetAttr(v.attrs, name).Some? ==>
              CellAlias(FindAttr(nv.attrs, name).value, GetAttr(v.attrs, name).value, m)
  {
    if v.VAttrs? {
      GetAttrRel(v.attrs, nv.attrs, name, m);
    }
  }

  // ---- a larger reference budget is as good ----

  lemma LiftEval(src: Expr, s: Scope, n: nat, n': nat, out: Outcome<Value>, m: Denotation)
    requires n <= n' && Faithful(out, EvalN(src, s, n), m)
    ensures Faithful(out, EvalN(src, s, n'), m)
  {
    if out.Ok? || Genuine(out.error) {
      MoreFuel(src, s, n, n');
    }
  }

  lemma LiftClosure(c: Closure, n: nat, n': nat, out: Outcome<Value>, m: Denotation)
    requires n <= n' && Faithful(out, EvalClosure(c, n), m)
    ensures Faithful(out, EvalClosure(c, n'), m)
  {
    if out.Ok? || Genuine(out.error) {
      MoreFuelClosure(c, n, n');
    }
  }

  lemma LiftSelect(v: NValue, path: seq<Symbol>, def: Option<Expr>, s: Scope, n: nat, n': nat, out: Outcome<Value>,
                   m: Denotation)
    requires n <= n' && Faithful(out, SelectN(v, path, def, s, n), m)
    ensures Faithful(out, SelectN(v, path, def, s, n'), m)
  {
    if out.Ok? || Genuine(out.error) {
      MoreFuelSelect(v, path, def, s, n, n');
    }
  }

  lemma LiftHasAttr(v: NValue, path: seq<Symbol>, n: nat, n': nat, out: Outcome<Value>, m: Denotation)
    requires n <= n' && Faithful(out, HasAttrN(v, path, n), m)
    ensures Faithful(out, HasAttrN(v, path, n'), m)
  {
    if out.Ok? || Genuine(out.error) {
      MoreFuelHasAttr(v, path, n, n');
    }
  }

  lemma LiftApplyAll(f: NValue, args: seq<Closure>, n: nat, n': nat, out: Outcome<Value>, m: Denotation)
    requires n <= n' && Faithful(out, ApplyAll(f, args, n), m)
    ensures Faithful(out, ApplyAll(f, args, n'), m)
  {
    if out.Ok? || Genuine(out.error) {
      MoreFuelApplyAll(f, args, n, n');
    }
  }

  // ---- `with` chains ----

  /** The level and link that resolution computes lead to the nearest `with` scope. */
  lemma {:induction false} WithHop(t: Scope, level: nat)
    ensures match WithLevel(Shape(t), level)
            case Some(l) =>
              && l >= level && UpScope(t, l - level).Some?
              && UpScope(t, l - level).value.WithFrame?
              && NearestWith(Shape(t)) == LinkOf(Shape(UpScope(t, l - level).value.up))
            case None => NearestWith(Shape(t)) == NoWith
    decreases t
  {
    if !t.Base? && !t.WithFrame? {
      WithHop(t.up, level + 1);
    }
  }

  /** Only `with` scopes matter for a `with` lookup. */
  lemma {:induction false} WithBindingHop(t: Scope, level: nat, name: Symbol, n: nat)
    ensures match WithLevel(Shape(t), level)
            case Some(l) =>
              && l >= level && UpScope(t, l - level).Some?
              && WithBinding(t, name, n) == WithBinding(UpScope(t, l - level).value, name, n)
            case None => WithBinding(t, name, n) == Err(UndefinedVariable(name))
    decreases t
  {
    if !t.Base? && !t.WithFrame? {
      WithBindingHop(t.up, level + 1, name, n);
    }
  }

  lemma {:induction false} WithLevelShift(env: StaticEnv, level: nat)
    ensures WithLevel(env, level + 1) == match WithLevel(env, level) case Some(l) => Some(l + 1) case None => None
  {
    if env.Vars? {
      WithLevelShift(env.up, level + 1);
    }
  }

  /** The outcome of a `with` search in the machine against the reference. */
  ghost predicate FaithfulBinding(out: Outcome<nat>, o: Outcome<Closure>, m: Denotation) {
    match out
    case Ok(c) => o.Ok? && CellAlias(o.value, c, m)
    case Err(x) => x != Crash && (Genuine(x) ==> o == Err(x))
  }

  lemma LiftWith(s: Scope, name: Symbol, n: nat, n': nat, out: Outcome<nat>, m: Denotation)
    requires n <= n' && FaithfulBinding(out, WithBinding(s, name, n), m)
    ensures FaithfulBinding(out, WithBinding(s, name, n'), m)
  {
    if out.Ok? || Genuine(out.error) {
      MoreFuelWith(s, name, n, n');
    }
  }

  lemma WithSlot(env: nat, st: State, m: Denotation) returns (c: nat)
    requires Ready(env, st, m) && m.envs[env].WithFrame?
    ensures ReadSlot(st.envs, env, 0, 0) == Some(Some(c)) && CellAlias(m.envs[env].source, c, m)
  {
    var s := m.envs[env];
    assert EnvOk(st.envs[env], s, m);
    assert SlotOk(st.envs[env].values[0], s, 0, m);
    assert Filled(st.envs[env]);
    c := st.envs[env].values[0].value;
  }

  /** A `with` whose link has no parent is the outermost one. */
  lemma OutermostWith(t: Scope, name: Symbol, n: nat)
    requires LinkOf(Shape(t)).parentWith.NoWith?
    ensures WithBinding(t, name, n) == Err(UndefinedVariable(name))
  {
    WithHop(t, 0);
    WithBindingHop(t, 0, name, n);
  }

  lemma {:induction false} SoundLookupWith(name: Symbol, link: WithLink, env: nat, st: State, m: Denotation, fuel: nat)
    returns (n: nat, m': Denotation)
    requires Ready(env, st, m) && m.envs[env].WithFrame? && link == LinkOf(Shape(m.envs[env].up))
    ensures var r := LookupWith(name, link, env, st, fuel);
            FaithfulBinding(r.out, WithBinding(m.envs[env], name, n), m') && After(r, m, m')
    decreases fuel, 2, link
  {
    hide Means, ValRel, AllFilled, CellAlias, Shape, LinkOf;
    var s := m.envs[env];
    var c := WithSlot(env, st, m);
    var n1, m1 := SoundForce(c, s.source, st, m, fuel);
    n, m' := n1, m1;
    var r := Force(c, st, fuel);
    if r.out.Ok? {
      var v, nv := r.out.value, EvalClosure(s.source, n1).value;
      AttrOf(v, nv, name, m1);
      if v.VAttrs? && GetAttr(v.attrs, name).None? {
        if link.parentWith.NoWith? {
          OutermostWith(s.up, name, n1);
        } else {
          var n2, m2 := SoundHop(name, link, env, r.st, m1, fuel);
          n, m' := Max(n1, n2), m2;
          LiftWith(s.up, name, n2, n, LookupWith(name, link, env, st, fuel).out, m2);
          MoreFuelClosure(s.source, n1, n);
        }
      }
    }
  }

  /** The link of a `with` frame leads to the frame of the enclosing `with`. */
  lemma HopEnv(link: WithLink, env: nat, st: State, m: Denotation) returns (env': nat)
    requires Ready(env, st, m) && m.envs[env].WithFrame? && link == LinkOf(Shape(m.envs[env].up))
    requires link.parentWith.WithLink?
    ensures UpEnv(st.envs, env, link.prevWith) == Some(env') && Ready(env', st, m)
    ensures m.envs[env'].WithFrame? && link.parentWith == LinkOf(Shape(m.envs[env'].up))
    ensures var t := m.envs[env].up;
            WithLevel(Shape(t), 0).Some? && UpScope(t, WithLevel(Shape(t), 0).value) == Some(m.envs[env'])
  {
    hide AllFilled, Means, Shape, LinkOf, WithLevel, UpScope, UpEnv;
    MeansSizes(st, m);
    StaticHop(link, m.envs[env]);
    UpEnvMeans(env, link.prevWith, st, m);
    env' := UpEnv(st.envs, env, link.prevWith).value;
  }

  lemma StaticHop(link: WithLink, s: Scope)
    requires s.WithFrame? && link == LinkOf(Shape(s.up)) && link.parentWith.WithLink?
    ensures WithLevel(Shape(s.up), 0).Some?
    ensures var t := UpScope(s, link.prevWith);
            && t.Some? && t.value.WithFrame? && t == UpScope(s.up, WithLevel(Shape(s.up), 0).value)
            && link.parentWith == LinkOf(Shape(t.value.up))
  {
    hide Shape;
    WithLevelShift(Shape(s.up), 0);
    WithHop(s.up, 0);
    assert UpScope(s, link.prevWith) == UpScope(s.up, link.prevWith - 1);
  }

  /** From one `with` frame to the enclosing one. */
  lemma {:induction false} SoundHop(name: Symbol, link: WithLink, env: nat, st: State, m: Denotation, fuel: nat)
    returns (n: nat, m': Denotation)
    requires Ready(env, st, m) && m.envs[env].WithFrame? && link == LinkOf(Shape(m.envs[env].up))
    requires link.parentWith.WithLink?
    ensures UpEnv(st.envs, env, link.prevWith).Some?
    ensures var r := LookupWith(name, link.parentWith, UpEnv(st.envs, env, link.prevWith).value, st, fuel);
            FaithfulBinding(r.out, WithBinding(m.envs[env].up, name, n), m') && After(r, m, m')
    decreases fuel, 2, link, 0
  {
    hide Means, ValRel, AllFilled, CellAlias, Shape, LinkOf;
    var env' := HopEnv(link, env, st, m);
    n, m' := SoundLookupWith(name, link.parentWith, env', st, m, fuel);
    WithBindingHop(m.envs[env].up, 0, name, n);
  }

  // ---- forcing ----

  lemma {:induction false} SoundForceCell(c: nat, st: State, m: Denotation, fuel: nat) returns (n: nat, m': Denotation)
    requires Good(st, m) && c < |st.cells| && Live(m.cells[c])
    ensures var r := Force(c, st, fuel);
            Faithful(r.out, EvalClosure(m.cells[c], n), m') && After(r, m, m')
    decreases fuel, 1, 0
  {
    n, m' := 0, m;
    assert CellOk(st.cells[c], m.cells[c], m);
    match st.cells[c]
    case BlackHole =>
    case Val(v) =>
      var n1, nv :| EvalClosure(m.cells[c], n1) == Ok(nv) && ValRel(v, nv, m);
      n := n1;
    case Thunk(env, e) =>
      SetCellMeans(c, BlackHole, st, m);
      var st1 := SetCell(c, BlackHole, st);
      n, m' := SoundEval(m.cells[c].e, e, env, st1, m, fuel);
      var r := Eval(e, env, st1, fuel);
      if r.out.Ok? {
        assert m'.cells[c] == m.cells[c];
        assert EvalClosure(m.cells[c], n) == EvalN(m.cells[c].e, m.cells[c].s, n);
        assert HasValue(m'.cells[c], r.out.value, m');
        SetCellMeans(c, Val(r.out.value), r.st, m');
      } else {
        CellOkExtends(Thunk(env, e), m.cells[c], m, m');
        SetCellMeans(c, Thunk(env, e), r.st, m');
      }
  }

  lemma {:induction false} SoundForce(c: nat, clo: Closure, st: State, m: Denotation, fuel: nat)
    returns (n: nat, m': Denotation)
    requires Good(st, m) && CellAlias(clo, c, m)
    ensures var r := Force(c, st, fuel);
            Faithful(r.out, EvalClosure(clo, n), m') && After(r, m, m')
    decreases fuel, 1, 1
  {
    var n1, m1 := SoundForceCell(c, st, m, fuel);
    var k: nat :| AliasIn(clo, m.cells[c], k);
    AliasEval(clo, m.cells[c], k, n1 + k);
    n, m' := n1 + k, m1;
  }

  // ---- expressions ----

  lemma {:induction false} SoundEval(src: Expr, e: Expr, env: nat, st: State, m: Denotation, fuel: nat)
    returns (n: nat, m': Denotation)
    requires Ready(env, st, m) && BoundTo(src, m.envs[env], e)
    ensures var r := Eval(e, env, st, fuel);
            Faithful(r.out, EvalN(src, m.envs[env], n), m') && After(r, m, m')
    decreases fuel, 0, 0
  {
    hide Means, ValRel, AllFilled, BoundTo, EvalN;
    if fuel == 0 {
      n, m' := 0, m;
    } else {
      match src
      case Lit(_) => n, m' := SoundLit(src, e, env, st, m, fuel);
      case Lambda(_, _, _) => n, m' := SoundLambda(src, e, env, st, m, fuel);
      case Var(_, _) => n, m' := SoundVar(src, e, env, st, m, fuel);
      case InheritFrom(_) => n, m' := SoundFrom(src, e, env, st, m, fuel);
      case Select(_, _, _) => n, m' := SoundSelect(src, e, env, st, m, fuel);
      case HasAttr(_, _) => n, m' := SoundHasAttr(src, e, env, st, m, fuel);
      case Attrs(_, _, _) => n, m' := SoundAttrs(src, e, env, st, m, fuel);
      case List(_) => n, m' := SoundList(src, e, env, st, m, fuel);
      case Call(_, _) => n, m' := SoundCall(src, e, env, st, m, fuel);
      case Let(_, _, _) => n, m' := SoundLet(src, e, env, st, m, fuel);
      case With(_, _, _) => n, m' := SoundWith(src, e, env, st, m, fuel);
      case If(_, _, _) => n, m' := SoundIf(src, e, env, st, m, fuel);
    }
  }

  lemma SoundLit(src: Expr, e: Expr, env: nat, st: State, m: Denotation, fuel: nat)
    returns (n: nat, m': Denotation)
    requires fuel > 0 && src.Lit? && Ready(env, st, m) && BoundTo(src, m.envs[env], e)
    ensures var r := Eval(e, env, st, fuel);
            Faithful(r.out, EvalN(src, m.envs[env], n), m') && After(r, m, m')
  {
    hide Means, AllFilled, BoundTo;
    BoundLit(src, m.envs[env], e);
    n, m' := 1, m;
  }

  lemma SoundLambda(src: Expr, e: Expr, env: nat, st: State, m: Denotation, fuel: nat)
    returns (n: nat, m': Denotation)
    requires fuel > 0 && src.Lambda? && Ready(env, st, m) && BoundTo(src, m.envs[env], e)
    ensures var r := Eval(e, env, st, fuel);
            Faithful(r.out, EvalN(src, m.envs[env], n), m') && After(r, m, m')
  {
    hide Means, AllFilled, BoundTo;
    BoundLambda(src, m.envs[env], e);
    n, m' := 1, m;
  }

  lemma {:induction false} SoundVar(src: Expr, e: Expr, env: nat, st: State, m: Denotation, fuel: nat)
    returns (n: nat, m': Denotation)
    requires fuel > 0 && src.Var? && Ready(env, st, m) && BoundTo(src, m.envs[env], e)
    ensures var r := Eval(e, env, st, fuel);
            Faithful(r.out, EvalN(src, m.envs[env], n), m') && After(r, m, m')
    decreases fuel - 1, 4, 0
  {
    hide Means, ValRel, AllFilled, BoundTo, Shape, LexicalBinding;
    var s, name := m.envs[env], src.name;
    BoundVar(src, s, e);
    if Lexical(name, Shape(s), 0).Some? {
      var ref := ReadVarMeans(name, env, st, m);
      var c := ReadSlot(st.envs, env, ref.level, ref.displ).value.value;
      var n1, m1 := SoundForce(c, LexicalBinding(s, name).value, st, m, fuel - 1);
      n, m' := n1 + 1, m1;
    } else {
      NoLexical(name, env, st, m);
      n, m' := SoundVarWith(src, e, env, st, m, fuel);
    }
  }

  lemma NoLexical(name: Symbol, env: nat, st: State, m: Denotation)
    requires Ready(env, st, m) && Lexical(name, Shape(m.envs[env]), 0).None?
    ensures LexicalBinding(m.envs[env], name).None?
  {
    assert EnvOk(st.envs[env], m.envs[env], m);
    LexicalIsSlot(m.envs[env], name, 0);
  }

  /** A variable that resolves to a `with` starts its search at the nearest one. */
  lemma NearestWithEnv(name: Symbol, ref: VarRef, env: nat, st: State, m: Denotation) returns (env': nat)
    requires Ready(env, st, m) && Lexical(name, Shape(m.envs[env]), 0).None?
    requires ResolveVar(name, Shape(m.envs[env])) == Some(ref)
    ensures ref.fromWith.WithLink? && UpEnv(st.envs, env, ref.level) == Some(env') && InUse(env', st, m)
    ensures m.envs[env'].WithFrame? && ref.fromWith == LinkOf(Shape(m.envs[env'].up))
    ensures WithLevel(Shape(m.envs[env]), 0) == Some(ref.level) && UpScope(m.envs[env], ref.level) == Some(m.envs[env'])
  {
    WithHop(m.envs[env], 0);
    UpEnvMeans(env, ref.level, st, m);
    env' := UpEnv(st.envs, env, ref.level).value;
  }

  lemma {:induction false} SoundVarWith(src: Expr, e: Expr, env: nat, st: State, m: Denotation, fuel: nat)
    returns (n: nat, m': Denotation)
    requires fuel > 0 && src.Var? && Ready(env, st, m) && BoundTo(src, m.envs[env], e)
    requires Lexical(src.name, Shape(m.envs[env]), 0).None? && LexicalBinding(m.envs[env], src.name).None?
    ensures var r := Eval(e, env, st, fuel);
            Faithful(r.out, EvalN(src, m.envs[env], n), m') && After(r, m, m')
    decreases fuel - 1, 3, 0
  {
    hide Means, ValRel, AllFilled, BoundTo, Shape, LexicalBinding, CellAlias;
    var s, name := m.envs[env], src.name;
    BoundVar(src, s, e);
    var env' := NearestWithEnv(name, e.ref, env, st, m);
    var n1, m1 := SoundLookupWith(name, e.ref.fromWith, env', st, m, fuel - 1);
    WithBindingHop(s, 0, name, n1);
    n, m' := n1 + 1, m1;
    var r := LookupWith(name, e.ref.fromWith, env', st, fuel - 1);
    if r.out.Ok? {
      var clo := WithBinding(s, name, n1).value;
      var n2, m2 := SoundForce(r.out.value, clo, r.st, m1, fuel - 1);
      var k := Max(n1, n2);
      MoreFuelWith(s, name, n1, k);
      LiftClosure(clo, n2, k, Force(r.out.value, r.st, fuel - 1).out, m2);
      n, m' := k + 1, m2;
    }
  }

  lemma FromSlot(d: nat, env: nat, st: State, m: Denotation) returns (c: nat)
    requires Ready(env, st, m) && m.envs[env].InheritFrame? && d < |m.envs[env].froms|
    ensures ReadSlot(st.envs, env, 0, d) == Some(Some(c)) && CellAlias(Clo(m.envs[env].froms[d], m.envs[env].up), c, m)
  {
    var s := m.envs[env];
    assert EnvOk(st.envs[env], s, m);
    assert SlotOk(st.envs[env].values[d], s, d, m);
    assert Filled(st.envs[env]);
    c := st.envs[env].values[d].value;
  }

  lemma {:induction false} SoundFrom(src: Expr, e: Expr, env: nat, st: State, m: Denotation, fuel: nat)
    returns (n: nat, m': Denotation)
    requires fuel > 0 && src.InheritFrom? && Ready(env, st, m) && BoundTo(src, m.envs[env], e)
    ensures var r := Eval(e, env, st, fuel);
            Faithful(r.out, EvalN(src, m.envs[env], n), m') && After(r, m, m')
    decreases fuel - 1, 3, 0
  {
    hide Means, ValRel, AllFilled, BoundTo, CellAlias;
    var s, d := m.envs[env], src.displ;
    BoundFrom(src, s, e);
    var c := FromSlot(d, env, st, m);
    var n1, m1 := SoundForce(c, Clo(s.froms[d], s.up), st, m, fuel - 1);
    n, m' := n1 + 1, m1;
  }

  lemma {:induction false} SoundSelect(src: Expr, e: Expr, env: nat, st: State, m: Denotation, fuel: nat)
    returns (n: nat, m': Denotation)
    requires fuel > 0 && src.Select? && Ready(env, st, m) && BoundTo(src, m.envs[env], e)
    ensures var r := Eval(e, env, st, fuel);
            Faithful(r.out, EvalN(src, m.envs[env], n), m') && After(r, m, m')
    decreases fuel - 1, 3, 0
  {
    hide Means, ValRel, AllFilled, BoundTo, CellAlias;
    BoundSelect(src, m.envs[env], e);
    var s := m.envs[env];
    var n1, m1 := SoundEval(src.e, e.e, env, st, m, fuel - 1);
    n, m' := n1 + 1, m1;
    var r := Eval(e.e, env, st, fuel - 1);
    if r.out.Ok? {
      var nv := EvalN(src.e, s, n1).value;
      var n2, m2 := SoundSelectV(r.out.value, nv, src.path, src.def, e.def, env, r.st, m1, fuel - 1);
      var k := Max(n1, n2);
      MoreFuel(src.e, s, n1, k);
      LiftSelect(nv, src.path, src.def, s, n2, k, SelectV(r.out.value, e.path, e.def, env, r.st, fuel - 1).out, m2);
      n, m' := k + 1, m2;
    }
  }

  lemma {:induction false} SoundSelectV(v: Value, nv: NValue, path: seq<Symbol>, src: Option<Expr>, def: Option<Expr>,
                                        env: nat, st: State, m: Denotation, fuel: nat)
    returns (n: nat, m': Denotation)
    requires Ready(env, st, m) && ValRel(v, nv, m) && (src.Some? <==> def.Some?)
    requires src.Some? ==> BoundTo(src.value, m.envs[env], def.value)
    ensures var r := SelectV(v, path, def, env, st, fuel);
            Faithful(r.out, SelectN(nv, path, src, m.envs[env], n), m') && After(r, m, m')
    decreases fuel, 2, |path|
  {
    n, m' := 0, m;
    var s := m.envs[env];
    if path != [] {
      if v.VAttrs? {
        GetAttrRel(v.attrs, nv.attrs, path[0], m);
      }
      if v.VAttrs? && GetAttr(v.attrs, path[0]).Some? {
        var c, clo := GetAttr(v.attrs, path[0]).value, FindAttr(nv.attrs, path[0]).value;
        var n1, m1 := SoundForce(c, clo, st, m, fuel);
        n, m' := n1, m1;
        var r := Force(c, st, fuel);
        if r.out.Ok? {
          var nv1 := EvalClosure(clo, n1).value;
          var n2, m2 := SoundSelectV(r.out.value, nv1, path[1..], src, def, env, r.st, m1, fuel);
          n, m' := Max(n1, n2), m2;
          MoreFuelClosure(clo, n1, n);
          LiftSelect(nv1, path[1..], src, s, n2, n, SelectV(r.out.value, path[1..], def, env, r.st, fuel).out, m2);
        }
      } else if def.Some? {
        n, m' := SoundEval(src.value, def.value, env, st, m, fuel);
      }
    }
  }

  lemma {:induction false} SoundHasAttr(src: Expr, e: Expr, env: nat, st: State, m: Denotation, fuel: nat)
    returns (n: nat, m': Denotation)
    requires fuel > 0 && src.HasAttr? && Ready(env, st, m) && BoundTo(src, m.envs[env], e)
    ensures var r := Eval(e, env, st, fuel);
            Faithful(r.out, EvalN(src, m.envs[env], n), m') && After(r, m, m')
    decreases fuel - 1, 3, 0
  {
    hide Means, ValRel, AllFilled, BoundTo, CellAlias;
    BoundHasAttr(src, m.envs[env], e);
    var s := m.envs[env];
    var n1, m1 := SoundEval(src.e, e.e, env, st, m, fuel - 1);
    n, m' := n1 + 1, m1;
    var r := Eval(e.e, env, st, fuel - 1);
    if r.out.Ok? {
      var nv := EvalN(src.e, s, n1).value;
      var n2, m2 := SoundHasAttrV(r.out.value, nv, src.path, r.st, m1, fuel - 1);
      var k := Max(n1, n2);
      MoreFuel(src.e, s, n1, k);
      LiftHasAttr(nv, src.path, n2, k, HasAttrV(r.out.value, e.path, r.st, fuel - 1).out, m2);
      n, m' := k + 1, m2;
    }
  }

  lemma {:induction false} SoundHasAttrV(v: Value, nv: NValue, path: seq<Symbol>, st: State, m: Denotation, fuel: nat)
    returns (n: nat, m': Denotation)
    requires Good(st, m) && ValRel(v, nv, m)
    ensures var r := HasAttrV(v, path, st, fuel);
            Faithful(r.out, HasAttrN(nv, path, n), m') && After(r, m, m')
    decreases fuel, 2, |path|
  {
    n, m' := 0, m;
    if path != [] && v.VAttrs? {
      GetAttrRel(v.attrs, nv.attrs, path[0], m);
      if GetAttr(v.attrs, path[0]).Some? && |path| > 1 {
        var c, clo := GetAttr(v.attrs, path[0]).value, FindAttr(nv.attrs, path[0]).value;
        var n1, m1 := SoundForce(c, clo, st, m, fuel);
        n, m' := n1, m1;
        var r := Force(c, st, fuel);
        if r.out.Ok? {
          var nv1 := EvalClosure(clo, n1).value;
          var n2, m2 := SoundHasAttrV(r.out.value, nv1, path[1..], r.st, m1, fuel);
          n, m' := Max(n1, n2), m2;
          MoreFuelClosure(clo, n1, n);
          LiftHasAttr(nv1, path[1..], n2, n, HasAttrV(r.out.value, path[1..], r.st, fuel).out, m2);
        }
      }
    }
  }

  // ---- sets, lists, frames ----

  lemma AttrsValRel(attrs: seq<VAttr>, srcs: seq<AttrDef>, froms: seq<Expr>, self: Scope, outer: Scope,
                    nv: NValue, m: Denotation)
    requires SortedNames(srcs) && AttrsAlias(attrs, srcs, 0, froms, self, outer, m)
    requires nv.NAttrs? && |nv.attrs| == |srcs|
    requires forall i :: 0 <= i < |srcs| ==> nv.attrs[i] == NAttr(srcs[i].name, DefClosure(srcs[i], froms, self, outer))
    ensures ValRel(VAttrs(attrs), nv, m)
  {
    forall i | 0 <= i < |attrs|
      ensures attrs[i].name == nv.attrs[i].name
      ensures CellAlias(nv.attrs[i].clo, attrs[i].cell, m)
    {
      assert attrs[i].name == srcs[0 + i].name;
      assert CellAlias(DefClosure(srcs[0 + i], froms, self, outer), attrs[i].cell, m);
    }
    forall i, j | 0 <= i < j < |attrs|
      ensures attrs[i].name < attrs[j].name
    {
      assert attrs[i].name == srcs[0 + i].name && attrs[j].name == srcs[0 + j].name;
    }
  }

  lemma {:induction false} SoundAttrs(src: Expr, e: Expr, env: nat, st: State, m: Denotation, fuel: nat)
    returns (n: nat, m': Denotation)
    requires fuel > 0 && src.Attrs? && Ready(env, st, m) && BoundTo(src, m.envs[env], e)
    ensures var r := Eval(e, env, st, fuel);
            Faithful(r.out, EvalN(src, m.envs[env], n), m') && After(r, m, m')
  {
    n := 1;
    var s := m.envs[env];
    if src.recursive {
      m' := SoundRec(src, e, env, st, m);
    } else {
      m' := SoundPlainAttrs(src, e, env, st, m);
    }
  }

  lemma SoundRec(src: Expr, e: Expr, env: nat, st: State, m: Denotation) returns (m': Denotation)
    requires src.Attrs? && src.recursive && Ready(env, st, m) && BoundTo(src, m.envs[env], e)
    ensures var r := Eval(e, env, st, 1);
            Faithful(r.out, EvalN(src, m.envs[env], 1), m') && After(r, m, m')
  {
    hide Means, AllFilled, ValRel, BoundTo, DefsBound;
    var s := m.envs[env];
    BoundRec(src, s, e);
    m' := BuildRecMeans(src.attrs, e.attrs, src.froms, e.froms, env, st, m);
    MeansSizes(BuildRec(e.attrs, e.froms, env, st).st, m');
    AttrsValRel(BuildRec(e.attrs, e.froms, env, st).attrs, src.attrs, src.froms, RecFrame(src.attrs, src.froms, s), s,
                EvalN(src, s, 1).value, m');
  }

  lemma SoundPlainAttrs(src: Expr, e: Expr, env: nat, st: State, m: Denotation) returns (m': Denotation)
    requires src.Attrs? && !src.recursive && Ready(env, st, m) && BoundTo(src, m.envs[env], e)
    ensures var r := Eval(e, env, st, 1);
            Faithful(r.out, EvalN(src, m.envs[env], 1), m') && After(r, m, m')
  {
    hide Means, ValRel, BoundTo, DefsBound, AllFilled;
    var s := m.envs[env];
    BoundPlain(src, s, e);
    var m1 := BuildInheritMeans(src.froms, e.froms, env, st, m);
    var inh := BuildInheritEnv(e.froms, env, st);
    m' := FillAttrsMeans(src.attrs, e.attrs, 0, false, src.froms, env, env, inh.id, inh.st, m1);
    var b := FillAttrs(e.attrs, 0, false, env, env, inh.id, inh.st);
    AttrsValRel(b.attrs, src.attrs, src.froms, s, s, EvalN(src, s, 1).value, m');
    MeansSizes(b.st, m');
    FilledAfter(st, m, b.st, m');
  }

  lemma FilledAfter(st: State, m: Denotation, st': State, m': Denotation)
    requires AllFilled(st, m) && Extends(m, m') && |st.envs| == |m.envs| && |st.envs| <= |st'.envs|
    requires forall r :: 0 <= r < |st.envs| ==> st'.envs[r] == st.envs[r]
    requires forall r :: |st.envs| <= r < |st'.envs| ==> Filled(st'.envs[r])
    ensures AllFilled(st', m')
  {
  }

  lemma SoundList(src: Expr, e: Expr, env: nat, st: State, m: Denotation, fuel: nat)
    returns (n: nat, m': Denotation)
    requires fuel > 0 && src.List? && Ready(env, st, m) && BoundTo(src, m.envs[env], e)
    ensures var r := Eval(e, env, st, fuel);
            Faithful(r.out, EvalN(src, m.envs[env], n), m') && After(r, m, m')
  {
    BoundList(src, m.envs[env], e);
    n := 1;
    m' := ThunkAllMeans(src.elems, e.elems, env, st, m);
    var ids := ThunkAll(e.elems, env, st).ids;
    var nv := EvalN(src, m.envs[env], 1).value;
    forall i | 0 <= i < |ids|
      ensures CellAlias(nv.elems[i], ids[i], m')
    {
      assert nv.elems[i] == Clo(src.elems[i], m.envs[env]);
    }
  }

  lemma {:induction false} SoundLet(src: Expr, e: Expr, env: nat, st: State, m: Denotation, fuel: nat)
    returns (n: nat, m': Denotation)
    requires fuel > 0 && src.Let? && Ready(env, st, m) && BoundTo(src, m.envs[env], e)
    ensures var r := Eval(e, env, st, fuel);
            Faithful(r.out, EvalN(src, m.envs[env], n), m') && After(r, m, m')
    decreases fuel - 1, 3, 0
  {
    hide Means, ValRel, AllFilled, BoundTo, CellAlias, DefsBound;
    var s := m.envs[env];
    var self := RecFrame(src.attrs, src.froms, s);
    BoundLet(src, s, e);
    var m1 := BuildRecMeans(src.attrs, e.attrs, src.froms, e.froms, env, st, m);
    var b := BuildRec(e.attrs, e.froms, env, st);
    MeansSizes(b.st, m1);
    var n1, m2 := SoundEval(src.body, e.body, |st.envs|, b.st, m1, fuel - 1);
    n, m' := n1 + 1, m2;
  }

  /** The frame of a `with`. */
  lemma WithFrameMeans(src: Expr, e: Expr, env: nat, st: State, m: Denotation) returns (m': Denotation)
    requires Ready(env, st, m) && BoundTo(src, m.envs[env], e)
    ensures var a := NewEnv(1, env, st);
            var t := MaybeThunk(e, env, a.st);
            var st' := SetSlot(a.id, 0, t.id, t.st);
            && Ready(a.id, st', m') && Extends(m, m')
            && m'.envs[a.id] == WithFrame(Clo(src, m.envs[env]), m.envs[env])
  {
    var s := WithFrame(Clo(src, m.envs[env]), m.envs[env]);
    NewEnvMeans(1, env, s, st, m);
    var a := NewEnv(1, env, st);
    var m1 := m.(envs := m.envs + [s]);
    m' := MaybeThunkMeans(src, e, env, a.st, m1);
    var t := MaybeThunk(e, env, a.st);
    assert EnvOk(t.st.envs[a.id], m'.envs[a.id], m');
    SetSlotMeans(a.id, 0, t.id, t.st, m');
    var st' := SetSlot(a.id, 0, t.id, t.st);
    forall r | 0 <= r < |st'.envs| && ScopeOk(m'.envs[r])
      ensures Filled(st'.envs[r])
    {
      if r < |st.envs| {
        assert Filled(st.envs[r]);
      }
    }
  }

  lemma {:induction false} SoundWith(src: Expr, e: Expr, env: nat, st: State, m: Denotation, fuel: nat)
    returns (n: nat, m': Denotation)
    requires fuel > 0 && src.With? && Ready(env, st, m) && BoundTo(src, m.envs[env], e)
    ensures var r := Eval(e, env, st, fuel);
            Faithful(r.out, EvalN(src, m.envs[env], n), m') && After(r, m, m')
    decreases fuel - 1, 3, 0
  {
    hide Means, ValRel, AllFilled, BoundTo, CellAlias;
    var s := m.envs[env];
    BoundWith(src, s, e);
    var m1 := WithFrameMeans(src.scope, e.scope, env, st, m);
    var a := NewEnv(1, env, st);
    var t := MaybeThunk(e.scope, env, a.st);
    var st1 := SetSlot(a.id, 0, t.id, t.st);
    var n1, m2 := SoundEval(src.body, e.body, a.id, st1, m1, fuel - 1);
    n, m' := n1 + 1, m2;
  }

  lemma {:induction false} SoundIf(src: Expr, e: Expr, env: nat, st: State, m: Denotation, fuel: nat)
    returns (n: nat, m': Denotation)
    requires fuel > 0 && src.If? && Ready(env, st, m) && BoundTo(src, m.envs[env], e)
    ensures var r := Eval(e, env, st, fuel);
            Faithful(r.out, EvalN(src, m.envs[env], n), m') && After(r, m, m')
    decreases fuel - 1, 3, 0
  {
    hide Means, AllFilled, BoundTo, CellAlias;
    BoundIf(src, m.envs[env], e);
    var s := m.envs[env];
    var n1, m1 := SoundEval(src.cond, e.cond, env, st, m, fuel - 1);
    n, m' := n1 + 1, m1;
    var r := Eval(e.cond, env, st, fuel - 1);
    if r.out.Ok? && r.out.value.VConst? && r.out.value.c.CBool? {
      var b := r.out.value.c.b;
      var srcB, eB := if b then src.thn else src.els, if b then e.thn else e.els;
      var n2, m2 := SoundEval(srcB, eB, env, r.st, m1, fuel - 1);
      var k := Max(n1, n2);
      MoreFuel(src.cond, s, n1, k);
      LiftEval(srcB, s, n2, k, Eval(eB, env, r.st, fuel - 1).out, m2);
      n, m' := k + 1, m2;
    }
  }

  // ---- calls ----

  ghost predicate ArgsAlias(args: seq<nat>, nargs: seq<Closure>, m: Denotation) {
    |args| == |nargs| && forall i :: 0 <= i < |args| ==> CellAlias(nargs[i], args[i], m)
  }

  lemma ArgsAliasExtends(args: seq<nat>, nargs: seq<Closure>, m: Denotation, m': Denotation)
    requires ArgsAlias(args, nargs, m) && Extends(m, m')
    ensures ArgsAlias(args, nargs, m')
  {
    forall i | 0 <= i < |args|
      ensures CellAlias(nargs[i], args[i], m')
    {
      assert CellAlias(nargs[i], args[i], m);
    }
  }

  lemma {:induction false} SoundCall(src: Expr, e: Expr, env: nat, st: State, m: Denotation, fuel: nat)
    returns (n: nat, m': Denotation)
    requires fuel > 0 && src.Call? && Ready(env, st, m) && BoundTo(src, m.envs[env], e)
    ensures var r := Eval(e, env, st, fuel);
            Faithful(r.out, EvalN(src, m.envs[env], n), m') && After(r, m, m')
    decreases fuel - 1, 6, 0
  {
    hide Means, AllFilled, BoundTo, ValRel;
    BoundCall(src, m.envs[env], e);
    var s := m.envs[env];
    var n1, m1 := SoundEval(src.fun, e.fun, env, st, m, fuel - 1);
    n, m' := n1 + 1, m1;
    var r := Eval(e.fun, env, st, fuel - 1);
    if r.out.Ok? {
      var f, nf := r.out.value, EvalN(src.fun, s, n1).value;
      var m2 := ThunkAllMeans(src.args, e.args, env, r.st, m1);
      var cs := ThunkAll(e.args, env, r.st);
      var nargs := seq(|src.args|, i requires 0 <= i < |src.args| => Clo(src.args[i], s));
      ValRelExtends(f, nf, m1, m2);
      GoodAlloc(r.st, m1, cs.st, m2);
      var n3, m3 := SoundCallFunction(f, nf, cs.ids, nargs, cs.st, m2, fuel - 1);
      var k := Max(n1, n3);
      MoreFuel(src.fun, s, n1, k);
      LiftApplyAll(nf, nargs, n3, k, CallFunction(f, cs.ids, cs.st, fuel - 1).out, m3);
      n, m' := k + 1, m3;
    }
  }

  lemma {:induction false} SoundCallFunction(f: Value, nf: NValue, args: seq<nat>, nargs: seq<Closure>, st: State,
                                             m: Denotation, fuel: nat) returns (n: nat, m': Denotation)
    requires Good(st, m) && ValRel(f, nf, m) && ArgsAlias(args, nargs, m)
    ensures var r := CallFunction(f, args, st, fuel);
            Faithful(r.out, ApplyAll(nf, nargs, n), m') && After(r, m, m')
    decreases fuel, 5, 0
  {
    n, m' := 0, m;
    if st.callDepth <= st.maxCallDepth {
      n, m' := SoundCallLoop(f, nf, args, nargs, Enter(st), m, fuel);
    }
  }

  lemma {:induction false} SoundCallLoop(f: Value, nf: NValue, args: seq<nat>, nargs: seq<Closure>, st: State,
                                         m: Denotation, fuel: nat) returns (n: nat, m': Denotation)
    requires Good(st, m) && ValRel(f, nf, m) && ArgsAlias(args, nargs, m)
    ensures var r := CallLoop(f, args, st, fuel);
            Faithful(r.out, ApplyAll(nf, nargs, n), m') && After(r, m, m')
    decreases fuel, 4, |args|
  {
    n, m' := 0, m;
    if args != [] {
      assert CellAlias(nargs[0], args[0], m);
      var n1, m1 := SoundCallOne(f, nf, args[0], nargs[0], st, m, fuel);
      n, m' := n1, m1;
      var r := CallOne(f, args[0], st, fuel);
      if r.out.Ok? {
        var g := Apply(nf, nargs[0], n1).value;
        ArgsAliasExtends(args, nargs, m, m1);
        assert ArgsAlias(args[1..], nargs[1..], m1) by {
          forall i | 0 <= i < |args| - 1
            ensures CellAlias(nargs[1..][i], args[1..][i], m1)
          {
            assert CellAlias(nargs[i + 1], args[i + 1], m1);
          }
        }
        var n2, m2 := SoundCallLoop(r.out.value, g, args[1..], nargs[1..], r.st, m1, fuel);
        n, m' := Max(n1, n2), m2;
        MoreFuelApply(nf, nargs[0], n1, n);
        LiftApplyAll(g, nargs[1..], n2, n, CallLoop(r.out.value, args[1..], r.st, fuel).out, m2);
      }
    }
  }

  lemma {:induction false} SoundCallOne(f: Value, nf: NValue, arg: nat, narg: Closure, st: State, m: Denotation,
                                        fuel: nat) returns (n: nat, m': Denotation)
    requires Good(st, m) && ValRel(f, nf, m) && CellAlias(narg, arg, m)
    ensures var r := CallOne(f, arg, st, fuel);
            Faithful(r.out, Apply(nf, narg, n), m') && After(r, m, m')
    decreases fuel, 3, 0
  {
    n, m' := 0, m;
    match f
    case VLambda(_, formals, _, _) =>
      if formals.None? {
        n, m' := SoundCallPlain(f, nf, arg, narg, st, m, fuel);
      } else {
        n, m' := SoundCallFormals(f, nf, arg, narg, st, m, fuel);
      }
    case VAttrs(attrs) =>
      GetAttrRel(attrs, nf.attrs, FUNCTOR, m);
      if GetAttr(attrs, FUNCTOR).Some? && fuel > 0 {
        n, m' := SoundCallFunctor(f, nf, arg, narg, st, m, fuel);
      }
    case _ =>
  }

  /** The frame of a lambda without formals. */
  lemma PlainFrameMeans(f: Value, nf: NValue, arg: nat, narg: Closure, st: State, m: Denotation)
    returns (m': Denotation)
    requires Good(st, m) && ValRel(f, nf, m) && CellAlias(narg, arg, m)
    requires f.VLambda? && f.formals.None?
    ensures nf.formals.None? && f.arg.Some?
    ensures var a := NewEnv(1, f.env, st);
            var s := LamFrame(nf.arg, nf.formals, narg, [], nf.s);
            && Ready(a.id, SetSlot(a.id, 0, arg, a.st), m') && Extends(m, m')
            && m'.envs[a.id] == s && BoundTo(nf.body, s, f.body)
  {
    LambdaParts(Lambda(nf.arg, nf.formals, nf.body), nf.s, Lambda(f.arg, f.formals, f.body));
    var s := LamFrame(nf.arg, nf.formals, narg, [], nf.s);
    NewEnvMeans(1, f.env, s, st, m);
    var a := NewEnv(1, f.env, st);
    m' := m.(envs := m.envs + [s]);
    SetSlotMeans(a.id, 0, arg, a.st, m');
    NewFrameFilled(st, m, SetSlot(a.id, 0, arg, a.st), m', a.id, 1);
  }

  lemma {:induction false} SoundCallPlain(f: Value, nf: NValue, arg: nat, narg: Closure, st: State, m: Denotation,
                                          fuel: nat) returns (n: nat, m': Denotation)
    requires Good(st, m) && ValRel(f, nf, m) && CellAlias(narg, arg, m)
    requires f.VLambda? && f.formals.None?
    ensures var r := CallOne(f, arg, st, fuel);
            Faithful(r.out, Apply(nf, narg, n), m') && After(r, m, m')
    decreases fuel, 2, 0
  {
    hide Means, AllFilled, CellAlias, BoundTo;
    LambdaParts(Lambda(nf.arg, nf.formals, nf.body), nf.s, Lambda(f.arg, f.formals, f.body));
    var m1 := PlainFrameMeans(f, nf, arg, narg, st, m);
    var a := NewEnv(1, f.env, st);
    n, m' := SoundEval(nf.body, f.body, a.id, SetSlot(a.id, 0, arg, a.st), m1, fuel);
  }

  /** The copy of a functor set that is passed to its own `__functor`. */
  lemma SelfCell(f: Value, nf: NValue, arg: nat, narg: Closure, c: nat, clo: Closure, st: State, m: Denotation)
    returns (m': Denotation)
    requires Good(st, m) && ValRel(f, nf, m) && CellAlias(narg, arg, m) && CellAlias(clo, c, m)
    ensures var self := NewCell(Val(f), st);
            && Good(self.st, m') && Good(Enter(self.st), m') && Extends(m, m') && CellAlias(clo, c, m')
            && ArgsAlias([self.id, arg], [Done(nf), narg], m')
  {
    assert EvalClosure(Done(nf), 0) == Ok(nf);
    NewCellMeans(Val(f), Done(nf), st, m);
    m' := m.(cells := m.cells + [Done(nf)]);
    SelfAlias(Done(nf));
  }

  lemma GoodLeave(r: Run<Value>, m: Denotation, m': Denotation)
    requires After(r, m, m')
    ensures After(Leave(r), m, m')
  {
  }

  lemma {:induction false} SoundCallFunctor(f: Value, nf: NValue, arg: nat, narg: Closure, st: State, m: Denotation,
                                            fuel: nat) returns (n: nat, m': Denotation)
    requires Good(st, m) && ValRel(f, nf, m) && CellAlias(narg, arg, m)
    requires fuel > 0 && f.VAttrs? && GetAttr(f.attrs, FUNCTOR).Some?
    ensures var r := CallOne(f, arg, st, fuel);
            Faithful(r.out, Apply(nf, narg, n), m') && After(r, m, m')
    decreases fuel - 1, 6, 0
  {
    hide Means, ValRel, AllFilled, CellAlias;
    AttrOf(f, nf, FUNCTOR, m);
    var c, clo := GetAttr(f.attrs, FUNCTOR).value, FindAttr(nf.attrs, FUNCTOR).value;
    var m1 := SelfCell(f, nf, arg, narg, c, clo, st, m);
    var self := NewCell(Val(f), st);
    var args, nargs := [self.id, arg], [Done(nf), narg];
    n, m' := 0, m1;
    if self.st.callDepth <= self.st.maxCallDepth {
      var n1, m2 := SoundForce(c, clo, Enter(self.st), m1, fuel - 1);
      n, m' := n1 + 1, m2;
      var r := Force(c, Enter(self.st), fuel - 1);
      if r.out.Ok? {
        var g := EvalClosure(clo, n1).value;
        ArgsAliasExtends(args, nargs, m1, m2);
        var n3, m3 := SoundCallLoop(r.out.value, g, args, nargs, r.st, m2, fuel - 1);
        var k := Max(n1, n3);
        MoreFuelClosure(clo, n1, k);
        LiftApplyAll(g, nargs, n3, k, CallLoop(r.out.value, args, r.st, fuel - 1).out, m3);
        GoodLeave(CallLoop(r.out.value, args, r.st, fuel - 1), m2, m3);
        n, m' := k + 1, m3;
      } else {
        GoodLeave(r, m1, m2);
      }
    }
  }

  // ---- calls with formals ----

  lemma {:induction false} MissingAgrees(srcs: seq<Formal>, formals: seq<Formal>, env: StaticEnv, attrs: seq<VAttr>,
                                         nattrs: seq<NAttr>, m: Denotation)
    requires |srcs| == |formals|
    requires forall i :: 0 <= i < |formals| ==> FormalBound(srcs[i], formals[i], env)
    requires ValRel(VAttrs(attrs), NAttrs(nattrs), m)
    ensures FirstMissingArg(formals, attrs) == FirstMissing(srcs, nattrs)
    ensures FirstMissing(srcs, nattrs).None? ==>
              forall i, s :: 0 <= i < |srcs| ==> FormalClosure(srcs[i], nattrs, s).Some?
  {
    if srcs != [] {
      assert FormalBound(srcs[0], formals[0], env);
      GetAttrRel(attrs, nattrs, srcs[0].name, m);
      assert forall i :: 0 <= i < |formals[1..]| ==> formals[1..][i] == formals[i + 1] && srcs[1..][i] == srcs[i + 1];
      MissingAgrees(srcs[1..], formals[1..], env, attrs, nattrs, m);
      if FirstMissing(srcs, nattrs).None? {
        forall i, s | 0 <= i < |srcs|
          ensures FormalClosure(srcs[i], nattrs, s).Some?
        {
          if i > 0 {
            assert FormalClosure(srcs[1..][i - 1], nattrs, s).Some?;
          }
        }
      }
    }
  }

  lemma {:induction false} UnexpectedAgrees(srcs: seq<Formal>, formals: seq<Formal>, attrs: seq<VAttr>,
                                            nattrs: seq<NAttr>)
    requires |srcs| == |formals| && |attrs| == |nattrs|
    requires forall i :: 0 <= i < |formals| ==> srcs[i].name == formals[i].name
    requires forall i :: 0 <= i < |attrs| ==> attrs[i].name == nattrs[i].name
    ensures FirstUnexpectedArg(formals, attrs) == FirstUnexpected(srcs, nattrs)
  {
    if attrs != [] {
      FindFormalAgrees(srcs, formals, attrs[0].name);
      UnexpectedAgrees(srcs, formals, attrs[1..], nattrs[1..]);
    }
  }

  lemma {:induction false} FindFormalAgrees(srcs: seq<Formal>, formals: seq<Formal>, name: Symbol)
    requires |srcs| == |formals|
    requires forall i :: 0 <= i < |formals| ==> srcs[i].name == formals[i].name
    ensures FindFormal(srcs, name).Some? <==> FindFormal(formals, name).Some?
  {
    if srcs != [] {
      FindFormalAgrees(srcs[1..], formals[1..], name);
    }
  }

  /** The frame `env` is that of a lambda whose formals are `srcs`, called with the set `attrs`. */
  ghost predicate FormalsFrame(srcs: seq<Formal>, formals: seq<Formal>, first: nat, attrs: seq<VAttr>, env: nat,
                               st: State, m: Denotation)
  {
    && Means(st, m) && |st.envs| == |m.envs| && env < |m.envs| && |srcs| == |formals|
    && var s := m.envs[env];
    && s.LamFrame? && s.formals.Some? && s.formals.value.formals == srcs && first == FirstFormal(s.arg)
    && ValRel(VAttrs(attrs), NAttrs(s.given), m)
    && ScopeOk(s) && FrameOk(s)
    && (forall j :: 0 <= j < |formals| ==> FormalBound(srcs[j], formals[j], Shape(s)))
  }

  /** One formal: what goes into its slot is the attribute given for it, or its default. */
  lemma FillFormalMeans(srcs: seq<Formal>, formals: seq<Formal>, i: nat, first: nat, attrs: seq<VAttr>, env: nat,
                        st: State, m: Denotation) returns (m': Denotation, c: nat, st1: State)
    requires FormalsFrame(srcs, formals, first, attrs, env, st, m) && i < |formals|
    requires FilledUpTo(st.envs[env], first + i)
    ensures var st' := SetSlot(env, first + i, c, st1);
            && FormalsFrame(srcs, formals, first, attrs, env, st', m')
            && Extends(m, m') && m'.envs == m.envs && OnlyFills(st, st', env)
            && FilledUpTo(st'.envs[env], first + i + 1)
    ensures match GetAttr(attrs, formals[i].name)
            case Some(c') => c == c' && st1 == st
            case None => formals[i].def.Some? && Alloc(c, st1) == MaybeThunk(formals[i].def.value, env, st)
  {
    hide Means, ValRel, FrameOk, FormalBound, Shape, MaybeThunk, CellAlias, SlotClosure;
    m', c, st1 := FormalCell(srcs, formals, i, first, attrs, env, st, m);
    SlotFilled(env, first + i, c, st1, m');
  }

  /** The cell that is put into the slot of a formal. */
  lemma FormalCell(srcs: seq<Formal>, formals: seq<Formal>, i: nat, first: nat, attrs: seq<VAttr>, env: nat,
                   st: State, m: Denotation) returns (m': Denotation, c: nat, st1: State)
    requires FormalsFrame(srcs, formals, first, attrs, env, st, m) && i < |formals|
    ensures Means(st1, m') && Extends(m, m') && m'.envs == m.envs && st1.envs == st.envs
    ensures ValRel(VAttrs(attrs), NAttrs(m.envs[env].given), m')
    ensures first + i < SlotCount(m.envs[env]) && SlotOk(Some(c), m.envs[env], first + i, m')
    ensures match GetAttr(attrs, formals[i].name)
            case Some(c') => c == c' && st1 == st
            case None => formals[i].def.Some? && Alloc(c, st1) == MaybeThunk(formals[i].def.value, env, st)
  {
    hide ScopeOk, AllFilled, Means;
    var s := m.envs[env];
    assert FormalBound(srcs[i], formals[i], Shape(s));
    GetAttrRel(attrs, s.given, formals[i].name, m);
    assert SlotClosure(s, first + i) == FormalClosure(srcs[i], s.given, s);
    assert FormalClosure(srcs[i], s.given, s).Some?;
    hide FrameOk, ValRel;
    m', st1, c := m, st, 0;
    if GetAttr(attrs, formals[i].name).Some? {
      c := GetAttr(attrs, formals[i].name).value;
    } else {
      m' := MaybeThunkMeans(srcs[i].def.value, formals[i].def.value, env, st, m);
      var a := MaybeThunk(formals[i].def.value, env, st);
      c, st1 := a.id, a.st;
      ValRelExtends(VAttrs(attrs), NAttrs(s.given), m, m');
    }
    assert CellAlias(SlotClosure(s, first + i).value, c, m');
  }

  /** Filling the formals of a frame whose arguments match. */
  lemma {:induction false} FillFormalsMeans(srcs: seq<Formal>, formals: seq<Formal>, i: nat, first: nat,
                                            attrs: seq<VAttr>, env: nat, st: State, m: Denotation)
    returns (m': Denotation)
    requires FormalsFrame(srcs, formals, first, attrs, env, st, m) && i <= |formals|
    requires FilledUpTo(st.envs[env], first + i)
    ensures var r := FillFormals(formals, i, first, attrs, env, st);
            && Means(r.st, m') && Extends(m, m') && m'.envs == m.envs
            && OnlyFills(st, r.st, env) && FilledUpTo(r.st.envs[env], first + |formals|)
    decreases |formals| - i
  {
    hide Means, ValRel, FrameOk, FormalBound, Shape;
    if i == |formals| {
      m' := m;
    } else {
      var m1, c, st1 := FillFormalMeans(srcs, formals, i, first, attrs, env, st, m);
      m' := FillFormalsMeans(srcs, formals, i + 1, first, attrs, env, SetSlot(env, first + i, c, st1), m1);
    }
  }

  lemma NewFrameFilled(st: State, m: Denotation, st': State, m': Denotation, env: nat, size: nat)
    requires AllFilled(st, m) && |m.envs| == env == |st.envs| && |st'.envs| == env + 1 && Extends(m, m')
    requires forall r :: 0 <= r < env ==> st'.envs[r] == st.envs[r]
    requires FilledUpTo(st'.envs[env], size) && |st'.envs[env].values| == size
    ensures AllFilled(st', m')
  {
    forall k | 0 <= k < |st'.envs| && k < |m'.envs| && ScopeOk(m'.envs[k])
      ensures Filled(st'.envs[k])
    {
      if k < env {
        assert Filled(st.envs[k]);
      }
    }
  }

  /** The frame of a call with formals, before they are filled: only the slot of the whole argument is. */
  function OpenFrame(f: Value, arg: nat, st: State): Alloc
    requires f.VLambda? && f.formals.Some?
  {
    var a := NewEnv((if f.arg.Some? then 1 else 0) + |f.formals.value.formals|, f.env, st);
    Alloc(a.id, if f.arg.Some? then SetSlot(a.id, 0, arg, a.st) else a.st)
  }

  /** The scope of a call with formals whose argument matches. */
  lemma FormalsScope(f: Value, nf: NValue, narg: Closure, attrs: seq<VAttr>, nattrs: seq<NAttr>, m: Denotation)
    requires f.VLambda? && ValRel(f, nf, m) && f.formals.Some? && nf.NLambda? && nf.formals.Some?
    requires ValRel(VAttrs(attrs), NAttrs(nattrs), m) && FirstMissing(nf.formals.value.formals, nattrs).None?
    ensures var s := LamFrame(nf.arg, nf.formals, narg, nattrs, nf.s);
            var srcs, formals := nf.formals.value.formals, f.formals.value.formals;
            && FrameOk(s) && f.arg == nf.arg && |srcs| == |formals|
            && SlotCount(s) == FirstFormal(f.arg) + |formals|
            && f.env < |m.envs| && m.envs[f.env] == nf.s && ScopeOk(nf.s)
            && forall j :: 0 <= j < |formals| ==> FormalBound(srcs[j], formals[j], Shape(s))
  {
    LambdaParts(Lambda(nf.arg, nf.formals, nf.body), nf.s, Lambda(f.arg, f.formals, f.body));
    var s := LamFrame(nf.arg, nf.formals, narg, nattrs, nf.s);
    MissingAgrees(nf.formals.value.formals, f.formals.value.formals, Shape(s), attrs, nattrs, m);
  }

  lemma OpenFormalsFrame(f: Value, nf: NValue, arg: nat, narg: Closure, attrs: seq<VAttr>, nattrs: seq<NAttr>,
                         st: State, m: Denotation) returns (m': Denotation)
    requires Good(st, m) && f.VLambda? && ValRel(f, nf, m) && f.formals.Some? && nf.NLambda? && nf.formals.Some?
    requires CellAlias(narg, arg, m) && ValRel(VAttrs(attrs), NAttrs(nattrs), m)
    requires FirstMissing(nf.formals.value.formals, nattrs).None?
    ensures var first, a := FirstFormal(f.arg), OpenFrame(f, arg, st);
            && FormalsFrame(nf.formals.value.formals, f.formals.value.formals, first, attrs, a.id, a.st, m')
            && FilledUpTo(a.st.envs[a.id], first) && Extends(m, m')
            && m'.envs == m.envs + [LamFrame(nf.arg, nf.formals, narg, nattrs, nf.s)]
            && a.id == |st.envs| && |a.st.envs| == a.id + 1 && ScopeOk(m'.envs[a.id])
            && (forall r :: 0 <= r < a.id ==> a.st.envs[r] == st.envs[r])
            && |a.st.envs[a.id].values| == first + |f.formals.value.formals|
  {
    hide AllFilled, Means, ValRel, FrameOk, FormalBound, Shape;
    FormalsScope(f, nf, narg, attrs, nattrs, m);
    var s := LamFrame(nf.arg, nf.formals, narg, nattrs, nf.s);
    var size := FirstFormal(f.arg) + |f.formals.value.formals|;
    NewEnvMeans(size, f.env, s, st, m);
    var a := NewEnv(size, f.env, st);
    m' := m.(envs := m.envs + [s]);
    if f.arg.Some? {
      CellAliasExtends(narg, arg, m, m');
      SlotFilled(a.id, 0, arg, a.st, m');
    }
    ValRelExtends(VAttrs(attrs), NAttrs(nattrs), m, m');
  }

  /** The frame of a lambda with formals whose argument matches. */
  lemma FormalsFrameMeans(f: Value, nf: NValue, arg: nat, narg: Closure, attrs: seq<VAttr>, nattrs: seq<NAttr>,
                          st: State, m: Denotation) returns (m': Denotation)
    requires Good(st, m) && f.VLambda? && ValRel(f, nf, m) && f.formals.Some? && nf.NLambda? && nf.formals.Some?
    requires CellAlias(narg, arg, m) && ValRel(VAttrs(attrs), NAttrs(nattrs), m)
    requires FirstMissing(nf.formals.value.formals, nattrs).None?
    ensures var a := OpenFrame(f, arg, st);
            var r := FillFormals(f.formals.value.formals, 0, FirstFormal(f.arg), attrs, a.id, a.st);
            && Ready(a.id, r.st, m') && Extends(m, m')
            && m'.envs[a.id] == LamFrame(nf.arg, nf.formals, narg, nattrs, nf.s)
  {
    hide ScopeOk, Shape, FormalsFrame, CellAlias, ValRel, FrameOk, FilledUpTo;
    var first, formals := FirstFormal(f.arg), f.formals.value.formals;
    var a := OpenFrame(f, arg, st);
    var m1 := OpenFormalsFrame(f, nf, arg, narg, attrs, nattrs, st, m);
    hide OpenFrame, FillFormals;
    m' := FillFormalsMeans(nf.formals.value.formals, formals, 0, first, attrs, a.id, a.st, m1);
    var r := FillFormals(formals, 0, first, attrs, a.id, a.st);
    MeansSizes(r.st, m');
    hide Means;
    NewFrameFilled(st, m, r.st, m', a.id, first + |formals|);
  }

  lemma {:induction false} SoundCallFormals(f: Value, nf: NValue, arg: nat, narg: Closure, st: State, m: Denotation,
                                            fuel: nat) returns (n: nat, m': Denotation)
    requires Good(st, m) && ValRel(f, nf, m) && CellAlias(narg, arg, m)
    requires f.VLambda? && f.formals.Some?
    ensures var r := CallOne(f, arg, st, fuel);
            Faithful(r.out, Apply(nf, narg, n), m') && After(r, m, m')
    decreases fuel, 2, 0
  {
    LambdaParts(Lambda(nf.arg, nf.formals, nf.body), nf.s, Lambda(f.arg, f.formals, f.body));
    var n1, m1 := SoundForce(arg, narg, st, m, fuel);
    n, m' := n1, m1;
    var r := Force(arg, st, fuel);
    if r.out.Ok? && r.out.value.VAttrs? {
      var nv := EvalClosure(narg, n1).value;
      ValRelExtends(f, nf, m, m1);
      var n2;
      n2, m' := SoundMatched(f, nf, arg, narg, r.out.value.attrs, nv.attrs, r.st, m1, fuel);
      n := Max(n1, n2);
      MoreFuelClosure(narg, n1, n);
      if MatchError(nf.formals.value, nv.attrs).None? {
        LiftEval(nf.body, LamFrame(nf.arg, nf.formals, narg, nv.attrs, nf.s), n2, n, CallOne(f, arg, st, fuel).out, m');
      }
    }
  }

  /** What the reference does once the argument is known to be the set `nattrs`. */
  function ApplyMatched(nf: NValue, narg: Closure, nattrs: seq<NAttr>, n: nat): Outcome<NValue>
    requires nf.NLambda? && nf.formals.Some?
  {
    match MatchError(nf.formals.value, nattrs)
    case Some(x) => Err(x)
    case None => EvalN(nf.body, LamFrame(nf.arg, nf.formals, narg, nattrs, nf.s), n)
  }

  lemma BodyIsBound(f: Value, nf: NValue, narg: Closure, nattrs: seq<NAttr>, m: Denotation)
    requires f.VLambda? && ValRel(f, nf, m)
    ensures BoundTo(nf.body, LamFrame(nf.arg, nf.formals, narg, nattrs, nf.s), f.body)
  {
    LambdaParts(Lambda(nf.arg, nf.formals, nf.body), nf.s, Lambda(f.arg, f.formals, f.body));
  }

  /** The machine's checks of an argument set decide as the reference does, and its last resort, that
    the count is wrong but no attribute is unexpected, does not occur. */
  lemma MatchOutcome(f: Value, nf: NValue, attrs: seq<VAttr>, nattrs: seq<NAttr>, m: Denotation)
    requires f.VLambda? && ValRel(f, nf, m) && f.formals.Some? && nf.NLambda? && nf.formals.Some?
    requires ValRel(VAttrs(attrs), NAttrs(nattrs), m)
    ensures f.formals.value.ellipsis == nf.formals.value.ellipsis
    ensures FirstMissingArg(f.formals.value.formals, attrs) == FirstMissing(nf.formals.value.formals, nattrs)
    ensures FirstUnexpectedArg(f.formals.value.formals, attrs) == FirstUnexpected(nf.formals.value.formals, nattrs)
    ensures UsedCount(f.formals.value.formals, attrs) == |attrs| <==>
              FirstUnexpectedArg(f.formals.value.formals, attrs).None?
  {
    LambdaParts(Lambda(nf.arg, nf.formals, nf.body), nf.s, Lambda(f.arg, f.formals, f.body));
    var srcs, formals := nf.formals.value.formals, f.formals.value.formals;
    var env := Vars(LambdaVars(nf.arg, nf.formals), Shape(nf.s));
    MissingAgrees(srcs, formals, env, attrs, nattrs, m);
    forall i | 0 <= i < |formals|
      ensures formals[i].name == srcs[i].name
    {
      assert FormalBound(srcs[i], formals[i], env);
    }
    UnexpectedAgrees(srcs, formals, attrs, nattrs);
    CountIsExact(formals, attrs);
  }

  /** Delaying a default in a frame that is not in use makes a cell that is not either. */
  lemma DeadThunk(e: Expr, env: nat, st: State, m: Denotation) returns (m': Denotation)
    requires Good(st, m) && env < |st.envs| && !ScopeOk(m.envs[env])
    ensures var a := MaybeThunk(e, env, st);
            Good(a.st, m') && Extends(m, m') && m'.envs == m.envs && a.st.envs == st.envs
  {
    var a := MaybeThunk(e, env, st);
    if a.st == st {
      m' := m;
    } else {
      var c := Clo(e, m.envs[env]);
      NewCellMeans(a.st.cells[|st.cells|], c, st, m);
      m' := m.(cells := m.cells + [c]);
    }
  }

  lemma {:induction false} DeadFill(formals: seq<Formal>, i: nat, first: nat, attrs: seq<VAttr>, env: nat, st: State,
                                    m: Denotation) returns (m': Denotation)
    requires Good(st, m) && env < |st.envs| && !ScopeOk(m.envs[env])
    ensures Good(FillFormals(formals, i, first, attrs, env, st).st, m') && Extends(m, m')
    decreases |formals| - i
  {
    hide Means;
    m' := m;
    if i < |formals| {
      var found := GetAttr(attrs, formals[i].name);
      if found.Some? {
        SetSlotDead(env, first + i, found.value, st, m);
        m' := DeadFill(formals, i + 1, first, attrs, env, SetSlot(env, first + i, found.value, st), m);
      } else if formals[i].def.Some? {
        var m1 := DeadThunk(formals[i].def.value, env, st, m);
        var a := MaybeThunk(formals[i].def.value, env, st);
        SetSlotDead(env, first + i, a.id, a.st, m1);
        m' := DeadFill(formals, i + 1, first, attrs, env, SetSlot(env, first + i, a.id, a.st), m1);
      }
    }
  }

  lemma SetSlotDead(env: nat, d: nat, c: nat, st: State, m: Denotation)
    requires Good(st, m) && env < |st.envs| && !ScopeOk(m.envs[env])
    ensures Good(SetSlot(env, d, c, st), m)
  {
    SetSlotMeans(env, d, c, st, m);
  }

  lemma {:induction false} MissingClosure(srcs: seq<Formal>, nattrs: seq<NAttr>, s: Scope) returns (i: nat)
    requires FirstMissing(srcs, nattrs).Some?
    ensures i < |srcs| && FormalClosure(srcs[i], nattrs, s).None?
  {
    if FindAttr(nattrs, srcs[0].name).None? && srcs[0].def.None? {
      i := 0;
    } else {
      i := MissingClosure(srcs[1..], nattrs, s);
      i := i + 1;
    }
  }

  /** A call that lacks an argument leaves a frame that is not in use. */
  lemma DeadFrame(f: Value, nf: NValue, arg: nat, narg: Closure, attrs: seq<VAttr>, nattrs: seq<NAttr>, st: State,
                  m: Denotation) returns (m': Denotation)
    requires Good(st, m) && f.VLambda? && f.formals.Some? && nf.NLambda? && nf.formals.Some?
    requires FirstMissing(nf.formals.value.formals, nattrs).Some?
    ensures var a := OpenFrame(f, arg, st);
            var r := FillFormals(f.formals.value.formals, 0, FirstFormal(f.arg), attrs, a.id, a.st);
            Good(r.st, m') && Extends(m, m')
  {
    var s := LamFrame(nf.arg, nf.formals, narg, nattrs, nf.s);
    var i := MissingClosure(nf.formals.value.formals, nattrs, s);
    assert !FrameOk(s);
    var size := FirstFormal(f.arg) + |f.formals.value.formals|;
    AnyEnvMeans(size, f.env, s, st, m);
    var a := NewEnv(size, f.env, st);
    var m1 := m.(envs := m.envs + [s]);
    assert Good(a.st, m1);
    if f.arg.Some? {
      SetSlotDead(a.id, 0, arg, a.st, m1);
    }
    var open := OpenFrame(f, arg, st);
    m' := DeadFill(f.formals.value.formals, 0, FirstFormal(f.arg), attrs, open.id, open.st, m1);
  }

  lemma {:induction false} SoundMatched(f: Value, nf: NValue, arg: nat, narg: Closure, attrs: seq<VAttr>,
                                        nattrs: seq<NAttr>, st: State, m: Denotation, fuel: nat)
    returns (n: nat, m': Denotation)
    requires Good(st, m) && f.VLambda? && ValRel(f, nf, m) && f.formals.Some? && nf.NLambda? && nf.formals.Some?
    requires CellAlias(narg, arg, m) && ValRel(VAttrs(attrs), NAttrs(nattrs), m)
    ensures var r := CallFormals(f.arg, f.formals.value, f.body, f.env, arg, attrs, st, fuel);
            Faithful(r.out, ApplyMatched(nf, narg, nattrs, n), m') && After(r, m, m')
    decreases fuel, 1, 0
  {
    hide Means, AllFilled, CellAlias, Shape, FormalBound, BoundTo, FrameOk, FillFormals, MaybeThunk;
    n, m' := 0, m;
    var s := LamFrame(nf.arg, nf.formals, narg, nattrs, nf.s);
    hide ValRel;
    var formals := f.formals.value.formals;
    MatchOutcome(f, nf, attrs, nattrs, m);
    var first := FirstFormal(f.arg);
    var a := NewEnv(first + |formals|, f.env, st);
    var st1 := if f.arg.Some? then SetSlot(a.id, 0, arg, a.st) else a.st;
    FillFormalsOutcome(formals, 0, first, attrs, a.id, st1);
    assert formals[0..] == formals;
    if FirstMissing(nf.formals.value.formals, nattrs).Some? {
      m' := DeadFrame(f, nf, arg, narg, attrs, nattrs, st, m);
    } else if MatchError(nf.formals.value, nattrs).Some? {
      m' := FormalsFrameMeans(f, nf, arg, narg, attrs, nattrs, st, m);
    } else {
      var m1 := FormalsFrameMeans(f, nf, arg, narg, attrs, nattrs, st, m);
      BodyIsBound(f, nf, narg, nattrs, m);
      n, m' := SoundEval(nf.body, f.body, a.id, FillFormals(formals, 0, first, attrs, a.id, st1).st, m1, fuel);
    }
  }
}
