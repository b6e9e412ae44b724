/** What a heap means: every environment stands for a scope and every cell for a closure of the
  reference semantics. */
module Meaning {
  import opened Options
  import opened Syntax
  import opened Scoping
  import opened Reference
  import opened Fuel
  import opened Machine

  // ---- scopes, their static shape and their slots ----

  function BaseNames(vars: seq<BaseVar>): seq<Symbol> {
    seq(|vars|, i requires 0 <= i < |vars| => vars[i].name)
  }

  /** The static environment in which code that runs in scope `s` was resolved. */
  function Shape(s: Scope): StaticEnv {
    match s
    case Base(vars) => Vars(SortVars(SlotVars(BaseNames(vars))), Nil)
    case RecFrame(attrs, _, up) => Vars(AttrVars(attrs), Shape(up))
    case InheritFrame(_, up) => Vars([], Shape(up))
    case LamFrame(arg, formals, _, _, up) => Vars(LambdaVars(arg, formals), Shape(up))
    case WithFrame(_, up) => WithEnv(LinkOf(Shape(up)).prevWith, LinkOf(Shape(up)).parentWith, Shape(up))
  }

  function SlotCount(s: Scope): nat {
    match s
    case Base(vars) => |vars|
    case RecFrame(attrs, _, _) => |attrs|
    case InheritFrame(froms, _) => |froms|
    case LamFrame(arg, formals, _, _, _) => |LambdaNames(arg, formals)|
    case WithFrame(_, _) => 1
  }

  function FirstFormal(arg: Option<Symbol>): nat {
    if arg.Some? then 1 else 0
  }

  /** The closure that belongs in slot `d` of a frame for `s`. */
  function SlotClosure(s: Scope, d: nat): Option<Closure>
    requires d < SlotCount(s)
  {
    match s
    case Base(vars) => Some(Done(NConst(vars[d].c)))
    case RecFrame(attrs, froms, up) => Some(DefClosure(attrs[d], froms, s, up))
    case InheritFrame(froms, up) => Some(Clo(froms[d], up))
    case LamFrame(arg, formals, whole, given, _) =>
      if arg.Some? && d == 0 then Some(whole)
      else FormalClosure(formals.value.formals[d - FirstFormal(arg)], given, s)
    case WithFrame(source, _) => Some(source)
  }

  ghost predicate Distinct(names: seq<Symbol>) {
    forall i, j :: 0 <= i < j < |names| ==> names[i] != names[j]
  }

  ghost predicate FrameOk(s: Scope) {
    match s
    case Base(vars) => Distinct(BaseNames(vars))
    case RecFrame(attrs, _, _) => SortedNames(attrs)
    case InheritFrame(_, _) => true
    case LamFrame(arg, formals, _, given, _) =>
      && Distinct(LambdaNames(arg, formals))
      && (formals.Some? ==> forall i :: 0 <= i < |formals.value.formals| ==>
            FormalClosure(formals.value.formals[i], given, s).Some?)
    case WithFrame(_, _) => true
  }

  ghost predicate ScopeOk(s: Scope) {
    FrameOk(s) && (!s.Base? ==> ScopeOk(s.up))
  }

  /** A closure in the scope of a frame that is in use. A call that fails for want of an argument leaves
    a frame behind that is not: some of its slots are never filled, and nothing refers to it. */
  ghost predicate Live(c: Closure) {
    c.Clo? ==> ScopeOk(c.s)
  }

  function UpScope(s: Scope, level: nat): Option<Scope> {
    if level == 0 then Some(s) else if s.Base? then None else UpScope(s.up, level - 1)
  }

  // ---- names and slots agree, frame by frame ----

  lemma {:induction false} FindSlotVars(names: seq<Symbol>, name: Symbol)
    requires Distinct(names)
    ensures match FindVar(SlotVars(names), name)
            case Some(d) => d < |names| && names[d] == name
            case None => name !in names
  {
    var vars := SlotVars(names);
    FindVarNone(vars, name);
    if i :| 0 <= i < |names| && names[i] == name {
      FindVarFirst(vars, name, i);
    }
  }

  lemma {:induction false} FindDefAt(attrs: seq<AttrDef>, name: Symbol)
    requires SortedNames(attrs)
    ensures match FindVar(AttrVars(attrs), name)
            case Some(d) => d < |attrs| && FindDef(attrs, name) == Some(attrs[d])
            case None => FindDef(attrs, name) == None
  {
    var vars := AttrVars(attrs);
    FindVarNone(vars, name);
    if i :| 0 <= i < |attrs| && attrs[i].name == name {
      FindVarFirst(vars, name, i);
      FindDefIs(attrs, i);
    } else {
      FindDefNone(attrs, name);
    }
  }

  lemma {:induction false} FindDefIs(attrs: seq<AttrDef>, i: nat)
    requires SortedNames(attrs) && i < |attrs|
    ensures FindDef(attrs, attrs[i].name) == Some(attrs[i])
  {
    if i > 0 {
      assert attrs[0].name != attrs[i].name;
      FindDefIs(attrs[1..], i - 1);
    }
  }

  lemma {:induction false} FindDefNone(attrs: seq<AttrDef>, name: Symbol)
    requires forall i :: 0 <= i < |attrs| ==> attrs[i].name != name
    ensures FindDef(attrs, name) == None
  {
    if attrs != [] {
      FindDefNone(attrs[1..], name);
    }
  }

  lemma {:induction false} FindBaseAt(vars: seq<BaseVar>, name: Symbol, i: nat)
    requires Distinct(BaseNames(vars)) && i < |vars| && vars[i].name == name
    ensures FindBase(vars, name) == Some(Done(NConst(vars[i].c)))
  {
    if i > 0 {
      assert BaseNames(vars)[0] != BaseNames(vars)[i];
      assert BaseNames(vars[1..]) == BaseNames(vars)[1..];
      FindBaseAt(vars[1..], name, i - 1);
    }
  }

  lemma {:induction false} FindBaseNone(vars: seq<BaseVar>, name: Symbol)
    requires name !in BaseNames(vars)
    ensures FindBase(vars, name) == None
  {
    if vars != [] {
      assert BaseNames(vars)[0] == vars[0].name;
      assert BaseNames(vars[1..]) == BaseNames(vars)[1..];
      FindBaseNone(vars[1..], name);
    }
  }

  lemma {:induction false} FindFormalAt(formals: seq<Formal>, i: nat)
    requires i < |formals|
    requires forall j :: 0 <= j < i ==> formals[j].name != formals[i].name
    ensures FindFormal(formals, formals[i].name) == Some(formals[i])
  {
    if i > 0 {
      FindFormalAt(formals[1..], i - 1);
    }
  }

  lemma {:induction false} FindFormalNone(formals: seq<Formal>, name: Symbol)
    requires forall i :: 0 <= i < |formals| ==> formals[i].name != name
    ensures FindFormal(formals, name) == None
  {
    if formals != [] {
      FindFormalNone(formals[1..], name);
    }
  }

  lemma FrameFindBase(vars: seq<BaseVar>, name: Symbol)
    requires Distinct(BaseNames(vars))
    ensures match FindVar(SortVars(SlotVars(BaseNames(vars))), name)
            case Some(d) => d < |vars| && FindBase(vars, name) == Some(Done(NConst(vars[d].c)))
            case None => FindBase(vars, name) == None
  {
    var names := BaseNames(vars);
    FindSorted(SlotVars(names), name);
    FindSlotVars(names, name);
    match FindVar(SlotVars(names), name)
    case Some(d) => FindBaseAt(vars, name, d);
    case None => FindBaseNone(vars, name);
  }

  lemma FrameFindLambda(s: Scope, name: Symbol)
    requires s.LamFrame? && FrameOk(s)
    ensures match FindVar(LambdaVars(s.arg, s.formals), name)
            case Some(d) => d < SlotCount(s) && LexicalBinding(s, name) == SlotClosure(s, d)
            case None => LexicalBinding(s, name) == LexicalBinding(s.up, name)
  {
    var names := LambdaNames(s.arg, s.formals);
    FindSorted(SlotVars(names), name);
    FindSlotVars(names, name);
    var first := FirstFormal(s.arg);
    match FindVar(SlotVars(names), name)
    case Some(d) =>
      if s.arg.Some? && d != 0 {
        assert names[0] != names[d];
      }
      if !(s.arg.Some? && d == 0) {
        var fs := s.formals.value.formals;
        forall j | 0 <= j < d - first
          ensures fs[j].name != fs[d - first].name
        {
          assert names[first + j] != names[d];
        }
        FindFormalAt(fs, d - first);
      }
    case None =>
      if s.arg.Some? {
        assert names[0] == s.arg.value;
      }
      if s.formals.Some? {
        forall j | 0 <= j < |s.formals.value.formals|
          ensures s.formals.value.formals[j].name != name
        {
          assert names[first + j] == s.formals.value.formals[j].name;
        }
        FindFormalNone(s.formals.value.formals, name);
      }
  }

  /** A name that resolves to level `k` and slot `d` is bound, `k` scopes up, by what belongs in that
    slot; a name that does not resolve lexically has no lexical binding. */
  ghost predicate SlotOfName(s: Scope, name: Symbol, level: nat) {
    match Lexical(name, Shape(s), level)
    case Some(r) =>
      && r.fromWith == NoWith && r.level >= level
      && UpScope(s, r.level - level).Some?
      && var t := UpScope(s, r.level - level).value;
      r.displ < SlotCount(t) && SlotClosure(t, r.displ).Some? &&
      LexicalBinding(s, name) == SlotClosure(t, r.displ)
    case None => LexicalBinding(s, name) == None
  }

  lemma SlotHere(s: Scope, name: Symbol, level: nat, d: nat)
    requires Lexical(name, Shape(s), level) == Some(VarRef(NoWith, level, d)) && d < SlotCount(s)
    requires SlotClosure(s, d).Some? && LexicalBinding(s, name) == SlotClosure(s, d)
    ensures SlotOfName(s, name, level)
  {
  }

  lemma SlotFurtherUp(s: Scope, name: Symbol, level: nat)
    requires !s.Base? && Lexical(name, Shape(s), level) == Lexical(name, Shape(s.up), level + 1)
    requires LexicalBinding(s, name) == LexicalBinding(s.up, name) && SlotOfName(s.up, name, level + 1)
    ensures SlotOfName(s, name, level)
  {
    hide Shape, LexicalBinding, SlotClosure;
  }

  /** What is in the frame of a scope itself. */
  lemma FrameFind(s: Scope, name: Symbol)
    requires FrameOk(s) && Shape(s).Vars?
    ensures match FindVar(Shape(s).vars, name)
            case Some(d) => d < SlotCount(s) && SlotClosure(s, d).Some? && LexicalBinding(s, name) == SlotClosure(s, d)
            case None => LexicalBinding(s, name) == if s.Base? then None else LexicalBinding(s.up, name)
  {
    match s
    case Base(vars) => FrameFindBase(vars, name);
    case RecFrame(attrs, _, _) => FindDefAt(attrs, name);
    case InheritFrame(_, _) =>
    case LamFrame(_, _, _, _, _) =>
      FrameFindLambda(s, name);
      if d :| FindVar(Shape(s).vars, name) == Some(d) {
        LambdaSlots(s, d);
      }
  }

  lemma LambdaSlots(s: Scope, d: nat)
    requires s.LamFrame? && FrameOk(s) && d < SlotCount(s)
    ensures SlotClosure(s, d).Some?
  {
  }

  lemma {:induction false} LexicalIsSlot(s: Scope, name: Symbol, level: nat)
    requires ScopeOk(s)
    ensures SlotOfName(s, name, level)
    decreases s
  {
    if s.WithFrame? {
      LexicalIsSlot(s.up, name, level + 1);
      SlotFurtherUp(s, name, level);
    } else {
      FrameFind(s, name);
      hide SlotClosure, SlotCount, LexicalBinding, SlotOfName, FrameOk;
      if d :| FindVar(Shape(s).vars, name) == Some(d) {
        SlotHere(s, name, level, d);
      } else if s.Base? {
        NowhereBound(s, name, level);
      } else {
        LexicalIsSlot(s.up, name, level + 1);
        SlotFurtherUp(s, name, level);
      }
    }
  }

  lemma NowhereBound(s: Scope, name: Symbol, level: nat)
    requires s.Base? && FindVar(Shape(s).vars, name).None? && LexicalBinding(s, name) == None
    ensures SlotOfName(s, name, level)
  {
  }

  // ---- the relation between heap and meaning ----

  datatype Denotation = Denotation(cells: seq<Closure>, envs: seq<Scope>)

  /** What a delayed variable is the same as. */
  function VarTarget(c: Closure): Option<Closure> {
    if c.Clo? && c.e.Var? then LexicalBinding(c.s, c.e.name)
    else if c.Clo? && c.e.InheritFrom? && c.s.InheritFrame? && c.e.displ < |c.s.froms| then
      Some(Clo(c.s.froms[c.e.displ], c.s.up))
    else None
  }

  /** `b` is reached from `a` by `k` variable lookups. */
  ghost predicate AliasIn(a: Closure, b: Closure, k: nat)
    decreases k
  {
    if k == 0 then a == b
    else VarTarget(a).Some? && AliasIn(VarTarget(a).value, b, k - 1)
  }

  ghost predicate Alias(a: Closure, b: Closure) {
    exists k: nat :: AliasIn(a, b, k)
  }

  /** An alias has the same outcomes, at a budget that is larger by the number of lookups. */
  lemma {:induction false} AliasEval(a: Closure, b: Closure, k: nat, n: nat)
    requires AliasIn(a, b, k)
    ensures n >= k ==> EvalClosure(a, n) == EvalClosure(b, n - k)
    ensures n < k ==> EvalClosure(a, n) == Err(OutOfFuel)
    decreases k
  {
    if k > 0 && n > 0 {
      AliasEval(VarTarget(a).value, b, k - 1, n - 1);
    }
  }

  function SourcesOf(s: Scope): Option<nat> {
    if s.InheritFrame? then Some(|s.froms|) else None
  }

  /** `e` is the well-formed expression `src`, resolved for scope `s`. */
  ghost predicate BoundTo(src: Expr, s: Scope, e: Expr) {
    WellFormed(src, SourcesOf(s)) && BindExpr(src, Shape(s)) == Bound(e)
  }

  ghost predicate CellAlias(a: Closure, c: nat, m: Denotation) {
    c < |m.cells| && Live(m.cells[c]) && Alias(a, m.cells[c])
  }

  ghost predicate ValRel(v: Value, nv: NValue, m: Denotation) {
    match v
    case VConst(c) => nv == NConst(c)
    case VAttrs(attrs) =>
      && nv.NAttrs? && |attrs| == |nv.attrs|
      && (forall i :: 0 <= i < |attrs| ==> attrs[i].name == nv.attrs[i].name)
      && (forall i :: 0 <= i < |attrs| ==> CellAlias(nv.attrs[i].clo, attrs[i].cell, m))
      && (forall i, j :: 0 <= i < j < |attrs| ==> attrs[i].name < attrs[j].name)
    case VList(elems) =>
      && nv.NList? && |elems| == |nv.elems|
      && (forall i :: 0 <= i < |elems| ==> CellAlias(nv.elems[i], elems[i], m))
    case VLambda(arg, formals, body, env) =>
      && nv.NLambda? && env < |m.envs| && m.envs[env] == nv.s && ScopeOk(nv.s)
      && BoundTo(Lambda(nv.arg, nv.formals, nv.body), nv.s, Lambda(arg, formals, body))
  }

  ghost predicate HasValue(c: Closure, v: Value, m: Denotation) {
    exists n, nv :: EvalClosure(c, n) == Ok(nv) && ValRel(v, nv, m)
  }

  ghost predicate CellOk(cell: Cell, c: Closure, m: Denotation) {
    match cell
    case BlackHole => true
    case Val(v) => HasValue(c, v, m)
    case Thunk(env, e) => env < |m.envs| && c.Clo? && c.s == m.envs[env] && BoundTo(c.e, c.s, e)
  }

  ghost predicate SlotOk(slot: Option<nat>, s: Scope, d: nat, m: Denotation)
    requires d < SlotCount(s)
  {
    slot.Some? ==> SlotClosure(s, d).Some? && CellAlias(SlotClosure(s, d).value, slot.value, m)
  }

  ghost predicate EnvOk(env: Env, s: Scope, m: Denotation) {
    && ScopeOk(s)
    && |env.values| == SlotCount(s)
    && (s.Base? <==> env.up.None?)
    && (env.up.Some? ==> env.up.value < |m.envs| && m.envs[env.up.value] == s.up)
    && (forall d :: 0 <= d < |env.values| ==> SlotOk(env.values[d], s, d, m))
  }

  ghost predicate Means(st: State, m: Denotation) {
    && |st.cells| == |m.cells|
    && |st.envs| == |m.envs|
    && (forall c :: 0 <= c < |st.cells| && Live(m.cells[c]) ==> CellOk(st.cells[c], m.cells[c], m))
    && (forall r :: 0 <= r < |st.envs| && ScopeOk(m.envs[r]) ==> EnvOk(st.envs[r], m.envs[r], m))
  }

  ghost predicate Filled(env: Env) {
    forall d :: 0 <= d < |env.values| ==> env.values[d].Some?
  }

  /** No frame in use is still being filled. */
  ghost predicate AllFilled(st: State, m: Denotation) {
    forall r :: 0 <= r < |st.envs| && r < |m.envs| && ScopeOk(m.envs[r]) ==> Filled(st.envs[r])
  }

  /** Environment `env` is a frame in use. */
  ghost predicate InUse(env: nat, st: State, m: Denotation) {
    env < |st.envs| && env < |m.envs| && ScopeOk(m.envs[env])
  }

  ghost predicate Extends(m: Denotation, m': Denotation) {
    m.cells <= m'.cells && m.envs <= m'.envs
  }

  // ---- the relation is kept as the heap grows ----

  lemma ValRelExtends(v: Value, nv: NValue, m: Denotation, m': Denotation)
    requires ValRel(v, nv, m) && Extends(m, m')
    ensures ValRel(v, nv, m')
  {
    match v
    case VConst(_) =>
    case VAttrs(attrs) =>
      forall i | 0 <= i < |attrs|
        ensures CellAlias(nv.attrs[i].clo, attrs[i].cell, m')
      {
        assert CellAlias(nv.attrs[i].clo, attrs[i].cell, m);
      }
    case VList(elems) =>
      forall i | 0 <= i < |elems|
        ensures CellAlias(nv.elems[i], elems[i], m')
      {
        assert CellAlias(nv.elems[i], elems[i], m);
      }
    case VLambda(_, _, _, _) =>
  }

  lemma CellOkExtends(cell: Cell, c: Closure, m: Denotation, m': Denotation)
    requires CellOk(cell, c, m) && Extends(m, m')
    ensures CellOk(cell, c, m')
  {
    if cell.Val? {
      var n, nv :| EvalClosure(c, n) == Ok(nv) && ValRel(cell.v, nv, m);
      ValRelExtends(cell.v, nv, m, m');
    }
  }

  lemma EnvOkExtends(env: Env, s: Scope, m: Denotation, m': Denotation)
    requires EnvOk(env, s, m) && Extends(m, m')
    ensures EnvOk(env, s, m')
  {
    forall d | 0 <= d < |env.values|
      ensures SlotOk(env.values[d], s, d, m')
    {
      assert SlotOk(env.values[d], s, d, m);
    }
  }

  lemma NewCellMeans(cell: Cell, c: Closure, st: State, m: Denotation)
    requires Means(st, m) && (Live(c) ==> CellOk(cell, c, m))
    ensures Means(NewCell(cell, st).st, m.(cells := m.cells + [c]))
    ensures Extends(m, m.(cells := m.cells + [c]))
  {
    var st', m' := NewCell(cell, st).st, m.(cells := m.cells + [c]);
    forall i | 0 <= i < |st'.cells| && Live(m'.cells[i])
      ensures CellOk(st'.cells[i], m'.cells[i], m')
    {
      CellOkExtends(st'.cells[i], m'.cells[i], m, m');
    }
    forall r | 0 <= r < |st'.envs| && ScopeOk(m'.envs[r])
      ensures EnvOk(st'.envs[r], m'.envs[r], m')
    {
      EnvOkExtends(st'.envs[r], m'.envs[r], m, m');
    }
  }

  lemma NewEnvMeans(size: nat, up: nat, s: Scope, st: State, m: Denotation)
    requires Means(st, m) && InUse(up, st, m) && !s.Base? && s.up == m.envs[up]
    requires size == SlotCount(s) && FrameOk(s)
    ensures Means(NewEnv(size, up, st).st, m.(envs := m.envs + [s])) && ScopeOk(s)
    ensures Extends(m, m.(envs := m.envs + [s]))
  {
    var m' := m.(envs := m.envs + [s]);
    assert EnvOk(NewEnv(size, up, st).st.envs[|st.envs|], s, m');
    AnyEnvMeans(size, up, s, st, m);
  }

  /** A new environment, in use or not. */
  lemma AnyEnvMeans(size: nat, up: nat, s: Scope, st: State, m: Denotation)
    requires Means(st, m)
    requires ScopeOk(s) ==> EnvOk(Env(Some(up), seq(size, _ => None)), s, m.(envs := m.envs + [s]))
    ensures Means(NewEnv(size, up, st).st, m.(envs := m.envs + [s]))
    ensures Extends(m, m.(envs := m.envs + [s]))
  {
    var st', m' := NewEnv(size, up, st).st, m.(envs := m.envs + [s]);
    forall i | 0 <= i < |st'.cells| && Live(m'.cells[i])
      ensures CellOk(st'.cells[i], m'.cells[i], m')
    {
      CellOkExtends(st'.cells[i], m'.cells[i], m, m');
    }
    forall r | 0 <= r < |st'.envs| && ScopeOk(m'.envs[r])
      ensures EnvOk(st'.envs[r], m'.envs[r], m')
    {
      if r < |st.envs| {
        EnvOkExtends(st'.envs[r], m'.envs[r], m, m');
      }
    }
  }

  lemma SetSlotMeans(env: nat, d: nat, c: nat, st: State, m: Denotation)
    requires Means(st, m) && env < |st.envs|
    requires ScopeOk(m.envs[env]) ==> d < SlotCount(m.envs[env]) && SlotOk(Some(c), m.envs[env], d, m)
    ensures Means(SetSlot(env, d, c, st), m)
  {
    var st' := SetSlot(env, d, c, st);
    forall r | 0 <= r < |st'.envs| && ScopeOk(m.envs[r])
      ensures EnvOk(st'.envs[r], m.envs[r], m)
    {
      assert EnvOk(st.envs[r], m.envs[r], m);
      if r == env {
        forall k | 0 <= k < |st'.envs[r].values|
          ensures SlotOk(st'.envs[r].values[k], m.envs[r], k, m)
        {
          assert SlotOk(st.envs[r].values[k], m.envs[r], k, m);
        }
      }
    }
  }

  lemma SetCellMeans(c: nat, cell: Cell, st: State, m: Denotation)
    requires Means(st, m) && c < |st.cells| && (Live(m.cells[c]) ==> CellOk(cell, m.cells[c], m))
    ensures Means(SetCell(c, cell, st), m)
  {
  }

  // ---- reading the heap ----

  /** Going up the environments goes up the scopes. */
  lemma {:induction false} UpEnvMeans(env: nat, level: nat, st: State, m: Denotation)
    requires Means(st, m) && InUse(env, st, m)
    ensures match UpScope(m.envs[env], level)
            case None => true
            case Some(t) =>
              && UpEnv(st.envs, env, level).Some?
              && UpEnv(st.envs, env, level).value < |st.envs|
              && m.envs[UpEnv(st.envs, env, level).value] == t && ScopeOk(t)
    decreases level
  {
    assert EnvOk(st.envs[env], m.envs[env], m);
    if level > 0 && !m.envs[env].Base? {
      UpEnvMeans(st.envs[env].up.value, level - 1, st, m);
    }
  }

  /** A filled slot that a resolved variable reads holds what its name is bound to. */
  lemma ReadVarMeans(name: Symbol, env: nat, st: State, m: Denotation) returns (r: VarRef)
    requires Means(st, m) && InUse(env, st, m)
    requires Lexical(name, Shape(m.envs[env]), 0).Some?
    ensures Lexical(name, Shape(m.envs[env]), 0) == Some(r) && r.fromWith == NoWith
    ensures ReadSlot(st.envs, env, r.level, r.displ).Some?
    ensures LexicalBinding(m.envs[env], name).Some?
    ensures ReadSlot(st.envs, env, r.level, r.displ).value.Some? ==>
              CellAlias(LexicalBinding(m.envs[env], name).value,
                        ReadSlot(st.envs, env, r.level, r.displ).value.value, m)
    ensures AllFilled(st, m) ==> ReadSlot(st.envs, env, r.level, r.displ).value.Some?
  {
    var s := m.envs[env];
    assert EnvOk(st.envs[env], s, m);
    LexicalIsSlot(s, name, 0);
    r := Lexical(name, Shape(s), 0).value;
    UpEnvMeans(env, r.level, st, m);
    var u := UpEnv(st.envs, env, r.level).value;
    assert EnvOk(st.envs[u], m.envs[u], m);
    assert SlotOk(st.envs[u].values[r.displ], m.envs[u], r.displ, m);
    if AllFilled(st, m) {
      assert Filled(st.envs[u]);
    }
  }

  lemma {:induction false} GetAttrRel(attrs: seq<VAttr>, nattrs: seq<NAttr>, name: Symbol, m: Denotation)
    requires |attrs| == |nattrs|
    requires forall i :: 0 <= i < |attrs| ==> attrs[i].name == nattrs[i].name
    requires forall i :: 0 <= i < |attrs| ==> CellAlias(nattrs[i].clo, attrs[i].cell, m)
    ensures GetAttr(attrs, name).Some? <==> FindAttr(nattrs, name).Some?
    ensures GetAttr(attrs, name).Some? ==> CellAlias(FindAttr(nattrs, name).value, GetAttr(attrs, name).value, m)
    decreases |attrs|
  {
    if attrs != [] {
      assert CellAlias(nattrs[0].clo, attrs[0].cell, m);
      forall i | 0 <= i < |attrs| - 1
        ensures CellAlias(nattrs[1..][i].clo, attrs[1..][i].cell, m)
      {
        assert CellAlias(nattrs[i + 1].clo, attrs[i + 1].cell, m);
      }
      GetAttrRel(attrs[1..], nattrs[1..], name, m);
    }
  }
}
