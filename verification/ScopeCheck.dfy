/** Scope resolution succeeds exactly when every variable is bound by an enclosing construct or stands
  under some `with`; otherwise it reports the first variable that is not. */
module ScopeCheck {
  import opened Options
  import opened Syntax
  import opened Scoping

  ghost function VarNames(vars: seq<StaticVar>): set<Symbol> {
    set i | 0 <= i < |vars| :: vars[i].name
  }

  ghost function EnvNames(env: StaticEnv): set<Symbol> {
    match env
    case Nil => {}
    case WithEnv(_, _, up) => EnvNames(up)
    case Vars(vars, up) => VarNames(vars) + EnvNames(up)
  }

  predicate UnderWith(env: StaticEnv) {
    match env
    case Nil => false
    case WithEnv(_, _, _) => true
    case Vars(_, up) => UnderWith(up)
  }

  ghost function DefNames(attrs: seq<AttrDef>): set<Symbol> {
    set i | 0 <= i < |attrs| :: attrs[i].name
  }

  /** The names a lambda binds in its body and in the defaults of its formals. */
  ghost function ParamNames(arg: Option<Symbol>, formals: Option<Formals>): set<Symbol> {
    (if arg.Some? then {arg.value} else {})
    + (if formals.Some? then set i | 0 <= i < |formals.value.formals| :: formals.value.formals[i].name else {})
  }

  /** Every variable of `e` is in `names`, or bound inside `e`, or `underWith` holds where it stands. */
  ghost predicate Scoped(e: Expr, names: set<Symbol>, underWith: bool)
    decreases e
  {
    match e
    case Lit(_) => true
    case InheritFrom(_) => true
    case Var(x, _) => x in names || underWith
    case Select(e1, _, def) => Scoped(e1, names, underWith) && (def.Some? ==> Scoped(def.value, names, underWith))
    case HasAttr(e1, _) => Scoped(e1, names, underWith)
    case Attrs(rec, attrs, froms) =>
      var self := if rec then DefNames(attrs) + names else names;
      && (forall i :: 0 <= i < |froms| ==> Scoped(froms[i], self, underWith))
      && (forall i :: 0 <= i < |attrs| ==>
            Scoped(attrs[i].e, if attrs[i].kind.Inherited? then names else self, underWith))
    case List(elems) => forall i :: 0 <= i < |elems| ==> Scoped(elems[i], names, underWith)
    case Lambda(arg, formals, body) =>
      var inner := ParamNames(arg, formals) + names;
      && Scoped(body, inner, underWith)
      && (formals.Some? ==> forall i :: 0 <= i < |formals.value.formals| && formals.value.formals[i].def.Some? ==>
            Scoped(formals.value.formals[i].def.value, inner, underWith))
    case Call(fun, args) =>
      Scoped(fun, names, underWith) && forall i :: 0 <= i < |args| ==> Scoped(args[i], names, underWith)
    case Let(attrs, froms, body) =>
      var self := DefNames(attrs) + names;
      && (forall i :: 0 <= i < |froms| ==> Scoped(froms[i], self, underWith))
      && (forall i :: 0 <= i < |attrs| ==>
            Scoped(attrs[i].e, if attrs[i].kind.Inherited? then names else self, underWith))
      && Scoped(body, self, underWith)
    case With(scope, body, _) => Scoped(scope, names, underWith) && Scoped(body, names, true)
    case If(cond, thn, els) =>
      Scoped(cond, names, underWith) && Scoped(thn, names, underWith) && Scoped(els, names, underWith)
  }

  lemma {:induction false} LexicalIff(name: Symbol, env: StaticEnv, level: nat)
    ensures Lexical(name, env, level).Some? <==> name in EnvNames(env)
  {
    match env
    case Nil =>
    case WithEnv(_, _, up) => LexicalIff(name, up, level + 1);
    case Vars(vars, up) =>
      FindVarNone(vars, name);
      LexicalIff(name, up, level + 1);
  }

  lemma {:induction false} WithLevelIff(env: StaticEnv, level: nat)
    ensures WithLevel(env, level).Some? <==> UnderWith(env)
  {
    if env.Vars? {
      WithLevelIff(env.up, level + 1);
    }
  }

  lemma AttrVarNames(attrs: seq<AttrDef>)
    ensures VarNames(AttrVars(attrs)) == DefNames(attrs)
  {
    forall x | x in DefNames(attrs)
      ensures x in VarNames(AttrVars(attrs))
    {
      var i :| 0 <= i < |attrs| && attrs[i].name == x;
      assert AttrVars(attrs)[i].name == x;
    }
  }

  lemma LambdaNamesAre(arg: Option<Symbol>, formals: Option<Formals>)
    ensures ParamNames(arg, formals) == set i | 0 <= i < |LambdaNames(arg, formals)| :: LambdaNames(arg, formals)[i]
  {
    var names := LambdaNames(arg, formals);
    var first := if arg.Some? then 1 else 0;
    forall x | x in ParamNames(arg, formals)
      ensures exists i :: 0 <= i < |names| && names[i] == x
    {
      if arg == Some(x) {
        assert names[0] == x;
      } else {
        var i :| 0 <= i < |formals.value.formals| && formals.value.formals[i].name == x;
        assert names[first + i] == x;
      }
    }
    forall i | 0 <= i < |names|
      ensures names[i] in ParamNames(arg, formals)
    {
      if i >= first {
        assert formals.value.formals[i - first].name == names[i];
      }
    }
  }

  lemma SlotVarNames(names: seq<Symbol>)
    ensures VarNames(SlotVars(names)) == set i | 0 <= i < |names| :: names[i]
  {
    forall i | 0 <= i < |names|
      ensures names[i] in VarNames(SlotVars(names))
    {
      assert SlotVars(names)[i].name == names[i];
    }
  }

  lemma LambdaVarNames(arg: Option<Symbol>, formals: Option<Formals>)
    ensures VarNames(LambdaVars(arg, formals)) == ParamNames(arg, formals)
  {
    var vars := SlotVars(LambdaNames(arg, formals));
    LambdaNamesAre(arg, formals);
    SlotVarNames(LambdaNames(arg, formals));
    SortVarsElements(vars);
    SortedNamesSame(vars, LambdaVars(arg, formals));
  }

  lemma SortedNamesSame(a: seq<StaticVar>, b: seq<StaticVar>)
    requires forall x :: x in a <==> x in b
    ensures VarNames(a) == VarNames(b)
  {
    forall x | x in VarNames(a)
      ensures x in VarNames(b)
    {
      var i :| 0 <= i < |a| && a[i].name == x;
      assert a[i] in b;
      var j :| 0 <= j < |b| && b[j] == a[i];
    }
    forall x | x in VarNames(b)
      ensures x in VarNames(a)
    {
      var i :| 0 <= i < |b| && b[i].name == x;
      assert b[i] in a;
      var j :| 0 <= j < |a| && a[j] == b[i];
    }
  }

  // ---- the variables that are not in scope, in the order in which sub-expressions are resolved ----

  /** The variables of `e` that are neither in `names`, nor bound inside `e`, nor under a `with` where they
    stand. Sources of `inherit` come before attributes, defaults before the body. */
  ghost function Unbound(e: Expr, names: set<Symbol>, underWith: bool): seq<Symbol>
    decreases e, 1
  {
    match e
    case Lit(_) => []
    case InheritFrom(_) => []
    case Var(x, _) => if x in names || underWith then [] else [x]
    case Select(e1, _, def) =>
      Unbound(e1, names, underWith) + if def.Some? then Unbound(def.value, names, underWith) else []
    case HasAttr(e1, _) => Unbound(e1, names, underWith)
    case Attrs(rec, attrs, froms) =>
      var self := if rec then DefNames(attrs) + names else names;
      UnboundIn(froms, self, underWith) + UnboundDefs(attrs, self, names, underWith)
    case List(elems) => UnboundIn(elems, names, underWith)
    case Lambda(arg, formals, body) =>
      var inner := ParamNames(arg, formals) + names;
      (if formals.Some? then UnboundDefaults(formals.value.formals, inner, underWith) else [])
      + Unbound(body, inner, underWith)
    case Call(fun, args) => Unbound(fun, names, underWith) + UnboundIn(args, names, underWith)
    case Let(attrs, froms, body) =>
      var self := DefNames(attrs) + names;
      UnboundIn(froms, self, underWith) + UnboundDefs(attrs, self, names, underWith) + Unbound(body, self, underWith)
    case With(scope, body, _) => Unbound(scope, names, underWith) + Unbound(body, names, true)
    case If(cond, thn, els) =>
      Unbound(cond, names, underWith) + Unbound(thn, names, underWith) + Unbound(els, names, underWith)
  }

  ghost function UnboundIn(es: seq<Expr>, names: set<Symbol>, underWith: bool): seq<Symbol>
    decreases es, 0
  {
    if es == [] then [] else Unbound(es[0], names, underWith) + UnboundIn(es[1..], names, underWith)
  }

  ghost function UnboundDefs(attrs: seq<AttrDef>, self: set<Symbol>, outer: set<Symbol>, underWith: bool): seq<Symbol>
    decreases attrs, 0
  {
    if attrs == [] then []
    else UnboundDef(attrs[0], self, outer, underWith) + UnboundDefs(attrs[1..], self, outer, underWith)
  }

  ghost function UnboundDef(d: AttrDef, self: set<Symbol>, outer: set<Symbol>, underWith: bool): seq<Symbol>
    decreases d, 0
  {
    Unbound(d.e, if d.kind.Inherited? then outer else self, underWith)
  }

  ghost function UnboundDefaults(formals: seq<Formal>, names: set<Symbol>, underWith: bool): seq<Symbol>
    decreases formals, 0
  {
    if formals == [] then []
    else UnboundDefault(formals[0], names, underWith) + UnboundDefaults(formals[1..], names, underWith)
  }

  ghost function UnboundDefault(f: Formal, names: set<Symbol>, underWith: bool): seq<Symbol>
    decreases f, 0
  {
    if f.def.Some? then Unbound(f.def.value, names, underWith) else []
  }

  /** Succeeds if no variable is unbound, and otherwise reports the first one. */
  ghost predicate Reports<T>(b: Bound<T>, unbound: seq<Symbol>) {
    if unbound == [] then b.Bound? else b == Undefined(unbound[0])
  }

  /** Resolution succeeds exactly when no variable is unbound, and otherwise the error names the first
    unbound variable. */
  lemma {:induction false} ReportsFirstUnbound(e: Expr, env: StaticEnv)
    ensures Reports(BindExpr(e, env), Unbound(e, EnvNames(env), UnderWith(env)))
    decreases e, 1
  {
    match e
    case Lit(_) =>
    case InheritFrom(_) =>
    case Var(x, _) =>
      LexicalIff(x, env, 0);
      WithLevelIff(env, 0);
    case Select(e1, _, def) =>
      ReportsFirstUnbound(e1, env);
      if def.Some? {
        ReportsFirstUnbound(def.value, env);
      }
    case HasAttr(e1, _) => ReportsFirstUnbound(e1, env);
    case Attrs(_, _, _) => AttrsReport(e, env);
    case List(elems) => SeqReports(elems, env);
    case Lambda(_, _, _) => LambdaReports(e, env);
    case Call(fun, args) =>
      ReportsFirstUnbound(fun, env);
      SeqReports(args, env);
    case Let(_, _, _) => LetReports(e, env);
    case With(scope, body, _) =>
      ReportsFirstUnbound(scope, env);
      ReportsFirstUnbound(body, WithEnv(LinkOf(env).prevWith, LinkOf(env).parentWith, env));
    case If(cond, thn, els) =>
      ReportsFirstUnbound(cond, env);
      ReportsFirstUnbound(thn, env);
      ReportsFirstUnbound(els, env);
  }

  lemma {:induction false} AttrsReport(e: Expr, env: StaticEnv)
    requires e.Attrs?
    ensures Reports(BindExpr(e, env), Unbound(e, EnvNames(env), UnderWith(env)))
    decreases e, 0
  {
    hide BindDefs, BindSeq, UnboundIn, UnboundDefs;
    var self := if e.recursive then Vars(AttrVars(e.attrs), env) else env;
    AttrVarNames(e.attrs);
    SeqReports(e.froms, self);
    DefsReport(e.attrs, self, env, Vars([], self));
  }

  lemma {:induction false} LambdaReports(e: Expr, env: StaticEnv)
    requires e.Lambda?
    ensures Reports(BindExpr(e, env), Unbound(e, EnvNames(env), UnderWith(env)))
    decreases e, 0
  {
    var newEnv := Vars(LambdaVars(e.arg, e.formals), env);
    LambdaVarNames(e.arg, e.formals);
    ReportsFirstUnbound(e.body, newEnv);
    if e.formals.Some? {
      DefaultsReport(e.formals.value.formals, newEnv);
    }
  }

  lemma {:induction false} LetReports(e: Expr, env: StaticEnv)
    requires e.Let?
    ensures Reports(BindExpr(e, env), Unbound(e, EnvNames(env), UnderWith(env)))
    decreases e, 0
  {
    hide BindDefs, BindSeq, UnboundIn, UnboundDefs;
    var self := Vars(AttrVars(e.attrs), env);
    AttrVarNames(e.attrs);
    SeqReports(e.froms, self);
    DefsReport(e.attrs, self, env, Vars([], self));
    ReportsFirstUnbound(e.body, self);
  }

  lemma {:induction false} SeqReports(es: seq<Expr>, env: StaticEnv)
    ensures Reports(BindSeq(es, env), UnboundIn(es, EnvNames(env), UnderWith(env)))
    decreases es, 0
  {
    if es != [] {
      ReportsFirstUnbound(es[0], env);
      SeqReports(es[1..], env);
    }
  }

  lemma {:induction false} DefsReport(attrs: seq<AttrDef>, self: StaticEnv, outer: StaticEnv, inherit: StaticEnv)
    requires UnderWith(self) == UnderWith(outer) && inherit == Vars([], self)
    ensures Reports(BindDefs(attrs, self, outer, inherit),
                    UnboundDefs(attrs, EnvNames(self), EnvNames(outer), UnderWith(self)))
    decreases attrs, 0
  {
    if attrs != [] {
      DefReports(attrs[0], self, outer, inherit);
      DefsReport(attrs[1..], self, outer, inherit);
    }
  }

  lemma {:induction false} DefReports(d: AttrDef, self: StaticEnv, outer: StaticEnv, inherit: StaticEnv)
    requires UnderWith(self) == UnderWith(outer) && inherit == Vars([], self)
    ensures Reports(BindDef(d, self, outer, inherit), UnboundDef(d, EnvNames(self), EnvNames(outer), UnderWith(self)))
    decreases d, 0
  {
    hide BindExpr, Unbound;
    ReportsFirstUnbound(d.e, ChooseByKind(d.kind, self, outer, inherit));
    assert VarNames([]) == {};
    assert EnvNames(inherit) == EnvNames(self);
  }

  lemma {:induction false} DefaultsReport(formals: seq<Formal>, env: StaticEnv)
    ensures Reports(BindDefaults(formals, env), UnboundDefaults(formals, EnvNames(env), UnderWith(env)))
    decreases formals, 0
  {
    if formals != [] {
      DefaultReports(formals[0], env);
      DefaultsReport(formals[1..], env);
    }
  }

  lemma {:induction false} DefaultReports(f: Formal, env: StaticEnv)
    ensures Reports(BindDefault(f, env), UnboundDefault(f, EnvNames(env), UnderWith(env)))
    decreases f, 0
  {
    if f.def.Some? {
      ReportsFirstUnbound(f.def.value, env);
    }
  }

  // ---- when there are none ----

  /** No variable is unbound exactly when every one is in scope. */
  lemma {:induction false} NoneUnboundIffScoped(e: Expr, names: set<Symbol>, underWith: bool)
    ensures Unbound(e, names, underWith) == [] <==> Scoped(e, names, underWith)
    decreases e, 1
  {
    match e
    case Select(e1, _, def) =>
      NoneUnboundIffScoped(e1, names, underWith);
      if def.Some? {
        NoneUnboundIffScoped(def.value, names, underWith);
      }
    case HasAttr(e1, _) => NoneUnboundIffScoped(e1, names, underWith);
    case Attrs(_, _, _) => NoneInSet(e, names, underWith);
    case List(elems) => NoneIn(elems, names, underWith);
    case Lambda(_, _, _) => NoneInLambda(e, names, underWith);
    case Call(fun, args) =>
      NoneUnboundIffScoped(fun, names, underWith);
      NoneIn(args, names, underWith);
    case Let(_, _, _) => NoneInLet(e, names, underWith);
    case With(scope, body, _) =>
      NoneUnboundIffScoped(scope, names, underWith);
      NoneUnboundIffScoped(body, names, true);
    case If(cond, thn, els) =>
      NoneUnboundIffScoped(cond, names, underWith);
      NoneUnboundIffScoped(thn, names, underWith);
      NoneUnboundIffScoped(els, names, underWith);
    case _ =>
  }

  lemma {:induction false} NoneInSet(e: Expr, names: set<Symbol>, underWith: bool)
    requires e.Attrs?
    ensures Unbound(e, names, underWith) == [] <==> Scoped(e, names, underWith)
    decreases e, 0
  {
    hide UnboundIn, UnboundDefs;
    var self := if e.recursive then DefNames(e.attrs) + names else names;
    NoneIn(e.froms, self, underWith);
    NoneInDefs(e.attrs, self, names, underWith);
  }

  lemma {:induction false} NoneInLet(e: Expr, names: set<Symbol>, underWith: bool)
    requires e.Let?
    ensures Unbound(e, names, underWith) == [] <==> Scoped(e, names, underWith)
    decreases e, 0
  {
    hide UnboundIn, UnboundDefs;
    var self := DefNames(e.attrs) + names;
    NoneIn(e.froms, self, underWith);
    NoneInDefs(e.attrs, self, names, underWith);
    NoneUnboundIffScoped(e.body, self, underWith);
  }

  lemma {:induction false} NoneInLambda(e: Expr, names: set<Symbol>, underWith: bool)
    requires e.Lambda?
    ensures Unbound(e, names, underWith) == [] <==> Scoped(e, names, underWith)
    decreases e, 0
  {
    hide UnboundDefaults;
    var inner := ParamNames(e.arg, e.formals) + names;
    NoneUnboundIffScoped(e.body, inner, underWith);
    if e.formals.Some? {
      NoneInDefaults(e.formals.value.formals, inner, underWith);
    }
  }

  lemma {:induction false} NoneIn(es: seq<Expr>, names: set<Symbol>, underWith: bool)
    ensures UnboundIn(es, names, underWith) == [] <==> forall i :: 0 <= i < |es| ==> Scoped(es[i], names, underWith)
    decreases es, 0
  {
    if es != [] {
      NoneUnboundIffScoped(es[0], names, underWith);
      NoneIn(es[1..], names, underWith);
      assert forall i :: 0 < i < |es| ==> es[i] == es[1..][i - 1];
    }
  }

  ghost predicate DefScoped(d: AttrDef, self: set<Symbol>, outer: set<Symbol>, underWith: bool) {
    Scoped(d.e, if d.kind.Inherited? then outer else self, underWith)
  }

  lemma {:induction false} NoneInDefs(attrs: seq<AttrDef>, self: set<Symbol>, outer: set<Symbol>, underWith: bool)
    ensures UnboundDefs(attrs, self, outer, underWith) == []
            <==> forall i :: 0 <= i < |attrs| ==> DefScoped(attrs[i], self, outer, underWith)
    decreases attrs, 0
  {
    if attrs != [] {
      NoneInDef(attrs[0], self, outer, underWith);
      NoneInDefs(attrs[1..], self, outer, underWith);
      assert forall i :: 0 < i < |attrs| ==> attrs[i] == attrs[1..][i - 1];
    }
  }

  lemma {:induction false} NoneInDef(d: AttrDef, self: set<Symbol>, outer: set<Symbol>, underWith: bool)
    ensures UnboundDef(d, self, outer, underWith) == [] <==> DefScoped(d, self, outer, underWith)
    decreases d, 0
  {
    NoneUnboundIffScoped(d.e, if d.kind.Inherited? then outer else self, underWith);
  }

  ghost predicate DefaultScoped(f: Formal, names: set<Symbol>, underWith: bool) {
    f.def.Some? ==> Scoped(f.def.value, names, underWith)
  }

  lemma {:induction false} NoneInDefaults(formals: seq<Formal>, names: set<Symbol>, underWith: bool)
    ensures UnboundDefaults(formals, names, underWith) == []
            <==> forall i :: 0 <= i < |formals| ==> DefaultScoped(formals[i], names, underWith)
    decreases formals, 0
  {
    if formals != [] {
      NoneInDefault(formals[0], names, underWith);
      NoneInDefaults(formals[1..], names, underWith);
      assert forall i :: 0 < i < |formals| ==> formals[i] == formals[1..][i - 1];
    }
  }

  lemma {:induction false} NoneInDefault(f: Formal, names: set<Symbol>, underWith: bool)
    ensures UnboundDefault(f, names, underWith) == [] <==> DefaultScoped(f, names, underWith)
    decreases f, 0
  {
    if f.def.Some? {
      NoneUnboundIffScoped(f.def.value, names, underWith);
    }
  }

  /** Resolution of an expression succeeds exactly when its variables are in scope. */
  lemma ResolvesIffScoped(e: Expr, env: StaticEnv)
    ensures BindExpr(e, env).Bound? <==> Scoped(e, EnvNames(env), UnderWith(env))
  {
    hide BindExpr, Unbound, Scoped;
    ReportsFirstUnbound(e, env);
    NoneUnboundIffScoped(e, EnvNames(env), UnderWith(env));
  }
}
