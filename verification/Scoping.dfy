/** Scope resolution: every variable occurrence is given the environment level and slot where its
  value will be found at run time, and every `with` is linked to the enclosing one. */
module Scoping {
  import opened Options
  import opened Syntax

  /** One name of a static environment and the slot it occupies at run time. */
  datatype StaticVar = StaticVar(name: Symbol, displ: nat)

  /** A static environment. `Nil` is the null pointer above the outermost environment. */
  datatype StaticEnv =
    | Nil
    | Vars(vars: seq<StaticVar>, up: StaticEnv)
    | WithEnv(prevWith: nat, parentWith: WithLink, up: StaticEnv)

  datatype Bound<+T> = Bound(value: T) | Undefined(name: Symbol)

  /** Slot of the first entry with the given name. */
  function FindVar(vars: seq<StaticVar>, name: Symbol): Option<nat> {
    if vars == [] then None
    else if vars[0].name == name then Some(vars[0].displ)
    else FindVar(vars[1..], name)
  }

  ghost predicate SortedVars(vars: seq<StaticVar>) {
    forall i, j :: 0 <= i < j < |vars| ==> vars[i].name <= vars[j].name
  }

  lemma {:induction false} FindVarNone(vars: seq<StaticVar>, name: Symbol)
    ensures FindVar(vars, name).None? <==> forall i :: 0 <= i < |vars| ==> vars[i].name != name
  {
    if vars != [] && vars[0].name != name {
      FindVarNone(vars[1..], name);
      assert forall i :: 0 < i < |vars| ==> vars[i] == vars[1..][i - 1];
    }
  }

  lemma {:induction false} FindVarFirst(vars: seq<StaticVar>, name: Symbol, i: nat)
    requires i < |vars| && vars[i].name == name
    requires forall j :: 0 <= j < i ==> vars[j].name != name
    ensures FindVar(vars, name) == Some(vars[i].displ)
  {
    if i > 0 {
      assert forall j :: 0 <= j < i - 1 ==> vars[1..][j] == vars[j + 1];
      FindVarFirst(vars[1..], name, i - 1);
    }
  }

  /** Binary search in a frame whose entries are in name order. */
  method Find(vars: seq<StaticVar>, name: Symbol) returns (r: Option<nat>)
    requires SortedVars(vars)
    ensures r == FindVar(vars, name)
  {
    var lo, hi := 0, |vars|;
    while lo < hi
      invariant 0 <= lo <= hi <= |vars|
      invariant forall i :: 0 <= i < lo ==> vars[i].name < name
      invariant forall i :: hi <= i < |vars| ==> name <= vars[i].name
    {
      var mid := (lo + hi) / 2;
      if vars[mid].name < name {
        lo := mid + 1;
      } else {
        hi := mid;
      }
    }
    if lo < |vars| && vars[lo].name == name {
      FindVarFirst(vars, name, lo);
      return Some(vars[lo].displ);
    }
    FindVarNone(vars, name);
    return None;
  }

  /** Inserts an entry after all entries whose name is not larger. */
  function InsertVar(v: StaticVar, vars: seq<StaticVar>): seq<StaticVar> {
    if vars == [] then [v]
    else if v.name < vars[0].name then [v] + vars
    else [vars[0]] + InsertVar(v, vars[1..])
  }

  /** Stable sort by name. */
  function SortVars(vars: seq<StaticVar>): seq<StaticVar> {
    if vars == [] then [] else InsertVar(vars[|vars| - 1], SortVars(vars[..|vars| - 1]))
  }

  lemma {:induction false} InsertVarElements(v: StaticVar, vars: seq<StaticVar>)
    ensures forall x :: x in InsertVar(v, vars) <==> x == v || x in vars
  {
    if vars != [] && v.name >= vars[0].name {
      InsertVarElements(v, vars[1..]);
      assert vars == [vars[0]] + vars[1..];
    }
  }

  lemma {:induction false} InsertVarSorts(v: StaticVar, vars: seq<StaticVar>)
    requires SortedVars(vars)
    ensures SortedVars(InsertVar(v, vars))
  {
    if vars != [] && v.name >= vars[0].name {
      var rest := vars[1..];
      InsertVarSorts(v, rest);
      InsertVarElements(v, rest);
      var r := InsertVar(v, rest);
      forall i | 0 <= i < |r|
        ensures vars[0].name <= r[i].name
      {
        assert r[i] == v || r[i] in rest;
      }
    }
  }

  lemma {:induction false} SortVarsSorts(vars: seq<StaticVar>)
    ensures SortedVars(SortVars(vars))
  {
    if vars != [] {
      SortVarsSorts(vars[..|vars| - 1]);
      InsertVarSorts(vars[|vars| - 1], SortVars(vars[..|vars| - 1]));
    }
  }

  lemma {:induction false} SortVarsElements(vars: seq<StaticVar>)
    ensures forall x :: x in SortVars(vars) <==> x in vars
  {
    if vars != [] {
      var init, last := vars[..|vars| - 1], vars[|vars| - 1];
      SortVarsElements(init);
      InsertVarElements(last, SortVars(init));
      assert vars == init + [last];
    }
  }

  lemma {:induction false} FindInserted(v: StaticVar, vars: seq<StaticVar>, name: Symbol)
    requires SortedVars(vars)
    ensures FindVar(InsertVar(v, vars), name)
            == var r := FindVar(vars, name);
               if r.Some? then r else if v.name == name then Some(v.displ) else None
  {
    if vars == [] {
      assert [v][1..] == [];
    } else if v.name < vars[0].name {
      assert ([v] + vars)[1..] == vars;
      FindVarNone(vars, v.name);
    } else {
      FindInserted(v, vars[1..], name);
      assert InsertVar(v, vars)[1..] == InsertVar(v, vars[1..]);
    }
  }

  lemma {:induction false} FindAppended(vars: seq<StaticVar>, v: StaticVar, name: Symbol)
    ensures FindVar(vars + [v], name)
            == var r := FindVar(vars, name);
               if r.Some? then r else if v.name == name then Some(v.displ) else None
  {
    if vars == [] {
      assert [v][1..] == [] && vars + [v] == [v];
    } else {
      assert (vars + [v])[1..] == vars[1..] + [v];
      FindAppended(vars[1..], v, name);
    }
  }

  /** Stable sorting does not change what is found. */
  lemma {:induction false} FindSorted(vars: seq<StaticVar>, name: Symbol)
    ensures FindVar(SortVars(vars), name) == FindVar(vars, name)
  {
    if vars != [] {
      hide FindVar, InsertVar;
      var init, last := vars[..|vars| - 1], vars[|vars| - 1];
      FindSorted(init, name);
      SortVarsSorts(init);
      FindInserted(last, SortVars(init), name);
      FindAppended(init, last, name);
      assert vars == init + [last];
    }
  }

  // ---- resolving one variable, linking one `with` ----

  /** Level and slot of the innermost frame that binds the name; `with` frames bind nothing. */
  function Lexical(name: Symbol, env: StaticEnv, level: nat): Option<VarRef> {
    match env
    case Nil => None
    case WithEnv(_, _, up) => Lexical(name, up, level + 1)
    case Vars(vars, up) =>
      match FindVar(vars, name)
      case Some(d) => Some(VarRef(NoWith, level, d))
      case None => Lexical(name, up, level + 1)
  }

  /** The nearest enclosing `with`. */
  function NearestWith(env: StaticEnv): WithLink {
    match env
    case Nil => NoWith
    case WithEnv(prev, parent, _) => WithLink(prev, parent)
    case Vars(_, up) => NearestWith(up)
  }

  /** How many environments up the nearest enclosing `with` is, if there is one. */
  function WithLevel(env: StaticEnv, level: nat): Option<nat> {
    match env
    case Nil => None
    case WithEnv(_, _, _) => Some(level)
    case Vars(_, up) => WithLevel(up, level + 1)
  }

  /** A lexical binding wins over any `with`, however near. */
  function ResolveVar(name: Symbol, env: StaticEnv): Option<VarRef> {
    match Lexical(name, env, 0)
    case Some(r) => Some(r)
    case None =>
      match WithLevel(env, 0)
      case Some(l) => Some(VarRef(NearestWith(env), l, 0))
      case None => None
  }

  /** The link of a `with` that stands in `env`. */
  function LinkOf(env: StaticEnv): (link: WithLink)
    ensures link.WithLink?
  {
    WithLink(match WithLevel(env, 1) case Some(l) => l case None => 0, NearestWith(env))
  }

  ghost predicate SortedEnv(env: StaticEnv) {
    match env
    case Nil => true
    case WithEnv(_, _, up) => SortedEnv(up)
    case Vars(vars, up) => SortedVars(vars) && SortedEnv(up)
  }

  /** The search that `ExprVar::bindVars` makes up the chain of static environments. */
  method BindVar(name: Symbol, env: StaticEnv) returns (r: Option<VarRef>)
    requires SortedEnv(env)
    ensures r == ResolveVar(name, env)
  {
    var curEnv, level, withLevel: int := env, 0, -1;
    while !curEnv.Nil?
      invariant SortedEnv(curEnv)
      invariant Lexical(name, env, 0) == Lexical(name, curEnv, level)
      invariant withLevel == -1 ==> WithLevel(env, 0) == WithLevel(curEnv, level)
      invariant withLevel != -1 ==> withLevel >= 0 && WithLevel(env, 0) == Some(withLevel)
      decreases curEnv
    {
      if curEnv.WithEnv? {
        if withLevel == -1 {
          withLevel := level;
        }
      } else {
        var i := Find(curEnv.vars, name);
        if i.Some? {
          return Some(VarRef(NoWith, level, i.value));
        }
      }
      curEnv, level := curEnv.up, level + 1;
    }
    if withLevel == -1 {
      return None;
    }
    var e, fromWith := env, NoWith;
    while !e.Nil? && fromWith.NoWith?
      invariant fromWith.NoWith? ==> NearestWith(env) == NearestWith(e)
      invariant !fromWith.NoWith? ==> NearestWith(env) == fromWith
      decreases e
    {
      if e.WithEnv? {
        fromWith := WithLink(e.prevWith, e.parentWith);
      }
      e := e.up;
    }
    return Some(VarRef(fromWith, withLevel, 0));
  }

  /** The two searches `ExprWith::bindVars` makes for the enclosing `with`. */
  method BindWith(env: StaticEnv) returns (link: WithLink)
    ensures link == LinkOf(env)
  {
    var parentWith, e := NoWith, env;
    while !e.Nil? && parentWith.NoWith?
      invariant parentWith.NoWith? ==> NearestWith(env) == NearestWith(e)
      invariant !parentWith.NoWith? ==> NearestWith(env) == parentWith
      decreases e
    {
      if e.WithEnv? {
        parentWith := WithLink(e.prevWith, e.parentWith);
      }
      e := e.up;
    }
    var curEnv, level, prevWith := env, 1, 0;
    while !curEnv.Nil?
      invariant prevWith == 0
      invariant WithLevel(env, 1) == WithLevel(curEnv, level)
      decreases curEnv
    {
      if curEnv.WithEnv? {
        prevWith := level;
        break;
      }
      curEnv, level := curEnv.up, level + 1;
    }
    link := WithLink(prevWith, parentWith);
  }

  // ---- resolving a whole expression ----

  function ChooseByKind<T>(kind: Kind, plain: T, inherited: T, inheritedFrom: T): T {
    match kind
    case Plain => plain
    case Inherited => inherited
    case InheritedFrom => inheritedFrom
  }

  function AttrVars(attrs: seq<AttrDef>): seq<StaticVar> {
    seq(|attrs|, i requires 0 <= i < |attrs| => StaticVar(attrs[i].name, i))
  }

  /** The names a lambda binds, by slot: the whole argument first, then the formals. */
  function LambdaNames(arg: Option<Symbol>, formals: Option<Formals>): seq<Symbol> {
    (if arg.Some? then [arg.value] else [])
    + (if formals.None? then []
       else seq(|formals.value.formals|,
                i requires 0 <= i < |formals.value.formals| => formals.value.formals[i].name))
  }

  function SlotVars(names: seq<Symbol>): seq<StaticVar> {
    seq(|names|, i requires 0 <= i < |names| => StaticVar(names[i], i))
  }

  function LambdaVars(arg: Option<Symbol>, formals: Option<Formals>): seq<StaticVar> {
    var vars := SlotVars(LambdaNames(arg, formals));
    if formals.Some? then SortVars(vars) else vars
  }

  function BindExpr(e: Expr, env: StaticEnv): Bound<Expr>
    decreases e, 1
  {
    match e
    case Lit(_) => Bound(e)
    case InheritFrom(_) => Bound(e)
    case Var(name, _) =>
      (match ResolveVar(name, env)
       case Some(r) => Bound(Var(name, r))
       case None => Undefined(name))
    case Select(e1, path, def) =>
      (match BindExpr(e1, env)
       case Undefined(x) => Undefined(x)
       case Bound(b1) =>
         if def.None? then Bound(Select(b1, path, None))
         else match BindExpr(def.value, env)
              case Undefined(x) => Undefined(x)
              case Bound(d) => Bound(Select(b1, path, Some(d))))
    case HasAttr(e1, path) =>
      (match BindExpr(e1, env)
       case Undefined(x) => Undefined(x)
       case Bound(b1) => Bound(HasAttr(b1, path)))
    case Attrs(rec, attrs, froms) =>
      var self := if rec then Vars(AttrVars(attrs), env) else env;
      (match BindSeq(froms, self)
       case Undefined(x) => Undefined(x)
       case Bound(froms') =>
         match BindDefs(attrs, self, env, Vars([], self))
         case Undefined(x) => Undefined(x)
         case Bound(attrs') => Bound(Attrs(rec, attrs', froms')))
    case List(elems) =>
      (match BindSeq(elems, env)
       case Undefined(x) => Undefined(x)
       case Bound(elems') => Bound(List(elems')))
    case Lambda(arg, formals, body) =>
      var newEnv := Vars(LambdaVars(arg, formals), env);
      (match if formals.None? then Bound(None) else BindFormals(formals.value, newEnv)
       case Undefined(x) => Undefined(x)
       case Bound(formals') =>
         match BindExpr(body, newEnv)
         case Undefined(x) => Undefined(x)
         case Bound(body') => Bound(Lambda(arg, formals', body')))
    case Call(fun, args) =>
      (match BindExpr(fun, env)
       case Undefined(x) => Undefined(x)
       case Bound(fun') =>
         match BindSeq(args, env)
         case Undefined(x) => Undefined(x)
         case Bound(args') => Bound(Call(fun', args')))
    case Let(attrs, froms, body) =>
      var self := Vars(AttrVars(attrs), env);
      (match BindSeq(froms, self)
       case Undefined(x) => Undefined(x)
       case Bound(froms') =>
         match BindDefs(attrs, self, env, Vars([], self))
         case Undefined(x) => Undefined(x)
         case Bound(attrs') =>
           match BindExpr(body, self)
           case Undefined(x) => Undefined(x)
           case Bound(body') => Bound(Let(attrs', froms', body')))
    case With(scope, body, _) =>
      var link := LinkOf(env);
      (match BindExpr(scope, env)
       case Undefined(x) => Undefined(x)
       case Bound(scope') =>
         match BindExpr(body, WithEnv(link.prevWith, link.parentWith, env))
         case Undefined(x) => Undefined(x)
         case Bound(body') => Bound(With(scope', body', link)))
    case If(cond, thn, els) =>
      (match BindExpr(cond, env)
       case Undefined(x) => Undefined(x)
       case Bound(cond') =>
         match BindExpr(thn, env)
         case Undefined(x) => Undefined(x)
         case Bound(thn') =>
           match BindExpr(els, env)
           case Undefined(x) => Undefined(x)
           case Bound(els') => Bound(If(cond', thn', els')))
  }

  function BindSeq(es: seq<Expr>, env: StaticEnv): (r: Bound<seq<Expr>>)
    ensures r.Bound? ==> |r.value| == |es| &&
                         forall i :: 0 <= i < |es| ==> BindExpr(es[i], env) == Bound(r.value[i])
    decreases es, 0
  {
    if es == [] then Bound([])
    else match BindExpr(es[0], env)
         case Undefined(x) => Undefined(x)
         case Bound(b) =>
           match BindSeq(es[1..], env)
           case Undefined(x) => Undefined(x)
           case Bound(bs) => Bound([b] + bs)
  }

  /** Each attribute is resolved in the environment its kind calls for. */
  function BindDefs(attrs: seq<AttrDef>, self: StaticEnv, outer: StaticEnv, inherit: StaticEnv)
    : (r: Bound<seq<AttrDef>>)
    ensures r.Bound? ==> |r.value| == |attrs| &&
                         forall i :: 0 <= i < |attrs| ==>
                           BindDef(attrs[i], self, outer, inherit) == Bound(r.value[i])
    decreases attrs, 0
  {
    if attrs == [] then Bound([])
    else match BindDef(attrs[0], self, outer, inherit)
         case Undefined(x) => Undefined(x)
         case Bound(b) =>
           match BindDefs(attrs[1..], self, outer, inherit)
           case Undefined(x) => Undefined(x)
           case Bound(bs) => Bound([b] + bs)
  }

  function BindDef(d: AttrDef, self: StaticEnv, outer: StaticEnv, inherit: StaticEnv): Bound<AttrDef>
    decreases d, 0
  {
    match BindExpr(d.e, ChooseByKind(d.kind, self, outer, inherit))
    case Undefined(x) => Undefined(x)
    case Bound(b) => Bound(AttrDef(d.name, d.kind, b))
  }

  function BindFormals(formals: Formals, env: StaticEnv): (r: Bound<Option<Formals>>)
    decreases formals, 0
  {
    match BindDefaults(formals.formals, env)
    case Undefined(x) => Undefined(x)
    case Bound(fs) => Bound(Some(Formals(fs, formals.ellipsis)))
  }

  function BindDefaults(formals: seq<Formal>, env: StaticEnv): (r: Bound<seq<Formal>>)
    ensures r.Bound? ==> |r.value| == |formals| &&
                         forall i :: 0 <= i < |formals| ==>
                           BindDefault(formals[i], env) == Bound(r.value[i])
    decreases formals, 0
  {
    if formals == [] then Bound([])
    else match BindDefault(formals[0], env)
         case Undefined(x) => Undefined(x)
         case Bound(f) =>
           match BindDefaults(formals[1..], env)
           case Undefined(x) => Undefined(x)
           case Bound(fs) => Bound([f] + fs)
  }

  function BindDefault(f: Formal, env: StaticEnv): Bound<Formal>
    decreases f, 0
  {
    if f.def.None? then Bound(f)
    else match BindExpr(f.def.value, env)
         case Undefined(x) => Undefined(x)
         case Bound(d) => Bound(Formal(f.name, Some(d)))
  }
}
