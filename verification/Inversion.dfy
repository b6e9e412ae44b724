/** What a resolved expression looks like, part by part. */
module Inversion {
  import opened Options
  import opened Syntax
  import opened Scoping
  import opened Reference
  import opened Machine
  import opened Meaning
  import opened Frames

  lemma BoundVar(src: Expr, s: Scope, e: Expr)
    requires BoundTo(src, s, e) && src.Var?
    ensures e.Var? && e.name == src.name && ResolveVar(src.name, Shape(s)) == Some(e.ref)
  {
  }

  lemma BoundFrom(src: Expr, s: Scope, e: Expr)
    requires BoundTo(src, s, e) && src.InheritFrom?
    ensures e == src && s.InheritFrame? && src.displ < |s.froms|
  {
  }

  lemma BoundLit(src: Expr, s: Scope, e: Expr)
    requires BoundTo(src, s, e) && src.Lit?
    ensures e == src
  {
  }

  lemma BoundSelect(src: Expr, s: Scope, e: Expr)
    requires BoundTo(src, s, e) && src.Select?
    ensures e.Select? && e.path == src.path && BoundTo(src.e, s, e.e)
    ensures src.def.Some? <==> e.def.Some?
    ensures src.def.Some? ==> BoundTo(src.def.value, s, e.def.value)
  {
  }

  lemma BoundHasAttr(src: Expr, s: Scope, e: Expr)
    requires BoundTo(src, s, e) && src.HasAttr?
    ensures e.HasAttr? && e.path == src.path && BoundTo(src.e, s, e.e)
  {
  }

  lemma BoundIf(src: Expr, s: Scope, e: Expr)
    requires BoundTo(src, s, e) && src.If?
    ensures e.If? && BoundTo(src.cond, s, e.cond) && BoundTo(src.thn, s, e.thn) && BoundTo(src.els, s, e.els)
  {
  }

  lemma BoundLambda(src: Expr, s: Scope, e: Expr)
    requires BoundTo(src, s, e) && src.Lambda?
    ensures e.Lambda? && e.arg == src.arg
  {
  }

  lemma SeqIsBound(srcs: seq<Expr>, es: seq<Expr>, s: Scope)
    requires BindSeq(srcs, Shape(s)) == Bound(es)
    requires forall i :: 0 <= i < |srcs| ==> WellFormed(srcs[i], SourcesOf(s))
    ensures |es| == |srcs| && forall i :: 0 <= i < |es| ==> BoundTo(srcs[i], s, es[i])
  {
  }

  lemma BoundList(src: Expr, s: Scope, e: Expr)
    requires BoundTo(src, s, e) && src.List?
    ensures e.List? && |e.elems| == |src.elems|
    ensures forall i :: 0 <= i < |e.elems| ==> BoundTo(src.elems[i], s, e.elems[i])
  {
    SeqIsBound(src.elems, e.elems, s);
  }

  lemma BoundCall(src: Expr, s: Scope, e: Expr)
    requires BoundTo(src, s, e) && src.Call?
    ensures e.Call? && BoundTo(src.fun, s, e.fun) && |e.args| == |src.args|
    ensures forall i :: 0 <= i < |e.args| ==> BoundTo(src.args[i], s, e.args[i])
  {
    SeqIsBound(src.args, e.args, s);
  }

  lemma BoundWith(src: Expr, s: Scope, e: Expr)
    requires BoundTo(src, s, e) && src.With?
    ensures e.With? && BoundTo(src.scope, s, e.scope)
    ensures BoundTo(src.body, WithFrame(Clo(src.scope, s), s), e.body)
  {
  }

  // ---- sets and `let` ----

  /** Resolution gives each attribute definition the scope of its kind. */
  lemma DefsAreBound(srcs: seq<AttrDef>, attrs: seq<AttrDef>, froms: seq<Expr>, self: Scope, outer: Scope)
    requires BindDefs(srcs, Shape(self), Shape(outer), Vars([], Shape(self))) == Bound(attrs)
    requires forall i :: 0 <= i < |srcs| ==>
               WellFormed(srcs[i].e, DefSources(srcs[i].kind, SourcesOf(self), SourcesOf(outer), |froms|))
    requires forall i :: 0 <= i < |srcs| && srcs[i].kind.InheritedFrom? ==> froms != []
    ensures DefsBound(srcs, attrs, froms, self, outer)
  {
    forall i | 0 <= i < |attrs|
      ensures attrs[i].name == srcs[i].name && attrs[i].kind == srcs[i].kind
      ensures BoundTo(srcs[i].e, ChooseByKind(srcs[i].kind, self, outer, InheritFrame(froms, self)), attrs[i].e)
    {
      assert BindDef(srcs[i], Shape(self), Shape(outer), Vars([], Shape(self))) == Bound(attrs[i]);
      assert Shape(InheritFrame(froms, self)) == Vars([], Shape(self));
    }
  }

  lemma RecIsBound(srcs: seq<AttrDef>, srcFroms: seq<Expr>, outer: Scope, attrs: seq<AttrDef>, froms: seq<Expr>)
    requires BindSeq(srcFroms, Vars(AttrVars(srcs), Shape(outer))) == Bound(froms)
    requires BindDefs(srcs, Vars(AttrVars(srcs), Shape(outer)), Shape(outer),
                      Vars([], Vars(AttrVars(srcs), Shape(outer)))) == Bound(attrs)
    requires forall i :: 0 <= i < |srcs| ==>
               WellFormed(srcs[i].e, DefSources(srcs[i].kind, None, SourcesOf(outer), |srcFroms|))
    requires forall i :: 0 <= i < |srcs| && srcs[i].kind.InheritedFrom? ==> srcFroms != []
    requires forall i :: 0 <= i < |srcFroms| ==> WellFormed(srcFroms[i], None)
    ensures RecBound(srcs, srcFroms, outer, attrs, froms)
  {
    var self := RecFrame(srcs, srcFroms, outer);
    assert Shape(self) == Vars(AttrVars(srcs), Shape(outer));
    DefsAreBound(srcs, attrs, srcFroms, self, outer);
    SeqIsBound(srcFroms, froms, self);
  }

  ghost predicate RecBound(srcs: seq<AttrDef>, srcFroms: seq<Expr>, outer: Scope, attrs: seq<AttrDef>,
                           froms: seq<Expr>)
  {
    var self := RecFrame(srcs, srcFroms, outer);
    && DefsBound(srcs, attrs, srcFroms, self, outer)
    && |froms| == |srcFroms| && forall i :: 0 <= i < |froms| ==> BoundTo(srcFroms[i], self, froms[i])
  }

  lemma BoundLet(src: Expr, s: Scope, e: Expr)
    requires BoundTo(src, s, e) && src.Let?
    ensures e.Let? && SortedNames(src.attrs) && RecBound(src.attrs, src.froms, s, e.attrs, e.froms)
    ensures BoundTo(src.body, RecFrame(src.attrs, src.froms, s), e.body)
  {
    RecIsBound(src.attrs, src.froms, s, e.attrs, e.froms);
  }

  lemma BoundRec(src: Expr, s: Scope, e: Expr)
    requires BoundTo(src, s, e) && src.Attrs? && src.recursive
    ensures e.Attrs? && e.recursive && SortedNames(src.attrs)
    ensures RecBound(src.attrs, src.froms, s, e.attrs, e.froms)
  {
    RecIsBound(src.attrs, src.froms, s, e.attrs, e.froms);
  }

  lemma BoundPlain(src: Expr, s: Scope, e: Expr)
    requires BoundTo(src, s, e) && src.Attrs? && !src.recursive
    ensures e.Attrs? && !e.recursive && SortedNames(src.attrs)
    ensures DefsBound(src.attrs, e.attrs, src.froms, s, s)
    ensures |e.froms| == |src.froms| && forall i :: 0 <= i < |e.froms| ==> BoundTo(src.froms[i], s, e.froms[i])
  {
    DefsAreBound(src.attrs, e.attrs, src.froms, s, s);
    SeqIsBound(src.froms, e.froms, s);
  }

  // ---- lambdas ----

  ghost predicate FormalBound(src: Formal, f: Formal, env: StaticEnv) {
    && f.name == src.name && (f.def.Some? <==> src.def.Some?)
    && (src.def.Some? ==> WellFormed(src.def.value, None) && BindExpr(src.def.value, env) == Bound(f.def.value))
  }

  ghost predicate FormalsBound(src: Formals, f: Formals, env: StaticEnv) {
    && f.ellipsis == src.ellipsis && |f.formals| == |src.formals|
    && SortedFormals(src.formals)
    && forall i :: 0 <= i < |f.formals| ==> FormalBound(src.formals[i], f.formals[i], env)
  }

  lemma FormalsAreBound(src: Formals, f: Option<Formals>, env: StaticEnv)
    requires BindFormals(src, env) == Bound(f) && SortedFormals(src.formals)
    requires forall i :: 0 <= i < |src.formals| ==>
               src.formals[i].def.Some? ==> WellFormed(src.formals[i].def.value, None)
    ensures f.Some? && FormalsBound(src, f.value, env)
  {
    forall i | 0 <= i < |src.formals|
      ensures FormalBound(src.formals[i], f.value.formals[i], env)
    {
      assert BindDefault(src.formals[i], env) == Bound(f.value.formals[i]);
    }
  }

  lemma LambdaNamesDistinct(arg: Option<Symbol>, formals: Option<Formals>)
    requires formals.Some? ==> SortedFormals(formals.value.formals)
    requires formals.Some? ==>
               forall i :: 0 <= i < |formals.value.formals| ==> arg != Some(formals.value.formals[i].name)
    ensures Distinct(LambdaNames(arg, formals))
  {
    if formals.Some? {
      var fs := formals.value.formals;
      var names := LambdaNames(arg, formals);
      var first := FirstFormal(arg);
      forall i, j | 0 <= i < j < |names|
        ensures names[i] != names[j]
      {
        assert names[j] == fs[j - first].name;
        if i >= first {
          assert names[i] == fs[i - first].name;
        }
      }
    }
  }

  /** What resolution says about the parts of a lambda. */
  lemma LambdaParts(src: Expr, s: Scope, e: Expr)
    requires BoundTo(src, s, e) && src.Lambda?
    ensures e.Lambda? && e.arg == src.arg && (e.formals.None? <==> src.formals.None?)
    ensures e.formals.None? ==> e.arg.Some?
    ensures WellFormed(src.body, None)
    ensures BindExpr(src.body, Vars(LambdaVars(src.arg, src.formals), Shape(s))) == Bound(e.body)
    ensures Distinct(LambdaNames(src.arg, src.formals))
    ensures e.formals.Some? ==>
              FormalsBound(src.formals.value, e.formals.value, Vars(LambdaVars(src.arg, src.formals), Shape(s)))
  {
    LambdaNamesDistinct(src.arg, src.formals);
    var env := Vars(LambdaVars(src.arg, src.formals), Shape(s));
    if src.formals.Some? {
      assert BindFormals(src.formals.value, env).Bound?;
      FormalsAreBound(src.formals.value, BindFormals(src.formals.value, env).value, env);
    }
  }
}
