/** A larger budget never changes a final outcome of the reference semantics. */
module Fuel {
  import opened Options
  import opened Syntax
  import opened Scoping
  import opened Reference

  predicate Final<T>(o: Outcome<T>) {
    o != Err(OutOfFuel)
  }

  lemma {:induction false} MoreFuel(e: Expr, s: Scope, n: nat, m: nat)
    requires n <= m && Final(EvalN(e, s, n))
    ensures EvalN(e, s, m) == EvalN(e, s, n)
    decreases n, 0
  {
    match e
    case Lit(_) =>
    case Attrs(_, _, _) =>
    case List(_) =>
    case Lambda(_, _, _) =>
    case Var(name, _) =>
      match LexicalBinding(s, name) {
        case Some(c) => MoreFuelClosure(c, n - 1, m - 1);
        case None =>
          MoreFuelWith(s, name, n - 1, m - 1);
          var r := WithBinding(s, name, n - 1);
          if r.Ok? {
            MoreFuelClosure(r.value, n - 1, m - 1);
          }
      }
    case InheritFrom(d) =>
      if s.InheritFrame? && d < |s.froms| {
        MoreFuel(s.froms[d], s.up, n - 1, m - 1);
      }
    case Select(e1, path, def) =>
      MoreFuel(e1, s, n - 1, m - 1);
      var r := EvalN(e1, s, n - 1);
      if r.Ok? {
        MoreFuelSelect(r.value, path, def, s, n - 1, m - 1);
      }
    case HasAttr(e1, path) =>
      MoreFuel(e1, s, n - 1, m - 1);
      var r := EvalN(e1, s, n - 1);
      if r.Ok? {
        MoreFuelHasAttr(r.value, path, n - 1, m - 1);
      }
    case Call(fun, args) =>
      MoreFuel(fun, s, n - 1, m - 1);
      var r := EvalN(fun, s, n - 1);
      if r.Ok? {
        MoreFuelApplyAll(r.value, seq(|args|, i requires 0 <= i < |args| => Clo(args[i], s)), n - 1, m - 1);
      }
    case Let(attrs, froms, body) => MoreFuel(body, RecFrame(attrs, froms, s), n - 1, m - 1);
    case With(source, body, _) => MoreFuel(body, WithFrame(Clo(source, s), s), n - 1, m - 1);
    case If(cond, thn, els) =>
      MoreFuel(cond, s, n - 1, m - 1);
      var r := EvalN(cond, s, n - 1);
      if r.Ok? && r.value.NConst? && r.value.c.CBool? {
        MoreFuel(if r.value.c.b then thn else els, s, n - 1, m - 1);
      }
  }

  lemma {:induction false} MoreFuelClosure(c: Closure, n: nat, m: nat)
    requires n <= m && Final(EvalClosure(c, n))
    ensures EvalClosure(c, m) == EvalClosure(c, n)
    decreases n, 1
  {
    if c.Clo? {
      MoreFuel(c.e, c.s, n, m);
    }
  }

  lemma {:induction false} MoreFuelWith(s: Scope, name: Symbol, n: nat, m: nat)
    requires n <= m && Final(WithBinding(s, name, n))
    ensures WithBinding(s, name, m) == WithBinding(s, name, n)
    decreases n, 2, s
  {
    match s
    case Base(_) =>
    case RecFrame(_, _, up) => MoreFuelWith(up, name, n, m);
    case InheritFrame(_, up) => MoreFuelWith(up, name, n, m);
    case LamFrame(_, _, _, _, up) => MoreFuelWith(up, name, n, m);
    case WithFrame(source, up) =>
      MoreFuelClosure(source, n, m);
      var r := EvalClosure(source, n);
      if r.Ok? && r.value.NAttrs? && FindAttr(r.value.attrs, name).None? {
        MoreFuelWith(up, name, n, m);
      }
  }

  lemma {:induction false} MoreFuelSelect(v: NValue, path: seq<Symbol>, def: Option<Expr>, s: Scope, n: nat, m: nat)
    requires n <= m && Final(SelectN(v, path, def, s, n))
    ensures SelectN(v, path, def, s, m) == SelectN(v, path, def, s, n)
    decreases n, 2, |path|
  {
    if path != [] {
      match if v.NAttrs? then FindAttr(v.attrs, path[0]) else None
      case None =>
        if def.Some? {
          MoreFuel(def.value, s, n, m);
        }
      case Some(c) =>
        MoreFuelClosure(c, n, m);
        var r := EvalClosure(c, n);
        if r.Ok? {
          MoreFuelSelect(r.value, path[1..], def, s, n, m);
        }
    }
  }

  lemma {:induction false} MoreFuelHasAttr(v: NValue, path: seq<Symbol>, n: nat, m: nat)
    requires n <= m && Final(HasAttrN(v, path, n))
    ensures HasAttrN(v, path, m) == HasAttrN(v, path, n)
    decreases n, 2, |path|
  {
    if path != [] {
      match if v.NAttrs? then FindAttr(v.attrs, path[0]) else None
      case None =>
      case Some(c) =>
        if |path| > 1 {
          MoreFuelClosure(c, n, m);
          var r := EvalClosure(c, n);
          if r.Ok? {
            MoreFuelHasAttr(r.value, path[1..], n, m);
          }
        }
    }
  }

  lemma {:induction false} MoreFuelApply(f: NValue, arg: Closure, n: nat, m: nat)
    requires n <= m && Final(Apply(f, arg, n))
    ensures Apply(f, arg, m) == Apply(f, arg, n)
    decreases n, 2, 0
  {
    match f
    case NLambda(name, formals, body, s) =>
      if formals.None? {
        MoreFuel(body, LamFrame(name, formals, arg, [], s), n, m);
      } else {
        MoreFuelClosure(arg, n, m);
        var r := EvalClosure(arg, n);
        if r.Ok? && r.value.NAttrs? && MatchError(formals.value, r.value.attrs).None? {
          MoreFuel(body, LamFrame(name, formals, arg, r.value.attrs, s), n, m);
        }
      }
    case NAttrs(attrs) =>
      if c :| FindAttr(attrs, FUNCTOR) == Some(c) {
        MoreFuelClosure(c, n - 1, m - 1);
        var r := EvalClosure(c, n - 1);
        if r.Ok? {
          MoreFuelApplyAll(r.value, [Done(f), arg], n - 1, m - 1);
        }
      }
    case _ =>
  }

  lemma {:induction false} MoreFuelApplyAll(f: NValue, args: seq<Closure>, n: nat, m: nat)
    requires n <= m && Final(ApplyAll(f, args, n))
    ensures ApplyAll(f, args, m) == ApplyAll(f, args, n)
    decreases n, 3, |args|
  {
    if args != [] {
      MoreFuelApply(f, args[0], n, m);
      var r := Apply(f, args[0], n);
      if r.Ok? {
        MoreFuelApplyAll(r.value, args[1..], n, m);
      }
    }
  }
}
