/** Abstract syntax of the expression language.

  Symbols are interned strings, compared and ordered by their table index. An expression node
  carries the fields that scope resolution later fills in (`VarRef`, `WithLink`), so resolution is a
  map from expressions to expressions. */
module Syntax {
  import opened Options

  type Symbol = nat

  /** How an attribute of a set or of a `let` was written:
    `x = e;`, `inherit x;` or `inherit (e) x;`. */
  datatype Kind = Plain | Inherited | InheritedFrom

  /** The part of a `with` node that variable lookup reads through a pointer to that node: how many
    environments to go up to reach the enclosing `with`, and that enclosing `with`. */
  datatype WithLink = NoWith | WithLink(prevWith: nat, parentWith: WithLink)

  /** Where a variable is found: slot `displ` of the environment `level` steps up, or, when
    `fromWith` is set, the chain of `with` sets starting `level` steps up. */
  datatype VarRef = VarRef(fromWith: WithLink, level: nat, displ: nat)

  /** Atomic values. Literals are integers and strings; the others come from the base environment. */
  datatype Const = CInt(n: int) | CStr(s: string) | CBool(b: bool) | CNull

  datatype AttrDef = AttrDef(name: Symbol, kind: Kind, e: Expr)

  datatype Formal = Formal(name: Symbol, def: Option<Expr>)

  datatype Formals = Formals(formals: seq<Formal>, ellipsis: bool)

  /** `Attrs` and `Let` list their attributes in symbol order. `froms` are the sources of the
    `inherit (e)` clauses; an attribute of kind `InheritedFrom` reads one of them through the
    pseudo-variable `InheritFrom`. */
  datatype Expr =
    | Lit(c: Const)
    | Var(name: Symbol, ref: VarRef)
    | InheritFrom(displ: nat)
    | Select(e: Expr, path: seq<Symbol>, def: Option<Expr>)
    | HasAttr(e: Expr, path: seq<Symbol>)
    | Attrs(recursive: bool, attrs: seq<AttrDef>, froms: seq<Expr>)
    | List(elems: seq<Expr>)
    | Lambda(arg: Option<Symbol>, formals: Option<Formals>, body: Expr)
    | Call(fun: Expr, args: seq<Expr>)
    | Let(attrs: seq<AttrDef>, froms: seq<Expr>, body: Expr)
    | With(scope: Expr, body: Expr, link: WithLink)
    | If(cond: Expr, thn: Expr, els: Expr)

  /** The symbols `__functor` and `__overrides`. */
  const FUNCTOR: Symbol := 1
  const OVERRIDES: Symbol := 2

  ghost predicate SortedNames(attrs: seq<AttrDef>) {
    forall i, j :: 0 <= i < j < |attrs| ==> attrs[i].name < attrs[j].name
  }

  ghost predicate SortedFormals(formals: seq<Formal>) {
    forall i, j :: 0 <= i < j < |formals| ==> formals[i].name < formals[j].name
  }

  /** What the parser guarantees about the sets and lambdas it builds, and no `rec` set that uses
    `__overrides`. `sources` is the number of
    `inherit (e)` sources in the environment the expression is evaluated in, if that is the
    environment of an `inherit (e)` clause. */
  ghost predicate WellFormed(e: Expr, sources: Option<nat>)
    decreases e
  {
    match e
    case Lit(_) => true
    case Var(_, _) => true
    case InheritFrom(d) => sources.Some? && d < sources.value
    case Select(e1, path, def) =>
      WellFormed(e1, sources) && (def.Some? ==> WellFormed(def.value, sources))
    case HasAttr(e1, path) => WellFormed(e1, sources)
    case Attrs(rec, attrs, froms) =>
      var inner := if rec then None else sources;
      && SortedNames(attrs)
      && (rec ==> forall i :: 0 <= i < |attrs| ==> attrs[i].name != OVERRIDES)
      && (forall i :: 0 <= i < |attrs| ==>
            WellFormed(attrs[i].e, DefSources(attrs[i].kind, inner, sources, |froms|)))
      && (forall i :: 0 <= i < |attrs| && attrs[i].kind.InheritedFrom? ==> froms != [])
      && (forall i :: 0 <= i < |froms| ==> WellFormed(froms[i], inner))
    case List(elems) => forall i :: 0 <= i < |elems| ==> WellFormed(elems[i], sources)
    case Lambda(arg, formals, body) =>
      && WellFormed(body, None)
      && (formals.None? ==> arg.Some?)
      && (formals.Some? ==>
            && SortedFormals(formals.value.formals)
            && (forall i :: 0 <= i < |formals.value.formals| ==>
                  arg != Some(formals.value.formals[i].name))
            && (forall i :: 0 <= i < |formals.value.formals| ==>
                  formals.value.formals[i].def.Some? ==>
                    WellFormed(formals.value.formals[i].def.value, None)))
    case Call(fun, args) =>
      WellFormed(fun, sources) && forall i :: 0 <= i < |args| ==> WellFormed(args[i], sources)
    case Let(attrs, froms, body) =>
      && SortedNames(attrs)
      && (forall i :: 0 <= i < |attrs| ==>
            WellFormed(attrs[i].e, DefSources(attrs[i].kind, None, sources, |froms|)))
      && (forall i :: 0 <= i < |attrs| && attrs[i].kind.InheritedFrom? ==> froms != [])
      && (forall i :: 0 <= i < |froms| ==> WellFormed(froms[i], None))
      && WellFormed(body, None)
    case With(scope, body, _) => WellFormed(scope, sources) && WellFormed(body, None)
    case If(cond, thn, els) =>
      WellFormed(cond, sources) && WellFormed(thn, sources) && WellFormed(els, sources)
  }

  ghost function DefSources(kind: Kind, inner: Option<nat>, outer: Option<nat>, froms: nat): Option<nat> {
    match kind
    case Plain => inner
    case Inherited => outer
    case InheritedFrom => Some(froms)
  }
}
