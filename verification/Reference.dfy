/** The meaning of the language: a call-by-name semantics over names.

  Nothing here is shared, stored or updated. A scope is a list of syntactic frames in which names are
  looked up as they are written; a delayed expression is a closure, evaluated anew at every use.
  Evaluation is indexed by a recursion budget `n`: `Err(OutOfFuel)` means that the budget was too
  small, every other outcome is final. */
module Reference {
  import opened Options
  import opened Syntax
  import opened Scoping

  datatype Error =
    | UndefinedVariable(name: Symbol)
    | AttributeMissing(name: Symbol)
    | NotASet
    | NotABoolean
    | NotAFunction
    | MissingArgument(name: Symbol)
    | UnexpectedArgument(name: Symbol)
    | OutOfFuel
    | InfiniteRecursion
    | StackOverflow
    | Crash

  datatype Outcome<+T> = Ok(value: T) | Err(error: Error)

  datatype Closure = Clo(e: Expr, s: Scope) | Done(v: NValue)

  datatype BaseVar = BaseVar(name: Symbol, c: Const)

  /** `LamFrame` is the scope of the body of a called lambda: `whole` is the argument, `given` its
    attributes if the lambda has formals. */
  datatype Scope =
    | Base(vars: seq<BaseVar>)
    | RecFrame(attrs: seq<AttrDef>, froms: seq<Expr>, up: Scope)
    | InheritFrame(froms: seq<Expr>, up: Scope)
    | LamFrame(arg: Option<Symbol>, formals: Option<Formals>, whole: Closure, given: seq<NAttr>, up: Scope)
    | WithFrame(source: Closure, up: Scope)

  datatype NAttr = NAttr(name: Symbol, clo: Closure)

  datatype NValue =
    | NConst(c: Const)
    | NAttrs(attrs: seq<NAttr>)
    | NList(elems: seq<Closure>)
    | NLambda(arg: Option<Symbol>, formals: Option<Formals>, body: Expr, s: Scope)

  // ---- names ----

  function FindAttr(attrs: seq<NAttr>, name: Symbol): Option<Closure> {
    if attrs == [] then None
    else if attrs[0].name == name then Some(attrs[0].clo)
    else FindAttr(attrs[1..], name)
  }

  function FindFormal(formals: seq<Formal>, name: Symbol): Option<Formal> {
    if formals == [] then None
    else if formals[0].name == name then Some(formals[0])
    else FindFormal(formals[1..], name)
  }

  function FindBase(vars: seq<BaseVar>, name: Symbol): Option<Closure> {
    if vars == [] then None
    else if vars[0].name == name then Some(Done(NConst(vars[0].c)))
    else FindBase(vars[1..], name)
  }

  function FindDef(attrs: seq<AttrDef>, name: Symbol): Option<AttrDef> {
    if attrs == [] then None
    else if attrs[0].name == name then Some(attrs[0])
    else FindDef(attrs[1..], name)
  }

  /** The closure an attribute definition stands for: plain definitions see the new scope, `inherit x`
    the surrounding one, `inherit (e) x` the sources. */
  function DefClosure(d: AttrDef, froms: seq<Expr>, self: Scope, outer: Scope): Closure {
    Clo(d.e, ChooseByKind(d.kind, self, outer, InheritFrame(froms, self)))
  }

  /** An attribute of the argument if it is given, otherwise the default, which sees the whole frame. */
  function FormalClosure(f: Formal, given: seq<NAttr>, self: Scope): Option<Closure> {
    match FindAttr(given, f.name)
    case Some(c) => Some(c)
    case None => if f.def.Some? then Some(Clo(f.def.value, self)) else None
  }

  /** The innermost lexical binding of a name; `with` and `inherit` frames bind no names. */
  function LexicalBinding(s: Scope, name: Symbol): Option<Closure> {
    match s
    case Base(vars) => FindBase(vars, name)
    case RecFrame(attrs, froms, up) =>
      (match FindDef(attrs, name)
       case Some(d) => Some(DefClosure(d, froms, s, up))
       case None => LexicalBinding(up, name))
    case InheritFrame(_, up) => LexicalBinding(up, name)
    case LamFrame(arg, formals, whole, given, up) =>
      if arg == Some(name) then Some(whole)
      else if formals.None? then LexicalBinding(up, name)
      else (match FindFormal(formals.value.formals, name)
            case Some(f) => FormalClosure(f, given, s)
            case None => LexicalBinding(up, name))
    case WithFrame(_, up) => LexicalBinding(up, name)
  }

  // ---- matching an argument set against formals ----

  function FirstMissing(formals: seq<Formal>, given: seq<NAttr>): Option<Symbol> {
    if formals == [] then None
    else if FindAttr(given, formals[0].name).None? && formals[0].def.None? then Some(formals[0].name)
    else FirstMissing(formals[1..], given)
  }

  function FirstUnexpected(formals: seq<Formal>, given: seq<NAttr>): Option<Symbol> {
    if given == [] then None
    else if FindFormal(formals, given[0].name).None? then Some(given[0].name)
    else FirstUnexpected(formals, given[1..])
  }

  /** Why an argument set is not accepted, if it is not. */
  function MatchError(formals: Formals, given: seq<NAttr>): Option<Error> {
    match FirstMissing(formals.formals, given)
    case Some(x) => Some(MissingArgument(x))
    case None =>
      if formals.ellipsis then None
      else match FirstUnexpected(formals.formals, given)
           case Some(x) => Some(UnexpectedArgument(x))
           case None => None
  }

  // ---- evaluation ----

  function EvalN(e: Expr, s: Scope, n: nat): Outcome<NValue>
    decreases n, 0
  {
    if n == 0 then Err(OutOfFuel)
    else match e
         case Lit(c) => Ok(NConst(c))
         case Var(name, _) =>
           (match LexicalBinding(s, name)
            case Some(c) => EvalClosure(c, n - 1)
            case None =>
              match WithBinding(s, name, n - 1)
              case Err(x) => Err(x)
              case Ok(c) => EvalClosure(c, n - 1))
         case InheritFrom(d) =>
           if s.InheritFrame? && d < |s.froms| then EvalN(s.froms[d], s.up, n - 1) else Err(Crash)
         case Select(e1, path, def) =>
           (match EvalN(e1, s, n - 1)
            case Err(x) => Err(x)
            case Ok(v) => SelectN(v, path, def, s, n - 1))
         case HasAttr(e1, path) =>
           (match EvalN(e1, s, n - 1)
            case Err(x) => Err(x)
            case Ok(v) => HasAttrN(v, path, n - 1))
         case Attrs(rec, attrs, froms) =>
           var self := if rec then RecFrame(attrs, froms, s) else s;
           Ok(NAttrs(seq(|attrs|, i requires 0 <= i < |attrs| =>
                                  NAttr(attrs[i].name, DefClosure(attrs[i], froms, self, s)))))
         case List(elems) => Ok(NList(seq(|elems|, i requires 0 <= i < |elems| => Clo(elems[i], s))))
         case Lambda(arg, formals, body) => Ok(NLambda(arg, formals, body, s))
         case Call(fun, args) =>
           (match EvalN(fun, s, n - 1)
            case Err(x) => Err(x)
            case Ok(f) => ApplyAll(f, seq(|args|, i requires 0 <= i < |args| => Clo(args[i], s)), n - 1))
         case Let(attrs, froms, body) => EvalN(body, RecFrame(attrs, froms, s), n - 1)
         case With(source, body, _) => EvalN(body, WithFrame(Clo(source, s), s), n - 1)
         case If(cond, thn, els) =>
           match EvalN(cond, s, n - 1)
           case Err(x) => Err(x)
           case Ok(v) =>
             if v.NConst? && v.c.CBool? then EvalN(if v.c.b then thn else els, s, n - 1)
             else Err(NotABoolean)
  }

  function EvalClosure(c: Closure, n: nat): Outcome<NValue>
    decreases n, 1
  {
    match c
    case Done(v) => Ok(v)
    case Clo(e, s) => EvalN(e, s, n)
  }

  /** The innermost enclosing `with` whose set holds the name. */
  function WithBinding(s: Scope, name: Symbol, n: nat): Outcome<Closure>
    decreases n, 2, s
  {
    match s
    case Base(_) => Err(UndefinedVariable(name))
    case RecFrame(_, _, up) => WithBinding(up, name, n)
    case InheritFrame(_, up) => WithBinding(up, name, n)
    case LamFrame(_, _, _, _, up) => WithBinding(up, name, n)
    case WithFrame(source, up) =>
      match EvalClosure(source, n)
      case Err(x) => Err(x)
      case Ok(v) =>
        if !v.NAttrs? then Err(NotASet)
        else match FindAttr(v.attrs, name)
             case Some(c) => Ok(c)
             case None => WithBinding(up, name, n)
  }

  function SelectN(v: NValue, path: seq<Symbol>, def: Option<Expr>, s: Scope, n: nat): Outcome<NValue>
    decreases n, 2, |path|
  {
    if path == [] then Ok(v)
    else match if v.NAttrs? then FindAttr(v.attrs, path[0]) else None
         case None =>
           if def.Some? then EvalN(def.value, s, n)
           else if v.NAttrs? then Err(AttributeMissing(path[0])) else Err(NotASet)
         case Some(c) =>
           match EvalClosure(c, n)
           case Err(x) => Err(x)
           case Ok(v') => SelectN(v', path[1..], def, s, n)
  }

  function HasAttrN(v: NValue, path: seq<Symbol>, n: nat): Outcome<NValue>
    decreases n, 2, |path|
  {
    if path == [] then Ok(NConst(CBool(true)))
    else match if v.NAttrs? then FindAttr(v.attrs, path[0]) else None
         case None => Ok(NConst(CBool(false)))
         case Some(c) =>
           if |path| == 1 then Ok(NConst(CBool(true)))
           else match EvalClosure(c, n)
                case Err(x) => Err(x)
                case Ok(v') => HasAttrN(v', path[1..], n)
  }

  function Apply(f: NValue, arg: Closure, n: nat): Outcome<NValue>
    decreases n, 2, 0
  {
    match f
    case NLambda(name, formals, body, s) =>
      if formals.None? then EvalN(body, LamFrame(name, formals, arg, [], s), n)
      else (match EvalClosure(arg, n)
            case Err(x) => Err(x)
            case Ok(v) =>
              if !v.NAttrs? then Err(NotASet)
              else match MatchError(formals.value, v.attrs)
                   case Some(x) => Err(x)
                   case None => EvalN(body, LamFrame(name, formals, arg, v.attrs, s), n))
    case NAttrs(attrs) =>
      (match FindAttr(attrs, FUNCTOR)
       case None => Err(NotAFunction)
       case Some(c) =>
         if n == 0 then Err(OutOfFuel)
         else match EvalClosure(c, n - 1)
              case Err(x) => Err(x)
              case Ok(g) => ApplyAll(g, [Done(f), arg], n - 1))
    case _ => Err(NotAFunction)
  }

  function ApplyAll(f: NValue, args: seq<Closure>, n: nat): Outcome<NValue>
    decreases n, 3, |args|
  {
    if args == [] then Ok(f)
    else match Apply(f, args[0], n)
         case Err(x) => Err(x)
         case Ok(g) => ApplyAll(g, args[1..], n)
  }
}
