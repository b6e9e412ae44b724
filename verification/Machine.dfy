/** The evaluator: a lazy machine over a heap of value cells and environments.

  A cell holds a delayed expression, a value, or a black hole while it is being computed. An
  environment is a row of slots holding cells, linked to the surrounding environment; a slot is empty
  until it is filled. Variables are read at the level and slot that scope resolution wrote into them,
  with no check that these are right: reading outside a frame, or an empty slot, is `Err(Crash)`.

  `fuel` bounds the depth of recursion; `Err(OutOfFuel)` means that it was too small. */
module Machine {
  import opened Options
  import opened Syntax
  import opened Scoping
  import opened Reference

  datatype VAttr = VAttr(name: Symbol, cell: nat)

  datatype Value =
    | VConst(c: Const)
    | VAttrs(attrs: seq<VAttr>)
    | VList(elems: seq<nat>)
    | VLambda(arg: Option<Symbol>, formals: Option<Formals>, body: Expr, env: nat)

  datatype Cell = Thunk(env: nat, e: Expr) | BlackHole | Val(v: Value)

  datatype Env = Env(up: Option<nat>, values: seq<Option<nat>>)

  datatype State = State(cells: seq<Cell>, envs: seq<Env>, callDepth: int, maxCallDepth: int)

  datatype Run<+T> = Run(out: Outcome<T>, st: State)

  datatype Alloc = Alloc(id: nat, st: State)

  datatype Cells = Cells(ids: seq<nat>, st: State)

  datatype Bindings = Bindings(attrs: seq<VAttr>, st: State)

  // ---- heap access ----

  function NewCell(c: Cell, st: State): Alloc {
    Alloc(|st.cells|, st.(cells := st.cells + [c]))
  }

  function SetCell(c: nat, cell: Cell, st: State): State {
    if c < |st.cells| then st.(cells := st.cells[c := cell]) else st
  }

  function NewEnv(size: nat, up: nat, st: State): Alloc {
    Alloc(|st.envs|, st.(envs := st.envs + [Env(Some(up), seq(size, _ => None))]))
  }

  function SetSlot(env: nat, displ: nat, c: nat, st: State): State {
    if env < |st.envs| && displ < |st.envs[env].values| then
      st.(envs := st.envs[env := st.envs[env].(values := st.envs[env].values[displ := Some(c)])])
    else st
  }

  /** The environment `level` steps up. */
  function UpEnv(envs: seq<Env>, env: nat, level: nat): (r: Option<nat>)
    ensures r.Some? ==> r.value < |envs|
    decreases level
  {
    if env >= |envs| then None
    else if level == 0 then Some(env)
    else match envs[env].up
         case None => None
         case Some(u) => UpEnv(envs, u, level - 1)
  }

  /** `Some(None)` is an empty slot, `None` is no slot at all. */
  function ReadSlot(envs: seq<Env>, env: nat, level: nat, displ: nat): Option<Option<nat>> {
    match UpEnv(envs, env, level)
    case None => None
    case Some(e) => if displ < |envs[e].values| then Some(envs[e].values[displ]) else None
  }

  function GetAttr(attrs: seq<VAttr>, name: Symbol): Option<nat> {
    if attrs == [] then None
    else if attrs[0].name == name then Some(attrs[0].cell)
    else GetAttr(attrs[1..], name)
  }

  // ---- delaying expressions, building frames ----

  /** A cell for the delayed expression. A variable whose slot is already filled is looked up right
    away and its own cell is shared. */
  function MaybeThunk(e: Expr, env: nat, st: State): Alloc {
    match e
    case Var(_, ref) =>
      if ref.fromWith.NoWith? then VarThunk(e, env, ref.level, ref.displ, st)
      else NewCell(Thunk(env, e), st)
    case InheritFrom(d) => VarThunk(e, env, 0, d, st)
    case Lit(c) => NewCell(Val(VConst(c)), st)
    case List(elems) => NewCell(if elems == [] then Val(VList([])) else Thunk(env, e), st)
    case _ => NewCell(Thunk(env, e), st)
  }

  function VarThunk(e: Expr, env: nat, level: nat, displ: nat, st: State): Alloc {
    match ReadSlot(st.envs, env, level, displ)
    case Some(Some(c)) => Alloc(c, st)
    case _ => NewCell(Thunk(env, e), st)
  }

  function ThunkAll(es: seq<Expr>, env: nat, st: State): Cells {
    if es == [] then Cells([], st)
    else
      var a := MaybeThunk(es[0], env, st);
      var rest := ThunkAll(es[1..], env, a.st);
      Cells([a.id] + rest.ids, rest.st)
  }

  /** Fills the slots of `inheritEnv` from slot `i` on. */
  function FillFroms(froms: seq<Expr>, i: nat, inheritEnv: nat, up: nat, st: State): State
    decreases |froms| - i
  {
    if i >= |froms| then st
    else
      var a := MaybeThunk(froms[i], up, st);
      FillFroms(froms, i + 1, inheritEnv, up, SetSlot(inheritEnv, i, a.id, a.st))
  }

  /** The environment of the `inherit (e)` sources, which is made only if there are any. */
  function BuildInheritEnv(froms: seq<Expr>, up: nat, st: State): Alloc {
    if froms == [] then Alloc(up, st)
    else
      var a := NewEnv(|froms|, up, st);
      Alloc(a.id, FillFroms(froms, 0, a.id, up, a.st))
  }

  /** Delays the attributes from `i` on, each in the environment of its kind. When the set is
    recursive each cell also goes into its slot of `self`, so later attributes can share it. */
  function FillAttrs(attrs: seq<AttrDef>, i: nat, rec: bool, self: nat, outer: nat, inherit: nat, st: State)
    : Bindings
    decreases |attrs| - i
  {
    if i >= |attrs| then Bindings([], st)
    else
      var a := MaybeThunk(attrs[i].e, ChooseByKind(attrs[i].kind, self, outer, inherit), st);
      var st1 := if rec then SetSlot(self, i, a.id, a.st) else a.st;
      var rest := FillAttrs(attrs, i + 1, rec, self, outer, inherit, st1);
      Bindings([VAttr(attrs[i].name, a.id)] + rest.attrs, rest.st)
  }

  lemma FillAttrsStep(attrs: seq<AttrDef>, i: nat, rec: bool, self: nat, outer: nat, inherit: nat, st: State)
    requires i < |attrs|
    ensures var a := MaybeThunk(attrs[i].e, ChooseByKind(attrs[i].kind, self, outer, inherit), st);
            var st1 := if rec then SetSlot(self, i, a.id, a.st) else a.st;
            var rest := FillAttrs(attrs, i + 1, rec, self, outer, inherit, st1);
            FillAttrs(attrs, i, rec, self, outer, inherit, st)
            == Bindings([VAttr(attrs[i].name, a.id)] + rest.attrs, rest.st)
  {
  }

  lemma FillAttrsEnd(attrs: seq<AttrDef>, rec: bool, self: nat, outer: nat, inherit: nat, st: State)
    ensures FillAttrs(attrs, |attrs|, rec, self, outer, inherit, st) == Bindings([], st)
  {
  }

  /** The frame of a `rec` set or a `let`, completely filled. */
  function BuildRec(attrs: seq<AttrDef>, froms: seq<Expr>, env: nat, st: State): Bindings {
    var a := NewEnv(|attrs|, env, st);
    var inh := BuildInheritEnv(froms, a.id, a.st);
    FillAttrs(attrs, 0, true, a.id, env, inh.id, inh.st)
  }

  /** Fills the slots of the formals from `i` on and counts the attributes used. */
  function FillFormals(formals: seq<Formal>, i: nat, first: nat, attrs: seq<VAttr>, env: nat, st: State): Run<nat>
    decreases |formals| - i
  {
    if i >= |formals| then Run(Ok(0), st)
    else match GetAttr(attrs, formals[i].name)
         case Some(c) =>
           var r := FillFormals(formals, i + 1, first, attrs, env, SetSlot(env, first + i, c, st));
           if r.out.Ok? then Run(Ok(r.out.value + 1), r.st) else r
         case None =>
           if formals[i].def.None? then Run(Err(MissingArgument(formals[i].name)), st)
           else
             var a := MaybeThunk(formals[i].def.value, env, st);
             FillFormals(formals, i + 1, first, attrs, env, SetSlot(env, first + i, a.id, a.st))
  }

  function FirstUnexpectedArg(formals: seq<Formal>, attrs: seq<VAttr>): Option<Symbol> {
    if attrs == [] then None
    else if FindFormal(formals, attrs[0].name).None? then Some(attrs[0].name)
    else FirstUnexpectedArg(formals, attrs[1..])
  }

  // ---- evaluation ----

  function Eval(e: Expr, env: nat, st: State, fuel: nat): Run<Value>
    decreases fuel, 0
  {
    if fuel == 0 then Run(Err(OutOfFuel), st)
    else match e
         case Lit(c) => Run(Ok(VConst(c)), st)
         case Var(name, ref) =>
           if ref.fromWith.NoWith? then
             match ReadSlot(st.envs, env, ref.level, ref.displ)
             case Some(Some(c)) => Force(c, st, fuel - 1)
             case _ => Run(Err(Crash), st)
           else
             (match UpEnv(st.envs, env, ref.level)
              case None => Run(Err(Crash), st)
              case Some(e') =>
                var r := LookupWith(name, ref.fromWith, e', st, fuel - 1);
                match r.out
                case Err(x) => Run(Err(x), r.st)
                case Ok(c) => Force(c, r.st, fuel - 1))
         case InheritFrom(d) =>
           (match ReadSlot(st.envs, env, 0, d)
            case Some(Some(c)) => Force(c, st, fuel - 1)
            case _ => Run(Err(Crash), st))
         case Select(e1, path, def) =>
           var r := Eval(e1, env, st, fuel - 1);
           (match r.out
            case Err(x) => r
            case Ok(v) => SelectV(v, path, def, env, r.st, fuel - 1))
         case HasAttr(e1, path) =>
           var r := Eval(e1, env, st, fuel - 1);
           (match r.out
            case Err(x) => r
            case Ok(v) => HasAttrV(v, path, r.st, fuel - 1))
         case Attrs(rec, attrs, froms) =>
           if rec then
             var b := BuildRec(attrs, froms, env, st);
             Run(Ok(VAttrs(b.attrs)), b.st)
           else
             var inh := BuildInheritEnv(froms, env, st);
             var b := FillAttrs(attrs, 0, false, env, env, inh.id, inh.st);
             Run(Ok(VAttrs(b.attrs)), b.st)
         case List(elems) =>
           var cs := ThunkAll(elems, env, st);
           Run(Ok(VList(cs.ids)), cs.st)
         case Lambda(arg, formals, body) => Run(Ok(VLambda(arg, formals, body, env)), st)
         case Call(fun, args) =>
           var r := Eval(fun, env, st, fuel - 1);
           (match r.out
            case Err(x) => r
            case Ok(f) =>
              var cs := ThunkAll(args, env, r.st);
              CallFunction(f, cs.ids, cs.st, fuel - 1))
         case Let(attrs, froms, body) =>
           var b := BuildRec(attrs, froms, env, st);
           Eval(body, |st.envs|, b.st, fuel - 1)
         case With(source, body, _) =>
           var a := NewEnv(1, env, st);
           var t := MaybeThunk(source, env, a.st);
           Eval(body, a.id, SetSlot(a.id, 0, t.id, t.st), fuel - 1)
         case If(cond, thn, els) =>
           var r := Eval(cond, env, st, fuel - 1);
           match r.out
           case Err(x) => r
           case Ok(v) =>
             if v.VConst? && v.c.CBool? then Eval(if v.c.b then thn else els, env, r.st, fuel - 1)
             else Run(Err(NotABoolean), r.st)
  }

  /** Computes a cell: it is a black hole meanwhile, and gets its thunk back if computing fails. */
  function Force(c: nat, st: State, fuel: nat): Run<Value>
    decreases fuel, 1
  {
    if c >= |st.cells| then Run(Err(Crash), st)
    else match st.cells[c]
         case Val(v) => Run(Ok(v), st)
         case BlackHole => Run(Err(InfiniteRecursion), st)
         case Thunk(env, e) =>
           var r := Eval(e, env, SetCell(c, BlackHole, st), fuel);
           Run(r.out, SetCell(c, if r.out.Ok? then Val(r.out.value) else Thunk(env, e), r.st))
  }

  /** Searches the sets of the enclosing `with`s, hopping from one to the next by its link. */
  function LookupWith(name: Symbol, link: WithLink, env: nat, st: State, fuel: nat): Run<nat>
    decreases fuel, 2, link
  {
    match link
    case NoWith => Run(Err(Crash), st)
    case WithLink(prev, parent) =>
      match ReadSlot(st.envs, env, 0, 0)
      case Some(Some(c)) =>
        var r := Force(c, st, fuel);
        (match r.out
         case Err(x) => Run(Err(x), r.st)
         case Ok(v) =>
           if !v.VAttrs? then Run(Err(NotASet), r.st)
           else match GetAttr(v.attrs, name)
                case Some(c') => Run(Ok(c'), r.st)
                case None =>
                  if parent.NoWith? then Run(Err(UndefinedVariable(name)), r.st)
                  else match UpEnv(r.st.envs, env, prev)
                       case None => Run(Err(Crash), r.st)
                       case Some(env') => LookupWith(name, parent, env', r.st, fuel))
      case _ => Run(Err(Crash), st)
  }

  function SelectV(v: Value, path: seq<Symbol>, def: Option<Expr>, env: nat, st: State, fuel: nat): Run<Value>
    decreases fuel, 2, |path|
  {
    if path == [] then Run(Ok(v), st)
    else match if v.VAttrs? then GetAttr(v.attrs, path[0]) else None
         case None =>
           if def.Some? then Eval(def.value, env, st, fuel)
           else if v.VAttrs? then Run(Err(AttributeMissing(path[0])), st) else Run(Err(NotASet), st)
         case Some(c) =>
           var r := Force(c, st, fuel);
           match r.out
           case Err(x) => r
           case Ok(v') => SelectV(v', path[1..], def, env, r.st, fuel)
  }

  function HasAttrV(v: Value, path: seq<Symbol>, st: State, fuel: nat): Run<Value>
    decreases fuel, 2, |path|
  {
    if path == [] then Run(Ok(VConst(CBool(true))), st)
    else match if v.VAttrs? then GetAttr(v.attrs, path[0]) else None
         case None => Run(Ok(VConst(CBool(false))), st)
         case Some(c) =>
           if |path| == 1 then Run(Ok(VConst(CBool(true))), st)
           else
             var r := Force(c, st, fuel);
             match r.out
             case Err(x) => r
             case Ok(v') => HasAttrV(v', path[1..], r.st, fuel)
  }

  function Enter(st: State): State { st.(callDepth := st.callDepth + 1) }

  function Leave<T>(r: Run<T>): Run<T> { Run(r.out, r.st.(callDepth := r.st.callDepth - 1)) }

  function CallFunction(f: Value, args: seq<nat>, st: State, fuel: nat): Run<Value>
    decreases fuel, 4, 0
  {
    if st.callDepth > st.maxCallDepth then Run(Err(StackOverflow), st)
    else Leave(CallLoop(f, args, Enter(st), fuel))
  }

  function CallCell(c: nat, args: seq<nat>, st: State, fuel: nat): Run<Value>
    decreases fuel, 4, 0
  {
    if st.callDepth > st.maxCallDepth then Run(Err(StackOverflow), st)
    else
      var r := Force(c, Enter(st), fuel);
      match r.out
      case Err(x) => Leave(r)
      case Ok(f) => Leave(CallLoop(f, args, r.st, fuel))
  }

  function CallLoop(f: Value, args: seq<nat>, st: State, fuel: nat): Run<Value>
    decreases fuel, 3, |args|
  {
    if args == [] then Run(Ok(f), st)
    else
      var r := CallOne(f, args[0], st, fuel);
      match r.out
      case Err(x) => r
      case Ok(g) => CallLoop(g, args[1..], r.st, fuel)
  }

  function CallOne(f: Value, arg: nat, st: State, fuel: nat): Run<Value>
    decreases fuel, 2, 0
  {
    match f
    case VLambda(name, formals, body, env) =>
      if formals.None? then
        var a := NewEnv(if name.Some? then 1 else 0, env, st);
        Eval(body, a.id, SetSlot(a.id, 0, arg, a.st), fuel)
      else
        var r := Force(arg, st, fuel);
        (match r.out
         case Err(x) => r
         case Ok(v) =>
           if !v.VAttrs? then Run(Err(NotASet), r.st)
           else CallFormals(name, formals.value, body, env, arg, v.attrs, r.st, fuel))
    case VAttrs(attrs) =>
      (match GetAttr(attrs, FUNCTOR)
       case None => Run(Err(NotAFunction), st)
       case Some(c) =>
         if fuel == 0 then Run(Err(OutOfFuel), st)
         else
           var self := NewCell(Val(f), st);
           CallCell(c, [self.id, arg], self.st, fuel - 1))
    case _ => Run(Err(NotAFunction), st)
  }

  function CallFormals(name: Option<Symbol>, formals: Formals, body: Expr, env: nat, arg: nat,
                       attrs: seq<VAttr>, st: State, fuel: nat): Run<Value>
    decreases fuel, 1
  {
    var first := if name.Some? then 1 else 0;
    var a := NewEnv(first + |formals.formals|, env, st);
    var st1 := if name.Some? then SetSlot(a.id, 0, arg, a.st) else a.st;
    var r := FillFormals(formals.formals, 0, first, attrs, a.id, st1);
    match r.out
    case Err(x) => Run(Err(x), r.st)
    case Ok(used) =>
      if !formals.ellipsis && used != |attrs| then
        match FirstUnexpectedArg(formals.formals, attrs)
        case Some(x) => Run(Err(UnexpectedArgument(x)), r.st)
        case None => Run(Err(Crash), r.st)
      else Eval(body, a.id, r.st, fuel)
  }
}
