/** The evaluator as it is written: an object that updates its cells, environments and call depth in
  place, with loops over levels, attributes, paths and arguments. Every method computes the machine's
  result and leaves the heap in the machine's final state. */
module Evaluator {
  import opened Options
  import opened Syntax
  import opened Scoping
  import opened Reference
  import opened Machine

  class EvalState {
    var cells: seq<Cell>
    var envs: seq<Env>
    var callDepth: int
    const maxCallDepth: int

    function St(): State
      reads this
    {
      State(cells, envs, callDepth, maxCallDepth)
    }

    constructor (st: State)
      ensures St() == st
    {
      cells, envs, callDepth, maxCallDepth := st.cells, st.envs, st.callDepth, st.maxCallDepth;
    }

    // ---- heap access ----

    method AllocValue(cell: Cell) returns (id: nat)
      modifies this
      ensures Alloc(id, St()) == NewCell(cell, old(St()))
    {
      id := |cells|;
      cells := cells + [cell];
    }

    method AllocEnv(size: nat, up: nat) returns (id: nat)
      modifies this
      ensures Alloc(id, St()) == NewEnv(size, up, old(St()))
    {
      id := |envs|;
      envs := envs + [Env(Some(up), seq(size, _ => None))];
    }

    method StoreSlot(env: nat, displ: nat, c: nat)
      modifies this
      ensures St() == SetSlot(env, displ, c, old(St()))
    {
      if env < |envs| && displ < |envs[env].values| {
        envs := envs[env := envs[env].(values := envs[env].values[displ := Some(c)])];
      }
    }

    method StoreCell(c: nat, cell: Cell)
      modifies this
      ensures St() == SetCell(c, cell, old(St()))
    {
      if c < |cells| {
        cells := cells[c := cell];
      }
    }

    /** Walks up the environments one level at a time. */
    method WalkUp(env: nat, level: nat) returns (r: Option<nat>)
      ensures r == UpEnv(envs, env, level)
    {
      var cur: nat, l: nat := env, level;
      while l > 0
        invariant UpEnv(envs, env, level) == UpEnv(envs, cur, l)
        decreases l
      {
        if cur >= |envs| || envs[cur].up.None? {
          return None;
        }
        cur, l := envs[cur].up.value, l - 1;
      }
      return if cur < |envs| then Some(cur) else None;
    }

    method Slot(env: nat, level: nat, displ: nat) returns (r: Option<Option<nat>>)
      ensures r == ReadSlot(envs, env, level, displ)
    {
      var e := WalkUp(env, level);
      if e.None? || displ >= |envs[e.value].values| {
        return None;
      }
      return Some(envs[e.value].values[displ]);
    }

    // ---- delaying expressions, building frames ----

    method DelayVar(e: Expr, env: nat, level: nat, displ: nat) returns (id: nat)
      modifies this
      ensures Alloc(id, St()) == VarThunk(e, env, level, displ, old(St()))
    {
      var s := Slot(env, level, displ);
      if s.Some? && s.value.Some? {
        return s.value.value;
      }
      id := AllocValue(Thunk(env, e));
    }

    method Delay(e: Expr, env: nat) returns (id: nat)
      modifies this
      ensures Alloc(id, St()) == MaybeThunk(e, env, old(St()))
    {
      match e
      case Var(_, ref) =>
        if ref.fromWith.NoWith? {
          id := DelayVar(e, env, ref.level, ref.displ);
        } else {
          id := AllocValue(Thunk(env, e));
        }
      case InheritFrom(d) => id := DelayVar(e, env, 0, d);
      case Lit(c) => id := AllocValue(Val(VConst(c)));
      case List(elems) => id := AllocValue(if elems == [] then Val(VList([])) else Thunk(env, e));
      case _ => id := AllocValue(Thunk(env, e));
    }

    method DelayAll(es: seq<Expr>, env: nat) returns (ids: seq<nat>)
      modifies this
      ensures Cells(ids, St()) == ThunkAll(es, env, old(St()))
    {
      ids := [];
      var i := 0;
      while i < |es|
        invariant i <= |es|
        invariant var rest := ThunkAll(es[i..], env, St());
                  ThunkAll(es, env, old(St())) == Cells(ids + rest.ids, rest.st)
      {
        assert es[i..][0] == es[i] && es[i..][1..] == es[i + 1..];
        ghost var before := ThunkAll(es[i..], env, St());
        ghost var sofar := ids;
        var id := Delay(es[i], env);
        ids := ids + [id];
        i := i + 1;
        ghost var rest := ThunkAll(es[i..], env, St());
        assert before == Cells([id] + rest.ids, rest.st);
        assert sofar + ([id] + rest.ids) == ids + rest.ids;
      }
      assert ids + [] == ids;
    }

    /** `buildInheritFromEnv`. */
    method MakeInheritEnv(froms: seq<Expr>, up: nat) returns (id: nat)
      modifies this
      ensures Alloc(id, St()) == BuildInheritEnv(froms, up, old(St()))
    {
      if froms == [] {
        return up;
      }
      id := AllocEnv(|froms|, up);
      var i := 0;
      while i < |froms|
        invariant i <= |froms|
        invariant FillFroms(froms, 0, id, up, NewEnv(|froms|, up, old(St())).st) == FillFroms(froms, i, id, up, St())
      {
        var c := Delay(froms[i], up);
        StoreSlot(id, i, c);
        i := i + 1;
      }
    }

    /** The loop over the attributes of a set or a `let`. */
    method FillSet(attrs: seq<AttrDef>, rec: bool, self: nat, outer: nat, inherit: nat) returns (bs: seq<VAttr>)
      modifies this
      ensures Bindings(bs, St()) == FillAttrs(attrs, 0, rec, self, outer, inherit, old(St()))
    {
      bs := [];
      var i := 0;
      hide FillAttrs, MaybeThunk;
      while i < |attrs|
        invariant i <= |attrs|
        invariant var rest := FillAttrs(attrs, i, rec, self, outer, inherit, St());
                  FillAttrs(attrs, 0, rec, self, outer, inherit, old(St())) == Bindings(bs + rest.attrs, rest.st)
      {
        FillAttrsStep(attrs, i, rec, self, outer, inherit, St());
        ghost var sofar := bs;
        var id := Delay(attrs[i].e, ChooseByKind(attrs[i].kind, self, outer, inherit));
        if rec {
          StoreSlot(self, i, id);
        }
        bs := bs + [VAttr(attrs[i].name, id)];
        i := i + 1;
        ghost var rest := FillAttrs(attrs, i, rec, self, outer, inherit, St());
        assert sofar + ([VAttr(attrs[i - 1].name, id)] + rest.attrs) == bs + rest.attrs;
      }
      FillAttrsEnd(attrs, rec, self, outer, inherit, St());
      assert bs + [] == bs;
    }

    method MakeRec(attrs: seq<AttrDef>, froms: seq<Expr>, env: nat) returns (self: nat, bs: seq<VAttr>)
      modifies this
      ensures self == |old(envs)| && Bindings(bs, St()) == BuildRec(attrs, froms, env, old(St()))
    {
      self := AllocEnv(|attrs|, env);
      var inh := MakeInheritEnv(froms, self);
      bs := FillSet(attrs, true, self, env, inh);
    }

    /** The loop over the formals of a called lambda, counting the attributes used. */
    method FillArgs(formals: seq<Formal>, first: nat, attrs: seq<VAttr>, env: nat) returns (out: Outcome<nat>)
      modifies this
      ensures Run(out, St()) == FillFormals(formals, 0, first, attrs, env, old(St()))
    {
      var used, i := 0, 0;
      while i < |formals|
        invariant i <= |formals|
        invariant var rest := FillFormals(formals, i, first, attrs, env, St());
                  FillFormals(formals, 0, first, attrs, env, old(St()))
                  == if rest.out.Ok? then Run(Ok(used + rest.out.value), rest.st) else rest
      {
        match GetAttr(attrs, formals[i].name) {
          case Some(c) =>
            StoreSlot(env, first + i, c);
            used := used + 1;
          case None =>
            if formals[i].def.None? {
              return Err(MissingArgument(formals[i].name));
            }
            var id := Delay(formals[i].def.value, env);
            StoreSlot(env, first + i, id);
        }
        i := i + 1;
      }
      return Ok(used);
    }

    // ---- evaluation ----

    /** Marks the cell, evaluates, and stores the value or puts the thunk back. */
    method ForceValue(c: nat, fuel: nat) returns (out: Outcome<Value>)
      modifies this
      ensures Run(out, St()) == Force(c, old(St()), fuel)
      decreases fuel, 1, 0
    {
      if c >= |cells| {
        return Err(Crash);
      }
      match cells[c]
      case Val(v) => return Ok(v);
      case BlackHole => return Err(InfiniteRecursion);
      case Thunk(env, e) =>
        StoreCell(c, BlackHole);
        out := Eval(e, env, fuel);
        StoreCell(c, if out.Ok? then Val(out.value) else Thunk(env, e));
    }

    /** `lookupVar` for a variable that comes from a `with`: one set after the other. */
    method SearchWiths(name: Symbol, fromWith: WithLink, env: nat, fuel: nat) returns (out: Outcome<nat>)
      modifies this
      ensures Run(out, St()) == LookupWith(name, fromWith, env, old(St()), fuel)
      decreases fuel, 2, 0
    {
      var link, cur := fromWith, env;
      while link.WithLink?
        invariant LookupWith(name, fromWith, env, old(St()), fuel) == LookupWith(name, link, cur, St(), fuel)
        decreases link
      {
        var s := Slot(cur, 0, 0);
        if s.None? || s.value.None? {
          return Err(Crash);
        }
        var r := ForceValue(s.value.value, fuel);
        if r.Err? {
          return Err(r.error);
        }
        if !r.value.VAttrs? {
          return Err(NotASet);
        }
        match GetAttr(r.value.attrs, name)
        case Some(c) => return Ok(c);
        case None =>
          if link.parentWith.NoWith? {
            return Err(UndefinedVariable(name));
          }
          var up := WalkUp(cur, link.prevWith);
          if up.None? {
            return Err(Crash);
          }
          link, cur := link.parentWith, up.value;
      }
      return Err(Crash);
    }

    method EvalVar(name: Symbol, ref: VarRef, env: nat, fuel: nat) returns (out: Outcome<Value>)
      requires fuel > 0
      modifies this
      ensures Run(out, St()) == Machine.Eval(Var(name, ref), env, old(St()), fuel)
      decreases fuel - 1, 3, 0
    {
      if ref.fromWith.NoWith? {
        var s := Slot(env, ref.level, ref.displ);
        if s.None? || s.value.None? {
          return Err(Crash);
        }
        out := ForceValue(s.value.value, fuel - 1);
      } else {
        var e' := WalkUp(env, ref.level);
        if e'.None? {
          return Err(Crash);
        }
        var c := SearchWiths(name, ref.fromWith, e'.value, fuel - 1);
        if c.Err? {
          return Err(c.error);
        }
        out := ForceValue(c.value, fuel - 1);
      }
    }

    /** The loop of `ExprSelect::eval` over the attribute path. */
    method SelectPath(v: Value, path: seq<Symbol>, def: Option<Expr>, env: nat, fuel: nat) returns (out: Outcome<Value>)
      modifies this
      ensures Run(out, St()) == SelectV(v, path, def, env, old(St()), fuel)
      decreases fuel, 2, 0
    {
      var cur, i := v, 0;
      while i < |path|
        invariant i <= |path|
        invariant SelectV(v, path, def, env, old(St()), fuel) == SelectV(cur, path[i..], def, env, St(), fuel)
      {
        assert path[i..][0] == path[i] && path[i..][1..] == path[i + 1..];
        match if cur.VAttrs? then GetAttr(cur.attrs, path[i]) else None
        case None =>
          if def.Some? {
            out := Eval(def.value, env, fuel);
            return;
          }
          return if cur.VAttrs? then Err(AttributeMissing(path[i])) else Err(NotASet);
        case Some(c) =>
          var r := ForceValue(c, fuel);
          if r.Err? {
            return r;
          }
          cur, i := r.value, i + 1;
      }
      return Ok(cur);
    }

    /** The loop of `ExprOpHasAttr::eval`; the last attribute is not forced. */
    method HasPath(v: Value, path: seq<Symbol>, fuel: nat) returns (out: Outcome<Value>)
      modifies this
      ensures Run(out, St()) == HasAttrV(v, path, old(St()), fuel)
      decreases fuel, 2, 0
    {
      var cur, i := v, 0;
      while i < |path|
        invariant i <= |path|
        invariant HasAttrV(v, path, old(St()), fuel) == HasAttrV(cur, path[i..], St(), fuel)
      {
        assert path[i..][0] == path[i] && path[i..][1..] == path[i + 1..];
        match if cur.VAttrs? then GetAttr(cur.attrs, path[i]) else None
        case None => return Ok(VConst(CBool(false)));
        case Some(c) =>
          if i + 1 == |path| {
            return Ok(VConst(CBool(true)));
          }
          var r := ForceValue(c, fuel);
          if r.Err? {
            return r;
          }
          cur, i := r.value, i + 1;
      }
      return Ok(VConst(CBool(true)));
    }

    method Eval(e: Expr, env: nat, fuel: nat) returns (out: Outcome<Value>)
      modifies this
      ensures Run(out, St()) == Machine.Eval(e, env, old(St()), fuel)
      decreases fuel, 0, 0
    {
      if fuel == 0 {
        return Err(OutOfFuel);
      }
      match e
      case Lit(c) => return Ok(VConst(c));
      case Lambda(arg, formals, body) => return Ok(VLambda(arg, formals, body, env));
      case Var(name, ref) => out := EvalVar(name, ref, env, fuel);
      case InheritFrom(d) =>
        var s := Slot(env, 0, d);
        if s.None? || s.value.None? {
          return Err(Crash);
        }
        out := ForceValue(s.value.value, fuel - 1);
      case Select(e1, path, def) =>
        out := Eval(e1, env, fuel - 1);
        if out.Ok? {
          out := SelectPath(out.value, path, def, env, fuel - 1);
        }
      case HasAttr(e1, path) =>
        out := Eval(e1, env, fuel - 1);
        if out.Ok? {
          out := HasPath(out.value, path, fuel - 1);
        }
      case Attrs(rec, attrs, froms) =>
        if rec {
          var _, bs := MakeRec(attrs, froms, env);
          return Ok(VAttrs(bs));
        }
        var inh := MakeInheritEnv(froms, env);
        var bs := FillSet(attrs, false, env, env, inh);
        return Ok(VAttrs(bs));
      case List(elems) =>
        var ids := DelayAll(elems, env);
        return Ok(VList(ids));
      case Call(fun, args) =>
        out := Eval(fun, env, fuel - 1);
        if out.Ok? {
          var ids := DelayAll(args, env);
          out := CallFunction(out.value, ids, fuel - 1);
        }
      case Let(attrs, froms, body) =>
        var self, _ := MakeRec(attrs, froms, env);
        out := Eval(body, self, fuel - 1);
      case With(source, body, _) =>
        var env2 := AllocEnv(1, env);
        var c := Delay(source, env);
        StoreSlot(env2, 0, c);
        out := Eval(body, env2, fuel - 1);
      case If(cond, thn, els) =>
        out := Eval(cond, env, fuel - 1);
        if out.Ok? {
          if out.value.VConst? && out.value.c.CBool? {
            out := Eval(if out.value.c.b then thn else els, env, fuel - 1);
          } else {
            return Err(NotABoolean);
          }
        }
    }

    // ---- calls ----

    /** The call depth is raised for the duration of the call, however it ends. */
    method CallFunction(f: Value, args: seq<nat>, fuel: nat) returns (out: Outcome<Value>)
      modifies this
      ensures Run(out, St()) == Machine.CallFunction(f, args, old(St()), fuel)
      decreases fuel, 4, 0
    {
      if callDepth > maxCallDepth {
        return Err(StackOverflow);
      }
      callDepth := callDepth + 1;
      out := ApplyArgs(f, args, fuel);
      callDepth := callDepth - 1;
    }

    method CallFunctor(c: nat, args: seq<nat>, fuel: nat) returns (out: Outcome<Value>)
      modifies this
      ensures Run(out, St()) == CallCell(c, args, old(St()), fuel)
      decreases fuel, 4, 0
    {
      if callDepth > maxCallDepth {
        return Err(StackOverflow);
      }
      callDepth := callDepth + 1;
      out := ForceValue(c, fuel);
      if out.Ok? {
        out := ApplyArgs(out.value, args, fuel);
      }
      callDepth := callDepth - 1;
    }

    /** The loop of `callFunction`: the current value is applied to one argument after the other. */
    method ApplyArgs(f: Value, args: seq<nat>, fuel: nat) returns (out: Outcome<Value>)
      modifies this
      ensures Run(out, St()) == CallLoop(f, args, old(St()), fuel)
      decreases fuel, 3, 0
    {
      var cur, i := f, 0;
      while i < |args|
        invariant i <= |args|
        invariant CallLoop(f, args, old(St()), fuel) == CallLoop(cur, args[i..], St(), fuel)
      {
        assert args[i..][0] == args[i] && args[i..][1..] == args[i + 1..];
        var r := ApplyOne(cur, args[i], fuel);
        if r.Err? {
          return r;
        }
        cur, i := r.value, i + 1;
      }
      return Ok(cur);
    }

    method ApplyOne(f: Value, arg: nat, fuel: nat) returns (out: Outcome<Value>)
      modifies this
      ensures Run(out, St()) == CallOne(f, arg, old(St()), fuel)
      decreases fuel, 2, 0
    {
      match f
      case VLambda(name, formals, body, env) =>
        if formals.None? {
          var env2 := AllocEnv(if name.Some? then 1 else 0, env);
          StoreSlot(env2, 0, arg);
          out := Eval(body, env2, fuel);
        } else {
          out := ForceValue(arg, fuel);
          if out.Ok? {
            if !out.value.VAttrs? {
              return Err(NotASet);
            }
            out := ApplyFormals(name, formals.value, body, env, arg, out.value.attrs, fuel);
          }
        }
      case VAttrs(attrs) =>
        match GetAttr(attrs, FUNCTOR) {
          case None => return Err(NotAFunction);
          case Some(c) =>
            if fuel == 0 {
              return Err(OutOfFuel);
            }
            var self := AllocValue(Val(f));
            out := CallFunctor(c, [self, arg], fuel - 1);
        }
      case _ => return Err(NotAFunction);
    }

    method ApplyFormals(name: Option<Symbol>, formals: Formals, body: Expr, env: nat, arg: nat, attrs: seq<VAttr>,
                        fuel: nat)
      returns (out: Outcome<Value>)
      modifies this
      ensures Run(out, St()) == CallFormals(name, formals, body, env, arg, attrs, old(St()), fuel)
      decreases fuel, 1, 0
    {
      var first := if name.Some? then 1 else 0;
      var env2 := AllocEnv(first + |formals.formals|, env);
      if name.Some? {
        StoreSlot(env2, 0, arg);
      }
      var used := FillArgs(formals.formals, first, attrs, env2);
      if used.Err? {
        return Err(used.error);
      }
      if !formals.ellipsis && used.value != |attrs| {
        match FirstUnexpectedArg(formals.formals, attrs)
        case Some(x) => return Err(UnexpectedArgument(x));
        case None => return Err(Crash);
      }
      out := Eval(body, env2, fuel);
    }
  }
}
