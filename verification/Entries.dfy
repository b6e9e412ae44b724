/** The moments at which a run turns to a cell or enters a call.

  An entry is one use of `Force`, with the heap at that moment, or the beginning of one call, somewhere
  inside an evaluation. Each carries the cells whose computation has begun and not ended and the number of
  calls that have begun and not ended, both counted here. The functions follow the evaluator and collect
  its entries. */
module Entries {
  import opened Options
  import opened Syntax
  import opened Scoping
  import opened Reference
  import opened Machine
  import opened Runs

  /** The cells being computed, the number of calls being made, and how many may be. */
  datatype Context = Context(active: set<nat>, open: nat, limit: int)

  datatype Entry = Forced(c: nat, st: State, at: Context) | Called(at: Context)

  /** One more cell is being computed, one more call is being made. */
  function Computing(at: Context, c: nat): Context {
    at.(active := at.active + {c})
  }

  function Calling(at: Context): Context {
    at.(open := at.open + 1)
  }

  // ---- the entries of a run ----

  function EvalEntries(e: Expr, env: nat, st: State, fuel: nat, at: Context): set<Entry>
    decreases fuel, 0
  {
    if fuel == 0 then {}
    else match e
         case Var(name, ref) =>
           if ref.fromWith.NoWith? then SlotEntries(ReadSlot(st.envs, env, ref.level, ref.displ), st, fuel - 1, at)
           else
             (match UpEnv(st.envs, env, ref.level)
              case None => {}
              case Some(e') =>
                var r := LookupWith(name, ref.fromWith, e', st, fuel - 1);
                WithEntries(name, ref.fromWith, e', st, fuel - 1, at)
                + if r.out.Ok? then ForceEntries(r.out.value, r.st, fuel - 1, at) else {})
         case InheritFrom(d) => SlotEntries(ReadSlot(st.envs, env, 0, d), st, fuel - 1, at)
         case Select(e1, path, def) =>
           var r := Eval(e1, env, st, fuel - 1);
           EvalEntries(e1, env, st, fuel - 1, at)
           + (if r.out.Ok? then SelectEntries(r.out.value, path, def, env, r.st, fuel - 1, at) else {})
         case HasAttr(e1, path) =>
           var r := Eval(e1, env, st, fuel - 1);
           EvalEntries(e1, env, st, fuel - 1, at)
           + (if r.out.Ok? then HasAttrEntries(r.out.value, path, r.st, fuel - 1, at) else {})
         case Call(fun, args) =>
           var r := Eval(fun, env, st, fuel - 1);
           var cs := ThunkAll(args, env, r.st);
           EvalEntries(fun, env, st, fuel - 1, at)
           + (if r.out.Ok? then CallEntries(r.out.value, cs.ids, cs.st, fuel - 1, at) else {})
         case Let(attrs, froms, body) =>
           EvalEntries(body, |st.envs|, BuildRec(attrs, froms, env, st).st, fuel - 1, at)
         case With(source, body, _) =>
           var a := NewEnv(1, env, st);
           var t := MaybeThunk(source, env, a.st);
           EvalEntries(body, a.id, SetSlot(a.id, 0, t.id, t.st), fuel - 1, at)
         case If(cond, thn, els) =>
           var r := Eval(cond, env, st, fuel - 1);
           EvalEntries(cond, env, st, fuel - 1, at)
           + (if r.out.Ok? && r.out.value.VConst? && r.out.value.c.CBool?
              then EvalEntries(if r.out.value.c.b then thn else els, env, r.st, fuel - 1, at) else {})
         case _ => {}
  }

  function SlotEntries(slot: Option<Option<nat>>, st: State, fuel: nat, at: Context): set<Entry>
    decreases fuel, 2
  {
    if slot.Some? && slot.value.Some? then ForceEntries(slot.value.value, st, fuel, at) else {}
  }

  /** Turning to a cell, and all that happens while it is being computed. */
  function ForceEntries(c: nat, st: State, fuel: nat, at: Context): set<Entry>
    decreases fuel, 1
  {
    {Forced(c, st, at)} + Inside(c, st, fuel, at)
  }

  function Inside(c: nat, st: State, fuel: nat, at: Context): set<Entry>
    decreases fuel, 1, 0
  {
    if c < |st.cells| && st.cells[c].Thunk?
    then EvalEntries(st.cells[c].e, st.cells[c].env, SetCell(c, BlackHole, st), fuel, Computing(at, c))
    else {}
  }

  function WithEntries(name: Symbol, link: WithLink, env: nat, st: State, fuel: nat, at: Context): set<Entry>
    decreases fuel, 2, link
  {
    match link
    case NoWith => {}
    case WithLink(prev, parent) =>
      match ReadSlot(st.envs, env, 0, 0)
      case Some(Some(c)) =>
        var r := Force(c, st, fuel);
        ForceEntries(c, st, fuel, at)
        + (if r.out.Ok? && r.out.value.VAttrs? && GetAttr(r.out.value.attrs, name).None? && !parent.NoWith?
              && UpEnv(r.st.envs, env, prev).Some?
           then WithEntries(name, parent, UpEnv(r.st.envs, env, prev).value, r.st, fuel, at) else {})
      case _ => {}
  }

  function SelectEntries(v: Value, path: seq<Symbol>, def: Option<Expr>, env: nat, st: State, fuel: nat,
                         at: Context): set<Entry>
    decreases fuel, 2, |path|
  {
    if path == [] then {}
    else match if v.VAttrs? then GetAttr(v.attrs, path[0]) else None
         case None => if def.Some? then EvalEntries(def.value, env, st, fuel, at) else {}
         case Some(c) =>
           var r := Force(c, st, fuel);
           ForceEntries(c, st, fuel, at)
           + if r.out.Ok? then SelectEntries(r.out.value, path[1..], def, env, r.st, fuel, at) else {}
  }

  function HasAttrEntries(v: Value, path: seq<Symbol>, st: State, fuel: nat, at: Context): set<Entry>
    decreases fuel, 2, |path|
  {
    if path == [] then {}
    else match if v.VAttrs? then GetAttr(v.attrs, path[0]) else None
         case None => {}
         case Some(c) =>
           if |path| == 1 then {}
           else
             var r := Force(c, st, fuel);
             ForceEntries(c, st, fuel, at)
             + if r.out.Ok? then HasAttrEntries(r.out.value, path[1..], r.st, fuel, at) else {}
  }

  function CallEntries(f: Value, args: seq<nat>, st: State, fuel: nat, at: Context): set<Entry>
    decreases fuel, 4, 0
  {
    {Called(at)} + if at.open > at.limit then {} else LoopEntries(f, args, Enter(st), fuel, Calling(at))
  }

  function CallCellEntries(c: nat, args: seq<nat>, st: State, fuel: nat, at: Context): set<Entry>
    decreases fuel, 4, 0
  {
    {Called(at)}
    + if at.open > at.limit then {}
      else
        var r := Force(c, Enter(st), fuel);
        ForceEntries(c, Enter(st), fuel, Calling(at))
        + if r.out.Ok? then LoopEntries(r.out.value, args, r.st, fuel, Calling(at)) else {}
  }

  function LoopEntries(f: Value, args: seq<nat>, st: State, fuel: nat, at: Context): set<Entry>
    decreases fuel, 3, |args|
  {
    if args == [] then {}
    else
      var r := CallOne(f, args[0], st, fuel);
      OneEntries(f, args[0], st, fuel, at)
      + if r.out.Ok? then LoopEntries(r.out.value, args[1..], r.st, fuel, at) else {}
  }

  function OneEntries(f: Value, arg: nat, st: State, fuel: nat, at: Context): set<Entry>
    decreases fuel, 2, 0
  {
    match f
    case VLambda(name, formals, body, env) =>
      if formals.None? then
        var a := NewEnv(if name.Some? then 1 else 0, env, st);
        EvalEntries(body, a.id, SetSlot(a.id, 0, arg, a.st), fuel, at)
      else
        var r := Force(arg, st, fuel);
        ForceEntries(arg, st, fuel, at)
        + (if r.out.Ok? && r.out.value.VAttrs?
           then FormalsEntries(name, formals.value, body, env, arg, r.out.value.attrs, r.st, fuel, at) else {})
    case VAttrs(attrs) =>
      (match GetAttr(attrs, FUNCTOR)
       case None => {}
       case Some(c) =>
         if fuel == 0 then {}
         else
           var self := NewCell(Val(f), st);
           CallCellEntries(c, [self.id, arg], self.st, fuel - 1, at))
    case _ => {}
  }

  function FormalsEntries(name: Option<Symbol>, formals: Formals, body: Expr, env: nat, arg: nat,
                          attrs: seq<VAttr>, st: State, fuel: nat, at: Context): set<Entry>
    decreases fuel, 1
  {
    var first := if name.Some? then 1 else 0;
    var a := NewEnv(first + |formals.formals|, env, st);
    var st1 := if name.Some? then SetSlot(a.id, 0, arg, a.st) else a.st;
    var r := FillFormals(formals.formals, 0, first, attrs, a.id, st1);
    if r.out.Ok? && (formals.ellipsis || r.out.value == |attrs|) then EvalEntries(body, a.id, r.st, fuel, at)
    else {}
  }

  // ---- the black cells at every entry are the active ones, the depth is that of the open calls ----

  ghost predicate At(st: State, at: Context) {
    BlackHoles(st) == at.active && st.callDepth == at.open && st.maxCallDepth == at.limit
  }

  ghost predicate Within(outer: Context, at: Context) {
    outer.active <= at.active && outer.open <= at.open && at.limit == outer.limit
  }

  ghost predicate Accurate(es: set<Entry>, at: Context) {
    forall x :: x in es ==> Within(at, x.at) && (x.Forced? ==> At(x.st, x.at))
  }

  /** An entry to a cell that is being computed. */
  predicate Reentry(x: Entry) {
    x.Forced? && x.c in x.at.active
  }

  /** A call that begins while more calls are open than may be. */
  predicate TooDeep(x: Entry) {
    x.Called? && x.at.open > x.at.limit
  }

  /** What is claimed of a run from a heap that is at `at`. */
  ghost predicate Traced<T>(es: set<Entry>, at: Context, out: Outcome<T>) {
    && Accurate(es, at)
    && (out == Err(InfiniteRecursion) <==> exists x :: x in es && Reentry(x))
    && (out == Err(StackOverflow) <==> exists x :: x in es && TooDeep(x))
  }

  lemma TracedNone<T>(at: Context, out: Outcome<T>)
    requires out != Err(InfiniteRecursion) && out != Err(StackOverflow)
    ensures Traced({}, at, out)
  {
  }

  lemma TracedFirst<T, U>(es: set<Entry>, at: Context, out: Outcome<T>, last: Outcome<U>)
    requires Traced(es, at, out) && (last == Err(InfiniteRecursion) <==> out == Err(InfiniteRecursion))
    requires last == Err(StackOverflow) <==> out == Err(StackOverflow)
    ensures Traced(es, at, last)
  {
  }

  lemma TracedBoth<T, U>(es: set<Entry>, fs: set<Entry>, at: Context, out: Outcome<T>, last: Outcome<U>)
    requires Traced(es, at, out) && out.Ok? && Traced(fs, at, last)
    ensures Traced(es + fs, at, last)
  {
    if last == Err(InfiniteRecursion) {
      var x :| x in fs && Reentry(x);
      assert x in es + fs;
    }
    if last == Err(StackOverflow) {
      var x :| x in fs && TooDeep(x);
      assert x in es + fs;
    }
  }

  /** One entry that is neither, before the others. */
  lemma TracedAfter<T>(x: Entry, es: set<Entry>, at: Context, inner: Context, out: Outcome<T>)
    requires Traced(es, inner, out) && Within(at, inner) && Within(at, x.at) && (x.Forced? ==> At(x.st, x.at))
    requires !Reentry(x) && !TooDeep(x)
    ensures Traced({x} + es, at, out)
  {
    if out == Err(InfiniteRecursion) {
      var y :| y in es && Reentry(y);
      assert y in {x} + es;
    }
    if out == Err(StackOverflow) {
      var y :| y in es && TooDeep(y);
      assert y in {x} + es;
    }
  }

  lemma BlackAfter(st: State, st': State, at: Context)
    requires Keeps(st, st') && At(st, at)
    ensures At(st', at)
  {
    BlackHolesKept(st, st');
  }

  lemma BlackAfterThunks(args: seq<Expr>, env: nat, st: State, at: Context)
    requires At(st, at)
    ensures At(ThunkAll(args, env, st).st, at)
  {
    ThunkAllKeeps(args, env, st);
    BlackAfter(st, ThunkAll(args, env, st).st, at);
  }

  lemma BlackAfterRec(attrs: seq<AttrDef>, froms: seq<Expr>, env: nat, st: State, at: Context)
    requires At(st, at)
    ensures At(BuildRec(attrs, froms, env, st).st, at)
  {
    BuildRecKeeps(attrs, froms, env, st);
    BlackAfter(st, BuildRec(attrs, froms, env, st).st, at);
  }

  lemma BlackAfterWith(source: Expr, env: nat, st: State, at: Context)
    requires At(st, at)
    ensures var a := NewEnv(1, env, st);
            var t := MaybeThunk(source, env, a.st);
            At(SetSlot(a.id, 0, t.id, t.st), at)
  {
    WithFrameKeeps(source, env, st);
    var a := NewEnv(1, env, st);
    var t := MaybeThunk(source, env, a.st);
    BlackAfter(st, SetSlot(a.id, 0, t.id, t.st), at);
  }

  lemma {:induction false} TraceEval(e: Expr, env: nat, st: State, fuel: nat, at: Context)
    requires At(st, at)
    ensures Traced(EvalEntries(e, env, st, fuel, at), at, Eval(e, env, st, fuel).out)
    decreases fuel, 0
  {
    hide Traced, At;
    if fuel == 0 {
      TracedNone(at, Eval(e, env, st, fuel).out);
    } else {
      match e
      case Var(name, ref) => TraceVar(name, ref, env, st, fuel, at);
      case InheritFrom(d) => TraceSlot(ReadSlot(st.envs, env, 0, d), st, fuel - 1, at);
      case Select(e1, path, def) => TraceSelectExpr(e1, path, def, env, st, fuel, at);
      case HasAttr(e1, path) => TraceHasAttrExpr(e1, path, env, st, fuel, at);
      case Call(fun, args) => TraceCallExpr(fun, args, env, st, fuel, at);
      case Let(attrs, froms, body) =>
        BlackAfterRec(attrs, froms, env, st, at);
        TraceEval(body, |st.envs|, BuildRec(attrs, froms, env, st).st, fuel - 1, at);
      case With(source, body, _) =>
        BlackAfterWith(source, env, st, at);
        var a := NewEnv(1, env, st);
        var t := MaybeThunk(source, env, a.st);
        TraceEval(body, a.id, SetSlot(a.id, 0, t.id, t.st), fuel - 1, at);
      case If(cond, thn, els) => TraceIf(cond, thn, els, env, st, fuel, at);
      case _ => TracedNone(at, Eval(e, env, st, fuel).out);
    }
  }

  /** Reading a slot and forcing what is in it. */
  function SlotOutcome(slot: Option<Option<nat>>, st: State, fuel: nat): Outcome<Value> {
    if slot.Some? && slot.value.Some? then Force(slot.value.value, st, fuel).out else Err(Crash)
  }

  lemma {:induction false} TraceSlot(slot: Option<Option<nat>>, st: State, fuel: nat, at: Context)
    requires At(st, at)
    ensures Traced(SlotEntries(slot, st, fuel, at), at, SlotOutcome(slot, st, fuel))
    decreases fuel, 2
  {
    hide Traced, At;
    if slot.Some? && slot.value.Some? {
      TraceForce(slot.value.value, st, fuel, at);
    } else {
      TracedNone(at, SlotOutcome(slot, st, fuel));
    }
  }

  lemma {:induction false} TraceVar(name: Symbol, ref: VarRef, env: nat, st: State, fuel: nat, at: Context)
    requires fuel > 0 && At(st, at)
    ensures var e := Var(name, ref);
            Traced(EvalEntries(e, env, st, fuel, at), at, Eval(e, env, st, fuel).out)
    decreases fuel - 1, 3
  {
    hide Traced, At;
    var e := Var(name, ref);
    if ref.fromWith.NoWith? {
      TraceSlot(ReadSlot(st.envs, env, ref.level, ref.displ), st, fuel - 1, at);
    } else if e' :| UpEnv(st.envs, env, ref.level) == Some(e') {
      TraceWith(name, ref.fromWith, e', st, fuel - 1, at);
      var r := LookupWith(name, ref.fromWith, e', st, fuel - 1);
      var es := WithEntries(name, ref.fromWith, e', st, fuel - 1, at);
      if r.out.Ok? {
        LookupWithKeeps(name, ref.fromWith, e', st, fuel - 1);
        BlackAfter(st, r.st, at);
        TraceForce(r.out.value, r.st, fuel - 1, at);
        TracedBoth(es, ForceEntries(r.out.value, r.st, fuel - 1, at), at, r.out, Eval(e, env, st, fuel).out);
      } else {
        TracedFirst(es, at, r.out, Eval(e, env, st, fuel).out);
        assert es + {} == es;
      }
    } else {
      TracedNone(at, Eval(e, env, st, fuel).out);
    }
  }

  lemma {:induction false} TraceSelectExpr(e1: Expr, path: seq<Symbol>, def: Option<Expr>, env: nat, st: State,
                                           fuel: nat, at: Context)
    requires fuel > 0 && At(st, at)
    ensures var e := Select(e1, path, def);
            Traced(EvalEntries(e, env, st, fuel, at), at, Eval(e, env, st, fuel).out)
    decreases fuel - 1, 5
  {
    hide Traced, At;
    var e := Select(e1, path, def);
    TraceEval(e1, env, st, fuel - 1, at);
    var r := Eval(e1, env, st, fuel - 1);
    var es := EvalEntries(e1, env, st, fuel - 1, at);
    if r.out.Ok? {
      EvalKeeps(e1, env, st, fuel - 1);
      BlackAfter(st, r.st, at);
      TraceSelect(r.out.value, path, def, env, r.st, fuel - 1, at);
      TracedBoth(es, SelectEntries(r.out.value, path, def, env, r.st, fuel - 1, at), at, r.out,
                 Eval(e, env, st, fuel).out);
    } else {
      assert es + {} == es;
    }
  }

  lemma {:induction false} TraceHasAttrExpr(e1: Expr, path: seq<Symbol>, env: nat, st: State, fuel: nat,
                                            at: Context)
    requires fuel > 0 && At(st, at)
    ensures var e := HasAttr(e1, path);
            Traced(EvalEntries(e, env, st, fuel, at), at, Eval(e, env, st, fuel).out)
    decreases fuel - 1, 5
  {
    hide Traced, At;
    var e := HasAttr(e1, path);
    TraceEval(e1, env, st, fuel - 1, at);
    var r := Eval(e1, env, st, fuel - 1);
    var es := EvalEntries(e1, env, st, fuel - 1, at);
    if r.out.Ok? {
      EvalKeeps(e1, env, st, fuel - 1);
      BlackAfter(st, r.st, at);
      TraceHasAttr(r.out.value, path, r.st, fuel - 1, at);
      TracedBoth(es, HasAttrEntries(r.out.value, path, r.st, fuel - 1, at), at, r.out,
                 Eval(e, env, st, fuel).out);
    } else {
      assert es + {} == es;
    }
  }

  lemma {:induction false} TraceCallExpr(fun: Expr, args: seq<Expr>, env: nat, st: State, fuel: nat, at: Context)
    requires fuel > 0 && At(st, at)
    ensures var e := Call(fun, args);
            Traced(EvalEntries(e, env, st, fuel, at), at, Eval(e, env, st, fuel).out)
    decreases fuel - 1, 5
  {
    hide Traced, At;
    var e := Call(fun, args);
    TraceEval(fun, env, st, fuel - 1, at);
    var r := Eval(fun, env, st, fuel - 1);
    var es := EvalEntries(fun, env, st, fuel - 1, at);
    if r.out.Ok? {
      EvalKeeps(fun, env, st, fuel - 1);
      BlackAfter(st, r.st, at);
      BlackAfterThunks(args, env, r.st, at);
      var cs := ThunkAll(args, env, r.st);
      TraceCall(r.out.value, cs.ids, cs.st, fuel - 1, at);
      TracedBoth(es, CallEntries(r.out.value, cs.ids, cs.st, fuel - 1, at), at, r.out,
                 Eval(e, env, st, fuel).out);
    } else {
      assert es + {} == es;
    }
  }

  lemma {:induction false} TraceIf(cond: Expr, thn: Expr, els: Expr, env: nat, st: State, fuel: nat, at: Context)
    requires fuel > 0 && At(st, at)
    ensures var e := If(cond, thn, els);
            Traced(EvalEntries(e, env, st, fuel, at), at, Eval(e, env, st, fuel).out)
    decreases fuel - 1, 5
  {
    hide Traced, At;
    var e := If(cond, thn, els);
    TraceEval(cond, env, st, fuel - 1, at);
    var r := Eval(cond, env, st, fuel - 1);
    var es := EvalEntries(cond, env, st, fuel - 1, at);
    if r.out.Ok? && r.out.value.VConst? && r.out.value.c.CBool? {
      EvalKeeps(cond, env, st, fuel - 1);
      BlackAfter(st, r.st, at);
      var branch := if r.out.value.c.b then thn else els;
      TraceEval(branch, env, r.st, fuel - 1, at);
      TracedBoth(es, EvalEntries(branch, env, r.st, fuel - 1, at), at, r.out, Eval(e, env, st, fuel).out);
    } else {
      TracedFirst(es, at, r.out, Eval(e, env, st, fuel).out);
      assert es + {} == es;
    }
  }

  lemma {:induction false} TraceForce(c: nat, st: State, fuel: nat, at: Context)
    requires At(st, at)
    ensures Traced(ForceEntries(c, st, fuel, at), at, Force(c, st, fuel).out)
    ensures Accurate(Inside(c, st, fuel, at), Computing(at, c))
    decreases fuel, 1
  {
    var here := Forced(c, st, at);
    if c < |st.cells| && st.cells[c].Thunk? {
      var st1 := SetCell(c, BlackHole, st);
      assert BlackHoles(st1) == at.active + {c};
      TraceEval(st.cells[c].e, st.cells[c].env, st1, fuel, Computing(at, c));
      TracedAfter(here, Inside(c, st, fuel, at), at, Computing(at, c), Force(c, st, fuel).out);
    } else {
      assert ForceEntries(c, st, fuel, at) == {here};
      assert here in {here};
    }
  }

  lemma {:induction false} TraceWith(name: Symbol, link: WithLink, env: nat, st: State, fuel: nat, at: Context)
    requires At(st, at)
    ensures Traced(WithEntries(name, link, env, st, fuel, at), at, LookupWith(name, link, env, st, fuel).out)
    decreases fuel, 2, link
  {
    hide Traced, At;
    var last := LookupWith(name, link, env, st, fuel).out;
    if link.WithLink? && ReadSlot(st.envs, env, 0, 0).Some? && ReadSlot(st.envs, env, 0, 0).value.Some? {
      var c := ReadSlot(st.envs, env, 0, 0).value.value;
      TraceForce(c, st, fuel, at);
      var r := Force(c, st, fuel);
      var es := ForceEntries(c, st, fuel, at);
      if r.out.Ok? && r.out.value.VAttrs? && GetAttr(r.out.value.attrs, name).None? && !link.parentWith.NoWith?
         && UpEnv(r.st.envs, env, link.prevWith).Some? {
        ForceKeeps(c, st, fuel);
        BlackAfter(st, r.st, at);
        var env' := UpEnv(r.st.envs, env, link.prevWith).value;
        TraceWith(name, link.parentWith, env', r.st, fuel, at);
        TracedBoth(es, WithEntries(name, link.parentWith, env', r.st, fuel, at), at, r.out, last);
      } else {
        TracedFirst(es, at, r.out, last);
        assert es + {} == es;
      }
    } else {
      TracedNone(at, last);
    }
  }

  lemma {:induction false} TraceSelect(v: Value, path: seq<Symbol>, def: Option<Expr>, env: nat, st: State, fuel: nat,
                                       at: Context)
    requires At(st, at)
    ensures Traced(SelectEntries(v, path, def, env, st, fuel, at), at, SelectV(v, path, def, env, st, fuel).out)
    decreases fuel, 2, |path|
  {
    hide Traced, At;
    var last := SelectV(v, path, def, env, st, fuel).out;
    if path == [] {
      TracedNone(at, last);
    } else {
      match if v.VAttrs? then GetAttr(v.attrs, path[0]) else None
      case None =>
        if def.Some? {
          TraceEval(def.value, env, st, fuel, at);
        } else {
          TracedNone(at, last);
        }
      case Some(c) =>
        TraceForce(c, st, fuel, at);
        var r := Force(c, st, fuel);
        var es := ForceEntries(c, st, fuel, at);
        if r.out.Ok? {
          ForceKeeps(c, st, fuel);
          BlackAfter(st, r.st, at);
          TraceSelect(r.out.value, path[1..], def, env, r.st, fuel, at);
          TracedBoth(es, SelectEntries(r.out.value, path[1..], def, env, r.st, fuel, at), at, r.out, last);
        } else {
          assert es + {} == es;
        }
    }
  }

  lemma {:induction false} TraceHasAttr(v: Value, path: seq<Symbol>, st: State, fuel: nat, at: Context)
    requires At(st, at)
    ensures Traced(HasAttrEntries(v, path, st, fuel, at), at, HasAttrV(v, path, st, fuel).out)
    decreases fuel, 2, |path|
  {
    hide Traced, At;
    var last := HasAttrV(v, path, st, fuel).out;
    if |path| > 1 && v.VAttrs? && GetAttr(v.attrs, path[0]).Some? {
      var c := GetAttr(v.attrs, path[0]).value;
      TraceForce(c, st, fuel, at);
      var r := Force(c, st, fuel);
      var es := ForceEntries(c, st, fuel, at);
      if r.out.Ok? {
        ForceKeeps(c, st, fuel);
        BlackAfter(st, r.st, at);
        TraceHasAttr(r.out.value, path[1..], r.st, fuel, at);
        TracedBoth(es, HasAttrEntries(r.out.value, path[1..], r.st, fuel, at), at, r.out, last);
      } else {
        assert es + {} == es;
      }
    } else {
      TracedNone(at, last);
    }
  }

  lemma {:induction false} TraceCall(f: Value, args: seq<nat>, st: State, fuel: nat, at: Context)
    requires At(st, at)
    ensures Traced(CallEntries(f, args, st, fuel, at), at, CallFunction(f, args, st, fuel).out)
    decreases fuel, 4, 0
  {
    var here := Called(at);
    if at.open <= at.limit {
      TraceLoop(f, args, Enter(st), fuel, Calling(at));
      TracedAfter(here, LoopEntries(f, args, Enter(st), fuel, Calling(at)), at, Calling(at),
                  CallFunction(f, args, st, fuel).out);
    } else {
      assert CallEntries(f, args, st, fuel, at) == {here};
      assert here in {here};
    }
  }

  lemma {:induction false} TraceCallCell(c: nat, args: seq<nat>, st: State, fuel: nat, at: Context)
    requires At(st, at)
    ensures Traced(CallCellEntries(c, args, st, fuel, at), at, CallCell(c, args, st, fuel).out)
    decreases fuel, 5
  {
    var here := Called(at);
    var last := CallCell(c, args, st, fuel).out;
    if at.open <= at.limit {
      assert At(Enter(st), Calling(at));
      TraceCalled(c, args, st, fuel, at);
      TracedAfter(here, CalledEntries(c, args, st, fuel, at), at, Calling(at), last);
    } else {
      assert CallCellEntries(c, args, st, fuel, at) == {here};
      assert here in {here};
    }
  }

  /** What happens between the beginning and the end of a call of a cell. */
  function CalledEntries(c: nat, args: seq<nat>, st: State, fuel: nat, at: Context): set<Entry> {
    var r := Force(c, Enter(st), fuel);
    ForceEntries(c, Enter(st), fuel, Calling(at))
    + if r.out.Ok? then LoopEntries(r.out.value, args, r.st, fuel, Calling(at)) else {}
  }

  lemma {:induction false} TraceCalled(c: nat, args: seq<nat>, st: State, fuel: nat, at: Context)
    requires At(Enter(st), Calling(at)) && st.callDepth <= st.maxCallDepth
    ensures Traced(CalledEntries(c, args, st, fuel, at), Calling(at), CallCell(c, args, st, fuel).out)
    decreases fuel, 4
  {
    hide Traced, At;
    var inner := Calling(at);
    TraceForce(c, Enter(st), fuel, inner);
    var r := Force(c, Enter(st), fuel);
    var es := ForceEntries(c, Enter(st), fuel, inner);
    if r.out.Ok? {
      ForceKeeps(c, Enter(st), fuel);
      BlackAfter(Enter(st), r.st, inner);
      TraceLoop(r.out.value, args, r.st, fuel, inner);
      TracedBoth(es, LoopEntries(r.out.value, args, r.st, fuel, inner), inner, r.out, CallCell(c, args, st, fuel).out);
    } else {
      assert es + {} == es;
    }
  }

  lemma {:induction false} TraceLoop(f: Value, args: seq<nat>, st: State, fuel: nat, at: Context)
    requires At(st, at)
    ensures Traced(LoopEntries(f, args, st, fuel, at), at, CallLoop(f, args, st, fuel).out)
    decreases fuel, 3, |args|
  {
    hide Traced, At;
    var last := CallLoop(f, args, st, fuel).out;
    if args == [] {
      TracedNone(at, last);
    } else {
      TraceOne(f, args[0], st, fuel, at);
      var r := CallOne(f, args[0], st, fuel);
      var es := OneEntries(f, args[0], st, fuel, at);
      if r.out.Ok? {
        CallOneKeeps(f, args[0], st, fuel);
        BlackAfter(st, r.st, at);
        TraceLoop(r.out.value, args[1..], r.st, fuel, at);
        TracedBoth(es, LoopEntries(r.out.value, args[1..], r.st, fuel, at), at, r.out, last);
      } else {
        assert es + {} == es;
      }
    }
  }

  lemma {:induction false} TraceOne(f: Value, arg: nat, st: State, fuel: nat, at: Context)
    requires At(st, at)
    ensures Traced(OneEntries(f, arg, st, fuel, at), at, CallOne(f, arg, st, fuel).out)
    decreases fuel, 2, 0
  {
    hide Traced, At;
    var last := CallOne(f, arg, st, fuel).out;
    match f
    case VLambda(name, formals, body, env) =>
      if formals.None? {
        var a := NewEnv(if name.Some? then 1 else 0, env, st);
        SetSlotKeeps(st, a.id, 0, arg, a.st);
        BlackAfter(st, SetSlot(a.id, 0, arg, a.st), at);
        TraceEval(body, a.id, SetSlot(a.id, 0, arg, a.st), fuel, at);
      } else {
        TraceForce(arg, st, fuel, at);
        var r := Force(arg, st, fuel);
        var es := ForceEntries(arg, st, fuel, at);
        if r.out.Ok? && r.out.value.VAttrs? {
          ForceKeeps(arg, st, fuel);
          BlackAfter(st, r.st, at);
          var attrs := r.out.value.attrs;
          TraceFormals(name, formals.value, body, env, arg, attrs, r.st, fuel, at);
          TracedBoth(es, FormalsEntries(name, formals.value, body, env, arg, attrs, r.st, fuel, at), at, r.out,
                     last);
        } else {
          TracedFirst(es, at, r.out, last);
          assert es + {} == es;
        }
      }
    case VAttrs(attrs) =>
      if fuel > 0 && GetAttr(attrs, FUNCTOR).Some? {
        var self := NewCell(Val(f), st);
        assert Keeps(st, self.st);
        BlackAfter(st, self.st, at);
        TraceCallCell(GetAttr(attrs, FUNCTOR).value, [self.id, arg], self.st, fuel - 1, at);
      } else {
        TracedNone(at, last);
      }
    case _ => TracedNone(at, last);
  }

  lemma {:induction false} TraceFormals(name: Option<Symbol>, formals: Formals, body: Expr, env: nat, arg: nat,
                                        attrs: seq<VAttr>, st: State, fuel: nat, at: Context)
    requires At(st, at)
    ensures Traced(FormalsEntries(name, formals, body, env, arg, attrs, st, fuel, at), at,
                   CallFormals(name, formals, body, env, arg, attrs, st, fuel).out)
    decreases fuel, 1
  {
    hide Traced, At;
    var first := if name.Some? then 1 else 0;
    var a := NewEnv(first + |formals.formals|, env, st);
    var st1 := if name.Some? then SetSlot(a.id, 0, arg, a.st) else a.st;
    SetSlotKeeps(st, a.id, 0, arg, a.st);
    FillFormalsKeeps(st, formals.formals, 0, first, attrs, a.id, st1);
    var r := FillFormals(formals.formals, 0, first, attrs, a.id, st1);
    if r.out.Ok? && (formals.ellipsis || r.out.value == |attrs|) {
      BlackAfter(st, r.st, at);
      TraceEval(body, a.id, r.st, fuel, at);
    } else {
      MatchingNeverRecurses(formals.formals, 0, first, attrs, a.id, st1);
      TracedNone(at, CallFormals(name, formals, body, env, arg, attrs, st, fuel).out);
    }
  }

  lemma {:induction false} MatchingNeverRecurses(formals: seq<Formal>, i: nat, first: nat, attrs: seq<VAttr>, env: nat,
                                                 st: State)
    ensures FillFormals(formals, i, first, attrs, env, st).out != Err(InfiniteRecursion)
    ensures FillFormals(formals, i, first, attrs, env, st).out != Err(StackOverflow)
    decreases |formals| - i
  {
    if i < |formals| {
      match GetAttr(attrs, formals[i].name)
      case Some(c) => MatchingNeverRecurses(formals, i + 1, first, attrs, env, SetSlot(env, first + i, c, st));
      case None =>
        if formals[i].def.Some? {
          var a := MaybeThunk(formals[i].def.value, env, st);
          MatchingNeverRecurses(formals, i + 1, first, attrs, env, SetSlot(env, first + i, a.id, a.st));
        }
    }
  }

  // ---- what it comes to ----

  /** Where a run begins: the cells that are black and the calls that are open already. */
  ghost function Here(st: State): Context
    requires st.callDepth >= 0
  {
    Context(BlackHoles(st), st.callDepth, st.maxCallDepth)
  }

  /** At every moment at which a run turns to a cell, the black cells are exactly those being computed. So
    turning to a cell is at once, with nothing evaluated, the infinite-recursion error if and only if the
    cell is being computed, however many other cells are being computed too. */
  lemma ReentryIsInfiniteRecursion(e: Expr, env: nat, st: State, fuel: nat, x: Entry, more: nat)
    requires st.callDepth >= 0 && x in EvalEntries(e, env, st, fuel, Here(st)) && x.Forced?
    ensures BlackHoles(x.st) == x.at.active && x.st.callDepth == x.at.open
    ensures Reentry(x) ==> Force(x.c, x.st, more) == Run(Err(InfiniteRecursion), x.st)
    ensures Force(x.c, x.st, 0).out == Err(InfiniteRecursion) ==> Reentry(x)
  {
    TraceEval(e, env, st, fuel, Here(st));
  }

  /** While a thunk is being computed, whatever else is being computed too, turning to it again is an
    infinite recursion. */
  lemma ThunkNeededByItself(c: nat, st: State, fuel: nat, x: Entry, more: nat)
    requires st.callDepth >= 0 && c < |st.cells| && st.cells[c].Thunk?
    requires x in Inside(c, st, fuel, Here(st)) && x.Forced? && x.c == c
    ensures Force(c, x.st, more) == Run(Err(InfiniteRecursion), x.st)
  {
    TraceForce(c, st, fuel, Here(st));
    assert c in BlackHoles(x.st);
  }

  /** A run ends with infinite recursion if and only if it turned to a cell that was being computed. */
  lemma InfiniteRecursionIsReentry(e: Expr, env: nat, st: State, fuel: nat)
    requires st.callDepth >= 0
    ensures Eval(e, env, st, fuel).out == Err(InfiniteRecursion)
            <==> exists x :: x in EvalEntries(e, env, st, fuel, Here(st)) && Reentry(x)
  {
    TraceEval(e, env, st, fuel, Here(st));
  }

  /** A run ends with a stack overflow if and only if it began a call while more calls were open than the
    limit says. */
  lemma OverflowIsTooDeep(e: Expr, env: nat, st: State, fuel: nat)
    requires st.callDepth >= 0
    ensures Eval(e, env, st, fuel).out == Err(StackOverflow)
            <==> exists x :: x in EvalEntries(e, env, st, fuel, Here(st)) && TooDeep(x)
  {
    TraceEval(e, env, st, fuel, Here(st));
  }

  // ---- two thunks that need each other ----

  /** `let a = b.x; b = a.x; in ...`: cell 0 is `b.x`, cell 1 is `a.x`, and both are in slots. */
  function MutualState(): State {
    State([Thunk(0, Select(Var(1, VarRef(NoWith, 0, 1)), [0], None)),
           Thunk(0, Select(Var(0, VarRef(NoWith, 0, 0)), [0], None))],
          [Env(None, [Some(0), Some(1)])], 0, 100)
  }

  /** The first thunk is entered again while the second is black too. */
  lemma MutualRecursion()
    ensures exists x :: x in Inside(0, MutualState(), 9, Context({}, 0, 100))
                        && x.Forced? && x.c == 0 && x.at.active == {0, 1}
    ensures Force(0, MutualState(), 9).out == Err(InfiniteRecursion)
  {
    var st := MutualState();
    var st1 := SetCell(0, BlackHole, st);
    var st2 := SetCell(1, BlackHole, st1);
    var b, a := Var(1, VarRef(NoWith, 0, 1)), Var(0, VarRef(NoWith, 0, 0));
    assert ReadSlot(st1.envs, 0, 0, 1) == Some(Some(1)) && ReadSlot(st2.envs, 0, 0, 0) == Some(Some(0));
    var none, one, both := Context({}, 0, 100), Context({0}, 0, 100), Context({0, 1}, 0, 100);
    assert Computing(none, 0) == one && Computing(one, 1) == both;
    var x := Forced(0, st2, both);
    assert Eval(a, 0, st2, 5).out == Err(InfiniteRecursion);
    assert x in EvalEntries(a, 0, st2, 5, both);
    assert Eval(Select(a, [0], None), 0, st2, 6).out == Err(InfiniteRecursion);
    assert x in EvalEntries(Select(a, [0], None), 0, st2, 6, both);
    assert Force(1, st1, 6).out == Err(InfiniteRecursion);
    assert x in ForceEntries(1, st1, 6, one);
    assert Eval(b, 0, st1, 7).out == Err(InfiniteRecursion);
    assert x in EvalEntries(b, 0, st1, 7, one);
    assert Eval(Select(b, [0], None), 0, st1, 8).out == Err(InfiniteRecursion);
    assert x in EvalEntries(Select(b, [0], None), 0, st1, 8, one);
  }
}
