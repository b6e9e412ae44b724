/** Applying a function to several arguments at once.

  The evaluator passes all arguments of a call together. A lambda takes one of them, a primitive operation
  as many as its arity, a set with a functor is called with itself and one argument. Too few arguments
  for a primitive operation make a partial application. What function bodies and primitive operations do,
  and forcing a cell, is left to the `Machine` and to its state `S`. */
module Calls {
  import opened Options

  type Ptr = nat

  const MAX_ARITY := 8

  datatype Value =
    | Lambda(id: nat)
    | PrimOp(op: nat)
    | PrimOpApp(left: Value, right: Ptr)
    | AttrSet(id: nat, functor: Option<Ptr>)
    | Data(id: nat)

  datatype Error = NotAFunction | TooDeep | BadChain | Raised(id: nat)

  datatype Outcome<S> = Done(st: S, v: Value) | Failed(st: S, why: Error)

  /** The parts of the evaluator that a call uses. The second argument is the number of nested calls that
    are still allowed. */
  datatype Machine<!S> = Machine(
    arity: nat -> nat,
    body: (S, nat, nat, Ptr) -> Outcome<S>,
    prim: (S, nat, nat, seq<Ptr>) -> Outcome<S>,
    force: (S, nat, Ptr) -> Outcome<S>,
    alloc: (S, Value) -> (S, Ptr))

  /** The primitive operation at the end of a chain of partial applications. */
  function Head(v: Value): Value {
    if v.PrimOpApp? then Head(v.left) else v
  }

  /** The arguments a chain has collected, first one first. */
  function Collected(v: Value): seq<Ptr> {
    if v.PrimOpApp? then Collected(v.left) + [v.right] else []
  }

  function AppChain(v: Value, args: seq<Ptr>): Value
    decreases |args|
  {
    if args == [] then v else AppChain(PrimOpApp(v, args[0]), args[1..])
  }

  // ---- the batched call ----

  /** Applying a value that has been forced. `BadChain` stands for a chain that does not end in a primitive
    operation or that has already all its arguments. */
  function Run<S>(m: Machine<S>, st: S, d: nat, v: Value, args: seq<Ptr>): Outcome<S>
    decreases d, |args|
  {
    if args == [] then Done(st, v)
    else match v
         case Lambda(l) => Continue(m, d, m.body(st, d, l, args[0]), args, 1)
         case PrimOp(_) => RunChain(m, st, d, v, args)
         case PrimOpApp(_, _) => RunChain(m, st, d, v, args)
         case AttrSet(_, Some(f)) =>
           var (st', self) := m.alloc(st, v);
           Continue(m, d, Call(m, st', d, f, [self, args[0]]), args, 1)
         case _ => Failed(st, NotAFunction)
  }

  function Continue<S>(m: Machine<S>, d: nat, r: Outcome<S>, args: seq<Ptr>, used: nat): Outcome<S>
    requires 0 < used <= |args|
    decreases d, |args| - used + 1, 0
  {
    if r.Done? then Run(m, r.st, d, r.v, args[used..]) else r
  }

  function RunChain<S>(m: Machine<S>, st: S, d: nat, v: Value, args: seq<Ptr>): Outcome<S>
    requires args != []
    decreases d, |args|, 1
  {
    var head, done := Head(v), Collected(v);
    if !head.PrimOp? || |done| >= m.arity(head.op) then Failed(st, BadChain)
    else
      var left := m.arity(head.op) - |done|;
      if |args| < left then Done(st, AppChain(v, args))
      else Continue(m, d, m.prim(st, d, head.op, done + args[..left]), args, left)
  }

  lemma RunPrimOp<S>(m: Machine<S>, st: S, d: nat, v: Value, args: seq<Ptr>)
    requires args != [] && (v.PrimOp? || v.PrimOpApp?) && Head(v).PrimOp?
    requires 0 < m.arity(Head(v).op) - |Collected(v)| <= |args|
    ensures var left := m.arity(Head(v).op) - |Collected(v)|;
            var r := m.prim(st, d, Head(v).op, Collected(v) + args[..left]);
            Run(m, st, d, v, args) == if r.Done? then Run(m, r.st, d, r.v, args[left..]) else r
  {
    var left := m.arity(Head(v).op) - |Collected(v)|;
    var r := m.prim(st, d, Head(v).op, Collected(v) + args[..left]);
    assert Run(m, st, d, v, args) == RunChain(m, st, d, v, args);
    assert RunChain(m, st, d, v, args) == Continue(m, d, r, args, left);
  }

  /** Calling the value in a cell. */
  function Call<S>(m: Machine<S>, st: S, d: nat, f: Ptr, args: seq<Ptr>): Outcome<S>
    decreases d, 0
  {
    if d == 0 then Failed(st, TooDeep)
    else
      var r := m.force(st, d - 1, f);
      if r.Done? then Run(m, r.st, d - 1, r.v, args) else r
  }

  // ---- one argument at a time ----

  /** Applying a value to a single argument. */
  function Apply<S>(m: Machine<S>, st: S, d: nat, v: Value, arg: Ptr): Outcome<S>
    decreases d, 2
  {
    match v
    case Lambda(l) => m.body(st, d, l, arg)
    case AttrSet(_, Some(f)) =>
      var (st', self) := m.alloc(st, v);
      if d == 0 then Failed(st', TooDeep)
      else
        var r := m.force(st', d - 1, f);
        if r.Done? then ApplyAll(m, r.st, d - 1, r.v, [self, arg]) else r
    case AttrSet(_, None) => Failed(st, NotAFunction)
    case Data(_) => Failed(st, NotAFunction)
    case _ =>
      var head, done := Head(v), Collected(v);
      if !head.PrimOp? || |done| >= m.arity(head.op) then Failed(st, BadChain)
      else if |done| + 1 < m.arity(head.op) then Done(st, PrimOpApp(v, arg))
      else m.prim(st, d, head.op, done + [arg])
  }

  /** Applying a value to one argument after the other. */
  function ApplyAll<S>(m: Machine<S>, st: S, d: nat, v: Value, args: seq<Ptr>): Outcome<S>
    decreases d, 3, |args|
  {
    if args == [] then Done(st, v)
    else
      var r := Apply(m, st, d, v, args[0]);
      if r.Done? then ApplyAll(m, r.st, d, r.v, args[1..]) else r
  }

  // ---- the two agree ----

  lemma {:induction false} ApplyAllAppend<S>(m: Machine<S>, st: S, d: nat, v: Value, xs: seq<Ptr>, ys: seq<Ptr>)
    ensures ApplyAll(m, st, d, v, xs + ys)
            == var r := ApplyAll(m, st, d, v, xs);
               if r.Done? then ApplyAll(m, r.st, d, r.v, ys) else r
    decreases |xs|
  {
    hide Apply;
    if xs == [] {
      assert xs + ys == ys;
    } else {
      assert (xs + ys)[1..] == xs[1..] + ys;
      var r := Apply(m, st, d, v, xs[0]);
      if r.Done? {
        ApplyAllAppend(m, r.st, d, r.v, xs[1..], ys);
      }
    }
  }

  lemma {:induction false} AppChainParts(v: Value, args: seq<Ptr>)
    requires Head(v).PrimOp?
    ensures Head(AppChain(v, args)) == Head(v) && Collected(AppChain(v, args)) == Collected(v) + args
    decreases |args|
  {
    if args != [] {
      AppChainParts(PrimOpApp(v, args[0]), args[1..]);
      assert Collected(v) + [args[0]] + args[1..] == Collected(v) + args;
    }
  }

  /** Arguments that are too few are collected in a chain. */
  lemma {:induction false} ApplyFew<S>(m: Machine<S>, st: S, d: nat, v: Value, args: seq<Ptr>)
    requires Head(v).PrimOp? && |Collected(v)| + |args| < m.arity(Head(v).op)
    ensures ApplyAll(m, st, d, v, args) == Done(st, AppChain(v, args))
    decreases |args|
  {
    if args != [] {
      assert Apply(m, st, d, v, args[0]) == Done(st, PrimOpApp(v, args[0]));
      ApplyFew(m, st, d, PrimOpApp(v, args[0]), args[1..]);
    }
  }

  /** The argument that completes a chain calls the primitive operation with all of them. */
  lemma ApplyEnough<S>(m: Machine<S>, st: S, d: nat, v: Value, args: seq<Ptr>)
    requires Head(v).PrimOp? && args != [] && |Collected(v)| + |args| == m.arity(Head(v).op)
    ensures ApplyAll(m, st, d, v, args) == m.prim(st, d, Head(v).op, Collected(v) + args)
  {
    var init, last := args[..|args| - 1], args[|args| - 1];
    assert args == init + [last];
    ApplyFew(m, st, d, v, init);
    AppChainParts(v, init);
    ApplyAllAppend(m, st, d, v, init, [last]);
    var v' := AppChain(v, init);
    assert Collected(v) + init + [last] == Collected(v) + args;
    HeadNotOther(v, v');
    assert Apply(m, st, d, v', last) == m.prim(st, d, Head(v).op, Collected(v) + args);
    assert [last][1..] == [];
  }

  lemma HeadNotOther(v: Value, v': Value)
    requires Head(v).PrimOp? && Head(v') == Head(v)
    ensures v'.PrimOp? || v'.PrimOpApp?
  {
  }

  /** A call with all arguments together is the call with one argument after the other. */
  lemma {:induction false} RunIsCurried<S>(m: Machine<S>, st: S, d: nat, v: Value, args: seq<Ptr>)
    ensures Run(m, st, d, v, args) == ApplyAll(m, st, d, v, args)
    decreases d, |args|
  {
    if args != [] {
      match v
      case Lambda(l) =>
        var r := m.body(st, d, l, args[0]);
        if r.Done? {
          RunIsCurried(m, r.st, d, r.v, args[1..]);
        }
      case AttrSet(_, Some(f)) =>
        FunctorIsCurried(m, st, d, v, args);
        var r := Apply(m, st, d, v, args[0]);
        if r.Done? {
          RunIsCurried(m, r.st, d, r.v, args[1..]);
        }
      case AttrSet(_, None) =>
      case Data(_) =>
      case PrimOp(_) => ChainIsCurried(m, st, d, v, args);
      case PrimOpApp(_, _) => ChainIsCurried(m, st, d, v, args);
    }
  }

  lemma FunctorIsCurried<S>(m: Machine<S>, st: S, d: nat, v: Value, args: seq<Ptr>)
    requires v.AttrSet? && v.functor.Some? && args != []
    ensures Run(m, st, d, v, args) == Continue(m, d, Apply(m, st, d, v, args[0]), args, 1)
    decreases d, 0
  {
    if d > 0 {
      var (st', self) := m.alloc(st, v);
      var r := m.force(st', d - 1, v.functor.value);
      if r.Done? {
        RunIsCurried(m, r.st, d - 1, r.v, [self, args[0]]);
      }
    }
  }

  lemma ChainIsCurried<S>(m: Machine<S>, st: S, d: nat, v: Value, args: seq<Ptr>)
    requires args != [] && (v.PrimOp? || v.PrimOpApp?)
    ensures Run(m, st, d, v, args) == ApplyAll(m, st, d, v, args)
    decreases d, |args|, 0
  {
    var head, done := Head(v), Collected(v);
    if head.PrimOp? && |done| < m.arity(head.op) {
      var left := m.arity(head.op) - |done|;
      if |args| < left {
        ApplyFew(m, st, d, v, args);
      } else {
        var now, later := args[..left], args[left..];
        assert args == now + later;
        ApplyEnough(m, st, d, v, now);
        ApplyAllAppend(m, st, d, v, now, later);
        RunPrimOp(m, st, d, v, args);
        var r := m.prim(st, d, head.op, done + now);
        if r.Done? {
          RunIsCurried(m, r.st, d, r.v, later);
        }
      }
    }
  }

  /** How the arguments of a call are batched makes no difference: applying to `xs + ys` is applying to
    `xs` and then applying the result to `ys`. */
  lemma CallsBatch<S>(m: Machine<S>, st: S, d: nat, v: Value, xs: seq<Ptr>, ys: seq<Ptr>)
    ensures Run(m, st, d, v, xs + ys)
            == var r := Run(m, st, d, v, xs);
               if r.Done? then Run(m, r.st, d, r.v, ys) else r
  {
    hide Run, ApplyAll;
    RunIsCurried(m, st, d, v, xs + ys);
    RunIsCurried(m, st, d, v, xs);
    ApplyAllAppend(m, st, d, v, xs, ys);
    var r := Run(m, st, d, v, xs);
    if r.Done? {
      RunIsCurried(m, r.st, d, r.v, ys);
    }
  }

  // ---- partial applications stay short ----

  /** A chain ends in a primitive operation that still waits for an argument. */
  predicate Waiting<S>(m: Machine<S>, v: Value) {
    v.PrimOp? || v.PrimOpApp? ==> Head(v).PrimOp? && |Collected(v)| < m.arity(Head(v).op)
  }

  predicate Fine<S>(m: Machine<S>, r: Outcome<S>) {
    if r.Done? then Waiting(m, r.v) else r.why != BadChain
  }

  /** Function bodies, primitive operations and forcing, with `d` nested calls left, make no chain that is
    complete. */
  ghost predicate PartsFine<S(!new)>(m: Machine<S>, d: nat) {
    && (forall st, l, x :: Fine(m, m.body(st, d, l, x)))
    && (forall st, op, xs :: Fine(m, m.prim(st, d, op, xs)))
    && (forall st, f :: Fine(m, m.force(st, d, f)))
  }

  ghost predicate CallsFine<S(!new)>(m: Machine<S>, d: nat) {
    forall st, f, args :: Fine(m, Call(m, st, d, f, args))
  }

  /** Primitive operations have one to eight arguments, and no part of the machine makes a complete chain
    of its own: it can only get one from a call that it makes. */
  ghost predicate Honest<S(!new)>(m: Machine<S>) {
    && (forall op :: 1 <= m.arity(op) <= MAX_ARITY)
    && (forall d :: CallsFine(m, d) ==> PartsFine(m, d))
  }

  /** No call makes a complete chain, however deep the calls are nested. */
  lemma {:induction false} HonestParts<S(!new)>(m: Machine<S>, d: nat)
    requires Honest(m)
    ensures CallsFine(m, d) && PartsFine(m, d)
    decreases d, 2
  {
    forall st, f, args
      ensures Fine(m, Call(m, st, d, f, args))
    {
      CallStaysShort(m, st, d, f, args);
    }
  }

  lemma CallStaysShort<S(!new)>(m: Machine<S>, st: S, d: nat, f: Ptr, args: seq<Ptr>)
    requires Honest(m)
    ensures Fine(m, Call(m, st, d, f, args))
    decreases d, 1
  {
    if d > 0 {
      HonestParts(m, d - 1);
      var r := m.force(st, d - 1, f);
      assert Fine(m, r);
      if r.Done? {
        ChainsStayShort(m, r.st, d - 1, r.v, args);
      }
    }
  }

  /** Every call keeps partial applications shorter than their arity: the number of missing arguments is
    never negative, and a chain always ends in a primitive operation. */
  lemma {:induction false} ChainsStayShort<S(!new)>(m: Machine<S>, st: S, d: nat, v: Value, args: seq<Ptr>)
    requires Honest(m) && Waiting(m, v)
    ensures Fine(m, Run(m, st, d, v, args))
    decreases d, 3, |args|
  {
    if args != [] {
      HonestParts(m, d);
      match v
      case Lambda(l) =>
        ContinueStaysShort(m, d, m.body(st, d, l, args[0]), args, 1);
      case AttrSet(_, Some(f)) =>
        var (st', self) := m.alloc(st, v);
        ContinueStaysShort(m, d, Call(m, st', d, f, [self, args[0]]), args, 1);
      case AttrSet(_, None) =>
      case Data(_) =>
      case _ =>
        var head, done := Head(v), Collected(v);
        var left := m.arity(head.op) - |done|;
        if |args| < left {
          AppChainParts(v, args);
        } else {
          ContinueStaysShort(m, d, m.prim(st, d, head.op, done + args[..left]), args, left);
        }
    }
  }

  lemma ContinueStaysShort<S(!new)>(m: Machine<S>, d: nat, r: Outcome<S>, args: seq<Ptr>, used: nat)
    requires Honest(m) && 0 < used <= |args| && Fine(m, r)
    ensures Fine(m, Continue(m, d, r, args, used))
    decreases d, 3, |args| - used + 1, 0
  {
    if r.Done? {
      ChainsStayShort(m, r.st, d, r.v, args[used..]);
    }
  }

  // ---- the code ----

  /** The number of arguments a chain has collected, and its primitive operation. */
  method WalkChain(v: Value) returns (argsDone: nat, primOp: Value)
    ensures argsDone == |Collected(v)| && primOp == Head(v)
  {
    argsDone, primOp := 0, v;
    while primOp.PrimOpApp?
      invariant |Collected(v)| == argsDone + |Collected(primOp)| && Head(primOp) == Head(v)
      decreases primOp
    {
      argsDone := argsDone + 1;
      primOp := primOp.left;
    }
  }

  /** Copies the collected arguments of a chain and the new ones into the argument buffer. */
  method FillBuffer(buffer: array<Ptr>, v: Value, argsDone: nat, args: seq<Ptr>, argsLeft: nat)
    requires argsDone == |Collected(v)| && argsLeft <= |args| && argsDone + argsLeft <= buffer.Length
    modifies buffer
    ensures buffer[..argsDone + argsLeft] == Collected(v) + args[..argsLeft]
  {
    var n := argsDone;
    var arg := v;
    while arg.PrimOpApp?
      invariant n == |Collected(arg)| <= argsDone
      invariant Collected(arg) <= Collected(v)
      invariant buffer[n..argsDone] == Collected(v)[n..]
      decreases arg
    {
      n := n - 1;
      buffer[n] := arg.right;
      assert Collected(v)[n] == Collected(arg)[n];
      assert buffer[n..argsDone] == [arg.right] + buffer[n + 1..argsDone];
      arg := arg.left;
    }
    var i := 0;
    while i < argsLeft
      invariant i <= argsLeft
      invariant buffer[..argsDone + i] == Collected(v) + args[..i]
    {
      buffer[argsDone + i] := args[i];
      i := i + 1;
      assert buffer[..argsDone + i] == buffer[..argsDone + i - 1] + [args[i - 1]];
      assert args[..i] == args[..i - 1] + [args[i - 1]];
    }
  }

  method MakeAppChain(vCur: Value, args: seq<Ptr>) returns (vRes: Value)
    ensures vRes == AppChain(vCur, args)
  {
    vRes := vCur;
    var i := 0;
    while i < |args|
      invariant i <= |args|
      invariant AppChain(vRes, args[i..]) == AppChain(vCur, args)
    {
      assert args[i..][1..] == args[i + 1..];
      vRes := PrimOpApp(vRes, args[i]);
      i := i + 1;
    }
  }

  /** The call loop. The argument buffer has room for `MAX_ARITY` arguments. */
  method CallFunction<S(!new)>(m: Machine<S>, start: S, d: nat, fun: Value, args: seq<Ptr>) returns (r: Outcome<S>)
    requires Honest(m) && Waiting(m, fun)
    ensures r == Run(m, start, d, fun, args)
    decreases d, 1
  {
    HonestParts(m, d);
    var st, vCur, rest := start, fun, args;
    while rest != []
      invariant Waiting(m, vCur)
      invariant Run(m, st, d, vCur, rest) == Run(m, start, d, fun, args)
      decreases |rest|
    {
      var used := 1;
      match vCur {
        case Lambda(l) =>
          r := m.body(st, d, l, rest[0]);
        case AttrSet(_, Some(f)) =>
          var (st', self) := m.alloc(st, vCur);
          r := CallPointer(m, st', d, f, [self, rest[0]]);
        case AttrSet(_, None) =>
          return Failed(st, NotAFunction);
        case Data(_) =>
          return Failed(st, NotAFunction);
        case PrimOp(op) =>
          if |rest| < m.arity(op) {
            var chain := MakeAppChain(vCur, rest);
            return Done(st, chain);
          }
          used := m.arity(op);
          assert Collected(vCur) + rest[..used] == rest[..used];
          RunPrimOp(m, st, d, vCur, rest);
          r := m.prim(st, d, op, rest[..used]);
        case PrimOpApp(_, _) =>
          var argsDone, primOp := WalkChain(vCur);
          var argsLeft := m.arity(primOp.op) - argsDone;
          if |rest| < argsLeft {
            var chain := MakeAppChain(vCur, rest);
            return Done(st, chain);
          }
          var vArgs := new Ptr[MAX_ARITY];
          FillBuffer(vArgs, vCur, argsDone, rest, argsLeft);
          used := argsLeft;
          RunPrimOp(m, st, d, vCur, rest);
          r := m.prim(st, d, primOp.op, vArgs[..argsDone + argsLeft]);
      }
      assert Fine(m, r);
      if r.Failed? {
        return;
      }
      st, vCur, rest := r.st, r.v, rest[used..];
    }
    return Done(st, vCur);
  }

  method CallPointer<S(!new)>(m: Machine<S>, st: S, d: nat, f: Ptr, args: seq<Ptr>) returns (r: Outcome<S>)
    requires Honest(m)
    ensures r == Call(m, st, d, f, args) && Fine(m, r)
    decreases d, 0
  {
    if d == 0 {
      return Failed(st, TooDeep);
    }
    HonestParts(m, d - 1);
    r := m.force(st, d - 1, f);
    assert Fine(m, r);
    if r.Done? {
      ChainsStayShort(m, r.st, d - 1, r.v, args);
      r := CallFunction(m, r.st, d - 1, r.v, args);
    }
  }
}
