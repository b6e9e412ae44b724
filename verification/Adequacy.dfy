/** The machine computes the meaning of programs.

  A program is observed by printing its value strictly, all the way down, as `printValueAsJSON` walks a
  value. For every program that resolves, what the machine prints is what the reference semantics
  prints, and the machine reports a problem exactly when the reference has it. */
module Adequacy {
  import opened Options
  import opened Syntax
  import opened Scoping
  import opened Reference
  import opened Fuel
  import opened Machine
  import opened Runs
  import opened Meaning
  import opened Frames
  import opened Soundness
  import opened Progress

  /** A value printed all the way down; functions are not looked into. */
  datatype Tree = TConst(c: Const) | TAttrs(attrs: seq<TAttr>) | TList(elems: seq<Tree>) | TFunction

  datatype TAttr = TAttr(name: Symbol, tree: Tree)

  // ---- printing in the reference semantics ----

  function ShowN(v: NValue, n: nat): Outcome<Tree>
    decreases n, 0, 0
  {
    match v
    case NConst(c) => Ok(TConst(c))
    case NLambda(_, _, _, _) => Ok(TFunction)
    case NAttrs(attrs) =>
      if n == 0 then Err(OutOfFuel)
      else (match ShowAttrsN(attrs, n - 1) case Ok(ts) => Ok(TAttrs(ts)) case Err(x) => Err(x))
    case NList(elems) =>
      if n == 0 then Err(OutOfFuel)
      else match ShowListN(elems, n - 1) case Ok(ts) => Ok(TList(ts)) case Err(x) => Err(x)
  }

  function ShowClosure(c: Closure, n: nat): Outcome<Tree>
    decreases n, 1, 0
  {
    match EvalClosure(c, n)
    case Ok(v) => ShowN(v, n)
    case Err(x) => Err(x)
  }

  function ShowAttrsN(attrs: seq<NAttr>, n: nat): Outcome<seq<TAttr>>
    decreases n, 2, |attrs|
  {
    if attrs == [] then Ok([])
    else match ShowClosure(attrs[0].clo, n)
         case Err(x) => Err(x)
         case Ok(t) =>
           match ShowAttrsN(attrs[1..], n)
           case Err(x) => Err(x)
           case Ok(ts) => Ok([TAttr(attrs[0].name, t)] + ts)
  }

  function ShowListN(elems: seq<Closure>, n: nat): Outcome<seq<Tree>>
    decreases n, 2, |elems|
  {
    if elems == [] then Ok([])
    else match ShowClosure(elems[0], n)
         case Err(x) => Err(x)
         case Ok(t) =>
           match ShowListN(elems[1..], n)
           case Err(x) => Err(x)
           case Ok(ts) => Ok([t] + ts)
  }

  // ---- printing in the machine ----

  function Show(v: Value, st: State, fuel: nat): Run<Tree>
    decreases fuel, 0, 0
  {
    match v
    case VConst(c) => Run(Ok(TConst(c)), st)
    case VLambda(_, _, _, _) => Run(Ok(TFunction), st)
    case VAttrs(attrs) =>
      if fuel == 0 then Run(Err(OutOfFuel), st)
      else
        var r := ShowAttrs(attrs, st, fuel - 1);
        Run(match r.out case Ok(ts) => Ok(TAttrs(ts)) case Err(x) => Err(x), r.st)
    case VList(elems) =>
      if fuel == 0 then Run(Err(OutOfFuel), st)
      else
        var r := ShowList(elems, st, fuel - 1);
        Run(match r.out case Ok(ts) => Ok(TList(ts)) case Err(x) => Err(x), r.st)
  }

  function ShowCell(c: nat, st: State, fuel: nat): Run<Tree>
    decreases fuel, 1, 0
  {
    var r := Force(c, st, fuel);
    match r.out
    case Ok(v) => Show(v, r.st, fuel)
    case Err(x) => Run(Err(x), r.st)
  }

  function ShowAttrs(attrs: seq<VAttr>, st: State, fuel: nat): Run<seq<TAttr>>
    decreases fuel, 2, |attrs|
  {
    if attrs == [] then Run(Ok([]), st)
    else
      var r := ShowCell(attrs[0].cell, st, fuel);
      match r.out
      case Err(x) => Run(Err(x), r.st)
      case Ok(t) =>
        var rest := ShowAttrs(attrs[1..], r.st, fuel);
        match rest.out
        case Err(x) => rest
        case Ok(ts) => Run(Ok([TAttr(attrs[0].name, t)] + ts), rest.st)
  }

  function ShowList(elems: seq<nat>, st: State, fuel: nat): Run<seq<Tree>>
    decreases fuel, 2, |elems|
  {
    if elems == [] then Run(Ok([]), st)
    else
      var r := ShowCell(elems[0], st, fuel);
      match r.out
      case Err(x) => Run(Err(x), r.st)
      case Ok(t) =>
        var rest := ShowList(elems[1..], r.st, fuel);
        match rest.out
        case Err(x) => rest
        case Ok(ts) => Run(Ok([t] + ts), rest.st)
  }

  // ---- printing is insensitive to a larger budget ----

  lemma {:induction false} MoreFuelShow(v: NValue, n: nat, m: nat)
    requires n <= m && Final(ShowN(v, n))
    ensures ShowN(v, m) == ShowN(v, n)
    decreases n, 0, 0
  {
    match v
    case NAttrs(attrs) => MoreFuelShowAttrs(attrs, n - 1, m - 1);
    case NList(elems) => MoreFuelShowList(elems, n - 1, m - 1);
    case _ =>
  }

  lemma {:induction false} MoreFuelShowClosure(c: Closure, n: nat, m: nat)
    requires n <= m && Final(ShowClosure(c, n))
    ensures ShowClosure(c, m) == ShowClosure(c, n)
    decreases n, 1, 0
  {
    MoreFuelClosure(c, n, m);
    if EvalClosure(c, n).Ok? {
      MoreFuelShow(EvalClosure(c, n).value, n, m);
    }
  }

  lemma {:induction false} MoreFuelShowAttrs(attrs: seq<NAttr>, n: nat, m: nat)
    requires n <= m && Final(ShowAttrsN(attrs, n))
    ensures ShowAttrsN(attrs, m) == ShowAttrsN(attrs, n)
    decreases n, 2, |attrs|
  {
    if attrs != [] {
      MoreFuelShowClosure(attrs[0].clo, n, m);
      if ShowClosure(attrs[0].clo, n).Ok? {
        MoreFuelShowAttrs(attrs[1..], n, m);
      }
    }
  }

  lemma {:induction false} MoreFuelShowList(elems: seq<Closure>, n: nat, m: nat)
    requires n <= m && Final(ShowListN(elems, n))
    ensures ShowListN(elems, m) == ShowListN(elems, n)
    decreases n, 2, |elems|
  {
    if elems != [] {
      MoreFuelShowClosure(elems[0], n, m);
      if ShowClosure(elems[0], n).Ok? {
        MoreFuelShowList(elems[1..], n, m);
      }
    }
  }

  // ---- what the machine prints, the reference prints ----

  /** Never a crash; what is printed, or the genuine error reported, is that of the reference. */
  predicate SameOutput<T(==)>(out: Outcome<T>, o: Outcome<T>) {
    match out
    case Ok(t) => o == Ok(t)
    case Err(x) => x != Crash && (Genuine(x) ==> o == Err(x))
  }

  lemma {:induction false} SoundShow(v: Value, nv: NValue, st: State, m: Denotation, fuel: nat)
    returns (n: nat, m': Denotation)
    requires Good(st, m) && ValRel(v, nv, m)
    ensures SameOutput(Show(v, st, fuel).out, ShowN(nv, n)) && After(Show(v, st, fuel), m, m')
    decreases fuel, 0, 0
  {
    hide Means, AllFilled, CellAlias;
    n, m' := 0, m;
    match v
    case VAttrs(attrs) =>
      if fuel > 0 {
        n, m' := SoundShowAttrs(attrs, nv.attrs, st, m, fuel - 1);
        n := n + 1;
      }
    case VList(elems) =>
      if fuel > 0 {
        n, m' := SoundShowList(elems, nv.elems, st, m, fuel - 1);
        n := n + 1;
      }
    case _ =>
  }

  lemma {:induction false} SoundShowCell(c: nat, clo: Closure, st: State, m: Denotation, fuel: nat)
    returns (n: nat, m': Denotation)
    requires Good(st, m) && CellAlias(clo, c, m)
    ensures SameOutput(ShowCell(c, st, fuel).out, ShowClosure(clo, n)) && After(ShowCell(c, st, fuel), m, m')
    decreases fuel, 1, 0
  {
    hide Means, AllFilled, CellAlias, ValRel;
    var n1, m1 := SoundForce(c, clo, st, m, fuel);
    n, m' := n1, m1;
    var r := Force(c, st, fuel);
    if r.out.Ok? {
      var nv := EvalClosure(clo, n1).value;
      var n2, m2 := SoundShow(r.out.value, nv, r.st, m1, fuel);
      n, m' := Max(n1, n2), m2;
      MoreFuelClosure(clo, n1, n);
      if Final(ShowN(nv, n2)) {
        MoreFuelShow(nv, n2, n);
      }
    }
  }

  lemma {:induction false} SoundShowAttrs(attrs: seq<VAttr>, nattrs: seq<NAttr>, st: State, m: Denotation, fuel: nat)
    returns (n: nat, m': Denotation)
    requires Good(st, m) && |attrs| == |nattrs|
    requires forall i :: 0 <= i < |attrs| ==> attrs[i].name == nattrs[i].name
    requires forall i :: 0 <= i < |attrs| ==> CellAlias(nattrs[i].clo, attrs[i].cell, m)
    ensures SameOutput(ShowAttrs(attrs, st, fuel).out, ShowAttrsN(nattrs, n))
    ensures After(ShowAttrs(attrs, st, fuel), m, m')
    decreases fuel, 2, |attrs|
  {
    hide Means, AllFilled, ValRel;
    n, m' := 0, m;
    if attrs != [] {
      assert CellAlias(nattrs[0].clo, attrs[0].cell, m);
      var n1, m1 := SoundShowCell(attrs[0].cell, nattrs[0].clo, st, m, fuel);
      n, m' := n1, m1;
      var r := ShowCell(attrs[0].cell, st, fuel);
      if r.out.Ok? {
        forall i | 0 <= i < |attrs| - 1
          ensures CellAlias(nattrs[1..][i].clo, attrs[1..][i].cell, m1)
        {
          assert CellAlias(nattrs[i + 1].clo, attrs[i + 1].cell, m);
        }
        var n2, m2 := SoundShowAttrs(attrs[1..], nattrs[1..], r.st, m1, fuel);
        n, m' := Max(n1, n2), m2;
        MoreFuelShowClosure(nattrs[0].clo, n1, n);
        if Final(ShowAttrsN(nattrs[1..], n2)) {
          MoreFuelShowAttrs(nattrs[1..], n2, n);
        }
      }
    }
  }

  lemma {:induction false} SoundShowList(elems: seq<nat>, nelems: seq<Closure>, st: State, m: Denotation, fuel: nat)
    returns (n: nat, m': Denotation)
    requires Good(st, m) && |elems| == |nelems|
    requires forall i :: 0 <= i < |elems| ==> CellAlias(nelems[i], elems[i], m)
    ensures SameOutput(ShowList(elems, st, fuel).out, ShowListN(nelems, n)) && After(ShowList(elems, st, fuel), m, m')
    decreases fuel, 2, |elems|
  {
    hide Means, AllFilled, ValRel;
    n, m' := 0, m;
    if elems != [] {
      assert CellAlias(nelems[0], elems[0], m);
      var n1, m1 := SoundShowCell(elems[0], nelems[0], st, m, fuel);
      n, m' := n1, m1;
      var r := ShowCell(elems[0], st, fuel);
      if r.out.Ok? {
        forall i | 0 <= i < |elems| - 1
          ensures CellAlias(nelems[1..][i], elems[1..][i], m1)
        {
          assert CellAlias(nelems[i + 1], elems[i + 1], m);
        }
        var n2, m2 := SoundShowList(elems[1..], nelems[1..], r.st, m1, fuel);
        n, m' := Max(n1, n2), m2;
        MoreFuelShowClosure(nelems[0], n1, n);
        if Final(ShowListN(nelems[1..], n2)) {
          MoreFuelShowList(nelems[1..], n2, n);
        }
      }
    }
  }

  // ---- what the reference prints, the machine prints ----

  lemma {:induction false} ShowKeeps(v: Value, st: State, fuel: nat)
    ensures Keeps(st, Show(v, st, fuel).st)
    decreases fuel, 0, 0
  {
    match v
    case VAttrs(attrs) =>
      if fuel > 0 {
        ShowAttrsKeeps(attrs, st, fuel - 1);
      }
    case VList(elems) =>
      if fuel > 0 {
        ShowListKeeps(elems, st, fuel - 1);
      }
    case _ =>
  }

  lemma {:induction false} ShowCellKeeps(c: nat, st: State, fuel: nat)
    ensures Keeps(st, ShowCell(c, st, fuel).st)
    decreases fuel, 1, 0
  {
    ForceKeeps(c, st, fuel);
    var r := Force(c, st, fuel);
    if r.out.Ok? {
      ShowKeeps(r.out.value, r.st, fuel);
      KeepsTrans(st, r.st, Show(r.out.value, r.st, fuel).st);
    }
  }

  lemma {:induction false} ShowAttrsKeeps(attrs: seq<VAttr>, st: State, fuel: nat)
    ensures Keeps(st, ShowAttrs(attrs, st, fuel).st)
    decreases fuel, 2, |attrs|
  {
    if attrs != [] {
      ShowCellKeeps(attrs[0].cell, st, fuel);
      var r := ShowCell(attrs[0].cell, st, fuel);
      if r.out.Ok? {
        ShowAttrsKeeps(attrs[1..], r.st, fuel);
        KeepsTrans(st, r.st, ShowAttrs(attrs[1..], r.st, fuel).st);
      }
    }
  }

  lemma {:induction false} ShowListKeeps(elems: seq<nat>, st: State, fuel: nat)
    ensures Keeps(st, ShowList(elems, st, fuel).st)
    decreases fuel, 2, |elems|
  {
    if elems != [] {
      ShowCellKeeps(elems[0], st, fuel);
      var r := ShowCell(elems[0], st, fuel);
      if r.out.Ok? {
        ShowListKeeps(elems[1..], r.st, fuel);
        KeepsTrans(st, r.st, ShowList(elems[1..], r.st, fuel).st);
      }
    }
  }

  lemma {:induction false} ProgressShow(v: Value, nv: NValue, st: State, m: Denotation, n: nat, fuel: nat)
    requires Good(st, m) && ValRel(v, nv, m) && Final(ShowN(nv, n)) && Pending(st, m, n + 1)
    ensures Halts(Show(v, st, fuel).out, n, fuel, st)
    decreases n, 0, 0
  {
    hide Means, AllFilled, CellAlias;
    match v
    case VAttrs(attrs) =>
      if fuel > 0 {
        PendingLess(st, m, n + 1, n);
        ProgressShowAttrs(attrs, nv.attrs, st, m, n - 1, fuel - 1);
      }
    case VList(elems) =>
      if fuel > 0 {
        PendingLess(st, m, n + 1, n);
        ProgressShowList(elems, nv.elems, st, m, n - 1, fuel - 1);
      }
    case _ =>
  }

  lemma {:induction false} ProgressShowCell(c: nat, clo: Closure, st: State, m: Denotation, n: nat, fuel: nat)
    requires Good(st, m) && CellAlias(clo, c, m) && Final(ShowClosure(clo, n)) && Pending(st, m, n + 1)
    ensures Halts(ShowCell(c, st, fuel).out, n, fuel, st)
    decreases n, 1, 0
  {
    hide Means, AllFilled, CellAlias, ValRel;
    ProgressForce(c, clo, st, m, n, fuel);
    var n1, m1 := SoundForce(c, clo, st, m, fuel);
    var r := Force(c, st, fuel);
    if r.out.Ok? {
      AgreeClosure(clo, n1, n);
      ForceKeeps(c, st, fuel);
      PendingKept(st, r.st, m, m1, n + 1);
      ProgressShow(r.out.value, EvalClosure(clo, n1).value, r.st, m1, n, fuel);
    }
  }

  lemma {:induction false} ProgressShowAttrs(attrs: seq<VAttr>, nattrs: seq<NAttr>, st: State, m: Denotation, n: nat,
                                             fuel: nat)
    requires Good(st, m) && |attrs| == |nattrs|
    requires forall i :: 0 <= i < |attrs| ==> attrs[i].name == nattrs[i].name
    requires forall i :: 0 <= i < |attrs| ==> CellAlias(nattrs[i].clo, attrs[i].cell, m)
    requires Final(ShowAttrsN(nattrs, n)) && Pending(st, m, n + 1)
    ensures Halts(ShowAttrs(attrs, st, fuel).out, n, fuel, st)
    decreases n, 2, |attrs|
  {
    hide Means, AllFilled, ValRel;
    if attrs != [] {
      assert CellAlias(nattrs[0].clo, attrs[0].cell, m);
      ProgressShowCell(attrs[0].cell, nattrs[0].clo, st, m, n, fuel);
      var n1, m1 := SoundShowCell(attrs[0].cell, nattrs[0].clo, st, m, fuel);
      var r := ShowCell(attrs[0].cell, st, fuel);
      if r.out.Ok? {
        forall i | 0 <= i < |attrs| - 1
          ensures CellAlias(nattrs[1..][i].clo, attrs[1..][i].cell, m1)
        {
          assert CellAlias(nattrs[i + 1].clo, attrs[i + 1].cell, m);
        }
        AgreeShow(nattrs[0].clo, n1, n);
        ShowCellKeeps(attrs[0].cell, st, fuel);
        PendingKept(st, r.st, m, m1, n + 1);
        ProgressShowAttrs(attrs[1..], nattrs[1..], r.st, m1, n, fuel);
      }
    }
  }

  lemma {:induction false} ProgressShowList(elems: seq<nat>, nelems: seq<Closure>, st: State, m: Denotation, n: nat,
                                            fuel: nat)
    requires Good(st, m) && |elems| == |nelems|
    requires forall i :: 0 <= i < |elems| ==> CellAlias(nelems[i], elems[i], m)
    requires Final(ShowListN(nelems, n)) && Pending(st, m, n + 1)
    ensures Halts(ShowList(elems, st, fuel).out, n, fuel, st)
    decreases n, 2, |elems|
  {
    hide Means, AllFilled, ValRel;
    if elems != [] {
      assert CellAlias(nelems[0], elems[0], m);
      ProgressShowCell(elems[0], nelems[0], st, m, n, fuel);
      var n1, m1 := SoundShowCell(elems[0], nelems[0], st, m, fuel);
      var r := ShowCell(elems[0], st, fuel);
      if r.out.Ok? {
        forall i | 0 <= i < |elems| - 1
          ensures CellAlias(nelems[1..][i], elems[1..][i], m1)
        {
          assert CellAlias(nelems[i + 1], elems[i + 1], m);
        }
        AgreeShow(nelems[0], n1, n);
        ShowCellKeeps(elems[0], st, fuel);
        PendingKept(st, r.st, m, m1, n + 1);
        ProgressShowList(elems[1..], nelems[1..], r.st, m1, n, fuel);
      }
    }
  }

  lemma AgreeShow(c: Closure, a: nat, b: nat)
    requires Final(ShowClosure(c, a)) && Final(ShowClosure(c, b))
    ensures ShowClosure(c, a) == ShowClosure(c, b)
  {
    if a <= b {
      MoreFuelShowClosure(c, a, b);
    } else {
      MoreFuelShowClosure(c, b, a);
    }
  }

  // ---- programs ----

  /** The base environment: one filled slot per global name. */
  function InitialState(vars: seq<BaseVar>, maxCallDepth: int): State {
    State(seq(|vars|, i requires 0 <= i < |vars| => Val(VConst(vars[i].c))),
          [Env(None, seq(|vars|, i requires 0 <= i < |vars| => Some(i)))], 0, maxCallDepth)
  }

  /** Evaluates a resolved program in the base environment and prints the result. */
  function RunProgram(e: Expr, vars: seq<BaseVar>, maxCallDepth: int, fuel: nat): Run<Tree> {
    var r := Eval(e, 0, InitialState(vars, maxCallDepth), fuel);
    match r.out
    case Ok(v) => Show(v, r.st, fuel)
    case Err(x) => Run(Err(x), r.st)
  }

  /** What the program means. */
  function MeaningOf(src: Expr, vars: seq<BaseVar>, n: nat): Outcome<Tree> {
    ShowClosure(Clo(src, Base(vars)), n)
  }

  lemma InitialGood(vars: seq<BaseVar>, maxCallDepth: int) returns (m: Denotation)
    requires Distinct(BaseNames(vars))
    ensures Ready(0, InitialState(vars, maxCallDepth), m) && m.envs[0] == Base(vars)
    ensures forall n :: Pending(InitialState(vars, maxCallDepth), m, n)
  {
    var st := InitialState(vars, maxCallDepth);
    m := Denotation(seq(|vars|, i requires 0 <= i < |vars| => Done(NConst(vars[i].c))), [Base(vars)]);
    forall c | 0 <= c < |st.cells|
      ensures CellOk(st.cells[c], m.cells[c], m)
    {
      assert EvalClosure(m.cells[c], 0) == Ok(NConst(vars[c].c));
    }
    forall d | 0 <= d < |vars|
      ensures SlotOk(st.envs[0].values[d], Base(vars), d, m)
    {
      SelfAlias(m.cells[d]);
    }
  }

  /** Everything the machine prints for a program, and every genuine error it reports, is what the
    program means; the machine never reads outside a frame or an empty slot. */
  lemma RunIsMeaning(src: Expr, e: Expr, vars: seq<BaseVar>, maxCallDepth: int, fuel: nat) returns (n: nat)
    requires Distinct(BaseNames(vars)) && WellFormed(src, None) && BindExpr(src, Shape(Base(vars))) == Bound(e)
    ensures SameOutput(RunProgram(e, vars, maxCallDepth, fuel).out, MeaningOf(src, vars, n))
  {
    hide Means, AllFilled, ValRel;
    var st := InitialState(vars, maxCallDepth);
    var m := InitialGood(vars, maxCallDepth);
    var n1, m1 := SoundEval(src, e, 0, st, m, fuel);
    n := n1;
    var clo := Clo(src, Base(vars));
    assert EvalClosure(clo, n1) == EvalN(src, Base(vars), n1);
    var r := Eval(e, 0, st, fuel);
    if r.out.Ok? {
      var nv := EvalN(src, Base(vars), n1).value;
      var n2, m2 := SoundShow(r.out.value, nv, r.st, m1, fuel);
      n := Max(n1, n2);
      MoreFuelClosure(clo, n1, n);
      if Final(ShowN(nv, n2)) {
        MoreFuelShow(nv, n2, n);
      }
    }
  }

  lemma RunHalts(src: Expr, e: Expr, vars: seq<BaseVar>, maxCallDepth: int, n: nat, fuel: nat)
    requires Distinct(BaseNames(vars)) && WellFormed(src, None) && BindExpr(src, Shape(Base(vars))) == Bound(e)
    requires Final(MeaningOf(src, vars, n))
    ensures Halts(RunProgram(e, vars, maxCallDepth, fuel).out, n, fuel, InitialState(vars, maxCallDepth))
  {
    hide Means, AllFilled, ValRel, Show, ShowN;
    var st := InitialState(vars, maxCallDepth);
    var m := InitialGood(vars, maxCallDepth);
    var clo := Clo(src, Base(vars));
    assert EvalClosure(clo, n) == EvalN(src, Base(vars), n);
    assert Pending(st, m, n) && Pending(st, m, n + 1);
    ProgressEval(src, e, 0, st, m, n, fuel);
    var n1, m1 := SoundEval(src, e, 0, st, m, fuel);
    var r := Eval(e, 0, st, fuel);
    if r.out.Ok? {
      Agree(src, Base(vars), n1, n);
      EvalKeeps(e, 0, st, fuel);
      PendingKept(st, r.st, m, m1, n + 1);
      ProgressShow(r.out.value, EvalN(src, Base(vars), n1).value, r.st, m1, n, fuel);
    }
  }

  /** If a program has a meaning, the machine prints it as soon as it has that much fuel, unless the
    call depth limit stops it; and no fuel makes it report infinite recursion. A limit as large as the
    budget of the meaning does not stop it. */
  lemma MeaningIsRun(src: Expr, e: Expr, vars: seq<BaseVar>, maxCallDepth: int, n: nat, fuel: nat)
    requires Distinct(BaseNames(vars)) && WellFormed(src, None) && BindExpr(src, Shape(Base(vars))) == Bound(e)
    requires Final(MeaningOf(src, vars, n))
    ensures RunProgram(e, vars, maxCallDepth, fuel).out != Err(InfiniteRecursion)
    ensures fuel >= n ==>
              || RunProgram(e, vars, maxCallDepth, fuel).out == MeaningOf(src, vars, n)
              || RunProgram(e, vars, maxCallDepth, fuel).out == Err(StackOverflow)
    ensures fuel >= n && n <= maxCallDepth + 1 ==>
              RunProgram(e, vars, maxCallDepth, fuel).out == MeaningOf(src, vars, n)
  {
    hide RunProgram, ShowClosure;
    RunHalts(src, e, vars, maxCallDepth, n, fuel);
    var k := RunIsMeaning(src, e, vars, maxCallDepth, fuel);
    if Final(MeaningOf(src, vars, k)) {
      AgreeShow(Clo(src, Base(vars)), k, n);
    }
  }

  /** Infinite recursion is reported only for programs that have no meaning. */
  lemma InfiniteRecursionIsReal(src: Expr, e: Expr, vars: seq<BaseVar>, maxCallDepth: int, fuel: nat, n: nat)
    requires Distinct(BaseNames(vars)) && WellFormed(src, None) && BindExpr(src, Shape(Base(vars))) == Bound(e)
    requires RunProgram(e, vars, maxCallDepth, fuel).out == Err(InfiniteRecursion)
    ensures MeaningOf(src, vars, n) == Err(OutOfFuel)
  {
    if Final(MeaningOf(src, vars, n)) {
      MeaningIsRun(src, e, vars, maxCallDepth, n, fuel);
      assert false;
    }
  }

  /** Forcing a cell again after it failed with a genuine error, with whatever budget and with all that the
    first attempt left behind in the heap, gives that error again or meets a limit; it never crashes and
    never gives a value. */
  lemma RetryGivesTheSameError(c: nat, clo: Closure, st: State, m: Denotation, fuel: nat, again: nat)
    requires Good(st, m) && CellAlias(clo, c, m)
    requires Force(c, st, fuel).out.Err? && Genuine(Force(c, st, fuel).out.error)
    ensures var first, second := Force(c, st, fuel), Force(c, Force(c, st, fuel).st, again);
            second.out.Err? && second.out.error != Crash && (Genuine(second.out.error) ==> second.out == first.out)
  {
    hide Means, AllFilled, ValRel, CellAlias;
    var n1, m1 := SoundForce(c, clo, st, m, fuel);
    CellAliasExtends(clo, c, m, m1);
    var n2, m2 := SoundForce(c, clo, Force(c, st, fuel).st, m1, again);
    if Final(EvalClosure(clo, n2)) {
      AgreeClosure(clo, n1, n2);
    }
  }

  /** However a program ends, no cell is left black and the call depth is back at zero. */
  lemma RunLeavesNoBlackHole(e: Expr, vars: seq<BaseVar>, maxCallDepth: int, fuel: nat)
    ensures var st := RunProgram(e, vars, maxCallDepth, fuel).st;
            BlackHoles(st) == {} && st.callDepth == 0
  {
    var st := InitialState(vars, maxCallDepth);
    EvalKeeps(e, 0, st, fuel);
    var r := Eval(e, 0, st, fuel);
    if r.out.Ok? {
      ShowKeeps(r.out.value, r.st, fuel);
      KeepsTrans(st, r.st, Show(r.out.value, r.st, fuel).st);
    }
    BlackHolesKept(st, RunProgram(e, vars, maxCallDepth, fuel).st);
  }

  /** `inherit (e) x` means `x = (e).x`: reading attribute `x` through the pseudo-variable of the
    source has the same outcomes as selecting it from the source where that stands. */
  lemma {:induction false} InheritFromMeansSelect(froms: seq<Expr>, d: nat, x: Symbol, s: Scope, n: nat)
    requires d < |froms|
    ensures Final(EvalN(Select(InheritFrom(d), [x], None), InheritFrame(froms, s), n)) ==>
              EvalN(Select(froms[d], [x], None), s, n)
              == EvalN(Select(InheritFrom(d), [x], None), InheritFrame(froms, s), n)
    ensures Final(EvalN(Select(froms[d], [x], None), s, n)) ==>
              EvalN(Select(InheritFrom(d), [x], None), InheritFrame(froms, s), n + 1)
              == EvalN(Select(froms[d], [x], None), s, n)
  {
    if n > 0 {
      var a := EvalN(froms[d], s, n - 1);
      if n > 1 {
        assert EvalN(InheritFrom(d), InheritFrame(froms, s), n - 1) == EvalN(froms[d], s, n - 2);
        if Final(EvalN(froms[d], s, n - 2)) {
          MoreFuel(froms[d], s, n - 2, n - 1);
        }
      }
      assert EvalN(InheritFrom(d), InheritFrame(froms, s), n) == a;
      if a.Ok? {
        SelectScopeFree(a.value, x, InheritFrame(froms, s), s, n - 1);
        SelectScopeFree(a.value, x, InheritFrame(froms, s), s, n);
        if Final(SelectN(a.value, [x], None, s, n - 1)) {
          MoreFuelSelect(a.value, [x], None, s, n - 1, n);
        }
      }
    }
  }

  lemma SelectScopeFree(v: NValue, x: Symbol, s: Scope, t: Scope, n: nat)
    ensures SelectN(v, [x], None, s, n) == SelectN(v, [x], None, t, n)
  {
    if v.NAttrs? && FindAttr(v.attrs, x).Some? {
      var c := FindAttr(v.attrs, x).value;
      assert [x][1..] == [];
    }
  }
}
