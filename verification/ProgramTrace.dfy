/** What a whole program turns to and how deep its calls are, printing included. */
module ProgramTrace {
  import opened Options
  import opened Syntax
  import opened Scoping
  import opened Reference
  import opened Machine
  import opened Runs
  import opened Entries
  import opened Fuel
  import opened Meaning
  import opened Adequacy

  // ---- the entries of printing ----

  function ShowEntries(v: Value, st: State, fuel: nat, at: Context): set<Entry>
    decreases fuel, 0, 0
  {
    match v
    case VAttrs(attrs) => if fuel == 0 then {} else CellsEntries(AttrCells(attrs), st, fuel - 1, at)
    case VList(elems) => if fuel == 0 then {} else CellsEntries(elems, st, fuel - 1, at)
    case _ => {}
  }

  function CellEntries(c: nat, st: State, fuel: nat, at: Context): set<Entry>
    decreases fuel, 1, 0
  {
    var r := Force(c, st, fuel);
    ForceEntries(c, st, fuel, at) + if r.out.Ok? then ShowEntries(r.out.value, r.st, fuel, at) else {}
  }

  function CellsEntries(cells: seq<nat>, st: State, fuel: nat, at: Context): set<Entry>
    decreases fuel, 2, |cells|
  {
    if cells == [] then {}
    else
      var r := ShowCell(cells[0], st, fuel);
      CellEntries(cells[0], st, fuel, at) + if r.out.Ok? then CellsEntries(cells[1..], r.st, fuel, at) else {}
  }

  function AttrCells(attrs: seq<VAttr>): seq<nat> {
    seq(|attrs|, i requires 0 <= i < |attrs| => attrs[i].cell)
  }

  lemma {:induction false} TraceShow(v: Value, st: State, fuel: nat, at: Context)
    requires At(st, at)
    ensures Traced(ShowEntries(v, st, fuel, at), at, Show(v, st, fuel).out)
    decreases fuel, 0, 0
  {
    hide Traced, At;
    var last := Show(v, st, fuel).out;
    if fuel > 0 && v.VAttrs? {
      TraceAttrs(v.attrs, st, fuel - 1, at);
      TracedFirst(ShowEntries(v, st, fuel, at), at, ShowAttrs(v.attrs, st, fuel - 1).out, last);
    } else if fuel > 0 && v.VList? {
      TraceList(v.elems, st, fuel - 1, at);
      TracedFirst(ShowEntries(v, st, fuel, at), at, ShowList(v.elems, st, fuel - 1).out, last);
    } else {
      TracedNone(at, last);
    }
  }

  lemma {:induction false} TraceCell(c: nat, st: State, fuel: nat, at: Context)
    requires At(st, at)
    ensures Traced(CellEntries(c, st, fuel, at), at, ShowCell(c, st, fuel).out)
    decreases fuel, 1, 0
  {
    hide Traced, At;
    var last := ShowCell(c, st, fuel).out;
    TraceForce(c, st, fuel, at);
    var r := Force(c, st, fuel);
    var es := ForceEntries(c, st, fuel, at);
    if r.out.Ok? {
      ForceKeeps(c, st, fuel);
      BlackAfter(st, r.st, at);
      TraceShow(r.out.value, r.st, fuel, at);
      TracedBoth(es, ShowEntries(r.out.value, r.st, fuel, at), at, r.out, last);
    } else {
      TracedFirst(es, at, r.out, last);
      assert es + {} == es;
    }
  }

  lemma {:induction false} TraceAttrs(attrs: seq<VAttr>, st: State, fuel: nat, at: Context)
    requires At(st, at)
    ensures Traced(CellsEntries(AttrCells(attrs), st, fuel, at), at, ShowAttrs(attrs, st, fuel).out)
    decreases fuel, 2, |attrs|
  {
    hide Traced, At;
    var last := ShowAttrs(attrs, st, fuel).out;
    if attrs == [] {
      TracedNone(at, last);
    } else {
      var c := attrs[0].cell;
      TraceCell(c, st, fuel, at);
      var r := ShowCell(c, st, fuel);
      var es := CellEntries(c, st, fuel, at);
      if r.out.Ok? {
        ShowCellKeeps(c, st, fuel);
        BlackAfter(st, r.st, at);
        TraceAttrs(attrs[1..], r.st, fuel, at);
        assert AttrCells(attrs)[1..] == AttrCells(attrs[1..]);
        var fs := CellsEntries(AttrCells(attrs[1..]), r.st, fuel, at);
        TracedFirst(fs, at, ShowAttrs(attrs[1..], r.st, fuel).out, last);
        TracedBoth(es, fs, at, r.out, last);
      } else {
        TracedFirst(es, at, r.out, last);
        assert es + {} == es;
      }
    }
  }

  lemma {:induction false} TraceList(elems: seq<nat>, st: State, fuel: nat, at: Context)
    requires At(st, at)
    ensures Traced(CellsEntries(elems, st, fuel, at), at, ShowList(elems, st, fuel).out)
    decreases fuel, 2, |elems|
  {
    hide Traced, At;
    var last := ShowList(elems, st, fuel).out;
    if elems == [] {
      TracedNone(at, last);
    } else {
      TraceCell(elems[0], st, fuel, at);
      var r := ShowCell(elems[0], st, fuel);
      var es := CellEntries(elems[0], st, fuel, at);
      if r.out.Ok? {
        ShowCellKeeps(elems[0], st, fuel);
        BlackAfter(st, r.st, at);
        TraceList(elems[1..], r.st, fuel, at);
        var fs := CellsEntries(elems[1..], r.st, fuel, at);
        TracedFirst(fs, at, ShowList(elems[1..], r.st, fuel).out, last);
        TracedBoth(es, fs, at, r.out, last);
      } else {
        TracedFirst(es, at, r.out, last);
        assert es + {} == es;
      }
    }
  }

  // ---- programs ----

  /** All that a program turns to and all calls that it begins. */
  function ProgramEntries(e: Expr, vars: seq<BaseVar>, limit: int, fuel: nat): set<Entry> {
    var at := Context({}, 0, limit);
    var r := Eval(e, 0, InitialState(vars, limit), fuel);
    EvalEntries(e, 0, InitialState(vars, limit), fuel, at)
    + if r.out.Ok? then ShowEntries(r.out.value, r.st, fuel, at) else {}
  }

  /** Somewhere in the program a call begins while more than `limit` calls are open. */
  ghost predicate NestsTooDeep(e: Expr, vars: seq<BaseVar>, limit: int, fuel: nat) {
    exists x :: x in ProgramEntries(e, vars, limit, fuel) && x.Called? && x.at.open > limit
  }

  lemma TraceProgram(e: Expr, vars: seq<BaseVar>, limit: int, fuel: nat)
    ensures Traced(ProgramEntries(e, vars, limit, fuel), Context({}, 0, limit), RunProgram(e, vars, limit, fuel).out)
  {
    var at, st := Context({}, 0, limit), InitialState(vars, limit);
    assert At(st, at);
    hide Traced, At;
    TraceEval(e, 0, st, fuel, at);
    var last := RunProgram(e, vars, limit, fuel).out;
    var r := Eval(e, 0, st, fuel);
    var es := EvalEntries(e, 0, st, fuel, at);
    if r.out.Ok? {
      EvalKeeps(e, 0, st, fuel);
      BlackAfter(st, r.st, at);
      TraceShow(r.out.value, r.st, fuel, at);
      TracedBoth(es, ShowEntries(r.out.value, r.st, fuel, at), at, r.out, last);
    } else {
      TracedFirst(es, at, r.out, last);
      assert es + {} == es;
    }
  }

  /** A program ends with a stack overflow if and only if its calls nest too deep, and with infinite
    recursion if and only if it turns to a cell that is being computed. */
  lemma HowProgramsFail(e: Expr, vars: seq<BaseVar>, limit: int, fuel: nat)
    ensures RunProgram(e, vars, limit, fuel).out == Err(StackOverflow) <==> NestsTooDeep(e, vars, limit, fuel)
    ensures RunProgram(e, vars, limit, fuel).out == Err(InfiniteRecursion)
            <==> exists x :: x in ProgramEntries(e, vars, limit, fuel) && Reentry(x)
  {
    TraceProgram(e, vars, limit, fuel);
    var es := ProgramEntries(e, vars, limit, fuel);
    assert forall x :: x in es ==> x.at.limit == limit;
    hide RunProgram, ProgramEntries;
  }

  /** A program that has a meaning is evaluated to exactly that, or its calls nest too deep and it ends with
    a stack overflow. */
  lemma MeaningUnlessTooDeep(src: Expr, e: Expr, vars: seq<BaseVar>, limit: int, n: nat, fuel: nat)
    requires Distinct(BaseNames(vars)) && WellFormed(src, None) && BindExpr(src, Shape(Base(vars))) == Bound(e)
    requires Final(MeaningOf(src, vars, n)) && fuel >= n
    ensures RunProgram(e, vars, limit, fuel).out
            == if NestsTooDeep(e, vars, limit, fuel) then Err(StackOverflow) else MeaningOf(src, vars, n)
  {
    hide RunProgram, MeaningOf, NestsTooDeep, BindExpr;
    MeaningIsRun(src, e, vars, limit, n, fuel);
    HowProgramsFail(e, vars, limit, fuel);
  }
}
