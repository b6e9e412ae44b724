/** The scope of an interactive session: a static frame that grows, and the run-time frame it describes. */
module ReplScope {
  import opened Options
  import opened Syntax
  import opened Scoping

  type Ptr = nat

  /** The number of slots in the frame of a session. */
  const ENV_SIZE := 32768

  datatype Binding = Binding(name: Symbol, value: Ptr)

  /** Slot of the last entry with the given name. */
  function LastSlot(vars: seq<StaticVar>, name: Symbol): Option<nat> {
    if vars == [] then None
    else
      var r := LastSlot(vars[1..], name);
      if r.Some? then r else if vars[0].name == name then Some(vars[0].displ) else None
  }

  /** Value of the last binding of a name. */
  function LastValue(bs: seq<Binding>, name: Symbol): Option<Ptr> {
    if bs == [] then None
    else if bs[|bs| - 1].name == name then Some(bs[|bs| - 1].value)
    else LastValue(bs[..|bs| - 1], name)
  }

  ghost predicate StrictlySorted(vars: seq<StaticVar>) {
    forall i, j :: 0 <= i < j < |vars| ==> vars[i].name < vars[j].name
  }

  // ---- stable sorting keeps the last entry of a name last ----

  lemma {:induction false} LastSlotNone(vars: seq<StaticVar>, name: Symbol)
    requires forall i :: 0 <= i < |vars| ==> vars[i].name != name
    ensures LastSlot(vars, name) == None
  {
    if vars != [] {
      LastSlotNone(vars[1..], name);
    }
  }

  lemma {:induction false} LastSlotSnoc(vars: seq<StaticVar>, v: StaticVar, name: Symbol)
    ensures LastSlot(vars + [v], name) == if v.name == name then Some(v.displ) else LastSlot(vars, name)
  {
    if vars == [] {
      assert vars + [v] == [v] && [v][1..] == [];
    } else {
      assert (vars + [v])[1..] == vars[1..] + [v];
      LastSlotSnoc(vars[1..], v, name);
    }
  }

  lemma {:induction false} LastSlotInsert(v: StaticVar, vars: seq<StaticVar>, name: Symbol)
    requires SortedVars(vars)
    ensures LastSlot(InsertVar(v, vars), name) == if v.name == name then Some(v.displ) else LastSlot(vars, name)
  {
    if vars == [] {
      assert [v][1..] == [];
    } else if v.name < vars[0].name {
      assert ([v] + vars)[1..] == vars;
      LastSlotNone(vars, v.name);
    } else {
      LastSlotInsert(v, vars[1..], name);
      assert InsertVar(v, vars)[1..] == InsertVar(v, vars[1..]);
    }
  }

  lemma {:induction false} LastSlotSort(vars: seq<StaticVar>, name: Symbol)
    ensures LastSlot(SortVars(vars), name) == LastSlot(vars, name)
  {
    if vars != [] {
      hide LastSlot, InsertVar;
      var init, last := vars[..|vars| - 1], vars[|vars| - 1];
      LastSlotSort(init, name);
      SortVarsSorts(init);
      LastSlotInsert(last, SortVars(init), name);
      LastSlotSnoc(init, last, name);
      assert vars == init + [last];
    }
  }

  // ---- removing duplicates keeps the last entry of a name ----

  function Dedup(vars: seq<StaticVar>): seq<StaticVar> {
    if |vars| <= 1 then vars
    else if vars[0].name == vars[1].name then Dedup(vars[1..])
    else [vars[0]] + Dedup(vars[1..])
  }

  lemma {:induction false} DedupFrom(vars: seq<StaticVar>)
    ensures forall x :: x in Dedup(vars) ==> x in vars
    ensures |Dedup(vars)| <= |vars|
  {
    if |vars| > 1 {
      DedupFrom(vars[1..]);
    }
  }

  lemma {:induction false} DedupSorts(vars: seq<StaticVar>)
    requires SortedVars(vars)
    ensures StrictlySorted(Dedup(vars))
  {
    if |vars| > 1 {
      var rest := vars[1..];
      DedupSorts(rest);
      DedupFrom(rest);
      if vars[0].name != rest[0].name {
        forall i | 0 <= i < |Dedup(rest)|
          ensures vars[0].name < Dedup(rest)[i].name
        {
          assert Dedup(rest)[i] in rest;
        }
      }
    }
  }

  /** After removing duplicates what is found is the last entry of a name. */
  lemma {:induction false} DedupFindsLast(vars: seq<StaticVar>, name: Symbol)
    requires SortedVars(vars)
    ensures FindVar(Dedup(vars), name) == LastSlot(vars, name)
  {
    if |vars| == 1 {
      assert vars[1..] == [];
    } else if |vars| > 1 {
      var rest := vars[1..];
      assert SortedVars(rest);
      DedupFindsLast(rest, name);
      if vars[0].name == rest[0].name {
        SomeSlot(rest, 0);
      } else {
        assert Dedup(vars)[1..] == Dedup(rest);
        if name == vars[0].name {
          LastSlotNone(rest, name);
        }
      }
    }
  }

  lemma {:induction false} SomeSlot(vars: seq<StaticVar>, i: nat)
    requires i < |vars|
    ensures LastSlot(vars, vars[i].name).Some?
  {
    if i > 0 {
      SomeSlot(vars[1..], i - 1);
    }
  }

  lemma DedupSkip(x: StaticVar, rest: seq<StaticVar>)
    requires rest != [] && x.name == rest[0].name
    ensures Dedup([x] + rest) == Dedup(rest)
  {
    assert ([x] + rest)[1..] == rest;
  }

  lemma DedupKeep(x: StaticVar, rest: seq<StaticVar>)
    requires rest == [] || x.name != rest[0].name
    ensures Dedup([x] + rest) == [x] + Dedup(rest)
  {
    assert ([x] + rest)[1..] == rest;
  }

  lemma DedupNothing()
    ensures Dedup([]) == []
  {
  }

  /** Removing duplicates in place, with one index to write and one to read. */
  method Deduplicate(vars: seq<StaticVar>) returns (r: seq<StaticVar>)
    ensures r == Dedup(vars)
  {
    hide Dedup;
    r := vars;
    var it, jt := 0, 0;
    ghost var done := [];
    assert vars[0..] == vars;
    while jt < |vars|
      invariant it <= jt <= |vars| == |r| && r[jt..] == vars[jt..] && done == r[..it]
      invariant done + Dedup(vars[jt..]) == Dedup(vars)
    {
      assert vars[jt..] == [vars[jt]] + vars[jt + 1..] && r[jt] == r[jt..][0];
      r := r[it := r[jt]];
      jt := jt + 1;
      while jt < |vars| && r[it].name == r[jt].name
        invariant it < jt <= |vars| == |r| && r[jt..] == vars[jt..] && done == r[..it]
        invariant done + Dedup([r[it]] + vars[jt..]) == Dedup(vars)
      {
        assert vars[jt..] == [vars[jt]] + vars[jt + 1..] && r[jt] == r[jt..][0];
        DedupSkip(r[it], vars[jt..]);
        r := r[it := r[jt]];
        jt := jt + 1;
      }
      if jt < |vars| {
        assert r[jt] == r[jt..][0];
      }
      DedupKeep(r[it], vars[jt..]);
      ghost var rest := Dedup(vars[jt..]);
      assert done + ([r[it]] + rest) == (done + [r[it]]) + rest;
      done := done + [r[it]];
      assert r[..it + 1] == done;
      it := it + 1;
    }
    assert vars[|vars|..] == [];
    DedupNothing();
    r := r[..it];
  }

  // ---- the session as a value ----

  /** `values` are the filled slots. */
  datatype Scope = Scope(vars: seq<StaticVar>, values: seq<Ptr>)

  datatype Op = AddAttrs(attrs: seq<Binding>) | AddVar(b: Binding) | Reset

  /** What the names of a scope refer to. */
  ghost predicate Valid(s: Scope) {
    && |s.values| <= ENV_SIZE && StrictlySorted(s.vars)
    && forall i :: 0 <= i < |s.vars| ==> s.vars[i].displ < |s.values|
  }

  function Lookup(s: Scope, name: Symbol): Option<Ptr> {
    var slot := FindVar(s.vars, name);
    if slot.Some? && slot.value < |s.values| then Some(s.values[slot.value]) else None
  }

  function Values(bs: seq<Binding>): seq<Ptr> {
    seq(|bs|, i requires 0 <= i < |bs| => bs[i].value)
  }

  function NewVars(bs: seq<Binding>, displ: nat): seq<StaticVar> {
    seq(|bs|, i requires 0 <= i < |bs| => StaticVar(bs[i].name, displ + i))
  }

  function Without(vars: seq<StaticVar>, name: Symbol): seq<StaticVar> {
    if vars == [] then [] else (if vars[0].name == name then [] else [vars[0]]) + Without(vars[1..], name)
  }

  /** One operation; it changes nothing when the frame would be full. */
  function Do(s: Scope, op: Op): Scope {
    match op
    case AddAttrs(attrs) =>
      if |s.values| + |attrs| >= ENV_SIZE then s
      else Scope(Dedup(SortVars(s.vars + NewVars(attrs, |s.values|))), s.values + Values(attrs))
    case AddVar(b) =>
      if |s.values| >= ENV_SIZE then s
      else Scope(SortVars(Without(s.vars, b.name) + [StaticVar(b.name, |s.values|)]), s.values + [b.value])
    case Reset => Scope([], [])
  }

  function Run(ops: seq<Op>): Scope {
    if ops == [] then Scope([], []) else Do(Run(ops[..|ops| - 1]), ops[|ops| - 1])
  }

  // ---- the session as a log of bindings ----

  /** The bindings that were accepted since the last reset. */
  function Log(ops: seq<Op>): seq<Binding> {
    if ops == [] then []
    else
      var before := Log(ops[..|ops| - 1]);
      match ops[|ops| - 1]
      case AddAttrs(attrs) => if |before| + |attrs| >= ENV_SIZE then before else before + attrs
      case AddVar(b) => if |before| >= ENV_SIZE then before else before + [b]
      case Reset => []
  }

  /** Every name refers to the slot of its last binding in the log. */
  ghost predicate Follows(s: Scope, log: seq<Binding>) {
    && Valid(s) && s.values == Values(log)
    && forall name :: FindVar(s.vars, name) == LastSlot(NewVars(log, 0), name)
  }

  lemma {:induction false} LastSlotConcat(a: seq<StaticVar>, b: seq<StaticVar>, name: Symbol)
    ensures LastSlot(a + b, name) == var r := LastSlot(b, name); if r.Some? then r else LastSlot(a, name)
  {
    if a == [] {
      assert a + b == b;
    } else {
      assert (a + b)[1..] == a[1..] + b;
      LastSlotConcat(a[1..], b, name);
    }
  }

  lemma {:induction false} FindIsLast(vars: seq<StaticVar>, name: Symbol)
    requires StrictlySorted(vars)
    ensures FindVar(vars, name) == LastSlot(vars, name)
  {
    if vars != [] {
      FindIsLast(vars[1..], name);
      if vars[0].name == name {
        LastSlotNone(vars[1..], name);
      }
    }
  }

  lemma SortBound(vars: seq<StaticVar>, n: nat)
    requires forall i :: 0 <= i < |vars| ==> vars[i].displ < n
    ensures forall i :: 0 <= i < |SortVars(vars)| ==> SortVars(vars)[i].displ < n
  {
    SortVarsElements(vars);
    forall i | 0 <= i < |SortVars(vars)|
      ensures SortVars(vars)[i].displ < n
    {
      assert SortVars(vars)[i] in vars;
    }
  }

  lemma NewVarsConcat(log: seq<Binding>, attrs: seq<Binding>)
    ensures NewVars(log + attrs, 0) == NewVars(log, 0) + NewVars(attrs, |log|)
    ensures Values(log + attrs) == Values(log) + Values(attrs)
  {
  }

  lemma AddAttrsFollows(s: Scope, log: seq<Binding>, attrs: seq<Binding>)
    requires Follows(s, log) && |log| + |attrs| < ENV_SIZE
    ensures Follows(Do(s, AddAttrs(attrs)), log + attrs)
  {
    var added := s.vars + NewVars(attrs, |log|);
    var sorted := SortVars(added);
    NewVarsConcat(log, attrs);
    SortVarsSorts(added);
    SortBound(added, |log| + |attrs|);
    DedupFrom(sorted);
    DedupSorts(sorted);
    forall name
      ensures FindVar(Dedup(sorted), name) == LastSlot(NewVars(log + attrs, 0), name)
    {
      DedupFindsLast(sorted, name);
      LastSlotSort(added, name);
      LastSlotConcat(s.vars, NewVars(attrs, |log|), name);
      LastSlotConcat(NewVars(log, 0), NewVars(attrs, |log|), name);
      FindIsLast(s.vars, name);
    }
    forall i | 0 <= i < |Dedup(sorted)|
      ensures Dedup(sorted)[i].displ < |log| + |attrs|
    {
      assert Dedup(sorted)[i] in sorted;
    }
  }

  lemma {:induction false} WithoutMembers(vars: seq<StaticVar>, gone: Symbol)
    ensures forall x :: x in Without(vars, gone) <==> x in vars && x.name != gone
  {
    if vars != [] {
      WithoutMembers(vars[1..], gone);
      assert vars == [vars[0]] + vars[1..];
    }
  }

  lemma {:induction false} WithoutSorted(vars: seq<StaticVar>, gone: Symbol)
    requires StrictlySorted(vars)
    ensures StrictlySorted(Without(vars, gone))
  {
    if vars != [] {
      var rest := vars[1..];
      WithoutSorted(rest, gone);
      WithoutMembers(rest, gone);
      var r := Without(rest, gone);
      forall i | 0 <= i < |r|
        ensures vars[0].name < r[i].name
      {
        assert r[i] in rest;
      }
    }
  }

  lemma {:induction false} WithoutLast(vars: seq<StaticVar>, gone: Symbol, name: Symbol)
    ensures LastSlot(Without(vars, gone), name) == if name == gone then None else LastSlot(vars, name)
  {
    if vars != [] {
      var r := Without(vars[1..], gone);
      WithoutLast(vars[1..], gone, name);
      if vars[0].name != gone {
        assert Without(vars, gone) == [vars[0]] + r && ([vars[0]] + r)[1..] == r;
      } else {
        assert Without(vars, gone) == r;
      }
    }
  }

  lemma {:induction false} InsertNewSorts(v: StaticVar, vars: seq<StaticVar>)
    requires StrictlySorted(vars) && forall i :: 0 <= i < |vars| ==> vars[i].name != v.name
    ensures StrictlySorted(InsertVar(v, vars))
    ensures forall x :: x in InsertVar(v, vars) ==> x == v || x in vars
  {
    if vars != [] && v.name > vars[0].name {
      InsertNewSorts(v, vars[1..]);
      var r := InsertVar(v, vars[1..]);
      assert forall i :: 0 <= i < |r| ==> r[i] in r;
      assert forall x :: x in vars[1..] ==> x.name > vars[0].name;
    }
  }

  lemma {:induction false} SortSorted(vars: seq<StaticVar>)
    requires StrictlySorted(vars)
    ensures SortVars(vars) == vars
  {
    if vars != [] {
      var init, last := vars[..|vars| - 1], vars[|vars| - 1];
      SortSorted(init);
      InsertAtEnd(last, init);
      assert vars == init + [last];
    }
  }

  lemma {:induction false} InsertAtEnd(v: StaticVar, vars: seq<StaticVar>)
    requires forall i :: 0 <= i < |vars| ==> vars[i].name <= v.name
    ensures InsertVar(v, vars) == vars + [v]
  {
    if vars != [] {
      InsertAtEnd(v, vars[1..]);
      assert [vars[0]] + (vars[1..] + [v]) == vars + [v];
    }
  }

  /** Replacing the entry of a name. */
  lemma ReplaceEntry(vars: seq<StaticVar>, v: StaticVar)
    requires StrictlySorted(vars)
    ensures SortVars(Without(vars, v.name) + [v]) == InsertVar(v, Without(vars, v.name))
    ensures StrictlySorted(InsertVar(v, Without(vars, v.name))) && StrictlySorted(Without(vars, v.name))
    ensures forall x :: x in InsertVar(v, Without(vars, v.name)) ==> x == v || x in vars
  {
    hide Without, InsertVar;
    var rest := Without(vars, v.name);
    WithoutSorted(vars, v.name);
    WithoutMembers(vars, v.name);
    SortSorted(rest);
    assert (rest + [v])[..|rest|] == rest;
    forall i | 0 <= i < |rest|
      ensures rest[i].name != v.name
    {
      assert rest[i] in rest;
    }
    InsertNewSorts(v, rest);
  }

  lemma AddVarIsValid(s: Scope, b: Binding)
    requires Valid(s) && |s.values| < ENV_SIZE
    ensures Valid(Do(s, AddVar(b)))
  {
    hide Without, InsertVar, SortVars;
    var v := StaticVar(b.name, |s.values|);
    ReplaceEntry(s.vars, v);
    var vars := Do(s, AddVar(b)).vars;
    forall i | 0 <= i < |vars|
      ensures vars[i].displ <= |s.values|
    {
      assert vars[i] in vars;
    }
  }

  lemma AddVarFinds(vars: seq<StaticVar>, b: StaticVar, name: Symbol)
    requires StrictlySorted(vars)
    ensures FindVar(SortVars(Without(vars, b.name) + [b]), name)
            == if name == b.name then Some(b.displ) else FindVar(vars, name)
  {
    hide Without, InsertVar, FindVar, LastSlot, SortVars;
    var rest := Without(vars, b.name);
    ReplaceEntry(vars, b);
    FindIsLast(InsertVar(b, rest), name);
    LastSlotInsert(b, rest, name);
    WithoutLast(vars, b.name, name);
    FindIsLast(vars, name);
  }

  lemma AddVarFollows(s: Scope, log: seq<Binding>, b: Binding)
    requires Follows(s, log) && |log| < ENV_SIZE
    ensures Follows(Do(s, AddVar(b)), log + [b])
  {
    hide Valid, Without, SortVars, FindVar, LastSlot;
    AddVarIsValid(s, b);
    ValidSorted(s);
    var v := StaticVar(b.name, |log|);
    NewVarsConcat(log, [b]);
    assert NewVars([b], |log|) == [v] && Values([b]) == [b.value];
    forall name
      ensures FindVar(Do(s, AddVar(b)).vars, name) == LastSlot(NewVars(log + [b], 0), name)
    {
      AddVarFinds(s.vars, v, name);
      LastSlotSnoc(NewVars(log, 0), v, name);
    }
  }

  lemma ValidSorted(s: Scope)
    requires Valid(s)
    ensures StrictlySorted(s.vars)
  {
  }

  /** After any session the scope is what the log says. */
  lemma {:induction false} RunFollowsLog(ops: seq<Op>)
    ensures Follows(Run(ops), Log(ops))
  {
    hide Follows;
    if ops == [] {
      EmptyFollows();
    } else {
      var before, log := Run(ops[..|ops| - 1]), Log(ops[..|ops| - 1]);
      RunFollowsLog(ops[..|ops| - 1]);
      FollowsLength(before, log);
      match ops[|ops| - 1]
      case AddAttrs(attrs) =>
        if |log| + |attrs| < ENV_SIZE {
          AddAttrsFollows(before, log, attrs);
        }
      case AddVar(b) =>
        if |log| < ENV_SIZE {
          AddVarFollows(before, log, b);
        }
      case Reset => EmptyFollows();
    }
  }

  lemma EmptyFollows()
    ensures Follows(Scope([], []), [])
  {
  }

  lemma FollowsLength(s: Scope, log: seq<Binding>)
    requires Follows(s, log)
    ensures |s.values| == |log|
  {
  }

  lemma {:induction false} LastSlotIsLastValue(log: seq<Binding>, name: Symbol)
    ensures var slot := LastSlot(NewVars(log, 0), name);
            && (slot.Some? ==> slot.value < |log|)
            && LastValue(log, name) == if slot.Some? then Some(log[slot.value].value) else None
  {
    if log != [] {
      var init, last := log[..|log| - 1], log[|log| - 1];
      LastSlotIsLastValue(init, name);
      NewVarsConcat(init, [last]);
      assert log == init + [last];
      assert NewVars([last], |init|) == [StaticVar(last.name, |init|)];
      LastSlotSnoc(NewVars(init, 0), StaticVar(last.name, |init|), name);
    }
  }

  /** A session is a map in which the latest binding of a name wins, and its slots stay in the frame. */
  lemma LatestBindingWins(ops: seq<Op>, name: Symbol)
    ensures Lookup(Run(ops), name) == LastValue(Log(ops), name)
    ensures |Run(ops).values| <= ENV_SIZE
  {
    RunFollowsLog(ops);
    LastSlotIsLastValue(Log(ops), name);
  }

  lemma OnlyNewSlots(s: Scope, op: Op)
    requires op != Reset
    ensures s.values <= Do(s, op).values
  {
  }

  /** A slot that was resolved earlier still holds the same value: until the next reset, operations only
    fill new slots. */
  lemma {:induction false} FilledSlotsStay(before: seq<Op>, after: seq<Op>)
    requires Reset !in after
    ensures Run(before).values <= Run(before + after).values
    decreases |after|
  {
    if after == [] {
      assert before + after == before;
    } else {
      var init := after[..|after| - 1];
      hide Do;
      assert after == init + [after[|after| - 1]];
      assert Reset !in init && after[|after| - 1] in after;
      FilledSlotsStay(before, init);
      OnlyNewSlots(Run(before + init), after[|after| - 1]);
      assert (before + after)[..|before + after| - 1] == before + init;
    }
  }

  // ---- the code ----

  class Repl {
    var vars: seq<StaticVar>
    var values: array<Ptr>
    var displ: nat

    ghost function State(): Scope
      requires displ <= values.Length
      reads this, values
    {
      Scope(vars, values[..displ])
    }

    ghost predicate Ok()
      reads this, values
    {
      displ <= values.Length == ENV_SIZE && Valid(State())
    }

    constructor ()
      ensures Ok() && fresh(values) && State() == Scope([], [])
    {
      vars, displ := [], 0;
      values := new Ptr[ENV_SIZE];
    }

    /** A new frame; the old one is left as it is. */
    method InitEnv()
      modifies this
      ensures Ok() && fresh(values) && State() == Do(Scope([], []), Reset)
    {
      vars, displ := [], 0;
      values := new Ptr[ENV_SIZE];
    }

    method AddAttrsToScope(attrs: seq<Binding>) returns (ok: bool)
      requires Ok()
      modifies this, values
      ensures Ok() && values == old(values) && State() == Do(old(State()), AddAttrs(attrs))
      ensures ok <==> old(displ) + |attrs| < ENV_SIZE
      ensures displ >= old(displ) && values[..old(displ)] == old(values[..displ])
    {
      if displ + |attrs| >= ENV_SIZE {
        return false;
      }
      ghost var start, filled := displ, values[..displ];
      var vars' := vars;
      var i := 0;
      while i < |attrs|
        invariant i <= |attrs| && displ == start + i && values == old(values) && vars == old(vars)
        invariant vars' == vars + NewVars(attrs[..i], start)
        invariant values[..displ] == filled + Values(attrs[..i])
      {
        assert attrs[..i + 1] == attrs[..i] + [attrs[i]];
        assert NewVars(attrs[..i + 1], start) == NewVars(attrs[..i], start) + [StaticVar(attrs[i].name, displ)];
        assert Values(attrs[..i + 1]) == Values(attrs[..i]) + [attrs[i].value];
        vars' := vars' + [StaticVar(attrs[i].name, displ)];
        values[displ] := attrs[i].value;
        displ := displ + 1;
        assert values[..displ] == values[..displ - 1] + [attrs[i].value];
        i := i + 1;
      }
      assert attrs[..|attrs|] == attrs;
      DoIsValid(old(State()), AddAttrs(attrs));
      vars := Deduplicate(SortVars(vars'));
      assert values[..start] == values[..displ][..start];
      return true;
    }

    method AddVarToScope(name: Symbol, v: Ptr) returns (ok: bool)
      requires Ok()
      modifies this, values
      ensures Ok() && values == old(values) && State() == Do(old(State()), AddVar(Binding(name, v)))
      ensures ok <==> old(displ) < ENV_SIZE
      ensures displ >= old(displ) && values[..old(displ)] == old(values[..displ])
    {
      if displ >= ENV_SIZE {
        return false;
      }
      DoIsValid(State(), AddVar(Binding(name, v)));
      vars := SortVars(Without(vars, name) + [StaticVar(name, displ)]);
      values[displ] := v;
      displ := displ + 1;
      assert values[..displ] == old(values[..displ]) + [v];
      return true;
    }
  }

  lemma DoIsValid(s: Scope, op: Op)
    requires Valid(s)
    ensures Valid(Do(s, op))
  {
    match op
    case AddAttrs(attrs) =>
      if |s.values| + |attrs| < ENV_SIZE {
        var added := s.vars + NewVars(attrs, |s.values|);
        SortVarsSorts(added);
        SortBound(added, |s.values| + |attrs|);
        DedupSorts(SortVars(added));
        DedupFrom(SortVars(added));
        forall i | 0 <= i < |Dedup(SortVars(added))|
          ensures Dedup(SortVars(added))[i].displ < |s.values| + |attrs|
        {
          assert Dedup(SortVars(added))[i] in SortVars(added);
        }
      }
    case AddVar(b) =>
      if |s.values| < ENV_SIZE {
        AddVarIsValid(s, b);
      }
    case Reset =>
  }
}
