/** Delaying expressions and building frames gives cells and environments their intended meaning. */
module Frames {
  import opened Options
  import opened Syntax
  import opened Scoping
  import opened Reference
  import opened Machine
  import opened Meaning

  lemma SelfAlias(c: Closure)
    ensures Alias(c, c)
  {
    assert AliasIn(c, c, 0);
  }

  lemma StepAlias(a: Closure, b: Closure)
    requires VarTarget(a).Some? && Alias(VarTarget(a).value, b)
    ensures Alias(a, b)
  {
    var k: nat :| AliasIn(VarTarget(a).value, b, k);
    assert AliasIn(a, b, k + 1);
  }

  lemma NewThunkMeans(src: Expr, e: Expr, env: nat, st: State, m: Denotation) returns (m': Denotation)
    requires Means(st, m) && InUse(env, st, m) && BoundTo(src, m.envs[env], e)
    ensures var a := NewCell(Thunk(env, e), st);
            Means(a.st, m') && Extends(m, m') && m'.envs == m.envs && CellAlias(Clo(src, m.envs[env]), a.id, m')
  {
    var c := Clo(src, m.envs[env]);
    NewCellMeans(Thunk(env, e), c, st, m);
    m' := m.(cells := m.cells + [c]);
    SelfAlias(c);
  }

  lemma NewValueMeans(src: Expr, v: Value, env: nat, nv: NValue, st: State, m: Denotation) returns (m': Denotation)
    requires Means(st, m) && InUse(env, st, m)
    requires EvalN(src, m.envs[env], 1) == Ok(nv) && ValRel(v, nv, m)
    ensures var a := NewCell(Val(v), st);
            Means(a.st, m') && Extends(m, m') && m'.envs == m.envs && CellAlias(Clo(src, m.envs[env]), a.id, m')
  {
    var c := Clo(src, m.envs[env]);
    assert EvalClosure(c, 1) == Ok(nv);
    NewCellMeans(Val(v), c, st, m);
    m' := m.(cells := m.cells + [c]);
    SelfAlias(c);
  }

  lemma VarThunkMeans(src: Expr, e: Expr, env: nat, st: State, m: Denotation) returns (m': Denotation)
    requires Means(st, m) && InUse(env, st, m) && BoundTo(src, m.envs[env], e) && src.Var?
    ensures var a := MaybeThunk(e, env, st);
            && Means(a.st, m') && Extends(m, m') && m'.envs == m.envs && a.st.envs == st.envs
            && CellAlias(Clo(src, m.envs[env]), a.id, m')
  {
    var s := m.envs[env];
    if Lexical(src.name, Shape(s), 0).Some? {
      var r := ReadVarMeans(src.name, env, st, m);
      assert e == Var(src.name, r);
      if ReadSlot(st.envs, env, r.level, r.displ).value.Some? {
        m' := m;
        StepAlias(Clo(src, s), m.cells[ReadSlot(st.envs, env, r.level, r.displ).value.value]);
      } else {
        m' := NewThunkMeans(src, e, env, st, m);
      }
    } else {
      NearestLink(Shape(s), 0);
      m' := NewThunkMeans(src, e, env, st, m);
    }
  }

  lemma FromThunkMeans(src: Expr, e: Expr, env: nat, st: State, m: Denotation) returns (m': Denotation)
    requires Means(st, m) && InUse(env, st, m) && BoundTo(src, m.envs[env], e) && src.InheritFrom?
    ensures var a := MaybeThunk(e, env, st);
            && Means(a.st, m') && Extends(m, m') && m'.envs == m.envs && a.st.envs == st.envs
            && CellAlias(Clo(src, m.envs[env]), a.id, m')
  {
    var s, d := m.envs[env], src.displ;
    assert EnvOk(st.envs[env], s, m);
    assert SlotOk(st.envs[env].values[d], s, d, m);
    assert e == src;
    if st.envs[env].values[d].Some? {
      m' := m;
      StepAlias(Clo(src, s), m.cells[st.envs[env].values[d].value]);
    } else {
      m' := NewThunkMeans(src, e, env, st, m);
    }
  }

  lemma BoundForm(src: Expr, env: StaticEnv, e: Expr)
    requires BindExpr(src, env) == Bound(e)
    ensures src.Var? <==> e.Var?
    ensures src.InheritFrom? <==> e.InheritFrom?
    ensures src.Lit? <==> e.Lit?
    ensures src.Lit? ==> e == src
    ensures src.List? <==> e.List?
    ensures src.List? ==> |e.elems| == |src.elems|
  {
  }

  /** The cell handed out for a delayed expression means that expression, also when a variable's own
    cell was shared instead of making a thunk. */
  lemma MaybeThunkMeans(src: Expr, e: Expr, env: nat, st: State, m: Denotation) returns (m': Denotation)
    requires Means(st, m) && InUse(env, st, m) && BoundTo(src, m.envs[env], e)
    ensures var a := MaybeThunk(e, env, st);
            && Means(a.st, m') && Extends(m, m') && m'.envs == m.envs && a.st.envs == st.envs
            && CellAlias(Clo(src, m.envs[env]), a.id, m')
  {
    BoundForm(src, Shape(m.envs[env]), e);
    if src.Var? {
      m' := VarThunkMeans(src, e, env, st, m);
    } else if src.InheritFrom? {
      m' := FromThunkMeans(src, e, env, st, m);
    } else if src.Lit? {
      m' := NewValueMeans(src, VConst(src.c), env, NConst(src.c), st, m);
    } else if src.List? && src.elems == [] {
      assert EvalN(src, m.envs[env], 1).value.elems == [];
      m' := NewValueMeans(src, VList([]), env, NList([]), st, m);
    } else {
      m' := NewThunkMeans(src, e, env, st, m);
    }
  }

  lemma {:induction false} NearestLink(env: StaticEnv, level: nat)
    ensures WithLevel(env, level).Some? <==> NearestWith(env).WithLink?
  {
    if env.Vars? {
      NearestLink(env.up, level + 1);
    }
  }

  lemma {:induction false} ThunkAllMeans(srcs: seq<Expr>, es: seq<Expr>, env: nat, st: State, m: Denotation)
    returns (m': Denotation)
    requires Means(st, m) && InUse(env, st, m) && |srcs| == |es|
    requires forall i :: 0 <= i < |es| ==> BoundTo(srcs[i], m.envs[env], es[i])
    ensures var cs := ThunkAll(es, env, st);
            && Means(cs.st, m') && Extends(m, m') && m'.envs == m.envs && cs.st.envs == st.envs
            && |cs.ids| == |es|
            && forall i :: 0 <= i < |es| ==> CellAlias(Clo(srcs[i], m.envs[env]), cs.ids[i], m')
    decreases |es|
  {
    if es == [] {
      m' := m;
    } else {
      var m1 := MaybeThunkMeans(srcs[0], es[0], env, st, m);
      var a := MaybeThunk(es[0], env, st);
      forall i | 0 <= i < |es| - 1
        ensures BoundTo(srcs[1..][i], m1.envs[env], es[1..][i])
      {
        assert BoundTo(srcs[i + 1], m.envs[env], es[i + 1]);
      }
      m' := ThunkAllMeans(srcs[1..], es[1..], env, a.st, m1);
      var cs := ThunkAll(es, env, st);
      forall i | 0 <= i < |es|
        ensures CellAlias(Clo(srcs[i], m.envs[env]), cs.ids[i], m')
      {
        if i > 0 {
          assert CellAlias(Clo(srcs[1..][i - 1], m1.envs[env]), ThunkAll(es[1..], env, a.st).ids[i - 1], m');
        }
      }
    }
  }

  // ---- frames ----

  ghost predicate FilledUpTo(env: Env, k: nat) {
    forall d :: 0 <= d < k && d < |env.values| ==> env.values[d].Some?
  }

  /** Only environment `env` differs, and there no filled slot was emptied. */
  ghost predicate OnlyFills(st: State, st': State, env: nat) {
    && |st'.envs| == |st.envs|
    && (forall r :: 0 <= r < |st.envs| && r != env ==> st'.envs[r] == st.envs[r])
    && (env < |st.envs| ==>
          && |st'.envs[env].values| == |st.envs[env].values|
          && forall d :: 0 <= d < |st.envs[env].values| && st.envs[env].values[d].Some? ==>
               st'.envs[env].values[d].Some?)
  }

  lemma {:induction false} FillFromsMeans(srcs: seq<Expr>, froms: seq<Expr>, i: nat, inheritEnv: nat, up: nat,
                                          st: State, m: Denotation) returns (m': Denotation)
    requires Means(st, m) && InUse(inheritEnv, st, m) && InUse(up, st, m) && |srcs| == |froms| && i <= |froms|
    requires m.envs[inheritEnv] == InheritFrame(srcs, m.envs[up])
    requires forall j :: 0 <= j < |froms| ==> BoundTo(srcs[j], m.envs[up], froms[j])
    requires FilledUpTo(st.envs[inheritEnv], i)
    ensures var st' := FillFroms(froms, i, inheritEnv, up, st);
            && Means(st', m') && Extends(m, m') && m'.envs == m.envs
            && OnlyFills(st, st', inheritEnv) && FilledUpTo(st'.envs[inheritEnv], |froms|)
    decreases |froms| - i
  {
    hide Means, BoundTo, MaybeThunk, SetSlot, OnlyFills, FilledUpTo;
    OnlyFillsSelf(st, inheritEnv);
    if i == |froms| {
      m' := m;
    } else {
      var m1, st1 := FillFromMeans(srcs, froms, i, inheritEnv, up, st, m);
      OnlyFillsSize(st, st1, inheritEnv);
      m' := FillFromsMeans(srcs, froms, i + 1, inheritEnv, up, st1, m1);
      OnlyFillsTrans(st, st1, FillFroms(froms, i, inheritEnv, up, st), inheritEnv);
    }
  }

  lemma FillFromMeans(srcs: seq<Expr>, froms: seq<Expr>, i: nat, inheritEnv: nat, up: nat, st: State, m: Denotation)
    returns (m': Denotation, st': State)
    requires Means(st, m) && InUse(inheritEnv, st, m) && InUse(up, st, m) && |srcs| == |froms| && i < |froms|
    requires m.envs[inheritEnv] == InheritFrame(srcs, m.envs[up]) && BoundTo(srcs[i], m.envs[up], froms[i])
    requires FilledUpTo(st.envs[inheritEnv], i)
    ensures var a := MaybeThunk(froms[i], up, st); st' == SetSlot(inheritEnv, i, a.id, a.st)
    ensures Means(st', m') && Extends(m, m') && m'.envs == m.envs
    ensures OnlyFills(st, st', inheritEnv) && FilledUpTo(st'.envs[inheritEnv], i + 1)
  {
    hide BoundTo, MaybeThunk;
    m' := MaybeThunkMeans(srcs[i], froms[i], up, st, m);
    var a := MaybeThunk(froms[i], up, st);
    SlotFilled(inheritEnv, i, a.id, a.st, m');
    st' := SetSlot(inheritEnv, i, a.id, a.st);
  }

  lemma SlotFilled(env: nat, d: nat, c: nat, st: State, m: Denotation)
    requires Means(st, m) && InUse(env, st, m) && d < SlotCount(m.envs[env])
    requires FilledUpTo(st.envs[env], d) && SlotOk(Some(c), m.envs[env], d, m)
    ensures var st' := SetSlot(env, d, c, st);
            Means(st', m) && OnlyFills(st, st', env) && FilledUpTo(st'.envs[env], d + 1)
  {
    assert EnvOk(st.envs[env], m.envs[env], m);
    SetSlotMeans(env, d, c, st, m);
  }

  lemma BuildInheritMeans(srcs: seq<Expr>, froms: seq<Expr>, up: nat, st: State, m: Denotation)
    returns (m': Denotation)
    requires Means(st, m) && InUse(up, st, m) && |srcs| == |froms|
    requires forall j :: 0 <= j < |froms| ==> BoundTo(srcs[j], m.envs[up], froms[j])
    ensures var a := BuildInheritEnv(froms, up, st);
            && Means(a.st, m') && Extends(m, m') && InUse(a.id, a.st, m')
            && |st.envs| <= |a.st.envs|
            && (forall r :: 0 <= r < |st.envs| ==> a.st.envs[r] == st.envs[r])
            && (forall r :: |st.envs| <= r < |a.st.envs| ==> Filled(a.st.envs[r]))
            && (froms != [] ==> m'.envs[a.id] == InheritFrame(srcs, m.envs[up]))
  {
    if froms == [] {
      m' := m;
    } else {
      var s := InheritFrame(srcs, m.envs[up]);
      assert EnvOk(st.envs[up], m.envs[up], m);
      NewEnvMeans(|froms|, up, s, st, m);
      var a := NewEnv(|froms|, up, st);
      var m1 := m.(envs := m.envs + [s]);
      m' := FillFromsMeans(srcs, froms, 0, a.id, up, a.st, m1);
      var st' := FillFroms(froms, 0, a.id, up, a.st);
      assert |st'.envs[a.id].values| == |froms|;
    }
  }

  /** `attrs` are the attributes `srcs`, each resolved for the scope of its kind. */
  ghost predicate DefsBound(srcs: seq<AttrDef>, attrs: seq<AttrDef>, froms: seq<Expr>, self: Scope, outer: Scope) {
    && |srcs| == |attrs|
    && (forall i :: 0 <= i < |attrs| ==> attrs[i].name == srcs[i].name && attrs[i].kind == srcs[i].kind)
    && (forall i :: 0 <= i < |attrs| ==>
          BoundTo(srcs[i].e, ChooseByKind(srcs[i].kind, self, outer, InheritFrame(froms, self)), attrs[i].e))
    && (forall i :: 0 <= i < |attrs| && attrs[i].kind.InheritedFrom? ==> froms != [])
  }

  ghost predicate AttrsAlias(attrs: seq<VAttr>, srcs: seq<AttrDef>, i: nat, froms: seq<Expr>, self: Scope,
                             outer: Scope, m: Denotation)
    requires i <= |srcs|
  {
    && |attrs| == |srcs| - i
    && (forall j :: 0 <= j < |attrs| ==> attrs[j].name == srcs[i + j].name)
    && (forall j :: 0 <= j < |attrs| ==>
          CellAlias(DefClosure(srcs[i + j], froms, self, outer), attrs[j].cell, m))
  }

  /** One attribute: its cell means its definition and, in a recursive set, is in its slot. */
  lemma FillAttrMeans(srcs: seq<AttrDef>, attrs: seq<AttrDef>, i: nat, rec: bool,
                      froms: seq<Expr>, self: nat, outer: nat, inherit: nat, st: State, m: Denotation)
    returns (m': Denotation, st': State)
    requires Means(st, m) && InUse(self, st, m) && InUse(outer, st, m) && InUse(inherit, st, m)
    requires i < |attrs| && DefsBound(srcs, attrs, froms, m.envs[self], m.envs[outer])
    requires froms != [] ==> m.envs[inherit] == InheritFrame(froms, m.envs[self])
    requires rec ==> m.envs[self] == RecFrame(srcs, froms, m.envs[outer]) && FilledUpTo(st.envs[self], i)
    ensures var a := MaybeThunk(attrs[i].e, ChooseByKind(attrs[i].kind, self, outer, inherit), st);
            && st' == (if rec then SetSlot(self, i, a.id, a.st) else a.st)
            && CellAlias(DefClosure(srcs[i], froms, m.envs[self], m.envs[outer]), a.id, m')
    ensures Means(st', m') && Extends(m, m') && m'.envs == m.envs && OnlyFills(st, st', self)
    ensures rec ==> FilledUpTo(st'.envs[self], i + 1)
    ensures !rec ==> st'.envs == st.envs
  {
    var env := ChooseByKind(attrs[i].kind, self, outer, inherit);
    assert attrs[i].name == srcs[i].name && attrs[i].kind == srcs[i].kind;
    assert BoundTo(srcs[i].e, m.envs[env], attrs[i].e);
    m' := MaybeThunkMeans(srcs[i].e, attrs[i].e, env, st, m);
    var a := MaybeThunk(attrs[i].e, env, st);
    st' := a.st;
    if rec {
      SlotFilled(self, i, a.id, a.st, m');
      st' := SetSlot(self, i, a.id, a.st);
    }
  }

  lemma {:induction false} FillAttrsMeans(srcs: seq<AttrDef>, attrs: seq<AttrDef>, i: nat, rec: bool,
                                          froms: seq<Expr>, self: nat, outer: nat, inherit: nat,
                                          st: State, m: Denotation) returns (m': Denotation)
    requires Means(st, m) && InUse(self, st, m) && InUse(outer, st, m) && InUse(inherit, st, m)
    requires i <= |attrs| && DefsBound(srcs, attrs, froms, m.envs[self], m.envs[outer])
    requires froms != [] ==> m.envs[inherit] == InheritFrame(froms, m.envs[self])
    requires rec ==> m.envs[self] == RecFrame(srcs, froms, m.envs[outer]) && FilledUpTo(st.envs[self], i)
    ensures var b := FillAttrs(attrs, i, rec, self, outer, inherit, st);
            && Means(b.st, m') && Extends(m, m') && m'.envs == m.envs
            && OnlyFills(st, b.st, self)
            && (rec ==> FilledUpTo(b.st.envs[self], |attrs|))
            && (!rec ==> b.st.envs == st.envs)
            && AttrsAlias(b.attrs, srcs, i, froms, m.envs[self], m.envs[outer], m')
    decreases |attrs| - i
  {
    hide Means, DefsBound, CellAlias, MaybeThunk, SetSlot, AttrsAlias, FilledUpTo, DefClosure, FillAttrs, OnlyFills;
    MeansSizes(st, m);
    OnlyFillsSelf(st, self);
    DefsCount(srcs, attrs, froms, m.envs[self], m.envs[outer]);
    if i == |attrs| {
      m' := m;
      FillAttrsEnd(attrs, rec, self, outer, inherit, st);
      NoAlias(srcs, froms, m.envs[self], m.envs[outer], m);
    } else {
      FillAttrsStep(attrs, i, rec, self, outer, inherit, st);
      DefsSame(srcs, attrs, froms, m.envs[self], m.envs[outer], i);
      var m1, st1 := FillAttrMeans(srcs, attrs, i, rec, froms, self, outer, inherit, st, m);
      OnlyFillsSize(st, st1, self);
      m' := FillAttrsMeans(srcs, attrs, i + 1, rec, froms, self, outer, inherit, st1, m1);
      var a := MaybeThunk(attrs[i].e, ChooseByKind(attrs[i].kind, self, outer, inherit), st);
      var rest := FillAttrs(attrs, i + 1, rec, self, outer, inherit, st1);
      CellAliasExtends(DefClosure(srcs[i], froms, m.envs[self], m.envs[outer]), a.id, m1, m');
      OnlyFillsTrans(st, st1, rest.st, self);
      ConsAlias(VAttr(attrs[i].name, a.id), rest.attrs, srcs, i, froms, m.envs[self], m.envs[outer], m');
    }
  }

  lemma MeansSizes(st: State, m: Denotation)
    requires Means(st, m)
    ensures |st.cells| == |m.cells| && |st.envs| == |m.envs|
  {
  }

  lemma OnlyFillsSelf(st: State, env: nat)
    ensures OnlyFills(st, st, env)
  {
  }

  lemma DefsCount(srcs: seq<AttrDef>, attrs: seq<AttrDef>, froms: seq<Expr>, self: Scope, outer: Scope)
    requires DefsBound(srcs, attrs, froms, self, outer)
    ensures |srcs| == |attrs|
  {
  }

  lemma NoAlias(srcs: seq<AttrDef>, froms: seq<Expr>, self: Scope, outer: Scope, m: Denotation)
    ensures AttrsAlias([], srcs, |srcs|, froms, self, outer, m)
  {
  }

  lemma DefsSame(srcs: seq<AttrDef>, attrs: seq<AttrDef>, froms: seq<Expr>, self: Scope, outer: Scope, i: nat)
    requires DefsBound(srcs, attrs, froms, self, outer) && i < |attrs|
    ensures |srcs| == |attrs| && attrs[i].name == srcs[i].name
  {
  }

  lemma CellAliasExtends(a: Closure, c: nat, m: Denotation, m': Denotation)
    requires CellAlias(a, c, m) && Extends(m, m')
    ensures CellAlias(a, c, m')
  {
  }

  lemma OnlyFillsSize(st: State, st': State, env: nat)
    requires OnlyFills(st, st', env)
    ensures |st'.envs| == |st.envs|
  {
  }

  lemma OnlyFillsTrans(a: State, b: State, c: State, env: nat)
    requires OnlyFills(a, b, env) && OnlyFills(b, c, env)
    ensures OnlyFills(a, c, env)
  {
  }

  lemma ConsAlias(a: VAttr, rest: seq<VAttr>, srcs: seq<AttrDef>, i: nat, froms: seq<Expr>, self: Scope,
                  outer: Scope, m: Denotation)
    requires i < |srcs| && AttrsAlias(rest, srcs, i + 1, froms, self, outer, m)
    requires a.name == srcs[i].name && CellAlias(DefClosure(srcs[i], froms, self, outer), a.cell, m)
    ensures AttrsAlias([a] + rest, srcs, i, froms, self, outer, m)
  {
    var all := [a] + rest;
    forall j | 0 <= j < |all|
      ensures all[j].name == srcs[i + j].name
      ensures CellAlias(DefClosure(srcs[i + j], froms, self, outer), all[j].cell, m)
    {
      if j > 0 {
        assert all[j] == rest[j - 1];
        assert rest[j - 1].name == srcs[i + 1 + (j - 1)].name;
        assert CellAlias(DefClosure(srcs[i + 1 + (j - 1)], froms, self, outer), rest[j - 1].cell, m);
      }
    }
  }

  lemma BuildRecMeans(srcs: seq<AttrDef>, attrs: seq<AttrDef>, srcFroms: seq<Expr>, froms: seq<Expr>, env: nat,
                      st: State, m: Denotation) returns (m': Denotation)
    requires Means(st, m) && AllFilled(st, m) && InUse(env, st, m) && SortedNames(srcs) && |srcFroms| == |froms|
    requires DefsBound(srcs, attrs, srcFroms, RecFrame(srcs, srcFroms, m.envs[env]), m.envs[env])
    requires forall j :: 0 <= j < |froms| ==>
               BoundTo(srcFroms[j], RecFrame(srcs, srcFroms, m.envs[env]), froms[j])
    ensures var b := BuildRec(attrs, froms, env, st);
            var s := RecFrame(srcs, srcFroms, m.envs[env]);
            && Means(b.st, m') && Extends(m, m') && AllFilled(b.st, m')
            && InUse(|st.envs|, b.st, m') && m'.envs[|st.envs|] == s
            && AttrsAlias(b.attrs, srcs, 0, srcFroms, s, m.envs[env], m')
  {
    var s := RecFrame(srcs, srcFroms, m.envs[env]);
    assert EnvOk(st.envs[env], m.envs[env], m);
    NewEnvMeans(|attrs|, env, s, st, m);
    var a := NewEnv(|attrs|, env, st);
    var m1 := m.(envs := m.envs + [s]);
    var m2 := BuildInheritMeans(srcFroms, froms, a.id, a.st, m1);
    var inh := BuildInheritEnv(froms, a.id, a.st);
    m' := FillAttrsMeans(srcs, attrs, 0, true, srcFroms, a.id, env, inh.id, inh.st, m2);
    var b := BuildRec(attrs, froms, env, st);
    hide ScopeOk;
    forall r | 0 <= r < |b.st.envs| && ScopeOk(m'.envs[r])
      ensures Filled(b.st.envs[r])
    {
      if r == a.id {
        assert FilledUpTo(b.st.envs[r], |attrs|);
        assert EnvOk(b.st.envs[r], m'.envs[r], m');
      } else {
        assert b.st.envs[r] == inh.st.envs[r];
        if r < a.id {
          assert Filled(st.envs[r]);
        }
      }
    }
  }
}
