/** Comparing two values for equality, and the assertion that explains why two values differ.

  Values are forced all the way down and finite. A cell has an identity, because comparing a cell with
  itself is always true. */
module EqValues {
  import opened Options
  import Syntax

  type Symbol = Syntax.Symbol

  /** The names `type` and `outPath`. */
  const TYPE: Symbol := 0
  const OUT_PATH: Symbol := 1

  datatype Float = NaN | Number(r: real)

  datatype Cell = Cell(id: nat, v: Val)

  datatype Attr = Attr(name: Symbol, value: Cell)

  datatype Val =
    | VInt(n: int)
    | VFloat(f: Float)
    | VBool(b: bool)
    | VString(s: string)
    | VPath(accessor: nat, path: string)
    | VNull
    | VList(elems: seq<Cell>)
    | VAttrs(attrs: seq<Attr>)
    | VFunction(fun: nat)
    | VExternal(ext: nat)

  datatype Type = NInt | NFloat | NBool | NString | NPath | NNull | NList | NAttrs | NFunction | NExternal

  function TypeOf(v: Val): Type {
    match v
    case VInt(_) => NInt
    case VFloat(_) => NFloat
    case VBool(_) => NBool
    case VString(_) => NString
    case VPath(_, _) => NPath
    case VNull => NNull
    case VList(_) => NList
    case VAttrs(_) => NAttrs
    case VFunction(_) => NFunction
    case VExternal(_) => NExternal
  }

  predicate Sorted(attrs: seq<Attr>) {
    forall i, j :: 0 <= i < j < |attrs| ==> attrs[i].name < attrs[j].name
  }

  /** All attribute sets in a value are sorted by name. */
  predicate WellSorted(c: Cell)
    decreases c
  {
    match c.v
    case VList(es) => forall i :: 0 <= i < |es| ==> WellSorted(es[i])
    case VAttrs(as_) => Sorted(as_) && forall i :: 0 <= i < |as_| ==> WellSorted(as_[i].value)
    case _ => true
  }

  function Get(attrs: seq<Attr>, name: Symbol): (r: Option<Cell>)
    ensures r.Some? ==> exists i :: 0 <= i < |attrs| && attrs[i] == Attr(name, r.value)
    ensures r.None? ==> forall i :: 0 <= i < |attrs| ==> attrs[i].name != name
  {
    if attrs == [] then None
    else if attrs[0].name == name then Some(attrs[0].value)
    else Get(attrs[1..], name)
  }

  /** A set with `type = "derivation"`. */
  predicate IsDerivation(v: Val) {
    v.VAttrs? && var t := Get(v.attrs, TYPE); t.Some? && t.value.v == VString("derivation")
  }

  /** The output paths of two derivations, if both have one. */
  function OutPaths(a: Val, b: Val): (r: Option<(Cell, Cell)>)
    requires a.VAttrs? && b.VAttrs?
    ensures r.Some? ==> exists i :: 0 <= i < |a.attrs| && a.attrs[i].value == r.value.0
  {
    if IsDerivation(a) && IsDerivation(b) && Get(a.attrs, OUT_PATH).Some? && Get(b.attrs, OUT_PATH).Some?
    then Some((Get(a.attrs, OUT_PATH).value, Get(b.attrs, OUT_PATH).value))
    else None
  }

  // ---- what equality is ----

  /** How an integer compares to a floating-point number is given by `toFloat`. */
  predicate SameFloat(a: Float, b: Float) {
    a.Number? && a == b
  }

  predicate Equal(toFloat: int -> Float, a: Cell, b: Cell)
    decreases a
  {
    a.id == b.id || match (a.v, b.v)
      case (VInt(m), VInt(n)) => m == n
      case (VInt(m), VFloat(g)) => SameFloat(toFloat(m), g)
      case (VFloat(f), VInt(n)) => SameFloat(f, toFloat(n))
      case (VFloat(f), VFloat(g)) => SameFloat(f, g)
      case (VList(xs), VList(ys)) =>
        |xs| == |ys| && forall i :: 0 <= i < |xs| ==> Equal(toFloat, xs[i], ys[i])
      case (VAttrs(_), VAttrs(_)) => EqualSets(toFloat, a.v, b.v)
      case (VFunction(_), VFunction(_)) => false
      case _ => a.v == b.v
  }

  /** Derivations are compared by their output paths, other sets attribute by attribute. */
  predicate EqualSets(toFloat: int -> Float, a: Val, b: Val)
    requires a.VAttrs? && b.VAttrs?
    decreases a
  {
    var out := OutPaths(a, b);
    if out.Some? then Equal(toFloat, out.value.0, out.value.1)
    else
      && |a.attrs| == |b.attrs|
      && forall i :: 0 <= i < |a.attrs| ==>
           a.attrs[i].name == b.attrs[i].name && Equal(toFloat, a.attrs[i].value, b.attrs[i].value)
  }

  lemma OutPathsSwap(a: Val, b: Val)
    requires a.VAttrs? && b.VAttrs?
    ensures OutPaths(b, a) == var r := OutPaths(a, b); if r.Some? then Some((r.value.1, r.value.0)) else None
  {
  }

  /** Equality is symmetric. */
  lemma {:induction false} EqualSymmetric(toFloat: int -> Float, a: Cell, b: Cell)
    ensures Equal(toFloat, a, b) <==> Equal(toFloat, b, a)
    decreases a
  {
    if a.id != b.id {
      match (a.v, b.v)
      case (VList(xs), VList(ys)) =>
        if |xs| == |ys| {
          forall i | 0 <= i < |xs|
            ensures Equal(toFloat, xs[i], ys[i]) <==> Equal(toFloat, ys[i], xs[i])
          {
            EqualSymmetric(toFloat, xs[i], ys[i]);
          }
        }
      case (VAttrs(xs), VAttrs(ys)) =>
        OutPathsSwap(a.v, b.v);
        if OutPaths(a.v, b.v).Some? {
          var out := OutPaths(a.v, b.v).value;
          EqualSymmetric(toFloat, out.0, out.1);
        } else if |xs| == |ys| {
          forall i | 0 <= i < |xs|
            ensures Equal(toFloat, xs[i].value, ys[i].value) <==> Equal(toFloat, ys[i].value, xs[i].value)
          {
            EqualSymmetric(toFloat, xs[i].value, ys[i].value);
          }
        }
      case _ =>
    }
  }

  // ---- sets are compared by name ----

  lemma GetSorted(attrs: seq<Attr>, i: nat)
    requires Sorted(attrs) && i < |attrs|
    ensures Get(attrs, attrs[i].name) == Some(attrs[i].value)
  {
    var r := Get(attrs, attrs[i].name);
    assert r.Some?;
    var j :| 0 <= j < |attrs| && attrs[j] == Attr(attrs[i].name, r.value);
  }

  predicate SameAt(toFloat: int -> Float, xs: seq<Attr>, ys: seq<Attr>, name: Symbol) {
    var x, y := Get(xs, name), Get(ys, name);
    if x.Some? && y.Some? then Equal(toFloat, x.value, y.value) else x.None? && y.None?
  }

  ghost predicate SameNames(xs: seq<Attr>, ys: seq<Attr>) {
    forall name :: Get(xs, name).Some? <==> Get(ys, name).Some?
  }

  /** The first position where two sorted sets differ in a name: the smaller of the two names is missing in
    the other set. */
  lemma FirstMismatch(xs: seq<Attr>, ys: seq<Attr>, i: nat)
    requires Sorted(xs) && Sorted(ys) && i < |xs| && i < |ys| && xs[i].name != ys[i].name
    requires forall k :: 0 <= k < i ==> xs[k].name == ys[k].name
    ensures xs[i].name < ys[i].name ==> Get(ys, xs[i].name).None?
    ensures ys[i].name < xs[i].name ==> Get(xs, ys[i].name).None?
  {
  }

  lemma {:induction false} SameNamesAgree(xs: seq<Attr>, ys: seq<Attr>, i: nat)
    requires Sorted(xs) && Sorted(ys) && SameNames(xs, ys) && i <= |xs|
    ensures i <= |ys| && forall k :: 0 <= k < i ==> xs[k].name == ys[k].name
    decreases i
  {
    if i > 0 {
      SameNamesAgree(xs, ys, i - 1);
      NextNameAgrees(xs, ys, i - 1);
    }
  }

  lemma NextNameAgrees(xs: seq<Attr>, ys: seq<Attr>, i: nat)
    requires Sorted(xs) && Sorted(ys) && SameNames(xs, ys) && i < |xs| && i <= |ys|
    requires forall k :: 0 <= k < i ==> xs[k].name == ys[k].name
    ensures i < |ys| && xs[i].name == ys[i].name
  {
    var name := xs[i].name;
    GetSorted(xs, i);
    assert Get(ys, name).Some?;
    var k :| 0 <= k < |ys| && ys[k].name == name;
    assert k >= i;
    if name != ys[i].name {
      GetSorted(ys, i);
      FirstMismatch(xs, ys, i);
      assert false;
    }
  }

  lemma SameNamesIff(xs: seq<Attr>, ys: seq<Attr>)
    requires Sorted(xs) && Sorted(ys)
    ensures SameNames(xs, ys) <==> |xs| == |ys| && forall k :: 0 <= k < |xs| ==> xs[k].name == ys[k].name
  {
    if SameNames(xs, ys) {
      SameNamesAgree(xs, ys, |xs|);
      SameNamesAgree(ys, xs, |ys|);
    }
    if |xs| == |ys| && forall k :: 0 <= k < |xs| ==> xs[k].name == ys[k].name {
      forall name
        ensures Get(xs, name).Some? <==> Get(ys, name).Some?
      {
        if Get(xs, name).Some? {
          var k :| 0 <= k < |xs| && xs[k].name == name;
          assert ys[k].name == name;
        }
        if Get(ys, name).Some? {
          var k :| 0 <= k < |ys| && ys[k].name == name;
          assert xs[k].name == name;
        }
      }
    }
  }

  /** Two sets that are not both derivations with output paths are equal exactly when they bind the same
    names to equal values, although the comparison goes by position. */
  lemma SetsEqualByName(toFloat: int -> Float, a: Val, b: Val)
    requires a.VAttrs? && b.VAttrs? && Sorted(a.attrs) && Sorted(b.attrs) && OutPaths(a, b).None?
    ensures EqualSets(toFloat, a, b) <==> forall name :: SameAt(toFloat, a.attrs, b.attrs, name)
  {
    var xs, ys := a.attrs, b.attrs;
    SameNamesIff(xs, ys);
    if EqualSets(toFloat, a, b) {
      forall name
        ensures SameAt(toFloat, xs, ys, name)
      {
        assert Get(xs, name).Some? <==> Get(ys, name).Some?;
        if Get(xs, name).Some? {
          var i :| 0 <= i < |xs| && xs[i] == Attr(name, Get(xs, name).value);
          GetSorted(ys, i);
          assert ys[i].name == name;
        }
      }
    }
    if forall name :: SameAt(toFloat, xs, ys, name) {
      forall name
        ensures Get(xs, name).Some? <==> Get(ys, name).Some?
      {
        assert SameAt(toFloat, xs, ys, name);
      }
      forall i | 0 <= i < |xs|
        ensures Equal(toFloat, xs[i].value, ys[i].value)
      {
        GetSorted(xs, i);
        GetSorted(ys, i);
        assert SameAt(toFloat, xs, ys, xs[i].name);
      }
    }
  }

  // ---- which sets are compared by `outPath` ----

  /** Some attribute of the set has the name. */
  predicate Binds(xs: seq<Attr>, name: Symbol) {
    exists i :: 0 <= i < |xs| && xs[i].name == name
  }

  /** Some attribute `type` of the set is the string "derivation". */
  predicate SaysDerivation(xs: seq<Attr>) {
    exists i :: 0 <= i < |xs| && xs[i].name == TYPE && xs[i].value.v == VString("derivation")
  }

  /** Both sets say that they are derivations, and both have an `outPath`. */
  predicate ByOutPath(xs: seq<Attr>, ys: seq<Attr>) {
    SaysDerivation(xs) && SaysDerivation(ys) && Binds(xs, OUT_PATH) && Binds(ys, OUT_PATH)
  }

  /** The two sets have attributes with the name that are equal. */
  predicate EqualAt(toFloat: int -> Float, xs: seq<Attr>, ys: seq<Attr>, name: Symbol) {
    exists i, j :: 0 <= i < |xs| && 0 <= j < |ys| && xs[i].name == name && ys[j].name == name
                   && Equal(toFloat, xs[i].value, ys[j].value)
  }

  lemma BindsIff(xs: seq<Attr>, name: Symbol)
    ensures Binds(xs, name) <==> Get(xs, name).Some?
  {
  }

  lemma SaysDerivationIff(xs: seq<Attr>)
    requires Sorted(xs)
    ensures SaysDerivation(xs) <==> IsDerivation(VAttrs(xs))
  {
    if SaysDerivation(xs) {
      var i :| 0 <= i < |xs| && xs[i].name == TYPE && xs[i].value.v == VString("derivation");
      GetSorted(xs, i);
    }
  }

  lemma EqualAtIff(toFloat: int -> Float, xs: seq<Attr>, ys: seq<Attr>, name: Symbol)
    requires Sorted(xs) && Sorted(ys)
    ensures EqualAt(toFloat, xs, ys, name)
            <==> var x, y := Get(xs, name), Get(ys, name); x.Some? && y.Some? && Equal(toFloat, x.value, y.value)
  {
    hide Equal;
    if EqualAt(toFloat, xs, ys, name) {
      var i, j :| 0 <= i < |xs| && 0 <= j < |ys| && xs[i].name == name && ys[j].name == name
                  && Equal(toFloat, xs[i].value, ys[j].value);
      GetSorted(xs, i);
      GetSorted(ys, j);
    }
  }

  /** Two different sets are equal exactly when, if both are derivations with an `outPath`, these are equal,
    and otherwise they have the same names and equal attributes under each. */
  lemma SetsEqualIff(toFloat: int -> Float, a: Cell, b: Cell)
    requires a.id != b.id && a.v.VAttrs? && b.v.VAttrs? && Sorted(a.v.attrs) && Sorted(b.v.attrs)
    ensures var xs, ys := a.v.attrs, b.v.attrs;
            Equal(toFloat, a, b)
            <==> if ByOutPath(xs, ys) then EqualAt(toFloat, xs, ys, OUT_PATH)
                 else forall name :: Binds(xs, name) || Binds(ys, name) ==> EqualAt(toFloat, xs, ys, name)
  {
    var xs, ys := a.v.attrs, b.v.attrs;
    assert Equal(toFloat, a, b) == EqualSets(toFloat, a.v, b.v);
    hide Equal;
    SaysDerivationIff(xs);
    SaysDerivationIff(ys);
    BindsIff(xs, OUT_PATH);
    BindsIff(ys, OUT_PATH);
    if ByOutPath(xs, ys) {
      EqualAtIff(toFloat, xs, ys, OUT_PATH);
    } else {
      SetsEqualByName(toFloat, a.v, b.v);
      hide EqualSets;
      forall name
        ensures SameAt(toFloat, xs, ys, name)
                <==> (Binds(xs, name) || Binds(ys, name) ==> EqualAt(toFloat, xs, ys, name))
      {
        BindsIff(xs, name);
        BindsIff(ys, name);
        EqualAtIff(toFloat, xs, ys, name);
      }
    }
  }

  // ---- a value and its copy ----

  /** The same value in other cells. */
  predicate Copies(a: Cell, b: Cell)
    decreases a
  {
    a.id != b.id && match (a.v, b.v)
      case (VList(xs), VList(ys)) => |xs| == |ys| && forall i :: 0 <= i < |xs| ==> Copies(xs[i], ys[i])
      case (VAttrs(xs), VAttrs(ys)) =>
        |xs| == |ys| && forall i :: 0 <= i < |xs| ==> xs[i].name == ys[i].name && Copies(xs[i].value, ys[i].value)
      case _ => a.v == b.v
  }

  /** No function and no NaN is in the parts of a value that count. */
  predicate Comparable(c: Cell)
    decreases c
  {
    match c.v
    case VFunction(_) => false
    case VFloat(f) => f.Number?
    case VList(xs) => forall i :: 0 <= i < |xs| ==> Comparable(xs[i])
    case VAttrs(xs) =>
      forall i :: 0 <= i < |xs| && (ByOutPath(xs, xs) ==> xs[i].name == OUT_PATH) ==> Comparable(xs[i].value)
    case _ => true
  }

  lemma CopiedNames(xs: seq<Attr>, ys: seq<Attr>)
    requires |xs| == |ys| && forall i :: 0 <= i < |xs| ==> xs[i].name == ys[i].name && Copies(xs[i].value, ys[i].value)
    ensures forall name :: Binds(xs, name) <==> Binds(ys, name)
    ensures SaysDerivation(xs) <==> SaysDerivation(ys)
  {
    forall name
      ensures Binds(xs, name) <==> Binds(ys, name)
    {
      if Binds(xs, name) {
        var i :| 0 <= i < |xs| && xs[i].name == name;
        assert ys[i].name == name;
      }
    }
    if SaysDerivation(xs) {
      var i :| 0 <= i < |xs| && xs[i].name == TYPE && xs[i].value.v == VString("derivation");
      assert Copies(xs[i].value, ys[i].value);
      assert ys[i].name == TYPE && ys[i].value.v == VString("derivation");
    }
    if SaysDerivation(ys) {
      var i :| 0 <= i < |ys| && ys[i].name == TYPE && ys[i].value.v == VString("derivation");
      assert Copies(xs[i].value, ys[i].value);
      assert xs[i].name == TYPE && xs[i].value.v == VString("derivation");
    }
  }

  /** A value equals its copy exactly when it has no function and no NaN in the parts that count. */
  lemma {:induction false} CopyIsEqualIff(toFloat: int -> Float, a: Cell, b: Cell)
    requires Copies(a, b) && WellSorted(a) && WellSorted(b)
    ensures Equal(toFloat, a, b) <==> Comparable(a)
    decreases a
  {
    match (a.v, b.v)
    case (VList(xs), VList(ys)) =>
      forall i | 0 <= i < |xs|
        ensures Equal(toFloat, xs[i], ys[i]) <==> Comparable(xs[i])
      {
        CopyIsEqualIff(toFloat, xs[i], ys[i]);
      }
    case (VAttrs(xs), VAttrs(ys)) =>
      forall i | 0 <= i < |xs|
        ensures Equal(toFloat, xs[i].value, ys[i].value) <==> Comparable(xs[i].value)
      {
        CopyIsEqualIff(toFloat, xs[i].value, ys[i].value);
      }
      CopiedSetIff(toFloat, a, b);
    case _ =>
  }

  lemma CopiedSetIff(toFloat: int -> Float, a: Cell, b: Cell)
    requires Copies(a, b) && a.v.VAttrs? && b.v.VAttrs? && Sorted(a.v.attrs) && Sorted(b.v.attrs)
    requires forall i :: 0 <= i < |a.v.attrs| ==>
               (Equal(toFloat, a.v.attrs[i].value, b.v.attrs[i].value) <==> Comparable(a.v.attrs[i].value))
    ensures Equal(toFloat, a, b) <==> Comparable(a)
  {
    var xs, ys := a.v.attrs, b.v.attrs;
    CopiedNames(xs, ys);
    assert Comparable(a) <==> forall i :: 0 <= i < |xs| && (ByOutPath(xs, xs) ==> xs[i].name == OUT_PATH) ==>
                                Comparable(xs[i].value);
    hide Equal, EqualAt, Comparable, Copies, SaysDerivation, Binds;
    SetsEqualIff(toFloat, a, b);
    EqualEverywhere(toFloat, xs, ys);
    forall i | 0 <= i < |xs|
      ensures EqualAt(toFloat, xs, ys, xs[i].name) <==> Comparable(xs[i].value)
    {
      EqualAtIff(toFloat, xs, ys, xs[i].name);
      GetSorted(xs, i);
      GetSorted(ys, i);
    }
    if ByOutPath(xs, ys) {
      var i := BoundAt(xs, OUT_PATH);
    }
  }

  lemma BoundAt(xs: seq<Attr>, name: Symbol) returns (i: nat)
    requires Sorted(xs) && Binds(xs, name)
    ensures i < |xs| && xs[i].name == name && forall j :: 0 <= j < |xs| && xs[j].name == name ==> j == i
  {
    i :| 0 <= i < |xs| && xs[i].name == name;
  }

  lemma EqualEverywhere(toFloat: int -> Float, xs: seq<Attr>, ys: seq<Attr>)
    requires forall name :: Binds(xs, name) <==> Binds(ys, name)
    ensures (forall name :: Binds(xs, name) || Binds(ys, name) ==> EqualAt(toFloat, xs, ys, name))
            <==> forall i :: 0 <= i < |xs| ==> EqualAt(toFloat, xs, ys, xs[i].name)
  {
    hide EqualAt;
    forall i | 0 <= i < |xs|
      ensures Binds(xs, xs[i].name)
    {
    }
  }

  /** Equal values of different cells are of one type, or both are numbers; and of the types without parts
    only equal contents are equal. */
  lemma EqualIsAlike(toFloat: int -> Float, a: Cell, b: Cell)
    requires a.id != b.id && Equal(toFloat, a, b)
    ensures TypeOf(a.v) == TypeOf(b.v) || (TypeOf(a.v) in {NInt, NFloat} && TypeOf(b.v) in {NInt, NFloat})
    ensures TypeOf(a.v) == TypeOf(b.v) && !a.v.VList? && !a.v.VAttrs? ==> a.v == b.v && !a.v.VFunction?
    ensures a.v.VInt? && b.v.VFloat? ==> b.v.f == toFloat(a.v.n)
    ensures a.v.VFloat? && b.v.VInt? ==> a.v.f == toFloat(b.v.n)
  {
  }

  // ---- the comparison ----

  method CompareValues(toFloat: int -> Float, v1: Cell, v2: Cell) returns (r: bool)
    ensures r == Equal(toFloat, v1, v2)
    decreases v1
  {
    if v1.id == v2.id {
      return true;
    }
    if v1.v.VInt? && v2.v.VFloat? {
      return SameFloat(toFloat(v1.v.n), v2.v.f);
    }
    if v1.v.VFloat? && v2.v.VInt? {
      return SameFloat(v1.v.f, toFloat(v2.v.n));
    }
    if TypeOf(v1.v) != TypeOf(v2.v) {
      return false;
    }
    match v1.v {
      case VInt(n) => return n == v2.v.n;
      case VBool(b) => return b == v2.v.b;
      case VString(s) => return s == v2.v.s;
      case VPath(accessor, path) => return accessor == v2.v.accessor && path == v2.v.path;
      case VNull => return true;
      case VList(xs) =>
        var ys := v2.v.elems;
        if |xs| != |ys| {
          return false;
        }
        var n := 0;
        while n < |xs|
          invariant n <= |xs|
          invariant forall i :: 0 <= i < n ==> Equal(toFloat, xs[i], ys[i])
        {
          var same := CompareValues(toFloat, xs[n], ys[n]);
          if !same {
            return false;
          }
          n := n + 1;
        }
        return true;
      case VAttrs(xs) =>
        var ys := v2.v.attrs;
        var out := OutPaths(v1.v, v2.v);
        if out.Some? {
          r := CompareValues(toFloat, out.value.0, out.value.1);
          return;
        }
        if |xs| != |ys| {
          return false;
        }
        var n := 0;
        while n < |xs|
          invariant n <= |xs|
          invariant forall i :: 0 <= i < n ==> xs[i].name == ys[i].name && Equal(toFloat, xs[i].value, ys[i].value)
        {
          if xs[n].name != ys[n].name {
            return false;
          }
          var same := CompareValues(toFloat, xs[n].value, ys[n].value);
          if !same {
            return false;
          }
          n := n + 1;
        }
        return true;
      case VFunction(_) => return false;
      case VExternal(x) => return x == v2.v.ext;
      case VFloat(f) => return SameFloat(f, v2.v.f);
    }
  }

  // ---- the assertion ----

  datatype Verdict =
    | Pass
    | DifferentNumbers
    | DifferentTypes
    | DifferentValues
    | DifferentSizes
    | NotInRight(name: Symbol)
    | NotInLeft(name: Symbol)
    | FunctionsDiffer
    | Impossible

  /** The reason is true of these two values. */
  ghost predicate TrueOf(toFloat: int -> Float, r: Verdict, a: Cell, b: Cell) {
    a.id != b.id && match r
      case Pass => false
      case DifferentNumbers =>
        TypeOf(a.v) in {NInt, NFloat} && TypeOf(b.v) in {NInt, NFloat} && !Equal(toFloat, a, b)
      case DifferentTypes =>
        TypeOf(a.v) != TypeOf(b.v) && !(TypeOf(a.v) in {NInt, NFloat} && TypeOf(b.v) in {NInt, NFloat})
      case DifferentValues => TypeOf(a.v) == TypeOf(b.v) && TypeOf(a.v) !in {NList, NAttrs} && a.v != b.v
      case DifferentSizes =>
        || (a.v.VList? && b.v.VList? && |a.v.elems| != |b.v.elems|)
        || (a.v.VAttrs? && b.v.VAttrs? && |a.v.attrs| != |b.v.attrs|)
      case NotInRight(name) => a.v.VAttrs? && b.v.VAttrs? && Binds(a.v.attrs, name) && !Binds(b.v.attrs, name)
      case NotInLeft(name) => a.v.VAttrs? && b.v.VAttrs? && !Binds(a.v.attrs, name) && Binds(b.v.attrs, name)
      case FunctionsDiffer => a.v.VFunction? && b.v.VFunction?
      case Impossible => false
  }

  /** The reason is true of the two values, or of two elements or attributes that correspond. */
  ghost predicate Explained(toFloat: int -> Float, r: Verdict, a: Cell, b: Cell)
    decreases a
  {
    || TrueOf(toFloat, r, a, b)
    || (a.v.VList? && b.v.VList? && exists i: nat ::
          i < |a.v.elems| && i < |b.v.elems| && Explained(toFloat, r, a.v.elems[i], b.v.elems[i]))
    || (a.v.VAttrs? && b.v.VAttrs? && exists i: nat, j: nat ::
          && i < |a.v.attrs| && j < |b.v.attrs| && a.v.attrs[i].name == b.v.attrs[j].name
          && Explained(toFloat, r, a.v.attrs[i].value, b.v.attrs[j].value))
  }

  /** Passes exactly when the values are equal; otherwise the reason is true of two parts that correspond,
    and the dead end after a difference in names is never reached. */
  method AssertEqual(toFloat: int -> Float, v1: Cell, v2: Cell) returns (r: Verdict)
    requires WellSorted(v1) && WellSorted(v2)
    ensures r == Pass <==> Equal(toFloat, v1, v2)
    ensures r != Impossible && (r != Pass ==> Explained(toFloat, r, v1, v2))
    decreases v1
  {
    if v1.id == v2.id {
      return Pass;
    }
    if (v1.v.VInt? || v1.v.VFloat?) && (v2.v.VInt? || v2.v.VFloat?) {
      var same := CompareValues(toFloat, v1, v2);
      return if same then Pass else DifferentNumbers;
    }
    if TypeOf(v1.v) != TypeOf(v2.v) {
      return DifferentTypes;
    }
    match v1.v {
      case VBool(b) => return if b != v2.v.b then DifferentValues else Pass;
      case VString(s) => return if s != v2.v.s then DifferentValues else Pass;
      case VPath(accessor, path) =>
        return if accessor != v2.v.accessor || path != v2.v.path then DifferentValues else Pass;
      case VNull => return Pass;
      case VList(_) => r := AssertLists(toFloat, v1, v2);
      case VAttrs(_) =>
        var out := OutPaths(v1.v, v2.v);
        if out.Some? {
          SortedOutPaths(v1, v2);
          hide TrueOf;
          r := AssertEqual(toFloat, out.value.0, out.value.1);
        } else {
          r := AssertSets(toFloat, v1, v2);
        }
      case VFunction(_) => return FunctionsDiffer;
      case VExternal(x) => return if x != v2.v.ext then DifferentValues else Pass;
    }
  }

  lemma SortedOutPaths(v1: Cell, v2: Cell)
    requires WellSorted(v1) && WellSorted(v2) && v1.v.VAttrs? && v2.v.VAttrs? && OutPaths(v1.v, v2.v).Some?
    ensures var out := OutPaths(v1.v, v2.v).value; WellSorted(out.0) && WellSorted(out.1)
  {
    var out := OutPaths(v1.v, v2.v).value;
    var i :| 0 <= i < |v1.v.attrs| && v1.v.attrs[i] == Attr(OUT_PATH, out.0);
    var j :| 0 <= j < |v2.v.attrs| && v2.v.attrs[j] == Attr(OUT_PATH, out.1);
  }

  method AssertLists(toFloat: int -> Float, v1: Cell, v2: Cell) returns (r: Verdict)
    requires WellSorted(v1) && WellSorted(v2) && v1.v.VList? && v2.v.VList? && v1.id != v2.id
    ensures r == Pass <==> Equal(toFloat, v1, v2)
    ensures r != Impossible && (r != Pass ==> Explained(toFloat, r, v1, v2))
    decreases v1, 0
  {
    var xs, ys := v1.v.elems, v2.v.elems;
    if |xs| != |ys| {
      return DifferentSizes;
    }
    var n := 0;
    while n < |xs|
      invariant n <= |xs|
      invariant forall i :: 0 <= i < n ==> Equal(toFloat, xs[i], ys[i])
    {
      r := AssertEqual(toFloat, xs[n], ys[n]);
      if r != Pass {
        return;
      }
      n := n + 1;
    }
    return Pass;
  }

  method AssertSets(toFloat: int -> Float, v1: Cell, v2: Cell) returns (r: Verdict)
    requires WellSorted(v1) && WellSorted(v2) && v1.v.VAttrs? && v2.v.VAttrs? && OutPaths(v1.v, v2.v).None?
    requires v1.id != v2.id
    ensures r == Pass <==> EqualSets(toFloat, v1.v, v2.v)
    ensures r != Impossible && (r != Pass ==> Explained(toFloat, r, v1, v2))
    decreases v1, 0
  {
    var xs, ys := v1.v.attrs, v2.v.attrs;
    if |xs| != |ys| {
      return DifferentSizes;
    }
    var n := 0;
    while n < |xs|
      invariant n <= |xs|
      invariant forall i :: 0 <= i < n ==> xs[i].name == ys[i].name && Equal(toFloat, xs[i].value, ys[i].value)
    {
      if xs[n].name != ys[n].name {
        FirstMismatch(xs, ys, n);
        if Get(ys, xs[n].name).None? {
          return NotInRight(xs[n].name);
        }
        if Get(xs, ys[n].name).None? {
          return NotInLeft(ys[n].name);
        }
        return Impossible;
      }
      r := AssertEqual(toFloat, xs[n].value, ys[n].value);
      if r != Pass {
        return;
      }
      n := n + 1;
    }
    return Pass;
  }
}
