/** Checking the formal arguments of a function when it is parsed. */
module FormalsCheck {
  import opened Options
  import Syntax

  type Symbol = Syntax.Symbol

  /** A formal argument as it was written. */
  datatype Formal = Formal(name: Symbol, pos: nat, def: Option<Syntax.Expr>)

  datatype Result = Accepted(formals: seq<Formal>) | Duplicate(name: Symbol, pos: nat) | ClashesWithArg(name: Symbol)

  /** Order by name, then by position. */
  predicate Before(a: Formal, b: Formal) {
    a.name < b.name || (a.name == b.name && a.pos < b.pos)
  }

  /** Sorted by name, and formals of one name by position. */
  predicate Sorted(fs: seq<Formal>) {
    forall i, j :: 0 <= i < j < |fs| ==>
      fs[i].name <= fs[j].name && (fs[i].name == fs[j].name ==> fs[i].pos <= fs[j].pos)
  }

  predicate DistinctNames(fs: seq<Formal>) {
    forall i, j :: 0 <= i < j < |fs| ==> fs[i].name != fs[j].name
  }

  predicate HasName(fs: seq<Formal>, name: Symbol) {
    exists i :: 0 <= i < |fs| && fs[i].name == name
  }

  function Insert(fs: seq<Formal>, f: Formal): seq<Formal> {
    if fs == [] || !Before(f, fs[|fs| - 1]) then fs + [f]
    else Insert(fs[..|fs| - 1], f) + [fs[|fs| - 1]]
  }

  function Sort(fs: seq<Formal>): seq<Formal> {
    if fs == [] then [] else Insert(Sort(fs[..|fs| - 1]), fs[|fs| - 1])
  }

  lemma {:induction false} InsertElements(fs: seq<Formal>, f: Formal)
    ensures multiset(Insert(fs, f)) == multiset(fs) + multiset{f}
    ensures forall x :: x in Insert(fs, f) <==> x == f || x in fs
    ensures |Insert(fs, f)| == |fs| + 1
    decreases |fs|
  {
    if fs != [] && Before(f, fs[|fs| - 1]) {
      InsertElements(fs[..|fs| - 1], f);
      assert fs == fs[..|fs| - 1] + [fs[|fs| - 1]];
    }
  }

  lemma {:induction false} InsertSorts(fs: seq<Formal>, f: Formal)
    requires Sorted(fs)
    ensures Sorted(Insert(fs, f))
    decreases |fs|
  {
    if fs != [] && Before(f, fs[|fs| - 1]) {
      var init, last := fs[..|fs| - 1], fs[|fs| - 1];
      InsertSorts(init, f);
      InsertElements(init, f);
      var r := Insert(init, f);
      forall i | 0 <= i < |r|
        ensures !Before(last, r[i])
      {
        assert r[i] in r;
      }
    } else if fs != [] {
      var last := fs[|fs| - 1];
      forall i | 0 <= i < |fs|
        ensures !Before(f, fs[i])
      {
        assert i == |fs| - 1 || !Before(last, fs[i]);
      }
    }
  }

  lemma {:induction false} SortSorts(fs: seq<Formal>)
    ensures Sorted(Sort(fs)) && multiset(Sort(fs)) == multiset(fs)
    ensures forall x :: x in Sort(fs) <==> x in fs
    ensures |Sort(fs)| == |fs|
    decreases |fs|
  {
    if fs != [] {
      var init, last := fs[..|fs| - 1], fs[|fs| - 1];
      SortSorts(init);
      InsertSorts(Sort(init), last);
      InsertElements(Sort(init), last);
      assert fs == init + [last];
    }
  }

  lemma {:induction false} InsertDistinct(fs: seq<Formal>, f: Formal)
    ensures DistinctNames(Insert(fs, f)) <==> DistinctNames(fs) && !HasName(fs, f.name)
    decreases |fs|
  {
    if fs != [] && Before(f, fs[|fs| - 1]) {
      hide Insert;
      var init, last := fs[..|fs| - 1], fs[|fs| - 1];
      InsertDistinct(init, f);
      InsertElements(init, f);
      InsertAtEnd(fs, f);
      SnocDistinct(init, last);
      SnocDistinct(Insert(init, f), last);
      assert fs == init + [last];
      SnocHasName(init, last, f.name);
      SameNames(init, f, Insert(init, f), last.name);
    } else {
      SnocDistinct(fs, f);
    }
  }

  lemma InsertAtEnd(fs: seq<Formal>, f: Formal)
    requires fs != [] && Before(f, fs[|fs| - 1])
    ensures Insert(fs, f) == Insert(fs[..|fs| - 1], f) + [fs[|fs| - 1]]
  {
  }

  lemma SnocDistinct(fs: seq<Formal>, f: Formal)
    ensures DistinctNames(fs + [f]) <==> DistinctNames(fs) && !HasName(fs, f.name)
  {
    var all := fs + [f];
    assert forall i :: 0 <= i < |fs| ==> all[i] == fs[i];
    if HasName(fs, f.name) {
      var i :| 0 <= i < |fs| && fs[i].name == f.name;
      assert all[i].name == all[|fs|].name;
    }
  }

  lemma SnocHasName(fs: seq<Formal>, f: Formal, name: Symbol)
    ensures HasName(fs + [f], name) <==> HasName(fs, name) || f.name == name
  {
    var all := fs + [f];
    assert all[|fs|] == f;
    if HasName(fs, name) {
      var i :| 0 <= i < |fs| && fs[i].name == name;
      assert all[i].name == name;
    }
  }

  lemma SameNames(fs: seq<Formal>, f: Formal, r: seq<Formal>, name: Symbol)
    requires forall x :: x in r <==> x == f || x in fs
    ensures HasName(r, name) <==> HasName(fs, name) || f.name == name
  {
    if HasName(r, name) {
      var i :| 0 <= i < |r| && r[i].name == name;
      assert r[i] in r;
    }
    if HasName(fs, name) {
      var i :| 0 <= i < |fs| && fs[i].name == name;
      assert fs[i] in r;
    }
    if f.name == name {
      assert f in r;
    }
  }

  lemma {:induction false} SortKeepsDistinct(fs: seq<Formal>)
    ensures DistinctNames(Sort(fs)) <==> DistinctNames(fs)
    ensures forall name :: HasName(Sort(fs), name) <==> HasName(fs, name)
    decreases |fs|
  {
    if fs != [] {
      hide Insert;
      var init, last := fs[..|fs| - 1], fs[|fs| - 1];
      SortKeepsDistinct(init);
      InsertDistinct(Sort(init), last);
      InsertElements(Sort(init), last);
      SnocDistinct(init, last);
      assert fs == init + [last];
      forall name
        ensures HasName(Sort(fs), name) <==> HasName(fs, name)
      {
        SameNames(Sort(init), last, Sort(fs), name);
        SnocHasName(init, last, name);
      }
    }
  }

  /** The formal at `i` has the name of the one after it. */
  predicate Repeats(fs: seq<Formal>, i: nat) {
    i + 1 < |fs| && fs[i].name == fs[i + 1].name
  }

  lemma SortedDistinctIff(fs: seq<Formal>)
    requires Sorted(fs)
    ensures DistinctNames(fs) <==> forall i :: 0 <= i < |fs| ==> !Repeats(fs, i)
  {
    if i :| 0 <= i < |fs| && Repeats(fs, i) {
    } else {
      forall i, j | 0 <= i < j < |fs|
        ensures fs[i].name != fs[j].name
      {
        assert !Repeats(fs, i);
        assert fs[i].name < fs[i + 1].name;
        assert !Before(fs[j], fs[i + 1]) || j == i + 1;
      }
    }
  }

  /** The formals that the evaluator sees. */
  function Bare(fs: seq<Formal>): seq<Syntax.Formal> {
    seq(|fs|, i requires 0 <= i < |fs| => Syntax.Formal(fs[i].name, fs[i].def))
  }

  /** Formals that are accepted are as the evaluator needs them to count its arguments. */
  lemma AcceptedAreSorted(fs: seq<Formal>)
    requires Sorted(fs) && DistinctNames(fs)
    ensures Syntax.SortedFormals(Bare(fs))
  {
    forall i, j | 0 <= i < j < |fs|
      ensures fs[i].name < fs[j].name
    {
      assert !Before(fs[j], fs[i]);
    }
  }

  /** Accepts exactly when all names are distinct and differ from the name for the whole argument. The
    accepted formals are sorted by name. A duplicate is reported by its smallest name, at the second
    place where that name occurs. */
  method ValidateFormals(formals: seq<Formal>, arg: Option<Symbol>) returns (r: Result)
    ensures r.Accepted? <==> DistinctNames(formals) && (arg.Some? ==> !HasName(formals, arg.value))
    ensures r.Accepted? ==> r.formals == Sort(formals) && Syntax.SortedFormals(Bare(r.formals))
    ensures r.Duplicate? <==> !DistinctNames(formals)
    ensures r.Duplicate? ==>
              exists i: nat :: Repeats(Sort(formals), i)
                && Sort(formals)[i + 1].name == r.name && Sort(formals)[i + 1].pos == r.pos
                && forall j: nat :: Repeats(Sort(formals), j) ==> j >= i
    ensures r.ClashesWithArg? ==> arg == Some(r.name)
  {
    hide Sort;
    SortSorts(formals);
    SortKeepsDistinct(formals);
    var fs := Sort(formals);
    SortedDistinctIff(fs);
    var duplicate: Option<(Symbol, nat)> := None;
    ghost var first: nat := 0;
    var i := 0;
    while i + 1 < |fs|
      invariant i <= |fs|
      invariant duplicate.None? ==> forall j :: 0 <= j < i ==> !Repeats(fs, j)
      invariant duplicate.Some? ==>
                  && first < i && Repeats(fs, first) && (forall j: nat :: Repeats(fs, j) ==> j >= first)
                  && duplicate.value == (fs[first].name, fs[first + 1].pos)
    {
      if Repeats(fs, i) {
        var thisDup: (Symbol, nat) := (fs[i].name, fs[i + 1].pos);
        if duplicate.None? {
          first := i;
        } else {
          LaterIsNotLess(fs, first, i);
        }
        duplicate := Some(Lesser(thisDup, if duplicate.Some? then duplicate.value else thisDup));
      }
      i := i + 1;
    }
    if duplicate.Some? {
      return Duplicate(duplicate.value.0, duplicate.value.1);
    }
    if arg.Some? {
      var found := FindName(fs, arg.value);
      if found {
        return ClashesWithArg(arg.value);
      }
    }
    AcceptedAreSorted(fs);
    return Accepted(fs);
  }

  function Lesser(a: (Symbol, nat), b: (Symbol, nat)): (Symbol, nat) {
    if a.0 < b.0 || (a.0 == b.0 && a.1 < b.1) then a else b
  }

  lemma LaterIsNotLess(fs: seq<Formal>, i: nat, j: nat)
    requires Sorted(fs) && i < j && Repeats(fs, i) && Repeats(fs, j)
    ensures fs[i].name <= fs[j].name && (fs[i].name == fs[j].name ==> fs[i + 1].pos <= fs[j + 1].pos)
  {
    assert !Before(fs[j], fs[i]) && !Before(fs[j + 1], fs[i + 1]);
  }

  /** Binary search in the sorted formals. */
  method FindName(fs: seq<Formal>, name: Symbol) returns (found: bool)
    requires Sorted(fs)
    ensures found <==> HasName(fs, name)
  {
    var lo, hi := 0, |fs|;
    while lo < hi
      invariant 0 <= lo <= hi <= |fs|
      invariant forall i :: 0 <= i < lo ==> fs[i].name < name
      invariant forall i :: hi <= i < |fs| ==> fs[i].name >= name
    {
      var mid := (lo + hi) / 2;
      assert forall i :: 0 <= i < mid ==> !Before(fs[mid], fs[i]);
      assert forall i :: mid < i < |fs| ==> !Before(fs[i], fs[mid]);
      if fs[mid].name < name {
        lo := mid + 1;
      } else {
        hi := mid;
      }
    }
    return lo < |fs| && fs[lo].name == name;
  }
}
