/** Attribute sets at run time: arrays of attributes, sorted by name, of a capacity fixed in advance. */
module AttrSets {
  import opened Options
  import Syntax

  type Symbol = Syntax.Symbol
  type Ptr = nat

  datatype Attr = Attr(name: Symbol, value: Ptr)

  // ---- sequences of attributes as maps ----

  /** What a sequence of attributes maps names to. */
  function ToMap(s: seq<Attr>): map<Symbol, Ptr> {
    if s == [] then map[] else ToMap(s[..|s| - 1])[s[|s| - 1].name := s[|s| - 1].value]
  }

  predicate Distinct(s: seq<Attr>) {
    forall i, j :: 0 <= i < j < |s| ==> s[i].name != s[j].name
  }

  predicate Sorted(s: seq<Attr>) {
    forall i, j :: 0 <= i < j < |s| ==> s[i].name < s[j].name
  }

  lemma {:induction false} ToMapAt(s: seq<Attr>)
    requires Distinct(s)
    ensures forall i :: 0 <= i < |s| ==> s[i].name in ToMap(s) && ToMap(s)[s[i].name] == s[i].value
    ensures forall n :: n in ToMap(s) ==> exists i :: 0 <= i < |s| && s[i].name == n
    decreases |s|
  {
    if s != [] {
      var init := s[..|s| - 1];
      ToMapAt(init);
      forall n | n in ToMap(s)
        ensures exists i :: 0 <= i < |s| && s[i].name == n
      {
        if n == s[|s| - 1].name {
        } else {
          assert n in ToMap(init);
          var i :| 0 <= i < |init| && init[i].name == n;
          assert s[i].name == n;
        }
      }
    }
  }

  lemma {:induction false} ToMapAppend(s: seq<Attr>, t: seq<Attr>)
    ensures ToMap(s + t) == ToMap(s) + ToMap(t)
    decreases |t|
  {
    if t == [] {
      assert s + t == s;
    } else {
      assert (s + t)[..|s + t| - 1] == s + t[..|t| - 1];
      ToMapAppend(s, t[..|t| - 1]);
    }
  }

  lemma NewName(s: seq<Attr>, a: Attr)
    requires Distinct(s)
    ensures a.name !in ToMap(s) <==> Distinct(s + [a])
    ensures ToMap(s + [a]) == ToMap(s)[a.name := a.value]
  {
    ToMapAt(s);
    assert (s + [a])[..|s|] == s;
    if a.name in ToMap(s) {
      var i :| 0 <= i < |s| && s[i].name == a.name;
      assert (s + [a])[i].name == (s + [a])[|s|].name;
    }
  }

  /** Distinct names make a sequence as long as its map. */
  lemma {:induction false} ToMapSize(s: seq<Attr>)
    requires Distinct(s)
    ensures |ToMap(s)| == |s|
    decreases |s|
  {
    if s != [] {
      var init := s[..|s| - 1];
      ToMapSize(init);
      NewName(init, s[|s| - 1]);
      assert s == init + [s[|s| - 1]];
      assert ToMap(s).Keys == ToMap(init).Keys + {s[|s| - 1].name};
      assert |ToMap(s)| == |ToMap(s).Keys| && |ToMap(init)| == |ToMap(init).Keys|;
    }
  }

  /** There is only one sorted sequence for a map, so it does not matter how sorting is done. */
  lemma {:induction false} SortedIsUnique(s: seq<Attr>, t: seq<Attr>)
    requires Sorted(s) && Sorted(t) && ToMap(s) == ToMap(t)
    ensures s == t
    decreases |s|
  {
    SortedIsDistinct(s);
    SortedIsDistinct(t);
    ToMapSize(s);
    ToMapSize(t);
    if s != [] {
      hide ToMap, Sorted;
      SameLast(s, t);
      SortedInit(s);
      SortedInit(t);
      SortedIsUnique(s[..|s| - 1], t[..|t| - 1]);
      SameSnoc(s, t);
    }
  }

  lemma SortedInit(s: seq<Attr>)
    requires Sorted(s) && s != []
    ensures Sorted(s[..|s| - 1])
  {
  }

  lemma SameSnoc(s: seq<Attr>, t: seq<Attr>)
    requires s != [] && t != [] && s[..|s| - 1] == t[..|t| - 1] && s[|s| - 1] == t[|t| - 1]
    ensures s == t
  {
    assert s == s[..|s| - 1] + [s[|s| - 1]] && t == t[..|t| - 1] + [t[|t| - 1]];
  }

  lemma SameLast(s: seq<Attr>, t: seq<Attr>)
    requires Sorted(s) && Sorted(t) && ToMap(s) == ToMap(t) && s != [] && t != []
    ensures s[|s| - 1] == t[|t| - 1] && ToMap(s[..|s| - 1]) == ToMap(t[..|t| - 1])
  {
    LastNotAbove(s, t);
    LastNotAbove(t, s);
    LastValue(s);
    LastValue(t);
    RemoveLast(s);
    RemoveLast(t);
  }

  lemma LastValue(s: seq<Attr>)
    requires s != []
    ensures s[|s| - 1].name in ToMap(s) && ToMap(s)[s[|s| - 1].name] == s[|s| - 1].value
  {
  }

  lemma LastNotAbove(s: seq<Attr>, t: seq<Attr>)
    requires Sorted(s) && Sorted(t) && ToMap(s) == ToMap(t) && s != [] && t != []
    ensures s[|s| - 1].name <= t[|t| - 1].name
  {
    ToMapAt(s);
    ToMapAt(t);
    assert s[|s| - 1].name in ToMap(t);
    var i :| 0 <= i < |t| && t[i].name == s[|s| - 1].name;
  }

  lemma RemoveLast(s: seq<Attr>)
    requires Distinct(s) && s != []
    ensures ToMap(s[..|s| - 1]) == map n | n in ToMap(s) && n != s[|s| - 1].name :: ToMap(s)[n]
  {
    NewName(s[..|s| - 1], s[|s| - 1]);
    assert s == s[..|s| - 1] + [s[|s| - 1]];
  }

  // ---- sorting ----

  function Insert(s: seq<Attr>, a: Attr): seq<Attr> {
    if s == [] || s[|s| - 1].name < a.name then s + [a]
    else Insert(s[..|s| - 1], a) + [s[|s| - 1]]
  }

  function SortAttrs(s: seq<Attr>): seq<Attr> {
    if s == [] then [] else Insert(SortAttrs(s[..|s| - 1]), s[|s| - 1])
  }

  lemma {:induction false} InsertElements(s: seq<Attr>, a: Attr)
    ensures forall x :: x in Insert(s, a) ==> x == a || x in s
    decreases |s|
  {
    if s != [] {
      InsertElements(s[..|s| - 1], a);
    }
  }

  lemma {:induction false} InsertMeans(s: seq<Attr>, a: Attr)
    requires forall x :: x in s ==> x.name != a.name
    ensures ToMap(Insert(s, a)) == ToMap(s)[a.name := a.value]
    decreases |s|
  {
    hide ToMap;
    MapSnoc(s, a);
    if s != [] && s[|s| - 1].name >= a.name {
      var init, last := s[..|s| - 1], s[|s| - 1];
      InsertMeans(init, a);
      MapSnoc(Insert(init, a), last);
      MapSnoc(init, last);
      assert s == init + [last] && last in s;
      SwapUpdates(ToMap(init), a, last);
    }
  }

  lemma {:induction false} InsertSorts(s: seq<Attr>, a: Attr)
    requires Sorted(s) && forall x :: x in s ==> x.name != a.name
    ensures Sorted(Insert(s, a))
    decreases |s|
  {
    if s != [] && s[|s| - 1].name >= a.name {
      var init, last := s[..|s| - 1], s[|s| - 1];
      InsertSorts(init, a);
      InsertElements(init, a);
      assert last in s;
      var r := Insert(init, a);
      forall i | 0 <= i < |r|
        ensures r[i].name < last.name
      {
        assert r[i] in r;
      }
    }
  }

  lemma InsertKeeps(s: seq<Attr>, a: Attr)
    requires Sorted(s) && a.name !in ToMap(s)
    ensures Sorted(Insert(s, a)) && |Insert(s, a)| == |s| + 1
    ensures ToMap(Insert(s, a)) == ToMap(s)[a.name := a.value]
  {
    ToMapAt(s);
    assert forall x :: x in s ==> x.name != a.name;
    InsertSorts(s, a);
    InsertMeans(s, a);
    InsertLength(s, a);
  }

  lemma SwapUpdates(m: map<Symbol, Ptr>, a: Attr, b: Attr)
    requires a.name != b.name
    ensures m[a.name := a.value][b.name := b.value] == m[b.name := b.value][a.name := a.value]
  {
  }

  lemma MapSnoc(s: seq<Attr>, a: Attr)
    ensures ToMap(s + [a]) == ToMap(s)[a.name := a.value]
  {
    assert (s + [a])[..|s|] == s;
  }

  /** Sorting keeps what the attributes mean. */
  lemma {:induction false} SortKeeps(s: seq<Attr>)
    requires Distinct(s)
    ensures Sorted(SortAttrs(s)) && |SortAttrs(s)| == |s| && ToMap(SortAttrs(s)) == ToMap(s)
    decreases |s|
  {
    if s != [] {
      var init := s[..|s| - 1];
      SortKeeps(init);
      NewName(init, s[|s| - 1]);
      assert s == init + [s[|s| - 1]];
      InsertKeeps(SortAttrs(init), s[|s| - 1]);
    }
  }

  // ---- the array ----

  class Bindings {
    const attrs: array<Attr>
    var size: nat

    ghost predicate Valid()
      reads this, attrs
    {
      size <= attrs.Length
    }

    ghost function Contents(): seq<Attr>
      requires Valid()
      reads this, attrs
    {
      attrs[..size]
    }

    constructor (capacity: nat)
      ensures Valid() && fresh(attrs) && attrs.Length == capacity && Contents() == []
    {
      attrs := new Attr[capacity](_ => Attr(0, 0));
      size := 0;
    }

    /** There must be room. */
    method PushBack(a: Attr)
      requires Valid() && size < attrs.Length
      modifies this, attrs
      ensures Valid() && Contents() == old(Contents()) + [a]
    {
      attrs[size] := a;
      size := size + 1;
      assert attrs[..size - 1] == old(Contents());
    }

    method Assign(i: nat, a: Attr)
      requires Valid() && i < size
      modifies attrs
      ensures Valid() && Contents() == old(Contents())[i := a]
    {
      attrs[i] := a;
    }

    /** Binary search for the first attribute whose name is not below `name`. */
    method Get(name: Symbol) returns (r: Option<Attr>)
      requires Valid() && Sorted(Contents())
      ensures r.Some? <==> name in ToMap(Contents())
      ensures r.Some? ==> r.value == Attr(name, ToMap(Contents())[name])
    {
      ghost var s := Contents();
      hide ToMap, Sorted;
      var lo, hi := 0, size;
      while lo < hi
        invariant lo <= hi <= size
        invariant forall i :: 0 <= i < lo ==> s[i].name < name
        invariant forall i :: hi <= i < size ==> s[i].name >= name
      {
        var mid := (lo + hi) / 2;
        SortedAround(s, mid);
        if attrs[mid].name < name {
          lo := mid + 1;
        } else {
          hi := mid;
        }
      }
      LowerBound(s, lo, name);
      if lo != size && attrs[lo].name == name {
        return Some(attrs[lo]);
      }
      return None;
    }

    method Sort()
      requires Valid()
      modifies attrs
      ensures Valid() && size == old(size) && |SortAttrs(old(Contents()))| == size
      ensures Contents() == SortAttrs(old(Contents()))
    {
      var sorted := SortAttrs(attrs[..size]);
      SortLength(attrs[..size]);
      var i := 0;
      while i < size
        invariant i <= size
        invariant attrs[..i] == sorted[..i]
      {
        attrs[i] := sorted[i];
        i := i + 1;
        assert attrs[..i] == attrs[..i - 1] + [sorted[i - 1]];
      }
    }
  }

  lemma SortedAround(s: seq<Attr>, mid: nat)
    requires Sorted(s) && mid < |s|
    ensures forall i :: 0 <= i <= mid ==> s[i].name <= s[mid].name
    ensures forall i :: mid <= i < |s| ==> s[mid].name <= s[i].name
  {
  }

  /** The first attribute that is not below a name is the only one that can have it. */
  lemma LowerBound(s: seq<Attr>, lo: nat, name: Symbol)
    requires Sorted(s) && lo <= |s|
    requires (forall i :: 0 <= i < lo ==> s[i].name < name) && (forall i :: lo <= i < |s| ==> s[i].name >= name)
    ensures name in ToMap(s) <==> lo < |s| && s[lo].name == name
    ensures name in ToMap(s) ==> ToMap(s)[name] == s[lo].value
  {
    ToMapAt(s);
    if name in ToMap(s) {
      var i :| 0 <= i < |s| && s[i].name == name;
      assert lo <= i;
    }
  }

  lemma {:induction false} InsertLength(s: seq<Attr>, a: Attr)
    ensures |Insert(s, a)| == |s| + 1
    decreases |s|
  {
    if s != [] {
      InsertLength(s[..|s| - 1], a);
    }
  }

  lemma {:induction false} SortLength(s: seq<Attr>)
    ensures |SortAttrs(s)| == |s|
    decreases |s|
  {
    if s != [] {
      SortLength(s[..|s| - 1]);
      InsertLength(SortAttrs(s[..|s| - 1]), s[|s| - 1]);
    }
  }

  /** Moving the attributes to a larger array. */
  method Grow(b: Bindings, capacity: nat) returns (r: Bindings)
    requires b.Valid() && b.size <= capacity
    ensures r.Valid() && fresh(r) && fresh(r.attrs) && r.attrs.Length == capacity && r.Contents() == b.Contents()
  {
    r := new Bindings(capacity);
    var i := 0;
    while i < b.size
      invariant i <= b.size && r.Valid() && r.Contents() == b.attrs[..i]
      invariant fresh(r) && fresh(r.attrs) && b.Valid() && b.Contents() == old(b.Contents())
    {
      r.PushBack(b.attrs[i]);
      i := i + 1;
    }
  }

  // ---- evaluating an attribute set expression ----

  /** What the name of a dynamic attribute evaluates to, and the delayed value. */
  datatype Dynamic = NoName | Named(a: Attr) | NameFails

  datatype Status = Fine | OverridesFail | BadName | AlreadyDefined(name: Symbol)

  datatype Meaning = Meaning(status: Status, attrs: map<Symbol, Ptr>)

  /** Dynamic attributes are added one by one; none may be defined already. */
  function AddDynamics(m: map<Symbol, Ptr>, ds: seq<Dynamic>): Meaning
    decreases |ds|
  {
    if ds == [] then Meaning(Fine, m)
    else match ds[0]
         case NoName => AddDynamics(m, ds[1..])
         case NameFails => Meaning(BadName, m)
         case Named(a) =>
           if a.name in m then Meaning(AlreadyDefined(a.name), m)
           else AddDynamics(m[a.name := a.value], ds[1..])
  }

  function NamesOf(ds: seq<Dynamic>): seq<Attr>
    decreases |ds|
  {
    if ds == [] then []
    else (if ds[0].Named? then [ds[0].a] else []) + NamesOf(ds[1..])
  }

  predicate Fresh(m: map<Symbol, Ptr>, s: seq<Attr>) {
    forall i :: 0 <= i < |s| ==> s[i].name !in m
  }

  /** Dynamic attributes can be added exactly when every name evaluates and all names are new and
    distinct; the result is then the union. */
  lemma {:induction false} DynamicsIff(m: map<Symbol, Ptr>, ds: seq<Dynamic>)
    ensures AddDynamics(m, ds).status == Fine
            <==> NameFails !in ds && Distinct(NamesOf(ds)) && Fresh(m, NamesOf(ds))
    ensures AddDynamics(m, ds).status == Fine ==> AddDynamics(m, ds).attrs == m + ToMap(NamesOf(ds))
    decreases |ds|
  {
    if ds != [] {
      var rest := ds[1..];
      assert ds == [ds[0]] + rest;
      match ds[0]
      case NameFails =>
      case NoName =>
        DynamicsIff(m, rest);
        assert NamesOf(ds) == NamesOf(rest);
      case Named(a) =>
        var names := NamesOf(rest);
        assert NamesOf(ds) == [a] + names;
        if a.name in m {
          assert NamesOf(ds)[0] == a;
        } else {
          hide ToMap, NamesOf, Distinct, Fresh;
          DynamicsIff(m[a.name := a.value], rest);
          ConsDistinct(m, a, names);
          ConsMap(m, a, names);
        }
    }
  }

  lemma ConsMap(m: map<Symbol, Ptr>, a: Attr, names: seq<Attr>)
    ensures m[a.name := a.value] + ToMap(names) == m + ToMap([a] + names)
  {
    ToMapAppend([a], names);
    assert [a][..0] == [];
    assert ToMap([a]) == map[a.name := a.value];
  }

  lemma ConsDistinct(m: map<Symbol, Ptr>, a: Attr, names: seq<Attr>)
    requires a.name !in m
    ensures Distinct([a] + names) && Fresh(m, [a] + names) <==> Distinct(names) && Fresh(m[a.name := a.value], names)
  {
    var all := [a] + names;
    assert forall i :: 0 <= i < |names| ==> names[i] == all[i + 1];
    if Distinct(all) && Fresh(m, all) {
      forall i | 0 <= i < |names|
        ensures names[i].name !in m[a.name := a.value]
      {
        assert all[0].name != all[i + 1].name;
      }
    }
  }

  lemma {:induction false} DynamicsSplit(m: map<Symbol, Ptr>, xs: seq<Dynamic>, ys: seq<Dynamic>)
    ensures AddDynamics(m, xs + ys)
            == var r := AddDynamics(m, xs); if r.status == Fine then AddDynamics(r.attrs, ys) else r
    decreases |xs|
  {
    if xs == [] {
      assert xs + ys == ys;
    } else {
      assert (xs + ys)[1..] == xs[1..] + ys;
      match xs[0]
      case NoName => DynamicsSplit(m, xs[1..], ys);
      case NameFails =>
      case Named(a) => DynamicsSplit(m[a.name := a.value], xs[1..], ys);
    }
  }

  /** The first `n` dynamic attributes can be added, and the one after them cannot. */
  ghost predicate StopsAt(m: map<Symbol, Ptr>, ds: seq<Dynamic>, n: nat) {
    && n < |ds| && NameFails !in ds[..n] && Distinct(NamesOf(ds[..n])) && Fresh(m, NamesOf(ds[..n]))
    && (ds[n].NameFails? || (ds[n].Named? && ds[n].a.name in m + ToMap(NamesOf(ds[..n]))))
  }

  /** Adding stops at the first dynamic attribute whose name fails to evaluate or is taken, and the error
    is about that one. */
  lemma DynamicsStop(m: map<Symbol, Ptr>, ds: seq<Dynamic>, n: nat)
    requires StopsAt(m, ds, n)
    ensures AddDynamics(m, ds) == Meaning(if ds[n].NameFails? then BadName else AlreadyDefined(ds[n].a.name),
                                          m + ToMap(NamesOf(ds[..n])))
  {
    hide ToMap, NamesOf, Distinct, Fresh;
    var before, rest := ds[..n], ds[n..];
    DynamicsIff(m, before);
    assert ds == before + rest && rest[0] == ds[n];
    DynamicsSplit(m, before, rest);
  }

  lemma {:induction false} DynamicsFail(m: map<Symbol, Ptr>, ds: seq<Dynamic>)
    ensures AddDynamics(m, ds).status != Fine <==> exists n: nat :: StopsAt(m, ds, n)
    decreases |ds|
  {
    if n: nat :| StopsAt(m, ds, n) {
      DynamicsStop(m, ds, n);
    } else if AddDynamics(m, ds).status != Fine {
      hide ToMap, NamesOf, Distinct, Fresh;
      var n := |ds| - 1;
      var before := ds[..n];
      assert ds == before + [ds[n]];
      DynamicsSplit(m, before, [ds[n]]);
      DynamicsFail(m, before);
      if k: nat :| StopsAt(m, before, k) {
        assert before[..k] == ds[..k] && before[k] == ds[k];
        assert StopsAt(m, ds, k);
      } else {
        DynamicsIff(m, before);
        assert StopsAt(m, ds, n);
      }
    }
  }

  /** What an attribute set expression means: its static attributes, overridden by `__overrides`, and the
    dynamic ones. `overrides` is absent when there is no such attribute, and its value may fail. */
  function SetMeaning(statics: seq<Attr>, overrides: Option<Option<seq<Attr>>>, ds: seq<Dynamic>): Meaning {
    if overrides == Some(None) then Meaning(OverridesFail, map[])
    else
      var base := ToMap(statics) + (if overrides.Some? then ToMap(overrides.value.value) else map[]);
      AddDynamics(base, ds)
  }

  /** The attributes of `__overrides`, if there are any. */
  function OverridesOf(overrides: Option<Option<seq<Attr>>>): seq<Attr> {
    if overrides.Some? && overrides.value.Some? then overrides.value.value else []
  }

  ghost predicate BoundBy(s: seq<Attr>, name: Symbol) {
    exists i :: 0 <= i < |s| && s[i].name == name
  }

  lemma InMapIff(s: seq<Attr>, name: Symbol)
    requires Distinct(s)
    ensures name in ToMap(s) <==> BoundBy(s, name)
  {
    ToMapAt(s);
  }

  lemma {:induction false} NoOverridesFail(m: map<Symbol, Ptr>, ds: seq<Dynamic>)
    ensures AddDynamics(m, ds).status != OverridesFail
    decreases |ds|
  {
    if ds != [] {
      match ds[0]
      case NameFails =>
      case NoName => NoOverridesFail(m, ds[1..]);
      case Named(a) => NoOverridesFail(m[a.name := a.value], ds[1..]);
    }
  }

  /** An attribute set expression has a value exactly when its overrides and computed names evaluate and no
    computed name is taken by another attribute. */
  lemma SetMeaningIff(statics: seq<Attr>, overrides: Option<Option<seq<Attr>>>, ds: seq<Dynamic>)
    requires Sorted(statics) && SortedOverrides(overrides)
    ensures var r, os, names := SetMeaning(statics, overrides, ds), OverridesOf(overrides), NamesOf(ds);
            && (r.status == OverridesFail <==> overrides == Some(None))
            && (r.status == Fine <==>
                && overrides != Some(None) && NameFails !in ds && Distinct(names)
                && forall i :: 0 <= i < |names| ==> !BoundBy(statics, names[i].name) && !BoundBy(os, names[i].name))
  {
    var os, names := OverridesOf(overrides), NamesOf(ds);
    var base := ToMap(statics) + ToMap(os);
    hide ToMap, NamesOf, AddDynamics, Distinct, BoundBy;
    NoOverridesFail(base, ds);
    DynamicsIff(base, ds);
    forall i | 0 <= i < |names|
      ensures names[i].name !in base <==> !BoundBy(statics, names[i].name) && !BoundBy(os, names[i].name)
    {
      BaseIff(statics, os, names[i].name);
    }
    if overrides != Some(None) {
      MeaningOverBase(statics, overrides, ds);
    }
  }

  lemma MeaningOverBase(statics: seq<Attr>, overrides: Option<Option<seq<Attr>>>, ds: seq<Dynamic>)
    requires overrides != Some(None)
    ensures SetMeaning(statics, overrides, ds) == AddDynamics(ToMap(statics) + ToMap(OverridesOf(overrides)), ds)
  {
    assert ToMap(statics) + map[] == ToMap(statics);
  }

  lemma BaseIff(statics: seq<Attr>, os: seq<Attr>, name: Symbol)
    requires Sorted(statics) && Sorted(os)
    ensures name in ToMap(statics) + ToMap(os) <==> BoundBy(statics, name) || BoundBy(os, name)
  {
    SortedIsDistinct(statics);
    SortedIsDistinct(os);
    InMapIff(statics, name);
    InMapIff(os, name);
  }

  /** Its attributes are the static ones, the overrides and those with computed names. An override takes
    precedence over a static attribute. */
  lemma SetMeaningAt(statics: seq<Attr>, overrides: Option<Option<seq<Attr>>>, ds: seq<Dynamic>, name: Symbol)
    requires Sorted(statics) && SortedOverrides(overrides) && SetMeaning(statics, overrides, ds).status == Fine
    ensures var m, os, names := SetMeaning(statics, overrides, ds).attrs, OverridesOf(overrides), NamesOf(ds);
            && (name in m <==> BoundBy(statics, name) || BoundBy(os, name) || BoundBy(names, name))
            && forall x :: (|| Attr(name, x) in names || Attr(name, x) in os
                            || (Attr(name, x) in statics && !BoundBy(os, name))) ==> m[name] == x
  {
    var os, names := OverridesOf(overrides), NamesOf(ds);
    var base := ToMap(statics) + ToMap(os);
    MeaningOverBase(statics, overrides, ds);
    hide ToMap, NamesOf, AddDynamics;
    DynamicsIff(base, ds);
    BaseIff(statics, os, name);
    InMapIff(names, name);
    ToMapAt(names);
    SortedIsDistinct(statics);
    SortedIsDistinct(os);
    InMapIff(os, name);
    ToMapAt(os);
    ToMapAt(statics);
    FreshMap(base, names);
  }

  predicate SortedOverrides(overrides: Option<Option<seq<Attr>>>) {
    overrides.Some? && overrides.value.Some? ==> Sorted(overrides.value.value)
  }

  /** The position of a static attribute, which is its slot in the frame of a recursive set. */
  method FindStatic(statics: seq<Attr>, name: Symbol) returns (displ: Option<nat>)
    ensures displ.Some? ==> displ.value < |statics| && statics[displ.value].name == name
    ensures displ.None? ==> forall i :: 0 <= i < |statics| ==> statics[i].name != name
  {
    var i := 0;
    while i < |statics|
      invariant i <= |statics|
      invariant forall j :: 0 <= j < i ==> statics[j].name != name
    {
      if statics[i].name == name {
        return Some(i);
      }
      i := i + 1;
    }
    return None;
  }

  /** The frame of a recursive set holds the values that the set has. */
  ghost predicate SlotsMatch(statics: seq<Attr>, slots: seq<Ptr>, contents: seq<Attr>) {
    && |slots| == |statics| <= |contents|
    && forall i :: 0 <= i < |statics| ==> contents[i] == Attr(statics[i].name, slots[i])
  }

  method InsertStatics(b: Bindings, slots: array<Ptr>, statics: seq<Attr>)
    requires b.Valid() && b.Contents() == [] && |statics| <= b.attrs.Length && slots.Length == |statics|
    modifies b, b.attrs, slots
    ensures b.Valid() && b.Contents() == statics && SlotsMatch(statics, slots[..], statics)
  {
    var displ := 0;
    while displ < |statics|
      invariant displ <= |statics| && b.Valid() && b.Contents() == statics[..displ]
      invariant forall i :: 0 <= i < displ ==> slots[i] == statics[i].value
    {
      slots[displ] := statics[displ].value;
      b.PushBack(statics[displ]);
      displ := displ + 1;
    }
  }

  lemma {:induction false} OverrideOld(contents: seq<Attr>, i: nat, a: Attr)
    requires Distinct(contents) && i < |contents| && contents[i].name == a.name
    ensures Distinct(contents[i := a]) && ToMap(contents[i := a]) == ToMap(contents)[a.name := a.value]
    decreases |contents|
  {
    hide ToMap;
    var init, last := contents[..|contents| - 1], contents[|contents| - 1];
    assert contents == init + [last];
    MapSnoc(init, last);
    if i == |contents| - 1 {
      assert contents[i := a] == init + [a];
      MapSnoc(init, a);
    } else {
      assert contents[i := a] == init[i := a] + [last];
      OverrideOld(init, i, a);
      MapSnoc(init[i := a], last);
      SwapUpdates(ToMap(init), a, last);
    }
    assert forall j :: 0 <= j < |contents| ==> contents[i := a][j].name == contents[j].name;
  }

  /** What the overrides loop keeps. */
  ghost predicate Overridden(statics: seq<Attr>, done: seq<Attr>, slots: seq<Ptr>, contents: seq<Attr>) {
    && SlotsMatch(statics, slots, contents) && Distinct(contents) && |contents| <= |statics| + |done|
    && ToMap(contents) == ToMap(statics) + ToMap(done)
  }

  lemma OverrideStatic(statics: seq<Attr>, done: seq<Attr>, slots: seq<Ptr>, contents: seq<Attr>, a: Attr, i: nat)
    requires Overridden(statics, done, slots, contents) && i < |statics| && statics[i].name == a.name
    ensures Overridden(statics, done + [a], slots[i := a.value], contents[i := a])
  {
    hide ToMap;
    MapSnoc(done, a);
    OverrideOld(contents, i, a);
  }

  lemma OverrideNew(statics: seq<Attr>, done: seq<Attr>, slots: seq<Ptr>, contents: seq<Attr>, a: Attr)
    requires Overridden(statics, done, slots, contents) && Distinct(statics) && Distinct(done + [a])
    requires forall i :: 0 <= i < |statics| ==> statics[i].name != a.name
    ensures Overridden(statics, done + [a], slots, contents + [a])
  {
    hide ToMap;
    assert Distinct(done) by {
      assert forall i :: 0 <= i < |done| ==> done[i] == (done + [a])[i];
    }
    NewName(done, a);
    ToMapAt(statics);
    assert a.name !in ToMap(contents);
    NewName(contents, a);
  }

  lemma NoOverrides(statics: seq<Attr>, slots: seq<Ptr>)
    requires Distinct(statics) && SlotsMatch(statics, slots, statics)
    ensures Overridden(statics, [], slots, statics)
  {
  }

  lemma OverriddenBound(statics: seq<Attr>, done: seq<Attr>, slots: seq<Ptr>, contents: seq<Attr>)
    requires Overridden(statics, done, slots, contents)
    ensures |slots| == |statics| <= |contents| <= |statics| + |done|
  {
  }

  method ApplyOverrides(b: Bindings, slots: array<Ptr>, statics: seq<Attr>, overrides: seq<Attr>)
    requires b.Valid() && b.Contents() == statics && Distinct(statics) && Sorted(overrides)
    requires SlotsMatch(statics, slots[..], statics) && |statics| + |overrides| <= b.attrs.Length
    modifies b, b.attrs, slots
    ensures b.Valid() && Overridden(statics, overrides, slots[..], b.Contents())
  {
    NoOverrides(statics, slots[..]);
    hide Overridden, SlotsMatch, ToMap;
    var n := 0;
    while n < |overrides|
      invariant n <= |overrides| && b.Valid()
      invariant Overridden(statics, overrides[..n], slots[..], b.Contents())
    {
      var a := overrides[n];
      assert overrides[..n + 1] == overrides[..n] + [a];
      OverriddenBound(statics, overrides[..n], slots[..], b.Contents());
      var j := FindStatic(statics, a.name);
      if j.Some? {
        OverrideStatic(statics, overrides[..n], slots[..], b.Contents(), a, j.value);
        b.Assign(j.value, a);
        slots[j.value] := a.value;
      } else {
        OverrideNew(statics, overrides[..n], slots[..], b.Contents(), a);
        b.PushBack(a);
      }
      n := n + 1;
    }
    assert overrides[..|overrides|] == overrides;
  }

  lemma AddDynamicsStep(m: map<Symbol, Ptr>, ds: seq<Dynamic>, n: nat)
    requires n < |ds|
    ensures AddDynamics(m, ds[n..]) == match ds[n]
                                       case NoName => AddDynamics(m, ds[n + 1..])
                                       case NameFails => Meaning(BadName, m)
                                       case Named(a) =>
                                         if a.name in m then Meaning(AlreadyDefined(a.name), m)
                                         else AddDynamics(m[a.name := a.value], ds[n + 1..])
  {
    assert ds[n..][1..] == ds[n + 1..];
  }

  method InsertDynamics(b: Bindings, ds: seq<Dynamic>, sort: bool) returns (status: Status, sort': bool)
    requires b.Valid() && Distinct(b.Contents()) && b.size + |ds| <= b.attrs.Length
    requires sort || Sorted(b.Contents())
    modifies b, b.attrs
    ensures b.Valid() && Distinct(b.Contents()) && (sort' || Sorted(b.Contents()))
    ensures AddDynamics(old(ToMap(b.Contents())), ds) == Meaning(status, ToMap(b.Contents()))
  {
    hide ToMap, Sorted, SortAttrs, AddDynamics, Distinct;
    sort' := sort;
    ghost var goal := AddDynamics(ToMap(b.Contents()), ds);
    assert ds[0..] == ds;
    var n := 0;
    while n < |ds|
      invariant n <= |ds| && b.Valid() && Distinct(b.Contents()) && b.size + (|ds| - n) <= b.attrs.Length
      invariant sort' || Sorted(b.Contents())
      invariant goal == AddDynamics(ToMap(b.Contents()), ds[n..])
    {
      AddDynamicsStep(ToMap(b.Contents()), ds, n);
      match ds[n] {
        case NoName =>
        case NameFails => return BadName, sort';
        case Named(a) =>
          if sort' {
            SortKeeps(b.Contents());
            b.Sort();
            SortedIsDistinct(b.Contents());
          }
          var j := b.Get(a.name);
          if j.Some? {
            return AlreadyDefined(a.name), sort';
          }
          NewName(b.Contents(), a);
          b.PushBack(a);
          sort' := true;
      }
      n := n + 1;
    }
    NoMoreDynamics(ToMap(b.Contents()), ds);
    status := Fine;
  }

  lemma NoMoreDynamics(m: map<Symbol, Ptr>, ds: seq<Dynamic>)
    ensures AddDynamics(m, ds[|ds|..]) == Meaning(Fine, m)
  {
  }

  /** Evaluating an attribute set expression. `statics` are the delayed static attributes in the order of
    their names. The result is sorted, fits its array, and denotes the meaning of the expression; in a
    recursive set the frame slots hold the same values as the set. */
  method EvalAttrs(statics: seq<Attr>, overrides: Option<Option<seq<Attr>>>, ds: seq<Dynamic>)
    returns (status: Status, b: Bindings, slots: array<Ptr>)
    requires Sorted(statics) && SortedOverrides(overrides)
    ensures status == SetMeaning(statics, overrides, ds).status
    ensures status == Fine ==>
              && b.Valid() && Sorted(b.Contents())
              && ToMap(b.Contents()) == SetMeaning(statics, overrides, ds).attrs
    ensures status == Fine ==>
              && slots.Length == |statics|
              && forall i :: 0 <= i < |statics| ==>
                   statics[i].name in ToMap(b.Contents()) && ToMap(b.Contents())[statics[i].name] == slots[i]
  {
    hide AddDynamics, ToMap, Sorted, SortAttrs;
    b := new Bindings(|statics| + |ds|);
    slots := new Ptr[|statics|];
    SortedIsDistinct(statics);
    InsertStatics(b, slots, statics);
    var sort := false;
    ghost var base := ToMap(statics);
    if overrides.Some? {
      if overrides.value.None? {
        return OverridesFail, b, slots;
      }
      var os := overrides.value.value;
      b := Grow(b, |statics| + |ds| + |os|);
      ApplyOverrides(b, slots, statics, os);
      sort := true;
      base := ToMap(statics) + ToMap(os);
    }
    assert ToMap(b.Contents()) == base && base + map[] == base;
    ghost var before := b.Contents();
    status, sort := InsertDynamics(b, ds, sort);
    if status == Fine {
      SlotsKept(statics, slots[..], before, ds, ToMap(b.Contents()));
      if sort {
        SortKeeps(b.Contents());
        b.Sort();
      }
    }
  }

  lemma SortedIsDistinct(s: seq<Attr>)
    requires Sorted(s)
    ensures Distinct(s)
  {
  }

  lemma SlotsKept(statics: seq<Attr>, slots: seq<Ptr>, before: seq<Attr>, ds: seq<Dynamic>, after: map<Symbol, Ptr>)
    requires SlotsMatch(statics, slots, before) && Distinct(before)
    requires AddDynamics(ToMap(before), ds) == Meaning(Fine, after)
    ensures forall i :: 0 <= i < |statics| ==> statics[i].name in after && after[statics[i].name] == slots[i]
  {
    ToMapAt(before);
    DynamicsIff(ToMap(before), ds);
    FreshMap(ToMap(before), NamesOf(ds));
    forall i | 0 <= i < |statics|
      ensures statics[i].name in after && after[statics[i].name] == slots[i]
    {
      assert before[i].name == statics[i].name;
    }
  }

  lemma FreshMap(m: map<Symbol, Ptr>, s: seq<Attr>)
    requires Fresh(m, s) && Distinct(s)
    ensures forall n :: n in m ==> n !in ToMap(s)
  {
    ToMapAt(s);
  }

  // ---- the update operator ----

  lemma ToMapSnoc(s: seq<Attr>, i: nat)
    requires i < |s|
    ensures ToMap(s[..i + 1]) == ToMap(s[..i])[s[i].name := s[i].value]
  {
    assert s[..i + 1][..i] == s[..i];
  }

  /** The first `i` and `j` attributes of the operands have been merged. */
  ghost predicate MergedUpTo(a: seq<Attr>, i: nat, b: seq<Attr>, j: nat, out: seq<Attr>) {
    && i <= |a| && j <= |b| && |out| <= i + j && Sorted(out)
    && ToMap(out) == ToMap(a[..i]) + ToMap(b[..j])
    && (forall k, l :: 0 <= k < |out| && i <= l < |a| ==> out[k].name < a[l].name)
    && (forall k, l :: 0 <= k < |out| && j <= l < |b| ==> out[k].name < b[l].name)
  }

  lemma TakeBoth(a: seq<Attr>, i: nat, b: seq<Attr>, j: nat, out: seq<Attr>)
    requires Sorted(a) && Sorted(b) && MergedUpTo(a, i, b, j, out)
    requires i < |a| && j < |b| && a[i].name == b[j].name
    ensures MergedUpTo(a, i + 1, b, j + 1, out + [b[j]])
  {
    hide ToMap;
    ToMapSnoc(a, i);
    ToMapSnoc(b, j);
    NewName(out, b[j]);
  }

  lemma TakeLeft(a: seq<Attr>, i: nat, b: seq<Attr>, j: nat, out: seq<Attr>)
    requires Sorted(a) && Sorted(b) && MergedUpTo(a, i, b, j, out)
    requires i < |a| && (j < |b| ==> a[i].name < b[j].name)
    ensures MergedUpTo(a, i + 1, b, j, out + [a[i]])
  {
    hide ToMap;
    ToMapSnoc(a, i);
    NewName(out, a[i]);
    NotBefore(out, a[i].name);
    assert a[i].name !in ToMap(b[..j]);
  }

  lemma NotBefore(out: seq<Attr>, name: Symbol)
    requires Sorted(out) && forall k :: 0 <= k < |out| ==> out[k].name < name
    ensures name !in ToMap(out)
  {
    ToMapAt(out);
  }

  lemma TakeRight(a: seq<Attr>, i: nat, b: seq<Attr>, j: nat, out: seq<Attr>)
    requires Sorted(a) && Sorted(b) && MergedUpTo(a, i, b, j, out)
    requires j < |b| && (i < |a| ==> b[j].name < a[i].name)
    ensures MergedUpTo(a, i, b, j + 1, out + [b[j]])
  {
    hide ToMap;
    ToMapSnoc(b, j);
    NewName(out, b[j]);
  }

  /** `v1 // v2`: one pass over two sorted sets, preferring the second. */
  method Update(v1: Bindings, v2: Bindings) returns (r: Bindings)
    requires v1.Valid() && v2.Valid() && Sorted(v1.Contents()) && Sorted(v2.Contents())
    ensures r.Valid() && Sorted(r.Contents())
    ensures ToMap(r.Contents()) == ToMap(v1.Contents()) + ToMap(v2.Contents())
  {
    hide ToMap, Sorted, MergedUpTo;
    ghost var a, b := v1.Contents(), v2.Contents();
    if v1.size == 0 {
      EmptyMap(a);
      assert map[] + ToMap(b) == ToMap(b);
      return v2;
    }
    if v2.size == 0 {
      EmptyMap(b);
      assert ToMap(a) + map[] == ToMap(a);
      return v1;
    }
    r := new Bindings(v1.size + v2.size);
    var i, j := 0, 0;
    NothingMerged(a, b);
    while i < v1.size || j < v2.size
      invariant r.Valid() && fresh(r) && fresh(r.attrs) && r.attrs.Length == v1.size + v2.size
      invariant v1.Valid() && v2.Valid() && v1.Contents() == a && v2.Contents() == b
      invariant i <= |a| && j <= |b| && MergedUpTo(a, i, b, j, r.Contents())
      decreases |a| - i + |b| - j
    {
      MergedBound(a, i, b, j, r.Contents());
      if i < v1.size && j < v2.size && v1.attrs[i].name == v2.attrs[j].name {
        TakeBoth(a, i, b, j, r.Contents());
        r.PushBack(v2.attrs[j]);
        i, j := i + 1, j + 1;
      } else if i < v1.size && (j == v2.size || v1.attrs[i].name < v2.attrs[j].name) {
        TakeLeft(a, i, b, j, r.Contents());
        r.PushBack(v1.attrs[i]);
        i := i + 1;
      } else {
        TakeRight(a, i, b, j, r.Contents());
        r.PushBack(v2.attrs[j]);
        j := j + 1;
      }
    }
    AllMerged(a, b, r.Contents());
  }

  lemma EmptyMap(s: seq<Attr>)
    requires s == []
    ensures ToMap(s) == map[]
  {
  }

  lemma NothingMerged(a: seq<Attr>, b: seq<Attr>)
    ensures MergedUpTo(a, 0, b, 0, [])
  {
  }

  lemma MergedBound(a: seq<Attr>, i: nat, b: seq<Attr>, j: nat, out: seq<Attr>)
    requires MergedUpTo(a, i, b, j, out)
    ensures |out| <= i + j
  {
  }

  lemma AllMerged(a: seq<Attr>, b: seq<Attr>, out: seq<Attr>)
    requires MergedUpTo(a, |a|, b, |b|, out)
    ensures Sorted(out) && ToMap(out) == ToMap(a) + ToMap(b)
  {
    assert a[..|a|] == a && b[..|b|] == b;
  }
}
