/** Attribute trees and their merge.

  What a list of bindings `a.b = e; a = { c = f; };` stands for, without positions or evaluation: a tree
  of sets whose leaves are the expressions that are not attribute sets. */
module AttrTrees {
  import opened Options
  import Syntax

  type Symbol = Syntax.Symbol

  datatype Tree<L> = Leaf(l: L) | Set(recursive: bool, attrs: map<Symbol, Tree<L>>)

  /** What is found in a tree at a path. */
  datatype Kind<L> = Absent | IsSet(recursive: bool) | IsLeaf(l: L)

  function At<L>(t: Tree<L>, path: seq<Symbol>): Kind<L>
    decreases |path|
  {
    if path == [] then (match t case Leaf(l) => IsLeaf(l) case Set(r, _) => IsSet(r))
    else if t.Set? && path[0] in t.attrs then At(t.attrs[path[0]], path[1..])
    else Absent
  }

  /** Two sets are merged attribute by attribute; anything else that is defined twice is an error. */
  function Merge<L>(a: Tree<L>, b: Tree<L>): Option<Tree<L>>
    decreases b
  {
    if a.Set? && b.Set? && forall k :: k in a.attrs && k in b.attrs ==> Merge(a.attrs[k], b.attrs[k]).Some?
    then Some(Set(a.recursive, map k | k in a.attrs.Keys + b.attrs.Keys ::
                    if k !in b.attrs then a.attrs[k]
                    else if k !in a.attrs then b.attrs[k]
                    else Merge(a.attrs[k], b.attrs[k]).value))
    else None
  }

  function Then<L>(a: Option<Tree<L>>, b: Option<Tree<L>>): Option<Tree<L>> {
    if a.Some? && b.Some? then Merge(a.value, b.value) else None
  }

  // ---- the parts of a merged tree ----

  lemma MergedTree<L>(a: Tree<L>, b: Tree<L>, m: Tree<L>)
    requires Merge(a, b) == Some(m)
    ensures a.Set? && b.Set? && m.Set? && m.recursive == a.recursive && m.attrs.Keys == a.attrs.Keys + b.attrs.Keys
    ensures forall k :: k in a.attrs && k !in b.attrs ==> m.attrs[k] == a.attrs[k]
    ensures forall k :: k in b.attrs && k !in a.attrs ==> m.attrs[k] == b.attrs[k]
    ensures forall k :: k in a.attrs && k in b.attrs ==> Merge(a.attrs[k], b.attrs[k]) == Some(m.attrs[k])
  {
  }

  lemma MergeFails<L>(a: Tree<L>, b: Tree<L>)
    requires a.Set? && b.Set?
    ensures Merge(a, b).None? <==> exists k :: k in a.attrs && k in b.attrs && Merge(a.attrs[k], b.attrs[k]).None?
  {
  }

  // ---- merging, path by path ----

  ghost predicate Clash<L(!new)>(a: Tree<L>, b: Tree<L>, path: seq<Symbol>) {
    && !At(a, path).Absent? && !At(b, path).Absent?
    && (At(a, path).IsLeaf? || At(b, path).IsLeaf?)
  }

  ghost predicate Conflict<L(!new)>(a: Tree<L>, b: Tree<L>) {
    exists path :: Clash(a, b, path)
  }

  lemma ClashBelow<L(!new)>(a: Tree<L>, b: Tree<L>, k: Symbol, path: seq<Symbol>)
    requires a.Set? && b.Set? && k in a.attrs && k in b.attrs && Clash(a.attrs[k], b.attrs[k], path)
    ensures Conflict(a, b)
  {
    assert ([k] + path)[1..] == path;
    assert Clash(a, b, [k] + path);
  }

  /** Two trees merge exactly when no path is defined in both and is a leaf in one of them. */
  lemma {:induction false} MergeDefinedIff<L(!new)>(a: Tree<L>, b: Tree<L>)
    ensures Merge(a, b).Some? <==> !Conflict(a, b)
    decreases b
  {
    if a.Leaf? || b.Leaf? {
      assert Clash(a, b, []);
    } else {
      forall k | k in a.attrs && k in b.attrs
        ensures Merge(a.attrs[k], b.attrs[k]).Some? <==> !Conflict(a.attrs[k], b.attrs[k])
      {
        MergeDefinedIff(a.attrs[k], b.attrs[k]);
      }
      if Merge(a, b).None? {
        var k :| k in a.attrs && k in b.attrs && Merge(a.attrs[k], b.attrs[k]).None?;
        var path :| Clash(a.attrs[k], b.attrs[k], path);
        ClashBelow(a, b, k, path);
      } else if Conflict(a, b) {
        var path :| Clash(a, b, path);
        assert Clash(a.attrs[path[0]], b.attrs[path[0]], path[1..]);
        assert false;
      }
    }
  }

  /** Everything of the first tree is found in the merged tree, and everything else of the second. */
  lemma {:induction false} MergeAt<L>(a: Tree<L>, b: Tree<L>, path: seq<Symbol>)
    requires Merge(a, b).Some?
    ensures At(Merge(a, b).value, path) == if At(a, path).Absent? then At(b, path) else At(a, path)
    decreases |path|
  {
    if path != [] && path[0] in a.attrs && path[0] in b.attrs {
      MergeAt(a.attrs[path[0]], b.attrs[path[0]], path[1..]);
    }
  }

  ghost predicate SameAt<L(!new)>(a: Tree<L>, b: Tree<L>) {
    forall path :: At(a, path) == At(b, path)
  }

  lemma SameBelow<L(!new)>(a: Tree<L>, b: Tree<L>, k: Symbol)
    requires a.Set? && b.Set? && SameAt(a, b) && k in a.attrs
    ensures k in b.attrs && SameAt(a.attrs[k], b.attrs[k])
  {
    assert At(a, [k]) == At(b, [k]);
    forall path
      ensures At(a.attrs[k], path) == (if k in b.attrs then At(b.attrs[k], path) else Absent)
    {
      assert ([k] + path)[1..] == path;
      assert At(a, [k] + path) == At(b, [k] + path);
    }
    assert At(a.attrs[k], []) != Absent;
  }

  /** A tree is determined by what is found at its paths. */
  lemma {:induction false} SameTree<L(!new)>(a: Tree<L>, b: Tree<L>)
    requires SameAt(a, b)
    ensures a == b
    decreases a
  {
    assert At(a, []) == At(b, []);
    if a.Set? {
      forall k | k in a.attrs
        ensures k in b.attrs && a.attrs[k] == b.attrs[k]
      {
        SameBelow(a, b, k);
        SameTree(a.attrs[k], b.attrs[k]);
      }
      forall k | k in b.attrs
        ensures k in a.attrs
      {
        SameBelow(b, a, k);
      }
      assert a.attrs == b.attrs;
    }
  }

  // ---- the order of merging ----

  /** Wherever both trees have a set, both or neither are recursive. */
  ghost predicate SameMarkers<L(!new)>(a: Tree<L>, b: Tree<L>) {
    forall path :: At(a, path).IsSet? && At(b, path).IsSet? ==> At(a, path) == At(b, path)
  }

  lemma ConflictSymmetric<L(!new)>(a: Tree<L>, b: Tree<L>)
    ensures Conflict(a, b) <==> Conflict(b, a)
  {
    assert forall path :: Clash(a, b, path) <==> Clash(b, a, path);
  }

  /** Merging commutes, up to the recursion markers: whether it succeeds never depends on the order, and
    the two trees are equal exactly when the markers of the common sets agree. */
  lemma MergeCommutesIff<L(!new)>(a: Tree<L>, b: Tree<L>)
    ensures Merge(a, b).Some? <==> Merge(b, a).Some?
    ensures Merge(a, b) == Merge(b, a) <==> Merge(a, b).Some? ==> SameMarkers(a, b)
  {
    MergeDefinedIff(a, b);
    MergeDefinedIff(b, a);
    ConflictSymmetric(a, b);
    if !Conflict(a, b) {
      var x, y := Merge(a, b).value, Merge(b, a).value;
      forall path
        ensures At(x, path) == (if At(a, path).Absent? then At(b, path) else At(a, path))
        ensures At(y, path) == (if At(b, path).Absent? then At(a, path) else At(b, path))
        ensures !Clash(a, b, path)
      {
        MergeAt(a, b, path);
        MergeAt(b, a, path);
      }
      if SameMarkers(a, b) {
        SameTree(x, y);
      } else {
        var path :| At(a, path).IsSet? && At(b, path).IsSet? && At(a, path) != At(b, path);
        assert At(x, path) != At(y, path);
      }
    }
  }

  lemma ConflictOfMerge<L(!new)>(a: Tree<L>, b: Tree<L>, c: Tree<L>)
    requires Merge(a, b).Some?
    ensures Conflict(Merge(a, b).value, c) <==> Conflict(a, c) || Conflict(b, c)
    ensures Conflict(c, Merge(a, b).value) <==> Conflict(c, a) || Conflict(c, b)
  {
    var ab := Merge(a, b).value;
    MergeDefinedIff(a, b);
    forall path
      ensures Clash(ab, c, path) <==> Clash(a, c, path) || Clash(b, c, path)
      ensures Clash(c, ab, path) <==> Clash(c, a, path) || Clash(c, b, path)
    {
      MergeAt(a, b, path);
      assert !Clash(a, b, path);
    }
  }

  /** Merging is associative, as a partial operation. */
  lemma MergeAssociates<L(!new)>(a: Tree<L>, b: Tree<L>, c: Tree<L>)
    ensures Then(Merge(a, b), Some(c)) == Then(Some(a), Merge(b, c))
  {
    MergeDefinedIff(a, b);
    MergeDefinedIff(b, c);
    if Merge(a, b).Some? {
      ConflictOfMerge(a, b, c);
      MergeDefinedIff(Merge(a, b).value, c);
    }
    if Merge(b, c).Some? {
      ConflictOfMerge(b, c, a);
      MergeDefinedIff(a, Merge(b, c).value);
    }
    if Merge(a, b).Some? && Merge(b, c).Some? && Then(Merge(a, b), Some(c)).Some? {
      var ab, bc := Merge(a, b).value, Merge(b, c).value;
      var x, y := Merge(ab, c).value, Merge(a, bc).value;
      forall path
        ensures At(x, path) == At(y, path)
      {
        MergeAt(a, b, path);
        MergeAt(b, c, path);
        MergeAt(ab, c, path);
        MergeAt(a, bc, path);
      }
      SameTree(x, y);
    }
  }

  // ---- lists of bindings ----

  datatype Binding<L> = Binding(path: seq<Symbol>, value: Tree<L>)

  function Empty<L>(): Tree<L> {
    Set(false, map[])
  }

  /** `a.b.c = e` as nested sets. */
  function Nest<L>(path: seq<Symbol>, e: Tree<L>): Tree<L>
    decreases |path|
  {
    if path == [] then e else Set(false, map[path[0] := Nest(path[1..], e)])
  }

  /** Adding one binding to a set: follow the path, make the sets that are missing, merge at its end. */
  function AddAttr<L>(t: Tree<L>, path: seq<Symbol>, e: Tree<L>): Option<Tree<L>>
    requires path != []
    decreases |path|
  {
    if t.Leaf? then None
    else if |path| == 1 then
      if path[0] !in t.attrs then Some(t.(attrs := t.attrs[path[0] := e]))
      else
        var r := Merge(t.attrs[path[0]], e);
        if r.Some? then Some(t.(attrs := t.attrs[path[0] := r.value])) else None
    else
      var nested := if path[0] in t.attrs then t.attrs[path[0]] else Empty();
      var r := AddAttr(nested, path[1..], e);
      if r.Some? then Some(t.(attrs := t.attrs[path[0] := r.value])) else None
  }

  /** Adding a binding is merging with the nested sets its path abbreviates. */
  lemma {:induction false} AddAttrIsMerge<L(!new)>(t: Tree<L>, path: seq<Symbol>, e: Tree<L>)
    requires path != []
    ensures AddAttr(t, path, e) == Merge(t, Nest(path, e))
    decreases |path|
  {
    hide Merge;
    if t.Set? {
      var k := path[0];
      var below := Nest(path[1..], e);
      MergeOne(t, k, below);
      if |path| == 1 {
        assert path[1..] == [];
      } else {
        var nested := if k in t.attrs then t.attrs[k] else Empty();
        AddAttrIsMerge(nested, path[1..], e);
        EmptyIsUnit(below);
      }
    } else {
      LeafClashes(t, Nest(path, e));
    }
  }

  lemma LeafClashes<L>(a: Tree<L>, b: Tree<L>)
    requires a.Leaf? || b.Leaf?
    ensures Merge(a, b).None?
  {
  }

  /** Merging with a set of one attribute. */
  lemma MergeOne<L>(t: Tree<L>, k: Symbol, x: Tree<L>)
    requires t.Set?
    ensures Merge(t, Set(false, map[k := x]))
            == if k !in t.attrs then Some(t.(attrs := t.attrs[k := x]))
               else
                 var r := Merge(t.attrs[k], x);
                 if r.Some? then Some(t.(attrs := t.attrs[k := r.value])) else None
  {
    hide Merge;
    var one := Set(false, map[k := x]);
    MergeFails(t, one);
    if Merge(t, one).Some? {
      MergedTree(t, one, Merge(t, one).value);
      assert Merge(t, one).value.attrs
             == t.attrs[k := if k in t.attrs then Merge(t.attrs[k], x).value else x];
    } else {
      assert k in t.attrs && Merge(t.attrs[k], x).None?;
    }
  }

  /** The set that a list of bindings builds, in order. */
  function Build<L>(bs: seq<Binding<L>>): Option<Tree<L>>
    requires forall b :: b in bs ==> b.path != []
    decreases |bs|
  {
    if bs == [] then Some(Empty())
    else
      var r := Build(bs[..|bs| - 1]);
      var b := bs[|bs| - 1];
      if r.Some? then AddAttr(r.value, b.path, b.value) else None
  }

  ghost predicate NotRecursive<L(!new)>(t: Tree<L>) {
    forall path :: At(t, path) != IsSet(true)
  }

  lemma {:induction false} NestNotRecursive<L(!new)>(path: seq<Symbol>, e: Tree<L>)
    requires NotRecursive(e)
    ensures NotRecursive(Nest(path, e))
    decreases |path|
  {
    if path != [] {
      NestNotRecursive(path[1..], e);
      forall p
        ensures At(Nest(path, e), p) != IsSet(true)
      {
        if p != [] && p[0] == path[0] {
          assert At(Nest(path, e), p) == At(Nest(path[1..], e), p[1..]);
        }
      }
    }
  }

  /** The merge of a list of trees, from left to right. */
  function MergeAll<L>(ts: seq<Tree<L>>): Option<Tree<L>>
    decreases |ts|
  {
    if ts == [] then Some(Empty())
    else Then(MergeAll(ts[..|ts| - 1]), Some(ts[|ts| - 1]))
  }

  function Trees<L>(bs: seq<Binding<L>>): seq<Tree<L>> {
    seq(|bs|, i requires 0 <= i < |bs| => Nest(bs[i].path, bs[i].value))
  }

  lemma {:induction false} BuildIsMergeAll<L(!new)>(bs: seq<Binding<L>>)
    requires forall b :: b in bs ==> b.path != []
    ensures Build(bs) == MergeAll(Trees(bs))
    decreases |bs|
  {
    if bs != [] {
      var init, b := bs[..|bs| - 1], bs[|bs| - 1];
      BuildIsMergeAll(init);
      assert Trees(bs)[..|bs| - 1] == Trees(init);
      if Build(init).Some? {
        AddAttrIsMerge(Build(init).value, b.path, b.value);
      }
    }
  }

  ghost predicate AllPlain<L(!new)>(ts: seq<Tree<L>>) {
    forall i :: 0 <= i < |ts| ==> NotRecursive(ts[i])
  }

  lemma SwapLast<L(!new)>(ts: seq<Tree<L>>, a: Tree<L>, b: Tree<L>)
    requires NotRecursive(a) && NotRecursive(b)
    ensures MergeAll(ts + [a, b]) == MergeAll(ts + [b, a])
  {
    MergeAllTwo(ts, a, b);
    MergeAllTwo(ts, b, a);
    MergeCommutesIff(a, b);
    assert SameMarkers(a, b) by {
      forall path | At(a, path).IsSet? && At(b, path).IsSet?
        ensures At(a, path) == At(b, path)
      {
        assert At(a, path) != IsSet(true) && At(b, path) != IsSet(true);
      }
    }
  }

  lemma MergeAllTwo<L(!new)>(ts: seq<Tree<L>>, a: Tree<L>, b: Tree<L>)
    ensures MergeAll(ts + [a, b]) == Then(MergeAll(ts), Merge(a, b))
  {
    hide Merge;
    assert (ts + [a, b])[..|ts| + 1] == ts + [a];
    assert (ts + [a])[..|ts|] == ts;
    if MergeAll(ts).Some? {
      MergeAssociates(MergeAll(ts).value, a, b);
    }
  }

  lemma {:induction false} MergeAllAppend<L>(xs: seq<Tree<L>>, ys: seq<Tree<L>>, zs: seq<Tree<L>>)
    requires MergeAll(xs) == MergeAll(ys)
    ensures MergeAll(xs + zs) == MergeAll(ys + zs)
    decreases |zs|
  {
    if zs == [] {
      assert xs + zs == xs && ys + zs == ys;
    } else {
      var init := zs[..|zs| - 1];
      MergeAllAppend(xs, ys, init);
      assert (xs + zs)[..|xs + zs| - 1] == xs + init && (ys + zs)[..|ys + zs| - 1] == ys + init;
    }
  }

  /** Any tree of the list can be merged last. */
  lemma {:induction false} MoveLast<L(!new)>(xs: seq<Tree<L>>, t: Tree<L>, ys: seq<Tree<L>>)
    requires NotRecursive(t) && AllPlain(ys)
    ensures MergeAll(xs + [t] + ys) == MergeAll(xs + ys + [t])
    decreases |ys|
  {
    hide MergeAll, NotRecursive;
    if ys == [] {
      assert xs + [t] + ys == xs + [t] && xs + ys + [t] == xs + [t];
    } else {
      var y, rest := ys[0], ys[1..];
      assert NotRecursive(y) && AllPlain(rest) by {
        assert forall i :: 0 <= i < |rest| ==> rest[i] == ys[i + 1];
      }
      SwapLast(xs, t, y);
      MergeAllAppend(xs + [t, y], xs + [y, t], rest);
      assert xs + [t] + ys == xs + [t, y] + rest;
      assert xs + [y, t] + rest == (xs + [y]) + [t] + rest;
      MoveLast(xs + [y], t, rest);
      assert (xs + [y]) + rest + [t] == xs + ys + [t];
    }
  }

  lemma CancelOne<T>(a: multiset<T>, b: multiset<T>, x: T)
    requires a + multiset{x} == b + multiset{x}
    ensures a == b
  {
    assert a == a + multiset{x} - multiset{x};
    assert b == b + multiset{x} - multiset{x};
  }

  /** Where the last element of a sequence is in a permutation of it. */
  lemma FindLast<T>(xs: seq<T>, ys: seq<T>) returns (before: seq<T>, after: seq<T>)
    requires multiset(xs) == multiset(ys) && xs != []
    ensures ys == before + [xs[|xs| - 1]] + after
    ensures multiset(xs[..|xs| - 1]) == multiset(before + after)
  {
    var init, t := xs[..|xs| - 1], xs[|xs| - 1];
    assert xs == init + [t];
    assert t in multiset(ys);
    var i :| 0 <= i < |ys| && ys[i] == t;
    before, after := ys[..i], ys[i + 1..];
    assert ys == before + [t] + after;
    assert multiset(ys) == multiset(before + after) + multiset{t};
    assert multiset(xs) == multiset(init) + multiset{t};
    CancelOne(multiset(init), multiset(before + after), t);
  }

  lemma {:induction false} MergeAllPermuted<L(!new)>(xs: seq<Tree<L>>, ys: seq<Tree<L>>)
    requires multiset(xs) == multiset(ys) && AllPlain(xs)
    ensures MergeAll(xs) == MergeAll(ys)
    decreases |xs|
  {
    hide NotRecursive, Then;
    if xs == [] {
      assert multiset(ys) == multiset{};
      assert ys == [];
    } else {
      var init, t := xs[..|xs| - 1], xs[|xs| - 1];
      var before, after := FindLast(xs, ys);
      PlainPermuted(xs, ys);
      assert AllPlain(after) by {
        assert forall i :: 0 <= i < |after| ==> after[i] == ys[|before| + 1 + i];
      }
      MoveLast(before, t, after);
      MergeAllPermuted(init, before + after);
      assert (before + after + [t])[..|before + after|] == before + after;
    }
  }

  lemma PlainPermuted<L(!new)>(xs: seq<Tree<L>>, ys: seq<Tree<L>>)
    requires multiset(xs) == multiset(ys) && AllPlain(xs)
    ensures AllPlain(ys)
  {
    forall i | 0 <= i < |ys|
      ensures NotRecursive(ys[i])
    {
      assert ys[i] in multiset(xs);
      var j :| 0 <= j < |xs| && xs[j] == ys[i];
    }
  }

  lemma {:induction false} TreesMultiset<L>(bs: seq<Binding<L>>, cs: seq<Binding<L>>)
    requires multiset(bs) == multiset(cs)
    ensures multiset(Trees(bs)) == multiset(Trees(cs))
    decreases |bs|
  {
    hide Nest;
    if bs == [] {
      assert multiset(cs) == multiset{};
      assert cs == [];
    } else {
      var init, b := bs[..|bs| - 1], bs[|bs| - 1];
      var before, after := FindLast(bs, cs);
      TreesMultiset(init, before + after);
      var n := Nest(b.path, b.value);
      assert Trees(bs) == Trees(init) + [n];
      assert Trees(cs) == Trees(before) + [n] + Trees(after);
      assert Trees(before + after) == Trees(before) + Trees(after);
    }
  }

  /** The order of the bindings of a set does not matter: every order builds the same tree, or every
    order is rejected. */
  lemma BuildIsOrderIndependent<L(!new)>(bs: seq<Binding<L>>, cs: seq<Binding<L>>)
    requires forall b :: b in bs ==> b.path != [] && NotRecursive(b.value)
    requires multiset(bs) == multiset(cs)
    ensures forall b :: b in cs ==> b.path != []
    ensures Build(bs) == Build(cs)
  {
    assert forall b :: b in cs ==> b in multiset(bs);
    BuildIsMergeAll(bs);
    BuildIsMergeAll(cs);
    TreesMultiset(bs, cs);
    forall i | 0 <= i < |bs|
      ensures NotRecursive(Trees(bs)[i])
    {
      NestNotRecursive(bs[i].path, bs[i].value);
    }
    MergeAllPermuted(Trees(bs), Trees(cs));
  }

  /** A list of bindings is accepted exactly when no two of them conflict. */
  lemma {:induction false} BuildDefinedIff<L(!new)>(bs: seq<Binding<L>>)
    requires forall b :: b in bs ==> b.path != []
    ensures Build(bs).Some? <==> PairwiseFree(Trees(bs))
    ensures Build(bs).Some? ==> forall path :: At(Build(bs).value, path) == First(Trees(bs), path)
    decreases |bs|
  {
    BuildIsMergeAll(bs);
    MergeAllDefinedIff(Trees(bs));
  }

  ghost predicate PairwiseFree<L(!new)>(ts: seq<Tree<L>>) {
    forall i, j :: 0 <= i < j < |ts| ==> !Conflict(ts[i], ts[j])
  }

  /** What the first tree that has anything at a path has there; there is always the set itself. */
  function First<L>(ts: seq<Tree<L>>, path: seq<Symbol>): Kind<L>
    decreases |ts|
  {
    if ts == [] then (if path == [] then IsSet(false) else Absent)
    else
      var k := First(ts[..|ts| - 1], path);
      if k.Absent? then At(ts[|ts| - 1], path) else k
  }

  ghost predicate FreeOf<L(!new)>(ts: seq<Tree<L>>, t: Tree<L>) {
    forall i :: 0 <= i < |ts| ==> !Conflict(ts[i], t)
  }

  lemma {:induction false} MergeAllDefinedIff<L(!new)>(ts: seq<Tree<L>>)
    requires forall i :: 0 <= i < |ts| ==> ts[i].Set?
    ensures MergeAll(ts).Some? <==> PairwiseFree(ts)
    ensures MergeAll(ts).Some? ==> forall path :: At(MergeAll(ts).value, path) == First(ts, path)
    ensures MergeAll(ts).Some? ==> MergeAll(ts).value.Set?
    decreases |ts|
  {
    if ts != [] {
      hide Clash, Conflict, Merge, At;
      var init, last := ts[..|ts| - 1], ts[|ts| - 1];
      MergeAllDefinedIff(init);
      PairwiseSplit(ts);
      if MergeAll(init).Some? {
        var r := MergeAll(init).value;
        MergeDefinedIff(r, last);
        ConflictOfAll(init, last);
        if Merge(r, last).Some? {
          MergedTree(r, last, Merge(r, last).value);
          forall path
            ensures At(MergeAll(ts).value, path) == First(ts, path)
          {
            MergeAt(r, last, path);
          }
        }
      }
    }
  }

  lemma PairwiseSplit<L(!new)>(ts: seq<Tree<L>>)
    requires ts != []
    ensures PairwiseFree(ts) <==> PairwiseFree(ts[..|ts| - 1]) && FreeOf(ts[..|ts| - 1], ts[|ts| - 1])
  {
    hide Conflict;
    var init := ts[..|ts| - 1];
    assert forall i :: 0 <= i < |init| ==> init[i] == ts[i];
  }

  lemma {:induction false} ConflictOfAll<L(!new)>(ts: seq<Tree<L>>, t: Tree<L>)
    requires MergeAll(ts).Some? && t.Set?
    ensures Conflict(MergeAll(ts).value, t) <==> !FreeOf(ts, t)
    decreases |ts|
  {
    if ts == [] {
      assert forall path :: !Clash(Empty(), t, path);
    } else {
      hide Conflict, Merge;
      var init, last := ts[..|ts| - 1], ts[|ts| - 1];
      ConflictOfAll(init, t);
      ConflictOfMerge(MergeAll(init).value, last, t);
      assert FreeOf(ts, t) <==> FreeOf(init, t) && !Conflict(last, t) by {
        assert forall i :: 0 <= i < |init| ==> init[i] == ts[i];
      }
    }
  }

  // ---- collapsed paths and nested braces ----

  function Prefixed<L>(path: seq<Symbol>, bs: seq<Binding<L>>): seq<Binding<L>> {
    seq(|bs|, i requires 0 <= i < |bs| => Binding(path + bs[i].path, bs[i].value))
  }

  lemma {:induction false} NestAppend<L>(p: seq<Symbol>, q: seq<Symbol>, e: Tree<L>)
    ensures Nest(p + q, e) == Nest(p, Nest(q, e))
    decreases |p|
  {
    if p == [] {
      assert p + q == q;
    } else {
      assert (p + q)[1..] == p[1..] + q;
      NestAppend(p[1..], q, e);
    }
  }

  lemma {:induction false} NestMerges<L>(p: seq<Symbol>, a: Tree<L>, b: Tree<L>)
    ensures var r := Merge(a, b);
            Merge(Nest(p, a), Nest(p, b)) == if r.Some? then Some(Nest(p, r.value)) else None
    decreases |p|
  {
    hide Merge;
    if p != [] {
      NestMerges(p[1..], a, b);
      MergeOne(Nest(p, a), p[0], Nest(p[1..], b));
      if Merge(a, b).Some? {
        assert map[p[0] := Nest(p[1..], a)][p[0] := Nest(p[1..], Merge(a, b).value)]
               == map[p[0] := Nest(p[1..], Merge(a, b).value)];
      }
    }
  }

  lemma EmptyIsUnit<L>(t: Tree<L>)
    requires t.Set? && !t.recursive
    ensures Merge(Empty(), t) == Some(t)
  {
    assert Merge(Empty(), t).value.attrs == t.attrs;
  }

  function NestAll<L>(p: seq<Symbol>, ts: seq<Tree<L>>): seq<Tree<L>> {
    seq(|ts|, i requires 0 <= i < |ts| => Nest(p, ts[i]))
  }

  lemma {:induction false} MergeAllNested<L>(p: seq<Symbol>, ts: seq<Tree<L>>)
    requires p != [] && ts != [] && forall i :: 0 <= i < |ts| ==> ts[i].Set? && !ts[i].recursive
    ensures MergeAll(NestAll(p, ts))
            == var r := MergeAll(ts);
               if r.Some? then Some(Nest(p, r.value)) else None
    decreases |ts|
  {
    var init, last := ts[..|ts| - 1], ts[|ts| - 1];
    assert NestAll(p, ts)[..|ts| - 1] == NestAll(p, init);
    if init == [] {
      EmptyIsUnit(last);
      EmptyIsUnit(Nest(p, last));
    } else {
      MergeAllNested(p, init);
      if MergeAll(init).Some? {
        NestMerges(p, MergeAll(init).value, last);
      }
    }
  }

  /** Merging a list after another one is merging what the two lists give. */
  lemma {:induction false} MergeAllThen<L(!new)>(xs: seq<Tree<L>>, zs: seq<Tree<L>>)
    requires zs != [] && zs[0].Set? && !zs[0].recursive
    ensures MergeAll(xs + zs) == Then(MergeAll(xs), MergeAll(zs))
    decreases |zs|
  {
    hide Merge;
    var init, last := zs[..|zs| - 1], zs[|zs| - 1];
    assert (xs + zs)[..|xs + zs| - 1] == xs + init;
    if init == [] {
      EmptyIsUnit(last);
      assert xs + init == xs;
    } else {
      MergeAllThen(xs, init);
      if MergeAll(xs).Some? && MergeAll(init).Some? {
        MergeAssociates(MergeAll(xs).value, MergeAll(init).value, last);
      }
    }
  }

  // ---- any mix of collapsed paths and nested braces ----

  /** A binding as it is written: a path bound to a value, or to braces with bindings in them. */
  datatype Item<L> = Item(path: seq<Symbol>, body: Body<L>)

  datatype Body<L> = Value(t: Tree<L>) | Braces(items: seq<Item<L>>)

  predicate WellFormed<L>(items: seq<Item<L>>) {
    forall i :: 0 <= i < |items| ==>
      items[i].path != [] && (items[i].body.Braces? ==> WellFormed(items[i].body.items))
  }

  /** The set that braces build: inner braces are built first, and each binding is added in turn. */
  function BuildItems<L>(items: seq<Item<L>>): Option<Tree<L>>
    requires WellFormed(items)
    decreases items
  {
    if items == [] then Some(Empty())
    else
      var last := items[|items| - 1];
      var r, v := BuildItems(items[..|items| - 1]), BuildBody(last.body);
      if r.Some? && v.Some? then AddAttr(r.value, last.path, v.value) else None
  }

  function BuildBody<L>(body: Body<L>): Option<Tree<L>>
    requires body.Braces? ==> WellFormed(body.items)
    decreases body
  {
    match body
    case Value(t) => Some(t)
    case Braces(items) => BuildItems(items)
  }

  /** The same bindings with all paths collapsed. Empty braces stay. */
  function Flatten<L>(items: seq<Item<L>>): seq<Binding<L>>
    decreases items
  {
    if items == [] then [] else Flatten(items[..|items| - 1]) + FlattenItem(items[|items| - 1])
  }

  function FlattenItem<L>(item: Item<L>): seq<Binding<L>>
    decreases item
  {
    match item.body
    case Value(t) => [Binding(item.path, t)]
    case Braces(items) =>
      if items == [] then [Binding(item.path, Empty())] else Prefixed(item.path, Flatten(items))
  }

  lemma {:induction false} FlattenPaths<L>(items: seq<Item<L>>)
    requires WellFormed(items)
    ensures items != [] ==> Flatten(items) != []
    ensures forall b :: b in Flatten(items) ==> b.path != []
    decreases items
  {
    if items != [] {
      FlattenPaths(items[..|items| - 1]);
      FlattenItemPaths(items[|items| - 1]);
    }
  }

  lemma {:induction false} FlattenItemPaths<L>(item: Item<L>)
    requires item.path != [] && (item.body.Braces? ==> WellFormed(item.body.items))
    ensures FlattenItem(item) != [] && forall b :: b in FlattenItem(item) ==> b.path != []
    decreases item
  {
    if item.body.Braces? {
      FlattenPaths(item.body.items);
    }
  }

  lemma {:induction false} BuildConcat<L(!new)>(xs: seq<Binding<L>>, ys: seq<Binding<L>>)
    requires forall b :: b in xs + ys ==> b.path != []
    requires ys != []
    ensures Build(xs + ys) == Then(Build(xs), MergeAll(Trees(ys)))
  {
    hide Build, MergeAll, Merge;
    assert forall b :: b in xs ==> b in xs + ys;
    assert ys[0] in xs + ys;
    BuildIsMergeAll(xs + ys);
    BuildIsMergeAll(xs);
    assert Trees(xs + ys) == Trees(xs) + Trees(ys);
    MergeAllThen(Trees(xs), Trees(ys));
  }

  /** Braces are shorthand: however a list of bindings mixes collapsed paths and nested braces, it builds
    what the collapsed list builds, or both are rejected. */
  lemma {:induction false} BracesAreShorthand<L(!new)>(items: seq<Item<L>>)
    requires WellFormed(items)
    ensures forall b :: b in Flatten(items) ==> b.path != []
    ensures BuildItems(items) == Build(Flatten(items))
    decreases items
  {
    hide Merge, Build;
    FlattenPaths(items);
    if items == [] {
      BuildIsMergeAll<L>([]);
    } else {
      var init, last := items[..|items| - 1], items[|items| - 1];
      BracesAreShorthand(init);
      FlattenItemPaths(last);
      ItemIsNested(last);
      BuildConcat(Flatten(init), FlattenItem(last));
      if BuildItems(init).Some? && BuildBody(last.body).Some? {
        AddAttrIsMerge(BuildItems(init).value, last.path, BuildBody(last.body).value);
      }
    }
  }

  lemma {:induction false} ItemIsNested<L(!new)>(item: Item<L>)
    requires item.path != [] && (item.body.Braces? ==> WellFormed(item.body.items))
    ensures MergeAll(Trees(FlattenItem(item)))
            == var v := BuildBody(item.body);
               if v.Some? then Some(Nest(item.path, v.value)) else None
    decreases item
  {
    hide Merge, Build;
    if item.body.Braces? && item.body.items != [] {
      var bs := Flatten(item.body.items);
      BracesAreShorthand(item.body.items);
      FlattenPaths(item.body.items);
      BuildIsMergeAll(bs);
      TreesOfPrefixed(item.path, bs);
      MergeAllNested(item.path, Trees(bs));
    } else {
      var t := if item.body.Value? then item.body.t else Empty();
      var ts := [Nest(item.path, t)];
      assert Trees(FlattenItem(item)) == ts && ts[..0] == [];
      EmptyIsUnit(ts[0]);
    }
  }

  lemma TreesOfPrefixed<L>(p: seq<Symbol>, bs: seq<Binding<L>>)
    ensures Trees(Prefixed(p, bs)) == NestAll(p, Trees(bs))
  {
    forall i | 0 <= i < |bs|
      ensures Trees(Prefixed(p, bs))[i] == Nest(p, Trees(bs)[i])
    {
      NestAppend(p, bs[i].path, bs[i].value);
    }
  }

  /** Two sources that collapse to the same bindings, in whatever order, build the same tree or are both
    rejected. */
  lemma {:induction false} SpellingIsIrrelevant<L(!new)>(xs: seq<Item<L>>, ys: seq<Item<L>>)
    requires WellFormed(xs) && WellFormed(ys)
    requires multiset(Flatten(xs)) == multiset(Flatten(ys))
    requires forall b :: b in Flatten(xs) ==> NotRecursive(b.value)
    ensures BuildItems(xs) == BuildItems(ys)
  {
    BracesAreShorthand(xs);
    BracesAreShorthand(ys);
    BuildIsOrderIndependent(Flatten(xs), Flatten(ys));
  }

  /** `k.rest`, collapsed or expanded. */
  function Spelled<L>(expand: bool, k: Symbol, item: Item<L>): Item<L> {
    if expand then Item([k], Braces([item])) else Item([k] + item.path, item.body)
  }

  /** The sixteen spellings of `{ a.b.c = x; a.b.d = y; }`, in either order of the two bindings, build one
    tree. With `c == d` all are rejected. */
  lemma {:induction false} SixteenSpellings<L(!new)>(a: Symbol, b: Symbol, c: Symbol, d: Symbol, x: L, y: L,
                                  w0: bool, w1: bool, w2: bool, w3: bool)
    ensures var one := Spelled(w0, a, Spelled(w1, b, Item([c], Value(Leaf(x)))));
            var two := Spelled(w2, a, Spelled(w3, b, Item([d], Value(Leaf(y)))));
            && WellFormed([one, two]) && WellFormed([two, one])
            && BuildItems([one, two]) == BuildItems([two, one])
            && BuildItems([one, two]) == if c == d then None
                                         else Some(Nest([a, b], Set(false, map[c := Leaf(x), d := Leaf(y)])))
  {
    var one := Spelled(w0, a, Spelled(w1, b, Item([c], Value(Leaf(x)))));
    var two := Spelled(w2, a, Spelled(w3, b, Item([d], Value(Leaf(y)))));
    SpelledFlat(w0, w1, a, b, c, x);
    SpelledFlat(w2, w3, a, b, d, y);
    hide *;
    TwoItems(one, two, [a, b, c], [a, b, d], x, y);
    assert [a, b] + [c] == [a, b, c] && [a, b] + [d] == [a, b, d];
    BuildTwo([a, b], c, d, x, y);
  }

  lemma {:induction false} TwoItems<L(!new)>(one: Item<L>, two: Item<L>, p: seq<Symbol>, q: seq<Symbol>, x: L, y: L)
    requires p != [] && q != [] && WellFormed([one]) && WellFormed([two])
    requires FlattenItem(one) == [Binding(p, Leaf(x))] && FlattenItem(two) == [Binding(q, Leaf(y))]
    ensures WellFormed([one, two]) && WellFormed([two, one]) && BuildItems([one, two]) == BuildItems([two, one])
    ensures BuildItems([one, two]) == Build([Binding(p, Leaf(x)), Binding(q, Leaf(y))])
  {
    WellFormedTwo(one, two);
    WellFormedTwo(two, one);
    FlattenTwo(one, two);
    FlattenTwo(two, one);
    LeavesCommute(p, q, x, y);
    hide *;
    SpellingIsIrrelevant([one, two], [two, one]);
    BracesAreShorthand([one, two]);
  }

  lemma {:induction false} WellFormedTwo<L>(one: Item<L>, two: Item<L>)
    requires WellFormed([one]) && WellFormed([two])
    ensures WellFormed([one, two])
  {
    assert [one][0] == one && [two][0] == two;
  }

  lemma LeavesCommute<L(!new)>(p: seq<Symbol>, q: seq<Symbol>, x: L, y: L)
    ensures var b, c := Binding(p, Leaf(x)), Binding(q, Leaf(y));
            && multiset([b] + [c]) == multiset([c] + [b])
            && (forall d :: d in [b] + [c] ==> NotRecursive(d.value))
            && [b] + [c] == [b, c]
  {
  }

  lemma {:induction false} SpelledFlat<L>(w: bool, w': bool, a: Symbol, b: Symbol, c: Symbol, x: L)
    ensures var item := Spelled(w, a, Spelled(w', b, Item([c], Value(Leaf(x)))));
            WellFormed([item]) && FlattenItem(item) == [Binding([a, b, c], Leaf(x))]
  {
    var leaf := Item([c], Value(Leaf(x)));
    var inner := Spelled(w', b, leaf);
    SpelledFlattens(w', b, leaf, [c], Leaf(x));
    assert [b] + [c] == [b, c] && [a] + [b, c] == [a, b, c];
    SpelledFlattens(w, a, inner, [b, c], Leaf(x));
  }

  lemma {:induction false} SpelledFlattens<L>(expand: bool, k: Symbol, item: Item<L>, path: seq<Symbol>, t: Tree<L>)
    requires WellFormed([item]) && FlattenItem(item) == [Binding(path, t)]
    requires item.body.Value? || |item.body.items| == 1
    ensures var s := Spelled(expand, k, item);
            && WellFormed([s]) && FlattenItem(s) == [Binding([k] + path, t)]
            && (s.body.Value? || |s.body.items| == 1)
  {
    FlattenOne(item);
    assert Prefixed([k], [Binding(path, t)]) == [Binding([k] + path, t)];
    if !expand && item.body.Braces? {
      var bs := Flatten(item.body.items);
      assert |bs| == 1 && Prefixed([k] + item.path, bs)[0].path == [k] + (item.path + bs[0].path);
      assert Prefixed(item.path, bs)[0] == Binding(path, t);
    }
  }

  lemma FlattenOne<L>(item: Item<L>)
    ensures Flatten([item]) == FlattenItem(item)
  {
    assert [item][..0] == [];
  }

  lemma FlattenTwo<L>(one: Item<L>, two: Item<L>)
    ensures Flatten([one, two]) == FlattenItem(one) + FlattenItem(two)
  {
    assert [one, two][..1] == [one];
    FlattenOne(one);
  }

  lemma BuildTwo<L(!new)>(p: seq<Symbol>, c: Symbol, d: Symbol, x: L, y: L)
    ensures Build([Binding(p + [c], Leaf(x)), Binding(p + [d], Leaf(y))])
            == if c == d then None else Some(Nest(p, Set(false, map[c := Leaf(x), d := Leaf(y)])))
  {
    var bs := [Binding(p + [c], Leaf(x)), Binding(p + [d], Leaf(y))];
    BuildIsMergeAll(bs);
    var one, two := Nest([c], Leaf(x)), Nest([d], Leaf(y));
    NestAppend(p, [c], Leaf(x));
    NestAppend(p, [d], Leaf(y));
    hide Merge, Build;
    assert Trees(bs) == [] + [Nest(p, one), Nest(p, two)];
    MergeAllTwo([], Nest(p, one), Nest(p, two));
    NestMerges(p, one, two);
    MergeOne(one, d, Leaf(y));
    LeafClashes(Leaf(x), Leaf(y));
    if c != d {
      var both := Set(false, map[c := Leaf(x), d := Leaf(y)]);
      assert one.(attrs := one.attrs[d := Leaf(y)]) == both;
      EmptyIsUnit(Nest(p, both));
    }
  }
}
