/** Merging attribute sets while parsing.

  The parser adds bindings to a set one at a time and merges two sets that are bound to the same name.
  A set keeps the source expressions of its `inherit (e) ...` clauses in a list. The attributes of one
  clause share one node that holds an index into that list. `displ` holds these shared indices, one per
  node, so moving attributes to another set has to shift them. */
module AttrMerge {
  import opened Options
  import opened AttrTrees

  datatype AttrName = Sym(symbol: Symbol) | Dyn(e: nat)

  datatype ParsedExpr = Other(id: nat) | Attrs(set_: ParsedSet)

  datatype Def = Plain(e: ParsedExpr) | Inherited | InheritedFrom(from: nat)

  datatype DynamicDef = DynamicDef(name: nat, e: ParsedExpr)

  datatype ParsedSet = ParsedSet(
    recursive: bool,
    attrs: map<Symbol, Def>,
    dynamics: seq<DynamicDef>,
    sources: seq<nat>,
    displ: map<nat, nat>)

  /** The leaves: an expression, a variable of the enclosing scope, or a selection from a source. */
  datatype LeafExpr = LExpr(id: nat) | LVariable | LFrom(source: Option<nat>)

  /** The source expression that the index of an inherit-from node selects. */
  function SourceOf(s: ParsedSet, from: nat): Option<nat> {
    if from in s.displ && s.displ[from] < |s.sources| then Some(s.sources[s.displ[from]]) else None
  }

  /** The tree of a parsed set. Attributes with computed names are not part of it. */
  function Denote(s: ParsedSet): Tree<LeafExpr>
    decreases s
  {
    Set(s.recursive, map k | k in s.attrs :: DenoteDef(s, s.attrs[k]))
  }

  function DenoteDef(owner: ParsedSet, d: Def): Tree<LeafExpr>
    decreases d
  {
    match d
    case Plain(e) => DenoteExpr(e)
    case Inherited => Leaf(LVariable)
    case InheritedFrom(from) => Leaf(LFrom(SourceOf(owner, from)))
  }

  function DenoteExpr(e: ParsedExpr): Tree<LeafExpr>
    decreases e
  {
    match e
    case Other(id) => Leaf(LExpr(id))
    case Attrs(n) => Denote(n)
  }

  // ---- what the parser does ----

  predicate IsSetDef(d: Def) {
    d.Plain? && d.e.Attrs?
  }

  /** The attributes that select through an inherit-from node. */
  function Users(s: ParsedSet, from: nat): set<Symbol> {
    set k | k in s.attrs && s.attrs[k] == InheritedFrom(from)
  }

  /** The indices of `s` once its attributes moved to a set with `n` sources: the node of an attribute is
    shifted when the attribute moves. */
  function Shifted(s: ParsedSet, n: nat): map<nat, nat> {
    map f | f in s.displ :: Shift(s.displ[f], |Users(s, f)|, n)
  }

  function Shift(displ: nat, times: nat, n: nat): nat {
    displ + times * n
  }

  /** Moving everything of `s` into `t`. */
  function MergeSets(t: ParsedSet, s: ParsedSet): Option<ParsedSet>
    decreases s
  {
    if forall k :: k in t.attrs && k in s.attrs ==> MergeDefs(t.attrs[k], s.attrs[k]).Some?
    then Some(ParsedSet(
                t.recursive,
                map k | k in t.attrs.Keys + s.attrs.Keys ::
                  if k !in s.attrs then t.attrs[k]
                  else if k !in t.attrs then s.attrs[k]
                  else MergeDefs(t.attrs[k], s.attrs[k]).value,
                t.dynamics + s.dynamics,
                t.sources + s.sources,
                t.displ + Shifted(s, |t.sources|)))
    else None
  }

  /** Two definitions of one name: an error unless both are sets. */
  function MergeDefs(a: Def, b: Def): Option<Def>
    decreases b
  {
    if IsSetDef(a) && IsSetDef(b) then
      var r := MergeSets(a.e.set_, b.e.set_);
      if r.Some? then Some(Plain(Attrs(r.value))) else None
    else None
  }

  /** Binding one name of a set. */
  function SetDef(t: ParsedSet, k: Symbol, d: Def): Option<ParsedSet> {
    var r := if k in t.attrs then MergeDefs(t.attrs[k], d) else Some(d);
    if r.Some? then Some(t.(attrs := t.attrs[k := r.value])) else None
  }

  function EmptySet(): ParsedSet {
    ParsedSet(false, map[], [], [], map[])
  }

  /** Binding an attribute path of a set. A computed name always makes a set of its own. */
  function AddPath(t: ParsedSet, path: seq<AttrName>, e: ParsedExpr): Option<ParsedSet>
    requires path != []
    decreases |path|
  {
    match path[0]
    case Sym(k) =>
      if |path| == 1 then SetDef(t, k, Plain(e))
      else if k in t.attrs && !IsSetDef(t.attrs[k]) then None
      else
        var nested := if k in t.attrs then t.attrs[k].e.set_ else EmptySet();
        var r := AddPath(nested, path[1..], e);
        if r.Some? then Some(t.(attrs := t.attrs[k := Plain(Attrs(r.value))])) else None
    case Dyn(x) =>
      if |path| == 1 then Some(t.(dynamics := t.dynamics + [DynamicDef(x, e)]))
      else
        var r := AddPath(EmptySet(), path[1..], e);
        if r.Some? then Some(t.(dynamics := t.dynamics + [DynamicDef(x, Attrs(r.value))])) else None
  }

  // ---- sets as they come from the parser ----

  predicate Distinct(xs: seq<nat>) {
    forall i, j :: 0 <= i < j < |xs| ==> xs[i] != xs[j]
  }

  /** Every inherit-from attribute selects from a source of its own set, here and in the sets below. */
  predicate Linked(s: ParsedSet)
    decreases s
  {
    && Distinct(s.sources)
    && (forall k :: k in s.attrs && s.attrs[k].InheritedFrom? ==>
          s.attrs[k].from in s.displ && s.displ[s.attrs[k].from] < |s.sources|)
    && (forall k :: k in s.attrs && IsSetDef(s.attrs[k]) ==> Linked(s.attrs[k].e.set_))
  }

  /** The inherit-from nodes of a set and of the sets below it. */
  function Nodes(s: ParsedSet): set<nat>
    decreases s
  {
    s.displ.Keys + set k, f | k in s.attrs && IsSetDef(s.attrs[k]) && f in Nodes(s.attrs[k].e.set_) :: f
  }

  function AllSources(s: ParsedSet): set<nat>
    decreases s
  {
    (set x | x in s.sources)
    + set k, f | k in s.attrs && IsSetDef(s.attrs[k]) && f in AllSources(s.attrs[k].e.set_) :: f
  }

  /** Two sets from different places of the text have no node and no source in common. */
  predicate Apart(t: ParsedSet, s: ParsedSet) {
    Nodes(t) !! Nodes(s) && AllSources(t) !! AllSources(s)
  }

  /** Every inherit-from clause of the set itself names at most one attribute. */
  predicate Unshared(s: ParsedSet) {
    forall k, l :: k in s.attrs && l in s.attrs && s.attrs[k].InheritedFrom? && s.attrs[l] == s.attrs[k] ==> k == l
  }

  /** Wherever two sets meet, the receiving one has no sources, or no node is shared in the other. */
  predicate Survives(t: ParsedSet, s: ParsedSet)
    decreases s
  {
    && (t.sources == [] || Unshared(s))
    && (forall k :: k in t.attrs && k in s.attrs && IsSetDef(t.attrs[k]) && IsSetDef(s.attrs[k]) ==>
          Survives(t.attrs[k].e.set_, s.attrs[k].e.set_))
  }

  // ---- merging parsed sets is merging trees ----

  /** The parts of a merged set. */
  lemma Merged(t: ParsedSet, s: ParsedSet, r: ParsedSet)
    requires MergeSets(t, s) == Some(r)
    ensures r.recursive == t.recursive && r.sources == t.sources + s.sources
    ensures r.displ == t.displ + Shifted(s, |t.sources|)
    ensures r.attrs.Keys == t.attrs.Keys + s.attrs.Keys
    ensures forall k :: k in t.attrs && k !in s.attrs ==> r.attrs[k] == t.attrs[k]
    ensures forall k :: k in s.attrs && k !in t.attrs ==> r.attrs[k] == s.attrs[k]
    ensures forall k :: k in s.attrs && k in t.attrs ==> MergeDefs(t.attrs[k], s.attrs[k]) == Some(r.attrs[k])
  {
    hide Shifted, Users, MergeDefs;
  }

  lemma MergedBelow(t: ParsedSet, s: ParsedSet, r: ParsedSet, k: Symbol)
    requires MergeSets(t, s) == Some(r) && k in t.attrs && k in s.attrs
    ensures k in r.attrs && IsSetDef(t.attrs[k]) && IsSetDef(s.attrs[k]) && IsSetDef(r.attrs[k])
    ensures MergeSets(t.attrs[k].e.set_, s.attrs[k].e.set_) == Some(r.attrs[k].e.set_)
  {
    hide MergeSets;
    Merged(t, s, r);
  }

  lemma MergeSetsFails(t: ParsedSet, s: ParsedSet)
    ensures MergeSets(t, s).None? <==>
            exists k :: k in t.attrs && k in s.attrs && MergeDefs(t.attrs[k], s.attrs[k]).None?
  {
  }

  lemma DenoteAttrs(s: ParsedSet)
    ensures Denote(s).Set? && Denote(s).recursive == s.recursive && Denote(s).attrs.Keys == s.attrs.Keys
    ensures forall k :: k in s.attrs ==> Denote(s).attrs[k] == DenoteDef(s, s.attrs[k])
  {
  }

  lemma DenoteSetDef(owner: ParsedSet, d: Def)
    ensures if IsSetDef(d) then DenoteDef(owner, d) == Denote(d.e.set_) && Denote(d.e.set_).Set?
            else DenoteDef(owner, d).Leaf?
  {
  }

  /** Whether two sets can be merged depends on their trees only. */
  lemma {:induction false} MergeSetsDefined(t: ParsedSet, s: ParsedSet)
    ensures MergeSets(t, s).Some? <==> Merge(Denote(t), Denote(s)).Some?
    decreases s
  {
    hide MergeSets, Merge, Denote, DenoteDef;
    DenoteAttrs(t);
    DenoteAttrs(s);
    var a, b := Denote(t), Denote(s);
    forall k | k in t.attrs && k in s.attrs
      ensures Merge(a.attrs[k], b.attrs[k]).None? <==> MergeDefs(t.attrs[k], s.attrs[k]).None?
    {
      DenoteSetDef(t, t.attrs[k]);
      DenoteSetDef(s, s.attrs[k]);
      if IsSetDef(t.attrs[k]) && IsSetDef(s.attrs[k]) {
        MergeSetsDefined(t.attrs[k].e.set_, s.attrs[k].e.set_);
      } else {
        LeafClashes(a.attrs[k], b.attrs[k]);
      }
    }
    MergeSetsFails(t, s);
    MergeFails(a, b);
  }

  lemma UsersOfUnshared(s: ParsedSet, k: Symbol)
    requires Unshared(s) && k in s.attrs && s.attrs[k].InheritedFrom?
    ensures |Users(s, s.attrs[k].from)| == 1
  {
    assert Users(s, s.attrs[k].from) == {k};
  }

  lemma UsersOfShared(s: ParsedSet, k: Symbol, l: Symbol)
    requires k in s.attrs && l in s.attrs && s.attrs[k].InheritedFrom? && s.attrs[l] == s.attrs[k] && k != l
    ensures |Users(s, s.attrs[k].from)| >= 2
  {
    var u := Users(s, s.attrs[k].from);
    assert {k, l} <= u;
    assert u == {k, l} + (u - {k, l});
    assert |u| == |{k, l}| + |u - {k, l}|;
  }

  lemma SourcesApart(t: ParsedSet, s: ParsedSet)
    requires Distinct(t.sources) && Distinct(s.sources) && AllSources(t) !! AllSources(s)
    ensures Distinct(t.sources + s.sources)
  {
    var all := t.sources + s.sources;
    forall i, j | 0 <= i < j < |all|
      ensures all[i] != all[j]
    {
      if i < |t.sources| <= j {
        assert all[i] in AllSources(t) && all[j] in AllSources(s);
      }
    }
  }

  lemma ShiftFacts(displ: nat, times: nat, n: nat)
    ensures times >= 1 ==> (Shift(displ, times, n) == displ + n <==> n == 0 || times == 1)
  {
    if times > 1 && n > 0 {
      assert times * n >= 2 * n;
    }
  }

  lemma IndexUnique(a: seq<nat>, b: seq<nat>, i: nat, index: nat)
    requires Distinct(a + b) && i < |b|
    ensures index < |a + b| && (a + b)[index] == b[i] <==> index == |a| + i
  {
    assert (a + b)[|a| + i] == b[i];
  }

  /** A moved attribute still selects from its source exactly when its node was shifted once, or by
    nothing. */
  lemma MovedAttribute(t: ParsedSet, s: ParsedSet, r: ParsedSet, k: Symbol)
    requires Linked(t) && Linked(s) && Apart(t, s) && MergeSets(t, s) == Some(r)
    requires k in s.attrs && s.attrs[k].InheritedFrom?
    ensures var f := s.attrs[k].from;
            SourceOf(r, f) == SourceOf(s, f) <==> t.sources == [] || |Users(s, f)| == 1
  {
    hide MergeSets, Nodes, AllSources, Shift, Distinct;
    var f := s.attrs[k].from;
    Merged(t, s, r);
    SourcesApart(t, s);
    var n := |Users(s, f)|;
    assert k in Users(s, f);
    assert r.displ[f] == Shift(s.displ[f], n, |t.sources|);
    ShiftFacts(s.displ[f], n, |t.sources|);
    IndexUnique(t.sources, s.sources, s.displ[f], r.displ[f]);
  }

  lemma NodesHere(s: ParsedSet)
    ensures s.displ.Keys <= Nodes(s)
  {
  }

  lemma KeptAttribute(t: ParsedSet, s: ParsedSet, r: ParsedSet, k: Symbol)
    requires Linked(t) && Apart(t, s) && MergeSets(t, s) == Some(r)
    requires k in t.attrs && s.attrs.Keys !! {k}
    ensures DenoteDef(r, r.attrs[k]) == DenoteDef(t, t.attrs[k])
  {
    hide MergeSets;
    Merged(t, s, r);
    if t.attrs[k].InheritedFrom? {
      var f := t.attrs[k].from;
      NodesHere(t);
      NodesHere(s);
      assert r.displ[f] == t.displ[f];
    }
  }

  lemma ApartBelow(t: ParsedSet, s: ParsedSet, k: Symbol, l: Symbol)
    requires Apart(t, s) && k in t.attrs && l in s.attrs && IsSetDef(t.attrs[k]) && IsSetDef(s.attrs[l])
    ensures Apart(t.attrs[k].e.set_, s.attrs[l].e.set_)
  {
    assert Nodes(t.attrs[k].e.set_) <= Nodes(t) && Nodes(s.attrs[l].e.set_) <= Nodes(s);
    assert AllSources(t.attrs[k].e.set_) <= AllSources(t) && AllSources(s.attrs[l].e.set_) <= AllSources(s);
  }

  /** The merged set denotes the merge of the two trees exactly when every node that moves to a set with
    sources is the node of one attribute. */
  lemma {:induction false} MergeSetsDenotes(t: ParsedSet, s: ParsedSet)
    requires Linked(t) && Linked(s) && Apart(t, s) && MergeSets(t, s).Some?
    ensures Some(Denote(MergeSets(t, s).value)) == Merge(Denote(t), Denote(s)) <==> Survives(t, s)
    decreases s
  {
    hide MergeSets, Merge, Denote, DenoteDef, Linked, Apart, Survives, Users;
    MergeSetsDefined(t, s);
    var r, m := MergeSets(t, s).value, Merge(Denote(t), Denote(s)).value;
    DenoteAttrs(t);
    DenoteAttrs(s);
    DenoteAttrs(r);
    Merged(t, s, r);
    MergedTree(Denote(t), Denote(s), m);
    forall k | k in m.attrs
      ensures Denote(r).attrs[k] == m.attrs[k] <==> KeySurvives(t, s, k)
    {
      if k in t.attrs && k in s.attrs {
        MergedBelow(t, s, r, k);
        LinkedBelow(t, k);
        LinkedBelow(s, k);
        ApartBelow(t, s, k, k);
        MergeSetsDenotes(t.attrs[k].e.set_, s.attrs[k].e.set_);
        DenoteSetDef(t, t.attrs[k]);
        DenoteSetDef(s, s.attrs[k]);
        DenoteSetDef(r, r.attrs[k]);
      } else if k in t.attrs {
        KeptAttribute(t, s, r, k);
      } else {
        MovedDef(t, s, r, k);
      }
    }
    assert Denote(r) == m <==> forall k :: k in m.attrs ==> Denote(r).attrs[k] == m.attrs[k] by {
      if forall k :: k in m.attrs ==> Denote(r).attrs[k] == m.attrs[k] {
        assert Denote(r).attrs == m.attrs;
      }
    }
    SurvivesByKey(t, s);
  }

  lemma MovedDef(t: ParsedSet, s: ParsedSet, r: ParsedSet, k: Symbol)
    requires Linked(t) && Linked(s) && Apart(t, s) && MergeSets(t, s) == Some(r)
    requires k in s.attrs && k !in t.attrs
    ensures k in r.attrs && (DenoteDef(r, r.attrs[k]) == DenoteDef(s, s.attrs[k]) <==> KeySurvives(t, s, k))
  {
    hide MergeSets, Linked, Apart, Survives, Users;
    Merged(t, s, r);
    if s.attrs[k].InheritedFrom? {
      MovedAttribute(t, s, r, k);
    }
  }

  lemma LinkedBelow(s: ParsedSet, k: Symbol)
    requires Linked(s) && k in s.attrs && IsSetDef(s.attrs[k])
    ensures Linked(s.attrs[k].e.set_)
  {
  }

  ghost predicate KeySurvives(t: ParsedSet, s: ParsedSet, k: Symbol) {
    if k in t.attrs && k in s.attrs then
      IsSetDef(t.attrs[k]) && IsSetDef(s.attrs[k]) ==> Survives(t.attrs[k].e.set_, s.attrs[k].e.set_)
    else k in s.attrs && s.attrs[k].InheritedFrom? ==> t.sources == [] || |Users(s, s.attrs[k].from)| == 1
  }

  lemma SurvivesByKey(t: ParsedSet, s: ParsedSet)
    requires MergeSets(t, s).Some?
    ensures Survives(t, s) <==> forall k :: k in t.attrs.Keys + s.attrs.Keys ==> KeySurvives(t, s, k)
  {
    hide MergeSets;
    Merged(t, s, MergeSets(t, s).value);
    if t.sources != [] {
      if Unshared(s) {
        forall k | k in s.attrs && s.attrs[k].InheritedFrom?
          ensures |Users(s, s.attrs[k].from)| == 1
        {
          UsersOfUnshared(s, k);
        }
      } else {
        var k, l :| k in s.attrs && l in s.attrs && s.attrs[k].InheritedFrom? && s.attrs[l] == s.attrs[k] && k != l;
        UsersOfShared(s, k, l);
        assert k in t.attrs.Keys + s.attrs.Keys && !KeySurvives(t, s, k);
      }
    }
  }

  // ---- any number of merges ----

  /** No inherit-from clause anywhere in a set names two attributes. */
  predicate AllUnshared(s: ParsedSet)
    decreases s
  {
    && Unshared(s)
    && forall k :: k in s.attrs && IsSetDef(s.attrs[k]) ==> AllUnshared(s.attrs[k].e.set_)
  }

  lemma {:induction false} UnsharedSurvives(t: ParsedSet, s: ParsedSet)
    requires AllUnshared(s)
    ensures Survives(t, s)
    decreases s
  {
    forall k | k in t.attrs && k in s.attrs && IsSetDef(t.attrs[k]) && IsSetDef(s.attrs[k])
      ensures Survives(t.attrs[k].e.set_, s.attrs[k].e.set_)
    {
      UnsharedSurvives(t.attrs[k].e.set_, s.attrs[k].e.set_);
    }
  }

  function Below(s: ParsedSet, k: Symbol): set<nat> {
    if k in s.attrs && IsSetDef(s.attrs[k]) then Nodes(s.attrs[k].e.set_) else {}
  }

  function SourcesBelow(s: ParsedSet, k: Symbol): set<nat> {
    if k in s.attrs && IsSetDef(s.attrs[k]) then AllSources(s.attrs[k].e.set_) else {}
  }

  lemma NodesIff(s: ParsedSet, f: nat)
    ensures f in Nodes(s) <==> f in s.displ || exists k :: f in Below(s, k)
    ensures f in AllSources(s) <==> f in s.sources || exists k :: f in SourcesBelow(s, k)
  {
    if f in Nodes(s) && f !in s.displ {
      var k :| k in s.attrs && IsSetDef(s.attrs[k]) && f in Nodes(s.attrs[k].e.set_);
      assert f in Below(s, k);
    }
    if f in AllSources(s) && f !in s.sources {
      var k :| k in s.attrs && IsSetDef(s.attrs[k]) && f in AllSources(s.attrs[k].e.set_);
      assert f in SourcesBelow(s, k);
    }
  }

  lemma {:induction false} MergedNodes(t: ParsedSet, s: ParsedSet)
    requires MergeSets(t, s).Some?
    ensures Nodes(MergeSets(t, s).value) == Nodes(t) + Nodes(s)
    ensures AllSources(MergeSets(t, s).value) == AllSources(t) + AllSources(s)
    decreases s
  {
    hide Nodes, AllSources, Shifted, MergeSets, MergeDefs;
    var r := MergeSets(t, s).value;
    Merged(t, s, r);
    ShiftedKeys(s, |t.sources|);
    forall k
      ensures Below(r, k) == Below(t, k) + Below(s, k)
      ensures SourcesBelow(r, k) == SourcesBelow(t, k) + SourcesBelow(s, k)
    {
      if k in t.attrs && k in s.attrs {
        MergedBelow(t, s, r, k);
        MergedNodes(t.attrs[k].e.set_, s.attrs[k].e.set_);
      }
    }
    hide Below, SourcesBelow;
    forall f
      ensures f in Nodes(r) <==> f in Nodes(t) + Nodes(s)
      ensures f in AllSources(r) <==> f in AllSources(t) + AllSources(s)
    {
      NodesIff(r, f);
      NodesIff(t, f);
      NodesIff(s, f);
    }
  }

  lemma ShiftedKeys(s: ParsedSet, n: nat)
    ensures Shifted(s, n).Keys == s.displ.Keys
  {
  }

  /** A merge that keeps the sources keeps all that the next merge needs. */
  lemma {:induction false} MergedStaysLinked(t: ParsedSet, s: ParsedSet)
    requires Linked(t) && Linked(s) && Apart(t, s) && Survives(t, s) && MergeSets(t, s).Some?
    ensures Linked(MergeSets(t, s).value)
    decreases s
  {
    hide MergeSets, Apart, Shifted, AllSources, Nodes;
    var r := MergeSets(t, s).value;
    Merged(t, s, r);
    assert Distinct(r.sources) by {
      ApartSources(t, s);
      SourcesApart(t, s);
    }
    MergedLinkedHere(t, s, r);
    forall k | k in r.attrs && IsSetDef(r.attrs[k])
      ensures Linked(r.attrs[k].e.set_)
    {
      if k in t.attrs && k in s.attrs {
        MergedBelow(t, s, r, k);
        ApartBelow(t, s, k, k);
        MergedStaysLinked(t.attrs[k].e.set_, s.attrs[k].e.set_);
      }
    }
  }

  lemma ApartSources(t: ParsedSet, s: ParsedSet)
    requires Apart(t, s)
    ensures AllSources(t) !! AllSources(s)
  {
  }

  lemma MergedLinkedHere(t: ParsedSet, s: ParsedSet, r: ParsedSet)
    requires Linked(t) && Linked(s) && Apart(t, s) && (t.sources == [] || Unshared(s)) && MergeSets(t, s) == Some(r)
    ensures forall k :: k in r.attrs && r.attrs[k].InheritedFrom? ==>
              r.attrs[k].from in r.displ && r.displ[r.attrs[k].from] < |r.sources|
  {
    hide MergeSets, Nodes, Shift, Users;
    Merged(t, s, r);
    NodesHere(t);
    NodesHere(s);
    assert t.displ.Keys !! s.displ.Keys;
    forall k | k in r.attrs && r.attrs[k].InheritedFrom?
      ensures r.attrs[k].from in r.displ && r.displ[r.attrs[k].from] < |r.sources|
    {
      if k in t.attrs {
        assert r.displ[r.attrs[k].from] == t.displ[r.attrs[k].from];
      } else {
        var f := r.attrs[k].from;
        UserCounts(s, k);
        if t.sources != [] {
          UsersOfUnshared(s, k);
        }
        ShiftFacts(s.displ[f], |Users(s, f)|, |t.sources|);
      }
    }
  }

  lemma UserCounts(s: ParsedSet, k: Symbol)
    requires k in s.attrs && s.attrs[k].InheritedFrom?
    ensures |Users(s, s.attrs[k].from)| >= 1
  {
    assert k in Users(s, s.attrs[k].from);
  }

  function DenoteAll(ss: seq<ParsedSet>): seq<Tree<LeafExpr>> {
    seq(|ss|, i requires 0 <= i < |ss| => Denote(ss[i]))
  }

  /** Merging a list of sets into an empty one. */
  function MergeList(ss: seq<ParsedSet>): Option<ParsedSet>
    decreases |ss|
  {
    if ss == [] then Some(EmptySet())
    else
      var r := MergeList(ss[..|ss| - 1]);
      if r.Some? then MergeSets(r.value, ss[|ss| - 1]) else None
  }

  ghost predicate Separate(ss: seq<ParsedSet>) {
    && (forall i :: 0 <= i < |ss| ==> Linked(ss[i]))
    && (forall i, j :: 0 <= i < j < |ss| ==> Apart(ss[i], ss[j]))
  }

  /** Every single merge of the sequence keeps the sources. */
  ghost predicate StepsSurvive(ss: seq<ParsedSet>)
    decreases |ss|
  {
    ss == [] || (
      var init := ss[..|ss| - 1];
      StepsSurvive(init) && (MergeList(init).Some? ==> Survives(MergeList(init).value, ss[|ss| - 1])))
  }

  /** An inherited attribute has lost its source: the tree says which source it should select from, the
    set has that source, and the attribute selects from something else. */
  ghost predicate Wrong(r: ParsedSet, tree: Tree<LeafExpr>)
    decreases r
  {
    tree.Set? && exists k :: k in r.attrs && k in tree.attrs && (WrongHere(r, tree, k) || WrongBelow(r, tree, k))
  }

  ghost predicate WrongHere(r: ParsedSet, tree: Tree<LeafExpr>, k: Symbol)
    requires tree.Set? && k in r.attrs && k in tree.attrs
  {
    var d, t := r.attrs[k], tree.attrs[k];
    && d.InheritedFrom? && d.from in r.displ
    && t.Leaf? && t.l.LFrom? && t.l.source.Some? && t.l.source.value in r.sources
    && SourceOf(r, d.from) != t.l.source
  }

  ghost predicate WrongBelow(r: ParsedSet, tree: Tree<LeafExpr>, k: Symbol)
    requires tree.Set? && k in r.attrs && k in tree.attrs
    decreases r, 0
  {
    IsSetDef(r.attrs[k]) && Wrong(r.attrs[k].e.set_, tree.attrs[k])
  }

  lemma {:induction false} WrongDiffers(r: ParsedSet, tree: Tree<LeafExpr>)
    requires Wrong(r, tree)
    ensures Denote(r) != tree
    decreases r
  {
    var k :| k in r.attrs && k in tree.attrs && (WrongHere(r, tree, k) || WrongBelow(r, tree, k));
    DenoteAttrs(r);
    DenoteSetDef(r, r.attrs[k]);
    if !WrongHere(r, tree, k) {
      WrongDiffers(r.attrs[k].e.set_, tree.attrs[k]);
    }
  }

  /** A lost source is not found again, whatever is merged later. */
  lemma {:induction false} WrongStays(r: ParsedSet, tree: Tree<LeafExpr>, u: ParsedSet)
    requires Wrong(r, tree) && Apart(r, u) && MergeSets(r, u).Some? && Merge(tree, Denote(u)).Some?
    ensures Wrong(MergeSets(r, u).value, Merge(tree, Denote(u)).value)
    decreases r
  {
    hide MergeSets, Merge, Denote, Apart;
    var k :| k in r.attrs && k in tree.attrs && (WrongHere(r, tree, k) || WrongBelow(r, tree, k));
    var r', tree' := MergeSets(r, u).value, Merge(tree, Denote(u)).value;
    Merged(r, u, r');
    MergedTree(tree, Denote(u), tree');
    DenoteAttrs(u);
    if k in u.attrs {
      MergedBelow(r, u, r', k);
      DenoteSetDef(u, u.attrs[k]);
      ApartBelow(r, u, k, k);
      WrongStays(r.attrs[k].e.set_, tree.attrs[k], u.attrs[k].e.set_);
      assert WrongBelow(r', tree', k);
    } else if WrongHere(r, tree, k) {
      WrongStaysHere(r, tree, u, r', tree', k);
    } else {
      assert WrongBelow(r', tree', k);
    }
  }

  lemma WrongStaysHere(r: ParsedSet, tree: Tree<LeafExpr>, u: ParsedSet, r': ParsedSet, tree': Tree<LeafExpr>,
                       k: Symbol)
    requires tree.Set? && k in r.attrs && k in tree.attrs && WrongHere(r, tree, k) && Apart(r, u)
    requires MergeSets(r, u) == Some(r') && tree'.Set? && k in r'.attrs && k in tree'.attrs
    requires r'.attrs[k] == r.attrs[k] && tree'.attrs[k] == tree.attrs[k]
    ensures WrongHere(r', tree', k)
  {
    hide MergeSets, Nodes, AllSources, Shifted;
    Merged(r, u, r');
    ShiftedKeys(u, |r.sources|);
    NodesHere(r);
    NodesHere(u);
    var f, y := r.attrs[k].from, tree.attrs[k].l.source.value;
    assert r'.displ[f] == r.displ[f];
    SourcesHere(r, y);
    if r.displ[f] >= |r.sources| && r.displ[f] < |r'.sources| {
      assert r'.sources[r.displ[f]] == u.sources[r.displ[f] - |r.sources|];
      SourcesHere(u, r'.sources[r.displ[f]]);
    }
  }

  lemma SourcesHere(s: ParsedSet, y: nat)
    requires y in s.sources
    ensures y in AllSources(s)
  {
  }

  /** A merge that does not survive loses a source. */
  lemma {:induction false} FailureIsWrong(t: ParsedSet, s: ParsedSet)
    requires Linked(t) && Linked(s) && Apart(t, s) && MergeSets(t, s).Some? && !Survives(t, s)
    requires Merge(Denote(t), Denote(s)).Some?
    ensures Wrong(MergeSets(t, s).value, Merge(Denote(t), Denote(s)).value)
    decreases s
  {
    hide MergeSets, Merge, Denote, Linked, Apart, Users, Unshared;
    var r, m := MergeSets(t, s).value, Merge(Denote(t), Denote(s)).value;
    Merged(t, s, r);
    MergedTree(Denote(t), Denote(s), m);
    DenoteAttrs(t);
    DenoteAttrs(s);
    if t.sources != [] && !Unshared(s) {
      var k := SharedIsWrong(t, s, r, m);
    } else {
      var k :| k in t.attrs && k in s.attrs && IsSetDef(t.attrs[k]) && IsSetDef(s.attrs[k])
               && !Survives(t.attrs[k].e.set_, s.attrs[k].e.set_);
      MergedBelow(t, s, r, k);
      LinkedBelow(t, k);
      LinkedBelow(s, k);
      ApartBelow(t, s, k, k);
      DenoteSetDef(t, t.attrs[k]);
      DenoteSetDef(s, s.attrs[k]);
      FailureIsWrong(t.attrs[k].e.set_, s.attrs[k].e.set_);
      assert WrongBelow(r, m, k);
    }
  }

  lemma SharedIsWrong(t: ParsedSet, s: ParsedSet, r: ParsedSet, m: Tree<LeafExpr>) returns (k: Symbol)
    requires Linked(t) && Linked(s) && Apart(t, s)
    requires MergeSets(t, s) == Some(r) && Merge(Denote(t), Denote(s)) == Some(m)
    requires t.sources != [] && !Unshared(s)
    ensures m.Set? && k in r.attrs && k in m.attrs && WrongHere(r, m, k)
  {
    hide MergeSets, Merge, Denote, Apart, Users, Linked, WrongHere;
    var l;
    k, l :| k in s.attrs && l in s.attrs && s.attrs[k].InheritedFrom? && s.attrs[l] == s.attrs[k] && k != l;
    UsersOfShared(s, k, l);
    MovedAttribute(t, s, r, k);
    MovedLeaf(t, s, r, m, k);
    SourceMoves(t, s, r, k);
    WrongIs(r, m, k);
  }

  lemma WrongIs(r: ParsedSet, m: Tree<LeafExpr>, k: Symbol)
    requires m.Set? && k in r.attrs && k in m.attrs && r.attrs[k].InheritedFrom? && r.attrs[k].from in r.displ
    requires m.attrs[k].Leaf? && m.attrs[k].l.LFrom? && m.attrs[k].l.source.Some?
    requires m.attrs[k].l.source.value in r.sources && SourceOf(r, r.attrs[k].from) != m.attrs[k].l.source
    ensures WrongHere(r, m, k)
  {
  }

  lemma MovedLeaf(t: ParsedSet, s: ParsedSet, r: ParsedSet, m: Tree<LeafExpr>, k: Symbol)
    requires MergeSets(t, s) == Some(r) && Merge(Denote(t), Denote(s)) == Some(m)
    requires k in s.attrs && s.attrs[k].InheritedFrom?
    ensures m.Set? && k in r.attrs && k in m.attrs && r.attrs[k] == s.attrs[k]
    ensures m.attrs[k] == Leaf(LFrom(SourceOf(s, s.attrs[k].from)))
  {
    hide MergeSets, Merge, Denote, Shifted;
    Merged(t, s, r);
    MergedTree(Denote(t), Denote(s), m);
    DenoteAttrs(t);
    DenoteAttrs(s);
    if k in t.attrs {
      MergedBelow(t, s, r, k);
      assert false;
    }
  }

  lemma SourceMoves(t: ParsedSet, s: ParsedSet, r: ParsedSet, k: Symbol)
    requires Linked(s) && MergeSets(t, s) == Some(r) && k in s.attrs && s.attrs[k].InheritedFrom?
    ensures s.attrs[k].from in r.displ
    ensures SourceOf(s, s.attrs[k].from).Some? && SourceOf(s, s.attrs[k].from).value in r.sources
  {
    hide MergeSets, Shifted;
    Merged(t, s, r);
    ShiftedKeys(s, |t.sources|);
    var f := s.attrs[k].from;
    assert r.sources[|t.sources| + s.displ[f]] == s.sources[s.displ[f]];
  }

  // ---- whether a sequence of merges succeeds ----

  /** The tree without what its leaves are. */
  function Shape<L>(t: Tree<L>): Tree<()> {
    match t
    case Leaf(_) => Leaf(())
    case Set(recursive, attrs) => Set(recursive, map k | k in attrs :: Shape(attrs[k]))
  }

  /** Whether trees merge depends on their shapes only. */
  lemma {:induction false} ShapeMerges<L>(a: Tree<L>, b: Tree<L>)
    ensures Merge(a, b).Some? <==> Merge(Shape(a), Shape(b)).Some?
    ensures Merge(a, b).Some? ==> Merge(Shape(a), Shape(b)) == Some(Shape(Merge(a, b).value))
    decreases b
  {
    hide Merge;
    if a.Leaf? || b.Leaf? {
      LeafClashes(a, b);
      LeafClashes(Shape(a), Shape(b));
    } else {
      ShapeAttrs(a);
      ShapeAttrs(b);
      hide Shape;
      forall k | k in a.attrs && k in b.attrs
        ensures Merge(a.attrs[k], b.attrs[k]).Some? <==> Merge(Shape(a.attrs[k]), Shape(b.attrs[k])).Some?
        ensures Merge(a.attrs[k], b.attrs[k]).Some? ==>
                  Merge(Shape(a.attrs[k]), Shape(b.attrs[k])) == Some(Shape(Merge(a.attrs[k], b.attrs[k]).value))
      {
        ShapeMerges(a.attrs[k], b.attrs[k]);
      }
      MergeFails(a, b);
      MergeFails(Shape(a), Shape(b));
      if Merge(a, b).Some? {
        SameShapes(a, b, Merge(a, b).value, Merge(Shape(a), Shape(b)).value);
      }
    }
  }

  lemma ShapeAttrs<L>(t: Tree<L>)
    requires t.Set?
    ensures Shape(t).Set? && Shape(t).recursive == t.recursive && Shape(t).attrs.Keys == t.attrs.Keys
    ensures forall k :: k in t.attrs ==> Shape(t).attrs[k] == Shape(t.attrs[k])
  {
  }

  lemma {:induction false} SameShapes<L>(a: Tree<L>, b: Tree<L>, m: Tree<L>, n: Tree<()>)
    requires a.Set? && b.Set? && Merge(a, b) == Some(m) && Merge(Shape(a), Shape(b)) == Some(n)
    requires forall k :: k in a.attrs && k in b.attrs && Merge(a.attrs[k], b.attrs[k]).Some? ==>
               Merge(Shape(a.attrs[k]), Shape(b.attrs[k])) == Some(Shape(Merge(a.attrs[k], b.attrs[k]).value))
    ensures n == Shape(m)
  {
    hide Merge, Shape;
    MergedTree(a, b, m);
    ShapeAttrs(a);
    ShapeAttrs(b);
    ShapeAttrs(m);
    MergedTree(Shape(a), Shape(b), n);
    forall k | k in n.attrs
      ensures n.attrs[k] == Shape(m).attrs[k]
    {
    }
    assert n.attrs == Shape(m).attrs;
  }

  /** The merged set has the shape of the merged tree, whatever happens to its sources. */
  lemma {:induction false} MergeSetsShape(t: ParsedSet, s: ParsedSet)
    requires MergeSets(t, s).Some?
    ensures Merge(Shape(Denote(t)), Shape(Denote(s))) == Some(Shape(Denote(MergeSets(t, s).value)))
    decreases s
  {
    hide MergeSets, Merge, Denote, DenoteDef, Shape;
    var r := MergeSets(t, s).value;
    MergeSetsDefined(t, s);
    ShapeMerges(Denote(t), Denote(s));
    var m := Merge(Denote(t), Denote(s)).value;
    DenoteAttrs(t);
    DenoteAttrs(s);
    DenoteAttrs(r);
    Merged(t, s, r);
    MergedTree(Denote(t), Denote(s), m);
    forall k | k in m.attrs
      ensures Shape(Denote(r).attrs[k]) == Shape(m.attrs[k])
    {
      if k in t.attrs && k in s.attrs {
        MergedBelow(t, s, r, k);
        DenoteSetDef(t, t.attrs[k]);
        DenoteSetDef(s, s.attrs[k]);
        DenoteSetDef(r, r.attrs[k]);
        MergeSetsShape(t.attrs[k].e.set_, s.attrs[k].e.set_);
        ShapeMerges(Denote(t.attrs[k].e.set_), Denote(s.attrs[k].e.set_));
      } else if k in t.attrs {
        SameDefShape(t, r, t.attrs[k]);
      } else {
        SameDefShape(s, r, s.attrs[k]);
      }
    }
    SetShape(Denote(r), m);
  }

  lemma SameDefShape(a: ParsedSet, b: ParsedSet, d: Def)
    ensures Shape(DenoteDef(a, d)) == Shape(DenoteDef(b, d))
  {
  }

  lemma SetShape<L>(a: Tree<L>, b: Tree<L>)
    requires a.Set? && b.Set? && a.recursive == b.recursive && a.attrs.Keys == b.attrs.Keys
    requires forall k :: k in a.attrs ==> Shape(a.attrs[k]) == Shape(b.attrs[k])
    ensures Shape(a) == Shape(b)
  {
    assert Shape(a).attrs == Shape(b).attrs;
  }

  /** A sequence of merges is refused exactly when the trees cannot be merged. */
  lemma {:induction false} MergeListDefined(ss: seq<ParsedSet>)
    ensures MergeList(ss).Some? <==> MergeAll(DenoteAll(ss)).Some?
    ensures MergeList(ss).Some? ==> Shape(Denote(MergeList(ss).value)) == Shape(MergeAll(DenoteAll(ss)).value)
    decreases |ss|
  {
    hide MergeSets, Merge, Denote, Shape;
    if ss == [] {
      DenoteEmpty();
    } else {
      var init, last := ss[..|ss| - 1], ss[|ss| - 1];
      MergeListDefined(init);
      assert DenoteAll(ss)[..|ss| - 1] == DenoteAll(init);
      if MergeList(init).Some? {
        var r, tree := MergeList(init).value, MergeAll(DenoteAll(init)).value;
        MergeSetsDefined(r, last);
        ShapeMerges(Denote(r), Denote(last));
        ShapeMerges(tree, Denote(last));
        if MergeSets(r, last).Some? {
          MergeSetsShape(r, last);
        }
      }
    }
  }

  /** A sequence of merges builds the merged tree, with the source of every inherited attribute, exactly
    when every single merge keeps the sources: a source once lost is never found again. */
  lemma {:induction false} MergeListDenotes(ss: seq<ParsedSet>)
    requires Separate(ss) && MergeList(ss).Some?
    ensures MergeAll(DenoteAll(ss)) == Some(Denote(MergeList(ss).value)) <==> StepsSurvive(ss)
    ensures if StepsSurvive(ss) then Linked(MergeList(ss).value)
            else MergeAll(DenoteAll(ss)).Some? && Wrong(MergeList(ss).value, MergeAll(DenoteAll(ss)).value)
    decreases |ss|
  {
    hide Linked, Apart, MergeSets, Merge, Denote, Separate, Survives, Wrong;
    MergeListDefined(ss);
    if ss == [] {
      DenoteEmpty();
    } else {
      var init, last := ss[..|ss| - 1], ss[|ss| - 1];
      SeparateInit(ss);
      MergeListDenotes(init);
      ListApart(init, last);
      assert DenoteAll(ss)[..|ss| - 1] == DenoteAll(init);
      MergeListDefined(init);
      var r, tree := MergeList(init).value, MergeAll(DenoteAll(init)).value;
      if !StepsSurvive(init) {
        WrongStays(r, tree, last);
      } else if Survives(r, last) {
        MergeSetsDenotes(r, last);
        MergedStaysLinked(r, last);
      } else {
        FailureIsWrong(r, last);
      }
      if !StepsSurvive(ss) {
        WrongDiffers(MergeList(ss).value, MergeAll(DenoteAll(ss)).value);
      }
    }
  }

  /** When no inherit-from clause names two attributes, every sequence of merges keeps the sources. */
  lemma {:induction false} UnsharedSteps(ss: seq<ParsedSet>)
    requires forall i :: 0 <= i < |ss| ==> AllUnshared(ss[i])
    ensures StepsSurvive(ss)
    decreases |ss|
  {
    if ss != [] {
      hide AllUnshared, Survives, MergeSets;
      var init := ss[..|ss| - 1];
      UnsharedSteps(init);
      if MergeList(init).Some? {
        UnsharedSurvives(MergeList(init).value, ss[|ss| - 1]);
      }
    }
  }

  lemma DenoteEmpty()
    ensures Denote(EmptySet()) == Empty() && Linked(EmptySet())
  {
    assert Denote(EmptySet()).attrs == map[];
  }

  lemma SeparateInit(ss: seq<ParsedSet>)
    requires Separate(ss) && ss != []
    ensures Separate(ss[..|ss| - 1]) && Linked(ss[|ss| - 1])
    ensures var init := ss[..|ss| - 1]; forall i :: 0 <= i < |init| ==> Apart(init[i], ss[|ss| - 1])
  {
    hide Linked, Apart;
  }

  lemma {:induction false} ListApart(ss: seq<ParsedSet>, u: ParsedSet)
    requires MergeList(ss).Some? && forall i :: 0 <= i < |ss| ==> Apart(ss[i], u)
    ensures Apart(MergeList(ss).value, u)
    decreases |ss|
  {
    if ss == [] {
      assert Nodes(EmptySet()) == {} && AllSources(EmptySet()) == {};
    } else {
      hide Apart, MergeSets;
      ListApart(ss[..|ss| - 1], u);
      ApartMerged(MergeList(ss[..|ss| - 1]).value, ss[|ss| - 1], u);
    }
  }

  lemma ApartMerged(t: ParsedSet, s: ParsedSet, u: ParsedSet)
    requires MergeSets(t, s).Some? && Apart(t, u) && Apart(s, u)
    ensures Apart(MergeSets(t, s).value, u)
  {
    MergedNodes(t, s);
  }

  // ---- attribute paths ----

  /** The set that a path with its value abbreviates. */
  function NestSet(path: seq<AttrName>, e: ParsedExpr): ParsedSet
    requires path != []
    decreases |path|
  {
    var rest := if |path| == 1 then e else Attrs(NestSet(path[1..], e));
    match path[0]
    case Sym(k) => EmptySet().(attrs := map[k := Plain(rest)])
    case Dyn(x) => EmptySet().(dynamics := [DynamicDef(x, rest)])
  }

  lemma MergeEmpty(s: ParsedSet)
    requires !s.recursive
    ensures MergeSets(EmptySet(), s) == Some(s)
  {
    var r := MergeSets(EmptySet(), s).value;
    assert r.attrs == s.attrs;
    forall f | f in s.displ
      ensures r.displ[f] == s.displ[f]
    {
      assert Shift(s.displ[f], |Users(s, f)|, 0) == s.displ[f];
    }
    assert r.displ == s.displ && r.sources == s.sources && r.dynamics == s.dynamics;
  }

  /** Binding a path, of static and computed names, is merging with the nested sets the path abbreviates. */
  lemma {:induction false} AddPathIsMerge(t: ParsedSet, path: seq<AttrName>, e: ParsedExpr)
    requires path != []
    ensures AddPath(t, path, e) == MergeSets(t, NestSet(path, e))
    decreases |path|
  {
    var n := NestSet(path, e);
    if |path| > 1 {
      MergeEmpty(NestSet(path[1..], e));
    }
    match path[0]
    case Sym(k) =>
      if |path| == 1 {
        SetDefIsMerge(t, k, Plain(e), n);
      } else {
        var below := NestSet(path[1..], e);
        var nested := if k in t.attrs && IsSetDef(t.attrs[k]) then t.attrs[k].e.set_ else EmptySet();
        AddPathIsMerge(nested, path[1..], e);
        SetDefIsMerge(t, k, Plain(Attrs(below)), n);
      }
    case Dyn(x) =>
      if |path| > 1 {
        AddPathIsMerge(EmptySet(), path[1..], e);
      }
      DynamicIsMerge(t, n);
  }

  lemma DynamicIsMerge(t: ParsedSet, n: ParsedSet)
    requires n == EmptySet().(dynamics := n.dynamics)
    ensures MergeSets(t, n) == Some(t.(dynamics := t.dynamics + n.dynamics))
  {
    assert t.sources + [] == t.sources;
    assert t.displ + Shifted(n, |t.sources|) == t.displ;
    assert MergeSets(t, n).value.attrs == t.attrs;
  }

  lemma SetDefIsMerge(t: ParsedSet, k: Symbol, d: Def, n: ParsedSet)
    requires d.Plain? && n == EmptySet().(attrs := map[k := d])
    ensures SetDef(t, k, d) == MergeSets(t, n)
  {
    assert t.dynamics + [] == t.dynamics && t.sources + [] == t.sources;
    assert t.displ + Shifted(n, |t.sources|) == t.displ;
    if MergeSets(t, n).Some? {
      assert SetDef(t, k, d).value.attrs == MergeSets(t, n).value.attrs;
    }
  }

  // ---- computed names ----

  /** The attributes with computed names of the set at a path of static names. */
  function DynamicsAt(s: ParsedSet, path: seq<Symbol>): seq<DynamicDef>
    decreases |path|
  {
    if path == [] then s.dynamics
    else if path[0] in s.attrs && IsSetDef(s.attrs[path[0]]) then DynamicsAt(s.attrs[path[0]].e.set_, path[1..])
    else []
  }

  /** Merging two sets puts the computed attributes of the second after those of the first, in every nested
    set. */
  lemma {:induction false} MergedDynamics(t: ParsedSet, s: ParsedSet, path: seq<Symbol>)
    requires MergeSets(t, s).Some?
    ensures DynamicsAt(MergeSets(t, s).value, path) == DynamicsAt(t, path) + DynamicsAt(s, path)
    decreases |path|
  {
    hide MergeDefs, Shifted;
    var r := MergeSets(t, s).value;
    if path != [] {
      hide MergeSets;
      Merged(t, s, r);
      var k := path[0];
      if k in t.attrs && k in s.attrs {
        MergedBelow(t, s, r, k);
        MergedDynamics(t.attrs[k].e.set_, s.attrs[k].e.set_, path[1..]);
      }
    }
  }

  /** How many names at the start of a path are static. */
  function StaticLength(path: seq<AttrName>): (n: nat)
    ensures n <= |path| && forall i :: 0 <= i < n ==> path[i].Sym?
    ensures n < |path| ==> path[n].Dyn?
  {
    if path == [] || path[0].Dyn? then 0 else 1 + StaticLength(path[1..])
  }

  function Symbols(path: seq<AttrName>): seq<Symbol>
    requires forall i :: 0 <= i < |path| ==> path[i].Sym?
  {
    seq(|path|, i requires 0 <= i < |path| => SymbolOf(path[i]))
  }

  function SymbolOf(n: AttrName): Symbol
    requires n.Sym?
  {
    n.symbol
  }

  /** What is bound below a computed name: the value itself, or the set that the rest of the path
    abbreviates. */
  function BoundTo(rest: seq<AttrName>, e: ParsedExpr): ParsedExpr {
    if rest == [] then e else Attrs(NestSet(rest, e))
  }

  /** The computed attributes that a binding adds to the set at `at`: the one its path goes through, if the
    static names before it lead there, or those of its value, if that is a set around `at`. */
  function Contribution(path: seq<AttrName>, e: ParsedExpr, at: seq<Symbol>): seq<DynamicDef> {
    var n := StaticLength(path);
    var before := Symbols(path[..n]);
    if n < |path| then
      if at == before then [DynamicDef(path[n].e, BoundTo(path[n + 1..], e))] else []
    else if e.Attrs? && before <= at then DynamicsAt(e.set_, at[n..])
    else []
  }

  lemma {:induction false} NestedDynamics(path: seq<AttrName>, e: ParsedExpr, at: seq<Symbol>)
    requires path != []
    ensures DynamicsAt(NestSet(path, e), at) == Contribution(path, e, at)
    decreases |path|
  {
    var rest := path[1..];
    match path[0]
    case Dyn(x) => assert Symbols(path[..0]) == [];
    case Sym(k) =>
      var n := StaticLength(path);
      assert Symbols(path[..n]) == [k] + Symbols(rest[..n - 1]);
      if at != [] {
        if at[0] == k {
          if rest == [] {
            assert Symbols(rest[..0]) == [] && at[1..][0..] == at[1..];
          } else {
            NestedDynamics(rest, e, at[1..]);
          }
          SameContribution(path, e, at);
        }
      }
  }

  lemma SameContribution(path: seq<AttrName>, e: ParsedExpr, at: seq<Symbol>)
    requires path != [] && at != [] && path[0] == Sym(at[0])
    ensures Contribution(path, e, at) == Contribution(path[1..], e, at[1..])
  {
    var n, rest := StaticLength(path), path[1..];
    var before, after := Symbols(path[..n]), Symbols(rest[..n - 1]);
    assert before == [at[0]] + after;
    assert at == [at[0]] + at[1..];
    assert at == before <==> at[1..] == after;
    assert before <= at <==> after <= at[1..];
    if n < |path| {
      assert path[n] == rest[n - 1] && path[n + 1..] == rest[n..];
    } else if before <= at {
      assert at[n..] == at[1..][n - 1..];
    }
  }

  // ---- any list of bindings ----

  /** A binding as it is written. */
  datatype ParsedBinding = ParsedBinding(path: seq<AttrName>, e: ParsedExpr)

  ghost predicate HavePaths(bs: seq<ParsedBinding>) {
    forall i :: 0 <= i < |bs| ==> bs[i].path != []
  }

  /** Adding bindings one after the other to an empty set. */
  function AddAll(bs: seq<ParsedBinding>): Option<ParsedSet>
    requires forall b :: b in bs ==> b.path != []
    decreases |bs|
  {
    if bs == [] then Some(EmptySet())
    else
      var r := AddAll(bs[..|bs| - 1]);
      var b := bs[|bs| - 1];
      if r.Some? then AddPath(r.value, b.path, b.e) else None
  }

  ghost function NestSets(bs: seq<ParsedBinding>): seq<ParsedSet>
    requires HavePaths(bs)
  {
    seq(|bs|, i requires 0 <= i < |bs| => NestSet(bs[i].path, bs[i].e))
  }

  lemma {:induction false} AddAllIsMergeList(bs: seq<ParsedBinding>)
    requires HavePaths(bs)
    ensures AddAll(bs) == MergeList(NestSets(bs))
    decreases |bs|
  {
    if bs != [] {
      hide MergeSets, AddPath, NestSet;
      var init, b := bs[..|bs| - 1], bs[|bs| - 1];
      AddAllIsMergeList(init);
      assert NestSets(bs)[..|bs| - 1] == NestSets(init);
      if AddAll(init).Some? {
        AddPathIsMerge(AddAll(init).value, b.path, b.e);
      }
    }
  }

  /** What all bindings contribute, in the order of the text. */
  function Contributions(bs: seq<ParsedBinding>, at: seq<Symbol>): seq<DynamicDef>
    decreases |bs|
  {
    if bs == [] then []
    else
      var b := bs[|bs| - 1];
      Contributions(bs[..|bs| - 1], at) + Contribution(b.path, b.e, at)
  }

  /** At every static path, the computed attributes of the set are those that the bindings contribute, in the
    order of the text. */
  lemma {:induction false} AddAllDynamics(bs: seq<ParsedBinding>, at: seq<Symbol>)
    requires HavePaths(bs) && AddAll(bs).Some?
    ensures DynamicsAt(AddAll(bs).value, at) == Contributions(bs, at)
    decreases |bs|
  {
    if bs == [] {
      assert DynamicsAt(EmptySet(), at) == [];
    } else {
      hide MergeSets, AddPath, NestSet, Contribution, DynamicsAt;
      var init, b := bs[..|bs| - 1], bs[|bs| - 1];
      AddAllDynamics(init, at);
      var r := AddAll(init).value;
      AddPathIsMerge(r, b.path, b.e);
      MergedDynamics(r, NestSet(b.path, b.e), at);
      NestedDynamics(b.path, b.e, at);
    }
  }

  // ---- the tree of a list of bindings ----

  /** The tree of the static names of a binding. A computed name ends it: what is below is no part of the
    tree, but the set it stands in is. */
  ghost function StaticTree(path: seq<AttrName>, e: ParsedExpr): Tree<LeafExpr>
    decreases |path|
  {
    if path == [] then DenoteExpr(e)
    else match path[0]
         case Sym(k) => Set(false, map[k := StaticTree(path[1..], e)])
         case Dyn(_) => Empty()
  }

  lemma {:induction false} NestSetDenotes(path: seq<AttrName>, e: ParsedExpr)
    requires path != []
    ensures Denote(NestSet(path, e)) == StaticTree(path, e)
    decreases |path|
  {
    hide Denote;
    var rest, n := path[1..], NestSet(path, e);
    DenoteAttrs(n);
    match path[0]
    case Dyn(_) => assert Denote(n).attrs == map[];
    case Sym(k) =>
      if |path| > 1 {
        NestSetDenotes(rest, e);
        DenoteSetDef(n, n.attrs[k]);
      } else {
        assert rest == [] && n.attrs[k] == Plain(e);
      }
      assert DenoteDef(n, n.attrs[k]) == StaticTree(rest, e);
      assert Denote(n).attrs == map[k := StaticTree(rest, e)];
  }

  ghost function StaticTrees(bs: seq<ParsedBinding>): seq<Tree<LeafExpr>> {
    seq(|bs|, i requires 0 <= i < |bs| => StaticTree(bs[i].path, bs[i].e))
  }

  lemma TreesOfBindings(bs: seq<ParsedBinding>)
    requires HavePaths(bs)
    ensures DenoteAll(NestSets(bs)) == StaticTrees(bs)
  {
    hide Denote, StaticTree, NestSet;
    forall i | 0 <= i < |bs|
      ensures DenoteAll(NestSets(bs))[i] == StaticTrees(bs)[i]
    {
      NestSetDenotes(bs[i].path, bs[i].e);
    }
  }

  ghost predicate AllStatic(bs: seq<ParsedBinding>) {
    forall i :: 0 <= i < |bs| ==> bs[i].path != [] && StaticLength(bs[i].path) == |bs[i].path|
  }

  /** Bindings of static paths, as bindings of trees. */
  ghost function TreeBindings(bs: seq<ParsedBinding>): (ts: seq<Binding<LeafExpr>>)
    requires AllStatic(bs)
    ensures |ts| == |bs| && forall b :: b in ts ==> b.path != []
  {
    seq(|bs|, i requires 0 <= i < |bs| => Binding(Symbols(bs[i].path), DenoteExpr(bs[i].e)))
  }

  lemma {:induction false} StaticTreeIsNest(path: seq<AttrName>, e: ParsedExpr)
    requires StaticLength(path) == |path|
    ensures StaticTree(path, e) == Nest(Symbols(path), DenoteExpr(e))
    decreases |path|
  {
    if path != [] {
      StaticTreeIsNest(path[1..], e);
      assert Symbols(path)[1..] == Symbols(path[1..]);
    }
  }

  /** For static paths the merge of the trees is what the bindings build. */
  lemma StaticIsBuild(bs: seq<ParsedBinding>)
    requires AllStatic(bs)
    ensures MergeAll(StaticTrees(bs)) == Build(TreeBindings(bs))
  {
    hide MergeAll, Build, StaticTree, Nest, DenoteExpr;
    BuildIsMergeAll(TreeBindings(bs));
    forall i | 0 <= i < |bs|
      ensures StaticTrees(bs)[i] == Trees(TreeBindings(bs))[i]
    {
      StaticTreeIsNest(bs[i].path, bs[i].e);
    }
    assert StaticTrees(bs) == Trees(TreeBindings(bs));
  }

  ghost function ExprNodes(e: ParsedExpr): set<nat> {
    if e.Attrs? then Nodes(e.set_) else {}
  }

  ghost function ExprSources(e: ParsedExpr): set<nat> {
    if e.Attrs? then AllSources(e.set_) else {}
  }

  lemma {:induction false} NestSetNodes(path: seq<AttrName>, e: ParsedExpr)
    requires path != []
    ensures Nodes(NestSet(path, e)) <= ExprNodes(e) && AllSources(NestSet(path, e)) <= ExprSources(e)
    ensures (e.Attrs? ==> Linked(e.set_)) ==> Linked(NestSet(path, e))
    decreases |path|
  {
    if |path| > 1 {
      NestSetNodes(path[1..], e);
    }
    if path[0].Sym? {
      OneAttribute(path[0].symbol, if |path| == 1 then e else Attrs(NestSet(path[1..], e)));
    }
  }

  lemma OneAttribute(k: Symbol, e: ParsedExpr)
    ensures var s := EmptySet().(attrs := map[k := Plain(e)]);
            && Nodes(s) == ExprNodes(e) && AllSources(s) == ExprSources(e)
            && ((e.Attrs? ==> Linked(e.set_)) ==> Linked(s))
  {
    var s := EmptySet().(attrs := map[k := Plain(e)]);
    forall f
      ensures f in Nodes(s) <==> f in ExprNodes(e)
      ensures f in AllSources(s) <==> f in ExprSources(e)
    {
      NodesIff(s, f);
      assert f in ExprNodes(e) ==> f in Below(s, k);
      assert f in ExprSources(e) ==> f in SourcesBelow(s, k);
    }
  }

  /** Expressions from different places of the text make separate bindings. */
  lemma BindingsAreSeparate(bs: seq<ParsedBinding>)
    requires HavePaths(bs) && forall i :: 0 <= i < |bs| && bs[i].e.Attrs? ==> Linked(bs[i].e.set_)
    requires forall i, j :: 0 <= i < j < |bs| ==>
               ExprNodes(bs[i].e) !! ExprNodes(bs[j].e) && ExprSources(bs[i].e) !! ExprSources(bs[j].e)
    ensures Separate(NestSets(bs))
  {
    hide Linked, NestSet, Nodes, AllSources, ExprNodes, ExprSources;
    var ss := NestSets(bs);
    forall i | 0 <= i < |bs|
      ensures Linked(ss[i]) && Nodes(ss[i]) <= ExprNodes(bs[i].e) && AllSources(ss[i]) <= ExprSources(bs[i].e)
    {
      NestSetNodes(bs[i].path, bs[i].e);
    }
  }

  /** Adding bindings to a set is refused exactly when the trees of the bindings cannot be merged, and the set
    denotes the merged tree exactly when every merge on the way keeps the sources. */
  lemma AddAllDenotes(bs: seq<ParsedBinding>)
    requires HavePaths(bs) && Separate(NestSets(bs))
    ensures AddAll(bs).Some? <==> MergeAll(StaticTrees(bs)).Some?
    ensures AddAll(bs).Some? ==>
              (MergeAll(StaticTrees(bs)) == Some(Denote(AddAll(bs).value)) <==> StepsSurvive(NestSets(bs)))
  {
    hide AddAll, MergeList, MergeAll, Denote, StepsSurvive, Separate, NestSets, StaticTrees, DenoteAll;
    AddAllIsMergeList(bs);
    TreesOfBindings(bs);
    MergeListDefined(NestSets(bs));
    if AddAll(bs).Some? {
      MergeListDenotes(NestSets(bs));
    }
  }

  /** The order in which the bindings of a set are added does not matter for its static names: two orders
    that keep the sources build sets that denote the same tree, or both are refused. */
  lemma AddAllIsOrderIndependent(bs: seq<ParsedBinding>, cs: seq<ParsedBinding>)
    requires HavePaths(bs) && HavePaths(cs) && multiset(StaticTrees(bs)) == multiset(StaticTrees(cs))
    requires AllPlain(StaticTrees(bs))
    requires Separate(NestSets(bs)) && StepsSurvive(NestSets(bs))
    requires Separate(NestSets(cs)) && StepsSurvive(NestSets(cs))
    ensures AddAll(bs).Some? <==> AddAll(cs).Some?
    ensures AddAll(bs).Some? ==> Denote(AddAll(bs).value) == Denote(AddAll(cs).value)
  {
    hide AddAll, MergeAll, Denote, StepsSurvive, Separate, NestSets, StaticTrees, AllPlain;
    AddAllDenotes(bs);
    AddAllDenotes(cs);
    MergeAllPermuted(StaticTrees(bs), StaticTrees(cs));
  }

  // ---- the code ----

  /** Binding one name; the attributes of a set that is merged are bound one by one. */
  method AddDef(t: ParsedSet, k: Symbol, d: Def) returns (r: Option<ParsedSet>)
    requires IsSetDef(d) ==> Linked(d.e.set_)
    ensures r == SetDef(t, k, d)
    decreases d
  {
    if k !in t.attrs {
      return Some(t.(attrs := t.attrs[k := d]));
    }
    if !IsSetDef(t.attrs[k]) || !IsSetDef(d) {
      return None;
    }
    var merged := MoveAll(t.attrs[k].e.set_, d.e.set_);
    return if merged.Some? then Some(t.(attrs := t.attrs[k := Plain(Attrs(merged.value))])) else None;
  }

  /** Moving the attributes of one set into another, in any order. */
  method MoveAll(t: ParsedSet, s: ParsedSet) returns (r: Option<ParsedSet>)
    requires Linked(s)
    ensures r == MergeSets(t, s)
    decreases s
  {
    hide MergeSets, Linked, Shifted, PartlyShifted, Partly, SetDef;
    var target := t;
    var displ := t.displ + s.displ;
    var todo := s.attrs.Keys;
    NothingMoved(t, s);
    while todo != {}
      invariant todo <= s.attrs.Keys
      invariant Partly(t, s, s.attrs.Keys - todo, target.attrs)
      invariant target == t.(attrs := target.attrs)
      invariant displ == t.displ + PartlyShifted(s, s.attrs.Keys - todo, |t.sources|)
    {
      var l :| l in todo;
      ghost var done := s.attrs.Keys - todo;
      var ad := s.attrs[l];
      LinkedDef(s, l);
      ShiftStep(t.displ, s, done, l, |t.sources|);
      if ad.InheritedFrom? {
        displ := displ[ad.from := displ[ad.from] + |target.sources|];
      }
      var added := AddDef(target, l, ad);
      MoveOne(t, s, done, l, target);
      if added.None? {
        return None;
      }
      target := added.value;
      todo := todo - {l};
      assert s.attrs.Keys - todo == done + {l};
    }
    assert s.attrs.Keys - {} == s.attrs.Keys;
    AllMoved(t, s, target, displ);
    return Some(target.(dynamics := t.dynamics + s.dynamics, sources := t.sources + s.sources, displ := displ));
  }

  /** The attributes of the target once the names in `done` have been bound. */
  ghost predicate Partly(t: ParsedSet, s: ParsedSet, done: set<Symbol>, attrs: map<Symbol, Def>) {
    && done <= s.attrs.Keys
    && attrs.Keys == t.attrs.Keys + done
    && (forall k :: k in t.attrs && k !in done ==> attrs[k] == t.attrs[k])
    && (forall k :: k in done && k !in t.attrs ==> attrs[k] == s.attrs[k])
    && (forall k :: k in done && k in t.attrs ==> MergeDefs(t.attrs[k], s.attrs[k]) == Some(attrs[k]))
  }

  lemma NothingMoved(t: ParsedSet, s: ParsedSet)
    ensures Partly(t, s, s.attrs.Keys - s.attrs.Keys, t.attrs)
    ensures t.displ + s.displ == t.displ + PartlyShifted(s, s.attrs.Keys - s.attrs.Keys, |t.sources|)
  {
    assert s.attrs.Keys - s.attrs.Keys == {};
    NothingShifted(s, |t.sources|);
  }

  lemma NothingShifted(s: ParsedSet, n: nat)
    ensures PartlyShifted(s, {}, n) == s.displ
  {
    PartlyShiftedKeys(s, {}, n);
    forall f | f in s.displ
      ensures PartlyShifted(s, {}, n)[f] == s.displ[f]
    {
      NothingShiftedAt(s, n, f);
    }
  }

  lemma NothingShiftedAt(s: ParsedSet, n: nat, f: nat)
    requires f in s.displ
    ensures f in PartlyShifted(s, {}, n) && PartlyShifted(s, {}, n)[f] == s.displ[f]
  {
    hide Users, Shift;
    assert Users(s, f) * {} == {};
    ShiftNothing(s.displ[f], n);
  }

  lemma LinkedDef(s: ParsedSet, k: Symbol)
    requires Linked(s) && k in s.attrs
    ensures IsSetDef(s.attrs[k]) ==> Linked(s.attrs[k].e.set_)
    ensures s.attrs[k].InheritedFrom? ==> s.attrs[k].from in s.displ
  {
  }

  lemma MoveOne(t: ParsedSet, s: ParsedSet, done: set<Symbol>, l: Symbol, target: ParsedSet)
    requires Partly(t, s, done, target.attrs) && l in s.attrs && l !in done
    ensures SetDef(target, l, s.attrs[l]).None? ==> MergeSets(t, s).None?
    ensures SetDef(target, l, s.attrs[l]).Some? ==>
              var new' := SetDef(target, l, s.attrs[l]).value;
              new' == target.(attrs := new'.attrs) && Partly(t, s, done + {l}, new'.attrs)
  {
    hide MergeSets, MergeDefs;
    MergeSetsFails(t, s);
    assert l in target.attrs <==> l in t.attrs;
  }

  lemma AllMoved(t: ParsedSet, s: ParsedSet, target: ParsedSet, displ: map<nat, nat>)
    requires Partly(t, s, s.attrs.Keys, target.attrs) && target == t.(attrs := target.attrs)
    requires displ == t.displ + PartlyShifted(s, s.attrs.Keys, |t.sources|)
    ensures MergeSets(t, s)
            == Some(target.(dynamics := t.dynamics + s.dynamics, sources := t.sources + s.sources, displ := displ))
  {
    hide MergeDefs, Shifted, PartlyShifted;
    AllShifted(s, |t.sources|);
    assert MergeSets(t, s).Some?;
    assert MergeSets(t, s).value.attrs == target.attrs;
  }

  lemma ShiftStep(displ: map<nat, nat>, s: ParsedSet, done: set<Symbol>, l: Symbol, n: nat)
    requires l in s.attrs && l !in done && (s.attrs[l].InheritedFrom? ==> s.attrs[l].from in s.displ)
    ensures var now := displ + PartlyShifted(s, done, n);
            var f := s.attrs[l];
            (f.InheritedFrom? ==> f.from in now)
            && displ + PartlyShifted(s, done + {l}, n)
               == if f.InheritedFrom? then now[f.from := now[f.from] + n] else now
  {
    hide PartlyShifted;
    PartlyShiftedStep(s, done, l, n);
    PartlyShiftedKeys(s, done, n);
  }

  lemma PartlyShiftedKeys(s: ParsedSet, done: set<Symbol>, n: nat)
    ensures PartlyShifted(s, done, n).Keys == s.displ.Keys
  {
  }

  ghost function PartlyShifted(s: ParsedSet, done: set<Symbol>, n: nat): map<nat, nat> {
    map f | f in s.displ :: Shift(s.displ[f], |Users(s, f) * done|, n)
  }

  lemma PartlyShiftedStep(s: ParsedSet, done: set<Symbol>, l: Symbol, n: nat)
    requires l in s.attrs && l !in done && (s.attrs[l].InheritedFrom? ==> s.attrs[l].from in s.displ)
    ensures var old' := PartlyShifted(s, done, n);
            PartlyShifted(s, done + {l}, n)
            == if s.attrs[l].InheritedFrom? then old'[s.attrs[l].from := old'[s.attrs[l].from] + n] else old'
  {
    hide PartlyShifted;
    var now, after := PartlyShifted(s, done, n), PartlyShifted(s, done + {l}, n);
    PartlyShiftedKeys(s, done, n);
    PartlyShiftedKeys(s, done + {l}, n);
    forall f | f in s.displ
      ensures after[f] == if s.attrs[l] == InheritedFrom(f) then now[f] + n else now[f]
    {
      PartlyShiftedAt(s, done, l, n, f);
    }
    assert after == if s.attrs[l].InheritedFrom? then now[s.attrs[l].from := now[s.attrs[l].from] + n] else now;
  }

  lemma PartlyShiftedAt(s: ParsedSet, done: set<Symbol>, l: Symbol, n: nat, f: nat)
    requires l in s.attrs && l !in done && f in s.displ
    ensures var now, after := PartlyShifted(s, done, n), PartlyShifted(s, done + {l}, n);
            && f in now && f in after
            && after[f] == if s.attrs[l] == InheritedFrom(f) then now[f] + n else now[f]
  {
    hide Shift, Users;
    UsersStep(s, done, l, f);
    ShiftMore(s.displ[f], |Users(s, f) * done|, n);
  }

  lemma UsersStep(s: ParsedSet, done: set<Symbol>, l: Symbol, f: nat)
    requires l in s.attrs && l !in done
    ensures |Users(s, f) * (done + {l})| == |Users(s, f) * done| + if s.attrs[l] == InheritedFrom(f) then 1 else 0
  {
    if s.attrs[l] == InheritedFrom(f) {
      assert Users(s, f) * (done + {l}) == Users(s, f) * done + {l};
    } else {
      assert Users(s, f) * (done + {l}) == Users(s, f) * done;
    }
  }

  lemma ShiftNothing(displ: nat, n: nat)
    ensures Shift(displ, 0, n) == displ
  {
  }

  lemma ShiftMore(displ: nat, times: nat, n: nat)
    ensures Shift(displ, times + 1, n) == Shift(displ, times, n) + n
  {
    assert (times + 1) * n == times * n + n;
  }

  lemma AllShifted(s: ParsedSet, n: nat)
    ensures PartlyShifted(s, s.attrs.Keys, n) == Shifted(s, n)
  {
    forall f | f in s.displ
      ensures PartlyShifted(s, s.attrs.Keys, n)[f] == Shifted(s, n)[f]
    {
      assert Users(s, f) * s.attrs.Keys == Users(s, f);
    }
  }

  /** Binding an attribute path. */
  method AddAttribute(t: ParsedSet, path: seq<AttrName>, e: ParsedExpr) returns (r: Option<ParsedSet>)
    requires path != [] && (e.Attrs? ==> Linked(e.set_))
    ensures r == AddPath(t, path, e)
    decreases |path|
  {
    match path[0] {
      case Sym(k) =>
        if |path| == 1 {
          r := AddDef(t, k, Plain(e));
          return;
        }
        var nested := EmptySet();
        if k in t.attrs {
          if !IsSetDef(t.attrs[k]) {
            return None;
          }
          nested := t.attrs[k].e.set_;
        }
        var inner := AddAttribute(nested, path[1..], e);
        return if inner.Some? then Some(t.(attrs := t.attrs[k := Plain(Attrs(inner.value))])) else None;
      case Dyn(x) =>
        if |path| == 1 {
          return Some(t.(dynamics := t.dynamics + [DynamicDef(x, e)]));
        }
        var inner := AddAttribute(EmptySet(), path[1..], e);
        return if inner.Some? then Some(t.(dynamics := t.dynamics + [DynamicDef(x, Attrs(inner.value))])) else None;
    }
  }

  /** The bindings of a set, as they are parsed one after the other. */
  method AddBindings(bs: seq<ParsedBinding>) returns (r: Option<ParsedSet>)
    requires forall b :: b in bs ==> b.path != [] && (b.e.Attrs? ==> Linked(b.e.set_))
    ensures r == AddAll(bs)
  {
    hide AddPath, Linked;
    var t := EmptySet();
    var i := 0;
    while i < |bs|
      invariant i <= |bs| && AddAll(bs[..i]) == Some(t)
    {
      assert bs[..i + 1][..i] == bs[..i];
      var added := AddAttribute(t, bs[i].path, bs[i].e);
      if added.None? {
        AddAllStops(bs, i + 1);
        return None;
      }
      t := added.value;
      i := i + 1;
    }
    assert bs[..|bs|] == bs;
    return Some(t);
  }

  lemma {:induction false} AddAllStops(bs: seq<ParsedBinding>, n: nat)
    requires n <= |bs| && (forall b :: b in bs ==> b.path != []) && AddAll(bs[..n]).None?
    ensures AddAll(bs).None?
    decreases |bs|
  {
    if n < |bs| {
      var init := bs[..|bs| - 1];
      assert init[..n] == bs[..n];
      AddAllStops(init, n);
    } else {
      assert bs[..n] == bs;
    }
  }

  // ---- `inherit (e) a b` ----

  /** `{ inherit (x) p; }` */
  function OneInherited(): ParsedSet {
    ParsedSet(false, map[0 := InheritedFrom(0)], [], [100], map[0 := 0])
  }

  /** `{ inherit (y) q r; }` */
  function TwoInherited(): ParsedSet {
    ParsedSet(false, map[1 := InheritedFrom(1), 2 := InheritedFrom(1)], [], [200], map[1 := 0])
  }

  lemma InheritedSets()
    ensures Linked(OneInherited()) && Linked(TwoInherited()) && Apart(OneInherited(), TwoInherited())
  {
    hide Linked, Nodes, AllSources;
    var t, s := OneInherited(), TwoInherited();
    FlatSet(t);
    FlatSet(s);
  }

  lemma FlatSet(s: ParsedSet)
    requires forall k :: k in s.attrs ==> !IsSetDef(s.attrs[k])
    ensures Nodes(s) == s.displ.Keys && AllSources(s) == set x | x in s.sources
    ensures Linked(s) <==> Distinct(s.sources) && forall k :: k in s.attrs && s.attrs[k].InheritedFrom? ==>
              s.attrs[k].from in s.displ && s.displ[s.attrs[k].from] < |s.sources|
  {
  }

  /** Merging `{ inherit (x) p; }` and `{ inherit (y) q r; }`, as in `a = { ... }; a = { ... };`: the
    index of the node of `q` and `r` is shifted twice, so both select from no source at all. */
  lemma SharedNodeCounterexample()
    ensures Linked(OneInherited()) && Linked(TwoInherited()) && Apart(OneInherited(), TwoInherited())
    ensures MergeSets(OneInherited(), TwoInherited()).Some?
    ensures SourceOf(TwoInherited(), 1) == Some(200)
    ensures SourceOf(MergeSets(OneInherited(), TwoInherited()).value, 1) == None
  {
    hide Linked, Apart, MergeSets;
    InheritedSets();
    var t, s := OneInherited(), TwoInherited();
    MergeSetsFails(t, s);
    var r := MergeSets(t, s).value;
    Merged(t, s, r);
    assert Users(s, 1) == {1, 2};
    assert Shift(0, 2, 1) == 2;
    assert r.displ[1] == 2;
  }
}
