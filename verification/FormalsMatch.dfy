/** Matching an argument set against the formals of a lambda: counting the attributes used decides
  exactly whether every attribute is a formal. */
module FormalsMatch {
  import opened Options
  import opened Syntax
  import opened Scoping
  import opened Reference
  import opened Machine
  import opened Meaning

  ghost predicate SortedAttrs(attrs: seq<VAttr>) {
    forall i, j :: 0 <= i < j < |attrs| ==> attrs[i].name < attrs[j].name
  }

  ghost function AttrNames(attrs: seq<VAttr>): set<Symbol> {
    set i | 0 <= i < |attrs| :: attrs[i].name
  }

  ghost function FormalNames(formals: seq<Formal>): set<Symbol> {
    set i | 0 <= i < |formals| :: formals[i].name
  }

  /** How many formals the argument set provides. */
  function UsedCount(formals: seq<Formal>, attrs: seq<VAttr>): nat {
    if formals == [] then 0
    else (if GetAttr(attrs, formals[0].name).Some? then 1 else 0) + UsedCount(formals[1..], attrs)
  }

  /** The first formal that is neither given nor has a default. */
  function FirstMissingArg(formals: seq<Formal>, attrs: seq<VAttr>): Option<Symbol> {
    if formals == [] then None
    else if GetAttr(attrs, formals[0].name).None? && formals[0].def.None? then Some(formals[0].name)
    else FirstMissingArg(formals[1..], attrs)
  }

  /** What filling the slots of the formals reports. */
  lemma {:induction false} FillFormalsOutcome(formals: seq<Formal>, i: nat, first: nat, attrs: seq<VAttr>, env: nat,
                                              st: State)
    requires i <= |formals|
    ensures FillFormals(formals, i, first, attrs, env, st).out ==
            match FirstMissingArg(formals[i..], attrs)
            case Some(x) => Err(MissingArgument(x))
            case None => Ok(UsedCount(formals[i..], attrs))
    decreases |formals| - i
  {
    if i < |formals| {
      assert formals[i..][0] == formals[i] && formals[i..][1..] == formals[i + 1..];
      match GetAttr(attrs, formals[i].name)
      case Some(c) => FillFormalsOutcome(formals, i + 1, first, attrs, env, SetSlot(env, first + i, c, st));
      case None =>
        if formals[i].def.Some? {
          var a := MaybeThunk(formals[i].def.value, env, st);
          FillFormalsOutcome(formals, i + 1, first, attrs, env, SetSlot(env, first + i, a.id, a.st));
        }
    }
  }

  lemma {:induction false} GetAttrIff(attrs: seq<VAttr>, name: Symbol)
    ensures GetAttr(attrs, name).Some? <==> name in AttrNames(attrs)
  {
    if attrs != [] {
      GetAttrIff(attrs[1..], name);
      assert AttrNames(attrs) == {attrs[0].name} + AttrNames(attrs[1..]) by { NamesCons(attrs); }
    }
  }

  lemma NamesCons(attrs: seq<VAttr>)
    requires attrs != []
    ensures AttrNames(attrs) == {attrs[0].name} + AttrNames(attrs[1..])
  {
    forall x | x in AttrNames(attrs)
      ensures x in {attrs[0].name} + AttrNames(attrs[1..])
    {
      var i :| 0 <= i < |attrs| && attrs[i].name == x;
      if i > 0 {
        assert attrs[1..][i - 1].name == x;
      }
    }
    forall x | x in AttrNames(attrs[1..])
      ensures x in AttrNames(attrs)
    {
      var i :| 0 <= i < |attrs[1..]| && attrs[1..][i].name == x;
      assert attrs[i + 1].name == x;
    }
  }

  lemma {:induction false} AttrCount(attrs: seq<VAttr>)
    requires SortedAttrs(attrs)
    ensures |AttrNames(attrs)| == |attrs|
  {
    if attrs != [] {
      NamesCons(attrs);
      AttrCount(attrs[1..]);
      assert attrs[0].name !in AttrNames(attrs[1..]);
    }
  }

  lemma FormalNamesCons(formals: seq<Formal>)
    requires formals != []
    ensures FormalNames(formals) == {formals[0].name} + FormalNames(formals[1..])
  {
    forall x | x in FormalNames(formals)
      ensures x in {formals[0].name} + FormalNames(formals[1..])
    {
      var i :| 0 <= i < |formals| && formals[i].name == x;
      if i > 0 {
        assert formals[1..][i - 1].name == x;
      }
    }
    forall x | x in FormalNames(formals[1..])
      ensures x in FormalNames(formals)
    {
      var i :| 0 <= i < |formals[1..]| && formals[1..][i].name == x;
      assert formals[i + 1].name == x;
    }
  }

  lemma {:induction false} UsedIsIntersection(formals: seq<Formal>, attrs: seq<VAttr>)
    requires SortedFormals(formals)
    ensures UsedCount(formals, attrs) == |FormalNames(formals) * AttrNames(attrs)|
  {
    if formals == [] {
      assert FormalNames(formals) * AttrNames(attrs) == {};
    } else {
      var x, A, F := formals[0].name, AttrNames(attrs), FormalNames(formals[1..]);
      UsedIsIntersection(formals[1..], attrs);
      FormalNamesCons(formals);
      GetAttrIff(attrs, x);
      assert x !in F;
      if x in A {
        assert ({x} + F) * A == {x} + (F * A);
      } else {
        assert ({x} + F) * A == F * A;
      }
    }
  }

  lemma {:induction false} UnexpectedIff(formals: seq<Formal>, attrs: seq<VAttr>)
    ensures FirstUnexpectedArg(formals, attrs).None? <==> AttrNames(attrs) <= FormalNames(formals)
    ensures FirstUnexpectedArg(formals, attrs).Some? ==>
              FirstUnexpectedArg(formals, attrs).value in AttrNames(attrs) - FormalNames(formals)
  {
    if attrs != [] {
      NamesCons(attrs);
      UnexpectedIff(formals, attrs[1..]);
      FindFormalIff(formals, attrs[0].name);
    }
  }

  lemma {:induction false} FindFormalIff(formals: seq<Formal>, name: Symbol)
    ensures FindFormal(formals, name).Some? <==> name in FormalNames(formals)
  {
    if formals != [] {
      FormalNamesCons(formals);
      FindFormalIff(formals[1..], name);
    }
  }

  lemma SubsetSize<T>(a: set<T>, b: set<T>)
    requires a <= b
    ensures |a| <= |b| && (|a| == |b| ==> a == b)
  {
    assert b == a + (b - a);
  }

  /** The count check of a call without `...` passes exactly when every attribute is a formal; when it
    fails there is an unexpected attribute to report. */
  lemma CountIsExact(formals: seq<Formal>, attrs: seq<VAttr>)
    requires SortedFormals(formals) && SortedAttrs(attrs)
    ensures UsedCount(formals, attrs) == |attrs| <==> AttrNames(attrs) <= FormalNames(formals)
    ensures UsedCount(formals, attrs) == |attrs| <==> FirstUnexpectedArg(formals, attrs).None?
  {
    var F, A := FormalNames(formals), AttrNames(attrs);
    UsedIsIntersection(formals, attrs);
    AttrCount(attrs);
    UnexpectedIff(formals, attrs);
    SubsetSize(F * A, A);
    if A <= F {
      assert F * A == A;
    }
  }
}
