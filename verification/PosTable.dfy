/** The position table: source positions of all files as one range of 32-bit numbers. */
module PosTable {
  import opened Options

  const U32 := 0x1_0000_0000
  const U64 := 0x1_0000_0000_0000_0000

  /** An entry of the ordered map from first positions to origins. */
  datatype Entry = Entry(key: nat, origin: nat, size: nat)

  datatype Origin = Origin(origin: nat, offset: nat, size: nat)

  /** Where the next origin starts. */
  function NextOffset(es: seq<Entry>): nat {
    if es == [] then 0 else (es[|es| - 1].key + es[|es| - 1].size) % U32
  }

  /** The overflow check: two is added in 32-bit arithmetic, the size in 64-bit arithmetic. */
  predicate Overflows(offset: nat, size: nat) {
    ((2 + offset) % U32 + size) % U64 < offset
  }

  function Find(es: seq<Entry>, key: nat): (r: Option<Entry>)
    ensures r.Some? ==> r.value in es && r.value.key == key
    ensures r.None? ==> forall i :: 0 <= i < |es| ==> es[i].key != key
  {
    if es == [] then None
    else if es[|es| - 1].key == key then Some(es[|es| - 1])
    else Find(es[..|es| - 1], key)
  }

  /** A new entry, in key order. */
  function Emplace(es: seq<Entry>, e: Entry): seq<Entry> {
    if es == [] || es[|es| - 1].key < e.key then es + [e]
    else Emplace(es[..|es| - 1], e) + [es[|es| - 1]]
  }

  /** Adding an origin. An entry that is already there stays, and is what the caller gets. */
  function AddOrigin(es: seq<Entry>, origin: nat, size: nat): (seq<Entry>, Origin) {
    var offset := NextOffset(es);
    if Overflows(offset, size) then (es, Origin(origin, offset, 0))
    else
      var there := Find(es, offset);
      if there.Some? then (es, Origin(there.value.origin, offset, there.value.size))
      else (Emplace(es, Entry(offset, origin, size)), Origin(origin, offset, size))
  }

  /** A position in an origin; `0` is no position. */
  function AddPosition(o: Origin, offset: nat): nat {
    if offset > o.size then 0 else (1 + o.offset + offset) % U32
  }

  /** The last entry that starts at or before an index. */
  function Resolve(es: seq<Entry>, index: nat): Option<Entry> {
    if es == [] then None
    else if es[|es| - 1].key <= index then Some(es[|es| - 1])
    else Resolve(es[..|es| - 1], index)
  }

  /** The origin of a position and the offset in it. */
  function Locate(es: seq<Entry>, p: nat): Option<(nat, nat)> {
    if p == 0 then None
    else
      var e := Resolve(es, p - 1);
      if e.Some? && e.value.key <= p - 1 then Some((e.value.origin, p - 1 - e.value.key)) else None
  }

  // ---- any sequence of origins ----

  /** The table after adding origins `0`, `1`, ... of the given sizes. */
  function After(sizes: seq<nat>): seq<Entry> {
    if sizes == [] then []
    else AddOrigin(After(sizes[..|sizes| - 1]), |sizes| - 1, sizes[|sizes| - 1]).0
  }

  /** What the caller got for origin `k`. */
  function Returned(sizes: seq<nat>, k: nat): Origin
    requires k < |sizes|
  {
    AddOrigin(After(sizes[..k]), k, sizes[k]).1
  }

  function Start(sizes: seq<nat>, k: nat): nat
    requires k <= |sizes|
  {
    if k == 0 then 0 else Start(sizes, k - 1) + sizes[k - 1]
  }

  predicate NoneEmpty(sizes: seq<nat>) {
    forall i :: 0 <= i < |sizes| ==> sizes[i] > 0
  }

  /** There is room for origin `k`: it does not start where adding two wraps around. */
  predicate Room(sizes: seq<nat>, k: nat)
    requires k <= |sizes|
  {
    Start(sizes, k) + 3 <= U32
  }

  /** Origin `k` gets an entry of its own: no earlier one is empty, and there is room. */
  predicate Stored(sizes: seq<nat>, k: nat)
    requires k <= |sizes|
  {
    NoneEmpty(sizes[..k]) && Room(sizes, k)
  }

  /** The number of origins that get an entry. */
  function Live(sizes: seq<nat>): nat {
    if sizes == [] then 0
    else if Stored(sizes, |sizes| - 1) then |sizes|
    else Live(sizes[..|sizes| - 1])
  }

  /** What is stored depends on the earlier origins only, and after one that is not, none is. */
  lemma StoredFacts(sizes: seq<nat>, i: nat, n: nat)
    requires i <= n <= |sizes|
    ensures Stored(sizes[..n], i) == Stored(sizes, i)
    ensures Stored(sizes, n) ==> Stored(sizes, i)
  {
    hide Start;
    StartPrefix(sizes, i, n);
    StartGrows(sizes, i, n);
    assert sizes[..n][..i] == sizes[..i];
    if NoneEmpty(sizes[..n]) {
      forall j | 0 <= j < i
        ensures sizes[..i][j] > 0
      {
        assert sizes[..n][j] > 0;
      }
    }
  }

  lemma {:induction false} LiveFacts(sizes: seq<nat>, k: nat)
    requires k < |sizes|
    ensures Live(sizes) <= |sizes|
    ensures k < Live(sizes) <==> Stored(sizes, k)
    decreases |sizes|
  {
    hide Stored;
    var n := |sizes| - 1;
    StoredFacts(sizes, k, n);
    if k < n {
      LiveFacts(sizes[..n], k);
    } else if !Stored(sizes, n) {
      LiveBounds(sizes[..n]);
    }
  }

  lemma {:induction false} LiveBounds(sizes: seq<nat>)
    ensures Live(sizes) <= |sizes|
  {
    if sizes != [] {
      LiveBounds(sizes[..|sizes| - 1]);
    }
  }

  lemma {:induction false} StartPrefix(sizes: seq<nat>, k: nat, n: nat)
    requires k <= n <= |sizes|
    ensures Start(sizes[..n], k) == Start(sizes, k)
  {
    if k > 0 {
      StartPrefix(sizes, k - 1, n);
    }
  }

  lemma StartStep(sizes: seq<nat>, k: nat)
    requires k < |sizes|
    ensures Start(sizes, k + 1) == Start(sizes, k) + sizes[k]
  {
  }

  lemma StartZero(sizes: seq<nat>)
    ensures Start(sizes, 0) == 0
  {
  }

  lemma {:induction false} StartGrows(sizes: seq<nat>, i: nat, j: nat)
    requires i <= j <= |sizes|
    ensures Start(sizes, i) <= Start(sizes, j)
    ensures i < j ==> Start(sizes, i) + sizes[i] <= Start(sizes, j)
    decreases j
  {
    if i < j {
      StartGrows(sizes, i, j - 1);
    }
  }

  /** The entries are the origins that are stored, side by side. */
  ghost predicate Shape(sizes: seq<nat>, es: seq<Entry>) {
    && |es| == Live(sizes) <= |sizes|
    && forall i :: 0 <= i < |es| ==> es[i] == Entry(Start(sizes, i), i, sizes[i])
  }

  lemma ShapeOfPrefix(sizes: seq<nat>, n: nat, es: seq<Entry>)
    requires n <= |sizes| && Shape(sizes[..n], es)
    ensures |es| <= n && forall i :: 0 <= i < |es| ==> es[i] == Entry(Start(sizes, i), i, sizes[i])
  {
    forall i | 0 <= i < |es|
      ensures es[i] == Entry(Start(sizes, i), i, sizes[i])
    {
      StartPrefix(sizes, i, n);
    }
  }

  predicate Fits(sizes: seq<nat>) {
    Start(sizes, |sizes|) + 2 <= U32
  }

  lemma FitsPrefix(sizes: seq<nat>, n: nat)
    requires Fits(sizes) && n <= |sizes|
    ensures Fits(sizes[..n]) && Start(sizes, n) + 2 <= U32
    ensures n < |sizes| ==> Start(sizes, n) + sizes[n] + 2 <= U32
  {
    StartPrefix(sizes, n, n);
    StartGrows(sizes, n, |sizes|);
  }

  lemma NextOffsetIs(sizes: seq<nat>, es: seq<Entry>)
    requires Fits(sizes) && Shape(sizes, es)
    ensures NextOffset(es) == Start(sizes, |es|)
  {
    hide Start, Fits, Live;
    FitsPrefix(sizes, |es|);
    if es != [] {
      StartStep(sizes, |es| - 1);
    } else {
      StartZero(sizes);
    }
  }

  /** While the sizes add up to less than 2^32, origins lie side by side until an empty one is added or the
    last two numbers are reached, and from then on the table never changes. */
  lemma {:induction false} AfterShape(sizes: seq<nat>)
    requires Fits(sizes)
    ensures Shape(sizes, After(sizes))
    decreases |sizes|
  {
    if sizes != [] {
      hide NextOffset, Overflows, Find, Emplace, Start, Fits, Stored;
      var n := |sizes| - 1;
      FitsPrefix(sizes, n);
      AfterShape(sizes[..n]);
      hide Shape;
      if Stored(sizes, n) {
        ShapeGrows(sizes, After(sizes[..n]));
      } else {
        ShapeStays(sizes, After(sizes[..n]));
      }
    }
  }

  lemma ShapeGrows(sizes: seq<nat>, es: seq<Entry>)
    requires sizes != [] && Fits(sizes) && Stored(sizes, |sizes| - 1) && Shape(sizes[..|sizes| - 1], es)
    ensures Shape(sizes, AddOrigin(es, |sizes| - 1, sizes[|sizes| - 1]).0)
  {
    hide NextOffset, Overflows, Find, Emplace, Start, Fits, NoneEmpty;
    var n := |sizes| - 1;
    LiveOfStored(sizes, n);
    OffsetAt(sizes, n, es);
    ShapeOfPrefix(sizes, n, es);
    AppendOrigin(sizes, es);
  }

  lemma ShapeStays(sizes: seq<nat>, es: seq<Entry>)
    requires sizes != [] && Fits(sizes) && !Stored(sizes, |sizes| - 1) && Shape(sizes[..|sizes| - 1], es)
    ensures Shape(sizes, AddOrigin(es, |sizes| - 1, sizes[|sizes| - 1]).0)
  {
    hide NextOffset, Overflows, Find, Emplace, Start, Fits, Stored;
    var n := |sizes| - 1;
    OffsetAt(sizes, n, es);
    ShapeOfPrefix(sizes, n, es);
    NotStored(sizes, n, es);
  }

  /** The next origin starts after the stored ones, and is refused only if there is no room. */
  lemma OffsetAt(sizes: seq<nat>, n: nat, es: seq<Entry>)
    requires n < |sizes| && Fits(sizes) && Shape(sizes[..n], es)
    ensures |es| <= n && NextOffset(es) == Start(sizes, |es|)
    ensures Overflows(Start(sizes, |es|), sizes[n]) <==> !Room(sizes, |es|)
  {
    hide NextOffset, Overflows, Start, Fits;
    FitsPrefix(sizes, n);
    NextOffsetIs(sizes[..n], es);
    ShapeOfPrefix(sizes, n, es);
    StartPrefix(sizes, |es|, n);
    StartGrows(sizes, |es|, n);
    OverflowsIffNoRoom(Start(sizes, |es|), sizes[n]);
  }

  /** An origin that is not stored starts at the key of an empty one, or where there is no room. */
  lemma NotStored(sizes: seq<nat>, n: nat, es: seq<Entry>)
    requires n < |sizes| && !Stored(sizes, n) && Shape(sizes[..n], es)
    ensures |es| <= n
    ensures Room(sizes, |es|) ==>
              && |es| > 0 && sizes[|es| - 1] == 0
              && Find(es, Start(sizes, |es|)) == Some(Entry(Start(sizes, |es|), |es| - 1, 0))
  {
    var last := |es|;
    ShapeOfPrefix(sizes, n, es);
    LiveStops(sizes, n, last);
    if Room(sizes, last) {
      LastIsEmpty(sizes, n, last);
      assert es[last - 1].key == Start(sizes, last);
    }
  }

  lemma LiveStops(sizes: seq<nat>, n: nat, last: nat)
    requires n < |sizes| && !Stored(sizes, n) && last == Live(sizes[..n]) <= n
    ensures !Stored(sizes, last)
    ensures last > 0 ==> Stored(sizes, last - 1)
  {
    hide Stored, Live;
    if last < n {
      LiveFacts(sizes[..n], last);
      StoredFacts(sizes, last, n);
    }
    if last > 0 {
      LiveFacts(sizes[..n], last - 1);
      StoredFacts(sizes, last - 1, n);
    }
  }

  lemma LastIsEmpty(sizes: seq<nat>, n: nat, last: nat)
    requires n < |sizes| && last <= n && !Stored(sizes, last) && (last > 0 ==> Stored(sizes, last - 1))
    requires Room(sizes, last)
    ensures last > 0 && sizes[last - 1] == 0
  {
    hide Start, Room;
    if last > 0 {
      StoredNext(sizes, last - 1);
    }
  }

  lemma AppendOrigin(sizes: seq<nat>, es: seq<Entry>)
    requires sizes != [] && NoneEmpty(sizes[..|sizes| - 1]) && |es| == |sizes| - 1
    requires forall i :: 0 <= i < |es| ==> es[i] == Entry(Start(sizes, i), i, sizes[i])
    ensures var e := Entry(Start(sizes, |es|), |es|, sizes[|es|]);
            Find(es, e.key).None? && Emplace(es, e) == es + [e]
  {
    var key := Start(sizes, |es|);
    forall i | 0 <= i < |es|
      ensures es[i].key < key
    {
      StartGrows(sizes, i, |es|);
      assert sizes[..|sizes| - 1][i] > 0;
    }
  }

  /** The overflow check does not notice that 32 bits are exceeded: below the last two numbers it triggers only
    for sizes just below 2^64. At the last two, where adding two wraps around, it triggers for sizes below
    them. */
  lemma OverflowCheckIff(offset: nat, size: nat)
    requires offset < U32 && size < U64
    ensures offset < U32 - 2 ==> (Overflows(offset, size) <==> U64 - 2 - offset <= size < U64 - 2)
    ensures offset == U32 - 2 ==> (Overflows(offset, size) <==> size < offset)
    ensures offset == U32 - 1 ==> (Overflows(offset, size) <==> size + 1 < offset || size + 1 == U64)
  {
    if offset == U32 - 1 {
      assert (2 + offset) % U32 == 1;
    }
  }

  lemma OverflowsIffNoRoom(offset: nat, size: nat)
    requires offset + size + 2 <= U32
    ensures Overflows(offset, size) <==> offset + 3 > U32
  {
  }

  lemma {:induction false} ResolveShape(sizes: seq<nat>, es: seq<Entry>, k: nat, index: nat)
    requires |es| <= |sizes| && forall i :: 0 <= i < |es| ==> es[i] == Entry(Start(sizes, i), i, sizes[i])
    requires k < |es| && Start(sizes, k) <= index && (k + 1 < |es| ==> index < Start(sizes, k + 1))
    ensures Resolve(es, index) == Some(es[k])
    decreases |es|
  {
    hide Start;
    if k < |es| - 1 {
      StartGrows(sizes, k + 1, |es| - 1);
      ResolveShape(sizes, es[..|es| - 1], k, index);
    }
  }

  ghost predicate Located(sizes: seq<nat>, k: nat, offset: nat)
    requires k < |sizes|
  {
    Locate(After(sizes), AddPosition(Returned(sizes, k), offset)) == Some((k, offset))
  }

  /** A position resolves to its own origin and offset, also after any later origins, exactly when no
    empty origin came before and there was room, and the offset is inside the origin, or is its end while
    nothing starts there. */
  lemma PositionResolvesIff(sizes: seq<nat>, k: nat, offset: nat)
    requires k < |sizes| && Fits(sizes)
    ensures Located(sizes, k, offset) <==>
            && NoneEmpty(sizes[..k]) && Room(sizes, k)
            && (offset < sizes[k]
                || (offset == sizes[k] && (k + 1 == |sizes| || sizes[k] == 0 || !Room(sizes, k + 1))))
  {
    hide Located, Start;
    AfterShape(sizes);
    if Stored(sizes, k) {
      OwnOrigin(sizes, k);
      OwnPosition(sizes, k, offset);
    } else {
      LostOrigin(sizes, k, offset);
    }
  }

  lemma OwnOrigin(sizes: seq<nat>, k: nat)
    requires k < |sizes| && Fits(sizes) && Stored(sizes, k)
    ensures Returned(sizes, k) == Origin(k, Start(sizes, k), sizes[k])
  {
    hide NextOffset, Overflows, Find, Emplace, Start, Fits, After, NoneEmpty;
    var upTo := sizes[..k + 1];
    FitsPrefix(sizes, k);
    AfterShape(sizes[..k]);
    LiveOfStored(sizes, k);
    var es := After(sizes[..k]);
    OffsetAt(sizes, k, es);
    assert upTo[..|upTo| - 1] == sizes[..k] && upTo[..k] == sizes[..k];
    ShapeOfPrefix(upTo, k, es);
    StartPrefix(sizes, k, k + 1);
    AppendOrigin(upTo, es);
  }

  lemma LiveOfStored(sizes: seq<nat>, k: nat)
    requires k <= |sizes| && Stored(sizes, k)
    ensures Live(sizes[..k]) == k
  {
    hide Stored, Live;
    if k > 0 {
      StoredFacts(sizes, k - 1, k);
      LiveFacts(sizes[..k], k - 1);
    } else {
      LiveBounds(sizes[..k]);
    }
  }

  /** After a stored origin the next one is stored exactly when this one is not empty and there is room. */
  lemma StoredNext(sizes: seq<nat>, k: nat)
    requires k < |sizes| && Stored(sizes, k)
    ensures Stored(sizes, k + 1) <==> sizes[k] > 0 && Room(sizes, k + 1)
  {
    hide Room;
    assert sizes[..k + 1][k] == sizes[k];
    if sizes[k] > 0 {
      forall i | 0 <= i < k
        ensures sizes[i] > 0
      {
        assert sizes[..k][i] > 0;
      }
    }
  }

  lemma OwnPosition(sizes: seq<nat>, k: nat, offset: nat)
    requires k < |sizes| && Fits(sizes) && Stored(sizes, k)
    requires Returned(sizes, k) == Origin(k, Start(sizes, k), sizes[k]) && Shape(sizes, After(sizes))
    ensures Located(sizes, k, offset) <==>
            || offset < sizes[k]
            || (offset == sizes[k] && (k + 1 == |sizes| || sizes[k] == 0 || !Room(sizes, k + 1)))
  {
    hide Returned, After, Resolve, Live, AddPosition, Start, Stored, Room;
    var es := After(sizes);
    FitsPrefix(sizes, k);
    PositionIs(Returned(sizes, k), offset);
    StoredNext(sizes, k);
    LiveFacts(sizes, k);
    if k + 1 < |sizes| {
      LiveFacts(sizes, k + 1);
    }
    if offset <= sizes[k] {
      var index := Start(sizes, k) + offset;
      StartStep(sizes, k);
      if k + 1 < |es| && offset == sizes[k] {
        NextIsNotEmpty(sizes, k + 1, es);
        ResolveShape(sizes, es, k + 1, index);
      } else {
        ResolveShape(sizes, es, k, index);
      }
    }
  }

  lemma PositionIs(o: Origin, offset: nat)
    requires 1 + o.offset + o.size < U32
    ensures AddPosition(o, offset) == if offset > o.size then 0 else 1 + o.offset + offset
  {
  }

  lemma NextIsNotEmpty(sizes: seq<nat>, k: nat, es: seq<Entry>)
    requires Shape(sizes, es) && k < |es|
    ensures k + 1 < |es| ==> Start(sizes, k) < Start(sizes, k + 1)
  {
    if k + 1 < |es| {
      LiveFacts(sizes, k + 1);
      LiveFacts(sizes, k);
      StoredNext(sizes, k);
      StartStep(sizes, k);
    }
  }

  /** An origin after an empty one, or without room, is lost: its positions belong to another one. With room
    its caller even gets that other origin. */
  lemma LostOrigin(sizes: seq<nat>, k: nat, offset: nat)
    requires k < |sizes| && Fits(sizes) && !(NoneEmpty(sizes[..k]) && Room(sizes, k))
    ensures Returned(sizes, k).size == 0 && (Room(sizes, k) ==> Returned(sizes, k).origin != k)
    ensures !Located(sizes, k, offset)
  {
    ReturnedIsAnother(sizes, k);
    FewOrigins(sizes, k);
    hide *;
    NotLocated(sizes, k, offset);
  }

  lemma FewOrigins(sizes: seq<nat>, k: nat)
    requires k < |sizes| && Fits(sizes) && !Stored(sizes, k)
    ensures forall i :: 0 <= i < |After(sizes)| ==> After(sizes)[i].origin < k
  {
    hide Start, After, Live, Fits, Stored;
    AfterShape(sizes);
    LiveFacts(sizes, k);
  }

  lemma NotLocated(sizes: seq<nat>, k: nat, offset: nat)
    requires k < |sizes| && forall i :: 0 <= i < |After(sizes)| ==> After(sizes)[i].origin < k
    ensures !Located(sizes, k, offset)
  {
    hide After, Returned, AddPosition, Resolve;
    var p := AddPosition(Returned(sizes, k), offset);
    if p > 0 && Resolve(After(sizes), p - 1).Some? {
      ResolvedIsEntry(After(sizes), p - 1);
    }
  }

  lemma ReturnedIsAnother(sizes: seq<nat>, k: nat)
    requires k < |sizes| && Fits(sizes) && !Stored(sizes, k)
    ensures Returned(sizes, k).size == 0 && (Room(sizes, k) ==> Returned(sizes, k).origin < k)
  {
    hide NextOffset, Overflows, Find, Start, Fits, After, Stored;
    FitsPrefix(sizes, k);
    AfterShape(sizes[..k]);
    var es := After(sizes[..k]);
    OffsetAt(sizes, k, es);
    StartGrows(sizes, |es|, k);
    NotStored(sizes, k, es);
  }

  lemma {:induction false} ResolvedIsEntry(es: seq<Entry>, index: nat)
    requires Resolve(es, index).Some?
    ensures Resolve(es, index).value in es
  {
    if es[|es| - 1].key > index {
      ResolvedIsEntry(es[..|es| - 1], index);
    }
  }

  /** An end-of-file position of the first of two files belongs to the second. */
  lemma EndOfFileCounterexample()
    ensures Locate(After([5, 7]), AddPosition(Returned([5, 7], 0), 5)) == Some((1, 0))
  {
    var sizes := [5, 7];
    assert sizes[..1] == [5] && [5][..0] == [] && sizes[..0] == [];
    assert After([5]) == [Entry(0, 0, 5)];
    assert After(sizes) == [Entry(0, 0, 5)] + [Entry(5, 1, 7)];
    hide After;
    assert AddPosition(Origin(0, 0, 5), 5) == 6;
  }

  /** A file that ends at the last two numbers leaves no room: the next origin, though empty and within
    2^32, is not stored, and its only position belongs to the first file. */
  lemma NoRoomCounterexample()
    ensures var sizes := [U32 - 2, 0];
            && Fits(sizes) && NoneEmpty(sizes[..1])
            && !Room(sizes, 1) && !Located(sizes, 1, 0)
  {
    var sizes := [U32 - 2, 0];
    assert sizes[..1] == [U32 - 2];
    assert Start(sizes, 1) == U32 - 2 && Start(sizes, 2) == U32 - 2;
    PositionResolvesIff(sizes, 1, 0);
  }

  // ---- the code ----

  ghost predicate Sorted(es: seq<Entry>) {
    forall i, j :: 0 <= i < j < |es| ==> es[i].key < es[j].key
  }

  class Table {
    var origins: seq<Entry>

    constructor ()
      ensures origins == []
    {
      origins := [];
    }

    method Add(origin: nat, size: nat) returns (o: Origin)
      requires Sorted(origins)
      modifies this
      ensures (origins, o) == AddOrigin(old(origins), origin, size) && Sorted(origins)
    {
      hide Find, Emplace;
      var offset := 0;
      if |origins| > 0 {
        var last := origins[|origins| - 1];
        offset := (last.key + last.size) % U32;
      }
      assert offset == NextOffset(origins);
      if ((2 + offset) % U32 + size) % U64 < offset {
        return Origin(origin, offset, 0);
      }
      assert !Overflows(offset, size);
      var i := |origins|;
      while i > 0 && origins[i - 1].key > offset
        invariant 0 <= i <= |origins|
        invariant forall j :: i <= j < |origins| ==> origins[j].key > offset
      {
        i := i - 1;
      }
      hide Overflows, NextOffset;
      SearchFrom(origins, i, Entry(offset, origin, size));
      if i > 0 && origins[i - 1].key == offset {
        o := Origin(origins[i - 1].origin, offset, origins[i - 1].size);
        return;
      }
      origins := origins[..i] + [Entry(offset, origin, size)] + origins[i..];
      o := Origin(origin, offset, size);
    }

    /** The entry before the first one that starts after the index. */
    method ResolveIndex(index: nat) returns (e: Option<Entry>)
      ensures e == Resolve(origins, index)
    {
      var i := |origins|;
      assert origins[..|origins|] == origins;
      while i > 0 && origins[i - 1].key > index
        invariant 0 <= i <= |origins|
        invariant Resolve(origins, index) == Resolve(origins[..i], index)
      {
        assert origins[..i][..i - 1] == origins[..i - 1];
        i := i - 1;
      }
      return if i == 0 then None else Some(origins[i - 1]);
    }
  }

  /** Searching from the end for the place of a key. */
  lemma {:induction false} SearchFrom(es: seq<Entry>, i: nat, e: Entry)
    requires Sorted(es) && i <= |es| && (i > 0 ==> es[i - 1].key <= e.key)
    requires forall j :: i <= j < |es| ==> es[j].key > e.key
    ensures i > 0 && es[i - 1].key == e.key ==> Find(es, e.key) == Some(es[i - 1])
    ensures !(i > 0 && es[i - 1].key == e.key) ==>
              && Find(es, e.key).None?
              && Emplace(es, e) == es[..i] + [e] + es[i..]
    decreases |es|
  {
    if i < |es| {
      var init, last := es[..|es| - 1], es[|es| - 1];
      SearchFrom(init, i, e);
      assert init[..i] == es[..i] && es[i..] == init[i..] + [last];
      assert es[..i] + [e] + es[i..] == es[..i] + [e] + init[i..] + [last];
    } else {
      assert es[..i] == es && es[i..] == [];
      if !(i > 0 && es[i - 1].key == e.key) {
        assert Emplace(es, e) == es + [e];
      }
    }
  }
}
