/** Reading JSON: a stack machine that is fed the events of a parser, and printing the value back. */
module JsonSax {
  import opened Options

  type Ptr = nat

  const MAX_INT := 0x7fff_ffff_ffff_ffff

  /** A JSON text. Members are in the order of the text, and names may repeat. */
  datatype Json =
    | JNull
    | JBool(b: bool)
    | JInt(n: int)
    | JFloat(f: real)
    | JString(s: string)
    | JArray(elems: seq<Json>)
    | JObject(members: seq<Member>)

  datatype Member = Member(name: string, value: Json)

  /** A value. */
  datatype Tree =
    | TNull
    | TBool(b: bool)
    | TInt(n: int)
    | TFloat(f: real)
    | TString(s: string)
    | TList(elems: seq<Tree>)
    | TAttrs(attrs: map<string, Tree>)

  /** The value a text stands for: of several members with one name the last one counts. */
  function ValueOf(j: Json): Tree
    decreases j
  {
    match j
    case JNull => TNull
    case JBool(b) => TBool(b)
    case JInt(n) => TInt(n)
    case JFloat(f) => TFloat(f)
    case JString(s) => TString(s)
    case JArray(es) => TList(seq(|es|, i requires 0 <= i < |es| => ValueOf(es[i])))
    case JObject(ms) => TAttrs(MembersOf(ms))
  }

  function MembersOf(ms: seq<Member>): map<string, Tree>
    decreases ms
  {
    if ms == [] then map[]
    else
      assert ms[|ms| - 1] in ms;
      MembersOf(ms[..|ms| - 1])[ms[|ms| - 1].name := ValueOf(ms[|ms| - 1].value)]
  }

  predicate NoNul(s: string): (r: bool)
    ensures r <==> forall i :: 0 <= i < |s| ==> s[i] != '\0'
  {
    '\0' !in s
  }

  /** Integers that fit, and no text with a null byte. */
  predicate Clean(j: Json)
    decreases j
  {
    match j
    case JInt(n) => n < 0x8000_0000_0000_0000
    case JString(s) => NoNul(s)
    case JArray(es) => forall i :: 0 <= i < |es| ==> Clean(es[i])
    case JObject(ms) => forall i :: 0 <= i < |ms| ==> NoNul(ms[i].name) && Clean(ms[i].value)
    case _ => true
  }

  // ---- the machine ----

  datatype Event =
    | ENull
    | EBool(b: bool)
    | EInt(n: int)
    | EFloat(f: real)
    | EString(s: string)
    | EStartObject
    | EKey(name: string)
    | EStartArray
    | EEnd

  function Events(j: Json): seq<Event>
    decreases j, 1
  {
    match j
    case JNull => [ENull]
    case JBool(b) => [EBool(b)]
    case JInt(n) => [EInt(n)]
    case JFloat(f) => [EFloat(f)]
    case JString(s) => [EString(s)]
    case JArray(es) => [EStartArray] + ElemEvents(es) + [EEnd]
    case JObject(ms) => [EStartObject] + MemberEvents(ms) + [EEnd]
  }

  function ElemEvents(es: seq<Json>): seq<Event>
    decreases es, 0
  {
    if es == [] then [] else ElemEvents(es[..|es| - 1]) + Events(es[|es| - 1])
  }

  function MemberEvents(ms: seq<Member>): seq<Event>
    decreases ms, 0
  {
    if ms == [] then []
    else
      var m := ms[|ms| - 1];
      assert m in ms;
      MemberEvents(ms[..|ms| - 1]) + [EKey(m.name)] + Events(m.value)
  }

  datatype Cell =
    | Blank
    | CNull
    | CBool(b: bool)
    | CInt(n: int)
    | CFloat(f: real)
    | CString(s: string)
    | CList(elems: seq<Ptr>)
    | CAttrs(attrs: map<string, Ptr>)

  /** One level of nesting. `v` is the cell of the value that is read next, if it has been made. */
  datatype Frame =
    | Root(cell: Ptr)
    | Obj(v: Option<Ptr>, attrs: map<string, Ptr>)
    | Arr(v: Option<Ptr>, values: seq<Ptr>)

  datatype State = State(heap: seq<Cell>, stack: seq<Frame>)

  function CellOf(heap: seq<Cell>, f: Frame): Ptr {
    match f
    case Root(p) => p
    case Obj(v, _) => if v.Some? then v.value else |heap|
    case Arr(v, _) => if v.Some? then v.value else |heap|
  }

  /** The heap once the next cell of a frame has been made. */
  function Made(heap: seq<Cell>, f: Frame): seq<Cell> {
    if CellOf(heap, f) == |heap| then heap + [Blank] else heap
  }

  /** The frame once a value is complete. */
  function Added(f: Frame, p: Ptr): Frame {
    match f
    case Root(_) => f
    case Obj(_, attrs) => Obj(None, attrs)
    case Arr(_, values) => Arr(None, values + [p])
  }

  /** Writing a value for the innermost frame. */
  function Put(st: State, c: Cell): Option<State> {
    if st.stack == [] then None
    else
      var top := st.stack[|st.stack| - 1];
      var p, heap := CellOf(st.heap, top), Made(st.heap, top);
      if p >= |heap| then None
      else Some(State(heap[p := c], st.stack[..|st.stack| - 1] + [Added(top, p)]))
  }

  function Step(st: State, e: Event): Option<State> {
    match e
    case ENull => Put(st, CNull)
    case EBool(b) => Put(st, CBool(b))
    case EInt(n) => if n > MAX_INT then None else Put(st, CInt(n))
    case EFloat(f) => Put(st, CFloat(f))
    case EString(s) => if NoNul(s) then Put(st, CString(s)) else None
    case EStartObject => Some(st.(stack := st.stack + [Obj(None, map[])]))
    case EStartArray => Some(st.(stack := st.stack + [Arr(None, [])]))
    case EKey(name) =>
      if st.stack == [] || !st.stack[|st.stack| - 1].Obj? || !NoNul(name) then None
      else
        var top := st.stack[|st.stack| - 1];
        var p := CellOf(st.heap, top);
        Some(State(Made(st.heap, top), st.stack[..|st.stack| - 1] + [Obj(Some(p), top.attrs[name := p])]))
    case EEnd =>
      if st.stack == [] || st.stack[|st.stack| - 1].Root? then None
      else
        var top := st.stack[|st.stack| - 1];
        Put(st.(stack := st.stack[..|st.stack| - 1]), if top.Obj? then CAttrs(top.attrs) else CList(top.values))
  }

  function Feed(st: State, es: seq<Event>): Option<State>
    decreases |es|
  {
    if es == [] then Some(st)
    else
      var r := Step(st, es[0]);
      if r.Some? then Feed(r.value, es[1..]) else None
  }

  lemma {:induction false} FeedAppend(st: State, a: seq<Event>, b: seq<Event>)
    ensures Feed(st, a + b) == var r := Feed(st, a); if r.Some? then Feed(r.value, b) else None
    decreases |a|
  {
    hide Step;
    if a == [] {
      assert a + b == b;
    } else {
      assert (a + b)[1..] == a[1..] + b;
      var r := Step(st, a[0]);
      if r.Some? {
        FeedAppend(r.value, a[1..], b);
      }
    }
  }

  lemma FeedOne(st: State, e: Event)
    ensures Feed(st, [e]) == Step(st, e)
  {
    assert [e][1..] == [];
  }

  // ---- what a cell holds ----

  /** Cell `p` holds a value all of whose parts are in cells from `lo` on. */
  ghost predicate Holds(heap: seq<Cell>, lo: nat, p: Ptr, t: Tree)
    decreases t
  {
    p < |heap| && match t
      case TNull => heap[p] == CNull
      case TBool(b) => heap[p] == CBool(b)
      case TInt(n) => heap[p] == CInt(n)
      case TFloat(f) => heap[p] == CFloat(f)
      case TString(s) => heap[p] == CString(s)
      case TList(ts) =>
        && heap[p].CList? && |heap[p].elems| == |ts|
        && forall i :: 0 <= i < |ts| ==> lo <= heap[p].elems[i] && Holds(heap, lo, heap[p].elems[i], ts[i])
      case TAttrs(ts) =>
        && heap[p].CAttrs? && heap[p].attrs.Keys == ts.Keys
        && forall k :: k in ts ==> lo <= heap[p].attrs[k] && Holds(heap, lo, heap[p].attrs[k], ts[k])
  }

  /** What a cell holds depends only on the cell and on the cells from `lo` on. */
  lemma {:induction false} HoldsKept(heap: seq<Cell>, heap': seq<Cell>, lo: nat, lo': nat, p: Ptr, t: Tree)
    requires Holds(heap, lo, p, t) && lo' <= lo
    requires p < |heap| <= |heap'| && heap'[p] == heap[p]
    requires forall i :: lo <= i < |heap| ==> heap'[i] == heap[i]
    ensures Holds(heap', lo', p, t)
    decreases t
  {
    match t
    case TList(ts) =>
      forall i | 0 <= i < |ts|
        ensures Holds(heap', lo', heap'[p].elems[i], ts[i])
      {
        HoldsKept(heap, heap', lo, lo', heap[p].elems[i], ts[i]);
      }
    case TAttrs(ts) =>
      forall k | k in ts
        ensures Holds(heap', lo', heap'[p].attrs[k], ts[k])
      {
        HoldsKept(heap, heap', lo, lo', heap[p].attrs[k], ts[k]);
      }
    case _ =>
  }

  // ---- feeding a text ----

  /** The innermost frame is ready for a value. */
  ghost predicate Ready(st: State) {
    st.stack != [] && match st.stack[|st.stack| - 1]
      case Root(p) => p < |st.heap|
      case Obj(v, _) => v.Some? && v.value < |st.heap|
      case Arr(v, _) => v.None?
  }

  /** One value has been read into cell `p`: nothing changed but the innermost frame, its cell and new
    cells. */
  ghost predicate ReadAt(st: State, st': State, t: Tree, p: Ptr) {
    && st.stack != [] && |st.heap| <= |st'.heap| && p < |st'.heap|
    && var top := st.stack[|st.stack| - 1];
    && (if top.Arr? then p >= |st.heap| else p == CellOf(st.heap, top))
    && st'.stack == st.stack[..|st.stack| - 1] + [Added(top, p)]
    && (forall i :: 0 <= i < |st.heap| && i != p ==> st'.heap[i] == st.heap[i])
    && Holds(st'.heap, |st.heap|, p, t)
  }

  ghost predicate Read(st: State, st': State, t: Tree) {
    exists p: Ptr :: ReadAt(st, st', t, p)
  }

  /** Elements have been read into cells `ps` for the array of the innermost frame. */
  ghost predicate ElemsAt(st: State, st': State, ts: seq<Tree>, ps: seq<Ptr>) {
    && st.stack != [] && st.stack[|st.stack| - 1].Arr? && st.heap <= st'.heap && |ps| == |ts|
    && st'.stack == st.stack[..|st.stack| - 1] + [Arr(None, st.stack[|st.stack| - 1].values + ps)]
    && forall i :: 0 <= i < |ps| ==> ps[i] >= |st.heap| && Holds(st'.heap, |st.heap|, ps[i], ts[i])
  }

  ghost predicate ReadElems(st: State, st': State, ts: seq<Tree>) {
    exists ps: seq<Ptr> :: ElemsAt(st, st', ts, ps)
  }

  /** Members have been read into cells `attrs` for the new object of the innermost frame. */
  ghost predicate MembersAt(st: State, st': State, ts: map<string, Tree>, attrs: map<string, Ptr>) {
    && st.stack != [] && st.heap <= st'.heap && attrs.Keys == ts.Keys
    && st'.stack == st.stack[..|st.stack| - 1] + [Obj(None, attrs)]
    && forall k :: k in ts ==> attrs[k] >= |st.heap| && Holds(st'.heap, |st.heap|, attrs[k], ts[k])
  }

  ghost predicate ReadMembers(st: State, st': State, ts: map<string, Tree>) {
    exists attrs: map<string, Ptr> :: MembersAt(st, st', ts, attrs)
  }

  lemma PutReads(st: State, c: Cell, t: Tree)
    requires Ready(st)
    requires forall heap: seq<Cell>, lo: nat, p: Ptr :: p < |heap| && heap[p] == c ==> Holds(heap, lo, p, t)
    ensures Put(st, c).Some? && Read(st, Put(st, c).value, t)
  {
    var top := st.stack[|st.stack| - 1];
    var p := CellOf(st.heap, top);
    var st' := Put(st, c).value;
    assert st'.heap[p] == c;
    assert ReadAt(st, st', t, p);
  }

  /** `heap` has `c` in cell `p` and is otherwise as in `mid` from the cells of `st` on. */
  ghost predicate Over(st: State, mid: State, heap: seq<Cell>, p: Ptr, c: Cell) {
    && p < |heap| && heap[p] == c && |mid.heap| <= |heap| && (p < |st.heap| || p >= |mid.heap|)
    && forall i :: |st.heap| <= i < |mid.heap| ==> heap[i] == mid.heap[i]
  }

  /** Closing a frame stores its parts in the cell of the frame around it. */
  lemma PutAfter(st: State, mid: State, c: Cell, t: Tree)
    requires Ready(st) && mid.stack == st.stack && st.heap <= mid.heap
    requires forall heap: seq<Cell>, p: Ptr :: Over(st, mid, heap, p, c) ==> Holds(heap, |st.heap|, p, t)
    ensures Put(mid, c).Some? && Read(st, Put(mid, c).value, t)
  {
    hide Holds;
    var top := st.stack[|st.stack| - 1];
    var p := CellOf(mid.heap, top);
    var st' := Put(mid, c).value;
    assert Over(st, mid, st'.heap, p, c);
    assert ReadAt(st, st', t, p);
  }

  /** A text without overlong integers and null bytes is read into exactly the value it stands for, and
    the frames around it are restored; any other text is refused. */
  lemma {:induction false} FeedReads(st: State, j: Json)
    requires Ready(st)
    ensures ReadsClaim(st, j)
    decreases j, 2
  {
    match j
    case JNull =>
      FeedOne(st, ENull);
      PutReads(st, CNull, TNull);
    case JBool(b) =>
      FeedOne(st, EBool(b));
      PutReads(st, CBool(b), TBool(b));
    case JInt(n) =>
      FeedOne(st, EInt(n));
      PutReads(st, CInt(n), TInt(n));
    case JFloat(f) =>
      FeedOne(st, EFloat(f));
      PutReads(st, CFloat(f), TFloat(f));
    case JString(s) =>
      FeedOne(st, EString(s));
      PutReads(st, CString(s), TString(s));
    case JArray(es) => FeedArray(st, es);
    case JObject(ms) => FeedObject(st, ms);
  }

  lemma FeedArray(st: State, es: seq<Json>)
    requires Ready(st)
    ensures Clean(JArray(es)) <==> Feed(st, Events(JArray(es))).Some?
    ensures Clean(JArray(es)) ==> Read(st, Feed(st, Events(JArray(es))).value, ValueOf(JArray(es)))
    decreases es, 1
  {
    var open := st.(stack := st.stack + [Arr(None, [])]);
    FeedOne(st, EStartArray);
    FeedElems(open, es);
    FeedAppend(st, [EStartArray], ElemEvents(es));
    FeedAppend(st, [EStartArray] + ElemEvents(es), [EEnd]);
    if AllClean(es) {
      var full := Feed(open, ElemEvents(es)).value;
      FeedOne(full, EEnd);
      CloseArray(st, open, full, ValuesOf(es));
    }
  }

  ghost predicate AllClean(es: seq<Json>) {
    forall i :: 0 <= i < |es| ==> Clean(es[i])
  }

  function ValuesOf(es: seq<Json>): seq<Tree> {
    seq(|es|, i requires 0 <= i < |es| => ValueOf(es[i]))
  }

  lemma ListHolds(st: State, mid: State, heap: seq<Cell>, p: Ptr, ps: seq<Ptr>, ts: seq<Tree>)
    requires Over(st, mid, heap, p, CList(ps)) && |ps| == |ts| && st.heap <= mid.heap
    requires forall i :: 0 <= i < |ps| ==> ps[i] >= |st.heap| && Holds(mid.heap, |st.heap|, ps[i], ts[i])
    ensures Holds(heap, |st.heap|, p, TList(ts))
  {
    forall i | 0 <= i < |ts|
      ensures Holds(heap, |st.heap|, ps[i], ts[i])
    {
      HoldsKept(mid.heap, heap, |st.heap|, |st.heap|, ps[i], ts[i]);
    }
  }

  lemma CloseArray(st: State, open: State, full: State, ts: seq<Tree>)
    requires Ready(st) && open == st.(stack := st.stack + [Arr(None, [])]) && ReadElems(open, full, ts)
    ensures Step(full, EEnd).Some? && Read(st, Step(full, EEnd).value, TList(ts))
  {
    hide Holds, Read, Ready, Put, Over;
    var ps: seq<Ptr> :| ElemsAt(open, full, ts, ps);
    assert open.stack[..|open.stack| - 1] == st.stack && [] + ps == ps;
    var mid := full.(stack := st.stack);
    assert full.stack[..|full.stack| - 1] == st.stack;
    forall heap: seq<Cell>, p: Ptr | Over(st, mid, heap, p, CList(ps))
      ensures Holds(heap, |st.heap|, p, TList(ts))
    {
      ListHolds(st, mid, heap, p, ps, ts);
    }
    PutAfter(st, mid, CList(ps), TList(ts));
  }

  ghost predicate ElemsClaim(st: State, es: seq<Json>) {
    && (AllClean(es) <==> Feed(st, ElemEvents(es)).Some?)
    && (AllClean(es) ==> ReadElems(st, Feed(st, ElemEvents(es)).value, ValuesOf(es)))
  }

  lemma {:induction false} FeedElems(st: State, es: seq<Json>)
    requires st.stack != [] && st.stack[|st.stack| - 1] == Arr(None, [])
    ensures ElemsClaim(st, es)
    decreases es, 0
  {
    if es == [] {
      NoElems(st);
      assert ValuesOf(es) == [] && Feed(st, ElemEvents(es)) == Some(st);
    } else {
      FeedElems(st, es[..|es| - 1]);
      hide *;
      if AllClean(es[..|es| - 1]) {
        ElemsReady(st, es[..|es| - 1]);
        FeedReads(Feed(st, ElemEvents(es[..|es| - 1])).value, es[|es| - 1]);
      }
      FeedElem(st, es);
    }
  }

  lemma ElemsReady(st: State, es: seq<Json>)
    requires ElemsClaim(st, es) && AllClean(es)
    ensures Feed(st, ElemEvents(es)).Some? && Ready(Feed(st, ElemEvents(es)).value)
  {
    hide AllClean, Feed, ElemEvents, ValuesOf;
    ReadElemsReady(st, Feed(st, ElemEvents(es)).value, ValuesOf(es));
  }

  ghost predicate ReadsClaim(st: State, j: Json) {
    && (Clean(j) <==> Feed(st, Events(j)).Some?)
    && (Clean(j) ==> Read(st, Feed(st, Events(j)).value, ValueOf(j)))
  }

  lemma FeedElem(st: State, es: seq<Json>)
    requires es != [] && ElemsClaim(st, es[..|es| - 1])
    requires AllClean(es[..|es| - 1]) ==> ReadsClaim(Feed(st, ElemEvents(es[..|es| - 1])).value, es[|es| - 1])
    ensures ElemsClaim(st, es)
  {
    hide Read, ReadElems, Events, ElemEvents, Feed, ValueOf, Clean, AllClean, ValuesOf;
    var init, last := es[..|es| - 1], es[|es| - 1];
    ElemEventsSnoc(es);
    FeedAppend(st, ElemEvents(init), Events(last));
    AllCleanSnoc(es);
    if AllClean(es) {
      var mid := Feed(st, ElemEvents(init)).value;
      OneMoreElem(st, mid, Feed(mid, Events(last)).value, ValuesOf(init), ValueOf(last));
      ValuesSnoc(es);
    }
  }

  lemma AllCleanSnoc(es: seq<Json>)
    requires es != []
    ensures AllClean(es) <==> AllClean(es[..|es| - 1]) && Clean(es[|es| - 1])
  {
    hide Clean;
  }

  lemma NoElems(st: State)
    requires st.stack != [] && st.stack[|st.stack| - 1] == Arr(None, [])
    ensures ReadElems(st, st, [])
  {
    var ps: seq<Ptr> := [];
    var values := st.stack[|st.stack| - 1].values;
    assert values + ps == values;
    assert ElemsAt(st, st, [], ps);
  }

  lemma NoMembers(st: State)
    requires st.stack != [] && st.stack[|st.stack| - 1] == Obj(None, map[])
    ensures ReadMembers(st, st, map[])
  {
    var attrs: map<string, Ptr> := map[];
    assert MembersAt(st, st, map[], attrs);
  }

  lemma ValuesSnoc(es: seq<Json>)
    requires es != []
    ensures ValuesOf(es) == ValuesOf(es[..|es| - 1]) + [ValueOf(es[|es| - 1])]
  {
    hide ValueOf;
  }

  lemma ElemEventsSnoc(es: seq<Json>)
    requires es != []
    ensures ElemEvents(es) == ElemEvents(es[..|es| - 1]) + Events(es[|es| - 1])
  {
  }

  lemma ReadElemsReady(st: State, mid: State, ts: seq<Tree>)
    requires ReadElems(st, mid, ts)
    ensures Ready(mid)
  {
  }

  lemma OneMoreElem(st: State, mid: State, end: State, ts: seq<Tree>, t: Tree)
    requires ReadElems(st, mid, ts) && Read(mid, end, t)
    ensures ReadElems(st, end, ts + [t])
  {
    hide Holds;
    var ps: seq<Ptr> :| ElemsAt(st, mid, ts, ps);
    var p: Ptr :| ReadAt(mid, end, t, p);
    var values, ps' := st.stack[|st.stack| - 1].values, ps + [p];
    assert values + ps' == (values + ps) + [p];
    assert mid.stack[..|mid.stack| - 1] == st.stack[..|st.stack| - 1];
    forall i | 0 <= i < |ps'|
      ensures ps'[i] >= |st.heap| && Holds(end.heap, |st.heap|, ps'[i], (ts + [t])[i])
    {
      if i < |ps| {
        HeldCell(mid.heap, |st.heap|, ps[i], ts[i]);
        HoldsKept(mid.heap, end.heap, |st.heap|, |st.heap|, ps[i], ts[i]);
      } else {
        HoldsKept(end.heap, end.heap, |mid.heap|, |st.heap|, p, t);
      }
    }
    assert ElemsAt(st, end, ts + [t], ps');
  }

  lemma FeedObject(st: State, ms: seq<Member>)
    requires Ready(st)
    ensures Clean(JObject(ms)) <==> Feed(st, Events(JObject(ms))).Some?
    ensures Clean(JObject(ms)) ==> Read(st, Feed(st, Events(JObject(ms))).value, ValueOf(JObject(ms)))
    decreases ms, 1
  {
    var open := st.(stack := st.stack + [Obj(None, map[])]);
    FeedOne(st, EStartObject);
    FeedMembers(open, ms);
    FeedAppend(st, [EStartObject], MemberEvents(ms));
    FeedAppend(st, [EStartObject] + MemberEvents(ms), [EEnd]);
    if CleanMembers(ms) {
      var full := Feed(open, MemberEvents(ms)).value;
      FeedOne(full, EEnd);
      CloseObject(st, open, full, MembersOf(ms));
    }
  }

  ghost predicate CleanMembers(ms: seq<Member>) {
    forall i :: 0 <= i < |ms| ==> NoNul(ms[i].name) && Clean(ms[i].value)
  }

  lemma SetHolds(st: State, mid: State, heap: seq<Cell>, p: Ptr, attrs: map<string, Ptr>, ts: map<string, Tree>)
    requires Over(st, mid, heap, p, CAttrs(attrs)) && attrs.Keys == ts.Keys && st.heap <= mid.heap
    requires forall k :: k in ts ==> attrs[k] >= |st.heap| && Holds(mid.heap, |st.heap|, attrs[k], ts[k])
    ensures Holds(heap, |st.heap|, p, TAttrs(ts))
  {
    forall k | k in ts
      ensures Holds(heap, |st.heap|, attrs[k], ts[k])
    {
      HoldsKept(mid.heap, heap, |st.heap|, |st.heap|, attrs[k], ts[k]);
    }
  }

  lemma CloseObject(st: State, open: State, full: State, ts: map<string, Tree>)
    requires Ready(st) && open == st.(stack := st.stack + [Obj(None, map[])]) && ReadMembers(open, full, ts)
    ensures Step(full, EEnd).Some? && Read(st, Step(full, EEnd).value, TAttrs(ts))
  {
    hide Holds, Read, Ready, Put, Over;
    var attrs: map<string, Ptr> :| MembersAt(open, full, ts, attrs);
    assert open.stack[..|open.stack| - 1] == st.stack;
    var mid := full.(stack := st.stack);
    assert full.stack[..|full.stack| - 1] == st.stack;
    forall heap: seq<Cell>, p: Ptr | Over(st, mid, heap, p, CAttrs(attrs))
      ensures Holds(heap, |st.heap|, p, TAttrs(ts))
    {
      SetHolds(st, mid, heap, p, attrs, ts);
    }
    PutAfter(st, mid, CAttrs(attrs), TAttrs(ts));
  }

  ghost predicate MembersClaim(st: State, ms: seq<Member>) {
    && (CleanMembers(ms) <==> Feed(st, MemberEvents(ms)).Some?)
    && (CleanMembers(ms) ==> ReadMembers(st, Feed(st, MemberEvents(ms)).value, MembersOf(ms)))
  }

  lemma {:induction false} FeedMembers(st: State, ms: seq<Member>)
    requires st.stack != [] && st.stack[|st.stack| - 1] == Obj(None, map[])
    ensures MembersClaim(st, ms)
    decreases ms, 0
  {
    if ms == [] {
      NoMembers(st);
    } else {
      FeedMembers(st, ms[..|ms| - 1]);
      assert ms[|ms| - 1] in ms;
      hide *;
      var last := ms[|ms| - 1];
      if CleanMembers(ms[..|ms| - 1]) && NoNul(last.name) {
        MembersReady(st, ms[..|ms| - 1], last.name);
        FeedReads(Keyed(st, ms), last.value);
      }
      FeedMember(st, ms);
    }
  }

  /** The state in which the value of the last member is read. */
  ghost function Keyed(st: State, ms: seq<Member>): State
    requires ms != []
  {
    var mid := Feed(st, MemberEvents(ms[..|ms| - 1]));
    if mid.None? then st
    else
      var keyed := Step(mid.value, EKey(ms[|ms| - 1].name));
      if keyed.None? then st else keyed.value
  }

  lemma MembersReady(st: State, init: seq<Member>, name: string)
    requires MembersClaim(st, init) && CleanMembers(init) && NoNul(name)
    ensures Feed(st, MemberEvents(init)).Some?
    ensures var r := Step(Feed(st, MemberEvents(init)).value, EKey(name)); r.Some? && Ready(r.value)
  {
    hide CleanMembers, Feed, MemberEvents, MembersOf, NoNul, Step, Ready;
    KeyStep(st, Feed(st, MemberEvents(init)).value, MembersOf(init), name);
  }

  lemma FeedMember(st: State, ms: seq<Member>)
    requires ms != [] && MembersClaim(st, ms[..|ms| - 1])
    requires CleanMembers(ms[..|ms| - 1]) && NoNul(ms[|ms| - 1].name) ==> ReadsClaim(Keyed(st, ms), ms[|ms| - 1].value)
    ensures MembersClaim(st, ms)
  {
    hide Step, Read, ReadMembers, Events, MemberEvents, Feed, ValueOf, Clean, NoNul, MembersOf, CleanMembers;
    var init, last := ms[..|ms| - 1], ms[|ms| - 1];
    MemberEventsSnoc(ms);
    FeedAppend(st, MemberEvents(init), [EKey(last.name)]);
    FeedAppend(st, MemberEvents(init) + [EKey(last.name)], Events(last.value));
    CleanMembersSnoc(ms);
    if CleanMembers(init) {
      var mid := Feed(st, MemberEvents(init)).value;
      FeedOne(mid, EKey(last.name));
      KeyStep(st, mid, MembersOf(init), last.name);
      if CleanMembers(ms) {
        var end := Feed(Keyed(st, ms), Events(last.value)).value;
        OneMoreMember(st, mid, end, MembersOf(init), last.name, ValueOf(last.value));
      }
    }
  }

  lemma CleanMembersSnoc(ms: seq<Member>)
    requires ms != []
    ensures CleanMembers(ms) <==>
            CleanMembers(ms[..|ms| - 1]) && NoNul(ms[|ms| - 1].name) && Clean(ms[|ms| - 1].value)
  {
    hide Clean, NoNul;
  }

  lemma MemberEventsSnoc(ms: seq<Member>)
    requires ms != []
    ensures var m := ms[|ms| - 1];
            && MemberEvents(ms) == MemberEvents(ms[..|ms| - 1]) + [EKey(m.name)] + Events(m.value)
            && MembersOf(ms) == MembersOf(ms[..|ms| - 1])[m.name := ValueOf(m.value)]
  {
  }

  lemma KeyStep(st: State, mid: State, ts: map<string, Tree>, name: string)
    requires ReadMembers(st, mid, ts)
    ensures Step(mid, EKey(name)).Some? <==> NoNul(name)
    ensures NoNul(name) ==> Ready(Step(mid, EKey(name)).value)
  {
  }

  lemma KeyMakesCell(mid: State, base: seq<Frame>, attrs: map<string, Ptr>, name: string)
    requires mid.stack == base + [Obj(None, attrs)] && NoNul(name)
    ensures Step(mid, EKey(name))
            == Some(State(mid.heap + [Blank], base + [Obj(Some(|mid.heap|), attrs[name := |mid.heap|])]))
  {
    assert mid.stack[..|mid.stack| - 1] == base;
  }

  lemma ReadOfKeyed(keyed: State, end: State, base: seq<Frame>, p: Ptr, attrs: map<string, Ptr>, t: Tree)
    requires Read(keyed, end, t) && keyed.stack == base + [Obj(Some(p), attrs)]
    ensures end.stack == base + [Obj(None, attrs)] && |keyed.heap| <= |end.heap| && p < |end.heap|
    ensures forall i :: 0 <= i < |keyed.heap| && i != p ==> end.heap[i] == keyed.heap[i]
    ensures Holds(end.heap, |keyed.heap|, p, t)
  {
    hide Holds;
    assert keyed.stack[..|keyed.stack| - 1] == base;
    var q: Ptr :| ReadAt(keyed, end, t, q);
  }

  lemma OneMoreMember(st: State, mid: State, end: State, ts: map<string, Tree>, name: string, t: Tree)
    requires ReadMembers(st, mid, ts) && NoNul(name)
    requires Step(mid, EKey(name)).Some? && Read(Step(mid, EKey(name)).value, end, t)
    ensures ReadMembers(st, end, ts[name := t])
  {
    hide Holds, Step, Read, NoNul;
    var base := st.stack[..|st.stack| - 1];
    var attrs: map<string, Ptr> :| MembersAt(st, mid, ts, attrs);
    KeyMakesCell(mid, base, attrs, name);
    var keyed := Step(mid, EKey(name)).value;
    var p: Ptr := |mid.heap|;
    ReadOfKeyed(keyed, end, base, p, attrs[name := p], t);
    forall k | k in ts && k != name
      ensures attrs[k] >= |st.heap| && Holds(end.heap, |st.heap|, attrs[k], ts[k])
    {
      HeldCell(mid.heap, |st.heap|, attrs[k], ts[k]);
      HoldsKept(mid.heap, end.heap, |st.heap|, |st.heap|, attrs[k], ts[k]);
    }
    HoldsKept(end.heap, end.heap, |keyed.heap|, |st.heap|, p, t);
    assert MembersAt(st, end, ts[name := t], attrs[name := p]);
  }

  lemma HeldCell(heap: seq<Cell>, lo: nat, p: Ptr, t: Tree)
    requires Holds(heap, lo, p, t)
    ensures p < |heap|
  {
  }

  /** Reading a whole text into cell `0`. */
  lemma ParseReads(j: Json)
    ensures var start := State([Blank], [Root(0)]);
            var r := Feed(start, Events(j));
            && (r.Some? <==> Clean(j))
            && (r.Some? ==> r.value.stack == [Root(0)] && Holds(r.value.heap, 1, 0, ValueOf(j)))
  {
    var start := State([Blank], [Root(0)]);
    FeedReads(start, j);
    if Clean(j) {
      var r := Feed(start, Events(j)).value;
      var p: Ptr :| ReadAt(start, r, ValueOf(j), p);
      assert start.stack[..|start.stack| - 1] == [];
    }
  }

  // ---- printing ----

  const OUT_PATH := "outPath"
  const TO_STRING := "__toString"

  /** Printing a value as JSON again. A set with `__toString` is called like a function, which no value
    that was read is; a set with `outPath` is printed as that attribute. */
  function Print(t: Tree): Option<Tree>
    decreases t
  {
    match t
    case TList(ts) =>
      if forall i :: 0 <= i < |ts| ==> Print(ts[i]).Some?
      then Some(TList(seq(|ts|, i requires 0 <= i < |ts| => Print(ts[i]).value)))
      else None
    case TAttrs(ts) =>
      if TO_STRING in ts then None
      else if OUT_PATH in ts then Print(ts[OUT_PATH])
      else if forall k :: k in ts ==> Print(ts[k]).Some? then Some(TAttrs(map k | k in ts :: Print(ts[k]).value))
      else None
    case _ => Some(t)
  }

  predicate NoSpecialNames(t: Tree)
    decreases t
  {
    match t
    case TList(ts) => forall i :: 0 <= i < |ts| ==> NoSpecialNames(ts[i])
    case TAttrs(ts) => TO_STRING !in ts && OUT_PATH !in ts && forall k :: k in ts ==> NoSpecialNames(ts[k])
    case _ => true
  }

  lemma {:induction false} PrintedHasNoOutPath(t: Tree)
    requires Print(t).Some? && Print(t).value.TAttrs?
    ensures OUT_PATH !in Print(t).value.attrs
    decreases t
  {
    if t.TAttrs? && OUT_PATH in t.attrs {
      PrintedHasNoOutPath(t.attrs[OUT_PATH]);
    }
  }

  /** Printing gives the value back exactly when no set in it has an attribute `outPath` or
    `__toString`. */
  lemma {:induction false} PrintsBackIff(t: Tree)
    ensures Print(t) == Some(t) <==> NoSpecialNames(t)
    decreases t
  {
    match t
    case TList(ts) =>
      forall i | 0 <= i < |ts|
        ensures Print(ts[i]) == Some(ts[i]) <==> NoSpecialNames(ts[i])
      {
        PrintsBackIff(ts[i]);
      }
      PrintedList(ts);
    case TAttrs(ts) =>
      forall k | k in ts
        ensures Print(ts[k]) == Some(ts[k]) <==> NoSpecialNames(ts[k])
      {
        PrintsBackIff(ts[k]);
      }
      if Print(t).Some? && Print(t).value.TAttrs? {
        PrintedHasNoOutPath(t);
      }
      if TO_STRING !in ts && OUT_PATH !in ts {
        PrintedSet(ts);
      }
    case _ =>
  }

  lemma PrintedList(ts: seq<Tree>)
    ensures Print(TList(ts)) == Some(TList(ts)) <==> forall i :: 0 <= i < |ts| ==> Print(ts[i]) == Some(ts[i])
  {
    if Print(TList(ts)) == Some(TList(ts)) {
      forall i | 0 <= i < |ts|
        ensures Print(ts[i]) == Some(ts[i])
      {
        assert Print(TList(ts)).value.elems[i] == ts[i];
      }
    }
    if forall i :: 0 <= i < |ts| ==> Print(ts[i]) == Some(ts[i]) {
      assert Print(TList(ts)).value.elems == ts;
    }
  }

  lemma PrintedSet(ts: map<string, Tree>)
    requires TO_STRING !in ts && OUT_PATH !in ts
    ensures Print(TAttrs(ts)) == Some(TAttrs(ts)) <==> forall k :: k in ts ==> Print(ts[k]) == Some(ts[k])
  {
    if Print(TAttrs(ts)) == Some(TAttrs(ts)) {
      forall k | k in ts
        ensures Print(ts[k]) == Some(ts[k])
      {
        assert Print(TAttrs(ts)).value.attrs[k] == ts[k];
      }
    }
    if forall k :: k in ts ==> Print(ts[k]) == Some(ts[k]) {
      assert Print(TAttrs(ts)).value.attrs == ts;
    }
  }

  /** `u` is what `t` stands for after `n` steps from a set to its `outPath`. */
  ghost predicate StandsFor(t: Tree, n: nat, u: Tree)
    decreases n
  {
    if n == 0 then t == u
    else t.TAttrs? && TO_STRING !in t.attrs && OUT_PATH in t.attrs && StandsFor(t.attrs[OUT_PATH], n - 1, u)
  }

  /** A set with `outPath` prints as that attribute does, however many such sets are nested. */
  lemma {:induction false} OutPathIsPrinted(t: Tree, n: nat, u: Tree)
    requires StandsFor(t, n, u)
    ensures Print(t) == Print(u)
    decreases n
  {
    if n > 0 {
      OutPathIsPrinted(t.attrs[OUT_PATH], n - 1, u);
    }
  }

  /** `u` is one of the members or elements that printing `t` comes to, `n` levels down. */
  ghost predicate Shows(t: Tree, n: nat, u: Tree)
    decreases n
  {
    if n == 0 then t == u
    else match t
         case TList(ts) => exists i :: 0 <= i < |ts| && Shows(ts[i], n - 1, u)
         case TAttrs(ts) =>
           TO_STRING !in ts && exists k :: k in ts && (OUT_PATH in ts ==> k == OUT_PATH) && Shows(ts[k], n - 1, u)
         case _ => false
  }

  ghost predicate IsCalled(u: Tree) {
    u.TAttrs? && TO_STRING in u.attrs
  }

  ghost predicate ShowsCalled(t: Tree) {
    exists n: nat, u :: Shows(t, n, u) && IsCalled(u)
  }

  lemma ShowsMore(t: Tree, part: Tree)
    requires ShowsCalled(part) && Shows(t, 1, part)
    ensures ShowsCalled(t)
  {
    var n: nat, u :| Shows(part, n, u) && IsCalled(u);
    assert Shows(t, n + 1, u);
  }

  lemma ShowsLess(t: Tree) returns (part: Tree)
    requires ShowsCalled(t) && !IsCalled(t)
    ensures Shows(t, 1, part) && ShowsCalled(part)
    ensures t.TList? ==> part in t.elems
    ensures t.TAttrs? ==> exists k :: k in t.attrs && (OUT_PATH in t.attrs ==> k == OUT_PATH) && part == t.attrs[k]
  {
    var n: nat, u :| Shows(t, n, u) && IsCalled(u);
    assert n > 0;
    match t
    case TList(ts) =>
      var i :| 0 <= i < |ts| && Shows(ts[i], n - 1, u);
      part := ts[i];
      assert Shows(ts[i], 0, part);
    case TAttrs(ts) =>
      var k :| k in ts && (OUT_PATH in ts ==> k == OUT_PATH) && Shows(ts[k], n - 1, u);
      part := ts[k];
      assert Shows(ts[k], 0, part);
  }

  /** Printing fails exactly when it comes to a set with `__toString`. */
  lemma {:induction false} PrintFailsIff(t: Tree)
    ensures Print(t).None? <==> ShowsCalled(t)
    decreases t
  {
    if IsCalled(t) {
      assert Shows(t, 0, t);
    } else {
      if Print(t).None? {
        var part := FailingPart(t);
        PrintFailsIff(part);
        ShowsMore(t, part);
      }
      if ShowsCalled(t) {
        var part := ShowsLess(t);
        PrintFailsIff(part);
      }
    }
  }

  lemma FailingPart(t: Tree) returns (part: Tree)
    requires Print(t).None? && !IsCalled(t)
    ensures Print(part).None? && Shows(t, 1, part) && part < t
  {
    match t
    case TList(ts) =>
      var i :| 0 <= i < |ts| && Print(ts[i]).None?;
      part := ts[i];
      assert Shows(ts[i], 0, part);
    case TAttrs(ts) =>
      var k :| k in ts && (OUT_PATH in ts ==> k == OUT_PATH) && Print(ts[k]).None?;
      part := ts[k];
      assert Shows(ts[k], 0, part);
  }

  // ---- reading and printing ----

  /** Printing what is in a cell. `t` is what the cell holds, and shows that the recursion ends. */
  function PrintCell(heap: seq<Cell>, p: Ptr, ghost lo: nat, ghost t: Tree): Option<Tree>
    requires Holds(heap, lo, p, t)
    decreases t
  {
    match heap[p]
    case CList(ps) =>
      if forall i :: 0 <= i < |ps| ==> PrintCell(heap, ps[i], lo, t.elems[i]).Some?
      then Some(TList(seq(|ps|, i requires 0 <= i < |ps| => PrintCell(heap, ps[i], lo, t.elems[i]).value)))
      else None
    case CAttrs(attrs) =>
      if TO_STRING in attrs then None
      else if OUT_PATH in attrs then PrintCell(heap, attrs[OUT_PATH], lo, t.attrs[OUT_PATH])
      else if forall k :: k in attrs ==> PrintCell(heap, attrs[k], lo, t.attrs[k]).Some?
      then Some(TAttrs(map k | k in attrs :: PrintCell(heap, attrs[k], lo, t.attrs[k]).value))
      else None
    case CNull => Some(TNull)
    case CBool(b) => Some(TBool(b))
    case CInt(n) => Some(TInt(n))
    case CFloat(f) => Some(TFloat(f))
    case CString(s) => Some(TString(s))
  }

  /** Printing a cell prints the value it holds. */
  lemma {:induction false} PrintCellPrints(heap: seq<Cell>, p: Ptr, lo: nat, t: Tree)
    requires Holds(heap, lo, p, t)
    ensures PrintCell(heap, p, lo, t) == Print(t)
    decreases t
  {
    match t
    case TList(ts) =>
      forall i | 0 <= i < |ts|
        ensures PrintCell(heap, heap[p].elems[i], lo, ts[i]) == Print(ts[i])
      {
        PrintCellPrints(heap, heap[p].elems[i], lo, ts[i]);
      }
      if Print(t).Some? {
        assert PrintCell(heap, p, lo, t).value.elems == Print(t).value.elems;
      }
    case TAttrs(ts) =>
      forall k | k in ts
        ensures PrintCell(heap, heap[p].attrs[k], lo, ts[k]) == Print(ts[k])
      {
        PrintCellPrints(heap, heap[p].attrs[k], lo, ts[k]);
      }
      if TO_STRING !in ts && OUT_PATH !in ts && Print(t).Some? {
        assert PrintCell(heap, p, lo, t).value.attrs == Print(t).value.attrs;
      }
    case _ =>
  }

  /** Reading a text and printing the cell it was read into gives the value of the text exactly when no
    object in it has a member `outPath` or `__toString` that counts. */
  lemma ReadThenPrintIff(j: Json)
    requires Clean(j)
    ensures var r := Feed(State([Blank], [Root(0)]), Events(j));
            && r.Some? && Holds(r.value.heap, 1, 0, ValueOf(j))
            && (PrintCell(r.value.heap, 0, 1, ValueOf(j)) == Some(ValueOf(j)) <==> NoSpecialNames(ValueOf(j)))
  {
    hide Feed, Events, Print, PrintCell, ValueOf, NoSpecialNames, Holds;
    ParseReads(j);
    var heap := Feed(State([Blank], [Root(0)]), Events(j)).value.heap;
    PrintCellPrints(heap, 0, 1, ValueOf(j));
    PrintsBackIff(ValueOf(j));
  }

  // ---- the code ----

  class Parser {
    var heap: seq<Cell>
    var stack: seq<Frame>

    ghost function Now(): State
      reads this
    {
      State(heap, stack)
    }

    constructor ()
      ensures Now() == State([Blank], [Root(0)])
    {
      heap, stack := [Blank], [Root(0)];
    }

    /** The cell of the value that is read next. */
    method Value() returns (p: Ptr)
      requires stack != []
      modifies this
      ensures p == CellOf(old(heap), old(stack)[|old(stack)| - 1])
      ensures heap == Made(old(heap), old(stack)[|old(stack)| - 1]) && |stack| == |old(stack)|
      ensures stack[..|stack| - 1] == old(stack)[..|stack| - 1]
      ensures stack[|stack| - 1] == match old(stack)[|stack| - 1]
                                    case Root(c) => Root(c)
                                    case Obj(_, attrs) => Obj(Some(p), attrs)
                                    case Arr(_, values) => Arr(Some(p), values)
    {
      var n := |stack| - 1;
      match stack[n] {
        case Root(c) =>
          p := c;
          if c == |heap| {
            heap := heap + [Blank];
          }
        case Obj(v, attrs) =>
          p := if v.Some? then v.value else |heap|;
          if p == |heap| {
            heap := heap + [Blank];
          }
          stack := stack[n := Obj(Some(p), attrs)];
        case Arr(v, values) =>
          p := if v.Some? then v.value else |heap|;
          if p == |heap| {
            heap := heap + [Blank];
          }
          stack := stack[n := Arr(Some(p), values)];
      }
    }

    /** Stores a value and adds it to the innermost frame. */
    method Store(c: Cell)
      requires Put(Now(), c).Some?
      modifies this
      ensures Some(Now()) == Put(old(Now()), c)
    {
      var p := Value();
      heap := heap[p := c];
      var n := |stack| - 1;
      match stack[n] {
        case Root(_) =>
        case Obj(_, attrs) => stack := stack[n := Obj(None, attrs)];
        case Arr(_, values) => stack := stack[n := Arr(None, values + [p])];
      }
      assert stack == stack[..n] + [stack[n]];
    }

    method Handle(e: Event) returns (ok: bool)
      requires Ready(Now()) || e.EKey? || e.EEnd? || e.EStartObject? || e.EStartArray?
      requires e.EEnd? && |stack| > 1 ==> Ready(Now().(stack := stack[..|stack| - 1]))
      modifies this
      ensures ok <==> Step(old(Now()), e).Some?
      ensures ok ==> Some(Now()) == Step(old(Now()), e)
    {
      match e {
        case ENull => Store(CNull);
        case EBool(b) => Store(CBool(b));
        case EInt(n) =>
          if n > MAX_INT {
            return false;
          }
          Store(CInt(n));
        case EFloat(f) => Store(CFloat(f));
        case EString(s) =>
          if !NoNul(s) {
            return false;
          }
          Store(CString(s));
        case EStartObject => stack := stack + [Obj(None, map[])];
        case EStartArray => stack := stack + [Arr(None, [])];
        case EKey(name) =>
          if stack == [] || !stack[|stack| - 1].Obj? || !NoNul(name) {
            return false;
          }
          var p := Value();
          var n := |stack| - 1;
          stack := stack[n := Obj(Some(p), stack[n].attrs[name := p])];
          assert stack == stack[..n] + [stack[n]];
        case EEnd =>
          if stack == [] || stack[|stack| - 1].Root? {
            return false;
          }
          if |stack| == 1 {
            return false;
          }
          var top := stack[|stack| - 1];
          stack := stack[..|stack| - 1];
          Store(if top.Obj? then CAttrs(top.attrs) else CList(top.values));
      }
      return true;
    }
  }
}
