/** The evaluation cache: cursors over a table of rows that remember what evaluating an attribute path
  gave. Rows are replaced as more becomes known, and a replacement gets a new row id, while other
  cursors still hold the old one. */
module EvalCache {
  import opened Options

  type Symbol = nat

  type Path = seq<Symbol>

  /** What plain evaluation finds at a path that exists. */
  datatype Node =
    | Set(names: set<Symbol>)
    | Boolean(b: bool)
    | Text(s: string)
    /** A source path: its absolute path, and how it is shown with its accessor. */
    | PathNode(abs: string, shown: string)
    | Integer(n: int)
    | Other

  /** A deterministic evaluator, seen from outside. */
  type Evaluator = Path -> Node

  ghost predicate Exists(eval: Evaluator, path: Path) {
    path == [] || (
      && Exists(eval, path[..|path| - 1])
      && eval(path[..|path| - 1]).Set? && path[|path| - 1] in eval(path[..|path| - 1]).names)
  }

  lemma ExistsChild(eval: Evaluator, path: Path, name: Symbol)
    requires Exists(eval, path)
    ensures Exists(eval, path + [name]) <==> eval(path).Set? && name in eval(path).names
  {
    assert (path + [name])[..|path|] == path;
  }

  // ---- rows ----

  /** The name of the root row, which has parent 0. */
  const EPSILON: Symbol := 0

  datatype Key = Key(parent: nat, name: Symbol)

  /** The contents of a row. The names of a `FullAttrs` row are the names of the rows below it. */
  datatype RowValue =
    | Placeholder
    | FullAttrs
    | Missing
    | RBool(b: bool)
    | RString(s: string)
    | RInt(n: int)
    | Misc

  datatype Row = Row(id: nat, value: RowValue)

  /** What a cursor remembers of a row it has read or written. */
  datatype Known =
    | KPlaceholder
    | KAttrs(names: set<Symbol>)
    | KMissing
    | KBool(b: bool)
    | KString(s: string)
    | KInt(n: int)
    | KMisc

  datatype Cached = Cached(id: nat, known: Known)

  datatype Cursor = Cursor(parent: Option<(nat, Symbol)>, cached: Option<Cached>)

  /** Integers are written through a 32-bit `int`. */
  function Narrow(n: int): int {
    (n + 0x8000_0000) % 0x1_0000_0000 - 0x8000_0000
  }

  /** An integer survives being written exactly when it fits. */
  lemma NarrowIff(n: int)
    ensures Narrow(n) == n <==> -0x8000_0000 <= n < 0x8000_0000
  {
  }

  /** The path and the sort of a row id, fixed when it is issued. */
  datatype Issue = Issue(path: Path, full: bool)

  ghost predicate Represents(value: RowValue, node: Node) {
    match value
    case Placeholder => true
    case FullAttrs => node.Set?
    case Missing => false
    case RBool(b) => node == Boolean(b)
    case RString(s) => node == Text(s) || (node.PathNode? && node.abs == s)
    case RInt(n) => node.Integer? && n == Narrow(node.n)
    case Misc => node.Other?
  }

  ghost predicate Knows(known: Known, node: Node) {
    match known
    case KPlaceholder => true
    case KAttrs(names) => node == Set(names)
    case KMissing => false
    case KBool(b) => node == Boolean(b)
    case KString(s) => node == Text(s) || (node.PathNode? && node.abs == s)
    case KInt(n) => node.Integer? && (n == node.n || n == Narrow(node.n))
    case KMisc => node.Other?
  }

  function CursorPath(cursors: seq<Cursor>, i: nat): Path
    decreases i
  {
    if i >= |cursors| || cursors[i].parent.None? || cursors[i].parent.value.0 >= i then []
    else CursorPath(cursors, cursors[i].parent.value.0) + [cursors[i].parent.value.1]
  }

  lemma {:induction false} PathStable(a: seq<Cursor>, b: seq<Cursor>, i: nat)
    requires i < |a| <= |b|
    requires forall j :: 0 <= j < |a| ==> b[j].parent == a[j].parent
    ensures CursorPath(b, i) == CursorPath(a, i)
    decreases i
  {
    if a[i].parent.Some? && a[i].parent.value.0 < i {
      PathStable(a, b, a[i].parent.value.0);
    }
  }

  /** The path a key stands for. */
  function KeyPath(issued: map<nat, Issue>, k: Key): Path {
    if k.parent in issued then issued[k.parent].path + [k.name] else []
  }

  predicate KeyOk(issued: map<nat, Issue>, k: Key) {
    k.parent in issued || k == Key(0, EPSILON)
  }

  /** A row says something true about its path. */
  ghost predicate RowOk(eval: Evaluator, issued: map<nat, Issue>, k: Key, row: Row) {
    && KeyOk(issued, k)
    && row.id in issued && issued[row.id].path == KeyPath(issued, k)
    && (row.value.FullAttrs? <==> issued[row.id].full)
    && (if row.value.Missing?
        then !Exists(eval, KeyPath(issued, k)) && k.parent in issued && Exists(eval, issued[k.parent].path)
        else Exists(eval, KeyPath(issued, k)) && Represents(row.value, eval(KeyPath(issued, k))))
  }

  ghost function Below(rows: map<Key, Row>, id: nat): set<Symbol> {
    set k | k in rows && k.parent == id :: k.name
  }

  /** Below a row that lists all attributes there is a row for exactly each of them. */
  ghost predicate Complete(eval: Evaluator, rows: map<Key, Row>, issued: map<nat, Issue>, k: Key)
    requires k in rows
  {
    rows[k].value.FullAttrs? ==>
      var node := eval(KeyPath(issued, k));
      node.Set? && Below(rows, rows[k].id) == node.names
  }

  /** The table is right; the row `pending`, if any, may not have all its children yet. */
  ghost predicate TableOk(eval: Evaluator, rows: map<Key, Row>, issued: map<nat, Issue>, largest: nat,
                          pending: Option<Key>)
  {
    && (forall id :: id in issued ==> 1 <= id <= largest)
    && (forall k :: k in rows ==> RowOk(eval, issued, k, rows[k]))
    && (forall k, l :: k in rows && l in rows && rows[k].id == rows[l].id ==> k == l)
    && (forall k :: k in rows && pending != Some(k) ==> Complete(eval, rows, issued, k))
  }

  /** What may be written under a key: something true and, below a row that lists all attributes, only
    about an attribute that exists. */
  ghost predicate Writable(eval: Evaluator, issued: map<nat, Issue>, k: Key, value: RowValue) {
    && KeyOk(issued, k)
    && (if value.Missing?
        then && k.parent in issued && !issued[k.parent].full && Exists(eval, issued[k.parent].path)
             && !Exists(eval, KeyPath(issued, k))
        else Exists(eval, KeyPath(issued, k)) && Represents(value, eval(KeyPath(issued, k))))
  }

  lemma BelowInsert(rows: map<Key, Row>, k: Key, row: Row, id: nat)
    ensures Below(rows[k := row], id) == if k.parent == id then Below(rows, id) + {k.name} else Below(rows, id)
  {
    var rows' := rows[k := row];
    forall x | x in Below(rows, id)
      ensures x in Below(rows', id)
    {
      assert Key(id, x) in rows';
    }
    assert k in rows';
    assert k.parent == id ==> k.name in Below(rows', id);
  }

  /** Issuing a new id changes no path. */
  lemma IssueKeepsPaths(issued: map<nat, Issue>, id: nat, issue: Issue, k: Key)
    requires KeyOk(issued, k) && id !in issued && id != 0 && 0 !in issued
    ensures KeyOk(issued[id := issue], k) && KeyPath(issued[id := issue], k) == KeyPath(issued, k)
  {
  }

  lemma RowKept(eval: Evaluator, issued: map<nat, Issue>, id: nat, issue: Issue, k: Key, row: Row)
    requires RowOk(eval, issued, k, row) && id !in issued && id != 0 && 0 !in issued
    ensures RowOk(eval, issued[id := issue], k, row)
  {
    IssueKeepsPaths(issued, id, issue, k);
  }

  /** A row that lists all attributes still does after a write elsewhere. */
  lemma CompleteKept(eval: Evaluator, rows: map<Key, Row>, issued: map<nat, Issue>, id: nat, k: Key, value: RowValue,
                     l: Key)
    requires l in rows && l != k && Complete(eval, rows, issued, l) && RowOk(eval, issued, l, rows[l])
    requires id !in issued && id != 0 && 0 !in issued && Writable(eval, issued, k, value)
    ensures Complete(eval, rows[k := Row(id, value)], issued[id := Issue(KeyPath(issued, k), value.FullAttrs?)], l)
  {
    IssueKeepsPaths(issued, id, Issue(KeyPath(issued, k), value.FullAttrs?), l);
    BelowInsert(rows, k, Row(id, value), rows[l].id);
    if rows[l].value.FullAttrs? && k.parent == rows[l].id {
      assert issued[k.parent].full && issued[k.parent].path == KeyPath(issued, l);
      ExistsChild(eval, issued[k.parent].path, k.name);
    }
  }

  /** Writing something true under a key, with a row id larger than all others, keeps the table right. */
  lemma InsertOk(eval: Evaluator, rows: map<Key, Row>, issued: map<nat, Issue>, largest: nat, pending: Option<Key>,
                 k: Key, value: RowValue)
    requires TableOk(eval, rows, issued, largest, pending) && Writable(eval, issued, k, value)
    requires pending != Some(k) && (value.FullAttrs? ==> pending == None)
    ensures TableOk(eval, rows[k := Row(largest + 1, value)],
                    issued[largest + 1 := Issue(KeyPath(issued, k), value.FullAttrs?)], largest + 1,
                    if value.FullAttrs? then Some(k) else pending)
  {
    hide Complete, Represents, Exists, RowOk;
    var id := largest + 1;
    var issue := Issue(KeyPath(issued, k), value.FullAttrs?);
    var rows', issued' := rows[k := Row(id, value)], issued[id := issue];
    NewRowOk(eval, issued, id, k, value);
    forall l | l in rows'
      ensures RowOk(eval, issued', l, rows'[l])
    {
      if l != k {
        RowKept(eval, issued, id, issue, l, rows[l]);
      }
    }
    forall l | l in rows && l != k && pending != Some(l)
      ensures Complete(eval, rows', issued', l)
    {
      CompleteKept(eval, rows, issued, id, k, value, l);
    }
    if !value.FullAttrs? {
      LeafComplete(eval, rows', issued', k);
    }
    IdsDistinct(eval, rows, issued, largest, pending, k, value);
  }

  lemma IdsDistinct(eval: Evaluator, rows: map<Key, Row>, issued: map<nat, Issue>, largest: nat, pending: Option<Key>,
                    k: Key, value: RowValue)
    requires TableOk(eval, rows, issued, largest, pending)
    ensures var rows' := rows[k := Row(largest + 1, value)];
            forall l, j :: l in rows' && j in rows' && rows'[l].id == rows'[j].id ==> l == j
  {
    hide Complete, Represents, Exists;
    forall l | l in rows
      ensures rows[l].id <= largest
    {
      assert RowOk(eval, issued, l, rows[l]);
    }
  }

  lemma NewRowOk(eval: Evaluator, issued: map<nat, Issue>, id: nat, k: Key, value: RowValue)
    requires id !in issued && id != 0 && 0 !in issued && Writable(eval, issued, k, value)
    ensures RowOk(eval, issued[id := Issue(KeyPath(issued, k), value.FullAttrs?)], k, Row(id, value))
  {
    hide Exists;
    IssueKeepsPaths(issued, id, Issue(KeyPath(issued, k), value.FullAttrs?), k);
  }

  lemma SetWritable(eval: Evaluator, issued: map<nat, Issue>, k: Key)
    requires KeyOk(issued, k) && Exists(eval, KeyPath(issued, k)) && eval(KeyPath(issued, k)).Set?
    ensures Writable(eval, issued, k, FullAttrs)
  {
  }

  lemma LeafComplete(eval: Evaluator, rows: map<Key, Row>, issued: map<nat, Issue>, k: Key)
    requires k in rows && !rows[k].value.FullAttrs?
    ensures Complete(eval, rows, issued, k)
  {
  }

  lemma Fresh(eval: Evaluator, rows: map<Key, Row>, issued: map<nat, Issue>, largest: nat, pending: Option<Key>)
    requires TableOk(eval, rows, issued, largest, pending)
    ensures largest + 1 !in issued && 0 !in issued
    ensures forall k :: KeyOk(issued, k) ==> k.parent <= largest
  {
    hide RowOk, Complete;
  }

  lemma FreshBelow(eval: Evaluator, rows: map<Key, Row>, issued: map<nat, Issue>, largest: nat)
    requires TableOk(eval, rows, issued, largest, None)
    ensures Below(rows, largest + 1) == {}
  {
    hide Complete, Exists, Represents;
    forall l | l in rows
      ensures l.parent != largest + 1
    {
      assert RowOk(eval, issued, l, rows[l]);
    }
  }

  /** One placeholder for an attribute of a set whose row is being written. */
  lemma AddPlaceholder(eval: Evaluator, rows: map<Key, Row>, issued: map<nat, Issue>, largest: nat, k: Key, id: nat,
                       x: Symbol)
    requires TableOk(eval, rows, issued, largest, Some(k)) && KeyOk(issued, k) && Exists(eval, KeyPath(issued, k))
    requires id in issued && issued[id].path == KeyPath(issued, k) && k.parent != id
    requires eval(KeyPath(issued, k)).Set? && x in eval(KeyPath(issued, k)).names
    ensures var rows' := rows[Key(id, x) := Row(largest + 1, Placeholder)];
            var issued' := issued[largest + 1 := Issue(KeyPath(issued, k) + [x], false)];
            && TableOk(eval, rows', issued', largest + 1, Some(k))
            && KeyOk(issued', k) && KeyPath(issued', k) == KeyPath(issued, k)
            && Below(rows', id) == Below(rows, id) + {x}
  {
    hide TableOk, RowOk, Complete, Exists;
    ExistsChild(eval, KeyPath(issued, k), x);
    InsertOk(eval, rows, issued, largest, Some(k), Key(id, x), Placeholder);
    BelowInsert(rows, Key(id, x), Row(largest + 1, Placeholder), id);
    Fresh(eval, rows, issued, largest, Some(k));
  }

  lemma CloseSet(eval: Evaluator, rows: map<Key, Row>, issued: map<nat, Issue>, largest: nat, k: Key)
    requires TableOk(eval, rows, issued, largest, Some(k)) && k in rows && Complete(eval, rows, issued, k)
    ensures TableOk(eval, rows, issued, largest, None)
  {
    hide Complete, RowOk;
  }

  /** A cursor stands at a path that exists, its parent knows its row, and what it knows is true. */
  ghost predicate CursorOk(eval: Evaluator, issued: map<nat, Issue>, cursors: seq<Cursor>, i: nat)
    requires i < |cursors|
  {
    var c := cursors[i];
    && Exists(eval, CursorPath(cursors, i))
    && (c.parent.Some? ==> c.parent.value.0 < i && cursors[c.parent.value.0].cached.Some?)
    && (c.cached.Some? ==> CachedOk(eval, issued, CursorPath(cursors, i), c.cached.value))
  }

  ghost predicate CachedOk(eval: Evaluator, issued: map<nat, Issue>, path: Path, c: Cached) {
    && c.id in issued && issued[c.id].path == path
    && Knows(c.known, eval(path))
    && (c.known.KPlaceholder? ==> !issued[c.id].full)
  }

  lemma RememberOk(eval: Evaluator, issued: map<nat, Issue>, cursors: seq<Cursor>, c: nat, cached: Cached)
    requires c < |cursors| && CachedOk(eval, issued, CursorPath(cursors, c), cached)
    requires forall i :: 0 <= i < |cursors| ==> CursorOk(eval, issued, cursors, i)
    ensures var after := cursors[c := cursors[c].(cached := Some(cached))];
            && (forall i :: 0 <= i < |cursors| ==> CursorOk(eval, issued, after, i))
            && (forall i :: 0 <= i < |cursors| ==> CursorPath(after, i) == CursorPath(cursors, i))
  {
    hide Exists, CachedOk;
    var after := cursors[c := cursors[c].(cached := Some(cached))];
    forall i | 0 <= i < |cursors|
      ensures CursorPath(after, i) == CursorPath(cursors, i)
    {
      PathStable(cursors, after, i);
    }
    hide CursorPath;
    forall i | 0 <= i < |cursors|
      ensures CursorOk(eval, issued, after, i)
    {
      assert CursorOk(eval, issued, cursors, i);
    }
  }

  lemma ChildOk(eval: Evaluator, issued: map<nat, Issue>, cursors: seq<Cursor>, c: nat, name: Symbol,
                cached: Option<Cached>)
    requires c < |cursors| && cursors[c].cached.Some?
    requires Exists(eval, CursorPath(cursors, c) + [name])
    requires forall i :: 0 <= i < |cursors| ==> CursorOk(eval, issued, cursors, i)
    requires cached.Some? ==> CachedOk(eval, issued, CursorPath(cursors, c) + [name], cached.value)
    ensures var grown := cursors + [Cursor(Some((c, name)), cached)];
            && CursorPath(grown, |cursors|) == CursorPath(cursors, c) + [name]
            && CursorOk(eval, issued, grown, |cursors|)
  {
    hide Exists, CachedOk;
    var grown := cursors + [Cursor(Some((c, name)), cached)];
    PathStable(cursors, grown, c);
  }

  /** What the questions are answered without a cache. */
  predicate PlainHas(eval: Evaluator, path: Path, name: Symbol): (r: bool)
    ensures r <==> exists names :: eval(path) == Set(names) && name in names
  {
    eval(path).Set? && name in eval(path).names
  }

  function PlainBool(eval: Evaluator, path: Path): (r: Option<bool>)
    ensures forall b :: r == Some(b) <==> eval(path) == Boolean(b)
  {
    if eval(path).Boolean? then Some(eval(path).b) else None
  }

  function PlainString(eval: Evaluator, path: Path): (r: Option<string>)
    ensures forall t :: r == Some(t) <==> eval(path) == Text(t) || (eval(path).PathNode? && eval(path).shown == t)
  {
    match eval(path)
    case Text(t) => Some(t)
    case PathNode(_, shown) => Some(shown)
    case _ => None
  }

  function PlainAttrs(eval: Evaluator, path: Path): (r: Option<set<Symbol>>)
    ensures forall names :: r == Some(names) <==> eval(path) == Set(names)
  {
    if eval(path).Set? then Some(eval(path).names) else None
  }

  // ---- the operations as functions of the table and the cursors ----

  datatype Store = Store(rows: map<Key, Row>, largest: nat, cursors: seq<Cursor>)

  function KeyOf(cursors: seq<Cursor>, c: nat): Key
    requires c < |cursors|
  {
    match cursors[c].parent
    case None => Key(0, EPSILON)
    case Some((p, name)) =>
      if p < |cursors| && cursors[p].cached.Some? then Key(cursors[p].cached.value.id, name) else Key(0, EPSILON)
  }

  ghost function Query(rows: map<Key, Row>, k: Key): Option<Cached> {
    if k !in rows then None else Some(Cached(rows[k].id, ReadRow(rows, rows[k])))
  }

  ghost function ReadRow(rows: map<Key, Row>, row: Row): Known {
    match row.value
    case Placeholder => KPlaceholder
    case FullAttrs => KAttrs(Below(rows, row.id))
    case Missing => KMissing
    case RBool(b) => KBool(b)
    case RString(t) => KString(t)
    case RInt(n) => KInt(n)
    case Misc => KMisc
  }

  function SetCached(cursors: seq<Cursor>, c: nat, cached: Cached): seq<Cursor>
    requires c < |cursors|
  {
    cursors[c := cursors[c].(cached := Some(cached))]
  }

  ghost function LookupStep(s: Store, c: nat): (r: Store)
    requires c < |s.cursors|
    ensures |r.cursors| == |s.cursors| && r.rows == s.rows && r.largest == s.largest
  {
    var q := Query(s.rows, KeyOf(s.cursors, c));
    if s.cursors[c].cached.None? && q.Some? then s.(cursors := SetCached(s.cursors, c, q.value)) else s
  }

  /** A cursor that knows nothing more than that its path exists. */
  predicate Open(cursors: seq<Cursor>, c: nat)
    requires c < |cursors|
  {
    cursors[c].cached.None? || cursors[c].cached.value.known.KPlaceholder?
  }

  /** What is written for a leaf, and what the cursor remembers. */
  function LeafRow(node: Node): RowValue
    requires !node.Set?
  {
    match node
    case Boolean(b) => RBool(b)
    case Text(t) => RString(t)
    case PathNode(abs, _) => RString(abs)
    case Integer(n) => RInt(Narrow(n))
    case Other => Misc
  }

  function LeafKnown(node: Node): Known
    requires !node.Set?
  {
    match node
    case Boolean(b) => KBool(b)
    case Text(t) => KString(t)
    case PathNode(abs, _) => KString(abs)
    case Integer(n) => KInt(n)
    case Other => KMisc
  }

  /** A new row under a key. */
  function Insert(s: Store, k: Key, value: RowValue): Store {
    s.(rows := s.rows[k := Row(s.largest + 1, value)], largest := s.largest + 1)
  }

  /** A new row for a cursor, which the cursor remembers. */
  function InsertFor(s: Store, c: nat, value: RowValue, known: Known): Store
    requires c < |s.cursors|
  {
    Insert(s, KeyOf(s.cursors, c), value).(cursors := SetCached(s.cursors, c, Cached(s.largest + 1, known)))
  }

  lemma InsertedFor(s: Store, c: nat, value: RowValue, known: Known)
    requires c < |s.cursors|
    ensures InsertFor(s, c, value, known)
            == Insert(s, KeyOf(s.cursors, c), value).(cursors := SetCached(s.cursors, c, Cached(s.largest + 1, known)))
  {
  }

  function ForceStep(eval: Evaluator, s: Store, c: nat): (r: Store)
    requires c < |s.cursors|
    ensures |r.cursors| == |s.cursors|
  {
    var node := eval(CursorPath(s.cursors, c));
    if Open(s.cursors, c) && !node.Set? then InsertFor(s, c, LeafRow(node), LeafKnown(node)) else s
  }

  function OwnRowStep(s: Store, c: nat): (r: Store)
    requires c < |s.cursors|
    ensures |r.cursors| == |s.cursors| && r.cursors[c].cached.Some?
  {
    if s.cursors[c].cached.None? then InsertFor(s, c, Placeholder, KPlaceholder) else s
  }

  function AddChild(s: Store, c: nat, name: Symbol, cached: Option<Cached>): (Store, Option<nat>) {
    (s.(cursors := s.cursors + [Cursor(Some((c, name)), cached)]), Some(|s.cursors|))
  }

  function UncachedStep(eval: Evaluator, s: Store, c: nat, name: Symbol): (Store, Option<nat>)
    requires c < |s.cursors|
  {
    var forced := ForceStep(eval, s, c);
    var node := eval(CursorPath(s.cursors, c));
    if !node.Set? then (forced, None)
    else
      var own := OwnRowStep(forced, c);
      var k := Key(own.cursors[c].cached.value.id, name);
      if name !in node.names then (Insert(own, k, Missing), None)
      else AddChild(Insert(own, k, Placeholder), c, name, Some(Cached(own.largest + 1, KPlaceholder)))
  }

  ghost function AttrStep(eval: Evaluator, s: Store, c: nat, name: Symbol): (Store, Option<nat>)
    requires c < |s.cursors|
  {
    var s1 := LookupStep(s, c);
    match s1.cursors[c].cached
    case None => UncachedStep(eval, s1, c, name)
    case Some(Cached(id, KAttrs(names))) => if name in names then AddChild(s1, c, name, None) else (s1, None)
    case Some(Cached(id, KPlaceholder)) =>
      (match Query(s1.rows, Key(id, name))
       case None => UncachedStep(eval, s1, c, name)
       case Some(Cached(_, KMissing)) => (s1, None)
       case attr => AddChild(s1, c, name, attr))
    case _ => (s1, None)
  }

  ghost function IntStep(eval: Evaluator, s: Store, c: nat): (Store, Option<int>)
    requires c < |s.cursors|
  {
    var s1 := LookupStep(s, c);
    if !Open(s1.cursors, c) then
      (s1, match s1.cursors[c].cached.value.known case KInt(n) => Some(n) case _ => None)
    else
      (ForceStep(eval, s1, c), match eval(CursorPath(s1.cursors, c)) case Integer(n) => Some(n) case _ => None)
  }

  ghost function BoolStep(eval: Evaluator, s: Store, c: nat): (Store, Option<bool>)
    requires c < |s.cursors|
  {
    var s1 := LookupStep(s, c);
    if !Open(s1.cursors, c) then
      (s1, match s1.cursors[c].cached.value.known case KBool(b) => Some(b) case _ => None)
    else
      (ForceStep(eval, s1, c), PlainBool(eval, CursorPath(s1.cursors, c)))
  }

  ghost function StringStep(eval: Evaluator, s: Store, c: nat): (Store, Option<string>)
    requires c < |s.cursors|
  {
    var s1 := LookupStep(s, c);
    if !Open(s1.cursors, c) then
      (s1, match s1.cursors[c].cached.value.known case KString(t) => Some(t) case _ => None)
    else
      (ForceStep(eval, s1, c), PlainString(eval, CursorPath(s1.cursors, c)))
  }

  /** A leaf that has been evaluated is not evaluated again: its row and its cursor say what it is, and
    questions are answered from them whatever another evaluation would give. */
  lemma LeafIsRemembered(eval: Evaluator, other: Evaluator, s: Store, c: nat)
    requires c < |s.cursors| && Open(s.cursors, c) && !eval(CursorPath(s.cursors, c)).Set?
    ensures var node, after, k := eval(CursorPath(s.cursors, c)), ForceStep(eval, s, c), KeyOf(s.cursors, c);
            && k in after.rows && after.rows[k].value != Placeholder && Represents(after.rows[k].value, node)
            && !Open(after.cursors, c) && Knows(after.cursors[c].cached.value.known, node)
            && IntStep(other, after, c) == (after, if node.Integer? then Some(node.n) else None)
            && BoolStep(other, after, c) == (after, if node.Boolean? then Some(node.b) else None)
            && (node.Text? ==> StringStep(other, after, c) == (after, Some(node.s)))
            && (node.PathNode? ==> StringStep(other, after, c) == (after, Some(node.abs)))
  {
  }

  lemma SetIsNotStored(eval: Evaluator, s: Store, c: nat)
    requires c < |s.cursors| && eval(CursorPath(s.cursors, c)).Set?
    ensures ForceStep(eval, s, c) == s
  {
  }

  /** `after` has the rows of `before` and placeholders below `id`. */
  ghost predicate OnlyBelow(before: map<Key, Row>, after: map<Key, Row>, id: nat) {
    && (forall l :: l in before ==> l in after && after[l] == before[l])
    && (forall l :: l in after && l !in before ==> l.parent == id && after[l].value == Placeholder)
  }

  /** `after` lists all attributes of the set at `k` in a row of its own and a placeholder each; the other
    rows are those of `before`. */
  ghost predicate Listed(before: map<Key, Row>, after: map<Key, Row>, k: Key, id: nat, names: set<Symbol>) {
    k in after && Below(after, id) == names && OnlyBelow(before[k := Row(id, FullAttrs)], after, id)
  }

  lemma OneMoreBelow(before: map<Key, Row>, after: map<Key, Row>, id: nat, x: Symbol, row: nat)
    requires OnlyBelow(before, after, id) && x !in Below(after, id)
    ensures OnlyBelow(before, after[Key(id, x) := Row(row, Placeholder)], id)
  {
    assert Key(id, x) !in after;
  }

  /** Following a path from a cursor, attribute by attribute. */
  ghost function Walk(eval: Evaluator, s: Store, c: nat, path: Path): (Store, Option<nat>)
    requires c < |s.cursors|
    decreases |path|
  {
    if path == [] then (s, Some(c))
    else
      var (s1, at) := Walk(eval, s, c, path[..|path| - 1]);
      if at.Some? && at.value < |s1.cursors| then AttrStep(eval, s1, at.value, path[|path| - 1]) else (s1, None)
  }

  lemma {:induction false} ExistsPrefix(eval: Evaluator, path: Path, n: nat)
    requires n <= |path| && Exists(eval, path)
    ensures Exists(eval, path[..n])
    decreases |path|
  {
    if n < |path| {
      ExistsPrefix(eval, path[..|path| - 1], n);
      assert path[..|path| - 1][..n] == path[..n];
    } else {
      assert path[..n] == path;
    }
  }

  class Cache {
    const eval: Evaluator
    var rows: map<Key, Row>
    var largestId: nat
    var cursors: seq<Cursor>
    /** Every row id ever issued, also those of rows that have been replaced. */
    ghost var issued: map<nat, Issue>

    ghost predicate Valid()
      reads this
    {
      && TableOk(eval, rows, issued, largestId, None)
      && forall i :: 0 <= i < |cursors| ==> CursorOk(eval, issued, cursors, i)
    }

    ghost predicate HasCursor(c: nat)
      reads this
    {
      c < |cursors|
    }

    ghost function State(): Store
      reads this
    {
      Store(rows, largestId, cursors)
    }

    ghost function PathOf(c: nat): Path
      reads this
    {
      CursorPath(cursors, c)
    }

    /** Existing cursors stay where they are, and row ids keep their meaning. */
    twostate predicate Grew()
      reads this
    {
      && |old(cursors)| <= |cursors|
      && (forall j :: 0 <= j < |old(cursors)| ==> PathOf(j) == old(PathOf(j)))
      && (forall id :: id in old(issued) ==> id in issued && issued[id] == old(issued)[id])
    }

    /** An empty cache. */
    constructor (eval: Evaluator)
      ensures Valid() && this.eval == eval && State() == Store(map[], 0, [])
    {
      this.eval := eval;
      rows, largestId, cursors, issued := map[], 0, [], map[];
    }

    /** A later session on the same table: the rows are there, the cursors are gone. */
    constructor Reopen(c: Cache)
      requires c.Valid()
      ensures Valid() && eval == c.eval && State() == Store(c.rows, c.largestId, [])
    {
      eval := c.eval;
      rows, largestId, cursors, issued := c.rows, c.largestId, [], c.issued;
    }

    method GetRoot() returns (c: nat)
      requires Valid()
      modifies this
      ensures Valid() && Grew() && HasCursor(c) && PathOf(c) == [] && c == |old(cursors)|
      ensures State() == old(State()).(cursors := old(cursors) + [Cursor(None, None)])
    {
      c := |cursors|;
      cursors := cursors + [Cursor(None, None)];
      KeepCursors(old(cursors), old(issued));
    }

    /** Cursors whose place and knowledge did not change are still right. */
    ghost method KeepCursors(before: seq<Cursor>, was: map<nat, Issue>)
      requires |before| <= |cursors|
      requires forall j :: 0 <= j < |before| ==> cursors[j] == before[j]
      requires forall j :: 0 <= j < |before| ==> CursorOk(eval, was, before, j)
      requires forall id :: id in was ==> id in issued && issued[id] == was[id]
      ensures forall j :: 0 <= j < |before| ==> CursorOk(eval, issued, cursors, j)
      ensures forall j :: 0 <= j < |before| ==> CursorPath(cursors, j) == CursorPath(before, j)
    {
      forall j | 0 <= j < |before|
        ensures CursorPath(cursors, j) == CursorPath(before, j)
      {
        PathStable(before, cursors, j);
      }
      forall j | 0 <= j < |before|
        ensures CursorOk(eval, issued, cursors, j)
      {
        assert CursorOk(eval, was, before, j);
      }
    }

    /** The parent of a cursor always knows its own row, so no key is ever built from nothing. */
    method GetKey(c: nat) returns (k: Key)
      requires Valid() && HasCursor(c)
      ensures KeyOk(issued, k) && KeyPath(issued, k) == PathOf(c) && k == KeyOf(cursors, c)
    {
      assert CursorOk(eval, issued, cursors, c);
      if cursors[c].parent.None? {
        return Key(0, EPSILON);
      }
      var (p, name) := cursors[c].parent.value;
      assert CursorOk(eval, issued, cursors, p);
      assert cursors[p].cached.Some?;
      return Key(cursors[p].cached.value.id, name);
    }

    method QueryAttr(k: Key) returns (r: Option<Cached>)
      requires Valid() && KeyOk(issued, k)
      ensures r == Query(rows, k)
      ensures r.Some? && !r.value.known.KMissing? ==>
                Exists(eval, KeyPath(issued, k)) && CachedOk(eval, issued, KeyPath(issued, k), r.value)
      ensures r.Some? && r.value.known.KMissing? ==> !Exists(eval, KeyPath(issued, k))
    {
      if k !in rows {
        return None;
      }
      var row := rows[k];
      assert RowOk(eval, issued, k, row) && Complete(eval, rows, issued, k);
      match row.value
      case Placeholder => r := Some(Cached(row.id, KPlaceholder));
      case FullAttrs => r := Some(Cached(row.id, KAttrs(set l | l in rows && l.parent == row.id :: l.name)));
      case Missing => r := Some(Cached(row.id, KMissing));
      case RBool(b) => r := Some(Cached(row.id, KBool(b)));
      case RString(t) => r := Some(Cached(row.id, KString(t)));
      case RInt(n) => r := Some(Cached(row.id, KInt(n)));
      case Misc => r := Some(Cached(row.id, KMisc));
    }

    /** `insert or replace`: the row of the key is deleted and a row with a new id is inserted. */
    method Write(k: Key, value: RowValue) returns (id: nat)
      requires Valid() && Writable(eval, issued, k, value) && !value.FullAttrs?
      modifies this
      ensures Valid() && Grew() && cursors == old(cursors)
      ensures id == old(largestId) + 1 && State() == Insert(old(State()), k, value)
      ensures id in issued && issued[id] == Issue(KeyPath(old(issued), k), false)
    {
      hide TableOk, CursorOk, Writable;
      Fresh(eval, rows, issued, largestId, None);
      id := largestId + 1;
      InsertOk(eval, rows, issued, largestId, None, k, value);
      rows, issued := rows[k := Row(id, value)], issued[id := Issue(KeyPath(issued, k), false)];
      largestId := id;
      KeepCursors(old(cursors), old(issued));
    }

    /** Writes a row that lists all attributes, and a placeholder for each of them. */
    method SetAttrs(k: Key, names: set<Symbol>) returns (id: nat)
      requires Valid() && KeyOk(issued, k) && Exists(eval, KeyPath(issued, k))
      requires eval(KeyPath(issued, k)) == Set(names)
      modifies this
      ensures Valid() && Grew() && cursors == old(cursors)
      ensures id in issued && issued[id].path == KeyPath(old(issued), k)
      ensures k in rows && rows[k] == Row(id, FullAttrs) && Listed(old(rows), rows, k, id, names)
    {
      hide TableOk, RowOk, CursorOk, Exists, Below, Writable;
      ghost var path := KeyPath(issued, k);
      id := largestId + 1;
      Fresh(eval, rows, issued, largestId, None);
      FreshBelow(eval, rows, issued, largestId);
      SetWritable(eval, issued, k);
      InsertOk(eval, rows, issued, largestId, None, k, FullAttrs);
      BelowInsert(rows, k, Row(id, FullAttrs), id);
      IssueKeepsPaths(issued, id, Issue(path, true), k);
      hide KeyPath, KeyOk;
      rows, issued := rows[k := Row(id, FullAttrs)], issued[id := Issue(path, true)];
      largestId := id;
      AddPlaceholders(k, id, names);
      KeepCursors(old(cursors), old(issued));
    }

    /** The placeholders below a new row that lists all attributes. */
    method AddPlaceholders(k: Key, id: nat, names: set<Symbol>)
      requires TableOk(eval, rows, issued, largestId, Some(k)) && KeyOk(issued, k) && Exists(eval, KeyPath(issued, k))
      requires k in rows && rows[k] == Row(id, FullAttrs) && id in issued && issued[id].path == KeyPath(issued, k)
      requires eval(KeyPath(issued, k)) == Set(names) && k.parent != id && Below(rows, id) == {}
      modifies this
      ensures TableOk(eval, rows, issued, largestId, None) && cursors == old(cursors)
      ensures k in rows && rows[k] == Row(id, FullAttrs) && Below(rows, id) == names
      ensures OnlyBelow(old(rows), rows, id)
      ensures forall i :: i in old(issued) ==> i in issued && issued[i] == old(issued)[i]
    {
      hide TableOk, RowOk, Exists, Below;
      ghost var path := KeyPath(issued, k);
      var todo := names;
      while todo != {}
        invariant todo <= names && TableOk(eval, rows, issued, largestId, Some(k))
        invariant k in rows && rows[k] == Row(id, FullAttrs) && id in issued && issued[id].path == path
        invariant KeyOk(issued, k) && KeyPath(issued, k) == path
        invariant Below(rows, id) == names - todo && OnlyBelow(old(rows), rows, id)
        invariant forall i :: i in old(issued) ==> i in issued && issued[i] == old(issued)[i]
        invariant cursors == old(cursors)
      {
        var x :| x in todo;
        Fresh(eval, rows, issued, largestId, Some(k));
        AddPlaceholder(eval, rows, issued, largestId, k, id, x);
        OneMoreBelow(old(rows), rows, id, x, largestId + 1);
        rows, issued := rows[Key(id, x) := Row(largestId + 1, Placeholder)],
                        issued[largestId + 1 := Issue(path + [x], false)];
        largestId := largestId + 1;
        todo := todo - {x};
      }
      CloseSet(eval, rows, issued, largestId, k);
    }

    method Remember(c: nat, cached: Cached)
      requires Valid() && HasCursor(c) && CachedOk(eval, issued, PathOf(c), cached)
      modifies this
      ensures Valid() && Grew() && rows == old(rows) && issued == old(issued) && |cursors| == |old(cursors)|
      ensures State() == old(State()).(cursors := SetCached(old(cursors), c, cached))
    {
      RememberOk(eval, issued, cursors, c, cached);
      hide CursorOk, TableOk, CachedOk, CursorPath;
      cursors := cursors[c := cursors[c].(cached := Some(cached))];
    }

    /** Reads the row of a cursor that does not know it yet. */
    method Lookup(c: nat)
      requires Valid() && HasCursor(c)
      modifies this
      ensures Valid() && Grew() && issued == old(issued) && State() == LookupStep(old(State()), c)
    {
      if cursors[c].cached.None? {
        var k := GetKey(c);
        var r := QueryAttr(k);
        assert CursorOk(eval, issued, cursors, c);
        if r.Some? {
          Remember(c, r.value);
        }
      }
    }

    /** Evaluates, and stores the result if it is a leaf that is not known yet. */
    method ForceValue(c: nat) returns (node: Node)
      requires Valid() && HasCursor(c)
      modifies this
      ensures Valid() && Grew() && node == eval(PathOf(c)) && State() == ForceStep(eval, old(State()), c)
      ensures node.Set? ==> issued == old(issued)
    {
      hide TableOk, CursorOk, InsertFor;
      node := EvalAt(c);
      if (cursors[c].cached.None? || cursors[c].cached.value.known.KPlaceholder?) && !node.Set? {
        StoreLeaf(c, node);
      }
    }

    method StoreLeaf(c: nat, node: Node)
      requires Valid() && HasCursor(c) && node == eval(PathOf(c)) && !node.Set?
      modifies this
      ensures Valid() && Grew() && State() == InsertFor(old(State()), c, LeafRow(node), LeafKnown(node))
    {
      hide TableOk, CursorOk, Exists, CursorPath, InsertFor;
      match node {
        case Text(t) => WriteRow(c, RString(t), KString(t));
        case PathNode(abs, _) => WriteRow(c, RString(abs), KString(abs));
        case Boolean(b) => WriteRow(c, RBool(b), KBool(b));
        case Integer(n) => WriteRow(c, RInt(Narrow(n)), KInt(n));
        case Other => WriteRow(c, Misc, KMisc);
      }
    }

    /** A row for a cursor, which the cursor remembers. */
    method WriteRow(c: nat, value: RowValue, known: Known)
      requires Valid() && HasCursor(c) && Represents(value, eval(PathOf(c))) && Knows(known, eval(PathOf(c)))
      requires !value.FullAttrs? && !value.Missing?
      modifies this
      ensures Valid() && Grew() && State() == InsertFor(old(State()), c, value, known)
    {
      CursorExists(c);
      var k := GetKey(c);
      assert Writable(eval, issued, k, value);
      hide *;
      var id := Write(k, value);
      WrittenIsKnown(c, id, known);
      Remember(c, Cached(id, known));
      InsertedFor(old(State()), c, value, known);
    }

    ghost method WrittenIsKnown(c: nat, id: nat, known: Known)
      requires HasCursor(c) && Knows(known, eval(PathOf(c))) && id in issued && issued[id] == Issue(PathOf(c), false)
      ensures CachedOk(eval, issued, PathOf(c), Cached(id, known))
    {
    }

    /** Plain evaluation at the path of a cursor. */
    method EvalAt(c: nat) returns (node: Node)
      requires HasCursor(c)
      ensures node == eval(PathOf(c))
    {
      node := eval(CursorPath(cursors, c));
    }

    method NewChild(c: nat, name: Symbol, cached: Option<Cached>) returns (child: nat)
      requires Valid() && HasCursor(c) && cursors[c].cached.Some? && Exists(eval, PathOf(c) + [name])
      requires cached.Some? ==> CachedOk(eval, issued, PathOf(c) + [name], cached.value)
      modifies this
      ensures Valid() && Grew() && HasCursor(child) && PathOf(child) == PathOf(c) + [name]
      ensures (State(), Some(child)) == AddChild(old(State()), c, name, cached) && issued == old(issued)
    {
      child := |cursors|;
      ChildOk(eval, issued, cursors, c, name, cached);
      hide CursorOk, TableOk, CachedOk, Exists, CursorPath;
      cursors := cursors + [Cursor(Some((c, name)), cached)];
      KeepCursors(old(cursors), old(issued));
    }

    /** Says whether the attribute exists as plain evaluation does, whatever is in the table and
      whatever other cursors have done. */
    method MaybeGetAttr(c: nat, name: Symbol) returns (r: Option<nat>)
      requires Valid() && HasCursor(c)
      modifies this
      ensures Valid() && Grew() && (State(), r) == AttrStep(eval, old(State()), c, name)
      ensures r.Some? <==> PlainHas(eval, PathOf(c), name)
      ensures r.Some? ==> HasCursor(r.value) && PathOf(r.value) == PathOf(c) + [name]
    {
      hide TableOk, UncachedStep, LookupStep, Exists, CursorPath;
      Lookup(c);
      assert CursorOk(eval, issued, cursors, c);
      ExistsChild(eval, PathOf(c), name);
      hide CursorOk;
      if cursors[c].cached.Some? {
        var cached := cursors[c].cached.value;
        match cached.known {
          case KAttrs(names) =>
            if name in names {
              var child := NewChild(c, name, None);
              return Some(child);
            }
            return None;
          case KPlaceholder =>
            var attr := QueryAttr(Key(cached.id, name));
            if attr.Some? {
              if attr.value.known.KMissing? {
                return None;
              }
              var child := NewChild(c, name, attr);
              return Some(child);
            }
          case _ => return None;
        }
      }
      r := MaybeGetUncached(c, name);
    }

    /** The row id of a cursor at a set; a placeholder is written if it has none. */
    method OwnRow(c: nat) returns (id: nat)
      requires Valid() && HasCursor(c)
      requires cursors[c].cached.Some? ==> cursors[c].cached.value.known.KPlaceholder?
      modifies this
      ensures Valid() && Grew() && State() == OwnRowStep(old(State()), c) && id == cursors[c].cached.value.id
      ensures id in issued && issued[id] == Issue(PathOf(c), false)
    {
      if cursors[c].cached.None? {
        WriteRow(c, Placeholder, KPlaceholder);
      }
      assert CursorOk(eval, issued, cursors, c);
      id := cursors[c].cached.value.id;
    }

    /** The part of `maybeGetAttr` after the table had no answer. */
    method MaybeGetUncached(c: nat, name: Symbol) returns (r: Option<nat>)
      requires Valid() && HasCursor(c)
      requires cursors[c].cached.Some? ==> cursors[c].cached.value.known.KPlaceholder?
      modifies this
      ensures Valid() && Grew() && (State(), r) == UncachedStep(eval, old(State()), c, name)
      ensures r.Some? <==> PlainHas(eval, PathOf(c), name)
      ensures r.Some? ==> HasCursor(r.value) && PathOf(r.value) == PathOf(c) + [name]
    {
      hide TableOk, Exists, CursorPath;
      var node := ForceValue(c);
      if !node.Set? {
        return None;
      }
      var id := OwnRow(c);
      assert CursorOk(eval, issued, cursors, c);
      ExistsChild(eval, PathOf(c), name);
      if name !in node.names {
        var _ := Write(Key(id, name), Missing);
        return None;
      }
      var row := Write(Key(id, name), Placeholder);
      var child := NewChild(c, name, Some(Cached(row, KPlaceholder)));
      return Some(child);
    }

    /** `None` is the type error that plain evaluation would give. */
    method GetBool(c: nat) returns (r: Option<bool>)
      requires Valid() && HasCursor(c)
      modifies this
      ensures Valid() && Grew() && (State(), r) == BoolStep(eval, old(State()), c)
      ensures r == PlainBool(eval, PathOf(c))
    {
      hide TableOk, Exists, CursorPath, KeyPath, KeyOf, InsertFor;
      Lookup(c);
      assert CursorOk(eval, issued, cursors, c);
      if cursors[c].cached.Some? && !cursors[c].cached.value.known.KPlaceholder? {
        match cursors[c].cached.value.known
        case KBool(b) => return Some(b);
        case _ => return None;
      }
      var node := ForceValue(c);
      return if node.Boolean? then Some(node.b) else None;
    }

    method GetString(c: nat) returns (r: Option<string>)
      requires Valid() && HasCursor(c)
      modifies this
      ensures Valid() && Grew() && (State(), r) == StringStep(eval, old(State()), c)
      ensures r == PlainString(eval, PathOf(c)) || (eval(PathOf(c)).PathNode? && r == Some(eval(PathOf(c)).abs))
    {
      hide TableOk, Exists, CursorPath, KeyPath, KeyOf, InsertFor;
      Lookup(c);
      assert CursorOk(eval, issued, cursors, c);
      if cursors[c].cached.Some? && !cursors[c].cached.value.known.KPlaceholder? {
        match cursors[c].cached.value.known
        case KString(t) => return Some(t);
        case _ => return None;
      }
      var node := ForceValue(c);
      match node
      case Text(t) => return Some(t);
      case PathNode(_, shown) => return Some(shown);
      case _ => return None;
    }

    /** An integer comes back as it is, or as it was written; these agree exactly when it fits 32 bits. */
    method GetInt(c: nat) returns (r: Option<int>)
      requires Valid() && HasCursor(c)
      modifies this
      ensures Valid() && Grew() && (State(), r) == IntStep(eval, old(State()), c)
      ensures r.Some? <==> eval(PathOf(c)).Integer?
      ensures r.Some? ==> r.value == eval(PathOf(c)).n || r.value == Narrow(eval(PathOf(c)).n)
      ensures r.Some? && -0x8000_0000 <= eval(PathOf(c)).n < 0x8000_0000 ==> r.value == eval(PathOf(c)).n
    {
      hide TableOk, Exists, CursorPath, KeyPath, KeyOf, InsertFor;
      Lookup(c);
      assert CursorOk(eval, issued, cursors, c);
      if cursors[c].cached.Some? && !cursors[c].cached.value.known.KPlaceholder? {
        match cursors[c].cached.value.known
        case KInt(n) =>
          NarrowIff(eval(PathOf(c)).n);
          return Some(n);
        case _ => return None;
      }
      var node := ForceValue(c);
      return if node.Integer? then Some(node.n) else None;
    }

    method GetAttrs(c: nat) returns (r: Option<set<Symbol>>)
      requires Valid() && HasCursor(c)
      modifies this
      ensures Valid() && Grew() && r == PlainAttrs(eval, PathOf(c))
      ensures r.Some? ==> cursors[c].cached.Some? && cursors[c].cached.value.known == KAttrs(r.value)
      ensures var s := LookupStep(old(State()), c);
              if !Open(s.cursors, c) then State() == s
              else if r.None? then State() == ForceStep(eval, s, c)
              else Listed(s.rows, rows, KeyOf(s.cursors, c), cursors[c].cached.value.id, r.value)
    {
      hide TableOk, Exists, CursorPath, ForceStep, LookupStep, KeyPath, KeyOf;
      Lookup(c);
      assert CursorOk(eval, issued, cursors, c);
      if cursors[c].cached.Some? && !cursors[c].cached.value.known.KPlaceholder? {
        match cursors[c].cached.value.known
        case KAttrs(names) => return Some(names);
        case _ => return None;
      }
      ghost var before := State();
      var node := ForceValue(c);
      if !node.Set? {
        return None;
      }
      SetIsNotStored(eval, before, c);
      var k := GetKey(c);
      assert CursorOk(eval, issued, cursors, c);
      hide CursorOk;
      var id := SetAttrs(k, node.names);
      hide Listed;
      Remember(c, Cached(id, KAttrs(node.names)));
      return Some(node.names);
    }

    /** Finds a path exactly when it exists. When an attribute is missing, the attributes of the set it was
      looked for in are read, for suggestions. */
    method FindAlongAttrPath(c: nat, path: Path) returns (r: Option<nat>)
      requires Valid() && HasCursor(c)
      modifies this
      ensures Valid() && Grew() && HasCursor(c)
      ensures r.Some? <==> Exists(eval, PathOf(c) + path)
      ensures r.Some? ==> HasCursor(r.value) && PathOf(r.value) == PathOf(c) + path
      ensures r.Some? ==> (State(), r) == Walk(eval, old(State()), c, path)
    {
      hide TableOk, Exists, CursorPath, AttrStep, CursorOk;
      ghost var from := PathOf(c);
      var res := c;
      var i := 0;
      assert from + path[..0] == from;
      while i < |path|
        invariant i <= |path| && Valid() && Grew() && HasCursor(c) && HasCursor(res)
        invariant PathOf(res) == from + path[..i]
        invariant (State(), Some(res)) == Walk(eval, old(State()), c, path[..i])
      {
        assert path[..i + 1][..i] == path[..i];
        assert from + path[..i] + [path[i]] == (from + path)[..|from| + i + 1];
        CursorExists(res);
        ExistsChild(eval, from + path[..i], path[i]);
        var child := MaybeGetAttr(res, path[i]);
        if child.None? {
          if Exists(eval, from + path) {
            ExistsPrefix(eval, from + path, |from| + i + 1);
          }
          var _ := GetAttrs(res);
          return None;
        }
        res := child.value;
        i := i + 1;
        assert from + path[..i] == (from + path)[..|from| + i];
      }
      assert path[..|path|] == path;
      CursorExists(res);
      return Some(res);
    }

    ghost method CursorExists(c: nat)
      requires Valid() && HasCursor(c)
      ensures Exists(eval, PathOf(c))
    {
      assert CursorOk(eval, issued, cursors, c);
    }
  }

  // ---- a second session on what a first one wrote ----

  /** The key of the last attribute of a path that was walked on an empty table: row ids are depths. */
  function LastKey(path: Path): Key {
    if path == [] then Key(0, EPSILON) else Key(|path|, path[|path| - 1])
  }

  /** The table after walking a path on an empty one. */
  function ChainTable(path: Path): map<Key, Row>
    decreases |path|
  {
    (if path == [] then map[] else ChainTable(path[..|path| - 1]))[LastKey(path) := Row(|path| + 1, Placeholder)]
  }

  function ChainCursor(path: Path): Cursor {
    Cursor(if path == [] then None else Some((|path| - 1, path[|path| - 1])), Some(Cached(|path| + 1, KPlaceholder)))
  }

  function ChainCursors(path: Path): (cs: seq<Cursor>)
    ensures |cs| == |path| + 1 && cs[|path|] == ChainCursor(path)
    decreases |path|
  {
    (if path == [] then [] else ChainCursors(path[..|path| - 1])) + [ChainCursor(path)]
  }

  function Chain(path: Path): Store {
    Store(ChainTable(path), |path| + 1, ChainCursors(path))
  }

  /** The first cursor of a session, at the root. */
  function Opened(rows: map<Key, Row>, largest: nat): Store {
    Store(rows, largest, [Cursor(None, None)])
  }

  lemma {:induction false} ChainPath(path: Path, more: seq<Cursor>)
    ensures CursorPath(ChainCursors(path) + more, |path|) == path
    decreases |path|
  {
    if path != [] {
      var init, all := path[..|path| - 1], ChainCursors(path) + more;
      assert all == ChainCursors(init) + ([ChainCursor(path)] + more);
      assert all[|path|] == ChainCursor(path);
      assert CursorPath(all, |path|) == CursorPath(all, |path| - 1) + [path[|path| - 1]];
      hide CursorPath, ChainCursors;
      ChainPath(init, [ChainCursor(path)] + more);
      assert init + [path[|path| - 1]] == path;
    }
  }

  lemma {:induction false} ChainKeys(path: Path, k: Key)
    requires k in ChainTable(path)
    ensures k.parent <= |path|
    decreases |path|
  {
    if path != [] && k != LastKey(path) {
      ChainKeys(path[..|path| - 1], k);
    }
  }

  lemma {:induction false} ChainRow(path: Path, i: nat)
    requires i <= |path|
    ensures LastKey(path[..i]) in ChainTable(path)
    ensures ChainTable(path)[LastKey(path[..i])] == Row(i + 1, Placeholder)
    decreases |path|
  {
    if i == |path| {
      assert path[..i] == path;
    } else {
      var init := path[..|path| - 1];
      ChainRow(init, i);
      assert init[..i] == path[..i];
      assert LastKey(path[..i]).parent == i;
    }
  }

  lemma ChainKey(path: Path, last: Cursor)
    requires path != [] && last.parent == Some((|path| - 1, path[|path| - 1]))
    ensures KeyOf(ChainCursors(path[..|path| - 1]) + [last], |path|) == LastKey(path)
  {
    var init := path[..|path| - 1];
    assert (ChainCursors(init) + [last])[|path| - 1] == ChainCursor(init);
  }

  /** The table and the cursors after walking a path on an empty table. */
  function AfterFirst(path: Path): (s: Store)
    ensures |s.cursors| == |path| + 1
  {
    if path == [] then Opened(map[], 0) else Chain(path)
  }

  /** On an empty table every attribute of the path gets a placeholder row. */
  lemma {:induction false} FirstWalk(eval: Evaluator, path: Path)
    requires Exists(eval, path)
    ensures Walk(eval, Opened(map[], 0), 0, path) == (AfterFirst(path), Some(|path|))
    decreases |path|
  {
    if path != [] {
      var init, name := path[..|path| - 1], path[|path| - 1];
      assert Exists(eval, init) && eval(init).Set? && name in eval(init).names;
      hide Exists, Walk, AfterFirst, AttrStep, Opened;
      FirstWalk(eval, init);
      WalkSnoc(eval, Opened(map[], 0), init, name);
      AfterFirstStep(eval, init, name);
      assert path == init + [name];
    }
  }

  lemma AfterFirstStep(eval: Evaluator, path: Path, name: Symbol)
    requires eval(path).Set? && name in eval(path).names
    ensures |Opened(map[], 0).cursors| == 1
    ensures AttrStep(eval, AfterFirst(path), |path|, name) == (AfterFirst(path + [name]), Some(|path| + 1))
  {
    hide AttrStep, Chain;
    if path == [] {
      FirstStep(eval, name);
      assert path + [name] == [name];
    } else {
      NextStep(eval, path, name);
    }
  }

  lemma {:induction false} WalkSnoc(eval: Evaluator, s: Store, path: Path, name: Symbol)
    requires |s.cursors| == 1
    ensures var (s1, at) := Walk(eval, s, 0, path);
            at.Some? && at.value < |s1.cursors| ==>
              Walk(eval, s, 0, path + [name]) == AttrStep(eval, s1, at.value, name)
  {
    hide AttrStep;
    assert (path + [name])[..|path|] == path;
  }

  lemma FirstStep(eval: Evaluator, name: Symbol)
    requires eval([]).Set? && name in eval([]).names
    ensures AttrStep(eval, Opened(map[], 0), 0, name) == (Chain([name]), Some(1))
  {
    var s := Opened(map[], 0);
    assert CursorPath(s.cursors, 0) == [];
    assert LookupStep(s, 0) == s;
    var own := OwnRowStep(s, 0);
    assert [name][..0] == [];
    assert own == Chain([]);
    ChainUncached(eval, [], name);
    assert UncachedStep(eval, s, 0, name) == UncachedStep(eval, own, 0, name);
  }

  lemma ChainUncached(eval: Evaluator, path: Path, name: Symbol)
    requires eval(path).Set? && name in eval(path).names
    ensures UncachedStep(eval, Chain(path), |path|, name) == (Chain(path + [name]), Some(|path| + 1))
  {
    var s := Chain(path);
    var longer := path + [name];
    assert longer[..|path|] == path;
    ChainPath(path, []);
    assert s.cursors + [] == s.cursors;
    assert Insert(s, LastKey(longer), Placeholder).rows == ChainTable(longer);
  }

  lemma NextStep(eval: Evaluator, path: Path, name: Symbol)
    requires eval(path).Set? && name in eval(path).names
    ensures AttrStep(eval, Chain(path), |path|, name) == (Chain(path + [name]), Some(|path| + 1))
  {
    var s := Chain(path);
    ChainUncached(eval, path, name);
    hide UncachedStep;
    assert LookupStep(s, |path|) == s;
    if Key(|path| + 1, name) in s.rows {
      ChainKeys(path, Key(|path| + 1, name));
      assert false;
    }
  }

  /** The rows of a path whose last attribute has the given value. */
  function SessionTable(path: Path, value: RowValue): map<Key, Row> {
    if path == [] then map[LastKey(path) := Row(1, value)]
    else ChainTable(path[..|path| - 1])[LastKey(path) := Row(|path| + 2, value)]
  }

  /** Forcing a leaf at the end of a path, on what was an empty table. */
  lemma FirstForce(eval: Evaluator, path: Path)
    requires Exists(eval, path) && !eval(path).Set?
    ensures var s := Walk(eval, Opened(map[], 0), 0, path).0;
            && |s.cursors| == |path| + 1
            && LookupStep(s, |path|) == s && Open(s.cursors, |path|) && CursorPath(s.cursors, |path|) == path
            && ForceStep(eval, s, |path|).rows == SessionTable(path, LeafRow(eval(path)))
  {
    FirstWalk(eval, path);
    if path != [] {
      hide Walk;
      ChainPath(path, []);
      assert ChainCursors(path) + [] == ChainCursors(path);
      ChainKey(path, ChainCursor(path));
    }
  }

  /** What is found at a step of the path in a later session. */
  lemma SessionRow(path: Path, value: RowValue, i: nat)
    requires i <= |path|
    ensures LastKey(path[..i]) in SessionTable(path, value)
    ensures i < |path| ==> SessionTable(path, value)[LastKey(path[..i])] == Row(i + 1, Placeholder)
    ensures i == |path| ==> SessionTable(path, value)[LastKey(path[..i])].value == value
  {
    assert LastKey(path[..i]).parent == i;
    if i == |path| {
      assert path[..i] == path;
    } else {
      ChainRow(path[..|path| - 1], i);
      assert path[..|path| - 1][..i] == path[..i];
    }
  }

  /** The cursors of a later session after `i` attributes of the path. */
  ghost predicate Walked(path: Path, value: RowValue, i: nat, s: Store)
    requires i <= |path|
  {
    && s.rows == SessionTable(path, value) && |s.cursors| == i + 1
    && (i == 0 ==> s.cursors == [Cursor(None, None)])
    && (i > 0 ==>
          && s.cursors[..i] == ChainCursors(path[..i - 1])
          && s.cursors[i] == Cursor(Some((i - 1, path[i - 1])), Query(s.rows, LastKey(path[..i]))))
  }

  lemma {:induction false} SecondWalk(eval: Evaluator, path: Path, value: RowValue, largest: nat, i: nat)
    requires i <= |path| && !value.Missing?
    ensures var (s, at) := Walk(eval, Opened(SessionTable(path, value), largest), 0, path[..i]);
            Walked(path, value, i, s) && at == Some(i)
    decreases i
  {
    hide *;
    var s0 := Opened(SessionTable(path, value), largest);
    OpenedOne(SessionTable(path, value), largest);
    if i == 0 {
      SecondStart(eval, path, value, largest);
    } else {
      SecondWalk(eval, path, value, largest, i - 1);
      WalkSnoc(eval, s0, path[..i - 1], path[i - 1]);
      assert path[..i] == path[..i - 1] + [path[i - 1]];
      var s := Walk(eval, s0, 0, path[..i - 1]).0;
      WalkedLength(path, value, i - 1, s);
      SecondStep(eval, path, value, i - 1, s);
    }
  }

  lemma SecondStart(eval: Evaluator, path: Path, value: RowValue, largest: nat)
    ensures var s := Opened(SessionTable(path, value), largest);
            |s.cursors| == 1 && Walk(eval, s, 0, path[..0]) == (s, Some(0)) && Walked(path, value, 0, s)
  {
    hide SessionTable;
    assert path[..0] == [];
  }

  lemma OpenedOne(rows: map<Key, Row>, largest: nat)
    ensures |Opened(rows, largest).cursors| == 1
  {
  }

  lemma WalkedLength(path: Path, value: RowValue, i: nat, s: Store)
    requires i <= |path| && Walked(path, value, i, s)
    ensures |s.cursors| == i + 1
  {
  }

  lemma SecondStep(eval: Evaluator, path: Path, value: RowValue, i: nat, s: Store)
    requires i < |path| && !value.Missing? && Walked(path, value, i, s) && |s.cursors| == i + 1
    ensures var (s', at) := AttrStep(eval, s, i, path[i]);
            Walked(path, value, i + 1, s') && at == Some(i + 1)
  {
    hide UncachedStep, SessionTable;
    var s1 := LookupStep(s, i);
    KnownPlaceholder(path, value, i, s);
    SessionRow(path, value, i + 1);
    assert path[..i + 1][i] == path[i];
    assert LastKey(path[..i + 1]) == Key(i + 1, path[i]);
    var cached := Query(s.rows, Key(i + 1, path[i]));
    assert AttrStep(eval, s, i, path[i]) == AddChild(s1, i, path[i], cached);
  }

  /** Before the end of the path the cursor finds its placeholder. */
  lemma KnownPlaceholder(path: Path, value: RowValue, i: nat, s: Store)
    requires i < |path| && Walked(path, value, i, s) && |s.cursors| == i + 1
    ensures LookupStep(s, i).cursors == ChainCursors(path[..i])
  {
    hide SessionTable;
    SessionRow(path, value, i);
    if i > 0 {
      assert path[..i][..i - 1] == path[..i - 1];
      assert s.cursors[i] == ChainCursor(path[..i]);
      assert s.cursors == s.cursors[..i] + [s.cursors[i]];
    }
  }

  /** At the end of the path the cursor knows what the first session wrote. */
  lemma SecondRead(eval: Evaluator, path: Path, value: RowValue, largest: nat)
    requires value.RBool? || value.RString? || value.RInt? || value.Misc?
    ensures var (s, at) := Walk(eval, Opened(SessionTable(path, value), largest), 0, path);
            && at == Some(|path|) && |s.cursors| == |path| + 1
            && !Open(LookupStep(s, |path|).cursors, |path|)
            && LookupStep(s, |path|).cursors[|path|].cached.value.known == ReadRow(s.rows, Row(0, value))
  {
    SecondWalk(eval, path, value, largest, |path|);
    assert path[..|path|] == path;
    hide Walk;
    KnownAtEnd(path, value, Walk(eval, Opened(SessionTable(path, value), largest), 0, path).0);
  }

  lemma KnownAtEnd(path: Path, value: RowValue, s: Store)
    requires value.RBool? || value.RString? || value.RInt? || value.Misc?
    requires Walked(path, value, |path|, s)
    ensures |s.cursors| == |path| + 1 && !Open(LookupStep(s, |path|).cursors, |path|)
    ensures LookupStep(s, |path|).cursors[|path|].cached.value.known == ReadRow(s.rows, Row(0, value))
  {
    hide SessionTable;
    SessionRow(path, value, |path|);
    assert path[..|path|] == path;
  }

  lemma FirstAnswers(eval: Evaluator, path: Path)
    requires Exists(eval, path) && !eval(path).Set?
    ensures var (s, at) := Walk(eval, Opened(map[], 0), 0, path);
            && at == Some(|path|) && |s.cursors| == |path| + 1
            && (eval(path).Integer? ==>
                  && IntStep(eval, s, |path|).0.rows == SessionTable(path, RInt(Narrow(eval(path).n)))
                  && IntStep(eval, s, |path|).1 == Some(eval(path).n))
            && (eval(path).PathNode? ==>
                  && StringStep(eval, s, |path|).0.rows == SessionTable(path, RString(eval(path).abs))
                  && StringStep(eval, s, |path|).1 == Some(eval(path).shown))
  {
    FirstWalk(eval, path);
    hide Walk, SessionTable, ForceStep, Chain, Exists;
    FirstForce(eval, path);
  }

  /** Asking again in the same session changes nothing; a path is now answered from what was stored. */
  lemma SameAgain(eval: Evaluator, s: Store, c: nat)
    requires c < |s.cursors| && LookupStep(s, c) == s && Open(s.cursors, c) && eval(CursorPath(s.cursors, c)).PathNode?
    ensures var s' := StringStep(eval, s, c).0;
            |s'.cursors| == |s.cursors| && StringStep(eval, s', c) == (s', Some(eval(CursorPath(s.cursors, c)).abs))
  {
  }

  lemma {:induction false} SecondAnswers(eval: Evaluator, path: Path, value: RowValue, largest: nat)
    requires value.RString? || value.RInt?
    ensures var (s, at) := Walk(eval, Opened(SessionTable(path, value), largest), 0, path);
            && at == Some(|path|) && |s.cursors| == |path| + 1
            && (value.RInt? ==> IntStep(eval, s, |path|).1 == Some(value.n))
            && (value.RString? ==> StringStep(eval, s, |path|).1 == Some(value.s))
  {
    SecondRead(eval, path, value, largest);
    hide Walk, SessionTable, ForceStep, LookupStep, Opened;
    AnswersWhatIsKnown(eval, Walk(eval, Opened(SessionTable(path, value), largest), 0, path).0, |path|);
  }

  lemma AnswersWhatIsKnown(eval: Evaluator, s: Store, c: nat)
    requires c < |s.cursors| && !Open(LookupStep(s, c).cursors, c)
    ensures var known := LookupStep(s, c).cursors[c].cached.value.known;
            && (known.KInt? ==> IntStep(eval, s, c).1 == Some(known.n))
            && (known.KString? ==> StringStep(eval, s, c).1 == Some(known.s))
  {
    hide LookupStep, ForceStep;
  }

  /** A cursor at a path that exists. */
  method Visit(cache: Cache, path: Path) returns (c: nat)
    requires cache.Valid() && cache.cursors == [] && Exists(cache.eval, path)
    modifies cache
    ensures cache.Valid() && cache.HasCursor(c) && cache.PathOf(c) == path
    ensures (cache.State(), Some(c)) == Walk(cache.eval, Opened(old(cache.rows), old(cache.largestId)), 0, path)
  {
    hide TableOk, CursorOk, Exists, CursorPath, Walk;
    var root := cache.GetRoot();
    assert cache.State() == Opened(old(cache.rows), old(cache.largestId));
    assert [] + path == path;
    var found := cache.FindAlongAttrPath(root, path);
    return found.value;
  }

  /** An integer that one session evaluates and a later one reads: the later one answers what 32 bits
    hold of it, which is the integer if and only if it fits. */
  method IntegerSessions(eval: Evaluator, path: Path) returns (first: Option<int>, second: Option<int>)
    requires Exists(eval, path) && eval(path).Integer?
    ensures first == Some(eval(path).n) && second == Some(Narrow(eval(path).n))
    ensures second == first <==> -0x8000_0000 <= eval(path).n < 0x8000_0000
  {
    hide TableOk, CursorOk, Exists, CursorPath, Walk, IntStep, SessionTable, Narrow;
    FirstAnswers(eval, path);
    var cache := new Cache(eval);
    var c := Visit(cache, path);
    first := cache.GetInt(c);
    var later := new Cache.Reopen(cache);
    SecondAnswers(eval, path, RInt(Narrow(eval(path).n)), later.largestId);
    c := Visit(later, path);
    second := later.GetInt(c);
    NarrowIff(eval(path).n);
  }

  /** The integer 2^31 comes back negative. */
  method LargeIntegerIsLost() returns (first: Option<int>, second: Option<int>)
    ensures first == Some(0x8000_0000) && second == Some(-0x8000_0000)
  {
    var eval: Evaluator := (path: Path) => Integer(0x8000_0000);
    first, second := IntegerSessions(eval, []);
  }

  /** A source path, asked for as a string: the first answer shows it with its accessor, later ones and
    those of later sessions are its absolute path. */
  method PathSessions(eval: Evaluator, path: Path)
    returns (first: Option<string>, again: Option<string>, second: Option<string>)
    requires Exists(eval, path) && eval(path).PathNode?
    ensures first == Some(eval(path).shown) && again == second == Some(eval(path).abs)
    ensures first == again <==> eval(path).shown == eval(path).abs
  {
    hide TableOk, CursorOk, Exists, CursorPath, Walk, StringStep, SessionTable, LookupStep, Open;
    FirstAnswers(eval, path);
    FirstForce(eval, path);
    var cache := new Cache(eval);
    var c := Visit(cache, path);
    SameAgain(eval, cache.State(), c);
    first := cache.GetString(c);
    again := cache.GetString(c);
    var later := new Cache.Reopen(cache);
    SecondAnswers(eval, path, RString(eval(path).abs), later.largestId);
    c := Visit(later, path);
    second := later.GetString(c);
  }

  /** A path that its accessor shows with a prefix is answered in two ways. */
  method ShownPathDiffers() returns (first: Option<string>, again: Option<string>, second: Option<string>)
    ensures first == Some("git:/a") && again == second == Some("/a")
  {
    var eval: Evaluator := (path: Path) => PathNode("/a", "git:/a");
    first, again, second := PathSessions(eval, []);
  }
}
