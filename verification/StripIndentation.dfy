/** Indented strings: removing the common indentation of a `''...''` literal.

  The literal arrives as a list of tokens, text and interpolations. Text that came from an escape does
  not count as indentation. Two passes over the characters find the smallest indentation of a line and
  then drop that many spaces from every line. */
module StripIndentation {
  datatype Token = Interp(e: nat) | Text(s: string, hasIndentation: bool)

  /** The pieces of the resulting concatenation. */
  datatype Piece = PInterp(e: nat) | PText(s: string)

  /** Tokens and pieces flattened to characters and interpolations. `plain` is false for escapes. */
  datatype Item = Ch(c: char, plain: bool) | Hole(e: nat)

  datatype Atom = AChar(c: char) | AHole(e: nat)

  /** The largest indentation that is ever removed. */
  const CAP: nat := 1000000

  function Chars(s: string, plain: bool): seq<Item> {
    seq(|s|, i requires 0 <= i < |s| => Ch(s[i], plain))
  }

  function Flat(tokens: seq<Token>): seq<Item> {
    if tokens == [] then []
    else (match tokens[0]
          case Interp(e) => [Hole(e)]
          case Text(s, plain) => Chars(s, plain)) + Flat(tokens[1..])
  }

  function Letters(s: string): seq<Atom> {
    seq(|s|, i requires 0 <= i < |s| => AChar(s[i]))
  }

  function Atoms(pieces: seq<Piece>): seq<Atom> {
    if pieces == [] then []
    else (match pieces[0]
          case PInterp(e) => [AHole(e)]
          case PText(s) => Letters(s)) + Atoms(pieces[1..])
  }

  function Min(a: nat, b: nat): nat {
    if a < b then a else b
  }

  // ---- what stripping means, line by line ----

  /** The lines of a list of items, cut at the items that `cut` accepts. There is always a last line. */
  function Lines(items: seq<Item>, cut: Item -> bool): (ls: seq<seq<Item>>)
    ensures |ls| >= 1
  {
    if items == [] then [[]]
    else
      var rest := Lines(items[1..], cut);
      if cut(items[0]) then [[]] + rest else [[items[0]] + rest[0]] + rest[1..]
  }

  /** A newline that is not part of an escape. */
  function PlainNewline(): Item -> bool {
    (x: Item) => x == Ch('\n', true)
  }

  function AnyNewline(): Item -> bool {
    (x: Item) => x.Ch? && x.c == '\n'
  }

  /** The number of spaces a line starts with, escapes not counted. */
  function Indent(line: seq<Item>): nat {
    if line != [] && line[0] == Ch(' ', true) then 1 + Indent(line[1..]) else 0
  }

  /** The number of spaces a line starts with, escapes counted. */
  function Lead(line: seq<Item>): nat {
    if line != [] && line[0].Ch? && line[0].c == ' ' then 1 + Lead(line[1..]) else 0
  }

  /** Lines of nothing but spaces have no say in the common indentation. */
  predicate Blank(line: seq<Item>) {
    Indent(line) == |line|
  }

  /** The smallest indentation of a line that is not blank, and at most `CAP`. */
  function CommonIndent(lines: seq<seq<Item>>): nat {
    if lines == [] then CAP
    else Min(if Blank(lines[0]) then CAP else Indent(lines[0]), CommonIndent(lines[1..]))
  }

  function ToAtom(x: Item): Atom {
    match x
    case Ch(c, _) => AChar(c)
    case Hole(e) => AHole(e)
  }

  function ToAtoms(line: seq<Item>): seq<Atom> {
    seq(|line|, i requires 0 <= i < |line| => ToAtom(line[i]))
  }

  lemma {:induction false} LeadBound(line: seq<Item>)
    ensures Lead(line) <= |line|
  {
    if line != [] {
      LeadBound(line[1..]);
    }
  }

  /** A line without its first `min(Lead(line), m)` spaces. */
  function StripLine(line: seq<Item>, m: nat): seq<Atom> {
    LeadBound(line);
    ToAtoms(line[Min(Lead(line), m)..])
  }

  /** The stripped lines, joined by newlines again. */
  function StripLines(lines: seq<seq<Item>>, m: nat): seq<Atom> {
    if lines == [] then []
    else StripLine(lines[0], m) + if |lines| == 1 then [] else [AChar('\n')] + StripLines(lines[1..], m)
  }

  // ---- the two passes, character by character ----

  /** First pass: `atStart` while only spaces were seen in the current line, `cur` of them. */
  function Scan(items: seq<Item>, atStart: bool, m: nat, cur: nat): nat {
    if items == [] then m
    else
      var rest := items[1..];
      if !(items[0].Ch? && items[0].plain) then Scan(rest, false, if atStart then Min(cur, m) else m, cur)
      else if atStart then
        if items[0].c == ' ' then Scan(rest, true, m, cur + 1)
        else if items[0].c == '\n' then Scan(rest, true, m, 0)
        else Scan(rest, false, Min(cur, m), cur)
      else if items[0].c == '\n' then Scan(rest, true, m, 0)
      else Scan(rest, false, m, cur)
  }

  /** Second pass: `dropped` spaces were seen at the start of the current line. */
  function Strip(items: seq<Item>, atStart: bool, dropped: nat, m: nat): seq<Atom> {
    if items == [] then []
    else match items[0]
         case Hole(e) => [AHole(e)] + Strip(items[1..], false, 0, m)
         case Ch(c, _) =>
           if !atStart then [AChar(c)] + Strip(items[1..], c == '\n', dropped, m)
           else if c == ' ' then (if dropped >= m then [AChar(c)] else []) + Strip(items[1..], true, dropped + 1, m)
           else if c == '\n' then [AChar(c)] + Strip(items[1..], true, 0, m)
           else [AChar(c)] + Strip(items[1..], false, 0, m)
  }

  // ---- the first pass finds the common indentation ----

  lemma {:induction false} CommonIndentCap(lines: seq<seq<Item>>)
    ensures CommonIndent(lines) <= CAP
  {
    if lines != [] {
      CommonIndentCap(lines[1..]);
    }
  }

  /** What the rest of the current line contributes when `cur` spaces of it were already seen. */
  function LineShare(line: seq<Item>, cur: nat): nat {
    if Blank(line) then CAP else cur + Indent(line)
  }

  lemma {:induction false} ScanIs(items: seq<Item>, atStart: bool, m: nat, cur: nat)
    requires m <= CAP
    ensures var ls := Lines(items, PlainNewline());
            Scan(items, atStart, m, cur)
            == Min(m, if atStart then Min(LineShare(ls[0], cur), CommonIndent(ls[1..])) else CommonIndent(ls[1..]))
    decreases |items|
  {
    var ls := Lines(items, PlainNewline());
    CommonIndentCap(ls[1..]);
    if items != [] {
      var x, rest := items[0], items[1..];
      var ls' := Lines(rest, PlainNewline());
      CommonIndentCap(ls'[1..]);
      if x == Ch('\n', true) {
        assert ls[0] == [] && ls[1..] == ls';
        ScanIs(rest, true, m, 0);
        assert CommonIndent(ls') == Min(LineShare(ls'[0], 0), CommonIndent(ls'[1..]));
      } else {
        assert ls[0] == [x] + ls'[0] && ls[1..] == ls'[1..];
        assert ls[0][1..] == ls'[0];
        if atStart && x == Ch(' ', true) {
          ScanIs(rest, true, m, cur + 1);
        } else {
          ScanIs(rest, false, if atStart then Min(cur, m) else m, cur);
        }
      }
    }
  }

  /** The first pass computes the common indentation. */
  lemma ScanFindsCommonIndent(items: seq<Item>)
    ensures Scan(items, true, CAP, 0) == CommonIndent(Lines(items, PlainNewline()))
  {
    ScanIs(items, true, CAP, 0);
    var ls := Lines(items, PlainNewline());
    CommonIndentCap(ls[1..]);
  }

  // ---- the second pass strips every line ----

  /** The lines after the first, each with the newline before it. */
  function LaterLines(lines: seq<seq<Item>>, m: nat): seq<Atom> {
    if |lines| <= 1 then [] else [AChar('\n')] + StripLines(lines[1..], m)
  }

  lemma StripLinesSplit(lines: seq<seq<Item>>, m: nat)
    requires lines != []
    ensures StripLines(lines, m) == StripLine(lines[0], m) + LaterLines(lines, m)
  {
    hide StripLine;
  }

  /** What the second pass makes of the rest of the current line. */
  function RestOfLine(line: seq<Item>, atStart: bool, dropped: nat, m: nat): seq<Atom> {
    if atStart then StripLine(line, if dropped < m then m - dropped else 0) else ToAtoms(line)
  }

  lemma LinesCut(items: seq<Item>, cut: Item -> bool)
    requires items != []
    ensures var ls, rest := Lines(items, cut), Lines(items[1..], cut);
            if cut(items[0]) then ls[0] == [] && ls[1..] == rest
            else ls[0] == [items[0]] + rest[0] && ls[1..] == rest[1..]
  {
  }

  ghost predicate StripClaim(items: seq<Item>, atStart: bool, dropped: nat, m: nat) {
    var ls := Lines(items, AnyNewline());
    Strip(items, atStart, dropped, m) == RestOfLine(ls[0], atStart, dropped, m) + LaterLines(ls, m)
  }

  lemma StripNewline(items: seq<Item>, atStart: bool, dropped: nat, m: nat)
    requires items != [] && items[0].Ch? && items[0].c == '\n' && (!atStart ==> dropped == 0)
    requires StripClaim(items[1..], true, 0, m)
    ensures StripClaim(items, atStart, dropped, m)
  {
    hide Lines, StripLine, StripLines, ToAtoms, Lead;
    LinesCut(items, AnyNewline());
    StripLinesSplit(Lines(items[1..], AnyNewline()), m);
    EmptyLine(atStart, dropped, m);
    assert LaterLines(Lines(items, AnyNewline()), m) == [AChar('\n')] + StripLines(Lines(items[1..], AnyNewline()), m);
  }

  lemma StripSpace(items: seq<Item>, dropped: nat, m: nat)
    requires items != [] && items[0].Ch? && items[0].c == ' '
    requires StripClaim(items[1..], true, dropped + 1, m)
    ensures StripClaim(items, true, dropped, m)
  {
    hide Lines, StripLine, StripLines, ToAtoms, Lead;
    LinesCut(items, AnyNewline());
    var ls, ls' := Lines(items, AnyNewline()), Lines(items[1..], AnyNewline());
    SpaceLine(items[0], ls'[0], if dropped < m then m - dropped else 0);
    var a, b := RestOfLine(ls'[0], true, dropped + 1, m), LaterLines(ls, m);
    assert LaterLines(ls', m) == b;
    if dropped >= m {
      assert [AChar(' ')] + (a + b) == ([AChar(' ')] + a) + b;
    } else {
      assert [] + (a + b) == a + b;
    }
  }

  lemma StripOther(items: seq<Item>, atStart: bool, dropped: nat, m: nat)
    requires items != [] && !(items[0].Ch? && items[0].c == '\n') && (!atStart ==> dropped == 0)
    requires atStart ==> !(items[0].Ch? && items[0].c == ' ')
    requires StripClaim(items[1..], false, 0, m)
    ensures StripClaim(items, atStart, dropped, m)
  {
    hide Lines, StripLine, StripLines, Lead;
    LinesCut(items, AnyNewline());
    var ls, ls' := Lines(items, AnyNewline()), Lines(items[1..], AnyNewline());
    OtherLine(items[0], ls'[0], atStart, dropped, m);
    var a, b := ToAtoms(ls'[0]), LaterLines(ls, m);
    assert LaterLines(ls', m) == b;
    assert [ToAtom(items[0])] + (a + b) == ([ToAtom(items[0])] + a) + b;
  }

  lemma {:induction false} StripIs(items: seq<Item>, atStart: bool, dropped: nat, m: nat)
    requires !atStart ==> dropped == 0
    ensures StripClaim(items, atStart, dropped, m)
    decreases |items|
  {
    if items == [] {
      EmptyLine(atStart, dropped, m);
    } else {
      hide StripClaim;
      var x := items[0];
      if x.Ch? && x.c == '\n' {
        StripIs(items[1..], true, 0, m);
        StripNewline(items, atStart, dropped, m);
      } else if atStart && x.Ch? && x.c == ' ' {
        StripIs(items[1..], true, dropped + 1, m);
        StripSpace(items, dropped, m);
      } else {
        StripIs(items[1..], false, 0, m);
        StripOther(items, atStart, dropped, m);
      }
    }
  }

  lemma EmptyLine(atStart: bool, dropped: nat, m: nat)
    ensures RestOfLine([], atStart, dropped, m) == []
  {
  }

  lemma OtherLine(x: Item, line: seq<Item>, atStart: bool, dropped: nat, m: nat)
    requires atStart ==> !(x.Ch? && x.c == ' ')
    ensures RestOfLine([x] + line, atStart, dropped, m) == [ToAtom(x)] + ToAtoms(line)
  {
    var l := [x] + line;
    assert l[0..] == l;
    assert ToAtoms(l) == [ToAtom(x)] + ToAtoms(line);
  }

  lemma SpaceLine(x: Item, line: seq<Item>, m: nat)
    requires x.Ch? && x.c == ' '
    ensures StripLine([x] + line, m)
            == if m > 0 then StripLine(line, m - 1) else [AChar(' ')] + StripLine(line, 0)
  {
    var l := [x] + line;
    LeadBound(line);
    assert l[1..] == line;
    assert Lead(l) == 1 + Lead(line);
    if m > 0 {
      assert l[Min(Lead(l), m)..] == line[Min(Lead(line), m - 1)..];
    } else {
      assert l[0..] == l && line[0..] == line;
      assert ToAtoms(l) == [AChar(' ')] + ToAtoms(line);
    }
  }

  /** The second pass removes exactly the common indentation from every line, nothing else. */
  lemma StripRemovesIndent(items: seq<Item>, m: nat)
    ensures Strip(items, true, 0, m) == StripLines(Lines(items, AnyNewline()), m)
  {
    StripIs(items, true, 0, m);
    StripLinesSplit(Lines(items, AnyNewline()), m);
  }

  // ---- the code ----

  ghost predicate EscapesNotEmpty(tokens: seq<Token>) {
    forall i :: 0 <= i < |tokens| && tokens[i].Text? && !tokens[i].hasIndentation ==> tokens[i].s != ""
  }

  lemma {:induction false} ScanEscape(s: string, items: seq<Item>, atStart: bool, m: nat, cur: nat)
    requires s != ""
    ensures Scan(Chars(s, false) + items, atStart, m, cur)
            == Scan(items, false, if atStart then Min(cur, m) else m, cur)
    decreases |s|
  {
    var all := Chars(s, false) + items;
    assert all[1..] == Chars(s[1..], false) + items;
    if |s| > 1 {
      ScanEscape(s[1..], items, false, if atStart then Min(cur, m) else m, cur);
    } else {
      assert all[1..] == items;
    }
  }

  lemma FlatStep(tokens: seq<Token>, i: nat)
    requires i < |tokens|
    ensures Flat(tokens[i..]) == (match tokens[i] case Interp(e) => [Hole(e)] case Text(s, plain) => Chars(s, plain))
                                 + Flat(tokens[i + 1..])
  {
    assert tokens[i..][0] == tokens[i] && tokens[i..][1..] == tokens[i + 1..];
  }

  lemma CharsStep(s: string, plain: bool, j: nat)
    requires j < |s|
    ensures Chars(s, plain)[j..] == [Ch(s[j], plain)] + Chars(s, plain)[j + 1..]
  {
  }

  /** One text token of the first pass. `later` is what comes after it. */
  method ScanText(str: string, atStart: bool, m: nat, cur: nat, ghost later: seq<Item>)
    returns (atStartOfLine: bool, minIndent: nat, curIndent: nat)
    ensures Scan(Chars(str, true) + later, atStart, m, cur) == Scan(later, atStartOfLine, minIndent, curIndent)
  {
    atStartOfLine, minIndent, curIndent := atStart, m, cur;
    ghost var goal := Scan(Chars(str, true) + later, atStart, m, cur);
    var j := 0;
    assert Chars(str, true)[0..] == Chars(str, true);
    while j < |str|
      invariant j <= |str|
      invariant goal == Scan(Chars(str, true)[j..] + later, atStartOfLine, minIndent, curIndent)
    {
      CharsStep(str, true, j);
      ghost var more := Chars(str, true)[j + 1..] + later;
      assert Chars(str, true)[j..] + later == [Ch(str[j], true)] + more;
      assert ([Ch(str[j], true)] + more)[1..] == more;
      if atStartOfLine {
        if str[j] == ' ' {
          curIndent := curIndent + 1;
        } else if str[j] == '\n' {
          curIndent := 0;
        } else {
          atStartOfLine := false;
          minIndent := Min(curIndent, minIndent);
        }
      } else if str[j] == '\n' {
        atStartOfLine := true;
        curIndent := 0;
      }
      j := j + 1;
    }
    assert Chars(str, true)[|str|..] + later == later;
  }

  /** The first pass. */
  method FindIndent(tokens: seq<Token>) returns (minIndent: nat)
    requires EscapesNotEmpty(tokens)
    ensures minIndent == CommonIndent(Lines(Flat(tokens), PlainNewline()))
  {
    var atStartOfLine := true;
    minIndent := CAP;
    var curIndent := 0;
    ghost var goal := Scan(Flat(tokens), true, CAP, 0);
    assert tokens[0..] == tokens;
    var i := 0;
    while i < |tokens|
      invariant i <= |tokens|
      invariant goal == Scan(Flat(tokens[i..]), atStartOfLine, minIndent, curIndent)
    {
      FlatStep(tokens, i);
      ghost var later := Flat(tokens[i + 1..]);
      if tokens[i].Text? && tokens[i].hasIndentation {
        atStartOfLine, minIndent, curIndent := ScanText(tokens[i].s, atStartOfLine, minIndent, curIndent, later);
      } else {
        if tokens[i].Text? {
          ScanEscape(tokens[i].s, later, atStartOfLine, minIndent, curIndent);
        } else {
          assert ([Hole(tokens[i].e)] + later)[1..] == later;
        }
        if atStartOfLine {
          atStartOfLine := false;
          minIndent := Min(curIndent, minIndent);
        }
      }
      i := i + 1;
    }
    ScanFindsCommonIndent(Flat(tokens));
  }

  function TrailingSpaces(a: seq<Atom>): (k: nat)
    ensures k <= |a| && (k < |a| ==> a[|a| - k - 1] != AChar(' '))
    ensures forall i :: |a| - k <= i < |a| ==> a[i] == AChar(' ')
  {
    if a != [] && a[|a| - 1] == AChar(' ') then 1 + TrailingSpaces(a[..|a| - 1]) else 0
  }

  /** Without the last line, if there is a newline before it and it consists of spaces only. */
  function DropBlankEnd(a: seq<Atom>): seq<Atom> {
    var k := TrailingSpaces(a);
    if k < |a| && a[|a| - k - 1] == AChar('\n') then a[..|a| - k] else a
  }

  /** Removes the last line of a text if it is blank. */
  method TrimLastLine(t: string) returns (r: string)
    ensures Letters(r) == DropBlankEnd(Letters(t))
  {
    var p: nat := |t|;
    while p > 0 && t[p - 1] != '\n'
      invariant p <= |t|
      invariant forall i :: p <= i < |t| ==> t[i] != '\n'
    {
      p := p - 1;
    }
    ghost var k := TrailingSpaces(Letters(t));
    if p == 0 {
      return t;
    }
    var q: nat := p;
    while q < |t| && t[q] == ' '
      invariant p <= q <= |t|
      invariant forall i :: p <= i < q ==> t[i] == ' '
    {
      q := q + 1;
    }
    assert Letters(t)[p - 1] == AChar('\n');
    if q == |t| {
      assert forall i :: p <= i < |t| ==> Letters(t)[i] == AChar(' ');
      assert k == |t| - p;
      assert Letters(t[..p]) == Letters(t)[..p];
      return t[..p];
    }
    assert Letters(t)[q] != AChar(' ');
    return t;
  }

  lemma {:induction false} AtomsAppend(a: seq<Piece>, b: seq<Piece>)
    ensures Atoms(a + b) == Atoms(a) + Atoms(b)
    decreases |a|
  {
    if a == [] {
      assert a + b == b;
    } else {
      assert (a + b)[1..] == a[1..] + b;
      AtomsAppend(a[1..], b);
    }
  }

  lemma AtomsOne(a: seq<Piece>, p: Piece)
    ensures Atoms(a + [p]) == Atoms(a) + (match p case PInterp(e) => [AHole(e)] case PText(s) => Letters(s))
  {
    AtomsAppend(a, [p]);
    assert [p][1..] == [];
  }

  /** The state of the second pass after some items. */
  function StateAfter(items: seq<Item>, atStart: bool, dropped: nat): (bool, nat) {
    if items == [] then (atStart, dropped)
    else match items[0]
         case Hole(_) => StateAfter(items[1..], false, 0)
         case Ch(c, _) =>
           if !atStart then StateAfter(items[1..], c == '\n', dropped)
           else if c == ' ' then StateAfter(items[1..], true, dropped + 1)
           else if c == '\n' then StateAfter(items[1..], true, 0)
           else StateAfter(items[1..], false, 0)
  }

  /** What the second pass keeps of one item, and the state after it. */
  function KeptOf(x: Item, atStart: bool, dropped: nat, m: nat): seq<Atom> {
    if atStart && x.Ch? && x.c == ' ' && dropped < m then [] else [ToAtom(x)]
  }

  function NextState(x: Item, atStart: bool, dropped: nat): (bool, nat) {
    if x.Hole? then (false, 0)
    else if !atStart then (x.c == '\n', dropped)
    else if x.c == ' ' then (true, dropped + 1)
    else (x.c == '\n', 0)
  }

  lemma StripUnfold(items: seq<Item>, atStart: bool, dropped: nat, m: nat)
    requires items != []
    ensures var (s, d) := NextState(items[0], atStart, dropped);
            && Strip(items, atStart, dropped, m) == KeptOf(items[0], atStart, dropped, m) + Strip(items[1..], s, d, m)
            && StateAfter(items, atStart, dropped) == StateAfter(items[1..], s, d)
  {
  }

  lemma {:induction false} StripAppend(a: seq<Item>, b: seq<Item>, atStart: bool, dropped: nat, m: nat)
    ensures var (s, d) := StateAfter(a, atStart, dropped);
            && Strip(a + b, atStart, dropped, m) == Strip(a, atStart, dropped, m) + Strip(b, s, d, m)
            && StateAfter(a + b, atStart, dropped) == StateAfter(b, s, d)
    decreases |a|
  {
    if a == [] {
      assert a + b == b;
    } else {
      hide Strip, StateAfter, KeptOf;
      assert (a + b)[1..] == a[1..] + b;
      StripUnfold(a, atStart, dropped, m);
      StripUnfold(a + b, atStart, dropped, m);
      var (s, d) := NextState(a[0], atStart, dropped);
      StripAppend(a[1..], b, s, d, m);
    }
  }

  /** One text token of the second pass. */
  method StripText(str: string, plain: bool, atStart: bool, dropped: nat, m: nat)
    returns (s2: string, atStart': bool, dropped': nat)
    ensures Letters(s2) == Strip(Chars(str, plain), atStart, dropped, m)
    ensures (atStart', dropped') == StateAfter(Chars(str, plain), atStart, dropped)
  {
    s2, atStart', dropped' := "", atStart, dropped;
    ghost var all := Chars(str, plain);
    var j := 0;
    while j < |str|
      invariant j <= |str|
      invariant Letters(s2) == Strip(all[..j], atStart, dropped, m)
      invariant (atStart', dropped') == StateAfter(all[..j], atStart, dropped)
    {
      StripAppend(all[..j], [all[j]], atStart, dropped, m);
      assert all[..j] + [all[j]] == all[..j + 1] && [all[j]][1..] == [];
      assert Letters(s2 + [str[j]]) == Letters(s2) + [AChar(str[j])];
      if atStart' {
        if str[j] == ' ' {
          if dropped' >= m {
            s2 := s2 + [str[j]];
          }
          dropped' := dropped' + 1;
        } else if str[j] == '\n' {
          dropped' := 0;
          s2 := s2 + [str[j]];
        } else {
          atStart', dropped' := false, 0;
          s2 := s2 + [str[j]];
        }
      } else {
        s2 := s2 + [str[j]];
        if str[j] == '\n' {
          atStart' := true;
        }
      }
      j := j + 1;
    }
    assert all[..|str|] == all;
  }

  lemma {:induction false} FlatAppend(a: seq<Token>, b: seq<Token>)
    ensures Flat(a + b) == Flat(a) + Flat(b)
    decreases |a|
  {
    if a == [] {
      assert a + b == b;
    } else {
      assert (a + b)[1..] == a[1..] + b;
      FlatAppend(a[1..], b);
    }
  }

  function FlatOne(t: Token): seq<Item> {
    match t
    case Interp(e) => [Hole(e)]
    case Text(s, plain) => Chars(s, plain)
  }

  lemma FlatSnoc(tokens: seq<Token>, i: nat)
    requires i < |tokens|
    ensures Flat(tokens[..i + 1]) == Flat(tokens[..i]) + FlatOne(tokens[i])
  {
    FlatAppend(tokens[..i], [tokens[i]]);
    assert tokens[..i + 1] == tokens[..i] + [tokens[i]] && [tokens[i]][1..] == [];
  }

  /** What is left of the tokens: every line without the common indentation, and the last token, if it
    is text, without a blank last line. */
  ghost predicate Stripped(tokens: seq<Token>, m: nat, result: seq<Atom>) {
    var all := StripLines(Lines(Flat(tokens), AnyNewline()), m);
    if tokens == [] || tokens[|tokens| - 1].Interp? then result == all
    else
      var head := StripLines(Lines(Flat(tokens[..|tokens| - 1]), AnyNewline()), m);
      head <= all && result == head + DropBlankEnd(all[|head|..])
  }

  /** The second pass. */
  method StripTokens(tokens: seq<Token>, m: nat) returns (es2: seq<Piece>)
    ensures Stripped(tokens, m, Atoms(es2))
    ensures PText("") !in es2
  {
    es2 := [];
    var atStart, dropped := true, 0;
    var i := 0;
    StripNothing(m);
    assert tokens[..0] == [];
    hide Strip, StateAfter, Stripped, Flat, Atoms, DropBlankEnd, Letters, Chars;
    while i < |tokens|
      invariant i <= |tokens| && PText("") !in es2
      invariant (atStart, dropped) == StateAfter(Flat(tokens[..i]), true, 0)
      invariant i < |tokens| || tokens == [] || tokens[i - 1].Interp? ==>
                  Atoms(es2) == Strip(Flat(tokens[..i]), true, 0, m)
      invariant i == |tokens| > 0 && tokens[i - 1].Text? ==> Stripped(tokens, m, Atoms(es2))
    {
      FlatSnoc(tokens, i);
      StripAppend(Flat(tokens[..i]), FlatOne(tokens[i]), true, 0, m);
      match tokens[i] {
        case Interp(e) =>
          AtomsOne(es2, PInterp(e));
          StripHole(e, atStart, dropped, m);
          es2 := es2 + [PInterp(e)];
          atStart, dropped := false, 0;
        case Text(str, plain) =>
          var s2;
          s2, atStart, dropped := StripText(str, plain, atStart, dropped, m);
          if i + 1 == |tokens| {
            assert tokens[..i + 1] == tokens;
            LastToken(tokens, m, Atoms(es2), Letters(s2));
            assert tokens[..i] == tokens[..|tokens| - 1];
            s2 := TrimLastLine(s2);
          }
          AtomsOne(es2, PText(s2));
          if s2 != "" {
            es2 := es2 + [PText(s2)];
          } else {
            NoLetters();
          }
      }
      i := i + 1;
    }
    assert tokens[..|tokens|] == tokens;
    if tokens == [] || tokens[|tokens| - 1].Interp? {
      NoLastText(tokens, m, Atoms(es2));
    }
  }

  lemma NoLetters()
    ensures Letters("") == []
  {
  }

  lemma StripNothing(m: nat)
    ensures Flat([]) == [] && StateAfter([], true, 0) == (true, 0) && Strip([], true, 0, m) == [] && Atoms([]) == []
  {
  }

  lemma StripHole(e: nat, atStart: bool, dropped: nat, m: nat)
    ensures Strip([Hole(e)], atStart, dropped, m) == [AHole(e)] && StateAfter([Hole(e)], atStart, dropped) == (false, 0)
  {
    assert [Hole(e)][1..] == [];
  }

  lemma NoLastText(tokens: seq<Token>, m: nat, all: seq<Atom>)
    requires (tokens == [] || tokens[|tokens| - 1].Interp?) && all == Strip(Flat(tokens), true, 0, m)
    ensures Stripped(tokens, m, all)
  {
    StripRemovesIndent(Flat(tokens), m);
  }

  lemma LastToken(tokens: seq<Token>, m: nat, head: seq<Atom>, tail: seq<Atom>)
    requires tokens != [] && tokens[|tokens| - 1].Text?
    requires head == Strip(Flat(tokens[..|tokens| - 1]), true, 0, m)
    requires head + tail == Strip(Flat(tokens), true, 0, m)
    ensures Stripped(tokens, m, head + DropBlankEnd(tail))
  {
    StripRemovesIndent(Flat(tokens), m);
    StripRemovesIndent(Flat(tokens[..|tokens| - 1]), m);
    assert (head + tail)[|head|..] == tail;
  }

  /** The expression the parser makes: one string if there is no interpolation. */
  datatype Result = RString(s: string) | RConcat(pieces: seq<Piece>)

  function ResultAtoms(r: Result): seq<Atom> {
    match r
    case RString(s) => Letters(s)
    case RConcat(pieces) => Atoms(pieces)
  }

  method StripIndent(tokens: seq<Token>) returns (r: Result)
    requires EscapesNotEmpty(tokens)
    ensures Stripped(tokens, CommonIndent(Lines(Flat(tokens), PlainNewline())), ResultAtoms(r))
    ensures r.RConcat? ==> r.pieces != [] && PText("") !in r.pieces
  {
    hide Stripped, Lines, CommonIndent, Flat;
    var minIndent := FindIndent(tokens);
    var es2 := StripTokens(tokens, minIndent);
    assert Letters("") == [];
    if es2 == [] {
      return RString("");
    }
    if |es2| == 1 && es2[0].PText? {
      AtomsOne([], es2[0]);
      assert es2 == [] + [es2[0]] && Atoms([]) + Letters(es2[0].s) == Letters(es2[0].s);
      return RString(es2[0].s);
    }
    return RConcat(es2);
  }

  // ---- the two passes mean the same lines ----

  ghost predicate NoEscapedNewline(items: seq<Item>) {
    forall i :: 0 <= i < |items| ==> items[i] != Ch('\n', false)
  }

  /** The first pass ends lines at plain newlines only, the second at escaped ones too: they agree on
    what the lines are exactly when no newline is escaped. */
  lemma {:induction false} LinesAgreeIff(items: seq<Item>)
    ensures Lines(items, PlainNewline()) == Lines(items, AnyNewline()) <==> NoEscapedNewline(items)
    decreases |items|
  {
    if items != [] {
      LinesAgreeIff(items[1..]);
      LinesCut(items, PlainNewline());
      LinesCut(items, AnyNewline());
      var p, a := Lines(items, PlainNewline()), Lines(items, AnyNewline());
      var p', a' := Lines(items[1..], PlainNewline()), Lines(items[1..], AnyNewline());
      assert NoEscapedNewline(items) <==> items[0] != Ch('\n', false) && NoEscapedNewline(items[1..]) by {
        assert forall i :: 0 < i < |items| ==> items[i] == items[1..][i - 1];
      }
      if items[0] == Ch('\n', false) {
        assert p[0] != a[0];
      } else if PlainNewline()(items[0]) {
        assert p == [p[0]] + p' && a == [a[0]] + a';
        assert p[1..] == p' && a[1..] == a';
      } else {
        assert p == [[items[0]] + p'[0]] + p'[1..] && a == [[items[0]] + a'[0]] + a'[1..];
        assert p' == [p'[0]] + p'[1..] && a' == [a'[0]] + a'[1..];
        if p == a {
          assert p[0] == a[0] && p[1..] == a[1..];
          assert p[0][1..] == p'[0] && a[0][1..] == a'[0];
        }
      }
    }
  }

  // ---- indenting everything further changes nothing ----

  function Spaces(k: nat): seq<Item> {
    seq(k, _ => Ch(' ', true))
  }

  /** `k` more spaces after every plain newline. */
  function IndentAfter(items: seq<Item>, k: nat): seq<Item> {
    if items == [] then []
    else [items[0]] + (if items[0] == Ch('\n', true) then Spaces(k) else []) + IndentAfter(items[1..], k)
  }

  function IndentLines(lines: seq<seq<Item>>, k: nat): seq<seq<Item>> {
    seq(|lines|, i requires 0 <= i < |lines| => Spaces(k) + lines[i])
  }

  lemma {:induction false} LinesPrefix(pre: seq<Item>, items: seq<Item>, cut: Item -> bool)
    requires forall i :: 0 <= i < |pre| ==> !cut(pre[i])
    ensures Lines(pre + items, cut) == [pre + Lines(items, cut)[0]] + Lines(items, cut)[1..]
    decreases |pre|
  {
    var ls := Lines(items, cut);
    if pre == [] {
      assert pre + items == items && [] + ls[0] == ls[0];
      assert ls == [ls[0]] + ls[1..];
    } else {
      LinesPrefix(pre[1..], items, cut);
      assert (pre + items)[1..] == pre[1..] + items;
      LinesCut(pre + items, cut);
      var all := Lines(pre + items, cut);
      assert [pre[0]] + (pre[1..] + ls[0]) == pre + ls[0];
      assert all == [all[0]] + all[1..];
    }
  }

  ghost predicate IndentedLines(items: seq<Item>, k: nat) {
    var ls := Lines(items, PlainNewline());
    Lines(IndentAfter(items, k), PlainNewline()) == [ls[0]] + IndentLines(ls[1..], k)
  }

  lemma {:induction false} LinesIndentAfter(items: seq<Item>, k: nat)
    ensures IndentedLines(items, k)
    decreases |items|
  {
    if items == [] {
      assert IndentLines([], k) == [];
    } else {
      hide IndentedLines, Lines;
      LinesIndentAfter(items[1..], k);
      if items[0] == Ch('\n', true) {
        IndentedNewline(items, k);
      } else {
        IndentedOther(items, k);
      }
    }
  }

  lemma IndentedNewline(items: seq<Item>, k: nat)
    requires items != [] && items[0] == Ch('\n', true) && IndentedLines(items[1..], k)
    ensures IndentedLines(items, k)
  {
    var cut := PlainNewline();
    var after := IndentAfter(items[1..], k);
    var wide := [items[0]] + Spaces(k) + after;
    assert IndentAfter(items, k) == wide;
    hide Lines, IndentAfter;
    var ls := Lines(items[1..], cut);
    LinesCut(items, cut);
    assert wide[1..] == Spaces(k) + after;
    LinesCut(wide, cut);
    LinesPrefix(Spaces(k), after, cut);
    assert IndentLines(ls, k) == [Spaces(k) + ls[0]] + IndentLines(ls[1..], k);
    assert Lines(wide, cut) == [Lines(wide, cut)[0]] + Lines(wide, cut)[1..];
  }

  lemma IndentedOther(items: seq<Item>, k: nat)
    requires items != [] && items[0] != Ch('\n', true) && IndentedLines(items[1..], k)
    ensures IndentedLines(items, k)
  {
    var cut := PlainNewline();
    var after := IndentAfter(items[1..], k);
    var wide := [items[0]] + after;
    assert IndentAfter(items, k) == wide;
    hide Lines, IndentAfter;
    var ls := Lines(items[1..], cut);
    LinesCut(items, cut);
    assert wide[1..] == after;
    LinesCut(wide, cut);
    assert Lines(wide, cut) == [Lines(wide, cut)[0]] + Lines(wide, cut)[1..];
    assert ([ls[0]] + IndentLines(ls[1..], k))[1..] == IndentLines(ls[1..], k);
  }

  /** The whole literal indented by `k` more spaces. */
  function IndentItems(items: seq<Item>, k: nat): seq<Item> {
    Spaces(k) + IndentAfter(items, k)
  }

  lemma LinesIndent(items: seq<Item>, k: nat)
    ensures Lines(IndentItems(items, k), PlainNewline()) == IndentLines(Lines(items, PlainNewline()), k)
  {
    var ls := Lines(items, PlainNewline());
    LinesIndentAfter(items, k);
    LinesPrefix(Spaces(k), IndentAfter(items, k), PlainNewline());
    assert IndentLines(ls, k) == [Spaces(k) + ls[0]] + IndentLines(ls[1..], k);
    assert ([ls[0]] + IndentLines(ls[1..], k))[1..] == IndentLines(ls[1..], k);
  }

  lemma {:induction false} IndentOfIndented(line: seq<Item>, k: nat)
    ensures Indent(Spaces(k) + line) == k + Indent(line)
    ensures Lead(Spaces(k) + line) == k + Lead(line)
    decreases k
  {
    if k == 0 {
      assert Spaces(0) + line == line;
    } else {
      assert (Spaces(k) + line)[1..] == Spaces(k - 1) + line;
      IndentOfIndented(line, k - 1);
    }
  }

  ghost predicate WithinCap(lines: seq<seq<Item>>, k: nat) {
    forall i :: 0 <= i < |lines| ==> |lines[i]| + k <= CAP
  }

  ghost predicate AllBlank(lines: seq<seq<Item>>) {
    forall i :: 0 <= i < |lines| ==> Blank(lines[i])
  }

  lemma {:induction false} CommonIndentIndented(lines: seq<seq<Item>>, k: nat)
    ensures CommonIndent(IndentLines(lines, k))
            == if AllBlank(lines) then CAP else Min(CAP, CommonIndent(lines) + k)
    ensures AllBlank(lines) ==> CommonIndent(lines) == CAP
    decreases |lines|
  {
    if lines != [] {
      var wide := IndentLines(lines, k);
      assert wide[1..] == IndentLines(lines[1..], k);
      assert forall i :: 0 < i < |lines| ==> lines[i] == lines[1..][i - 1];
      CommonIndentIndented(lines[1..], k);
      IndentOfIndented(lines[0], k);
      assert Blank(wide[0]) <==> Blank(lines[0]);
      assert AllBlank(lines) <==> Blank(lines[0]) && AllBlank(lines[1..]);
    }
  }

  lemma {:induction false} BlankLead(line: seq<Item>)
    requires Blank(line)
    ensures Lead(line) == |line|
  {
    if line != [] {
      IndentBound(line);
      BlankLead(line[1..]);
    }
  }

  lemma {:induction false} IndentBound(line: seq<Item>)
    ensures Indent(line) <= |line| && Indent(line) <= Lead(line)
  {
    if line != [] {
      IndentBound(line[1..]);
    }
  }

  /** Of blank lines shorter than the cap only the newlines are left. */
  lemma {:induction false} StripBlankLines(lines: seq<seq<Item>>, k: nat)
    requires AllBlank(lines) && WithinCap(lines, k)
    ensures StripLines(IndentLines(lines, k), CAP) == StripLines(lines, CAP)
    decreases |lines|
  {
    if lines != [] {
      var wide := IndentLines(lines, k);
      assert wide[0] == Spaces(k) + lines[0];
      BlankLead(lines[0]);
      IndentOfIndented(lines[0], k);
      assert StripLine(lines[0], CAP) == [] && StripLine(wide[0], CAP) == [];
      assert wide[1..] == IndentLines(lines[1..], k);
      assert forall i :: 0 < i < |lines| ==> lines[i] == lines[1..][i - 1];
      StripBlankLines(lines[1..], k);
    }
  }

  // ---- the same for the tokens ----

  function IndentText(s: string, k: nat): string {
    if s == "" then ""
    else [s[0]] + (if s[0] == '\n' then seq(k, _ => ' ') else []) + IndentText(s[1..], k)
  }

  function IndentToken(t: Token, k: nat): Token {
    if t.Text? && t.hasIndentation then Text(IndentText(t.s, k), true) else t
  }

  function IndentEach(tokens: seq<Token>, k: nat): seq<Token> {
    seq(|tokens|, i requires 0 <= i < |tokens| => IndentToken(tokens[i], k))
  }

  /** The literal with `k` more spaces at its start and after every newline. */
  function IndentTokens(tokens: seq<Token>, k: nat): seq<Token> {
    [Text(seq(k, _ => ' '), true)] + IndentEach(tokens, k)
  }

  lemma {:induction false} IndentAfterAppend(a: seq<Item>, b: seq<Item>, k: nat)
    ensures IndentAfter(a + b, k) == IndentAfter(a, k) + IndentAfter(b, k)
    decreases |a|
  {
    if a == [] {
      assert a + b == b;
    } else {
      assert (a + b)[1..] == a[1..] + b;
      IndentAfterAppend(a[1..], b, k);
    }
  }

  lemma {:induction false} CharsAppend(a: string, b: string, plain: bool)
    ensures Chars(a + b, plain) == Chars(a, plain) + Chars(b, plain)
  {
  }

  lemma {:induction false} IndentTextChars(s: string, k: nat)
    ensures Chars(IndentText(s, k), true) == IndentAfter(Chars(s, true), k)
    decreases |s|
  {
    if s != "" {
      IndentTextChars(s[1..], k);
      assert Chars(s, true)[1..] == Chars(s[1..], true);
      var mid := if s[0] == '\n' then seq(k, _ => ' ') else [];
      CharsAppend([s[0]] + mid, IndentText(s[1..], k), true);
      CharsAppend([s[0]], mid, true);
      assert Chars([s[0]], true) == [Ch(s[0], true)];
      assert Chars(mid, true) == if s[0] == '\n' then Spaces(k) else [];
    }
  }

  lemma {:induction false} IndentNothing(items: seq<Item>, k: nat)
    requires forall i :: 0 <= i < |items| ==> items[i] != Ch('\n', true)
    ensures IndentAfter(items, k) == items
  {
    if items != [] {
      IndentNothing(items[1..], k);
      assert [items[0]] + [] + items[1..] == items;
    }
  }

  lemma {:induction false} FlatIndentEach(tokens: seq<Token>, k: nat)
    ensures Flat(IndentEach(tokens, k)) == IndentAfter(Flat(tokens), k)
    decreases |tokens|
  {
    if tokens != [] {
      var wide := IndentEach(tokens, k);
      assert wide[1..] == IndentEach(tokens[1..], k);
      FlatIndentEach(tokens[1..], k);
      IndentAfterAppend(FlatOne(tokens[0]), Flat(tokens[1..]), k);
      if tokens[0].Text? && tokens[0].hasIndentation {
        IndentTextChars(tokens[0].s, k);
      } else {
        IndentNothing(FlatOne(tokens[0]), k);
      }
    }
  }

  lemma FlatIndent(tokens: seq<Token>, k: nat)
    ensures Flat(IndentTokens(tokens, k)) == IndentItems(Flat(tokens), k)
  {
    FlatIndentEach(tokens, k);
    var wide := IndentTokens(tokens, k);
    assert wide[1..] == IndentEach(tokens, k);
    assert Chars(seq(k, _ => ' '), true) == Spaces(k);
  }

  // ---- when further indentation makes no difference ----

  /** No line after an escaped newline starts with more than `m` spaces. */
  ghost predicate EscapedLeadWithin(items: seq<Item>, m: nat) {
    forall i :: 0 <= i < |items| && items[i] == Ch('\n', false) ==> Lead(items[i + 1..]) <= m
  }

  lemma EscapedLeadStep(items: seq<Item>, m: nat)
    requires items != []
    ensures EscapedLeadWithin(items, m)
            <==> EscapedLeadWithin(items[1..], m) && (items[0] == Ch('\n', false) ==> Lead(items[1..]) <= m)
  {
    forall i | 0 < i < |items|
      ensures items[i] == items[1..][i - 1] && items[i + 1..] == items[1..][i..]
    {
    }
    if EscapedLeadWithin(items[1..], m) && (items[0] == Ch('\n', false) ==> Lead(items[1..]) <= m) {
      forall i | 0 <= i < |items| && items[i] == Ch('\n', false)
        ensures Lead(items[i + 1..]) <= m
      {
        if i > 0 {
          assert items[1..][i - 1] == Ch('\n', false);
        }
      }
    }
    if EscapedLeadWithin(items, m) {
      forall i | 0 <= i < |items[1..]| && items[1..][i] == Ch('\n', false)
        ensures Lead(items[1..][i + 1..]) <= m
      {
        assert items[i + 1] == Ch('\n', false);
        assert items[i + 2..] == items[1..][i + 1..];
      }
    }
  }

  lemma {:induction false} StripSpaces(k: nat, items: seq<Item>, dropped: nat, m: nat)
    requires dropped + k <= m
    ensures Strip(Spaces(k) + items, true, dropped, m) == Strip(items, true, dropped + k, m)
    decreases k
  {
    if k == 0 {
      assert Spaces(0) + items == items;
    } else {
      assert (Spaces(k) + items)[1..] == Spaces(k - 1) + items;
      StripSpaces(k - 1, items, dropped + 1, m);
    }
  }

  lemma StripStep(items: seq<Item>, atStart: bool, dropped: nat, m: nat)
    requires items != [] && (!atStart ==> dropped == 0)
    ensures var x, rest := items[0], items[1..];
            Strip(items, atStart, dropped, m)
            == if x.Ch? && x.c == '\n' then [AChar('\n')] + Strip(rest, true, 0, m)
               else if atStart && x.Ch? && x.c == ' '
                 then (if dropped >= m then [AChar(' ')] else []) + Strip(rest, true, dropped + 1, m)
               else [ToAtom(x)] + Strip(rest, false, 0, m)
  {
  }

  /** One step of the second pass over the further indented literal. */
  lemma IndentAfterStep(items: seq<Item>, k: nat, atStart: bool, dropped: nat, m: nat)
    requires items != [] && k <= m && (!atStart ==> dropped == 0)
    ensures var x, rest := items[0], IndentAfter(items[1..], k);
            Strip(IndentAfter(items, k), atStart, dropped, m)
            == if x == Ch('\n', true) then [AChar('\n')] + Strip(rest, true, k, m)
               else if x == Ch('\n', false) then [AChar('\n')] + Strip(rest, true, 0, m)
               else if atStart && x.Ch? && x.c == ' '
                 then (if dropped >= m then [AChar(' ')] else []) + Strip(rest, true, dropped + 1, m)
               else [ToAtom(x)] + Strip(rest, false, 0, m)
  {
    var rest := IndentAfter(items[1..], k);
    var wide := IndentAfter(items, k);
    if items[0] == Ch('\n', true) {
      assert wide == [items[0]] + Spaces(k) + rest && wide[1..] == Spaces(k) + rest;
      StripSpaces(k, rest, 0, m);
    } else {
      assert wide == [items[0]] + [] + rest && wide[1..] == rest;
    }
  }

  /** With a larger count already dropped and a larger indentation the second pass keeps no more. */
  lemma {:induction false} IndentedIsNoLonger(items: seq<Item>, k: nat, atStart: bool, d: nat, d': nat, m: nat)
    requires d <= d' <= d + k && (!atStart ==> d == d' == 0)
    ensures |Strip(IndentAfter(items, k), atStart, d', m + k)| <= |Strip(items, atStart, d, m)|
    decreases |items|
  {
    if items != [] {
      IndentAfterStep(items, k, atStart, d', m + k);
      var x, rest := items[0], items[1..];
      if x == Ch('\n', true) {
        IndentedIsNoLonger(rest, k, true, 0, k, m);
      } else if x == Ch('\n', false) {
        IndentedIsNoLonger(rest, k, true, 0, 0, m);
      } else if atStart && x.Ch? && x.c == ' ' {
        IndentedIsNoLonger(rest, k, true, d + 1, d' + 1, m);
      } else {
        IndentedIsNoLonger(rest, k, false, 0, 0, m);
      }
    }
  }

  /** `escaped`: the current line began after an escaped newline, so it was not indented further. */
  ghost predicate SameWhenIndented(items: seq<Item>, k: nat, atStart: bool, escaped: bool, d: nat, m: nat) {
    Strip(IndentAfter(items, k), atStart, if atStart && !escaped then d + k else d, m + k)
    == Strip(items, atStart, d, m)
  }

  ghost predicate SameClaim(items: seq<Item>, k: nat, atStart: bool, escaped: bool, d: nat, m: nat) {
    SameWhenIndented(items, k, atStart, escaped, d, m)
    <==> EscapedLeadWithin(items, m) && (atStart && escaped ==> d + Lead(items) <= m)
  }

  lemma SameNewline(items: seq<Item>, k: nat, atStart: bool, escaped: bool, d: nat, m: nat)
    requires items != [] && items[0].Ch? && items[0].c == '\n'
    requires (!atStart ==> d == 0) && (atStart && escaped ==> d <= m)
    requires SameClaim(items[1..], k, true, !items[0].plain, 0, m)
    ensures SameClaim(items, k, atStart, escaped, d, m)
  {
    hide EscapedLeadWithin, IndentAfter, Strip;
    IndentAfterStep(items, k, atStart, if atStart && !escaped then d + k else d, m + k);
    StripStep(items, atStart, d, m);
    EscapedLeadStep(items, m);
    var rest := items[1..];
    SameTail([AChar('\n')], Strip(IndentAfter(rest, k), true, if items[0].plain then k else 0, m + k),
             Strip(rest, true, 0, m));
  }

  lemma SameSpace(items: seq<Item>, k: nat, escaped: bool, d: nat, m: nat)
    requires items != [] && items[0].Ch? && items[0].c == ' ' && (escaped ==> d < m)
    requires SameClaim(items[1..], k, true, escaped, d + 1, m)
    ensures SameClaim(items, k, true, escaped, d, m)
  {
    hide EscapedLeadWithin, IndentAfter, Strip;
    var d' := if !escaped then d + k else d;
    IndentAfterStep(items, k, true, d', m + k);
    StripStep(items, true, d, m);
    EscapedLeadStep(items, m);
    var rest := items[1..];
    SameTail(if d >= m then [AChar(' ')] else [], Strip(IndentAfter(rest, k), true, d' + 1, m + k),
             Strip(rest, true, d + 1, m));
  }

  /** A space past the indentation: it is kept in the given literal and dropped in the indented one. */
  lemma SpacePastIndent(items: seq<Item>, k: nat, m: nat)
    requires items != [] && items[0].Ch? && items[0].c == ' ' && k > 0
    ensures SameClaim(items, k, true, true, m, m)
  {
    hide EscapedLeadWithin, IndentAfter, Strip;
    IndentAfterStep(items, k, true, m, m + k);
    StripStep(items, true, m, m);
    IndentedIsNoLonger(items[1..], k, true, m + 1, m + 1, m);
  }

  lemma SameOther(items: seq<Item>, k: nat, atStart: bool, escaped: bool, d: nat, m: nat)
    requires items != [] && !(items[0].Ch? && items[0].c == '\n') && !(atStart && items[0].Ch? && items[0].c == ' ')
    requires (!atStart ==> d == 0) && (atStart && escaped ==> d <= m)
    requires SameClaim(items[1..], k, false, escaped, 0, m)
    ensures SameClaim(items, k, atStart, escaped, d, m)
  {
    hide EscapedLeadWithin, IndentAfter, Strip;
    IndentAfterStep(items, k, atStart, if atStart && !escaped then d + k else d, m + k);
    StripStep(items, atStart, d, m);
    EscapedLeadStep(items, m);
    var rest := items[1..];
    SameTail([ToAtom(items[0])], Strip(IndentAfter(rest, k), false, 0, m + k), Strip(rest, false, 0, m));
  }

  lemma {:induction false} SameWhenIndentedIff(items: seq<Item>, k: nat, atStart: bool, escaped: bool, d: nat, m: nat)
    requires k > 0 && (!atStart ==> d == 0) && (atStart && escaped ==> d <= m)
    ensures SameClaim(items, k, atStart, escaped, d, m)
    decreases |items|
  {
    if items != [] {
      hide SameClaim;
      var x, rest := items[0], items[1..];
      if x.Ch? && x.c == '\n' {
        SameWhenIndentedIff(rest, k, true, !x.plain, 0, m);
        SameNewline(items, k, atStart, escaped, d, m);
      } else if atStart && x.Ch? && x.c == ' ' {
        if escaped && d == m {
          SpacePastIndent(items, k, m);
        } else {
          SameWhenIndentedIff(rest, k, true, escaped, d + 1, m);
          SameSpace(items, k, escaped, d, m);
        }
      } else {
        SameWhenIndentedIff(rest, k, false, escaped, 0, m);
        SameOther(items, k, atStart, escaped, d, m);
      }
    }
  }

  lemma SameTail(a: seq<Atom>, b: seq<Atom>, c: seq<Atom>)
    ensures a + b == a + c <==> b == c
  {
    if a + b == a + c {
      assert b == (a + b)[|a|..] && c == (a + c)[|a|..];
    }
  }

  // ---- literals of blank lines only ----

  lemma {:induction false} LinesOfPrefix(a: seq<Item>, b: seq<Item>, cut: Item -> bool)
    ensures var ls, ms := Lines(a, cut), Lines(a + b, cut);
            |ls| <= |ms| && forall i :: 0 <= i < |ls| ==> ls[i] <= ms[i]
    decreases |a|
  {
    if a != [] {
      assert (a + b)[1..] == a[1..] + b;
      LinesOfPrefix(a[1..], b, cut);
      LinesCut(a, cut);
      LinesCut(a + b, cut);
      var ls, ms := Lines(a, cut), Lines(a + b, cut);
      var ls', ms' := Lines(a[1..], cut), Lines(a[1..] + b, cut);
      forall i | 0 <= i < |ls|
        ensures i < |ms| && ls[i] <= ms[i]
      {
        if i > 0 {
          assert ls[i] == ls[1..][i - 1] && ms[i] == ms[1..][i - 1];
          if cut(a[0]) {
            assert ls'[i - 1] <= ms'[i - 1];
          } else {
            assert ls[i] == ls'[i] && ms[i] == ms'[i];
          }
        }
      }
    }
  }

  lemma {:induction false} BlankPrefix(a: seq<Item>, line: seq<Item>)
    requires a <= line && Blank(line)
    ensures Blank(a)
    decreases |a|
  {
    if a != [] {
      IndentBound(line);
      IndentBound(line[1..]);
      BlankPrefix(a[1..], line[1..]);
    }
  }

  lemma LinesOfPrefixBlank(a: seq<Item>, b: seq<Item>, k: nat)
    requires AllBlank(Lines(a + b, PlainNewline())) && WithinCap(Lines(a + b, PlainNewline()), k)
    ensures AllBlank(Lines(a, PlainNewline())) && WithinCap(Lines(a, PlainNewline()), k)
  {
    var ls, ms := Lines(a, PlainNewline()), Lines(a + b, PlainNewline());
    LinesOfPrefix(a, b, PlainNewline());
    forall i | 0 <= i < |ls|
      ensures Blank(ls[i]) && |ls[i]| + k <= CAP
    {
      BlankPrefix(ls[i], ms[i]);
    }
  }

  lemma {:induction false} BlankLineAt(line: seq<Item>, i: nat)
    requires Blank(line) && i < |line|
    ensures line[i] == Ch(' ', true)
    decreases line
  {
    IndentBound(line[1..]);
    if i > 0 {
      BlankLineAt(line[1..], i - 1);
    }
  }

  lemma {:induction false} BlankItems(items: seq<Item>)
    requires AllBlank(Lines(items, PlainNewline()))
    ensures forall i :: 0 <= i < |items| ==> items[i] in {Ch(' ', true), Ch('\n', true)}
    decreases |items|
  {
    if items != [] {
      LinesCut(items, PlainNewline());
      var ls, rest := Lines(items, PlainNewline()), Lines(items[1..], PlainNewline());
      if items[0] == Ch('\n', true) {
        assert forall i :: 0 <= i < |rest| ==> rest[i] == ls[i + 1];
      } else {
        BlankLineAt(ls[0], 0);
        assert rest[0] == ls[0][1..];
        IndentBound(rest[0]);
        forall i | 0 < i < |rest|
          ensures rest[i] == ls[i]
        {
          assert rest[i] == rest[1..][i - 1] && ls[i] == ls[1..][i - 1];
        }
        assert forall i :: 0 <= i < |rest| ==> Blank(rest[i]);
      }
      BlankItems(items[1..]);
      assert forall i :: 0 < i < |items| ==> items[i] == items[1..][i - 1];
    }
  }

  // ---- the whole literal ----

  ghost function Common(tokens: seq<Token>): nat {
    CommonIndent(Lines(Flat(tokens), PlainNewline()))
  }

  /** The literal can be indented by `k` more spaces before the cap on indentations is met. */
  ghost predicate BelowCap(tokens: seq<Token>, k: nat) {
    var ls := Lines(Flat(tokens), PlainNewline());
    if AllBlank(ls) then WithinCap(ls, k) else CommonIndent(ls) + k <= CAP
  }

  lemma CommonWhenIndented(tokens: seq<Token>, k: nat)
    requires BelowCap(tokens, k)
    ensures var blank := AllBlank(Lines(Flat(tokens), PlainNewline()));
            Common(IndentTokens(tokens, k)) == if blank then CAP else Common(tokens) + k
    ensures AllBlank(Lines(Flat(tokens), PlainNewline())) ==> Common(tokens) == CAP
  {
    hide Lines, CommonIndent, Flat, IndentTokens;
    FlatIndent(tokens, k);
    LinesIndent(Flat(tokens), k);
    CommonIndentIndented(Lines(Flat(tokens), PlainNewline()), k);
  }

  lemma SameItemsIff(items: seq<Item>, k: nat, m: nat)
    requires k > 0
    ensures Strip(IndentItems(items, k), true, 0, m + k) == Strip(items, true, 0, m) <==> EscapedLeadWithin(items, m)
  {
    hide EscapedLeadWithin, IndentAfter, Strip;
    StripSpaces(k, IndentAfter(items, k), 0, m + k);
    SameWhenIndentedIff(items, k, true, false, 0, m);
  }

  lemma {:induction false} IndentAfterBlank(items: seq<Item>, k: nat)
    requires forall i :: 0 <= i < |items| ==> items[i] in {Ch(' ', true), Ch('\n', true)}
    ensures NoEscapedNewline(IndentAfter(items, k))
  {
    if items != [] {
      IndentAfterBlank(items[1..], k);
    }
  }

  lemma SameBlankItems(items: seq<Item>, k: nat)
    requires AllBlank(Lines(items, PlainNewline())) && WithinCap(Lines(items, PlainNewline()), k)
    ensures Strip(IndentItems(items, k), true, 0, CAP) == Strip(items, true, 0, CAP)
    ensures EscapedLeadWithin(items, CAP)
  {
    hide StripLines, Lines, IndentAfter, AllBlank, WithinCap, Strip;
    BlankItems(items);
    IndentAfterBlank(items, k);
    LinesAgreeIff(items);
    LinesAgreeIff(IndentItems(items, k));
    LinesIndent(items, k);
    StripBlankLines(Lines(items, PlainNewline()), k);
    StripRemovesIndent(items, CAP);
    StripRemovesIndent(IndentItems(items, k), CAP);
  }

  // ---- the last token ----

  predicate IsSpace(x: Item) {
    x.Ch? && x.c == ' '
  }

  predicate IsNewline(x: Item) {
    x.Ch? && x.c == '\n'
  }

  function BlankTail(items: seq<Item>): (k: nat)
    ensures k <= |items| && (k < |items| ==> !IsSpace(items[|items| - k - 1]))
    ensures forall i :: |items| - k <= i < |items| ==> IsSpace(items[i])
  {
    if items != [] && IsSpace(items[|items| - 1]) then 1 + BlankTail(items[..|items| - 1]) else 0
  }

  /** Without the spaces at the end, if a newline is before them. */
  function TrimItems(items: seq<Item>): seq<Item> {
    var k := BlankTail(items);
    if k < |items| && IsNewline(items[|items| - k - 1]) then items[..|items| - k] else items
  }

  predicate AllSpace(items: seq<Item>) {
    forall i :: 0 <= i < |items| ==> IsSpace(items[i])
  }

  /** `a` is what is before the spaces at the end. */
  predicate EndsAt(a: seq<Item>) {
    a == [] || !IsSpace(a[|a| - 1])
  }

  lemma {:induction false} BlankTailIs(a: seq<Item>, sp: seq<Item>)
    requires EndsAt(a) && AllSpace(sp)
    ensures BlankTail(a + sp) == |sp|
    decreases |sp|
  {
    if sp == [] {
      assert a + sp == a;
    } else {
      assert (a + sp)[..|a + sp| - 1] == a + sp[..|sp| - 1];
      BlankTailIs(a, sp[..|sp| - 1]);
    }
  }

  lemma TrimItemsAt(a: seq<Item>, sp: seq<Item>)
    requires EndsAt(a) && AllSpace(sp)
    ensures TrimItems(a + sp) == if a != [] && IsNewline(a[|a| - 1]) then a else a + sp
  {
    BlankTailIs(a, sp);
    assert (a + sp)[..|a|] == a;
  }

  lemma {:induction false} TrailingSpacesIs(a: seq<Atom>, sp: seq<Atom>)
    requires a == [] || a[|a| - 1] != AChar(' ')
    requires forall i :: 0 <= i < |sp| ==> sp[i] == AChar(' ')
    ensures TrailingSpaces(a + sp) == |sp|
    decreases |sp|
  {
    if sp == [] {
      assert a + sp == a;
    } else {
      assert (a + sp)[..|a + sp| - 1] == a + sp[..|sp| - 1];
      TrailingSpacesIs(a, sp[..|sp| - 1]);
    }
  }

  lemma DropBlankEndAt(a: seq<Atom>, sp: seq<Atom>)
    requires a == [] || a[|a| - 1] != AChar(' ')
    requires forall i :: 0 <= i < |sp| ==> sp[i] == AChar(' ')
    ensures DropBlankEnd(a + sp) == if a != [] && a[|a| - 1] == AChar('\n') then a else a + sp
  {
    TrailingSpacesIs(a, sp);
    assert (a + sp)[..|a|] == a;
  }

  lemma SplitTail(items: seq<Item>) returns (a: seq<Item>, sp: seq<Item>)
    ensures items == a + sp && EndsAt(a) && AllSpace(sp)
  {
    hide BlankTail;
    var k := BlankTail(items);
    a, sp := items[..|items| - k], items[|items| - k..];
  }

  /** Of spaces only spaces are left. */
  lemma {:induction false} StripAllSpace(sp: seq<Item>, atStart: bool, d: nat, m: nat)
    requires AllSpace(sp)
    ensures forall i :: 0 <= i < |Strip(sp, atStart, d, m)| ==> Strip(sp, atStart, d, m)[i] == AChar(' ')
    decreases |sp|
  {
    if sp != [] {
      hide Strip;
      StripUnfold(sp, atStart, d, m);
      var (s, d') := NextState(sp[0], atStart, d);
      StripAllSpace(sp[1..], s, d', m);
    }
  }

  /** An item that is not a space is kept. */
  lemma StripEnds(a: seq<Item>, atStart: bool, d: nat, m: nat)
    requires EndsAt(a)
    ensures var r := Strip(a, atStart, d, m);
            if a == [] then r == [] else r != [] && r[|r| - 1] == ToAtom(a[|a| - 1])
  {
    if a != [] {
      hide Strip, StateAfter;
      var init, last := a[..|a| - 1], a[|a| - 1];
      assert a == init + [last] && [last][1..] == [];
      StripAppend(init, [last], atStart, d, m);
      var (s, d') := StateAfter(init, atStart, d);
      StripUnfold([last], s, d', m);
      StripNothingLeft(m);
    } else {
      StripNothingLeft(m);
    }
  }

  lemma StripNothingLeft(m: nat)
    ensures forall s, d :: Strip([], s, d, m) == []
  {
  }

  /** Dropping a blank last line after stripping is dropping it before. */
  lemma TrimBeforeOrAfter(items: seq<Item>, atStart: bool, d: nat, m: nat)
    ensures DropBlankEnd(Strip(items, atStart, d, m)) == Strip(TrimItems(items), atStart, d, m)
  {
    hide Strip, StateAfter, DropBlankEnd, TrimItems;
    var a, sp := SplitTail(items);
    TrimItemsAt(a, sp);
    StripAppend(a, sp, atStart, d, m);
    var (s, d') := StateAfter(a, atStart, d);
    StripEnds(a, atStart, d, m);
    StripAllSpace(sp, s, d', m);
    DropBlankEndAt(Strip(a, atStart, d, m), Strip(sp, s, d', m));
    if a == [] {
      assert a + sp == sp;
    }
  }

  /** The tokens, flattened, without a blank last line of the last token. */
  ghost function Trimmed(tokens: seq<Token>): seq<Item> {
    if tokens == [] || tokens[|tokens| - 1].Interp? then Flat(tokens)
    else Flat(tokens[..|tokens| - 1]) + TrimItems(FlatOne(tokens[|tokens| - 1]))
  }

  /** The result is what the second pass makes of the trimmed literal. */
  lemma StrippedIs(tokens: seq<Token>, m: nat, result: seq<Atom>)
    ensures Stripped(tokens, m, result) <==> result == Strip(Trimmed(tokens), true, 0, m)
  {
    hide Strip, StateAfter, DropBlankEnd, TrimItems, Flat, FlatOne, StripLines, Lines;
    StripRemovesIndent(Flat(tokens), m);
    if tokens != [] && tokens[|tokens| - 1].Text? {
      var init, last := tokens[..|tokens| - 1], FlatOne(tokens[|tokens| - 1]);
      FlatSnoc(tokens, |tokens| - 1);
      assert tokens[..|tokens|] == tokens;
      StripRemovesIndent(Flat(init), m);
      StripAppend(Flat(init), last, true, 0, m);
      StripAppend(Flat(init), TrimItems(last), true, 0, m);
      var (s, d) := StateAfter(Flat(init), true, 0);
      TrimBeforeOrAfter(last, s, d, m);
      var head, tail := Strip(Flat(init), true, 0, m), Strip(last, s, d, m);
      assert (head + tail)[|head|..] == tail;
    }
  }

  /** Trimming the last token leaves a beginning of the literal and cuts off spaces, after a newline. */
  lemma TrimmedPrefix(tokens: seq<Token>) returns (cut: seq<Item>)
    ensures Flat(tokens) == Trimmed(tokens) + cut && AllSpace(cut)
    ensures cut != [] ==> CutsLine(tokens)
  {
    cut := [];
    if tokens != [] && tokens[|tokens| - 1].Text? {
      hide Flat, TrimItems, FlatOne;
      var init, last := tokens[..|tokens| - 1], FlatOne(tokens[|tokens| - 1]);
      FlatSnoc(tokens, |tokens| - 1);
      assert tokens[..|tokens|] == tokens;
      var a, sp := SplitTail(last);
      TrimItemsAt(a, sp);
      if a != [] && IsNewline(a[|a| - 1]) && sp != [] {
        cut := sp;
        assert Flat(init) + (a + sp) == Flat(init) + a + sp;
        LineIsCut(tokens, a, sp);
      } else {
        assert a + sp == last && (sp == [] ==> a == last);
        assert Flat(init) + last + [] == Flat(init) + last;
      }
    }
  }

  /** A blank last line is cut off: the last token is more than a newline, and what is left ends with
    a newline of that token. */
  ghost predicate CutsLine(tokens: seq<Token>) {
    && tokens != [] && tokens[|tokens| - 1].Text?
    && '\n' in tokens[|tokens| - 1].s && tokens[|tokens| - 1].s != "\n"
    && Trimmed(tokens) != []
    && Trimmed(tokens)[|Trimmed(tokens)| - 1] == Ch('\n', tokens[|tokens| - 1].hasIndentation)
  }

  lemma LineIsCut(tokens: seq<Token>, a: seq<Item>, sp: seq<Item>)
    requires tokens != [] && tokens[|tokens| - 1].Text? && FlatOne(tokens[|tokens| - 1]) == a + sp
    requires TrimItems(a + sp) == a && a != [] && IsNewline(a[|a| - 1]) && sp != []
    ensures CutsLine(tokens)
  {
    hide TrimItems, Flat;
    var last := tokens[|tokens| - 1];
    assert |last.s| == |a + sp| > 1;
    assert (a + sp)[|a| - 1] == a[|a| - 1] == Ch(last.s[|a| - 1], last.hasIndentation);
    assert last.s[|a| - 1] == '\n';
  }

  // ---- the last token of the indented literal ----

  function NewIndent(x: Item, k: nat): seq<Item> {
    if x == Ch('\n', true) then Spaces(k) else []
  }

  lemma IndentOne(x: Item, k: nat)
    ensures IndentAfter([x], k) == [x] + NewIndent(x, k)
  {
    assert [x][1..] == [];
    assert [x] + NewIndent(x, k) + [] == [x] + NewIndent(x, k);
  }

  lemma IndentLast(a: seq<Item>, k: nat)
    requires a != []
    ensures IndentAfter(a, k) == IndentAfter(a[..|a| - 1], k) + [a[|a| - 1]] + NewIndent(a[|a| - 1], k)
  {
    hide IndentAfter, NewIndent;
    var init, last := a[..|a| - 1], a[|a| - 1];
    assert a == init + [last];
    IndentAfterAppend(init, [last], k);
    IndentOne(last, k);
    assert IndentAfter(init, k) + ([last] + NewIndent(last, k)) == IndentAfter(init, k) + [last] + NewIndent(last, k);
  }

  /** Trimming and indenting the last token can change places: the spaces that differ are removed. */
  lemma TrimIndented(items: seq<Item>, k: nat, atStart: bool, d: nat, m: nat)
    requires k <= m && (!atStart ==> d == 0)
    ensures Strip(TrimItems(IndentAfter(items, k)), atStart, d, m)
            == Strip(IndentAfter(TrimItems(items), k), atStart, d, m)
  {
    hide Strip, StateAfter, TrimItems, IndentAfter;
    var a, sp := SplitTail(items);
    TrimItemsAt(a, sp);
    IndentAfterAppend(a, sp, k);
    IndentNothing(sp, k);
    if a == [] {
      assert a + sp == sp;
    } else {
      IndentLast(a, k);
      var b := IndentAfter(a[..|a| - 1], k) + [a[|a| - 1]];
      if a[|a| - 1] == Ch('\n', true) {
        assert b + Spaces(k) + sp == b + (Spaces(k) + sp);
        TrimItemsAt(b, Spaces(k) + sp);
        StripAppend(b, Spaces(k), atStart, d, m);
        StateAfterNewline(b, atStart, d);
        StripSpaces(k, [], 0, m);
        assert Spaces(k) + [] == Spaces(k);
        StripNothingLeft(m);
      } else {
        assert b + [] == b;
        TrimItemsAt(b, sp);
      }
    }
  }

  lemma {:induction false} StateAfterClean(a: seq<Item>, atStart: bool, d: nat)
    requires !atStart ==> d == 0
    ensures !StateAfter(a, atStart, d).0 ==> StateAfter(a, atStart, d).1 == 0
    decreases |a|
  {
    if a != [] {
      var (s, d') := NextState(a[0], atStart, d);
      StateAfterClean(a[1..], s, d');
    }
  }

  lemma StateAfterNewline(a: seq<Item>, atStart: bool, d: nat)
    requires a != [] && IsNewline(a[|a| - 1]) && (!atStart ==> d == 0)
    ensures StateAfter(a, atStart, d) == (true, 0)
  {
    var init, last := a[..|a| - 1], a[|a| - 1];
    assert a == init + [last] && [last][1..] == [];
    StripAppend(init, [last], atStart, d, 0);
    StateAfterClean(init, atStart, d);
  }

  lemma TrimmedIndented(tokens: seq<Token>, k: nat, m: nat)
    requires k <= m
    ensures Strip(Trimmed(IndentTokens(tokens, k)), true, 0, m) == Strip(IndentItems(Trimmed(tokens), k), true, 0, m)
  {
    hide Strip, StateAfter, TrimItems, IndentAfter, Flat, FlatOne;
    var wide := IndentTokens(tokens, k);
    FlatIndent(tokens, k);
    if tokens == [] {
      TrimmedNothing(k);
    } else if tokens[|tokens| - 1].Text? {
      var init, last := tokens[..|tokens| - 1], tokens[|tokens| - 1];
      assert wide[|wide| - 1] == IndentToken(last, k);
      assert wide[..|wide| - 1] == IndentTokens(init, k);
      FlatIndent(init, k);
      FlatIndentOne(last, k);
      var head, tail := IndentItems(Flat(init), k), FlatOne(last);
      IndentAfterAppend(Flat(init), TrimItems(tail), k);
      assert IndentItems(Trimmed(tokens), k) == head + IndentAfter(TrimItems(tail), k);
      StripAppend(head, IndentAfter(TrimItems(tail), k), true, 0, m);
      StripAppend(head, TrimItems(IndentAfter(tail, k)), true, 0, m);
      StateAfterClean(head, true, 0);
      var (s, d) := StateAfter(head, true, 0);
      TrimIndented(tail, k, s, d, m);
    } else {
      assert wide[|wide| - 1] == tokens[|tokens| - 1];
    }
  }

  lemma TrimmedNothing(k: nat)
    ensures Trimmed(IndentTokens([], k)) == IndentItems(Trimmed([]), k)
  {
    var wide := IndentTokens([], k);
    assert wide[..0] == [] && |wide| == 1;
    assert FlatOne(wide[0]) == Spaces(k);
    TrimItemsAt([], Spaces(k));
    assert [] + Spaces(k) == Spaces(k) && Spaces(k) + [] == Spaces(k);
  }

  lemma FlatIndentOne(t: Token, k: nat)
    ensures FlatOne(IndentToken(t, k)) == IndentAfter(FlatOne(t), k)
  {
    if t.Text? && t.hasIndentation {
      IndentTextChars(t.s, k);
    } else {
      IndentNothing(FlatOne(t), k);
    }
  }

  // ---- the result of the indented literal ----

  lemma {:induction false} LeadPrefix(a: seq<Item>, b: seq<Item>)
    ensures Lead(a) <= Lead(a + b)
    ensures !AllSpace(a) ==> Lead(a) == Lead(a + b)
  {
    if a != [] {
      assert (a + b)[1..] == a[1..] + b;
      assert forall i :: 0 < i < |a| ==> a[i] == a[1..][i - 1];
      LeadPrefix(a[1..], b);
    }
  }

  lemma EscapedLeadPrefix(a: seq<Item>, b: seq<Item>, m: nat)
    requires EscapedLeadWithin(a + b, m)
    ensures EscapedLeadWithin(a, m)
  {
    forall i | 0 <= i < |a| && a[i] == Ch('\n', false)
      ensures Lead(a[i + 1..]) <= m
    {
      assert (a + b)[i] == a[i] && (a + b)[i + 1..] == a[i + 1..] + b;
      LeadPrefix(a[i + 1..], b);
    }
  }

  /** Spaces after a plain newline say nothing about the lines after escaped ones. */
  lemma EscapedLeadExtends(a: seq<Item>, b: seq<Item>, m: nat)
    requires EscapedLeadWithin(a, m) && AllSpace(b) && a != [] && a[|a| - 1] == Ch('\n', true)
    ensures EscapedLeadWithin(a + b, m)
  {
    assert forall i :: 0 <= i < |b| ==> (a + b)[|a| + i] == b[i];
    forall i | 0 <= i < |a + b| && (a + b)[i] == Ch('\n', false)
      ensures Lead((a + b)[i + 1..]) <= m
    {
      assert a[i] == Ch('\n', false) && (a + b)[i + 1..] == a[i + 1..] + b;
      var rest := a[i + 1..];
      assert rest[|rest| - 1] == Ch('\n', true);
      LeadPrefix(rest, b);
    }
  }

  /** An escape that stands for a newline stands for nothing else. */
  ghost predicate NewlineEscapesAlone(tokens: seq<Token>) {
    forall i :: 0 <= i < |tokens| && tokens[i].Text? && !tokens[i].hasIndentation && '\n' in tokens[i].s ==>
      tokens[i].s == "\n"
  }

  lemma EscapedLeadOfTrimmed(tokens: seq<Token>, m: nat)
    ensures EscapedLeadWithin(Flat(tokens), m) ==> EscapedLeadWithin(Trimmed(tokens), m)
    ensures NewlineEscapesAlone(tokens) && EscapedLeadWithin(Trimmed(tokens), m) ==> EscapedLeadWithin(Flat(tokens), m)
  {
    var cut := TrimmedPrefix(tokens);
    var items := Trimmed(tokens);
    hide EscapedLeadWithin, Trimmed, Flat;
    if EscapedLeadWithin(Flat(tokens), m) {
      EscapedLeadPrefix(items, cut, m);
    } else if NewlineEscapesAlone(tokens) && EscapedLeadWithin(items, m) {
      if cut == [] {
        assert items + cut == items;
      } else {
        assert tokens[|tokens| - 1].hasIndentation;
        EscapedLeadExtends(items, cut, m);
      }
    }
  }

  /** Indenting every line of a literal by `k` more spaces leaves the same result exactly when no line
    after an escaped newline starts with more spaces than are removed. A blank last line, which is not
    part of the result, does not matter for this; after the escapes that the lexer makes there is none. */
  lemma IndentationIrrelevantIff(tokens: seq<Token>, k: nat, result: seq<Atom>, indented: seq<Atom>)
    requires k > 0 && BelowCap(tokens, k)
    requires Stripped(tokens, Common(tokens), result)
    requires Stripped(IndentTokens(tokens, k), Common(IndentTokens(tokens, k)), indented)
    ensures result == indented <==> EscapedLeadWithin(Trimmed(tokens), Common(tokens))
    ensures NewlineEscapesAlone(tokens) ==> (result == indented <==> EscapedLeadWithin(Flat(tokens), Common(tokens)))
  {
    hide EscapedLeadWithin, Common, IndentTokens, Flat, Trimmed, Stripped, Strip;
    hide Lines, AllBlank, WithinCap, CommonIndent;
    var wide := IndentTokens(tokens, k);
    CommonWhenIndented(tokens, k);
    StrippedIs(tokens, Common(tokens), result);
    StrippedIs(wide, Common(wide), indented);
    var cut := TrimmedPrefix(tokens);
    if AllBlank(Lines(Flat(tokens), PlainNewline())) {
      LinesOfPrefixBlank(Trimmed(tokens), cut, k);
      SameBlankItems(Trimmed(tokens), k);
      CapBound(tokens, k);
    } else {
      SameItemsIff(Trimmed(tokens), k, Common(tokens));
    }
    TrimmedIndented(tokens, k, Common(wide));
    EscapedLeadOfTrimmed(tokens, Common(tokens));
  }

  lemma CapBound(tokens: seq<Token>, k: nat)
    requires WithinCap(Lines(Flat(tokens), PlainNewline()), k)
    ensures k <= CAP
  {
    var ls := Lines(Flat(tokens), PlainNewline());
    assert |ls[0]| + k <= CAP;
  }

  // ---- a literal that changes when it is indented ----

  function Example(): seq<Token> {
    [Text(" a", true), Text("\n", false), Text("  b", true)]
  }

  function ExampleItems(): seq<Item> {
    [Ch(' ', true), Ch('a', true), Ch('\n', false), Ch(' ', true), Ch(' ', true), Ch('b', true)]
  }

  /** ` a`, an escaped newline and `  b` stand for `a`, a newline and ` b`. Indented by one they stand for
    `a`, a newline and `b`. */
  lemma EscapedNewlineCounterexample()
    ensures var tokens := [Text(" a", true), Text("\n", false), Text("  b", true)];
            var wide := IndentTokens(tokens, 1);
            && BelowCap(tokens, 1)
            && Stripped(tokens, Common(tokens), Letters("a\n b"))
            && Stripped(wide, Common(wide), Letters("a\nb"))
  {
    var tokens, items := Example(), ExampleItems();
    ExampleTrimmed();
    ExampleCommon();
    CommonWhenIndented(tokens, 1);
    ExampleStripped();
    hide Common, IndentTokens, Flat, Trimmed, Stripped, Strip, Lines, IndentItems;
    StrippedIs(tokens, 1, Letters("a\n b"));
    StrippedIs(IndentTokens(tokens, 1), 2, Letters("a\nb"));
    TrimmedIndented(tokens, 1, 2);
  }

  lemma ExampleFlat()
    ensures Flat(Example()) == ExampleItems() && Flat(Example()[..2]) == ExampleItems()[..3]
  {
    var tokens := Example();
    FlatStep(tokens, 0);
    FlatStep(tokens, 1);
    FlatStep(tokens, 2);
    assert tokens[0..] == tokens && tokens[3..] == [];
    assert Flat(tokens) == ExampleItems();
    FlatSnoc(tokens, 2);
    assert tokens[..3] == tokens;
    assert FlatOne(tokens[2]) == ExampleItems()[3..];
  }

  lemma ExampleTrimmed()
    ensures Trimmed(Example()) == ExampleItems()
  {
    ExampleFlat();
    hide Flat;
    var last := FlatOne(Example()[2]);
    assert Example()[..|Example()| - 1] == Example()[..2];
    assert last == ExampleItems()[3..];
    TrimItemsAt(last, []);
    assert last + [] == last;
  }

  lemma ExampleCommon()
    ensures Common(Example()) == 1 && BelowCap(Example(), 1)
    ensures !AllBlank(Lines(Flat(Example()), PlainNewline()))
  {
    ExampleFlat();
    hide Flat;
    var items := ExampleItems();
    NoNewline(items);
    var ls := Lines(items, PlainNewline());
    assert items[1..][0] == Ch('a', true);
    assert Indent(items) == 1 && !Blank(ls[0]) && ls[1..] == [];
    assert CommonIndent(ls) == 1;
  }

  lemma ExampleStripped()
    ensures Strip(ExampleItems(), true, 0, 1) == Letters("a\n b")
    ensures Strip(IndentItems(ExampleItems(), 1), true, 0, 2) == Letters("a\nb")
  {
    var items := ExampleItems();
    IndentNothing(items, 1);
    StripSpaces(1, items, 0, 2);
    assert items[1..][1..] == items[2..] && items[2..][1..] == items[3..] && items[3..][1..] == items[4..];
    assert items[4..][1..] == items[5..] && items[5..][1..] == [];
    ExampleSteps(1, 0, [AChar(' ')]);
    ExampleSteps(2, 1, []);
  }

  /** The second pass over the example: the first space is removed, and of the two after the newline as
    many as `m` says. */
  lemma ExampleSteps(m: nat, d: nat, kept: seq<Atom>)
    requires d < m && kept == if m == 1 then [AChar(' ')] else []
    ensures Strip(ExampleItems(), true, d, m) == [AChar('a'), AChar('\n')] + kept + [AChar('b')]
  {
    var items := ExampleItems();
    hide Strip;
    assert items[1..][1..] == items[2..] && items[2..][1..] == items[3..] && items[3..][1..] == items[4..];
    assert items[4..][1..] == items[5..] && items[5..][1..] == [];
    StripStep(items, true, d, m);
    StripStep(items[1..], true, d + 1, m);
    StripStep(items[2..], false, 0, m);
    StripStep(items[3..], true, 0, m);
    StripStep(items[4..], true, 1, m);
    StripStep(items[5..], true, 2, m);
    StripNothingLeft(m);
  }

  lemma {:induction false} NoNewline(items: seq<Item>)
    requires forall i :: 0 <= i < |items| ==> items[i] != Ch('\n', true)
    ensures Lines(items, PlainNewline()) == [items]
  {
    if items != [] {
      NoNewline(items[1..]);
      LinesCut(items, PlainNewline());
      var ls := Lines(items, PlainNewline());
      assert ls == [ls[0]] + ls[1..];
      assert [items[0]] + items[1..] == items;
    }
  }
}
