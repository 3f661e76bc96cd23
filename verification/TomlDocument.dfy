/** Documents as sequences of entries, and how cutting a document at a line end,
    joining two documents, or rewriting values acts on those entries. */
module TomlDocument {
  import opened Wrappers
  import opened Utf8
  import opened TomlGrammar
  import opened TomlLocality

  /** A statement without its offsets: what a reader of the document sees. */
  datatype Entry = Entry(kind: Kind, path: Path, value: Bytes)

  function EntryOf(t: Bytes, st: Stmt): Entry
    requires st.valueStart <= st.valueEnd <= |t|
  {
    Entry(st.kind, st.path, t[st.valueStart..st.valueEnd])
  }

  function Entries(t: Bytes, table: Path): (r: Option<seq<Entry>>)
    decreases |t|
  {
    var a := BlankLen(t);
    if a == |t| then Some([])
    else
      var st :- Statement(t[a..], table);
      var rest :- Entries(t[a + st.lineEnd..], TableAfter(table, st));
      Some([EntryOf(t[a..], st)] + rest)
  }

  /** The table in force after some entries. */
  function LastTable(table: Path, es: seq<Entry>): Path
    decreases |es|
  {
    if es == [] then table
    else LastTable(if es[0].kind == KeyValue then table else es[0].path, es[1..])
  }

  predicate EndsLine(t: Bytes) {
    t == [] || t[|t| - 1] == '\n'
  }

  // ---- the last byte of a value

  lemma {:induction false} BasicEnds(t: Bytes)
    requires BasicBody(t).Some?
    ensures t[BasicBody(t).value.len - 1] == '"'
    decreases |t|
  {
    if t[0] == '\\' {
      var k := Escape(t).value.len;
      BasicEnds(t[k..]);
    } else if t[0] != '"' {
      BasicEnds(t[1..]);
    }
  }

  lemma {:induction false} MultiEnds(t: Bytes, q: Byte, escapes: bool)
    requires MultiBody(t, q, escapes).Some?
    ensures t[MultiBody(t, q, escapes).value - 1] == q
    decreases |t|
  {
    if escapes && t[0] == '\\' {
      MultiEnds(t[2..], q, escapes);
    } else if [q, q, q] <= t {
      assert t[2] == t[..3][2] == q;
    } else {
      MultiEnds(t[1..], q, escapes);
    }
  }

  lemma {:induction false} AfterItemEnds(t: Bytes, i: nat, close: Byte)
    requires 0 < i <= |t| && (close == ']' || close == '}')
    requires AfterItem(t, i, close).Some?
    ensures t[AfterItem(t, i, close).value - 1] == close
    decreases |t| - i, 2
  {
    hide BlankLen, ArrayBody, InlineBody;
    var b := i + BlankLen(t[i..]);
    if t[b] == ',' {
      if close == ']' {
        ArrayEnds(t[b + 1..]);
      } else {
        InlineEnds(t[b + 1..]);
      }
    }
  }

  lemma {:induction false} ArrayEnds(t: Bytes)
    requires ArrayBody(t).Some?
    ensures t[ArrayBody(t).value - 1] == ']'
    decreases |t|, 1
  {
    hide BlankLen, ValueLen, AfterItem;
    var a := BlankLen(t);
    if t[a] != ']' {
      AfterItemEnds(t, a + ValueLen(t[a..]).value, ']');
    }
  }

  lemma {:induction false} InlineEnds(t: Bytes)
    requires InlineBody(t).Some?
    ensures t[InlineBody(t).value - 1] == '}'
    decreases |t|, 1
  {
    hide BlankLen, ValueLen, AfterItem, KeyEquals;
    var a := BlankLen(t);
    if t[a] != '}' {
      var k := KeyEquals(t[a..]).value.len;
      AfterItemEnds(t, a + k + ValueLen(t[a + k..]).value, '}');
    }
  }

  lemma {:induction false} BareRunBytes(t: Bytes, k: nat)
    requires k < BareRun(t)
    ensures !EndsBare(t[k])
  {
    if k > 0 {
      BareRunBytes(t[1..], k - 1);
    }
  }

  lemma ValueEnds(t: Bytes)
    requires ValueLen(t).Some?
    ensures t[ValueLen(t).value - 1] != '\n'
  {
    hide BasicBody, MultiBody, ArrayBody, InlineBody, BareRun, TrimLen;
    if "\"\"\"" <= t {
      MultiEnds(t[3..], '"', true);
    } else if "'''" <= t {
      MultiEnds(t[3..], '\'', false);
    } else if Starts(t, '"') {
      BasicEnds(t[1..]);
    } else if Starts(t, '\'') {
    } else if Starts(t, '[') {
      ArrayEnds(t[1..]);
    } else if Starts(t, '{') {
      InlineEnds(t[1..]);
    } else {
      BareRunBytes(t, ValueLen(t).value - 1);
    }
  }

  // ---- one statement

  /** Every statement ends at a newline or at the end of the text. */
  lemma EndLineEnds(t: Bytes)
    requires EndLine(t).Some?
    ensures EndLine(t).value == |t| || (EndLine(t).value > 0 && t[EndLine(t).value - 1] == '\n')
  {
    var g := GapLen(t);
    if g < |t| {
      assert t[g..][NewlineLen(t[g..]) - 1] == '\n';
    }
  }

  lemma HeaderEnds(t: Bytes, close: nat, kind: Kind)
    requires close <= |t| && Closing(kind) <= t[close..]
    ensures t[close + |Closing(kind)| - 1] == ']'
  {
    assert t[close..][..|Closing(kind)|] == Closing(kind);
    assert t[close..][|Closing(kind)| - 1] == Closing(kind)[|Closing(kind)| - 1];
  }

  /** What comes before a statement's line end is no newline. */
  lemma BareEnds(t: Bytes, table: Path)
    requires Bare(t, table).Some?
    ensures t[Bare(t, table).value.lineEnd - 1] != '\n'
  {
    hide DottedKey, KeyEquals, ValueLen;
    if Starts(t, '[') {
      var kind := if "[[" <= t then ArrayTable else Table;
      HeaderEnds(t, |Closing(kind)| + DottedKey(t[|Closing(kind)|..]).value.len, kind);
    } else {
      ValueEnds(t[KeyEquals(t).value.len..]);
    }
  }

  lemma StatementEnds(t: Bytes, table: Path)
    requires Statement(t, table).Some?
    ensures Statement(t, table).value.lineEnd == |t| || t[Statement(t, table).value.lineEnd - 1] == '\n'
  {
    hide Bare, EndLine;
    EndLineEnds(t[Bare(t, table).value.lineEnd..]);
  }

  /** `u` has the same first `n` bytes, and nothing that could prolong their last line. */
  predicate SameLines(t: Bytes, u: Bytes, n: nat) {
    && n <= |t| && n <= |u| && t[..n] == u[..n]
    && ((n > 0 && t[n - 1] == '\n') || n == |t| == |u|)
  }

  lemma BracketsLocal(t: Bytes, u: Bytes, n: nat)
    requires 2 <= n <= |t| && n <= |u| && t[..n] == u[..n]
    ensures "[[" <= t <==> "[[" <= u
    ensures Starts(t, '[') <==> Starts(u, '[')
  {
    assert t[..2] == t[..n][..2] == u[..n][..2] == u[..2];
    assert t[0] == t[..2][0] && u[0] == u[..2][0];
  }

  lemma InsideSame(t: Bytes, u: Bytes, n: nat, a: nat, m: nat)
    requires n <= |t| && n <= |u| && t[..n] == u[..n] && a + m <= n
    ensures t[a..][..m] == u[a..][..m]
  {
    assert t[a..][..m] == t[..n][a..a + m] == u[..n][a..a + m] == u[a..][..m];
  }

  lemma HeaderLocal(t: Bytes, u: Bytes)
    requires Starts(t, '[') && Header(t).Some?
    requires Header(t).value.lineEnd <= |u| && t[..Header(t).value.lineEnd] == u[..Header(t).value.lineEnd]
    ensures Starts(u, '[') && Header(u) == Header(t)
  {
    hide DottedKey;
    var n := Header(t).value.lineEnd;
    BracketsLocal(t, u, n);
    var kind := if "[[" <= t then ArrayTable else Table;
    var open := |Closing(kind)|;
    var k := DottedKey(t[open..]).value.len;
    InsideAlike(t, u, n, open, k);
    DottedKeyLocal(t[open..], u[open..]);
    InsideSame(t, u, n, open + k, open);
  }

  lemma InsideAlike(t: Bytes, u: Bytes, n: nat, a: nat, k: nat)
    requires n <= |t| && n <= |u| && t[..n] == u[..n] && a + k < n
    ensures Alike(t[a..], u[a..], k)
  {
    assert t[a..][..k] == t[..n][a..a + k] == u[..n][a..a + k] == u[a..][..k];
    assert t[a + k] == t[..n][a + k] == u[..n][a + k] == u[a + k];
  }

  lemma PairLocal(t: Bytes, u: Bytes, table: Path)
    requires Pair(t, table).Some?
    requires KeyEquals(t).value.len <= |u| && t[..KeyEquals(t).value.len] == u[..KeyEquals(t).value.len]
    requires Alike(t[KeyEquals(t).value.len..], u[KeyEquals(t).value.len..], ValueReach(t[KeyEquals(t).value.len..]))
    ensures Pair(u, table) == Pair(t, table)
  {
    hide KeyEquals, ValueLen, SpaceLen;
    var k := KeyEquals(t).value.len;
    KeyEqualsStops(t);
    AlikeAt(t[k..], u[k..], ValueReach(t[k..]), 0);
    KeyEqualsLocal(t, u);
    ValueLocal(t[k..], u[k..]);
  }

  /** A value's reach lies inside its line, or stops where the text does. */
  lemma ReachAlike(t: Bytes, u: Bytes, n: nat, k: nat)
    requires SameLines(t, u, n) && k <= n && ValueLen(t[k..]).Some?
    requires k + ValueLen(t[k..]).value <= n
    requires EndLine(t[k + ValueLen(t[k..]).value..]) == Some(n - k - ValueLen(t[k..]).value)
    ensures k <= |u| && Alike(t[k..], u[k..], ValueReach(t[k..]))
  {
    hide ValueLen, EndLine, SpaceLen;
    var v := t[k..];
    var i := ValueLen(v).value;
    assert v[i..] == t[k + i..];
    var r := ValueReach(v);
    ReachInLine(v[i..]);
    if k + r < n {
      InsideAlike(t, u, n, k, r);
    } else {
      assert v[..r] == t[..n][k..] == u[..n][k..] == u[k..][..r];
      ValueEnds(v);
      assert t[n - 1] == v[r - 1];
      assert r > i ==> v[i..][r - i - 1] == v[r - 1];
    }
  }

  lemma ReachInLine(t: Bytes)
    requires EndLine(t).Some?
    ensures SpaceLen(t) <= EndLine(t).value
    ensures SpaceLen(t) == EndLine(t).value > 0 ==> t[SpaceLen(t) - 1] != '\n'
  {
    if SpaceLen(t) > 0 {
      SpacesAreSpaces(t, SpaceLen(t) - 1);
    }
  }

  lemma BareLocal(t: Bytes, u: Bytes, table: Path)
    requires Statement(t, table).Some? && SameLines(t, u, Statement(t, table).value.lineEnd)
    ensures Bare(u, table) == Bare(t, table)
  {
    hide Header, KeyEquals, ValueLen, EndLine;
    var n := Statement(t, table).value.lineEnd;
    var b := Bare(t, table).value.lineEnd;
    assert t[0] == t[..n][0] == u[..n][0];
    if Starts(t, '[') {
      assert t[..b] == t[..n][..b] == u[..n][..b] == u[..b];
      HeaderLocal(t, u);
    } else {
      var k := KeyEquals(t).value.len;
      assert t[..k] == t[..n][..k] == u[..n][..k] == u[..k];
      ReachAlike(t, u, n, k);
      PairLocal(t, u, table);
    }
  }

  lemma StatementLocal(t: Bytes, u: Bytes, table: Path)
    requires Statement(t, table).Some? && SameLines(t, u, Statement(t, table).value.lineEnd)
    ensures Statement(u, table) == Statement(t, table)
  {
    hide Bare, EndLine;
    var n := Statement(t, table).value.lineEnd;
    var b := Bare(t, table).value.lineEnd;
    BareLocal(t, u, table);
    BareEnds(t, table);
    assert t[b..][..n - b] == t[..n][b..] == u[..n][b..] == u[b..][..n - b];
    EndLineLocal(t[b..], u[b..], n - b);
  }

  lemma WholeAlike(t: Bytes, u: Bytes)
    requires |t| < |u| && u[..|t|] == t && u[|t|] == '\n'
    ensures Alike(t, u, |t|)
  {
    assert t[..|t|] == t;
  }

  lemma BareExtends(t: Bytes, u: Bytes, table: Path)
    requires Bare(t, table).Some?
    requires |t| < |u| && u[..|t|] == t && u[|t|] == '\n'
    ensures Bare(u, table) == Bare(t, table)
  {
    hide Header, KeyEquals, ValueLen, SpaceLen, Alike;
    assert t[0] == u[..|t|][0];
    if Starts(t, '[') {
      var b := Header(t).value.lineEnd;
      assert t[..b] == u[..|t|][..b] == u[..b];
      HeaderLocal(t, u);
    } else {
      var k := KeyEquals(t).value.len;
      assert t[..k] == u[..|t|][..k] == u[..k];
      WholeAlike(t, u);
      AlikeSub(t, u, |t|, k, ValueReach(t[k..]));
      PairLocal(t, u, table);
    }
  }

  /** A statement that ran to the end of the text takes in a newline put there. */
  lemma StatementExtends(t: Bytes, u: Bytes, table: Path)
    requires Statement(t, table).Some? && Statement(t, table).value.lineEnd == |t| && !EndsLine(t)
    requires |t| < |u| && u[..|t|] == t && u[|t|] == '\n'
    ensures Statement(u, table) == Some(Statement(t, table).value.(lineEnd := |t| + 1))
  {
    hide Bare, EndLine;
    var b := Bare(t, table).value.lineEnd;
    BareExtends(t, u, table);
    BareEnds(t, table);
    assert t[b..] == u[..|t|][b..] == u[b..|t|];
    assert u[b..][..|t| - b] == u[b..|t|];
    EndLineExtends(t[b..], u[b..]);
  }

  // ---- documents

  lemma EndsLineDrop(t: Bytes, k: nat)
    requires EndsLine(t) && k <= |t|
    ensures EndsLine(t[k..])
  {
    assert k < |t| ==> t[k..][|t| - k - 1] == t[|t| - 1];
  }

  lemma GapJoin(a: Bytes, b: Bytes)
    requires GapLen(a) < |a|
    ensures GapLen(a + b) == GapLen(a)
  {
    hide GapLen;
    assert Alike(a, a + b, GapLen(a));
    GapLocal(a, a + b);
  }

  lemma NewlineJoin(a: Bytes, b: Bytes)
    requires NewlineLen(a) > 0
    ensures NewlineLen(a + b) == NewlineLen(a)
  {
    var n := NewlineLen(a);
    if "\r\n" <= a {
      assert (a + b)[..2] == a[..2];
    } else {
      assert (a + b)[0] == a[0] == '\n';
      assert !("\r\n" <= a + b) by {
        assert (a + b)[..1][0] == '\n';
      }
    }
  }

  lemma SuffixJoin(a: Bytes, b: Bytes, k: nat)
    requires k <= |a|
    ensures (a + b)[k..] == a[k..] + b && (a + b)[..k] == a[..k]
  {
  }

  /** The first line of blanks that end a line. */
  lemma BlankFirst(a: Bytes) returns (g: nat, nl: nat)
    requires BlankLen(a) == |a| && EndsLine(a) && a != []
    ensures g == GapLen(a) < |a| && nl == NewlineLen(a[g..]) > 0 && g + nl <= |a|
    ensures BlankLen(a[g + nl..]) == |a| - g - nl && EndsLine(a[g + nl..])
  {
    hide GapLen, NewlineLen, BlankLen;
    g := GapLen(a);
    nl := NewlineLen(a[g..]);
    GapHasNoNewline(a);
    BlankParts(a);
    EndsLineDrop(a, g + nl);
  }

  /** Blanks that end a line go on into whatever follows them. */
  lemma {:induction false} BlankJoin(a: Bytes, b: Bytes)
    requires BlankLen(a) == |a| && EndsLine(a)
    ensures BlankLen(a + b) == |a| + BlankLen(b)
    decreases |a|
  {
    hide GapLen, NewlineLen, BlankLen, EndsLine;
    if a == [] {
      assert a + b == b;
    } else {
      var g, nl := BlankFirst(a);
      BlankParts(a + b);
      GapJoin(a, b);
      SuffixJoin(a, b, g);
      NewlineJoin(a[g..], b);
      SuffixJoin(a, b, g + nl);
      BlankJoin(a[g + nl..], b);
    }
  }

  lemma FirstStatement(t: Bytes, u: Bytes, table: Path)
    requires BlankLen(t) < |t| && BlankLen(t) < |u| && Statement(t[BlankLen(t)..], table).Some?
    requires t[..BlankLen(t) + 1] == u[..BlankLen(t) + 1]
    ensures BlankLen(u) == BlankLen(t)
  {
    hide BlankLen, Statement;
    var a := BlankLen(t);
    StatementStart(t[a..], table);
    InsideAlike(t, u[..a + 1], a + 1, 0, a);
    assert t[a] == t[..a + 1][a] == u[..a + 1][a] == u[a];
    assert t[..a] == t[..a + 1][..a] == u[..a + 1][..a] == u[..a];
    BlankLocal(t, u);
  }

  lemma SegmentStart(t: Bytes)
    requires Segment(t).Some?
    ensures t[0] != '\r' && t[0] != BOM[0]
  {
    hide BasicBody, LiteralLen;
    if IsSpace(t[0]) {
    } else {
      assert t[SpaceLen(t)..] == t;
    }
  }

  lemma StatementStart(t: Bytes, table: Path)
    requires Statement(t, table).Some?
    ensures t[0] != '\r' && t[0] != BOM[0]
  {
    hide Segment, Header, ValueLen, EndLine;
    if !Starts(t, '[') {
      SegmentStart(t);
    }
  }

  /** `Entries`, one statement at a time. */
  lemma Unfold(t: Bytes, table: Path, k: nat, st: Stmt, rest: seq<Entry>)
    requires BlankLen(t) == k < |t| && Statement(t[k..], table) == Some(st)
    requires Entries(t[k + st.lineEnd..], TableAfter(table, st)) == Some(rest)
    ensures Entries(t, table) == Some([EntryOf(t[k..], st)] + rest)
  {
    hide BlankLen, Statement;
  }

  lemma Parts(t: Bytes, table: Path) returns (k: nat, st: Stmt, rest: seq<Entry>)
    requires Entries(t, table).Some? && BlankLen(t) < |t|
    ensures k == BlankLen(t) && Statement(t[k..], table) == Some(st)
    ensures Entries(t[k + st.lineEnd..], TableAfter(table, st)) == Some(rest)
    ensures Entries(t, table) == Some([EntryOf(t[k..], st)] + rest)
    ensures LastTable(table, Entries(t, table).value) == LastTable(TableAfter(table, st), rest)
  {
    hide BlankLen, Statement;
    k := BlankLen(t);
    st := Statement(t[k..], table).value;
    rest := Entries(t[k + st.lineEnd..], TableAfter(table, st)).value;
    assert ([EntryOf(t[k..], st)] + rest)[1..] == rest;
  }

  lemma NoEntries(t: Bytes, table: Path)
    requires BlankLen(t) == |t|
    ensures Entries(t, table) == Some([]) && LastTable(table, []) == table
  {
  }

  lemma JoinBlank(a: Bytes, b: Bytes, table: Path)
    requires BlankLen(a + b) == |a| + BlankLen(b)
    ensures Entries(a + b, table) == Entries(b, table)
  {
    hide BlankLen, Statement;
    var k := BlankLen(b);
    assert (a + b)[|a| + k..] == b[k..];
    if k < |b| && Statement(b[k..], table).Some? {
      var n := Statement(b[k..], table).value.lineEnd;
      assert (a + b)[|a| + k + n..] == b[k + n..];
    }
  }

  /** More text after a line that has ended does not change its statement. */
  lemma JoinLine(t: Bytes, b: Bytes, table: Path)
    requires Statement(t, table).Some? && EndsLine(t)
    ensures Statement(t + b, table) == Statement(t, table)
    ensures EntryOf(t + b, Statement(t, table).value) == EntryOf(t, Statement(t, table).value)
  {
    hide Statement;
    var n := Statement(t, table).value.lineEnd;
    StatementEnds(t, table);
    assert t[..n] == (t + b)[..n];
    StatementLocal(t, t + b, table);
  }

  /** Joining two documents at a line end joins their entries. */
  lemma {:induction false} Join(a: Bytes, b: Bytes, table: Path)
    requires Entries(a, table).Some? && EndsLine(a)
    requires Entries(b, LastTable(table, Entries(a, table).value)).Some?
    ensures Entries(a + b, table)
            == Some(Entries(a, table).value + Entries(b, LastTable(table, Entries(a, table).value)).value)
    decreases |a|
  {
    hide BlankLen, Statement, Entries, LastTable;
    if BlankLen(a) == |a| {
      BlankJoin(a, b);
      JoinBlank(a, b, table);
      NoEntries(a, table);
      var eb := Entries(b, table).value;
      assert [] + eb == eb;
    } else {
      var k, st, rest := Parts(a, table);
      var n := k + st.lineEnd;
      assert (a + b)[..k + 1] == a[..k + 1];
      FirstStatement(a, a + b, table);
      assert (a + b)[k..] == a[k..] + b;
      assert (a + b)[n..] == a[n..] + b;
      EndsLineDrop(a, k);
      EndsLineDrop(a, n);
      JoinLine(a[k..], b, table);
      Join(a[n..], b, TableAfter(table, st));
      var eb := Entries(b, LastTable(table, Entries(a, table).value)).value;
      Unfold(a + b, table, k, st, rest + eb);
      assert [EntryOf(a[k..], st)] + (rest + eb) == ([EntryOf(a[k..], st)] + rest) + eb;
    }
  }

  /** A statement, and the same with a newline put after its text. */
  lemma StatementWithNewline(s: Bytes, table: Path, st: Stmt)
    requires Statement(s, table) == Some(st) && !EndsLine(s)
    ensures Statement(s + "\n", table) == Some(if st.lineEnd == |s| then st.(lineEnd := st.lineEnd + 1) else st)
  {
    hide Statement;
    var u := s + "\n";
    StatementEnds(s, table);
    assert u[..|s|] == s;
    if st.lineEnd == |s| {
      StatementExtends(s, u, table);
    } else {
      assert s[..st.lineEnd] == u[..st.lineEnd];
      StatementLocal(s, u, table);
    }
  }

  lemma EntryWithNewline(s: Bytes, st: Stmt)
    requires st.valueStart <= st.valueEnd <= |s|
    ensures EntryOf(s + "\n", st) == EntryOf(s, st)
  {
    assert (s + "\n")[st.valueStart..st.valueEnd] == s[st.valueStart..st.valueEnd];
  }

  lemma BlankWithNewline(t: Bytes, table: Path)
    requires BlankLen(t) < |t| && Statement(t[BlankLen(t)..], table).Some?
    ensures BlankLen(t + "\n") == BlankLen(t)
  {
    hide BlankLen, Statement;
    var u, k := t + "\n", BlankLen(t);
    assert u[..k + 1] == t[..k + 1];
    FirstStatement(t, u, table);
  }

  lemma UnfinishedDrop(t: Bytes, k: nat)
    requires k < |t| && !EndsLine(t)
    ensures !EndsLine(t[k..])
  {
    assert t[k..][|t| - k - 1] == t[|t| - 1];
  }

  /** An entry does not depend on where its line ends. */
  lemma LineEndElsewhere(t: Bytes, st: Stmt)
    requires st.valueStart <= st.valueEnd <= |t|
    ensures EntryOf(t, st.(lineEnd := st.lineEnd + 1)) == EntryOf(t, st)
  {
  }

  /** A final newline changes no entry. */
  lemma {:induction false} AddNewline(t: Bytes, table: Path)
    requires Entries(t, table).Some? && !EndsLine(t)
    ensures Entries(t + "\n", table) == Entries(t, table)
    decreases |t|
  {
    hide BlankLen, Statement, Entries, EntryOf, EndsLine;
    var u := t + "\n";
    if BlankLen(t) == |t| {
      BlankNewline(t);
      NoEntries(t, table);
      NoEntries(u, table);
    } else {
      var k, st, rest := Parts(t, table);
      var n := k + st.lineEnd;
      UnfinishedDrop(t, k);
      BlankWithNewline(t, table);
      assert u[k..] == t[k..] + "\n" && n <= |t|;
      StatementWithNewline(t[k..], table, st);
      EntryWithNewline(t[k..], st);
      if n == |t| {
        assert u[n + 1..] == [] == t[n..];
        Unfold(u, table, k, st.(lineEnd := st.lineEnd + 1), rest);
        LineEndElsewhere(u[k..], st);
      } else {
        assert u[n..] == t[n..] + "\n";
        UnfinishedDrop(t, n);
        AddNewline(t[n..], TableAfter(table, st));
        Unfold(u, table, k, st, rest);
      }
    }
  }

  lemma WholeGap(t: Bytes)
    ensures GapLen(t + "\n") == GapLen(t)
  {
    hide GapLen;
    assert Alike(t, t + "\n", GapLen(t));
    GapLocal(t, t + "\n");
  }

  lemma OneNewline()
    ensures NewlineLen("\n") == 1 && BlankLen([]) == 0
  {
  }

  lemma {:induction false} BlankNewline(t: Bytes)
    requires BlankLen(t) == |t|
    ensures BlankLen(t + "\n") == |t| + 1
    decreases |t|
  {
    hide GapLen, NewlineLen, BlankLen;
    var u := t + "\n";
    var g := GapLen(t);
    var nl := NewlineLen(t[g..]);
    BlankParts(t);
    BlankParts(u);
    WholeGap(t);
    assert u[g..] == t[g..] + "\n";
    if nl == 0 {
      OneNewline();
      assert u[g..] == "\n" && u[g + 1..] == [];
    } else {
      NewlineJoin(t[g..], "\n");
      assert u[g + nl..] == t[g + nl..] + "\n";
      BlankNewline(t[g + nl..]);
    }
  }

  /** Where the `h`-th statement's line ends. */
  function CutAt(t: Bytes, table: Path, h: nat): (n: nat)
    ensures n <= |t|
    decreases |t|
  {
    var k := BlankLen(t);
    if k == |t| || Statement(t[k..], table).None? then 0
    else
      var st := Statement(t[k..], table).value;
      var n := k + st.lineEnd;
      if h == 0 then n else n + CutAt(t[n..], TableAfter(table, st), h - 1)
  }

  lemma CutOne(t: Bytes, table: Path, h: nat, k: nat, st: Stmt) returns (n: nat)
    requires BlankLen(t) == k < |t| && Statement(t[k..], table) == Some(st)
    ensures n == CutAt(t, table, h)
            == k + st.lineEnd + (if h == 0 then 0 else CutAt(t[k + st.lineEnd..], TableAfter(table, st), h - 1))
  {
    hide BlankLen, Statement;
    n := CutAt(t, table, h);
  }

  lemma LastTableCons(table: Path, t: Bytes, st: Stmt, es: seq<Entry>)
    requires st.valueStart <= st.valueEnd <= |t|
    ensures LastTable(table, [EntryOf(t, st)] + es) == LastTable(TableAfter(table, st), es)
  {
    assert ([EntryOf(t, st)] + es)[1..] == es;
  }

  lemma Slices<T>(e: T, rest: seq<T>, h: nat)
    requires h <= |rest|
    ensures ([e] + rest)[..h + 1] == [e] + rest[..h]
    ensures ([e] + rest)[h + 1..] == rest[h..]
  {
  }

  lemma StatementPrefix(t: Bytes, m: nat, table: Path)
    requires Statement(t, table).Some? && Statement(t, table).value.lineEnd <= m <= |t|
    ensures Statement(t[..m], table) == Statement(t, table)
    ensures EntryOf(t[..m], Statement(t, table).value) == EntryOf(t, Statement(t, table).value)
    ensures Statement(t, table).value.lineEnd == |t| || t[Statement(t, table).value.lineEnd - 1] == '\n'
  {
    hide Statement;
    var st := Statement(t, table).value;
    StatementEnds(t, table);
    assert t[..m][..st.lineEnd] == t[..st.lineEnd];
    assert SameLines(t, t[..m], st.lineEnd);
    hide SameLines;
    StatementLocal(t, t[..m], table);
    assert t[..m][st.valueStart..st.valueEnd] == t[st.valueStart..st.valueEnd];
  }

  /** Cutting later leaves the first statement as it was. */
  lemma FirstKept(t: Bytes, table: Path, k: nat, st: Stmt, n: nat)
    requires BlankLen(t) == k < |t| && Statement(t[k..], table) == Some(st) && k + st.lineEnd <= n <= |t|
    ensures BlankLen(t[..n]) == k && Statement(t[..n][k..], table) == Some(st)
    ensures EntryOf(t[..n][k..], st) == EntryOf(t[k..], st)
    ensures k + st.lineEnd == |t| || t[k + st.lineEnd - 1] == '\n'
  {
    hide BlankLen, Statement, EntryOf;
    assert t[..n][..k + 1] == t[..k + 1];
    FirstStatement(t, t[..n], table);
    assert t[..n][k..] == t[k..][..n - k];
    StatementPrefix(t[k..], n - k, table);
  }

  /** Cutting a document after its `h`-th statement cuts its entries there. */
  lemma {:induction false} Cut(t: Bytes, table: Path, h: nat)
    requires Entries(t, table).Some? && h < |Entries(t, table).value|
    ensures var n, es := CutAt(t, table, h), Entries(t, table).value;
            && Entries(t[..n], table) == Some(es[..h + 1])
            && Entries(t[n..], LastTable(table, es[..h + 1])) == Some(es[h + 1..])
            && 0 < n && (n < |t| ==> t[n - 1] == '\n')
    decreases |t|
  {
    hide BlankLen, Statement, Entries, LastTable, EntryOf, TableAfter, CutAt;
    if BlankLen(t) == |t| {
      NoEntries(t, table);
    } else {
      var k, st, rest := Parts(t, table);
      var m := k + st.lineEnd;
      var n := CutOne(t, table, h, k, st);
      FirstKept(t, table, k, st, n);
      Slices(EntryOf(t[k..], st), rest, h);
      LastTableCons(table, t[k..], st, rest[..h]);
      if h == 0 {
        assert t[..n][m..] == [];
        NoEntries([], TableAfter(table, st));
        Unfold(t[..n], table, k, st, []);
      } else {
        Cut(t[m..], TableAfter(table, st), h - 1);
        assert t[..n][m..] == t[m..][..n - m];
        Unfold(t[..n], table, k, st, rest[..h]);
        assert t[n..] == t[m..][n - m..];
      }
    }
  }
}
