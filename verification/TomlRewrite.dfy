/** Rewriting, in every key/value pair at one path, just the bytes of the value. */
module TomlRewrite {
  import opened Wrappers
  import opened Utf8
  import opened TomlGrammar
  import opened TomlLocality
  import opened TomlDocument

  /** A level that needs no escaping between double quotes. */
  predicate PlainLevel(level: Bytes) {
    forall i | 0 <= i < |level| :: level[i] != '"' && level[i] != '\\' && level[i] != '\n'
  }

  function Quoted(level: Bytes): Bytes {
    "\"" + level + "\""
  }

  /** `t` with every value at `key` replaced by `q` and all other bytes kept. */
  function Rewritten(t: Bytes, table: Path, key: Path, q: Bytes): Bytes
    decreases |t|
  {
    var k := BlankLen(t);
    if k == |t| || Statement(t[k..], table).None? then t
    else
      var st := Statement(t[k..], table).value;
      t[..k] + LineWith(t[k..], st, key, q) + Rewritten(t[k + st.lineEnd..], TableAfter(table, st), key, q)
  }

  /** One statement's text, with its value replaced when it is at `key`. */
  function LineWith(t: Bytes, st: Stmt, key: Path, q: Bytes): Bytes
    requires st.valueStart <= st.valueEnd <= st.lineEnd <= |t|
  {
    if st.kind == KeyValue && st.path == key
    then t[..st.valueStart] + q + t[st.valueEnd..st.lineEnd]
    else t[..st.lineEnd]
  }

  function AtLevel(e: Entry, key: Path, q: Bytes): Entry {
    if e.kind == KeyValue && e.path == key then Entry(KeyValue, key, q) else e
  }

  function AllAtLevel(es: seq<Entry>, key: Path, q: Bytes): (r: seq<Entry>)
    ensures |r| == |es| && forall i | 0 <= i < |es| :: r[i] == AtLevel(es[i], key, q)
  {
    if es == [] then [] else [AtLevel(es[0], key, q)] + AllAtLevel(es[1..], key, q)
  }

  // ---- one value

  lemma {:induction false} PlainBody(level: Bytes, rest: Bytes)
    requires PlainLevel(level)
    ensures BasicBody(level + "\"" + rest) == Some(Token(level, |level| + 1))
  {
    var t := level + "\"" + rest;
    if level == [] {
      assert t[0] == '"';
    } else {
      assert t[0] == level[0];
      assert t[1..] == level[1..] + "\"" + rest;
      PlainBody(level[1..], rest);
      assert [level[0]] + level[1..] == level;
    }
  }

  lemma Triple(t: Bytes)
    ensures "\"\"\"" <= t <==> |t| >= 3 && t[0] == '"' && t[1] == '"' && t[2] == '"'
  {
    var q: Bytes := "\"\"\"";
    if |t| >= 3 && t[0] == '"' && t[1] == '"' && t[2] == '"' {
      assert t[..3] == q;
    }
    assert q <= t ==> t[0] == q[0] && t[1] == q[1] && t[2] == q[2];
  }

  /** A quoted level is a whole value, unless a further quote follows it directly. */
  lemma QuotedValue(level: Bytes, rest: Bytes)
    requires PlainLevel(level) && !Starts(rest, '"')
    ensures ValueLen(Quoted(level) + rest) == Some(|Quoted(level)|)
  {
    var t := Quoted(level) + rest;
    assert t[1..] == level + "\"" + rest;
    PlainBody(level, rest);
    Triple(t);
    if level == [] {
      assert t[2..] == rest;
    } else {
      assert t[1] == level[0];
    }
    assert t[0] == '"';
  }

  lemma EndLineStart(t: Bytes)
    requires EndLine(t).Some?
    ensures !Starts(t, '"')
  {
  }

  /** Replacing a pair's value by a quoted level moves its end and nothing else. */
  lemma ReplaceValue(t: Bytes, u: Bytes, table: Path, level: Bytes, rest: Bytes)
    requires Statement(t, table).Some? && Statement(t, table).value.kind == KeyValue && PlainLevel(level)
    requires var st := Statement(t, table).value;
             && u == t[..st.valueStart] + Quoted(level) + t[st.valueEnd..st.lineEnd] + rest
             && (st.lineEnd == |t| ==> rest == [] || t[st.lineEnd - 1] == '\n')
    ensures var st, d := Statement(t, table).value, |Quoted(level)|;
            Statement(u, table)
                == Some(st.(valueEnd := st.valueStart + d, lineEnd := st.valueStart + d + st.lineEnd - st.valueEnd))
  {
    hide KeyEquals, ValueLen, EndLine;
    var st := Statement(t, table).value;
    var k, v, q := st.valueStart, st.valueEnd, Quoted(level);
    assert t[..k] == u[..k];
    assert t[0] == t[..k][0] == u[..k][0];
    assert u[k] == q[0];
    KeyEqualsLocal(t, u);
    var w := t[v..st.lineEnd] + rest;
    assert u[k..] == q + w;
    EndLineStart(t[v..]);
    ReplaceTail(t, st, rest, table);
    QuotedValue(level, w);
    assert u[k..][|q|..] == (q + w)[|q|..] == w;
    assert u[k + |q|..] == u[k..][|q|..];
  }

  lemma ReplaceTail(t: Bytes, st: Stmt, rest: Bytes, table: Path)
    requires Statement(t, table) == Some(st) && st.kind == KeyValue
    requires st.lineEnd == |t| ==> rest == [] || t[st.lineEnd - 1] == '\n'
    ensures EndLine(t[st.valueEnd..st.lineEnd] + rest) == Some(st.lineEnd - st.valueEnd)
    ensures !Starts(t[st.valueEnd..st.lineEnd] + rest, '"')
  {
    hide Bare, EndLine;
    var v, n := st.valueEnd, st.lineEnd;
    var a, w := t[v..], t[v..n] + rest;
    BareEnds(t, table);
    StatementEnds(t, table);
    assert a[..n - v] == t[v..n] == w[..n - v];
    assert n - v > 0 ==> a[n - v - 1] == t[n - 1];
    EndLineLocal(a, w, n - v);
    EndLineStart(w);
  }

  // ---- whole documents

  lemma RewrittenLine(t: Bytes, table: Path, st: Stmt, key: Path, level: Bytes, rest: Bytes) returns (st': Stmt)
    requires Statement(t, table) == Some(st) && PlainLevel(level)
    requires st.lineEnd == |t| ==> rest == [] || t[st.lineEnd - 1] == '\n'
    ensures var u := LineWith(t, st, key, Quoted(level)) + rest;
            && Statement(u, table) == Some(st') && st'.lineEnd == |u| - |rest|
            && u[0] == t[0] && TableAfter(table, st') == TableAfter(table, st)
            && EntryOf(u, st') == AtLevel(EntryOf(t, st), key, Quoted(level))
  {
    hide Statement;
    var q := Quoted(level);
    var line := LineWith(t, st, key, q);
    var u := line + rest;
    StatementEnds(t, table);
    if st.kind == KeyValue && st.path == key {
      ReplaceValue(t, u, table, level, rest);
      st' := Statement(u, table).value;
      assert u[st'.valueStart..st'.valueEnd] == q;
    } else {
      st' := st;
      assert u[..st.lineEnd] == t[..st.lineEnd];
      SameFirst(t, u, st, rest, table);
      assert u[st.valueStart..st.valueEnd] == u[..st.lineEnd][st.valueStart..st.valueEnd]
          == t[..st.lineEnd][st.valueStart..st.valueEnd] == t[st.valueStart..st.valueEnd];
    }
  }

  lemma SameFirst(t: Bytes, u: Bytes, st: Stmt, rest: Bytes, table: Path)
    requires Statement(t, table) == Some(st) && u == t[..st.lineEnd] + rest
    requires st.lineEnd == |t| ==> rest == [] || t[st.lineEnd - 1] == '\n'
    ensures Statement(u, table) == Some(st)
  {
    hide Statement;
    StatementEnds(t, table);
    assert u[..st.lineEnd] == t[..st.lineEnd];
    StatementLocal(t, u, table);
  }

  /** `Rewritten`, one statement at a time. */
  lemma RewrittenStep(t: Bytes, table: Path, key: Path, q: Bytes, k: nat, st: Stmt)
    requires BlankLen(t) == k < |t| && Statement(t[k..], table) == Some(st)
    ensures Rewritten(t, table, key, q)
         == t[..k] + LineWith(t[k..], st, key, q) + Rewritten(t[k + st.lineEnd..], TableAfter(table, st), key, q)
  {
    hide BlankLen, Statement;
  }

  /** A rewritten document parses to the same entries, with the level at `key`. */
  lemma {:induction false} RewrittenEntries(t: Bytes, table: Path, key: Path, level: Bytes)
    requires Entries(t, table).Some? && PlainLevel(level)
    ensures Entries(Rewritten(t, table, key, Quoted(level)), table)
            == Some(AllAtLevel(Entries(t, table).value, key, Quoted(level)))
    decreases |t|
  {
    hide BlankLen, Statement, Entries, EntryOf, LineWith, TableAfter, AtLevel;
    var q := Quoted(level);
    if BlankLen(t) == |t| {
      NoEntries(t, table);
    } else {
      var k, st, rest := Parts(t, table);
      var n := k + st.lineEnd;
      var next := TableAfter(table, st);
      var tail := Rewritten(t[n..], next, key, q);
      RewrittenEntries(t[n..], next, key, level);
      RewrittenEmpty(next, key, q);
      var st' := RewrittenLine(t[k..], table, st, key, level, tail);
      var u := t[..k] + LineWith(t[k..], st, key, q) + tail;
      RewrittenStep(t, table, key, q, k, st);
      assert u[k..] == LineWith(t[k..], st, key, q) + tail;
      assert u[..k + 1] == t[..k + 1];
      FirstStatement(t, u, table);
      assert u[k + st'.lineEnd..] == tail;
      Unfold(u, table, k, st', AllAtLevel(rest, key, q));
      assert ([EntryOf(t[k..], st)] + rest)[1..] == rest;
    }
  }

  lemma RewrittenEmpty(table: Path, key: Path, q: Bytes)
    ensures Rewritten([], table, key, q) == []
  {
  }

  /** Where every value at `key` already is `q`, rewriting changes no byte. */
  lemma {:induction false} RewrittenSame(t: Bytes, table: Path, key: Path, q: Bytes)
    requires Entries(t, table).Some?
    requires AllAtLevel(Entries(t, table).value, key, q) == Entries(t, table).value
    ensures Rewritten(t, table, key, q) == t
    decreases |t|
  {
    hide BlankLen, Statement, Entries, TableAfter;
    if BlankLen(t) < |t| {
      var k, st, rest := Parts(t, table);
      var e := EntryOf(t[k..], st);
      assert ([e] + rest)[1..] == rest;
      assert AtLevel(e, key, q) == ([e] + rest)[0] == e;
      RewrittenSame(t[k + st.lineEnd..], TableAfter(table, st), key, q);
      RewrittenStep(t, table, key, q, k, st);
      var u := t[k..];
      assert LineWith(u, st, key, q) == u[..st.lineEnd] by {
        assert u[..st.lineEnd] == u[..st.valueStart] + u[st.valueStart..st.valueEnd] + u[st.valueEnd..st.lineEnd];
      }
      assert t == t[..k] + u[..st.lineEnd] + t[k + st.lineEnd..];
    }
  }

  /** The last of two rewrites decides. */
  lemma {:induction false} RewrittenTwice(t: Bytes, table: Path, key: Path, level: Bytes, q: Bytes)
    requires Entries(t, table).Some? && PlainLevel(level)
    ensures Rewritten(Rewritten(t, table, key, Quoted(level)), table, key, q) == Rewritten(t, table, key, q)
    decreases |t|
  {
    hide BlankLen, Statement, Entries, TableAfter, LineWith, EntryOf, AtLevel;
    var p := Quoted(level);
    if BlankLen(t) < |t| {
      var k, st, rest := Parts(t, table);
      var n, next := k + st.lineEnd, TableAfter(table, st);
      var tail := Rewritten(t[n..], next, key, p);
      RewrittenTwice(t[n..], next, key, level, q);
      RewrittenEmpty(next, key, p);
      RewrittenStep(t, table, key, p, k, st);
      RewrittenStep(t, table, key, q, k, st);
      var st' := RewrittenLine(t[k..], table, st, key, level, tail);
      var line := LineWith(t[k..], st, key, p);
      var u := t[..k] + line + tail;
      assert u[..k + 1] == t[..k + 1];
      FirstStatement(t, u, table);
      assert u[k..] == line + tail;
      assert u[k + st'.lineEnd..] == tail;
      RewrittenStep(u, table, key, q, k, st');
      LineTwice(t[k..], table, st, key, level, tail, q);
      assert u[..k] == t[..k];
    }
  }

  lemma LineTwice(t: Bytes, table: Path, st: Stmt, key: Path, level: Bytes, rest: Bytes, q: Bytes)
    requires Statement(t, table) == Some(st) && PlainLevel(level)
    requires st.lineEnd == |t| ==> rest == [] || t[st.lineEnd - 1] == '\n'
    requires var u := LineWith(t, st, key, Quoted(level)) + rest;
             Statement(u, table).Some? && Statement(u, table).value.lineEnd == |u| - |rest|
    ensures var u := LineWith(t, st, key, Quoted(level)) + rest;
            LineWith(u, Statement(u, table).value, key, q) == LineWith(t, st, key, q)
  {
    hide Statement;
    var p := Quoted(level);
    var u := LineWith(t, st, key, p) + rest;
    StatementEnds(t, table);
    if st.kind == KeyValue && st.path == key {
      ReplaceValue(t, u, table, level, rest);
      var st' := Statement(u, table).value;
      assert u[..st'.valueStart] == t[..st.valueStart];
      assert u[st'.valueEnd..st'.lineEnd] == t[st.valueEnd..st.lineEnd];
    } else {
      SameFirst(t, u, st, rest, table);
      assert u[..st.lineEnd] == t[..st.lineEnd];
    }
  }

  /** Rewriting two joined documents rewrites each. */
  lemma {:induction false} RewrittenJoin(a: Bytes, b: Bytes, table: Path, key: Path, q: Bytes)
    requires Entries(a, table).Some? && EndsLine(a)
    ensures Rewritten(a + b, table, key, q)
         == Rewritten(a, table, key, q) + Rewritten(b, LastTable(table, Entries(a, table).value), key, q)
    decreases |a|
  {
    hide BlankLen, Statement, Entries, TableAfter, LineWith, EntryOf, LastTable, Rewritten;
    if BlankLen(a) == |a| {
      NoEntries(a, table);
      BlankJoin(a, b);
      RewrittenBlank(a, b, table, key, q);
    } else {
      var k, st, rest := Parts(a, table);
      var n, next := k + st.lineEnd, TableAfter(table, st);
      assert (a + b)[..k + 1] == a[..k + 1];
      FirstStatement(a, a + b, table);
      assert (a + b)[k..] == a[k..] + b;
      assert (a + b)[n..] == a[n..] + b;
      assert (a + b)[..k] == a[..k];
      EndsLineDrop(a, k);
      EndsLineDrop(a, n);
      JoinLine(a[k..], b, table);
      RewrittenStep(a, table, key, q, k, st);
      RewrittenStep(a + b, table, key, q, k, st);
      RewrittenJoin(a[n..], b, next, key, q);
      LineJoin(a[k..], b, st, key, q);
    }
  }

  lemma LineJoin(t: Bytes, b: Bytes, st: Stmt, key: Path, q: Bytes)
    requires st.valueStart <= st.valueEnd <= st.lineEnd <= |t|
    ensures LineWith(t + b, st, key, q) == LineWith(t, st, key, q)
  {
    assert (t + b)[..st.lineEnd] == t[..st.lineEnd];
    assert (t + b)[..st.valueStart] == t[..st.valueStart];
    assert (t + b)[st.valueEnd..st.lineEnd] == t[st.valueEnd..st.lineEnd];
  }

  lemma Regroup(a: Bytes, b: Bytes, c: Bytes, d: Bytes)
    ensures (a + b) + c + d == a + (b + c + d)
  {
  }

  lemma RewrittenBlank(a: Bytes, b: Bytes, table: Path, key: Path, q: Bytes)
    requires BlankLen(a) == |a| && BlankLen(a + b) == |a| + BlankLen(b)
    ensures Rewritten(a + b, table, key, q) == Rewritten(a, table, key, q) + Rewritten(b, table, key, q)
  {
    hide BlankLen, Statement, LineWith, TableAfter;
    var k := BlankLen(b);
    assert Rewritten(a, table, key, q) == a;
    assert (a + b)[|a| + k..] == b[k..];
    if k < |b| && Statement(b[k..], table).Some? {
      var st := Statement(b[k..], table).value;
      hide Rewritten;
      RewrittenStep(b, table, key, q, k, st);
      RewrittenStep(a + b, table, key, q, |a| + k, st);
      assert (a + b)[|a| + k + st.lineEnd..] == b[k + st.lineEnd..];
      assert (a + b)[..|a| + k] == a + b[..k];
      Regroup(a, b[..k], LineWith(b[k..], st, key, q), Rewritten(b[k + st.lineEnd..], TableAfter(table, st), key, q));
    }
  }

  // ---- offsets

  /** Statements follow one another: each line ends before the next value starts. */
  predicate Ordered(stmts: seq<Stmt>, from: nat, to: nat) {
    if stmts == [] then from <= to
    else
      && from < stmts[0].lineEnd
      && (stmts[0].kind == KeyValue ==> from < stmts[0].valueStart < stmts[0].valueEnd <= stmts[0].lineEnd)
      && Ordered(stmts[1..], stmts[0].lineEnd, to)
  }

  predicate Views(doc: Bytes, stmts: seq<Stmt>, es: seq<Entry>) {
    if stmts == [] then es == []
    else
      && es != [] && stmts[0].valueStart <= stmts[0].valueEnd <= |doc|
      && es[0] == EntryOf(doc, stmts[0])
      && Views(doc, stmts[1..], es[1..])
  }

  lemma OneView(doc: Bytes, at: nat, st: Stmt, rest: seq<Stmt>, es: seq<Entry>)
    requires at <= |doc| && st.valueStart <= st.valueEnd <= st.lineEnd <= |doc| - at && 0 < st.lineEnd
    requires st.kind == KeyValue ==> 0 < st.valueStart < st.valueEnd
    requires st.kind != KeyValue ==> st.valueEnd == 0
    requires Ordered(rest, at + st.lineEnd, |doc|) && Views(doc, rest, es)
    ensures Views(doc, [Moved(st, at)] + rest, [EntryOf(doc[at..], st)] + es)
    ensures forall from | 0 <= from <= at :: Ordered([Moved(st, at)] + rest, from, |doc|)
  {
    var s, e := Moved(st, at), EntryOf(doc[at..], st);
    assert ([s] + rest)[1..] == rest && ([e] + es)[1..] == es;
    assert doc[at..][st.valueStart..st.valueEnd] == doc[at + st.valueStart..at + st.valueEnd];
  }

  /** The scanner's offsets are in range, in order and disjoint, and its
      statements carry exactly the entries' kinds, paths and value bytes. */
  lemma {:induction false} StatementsAreEntries(doc: Bytes, at: nat, table: Path)
    requires at <= |doc|
    ensures var r, es := StatementsFrom(doc[at..], table, at), Entries(doc[at..], table);
            && r.Some? == es.Some?
            && (r.Some? ==> Ordered(r.value, at, |doc|) && Views(doc, r.value, es.value))
    decreases |doc| - at
  {
    hide BlankLen, Statement, Ordered, Views, EntryOf, Moved, TableAfter;
    var t := doc[at..];
    var k := BlankLen(t);
    if k == |t| {
      NoViews(doc, at);
    } else if Statement(t[k..], table).Some? {
      var st := Statement(t[k..], table).value;
      var n := k + st.lineEnd;
      assert doc[at + n..] == t[n..];
      assert t[k..] == doc[at + k..];
      StatementsAreEntries(doc, at + n, TableAfter(table, st));
      if Entries(t, table).Some? {
        var rest := StatementsFrom(doc[at + n..], TableAfter(table, st), at + n).value;
        var es := Entries(t[n..], TableAfter(table, st)).value;
        OneView(doc, at + k, st, rest, es);
      }
    }
  }

  lemma NoViews(doc: Bytes, at: nat)
    requires at <= |doc|
    ensures Ordered([], at, |doc|) && Views(doc, [], [])
  {
  }
}
