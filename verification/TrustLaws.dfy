/** The laws of the trust editor: what a successful edit leaves behind, what it
    leaves alone, and what a second edit does. */
module TrustLaws {
  import opened Wrappers
  import opened Utf8
  import opened TomlGrammar
  import opened TomlDocument
  import opened TomlRewrite
  import opened ProjectTrust
  import opened TrustText

  // ---- white space

  lemma SpaceDrop(t: Bytes)
    requires AllSpace(t) && t != [] && (IsSpace(t[0]) || t[0] == '\n' || t[0] == '\r')
    ensures AllSpace(t[1..])
  {
  }

  lemma {:induction false} SpacesDrop(t: Bytes)
    requires AllSpace(t)
    ensures AllSpace(t[SpaceLen(t)..])
  {
    hide AllSpace;
    if SpaceLen(t) > 0 {
      SpaceDrop(t);
      SpacesDrop(t[1..]);
      assert t[SpaceLen(t)..] == t[1..][SpaceLen(t[1..])..];
    } else {
      assert t[0..] == t;
    }
  }

  lemma NoComment(t: Bytes)
    requires AllSpace(t)
    ensures !Starts(t, '#')
  {
  }

  lemma GapDrop(t: Bytes)
    requires AllSpace(t)
    ensures AllSpace(t[GapLen(t)..])
  {
    hide AllSpace, SpaceLen;
    SpacesDrop(t);
    NoComment(t[SpaceLen(t)..]);
  }

  lemma NewlineDrop(t: Bytes)
    requires AllSpace(t)
    ensures AllSpace(t[NewlineLen(t)..])
  {
    hide AllSpace;
    var nl := NewlineLen(t);
    if nl == 0 {
      assert t[0..] == t;
    } else {
      SpaceDrop(t);
      if nl == 2 {
        assert t[1] == t[..2][1];
        SpaceDrop(t[1..]);
        assert t[1..][1..] == t[2..];
      }
    }
  }

  lemma {:induction false} BlanksDrop(t: Bytes)
    requires AllSpace(t)
    ensures AllSpace(t[BlankLen(t)..])
    decreases |t|
  {
    hide AllSpace, GapLen;
    var g := GapLen(t);
    var nl := NewlineLen(t[g..]);
    GapDrop(t);
    NewlineDrop(t[g..]);
    if nl > 0 {
      assert t[g..][nl..] == t[g + nl..];
      BlanksDrop(t[g + nl..]);
      assert t[g + nl..][BlankLen(t[g + nl..])..] == t[BlankLen(t)..];
    }
  }

  lemma NoKey(t: Bytes)
    requires AllSpace(t)
    ensures SimpleKey(t).None? && !Starts(t, '[')
  {
  }

  lemma NoStatement(t: Bytes, table: Path)
    requires AllSpace(t)
    ensures Statement(t, table).None?
  {
    hide AllSpace, SimpleKey, SpaceLen;
    SpacesDrop(t);
    NoKey(t[SpaceLen(t)..]);
    NoKey(t);
    assert KeyEquals(t).None?;
  }

  /** White space that parses at all holds no statement. */
  lemma AllSpaceIsBlank(t: Bytes, table: Path)
    requires AllSpace(t) && Entries(t, table).Some?
    ensures BlankLen(t) == |t|
  {
    hide AllSpace, BlankLen, Statement;
    BlanksDrop(t);
    NoStatement(t[BlankLen(t)..], table);
  }

  lemma MarkBytes(t: Bytes)
    ensures BOM <= t ==> t != [] && t[0] == BOM[0] && DecodeRune(t) == Decoded(0xFEFF, 3)
  {
    if BOM <= t {
      assert t[0] == t[..3][0] && t[1] == t[..3][1] && t[2] == t[..3][2];
    }
  }

  lemma AllSpaceStart(t: Bytes)
    requires AllSpace(t)
    ensures Start(t) == 0
  {
    hide DecodeRune;
    MarkBytes(t);
  }

  // ---- where the text starts

  lemma FirstByte(t: Bytes, table: Path)
    requires Entries(t, table).Some? && t != []
    ensures t[0] != BOM[0]
  {
    hide Statement;
    if BlankLen(t) == 0 {
      assert t[0..] == t;
      StatementStart(t, table);
    }
  }

  /** Text that keeps a document's mark and its parseable beginning starts where it did. */
  lemma StartKept(config: Bytes, t: Bytes, table: Path)
    requires Entries(t, table).Some?
    ensures Start(config[..Start(config)] + t) == Start(config)
    ensures (config[..Start(config)] + t)[Start(config)..] == t
  {
    var k := Start(config);
    var out := config[..k] + t;
    if k == 0 {
      assert out == t;
      MarkBytes(t);
      if t != [] {
        FirstByte(t, table);
      }
    } else {
      assert out[..3] == config[..3] == BOM;
    }
  }

  // ---- one edit, as entries

  function TrustEntry(path: Bytes, level: Bytes): Entry {
    Entry(KeyValue, TrustKey(path), Quoted(level))
  }

  /** The entries a successful edit leaves, from the entries it found. */
  function After(es: seq<Entry>, path: Bytes, level: Bytes): seq<Entry> {
    var h := HeaderIndex(es, path);
    if HasTrust(es, path) then AllAtLevel(es, TrustKey(path), Quoted(level))
    else if h < |es| then es[..h + 1] + [TrustEntry(path, level)] + es[h + 1..]
    else es + [Entry(Table, ProjectTable(Sanitized(path)), [])] + [TrustEntry(Sanitized(path), level)]
  }

  lemma {:induction false} LastHeader(table: Path, es: seq<Entry>, h: nat)
    requires h < |es| && es[h].kind != KeyValue
    ensures LastTable(table, es[..h + 1]) == es[h].path
    decreases h
  {
    var next := if es[0].kind == KeyValue then table else es[0].path;
    assert es[..h + 1][1..] == es[1..][..h];
    if h > 0 {
      LastHeader(next, es[1..], h - 1);
    }
  }

  lemma TrustKeyOf(path: Bytes)
    ensures ProjectTable(path) + ["trust_level"] == TrustKey(path)
  {
  }

  /** Text put after other text, on a line of its own. */
  function OnNewLine(a: Bytes, b: Bytes): Bytes {
    if EndsLine(a) then a + b else a + "\n" + b
  }

  lemma JoinOnNewLine(a: Bytes, b: Bytes, ea: seq<Entry>, eb: seq<Entry>)
    requires Entries(a, []) == Some(ea) && Entries(b, LastTable([], ea)) == Some(eb)
    ensures Entries(OnNewLine(a, b), []) == Some(ea + eb)
  {
    hide Entries, LastTable;
    if EndsLine(a) {
      Join(a, b, []);
    } else {
      AddNewline(a, []);
      Join(a + "\n", b, []);
    }
  }

  lemma LineEnds(level: Bytes)
    ensures EndsLine(ProjectTrust.TrustLine(level))
  {
  }

  /** Inserting the trust line after the header's line. */
  lemma InsertedEntries(t: Bytes, h: nat, path: Bytes, level: Bytes)
    requires Entries(t, []).Some? && PlainLevel(level)
    requires h < |Entries(t, []).value| && Heads(Entries(t, []).value[h], path)
    ensures var c, es := CutAt(t, [], h), Entries(t, []).value;
            Entries(t[..c] + Inserted(t[..c], level) + t[c..], [])
                == Some(es[..h + 1] + [TrustEntry(path, level)] + es[h + 1..])
  {
    hide Entries, CutAt, LastTable, ProjectTrust.TrustLine, Quoted;
    var es, c := Entries(t, []).value, CutAt(t, [], h);
    var a, line, b := t[..c], ProjectTrust.TrustLine(level), t[c..];
    var table := ProjectTable(path);
    Cut(t, [], h);
    LastHeader([], es, h);
    TrustLineEntry(level, table);
    TrustKeyOf(path);
    OneMore(table, TrustEntry(path, level));
    LineEnds(level);
    Join(line, b, table);
    var added := [TrustEntry(path, level)] + es[h + 1..];
    assert Entries(line + b, table) == Some(added);
    JoinOnNewLine(a, line + b, es[..h + 1], added);
    assert OnNewLine(a, line + b) == a + Inserted(a, level) + b;
    assert es[..h + 1] + added == es[..h + 1] + [TrustEntry(path, level)] + es[h + 1..];
  }

  lemma OneMore(table: Path, e: Entry)
    requires e.kind == KeyValue
    ensures LastTable(table, [e]) == table
  {
    assert [e][1..] == [];
  }

  lemma TableEntries(path: Bytes, level: Bytes, table: Path)
    requires PlainLevel(level)
    ensures Entries(HeaderLine(path) + ProjectTrust.TrustLine(level), table)
         == Some([Entry(Table, ProjectTable(Sanitized(path)), [])] + [TrustEntry(Sanitized(path), level)])
  {
    hide Entries;
    var p := Sanitized(path);
    var e := Entry(Table, ProjectTable(p), []);
    HeaderLineEntry(path, table);
    assert [e][1..] == [];
    assert LastTable(table, [e]) == ProjectTable(p);
    TrustLineEntry(level, ProjectTable(p));
    TrustKeyOf(p);
    assert EndsLine(HeaderLine(path));
    Join(HeaderLine(path), ProjectTrust.TrustLine(level), table);
  }

  lemma BlankLine(t: Bytes, table: Path)
    ensures Entries("\n" + t, table) == Entries(t, table)
  {
    hide Entries;
    assert "\n"[0..] == "\n" && "\n"[1..] == "";
    assert BlankLen("") == 0;
    assert BlankLen("\n") == 1;
    NoEntries("\n", table);
    BlankJoin("\n", t);
    JoinBlank("\n", t, table);
  }

  /** Appending the table at the end, after one newline or two. */
  lemma AppendedEntries(t: Bytes, path: Bytes, level: Bytes, u: Bytes)
    requires Entries(t, []).Some? && PlainLevel(level)
    requires var table := HeaderLine(path) + ProjectTrust.TrustLine(level);
             u == t + "\n" + "\n" + table || (EndsLine(t) && u == t + "\n" + table)
    ensures Entries(u, [])
         == Some(Entries(t, []).value + [Entry(Table, ProjectTable(Sanitized(path)), [])]
             + [TrustEntry(Sanitized(path), level)])
  {
    hide Entries, LastTable, EndsLine, HeaderLine, Sanitized;
    var es := Entries(t, []).value;
    var last := LastTable([], es);
    var table := HeaderLine(path) + ProjectTrust.TrustLine(level);
    TableEntries(path, level, last);
    BlankLine(table, last);
    BlankLine("\n" + table, last);
    if EndsLine(t) {
      Join(t, "\n" + table, []);
      Join(t, "\n" + ("\n" + table), []);
      assert t + ("\n" + table) == t + "\n" + table;
      assert t + ("\n" + ("\n" + table)) == t + "\n" + "\n" + table;
    } else {
      AddNewline(t, []);
      NowEnds(t);
      Join(t + "\n", "\n" + table, []);
      assert (t + "\n") + ("\n" + table) == t + "\n" + "\n" + table;
    }
    var two := [Entry(Table, ProjectTable(Sanitized(path)), [])] + [TrustEntry(Sanitized(path), level)];
    assert es + two == es + [Entry(Table, ProjectTable(Sanitized(path)), [])] + [TrustEntry(Sanitized(path), level)];
  }

  lemma NowEnds(t: Bytes)
    ensures EndsLine(t + "\n")
  {
  }

  /** A successful edit parses again, to exactly the entries `After` describes. */
  lemma EditedDocument(config: Bytes, path: Bytes, level: Bytes)
    requires PlainLevel(level) && SetTrust(config, path, level).Edited?
    ensures Document(config).Some?
    ensures Document(SetTrust(config, path, level).config) == Some(After(Document(config).value, path, level))
  {
    hide Entries, Rewritten, Appended, Inserted, AllAtLevel, CutAt;
    var es := Document(config).value;
    var k, h := Start(config), HeaderIndex(es, path);
    var t := config[k..];
    if HasTrust(es, path) {
      RewrittenEntries(t, [], TrustKey(path), level);
      StartKept(config, Rewritten(t, [], TrustKey(path), Quoted(level)), []);
    } else if h < |es| {
      InsertedEntries(t, h, path, level);
      var c := CutAt(t, [], h);
      var u := t[..c] + Inserted(t[..c], level) + t[c..];
      StartKept(config, u, []);
      Cut(t, [], h);
      InsertedText(config, h, level);
    } else {
      AppendedDocument(config, path, level);
    }
  }

  lemma SameInserted(a: Bytes, b: Bytes, level: Bytes)
    requires a != [] && b != [] && a[|a| - 1] == b[|b| - 1]
    ensures Inserted(a, level) == Inserted(b, level)
  {
  }

  lemma InsertedText(config: Bytes, h: nat, level: Bytes)
    requires 0 < CutAt(config[Start(config)..], [], h)
    ensures var k, n := Start(config), LineEnd(config, h);
            var t, c := config[k..], CutAt(config[k..], [], h);
            config[..n] + Inserted(config[..n], level) + config[n..]
                == config[..k] + (t[..c] + Inserted(t[..c], level) + t[c..])
  {
    hide CutAt, Start, Inserted;
    var k, n := Start(config), LineEnd(config, h);
    var t, c := config[k..], CutAt(config[k..], [], h);
    assert config[..n] == config[..k] + t[..c];
    assert config[n..] == t[c..];
    assert config[..n][n - 1] == t[..c][c - 1];
    SameInserted(config[..n], t[..c], level);
  }

  lemma AppendedDocument(config: Bytes, path: Bytes, level: Bytes)
    requires PlainLevel(level) && Document(config).Some?
    ensures Start(Appended(config, path, level)) == Start(config)
    ensures Document(Appended(config, path, level))
         == Some(Document(config).value + [Entry(Table, ProjectTable(Sanitized(path)), [])]
             + [TrustEntry(Sanitized(path), level)])
  {
    hide Entries, AllSpace, Sanitized, HeaderLine;
    var es, k := Document(config).value, Start(config);
    var t := config[k..];
    var table := HeaderLine(path) + ProjectTrust.TrustLine(level);
    if AllSpace(config) {
      AllSpaceStart(config);
      assert t == config;
      AllSpaceIsBlank(config, []);
      NoEntries(config, []);
      TableEntries(path, level, []);
      assert config[..0] + table == table;
      StartKept(config, table, []);
      var two := [Entry(Table, ProjectTable(Sanitized(path)), [])] + [TrustEntry(Sanitized(path), level)];
      assert es + [Entry(Table, ProjectTable(Sanitized(path)), [])] + [TrustEntry(Sanitized(path), level)] == two;
    } else {
      assert config == config[..k] + t;
      var u := if EndsLine(config) then t + "\n" + table else t + "\n" + "\n" + table;
      if EndsLine(config) {
        EndsLineDrop(config, k);
      }
      AppendedEntries(t, path, level, u);
      StartKept(config, u, []);
      assert Appended(config, path, level) == config[..k] + u;
    }
  }
}
