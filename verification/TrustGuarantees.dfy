/** The guarantees the trust editor gives its callers: put-get, frame, put-put,
    and the fold over every spelling of a project's path. */
module TrustGuarantees {
  import opened Wrappers
  import opened Utf8
  import opened TomlGrammar
  import opened TomlDocument
  import opened TomlRewrite
  import opened ProjectTrust
  import opened TrustText
  import opened TrustLaws

  /** Whether the edit will leave a value under the path it was given: it finds
      one, or finds the table's header, or can write the path so that it reads back. */
  predicate Reaches(es: seq<Entry>, path: Bytes) {
    HasTrust(es, path) || HeaderIndex(es, path) < |es| || ValidUtf8(path)
  }

  predicate AllAt(es: seq<Entry>, path: Bytes, level: Bytes) {
    forall e <- es :: Trusts(e, path) ==> e.value == Quoted(level)
  }

  lemma AtLevelMember(es: seq<Entry>, key: Path, q: Bytes, e: Entry)
    requires e in AllAtLevel(es, key, q)
    ensures exists e0 <- es :: e == AtLevel(e0, key, q)
  {
    var i :| 0 <= i < |es| && AllAtLevel(es, key, q)[i] == e;
    assert es[i] in es;
  }

  lemma AtLevelOf(es: seq<Entry>, key: Path, q: Bytes, e: Entry)
    requires e in es
    ensures AtLevel(e, key, q) in AllAtLevel(es, key, q)
  {
    var i :| 0 <= i < |es| && es[i] == e;
    assert AllAtLevel(es, key, q)[i] == AtLevel(e, key, q);
  }

  lemma InsertedMember(es: seq<Entry>, h: nat, x: Entry, e: Entry)
    requires h < |es| && e in es[..h + 1] + [x] + es[h + 1..]
    ensures e == x || e in es
  {
  }

  /** Every entry after an edit was there before, up to its value, or was added. */
  lemma AfterMember(es: seq<Entry>, path: Bytes, level: Bytes, e: Entry)
    requires e in After(es, path, level)
    ensures (exists e0 <- es ::
               && e0.kind == e.kind && e0.path == e.path
               && (Trusts(e, path) && HasTrust(es, path) ==> e.value == Quoted(level))
               && (!Trusts(e, path) ==> e == e0))
         || (e == TrustEntry(path, level) && !HasTrust(es, path) && HeaderIndex(es, path) < |es|)
         || (!HasTrust(es, path) && HeaderIndex(es, path) == |es|
             && (e == Entry(Table, ProjectTable(Sanitized(path)), []) || e == TrustEntry(Sanitized(path), level)))
  {
    var h := HeaderIndex(es, path);
    if HasTrust(es, path) {
      hide HasTrust, HeaderIndex, Sanitized;
      AtLevelMember(es, TrustKey(path), Quoted(level), e);
    } else if h < |es| {
      InsertedMember(es, h, TrustEntry(path, level), e);
      hide HasTrust, HeaderIndex, Sanitized;
    } else {
      hide HasTrust, HeaderIndex, Sanitized;
    }
  }

  lemma SameKey(p: Bytes, q: Bytes)
    ensures TrustKey(p) == TrustKey(q) <==> p == q
    ensures ProjectTable(p) == ProjectTable(q) <==> p == q
  {
    assert TrustKey(p)[1] == p && TrustKey(q)[1] == q;
    assert ProjectTable(p)[1] == p && ProjectTable(q)[1] == q;
  }

  /** After a successful edit the document parses, every value under the path is
      the level, and there is one exactly when the edit reaches the path. */
  lemma PutGet(config: Bytes, path: Bytes, level: Bytes)
    requires PlainLevel(level) && SetTrust(config, path, level).Edited?
    ensures Document(config).Some? && Document(SetTrust(config, path, level).config).Some?
    ensures var out := Document(SetTrust(config, path, level).config).value;
            && AllAt(out, path, level)
            && (HasTrust(out, path) <==> Reaches(Document(config).value, path))
  {
    EditedDocument(config, path, level);
    hide SetTrust, Document;
    var es := Document(config).value;
    AfterGet(es, path, level);
  }

  lemma AfterGet(es: seq<Entry>, path: Bytes, level: Bytes)
    ensures AllAt(After(es, path, level), path, level)
    ensures HasTrust(After(es, path, level), path) <==> Reaches(es, path)
  {
    hide Sanitized, HeaderIndex;
    var out := After(es, path, level);
    SanitizedIsIdentity(path);
    SameKey(path, Sanitized(path));
    forall e <- out | Trusts(e, path) ensures e.value == Quoted(level) {
      AfterMember(es, path, level, e);
    }
    if HasTrust(es, path) {
      var e :| e in es && Trusts(e, path);
      AtLevelOf(es, TrustKey(path), Quoted(level), e);
      assert Trusts(AtLevel(e, TrustKey(path), Quoted(level)), path);
    } else if HeaderIndex(es, path) < |es| {
      assert Trusts(TrustEntry(path, level), path);
    } else {
      assert TrustEntry(Sanitized(path), level) in out;
    }
  }

  // ---- frame

  /** The entries that are not a value of this project's trust key. */
  function Others(es: seq<Entry>, path: Bytes): seq<Entry> {
    if es == [] then []
    else (if Trusts(es[0], path) then [] else [es[0]]) + Others(es[1..], path)
  }

  lemma {:induction false} OthersJoin(a: seq<Entry>, b: seq<Entry>, path: Bytes)
    ensures Others(a + b, path) == Others(a, path) + Others(b, path)
  {
    if a == [] {
      assert a + b == b;
    } else {
      assert (a + b)[1..] == a[1..] + b;
      OthersJoin(a[1..], b, path);
    }
  }

  lemma {:induction false} OthersAtLevel(es: seq<Entry>, path: Bytes, q: Bytes)
    ensures Others(AllAtLevel(es, TrustKey(path), q), path) == Others(es, path)
  {
    if es != [] {
      assert AllAtLevel(es, TrustKey(path), q)[1..] == AllAtLevel(es[1..], TrustKey(path), q);
      OthersAtLevel(es[1..], path, q);
    }
  }

  /** What an edit adds besides values under the given path: a table appended for
      it, whose trust value lies elsewhere if the path could not be written. */
  function Added(es: seq<Entry>, path: Bytes, level: Bytes): seq<Entry> {
    if HasTrust(es, path) || HeaderIndex(es, path) < |es| then []
    else
      [Entry(Table, ProjectTable(Sanitized(path)), [])]
      + (if ValidUtf8(path) then [] else [TrustEntry(Sanitized(path), level)])
  }

  /** Every other entry keeps its kind, path, value and place; what is added comes last. */
  lemma Frame(config: Bytes, path: Bytes, level: Bytes)
    requires PlainLevel(level) && SetTrust(config, path, level).Edited?
    ensures Document(config).Some? && Document(SetTrust(config, path, level).config).Some?
    ensures var es, out := Document(config).value, Document(SetTrust(config, path, level).config).value;
            Others(out, path) == Others(es, path) + Added(es, path, level)
  {
    EditedDocument(config, path, level);
    hide SetTrust, Document;
    AfterOthers(Document(config).value, path, level);
  }

  lemma AfterOthers(es: seq<Entry>, path: Bytes, level: Bytes)
    ensures Others(After(es, path, level), path) == Others(es, path) + Added(es, path, level)
  {
    hide Sanitized, HeaderIndex, HasTrust;
    var h := HeaderIndex(es, path);
    var t := TrustEntry(path, level);
    if HasTrust(es, path) {
      OthersAtLevel(es, path, Quoted(level));
    } else if h < |es| {
      OthersJoin(es[..h + 1] + [t], es[h + 1..], path);
      OthersJoin(es[..h + 1], [t], path);
      OthersJoin(es[..h + 1], es[h + 1..], path);
      assert es[..h + 1] + es[h + 1..] == es;
      assert Others([t], path) == [] by { assert [t][1..] == []; }
    } else {
      var p := Sanitized(path);
      var e, s := Entry(Table, ProjectTable(p), []), TrustEntry(p, level);
      OthersJoin(es + [e], [s], path);
      OthersJoin(es, [e], path);
      SanitizedIsIdentity(path);
      SameKey(path, p);
      assert [e][1..] == [] && [s][1..] == [];
      assert Others([e], path) == [e];
      assert Others([s], path) == if ValidUtf8(path) then [] else [s];
    }
  }

  // ---- put-put

  lemma {:induction false} NoObjection(es: seq<Entry>, path: Bytes)
    ensures FirstObjection(es, path).None? <==> forall e <- es :: Objection(e, path).None?
  {
    if es != [] {
      NoObjection(es[1..], path);
      assert es == [es[0]] + es[1..];
    }
  }

  /** Editing for one path never makes the document uneditable for another. */
  lemma AfterEditable(es: seq<Entry>, path: Bytes, level: Bytes, other: Bytes)
    requires FirstObjection(es, other).None?
    ensures FirstObjection(After(es, path, level), other).None?
  {
    hide HasTrust, HeaderIndex, Sanitized, After;
    NoObjection(es, other);
    NoObjection(After(es, path, level), other);
    forall e <- After(es, path, level) ensures Objection(e, other).None? {
      AfterMember(es, path, level, e);
      AddedFine(path, level, other);
      AddedFine(Sanitized(path), level, other);
    }
  }

  lemma AddedFine(path: Bytes, level: Bytes, other: Bytes)
    ensures Objection(TrustEntry(path, level), other).None?
    ensures Objection(Entry(Table, ProjectTable(path), []), other).None?
  {
    assert TrustKey(other) <= TrustKey(path) ==> TrustKey(other) == TrustKey(path)[..3] == TrustKey(path);
  }

  lemma {:induction false} NothingAtLevel(es: seq<Entry>, path: Bytes, q: Bytes)
    requires forall e <- es :: Trusts(e, path) ==> e.value == q
    ensures AllAtLevel(es, TrustKey(path), q) == es
  {
    forall i | 0 <= i < |es| ensures AllAtLevel(es, TrustKey(path), q)[i] == es[i] {
      assert es[i] in es;
    }
  }

  lemma LineRewritten(table: Path, path: Bytes, level: Bytes, level': Bytes)
    requires PlainLevel(level) && PlainLevel(level') && table == ProjectTable(path)
    ensures Rewritten(ProjectTrust.TrustLine(level), table, TrustKey(path), Quoted(level'))
            == ProjectTrust.TrustLine(level')
  {
    hide KeyEquals, ValueLen, EndLine, BlankLen;
    var t, q := ProjectTrust.TrustLine(level), Quoted(level);
    TrustLineEntry(level, table);
    var st := TrustLineStatement(level, table);
    assert t[0..] == t;
    TrustKeyOf(path);
    RewrittenStep(t, table, TrustKey(path), Quoted(level'), 0, st);
    assert t[..0] == [] && t[..14] == "trust_level = ";
    assert t[st.lineEnd..] == [];
    RewrittenEmpty(table, TrustKey(path), Quoted(level'));
    assert t[st.valueEnd..st.lineEnd] == "\n";
  }

  /** Text without a value at `key` is left alone by a rewrite. */
  lemma Untouched(t: Bytes, table: Path, es: seq<Entry>, path: Bytes, q: Bytes)
    requires Entries(t, table) == Some(es) && !HasTrust(es, path)
    ensures Rewritten(t, table, TrustKey(path), q) == t
  {
    hide Entries, Rewritten;
    NothingAtLevel(es, path, q);
    RewrittenSame(t, table, TrustKey(path), q);
  }

  /** The trust line and what follows it, rewritten. */
  lemma RewrittenTail(b: Bytes, es: seq<Entry>, path: Bytes, level: Bytes, level': Bytes)
    requires Entries(b, ProjectTable(path)) == Some(es) && !HasTrust(es, path) && PlainLevel(level)
    requires PlainLevel(level')
    ensures Rewritten(ProjectTrust.TrustLine(level) + b, ProjectTable(path), TrustKey(path), Quoted(level'))
         == ProjectTrust.TrustLine(level') + b
  {
    hide Entries, LastTable, Rewritten, ProjectTrust.TrustLine;
    var key, q, table := TrustKey(path), Quoted(level'), ProjectTable(path);
    Untouched(b, table, es, path, q);
    TrustLineEntry(level, table);
    TrustKeyOf(path);
    OneMore(table, TrustEntry(path, level));
    LineRewritten(table, path, level, level');
    LineEnds(level);
    RewrittenJoin(ProjectTrust.TrustLine(level), b, table, key, q);
  }

  lemma RewrittenOnNewLine(a: Bytes, b: Bytes, ea: seq<Entry>, path: Bytes, q: Bytes)
    requires Entries(a, []) == Some(ea) && !HasTrust(ea, path)
    ensures Rewritten(OnNewLine(a, b), [], TrustKey(path), q)
         == OnNewLine(a, Rewritten(b, LastTable([], ea), TrustKey(path), q))
  {
    hide Entries, LastTable, Rewritten, HasTrust;
    if EndsLine(a) {
      Untouched(a, [], ea, path, q);
      RewrittenJoin(a, b, [], TrustKey(path), q);
    } else {
      AddNewline(a, []);
      NowEnds(a);
      Untouched(a + "\n", [], ea, path, q);
      RewrittenJoin(a + "\n", b, [], TrustKey(path), q);
    }
  }

  lemma InsertedOnNewLine(a: Bytes, b: Bytes, level: Bytes)
    ensures OnNewLine(a, ProjectTrust.TrustLine(level) + b) == a + Inserted(a, level) + b
  {
    hide ProjectTrust.TrustLine;
    var line := ProjectTrust.TrustLine(level);
    assert a + (line + b) == a + line + b;
    assert a + "\n" + (line + b) == a + ("\n" + line) + b;
  }

  /** Rewriting an inserted trust line gives what inserting the other level gives. */
  lemma RewrittenInserted(t: Bytes, h: nat, path: Bytes, level: Bytes, level': Bytes)
    requires Entries(t, []).Some? && !HasTrust(Entries(t, []).value, path) && PlainLevel(level) && PlainLevel(level')
    requires h < |Entries(t, []).value| && Heads(Entries(t, []).value[h], path)
    ensures (var c := CutAt(t, [], h);
             Rewritten(t[..c] + Inserted(t[..c], level) + t[c..], [], TrustKey(path), Quoted(level'))
             == t[..c] + Inserted(t[..c], level') + t[c..])
  {
    hide Entries, CutAt, LastTable, Rewritten, ProjectTrust.TrustLine, Quoted, EndsLine, OnNewLine, Inserted;
    var es, c := Entries(t, []).value, CutAt(t, [], h);
    var key, q := TrustKey(path), Quoted(level');
    var line, line' := ProjectTrust.TrustLine(level), ProjectTrust.TrustLine(level');
    var a, b := t[..c], t[c..];
    assert es == es[..h + 1] + es[h + 1..];
    Cut(t, [], h);
    LastHeader([], es, h);
    RewrittenTail(b, es[h + 1..], path, level, level');
    RewrittenOnNewLine(a, line + b, es[..h + 1], path, q);
    InsertedOnNewLine(a, b, level);
    InsertedOnNewLine(a, b, level');
  }

  lemma HeadEnds(path: Bytes)
    ensures EndsLine(HeaderLine(path))
  {
  }

  /** Rewriting an appended table gives what appending the other level gives. */
  lemma RewrittenTable(p: Bytes, path: Bytes, level: Bytes, level': Bytes)
    requires Entries(p, []).Some? && EndsLine(p) && !HasTrust(Entries(p, []).value, path)
    requires ValidUtf8(path) && PlainLevel(level) && PlainLevel(level')
    ensures Rewritten(p + (HeaderLine(path) + ProjectTrust.TrustLine(level)), [], TrustKey(path), Quoted(level'))
         == p + (HeaderLine(path) + ProjectTrust.TrustLine(level'))
  {
    hide Entries, LastTable, Rewritten, ProjectTrust.TrustLine, HeaderLine, Sanitized;
    var key, q, table := TrustKey(path), Quoted(level'), ProjectTable(path);
    var head, line := HeaderLine(path), ProjectTrust.TrustLine(level);
    var last := LastTable([], Entries(p, []).value);
    var e := Entry(Table, table, []);
    SanitizedIsIdentity(path);
    HeaderLineEntry(path, last);
    HeaderLast(last, e);
    Untouched(p, [], Entries(p, []).value, path, q);
    Untouched(head, last, [e], path, q);
    LineRewritten(table, path, level, level');
    HeadEnds(path);
    RewrittenJoin(head, line, last, key, q);
    RewrittenJoin(p, head + line, [], key, q);
  }

  lemma HeaderLast(table: Path, e: Entry)
    requires e.kind != KeyValue
    ensures LastTable(table, [e]) == e.path
  {
    assert [e][1..] == [];
  }

  /** What an appended table is appended to. */
  function Padded(config: Bytes): Bytes {
    if AllSpace(config) then [] else if EndsLine(config) then config + "\n" else config + "\n" + "\n"
  }

  /** A blank line at the end adds no entry. */
  lemma BlankLineAfter(t: Bytes)
    requires Entries(t, []).Some? && EndsLine(t)
    ensures Entries(t + "\n", []) == Entries(t, [])
  {
    var es := Entries(t, []).value;
    var last := LastTable([], es);
    hide Entries, LastTable, EndsLine;
    BlankLine([], last);
    NoEntries([], last);
    assert "\n" + [] == "\n";
    Join(t, "\n", []);
    assert es + [] == es;
  }

  lemma NewlineAdded(t: Bytes)
    requires Entries(t, []).Some?
    ensures Entries(t + "\n", []) == Entries(t, []) && EndsLine(t + "\n")
  {
    hide Entries;
    NowEnds(t);
    if EndsLine(t) {
      BlankLineAfter(t);
    } else {
      AddNewline(t, []);
    }
  }

  lemma PaddedDocument(config: Bytes)
    requires Document(config).Some?
    ensures AllSpace(config) ==> Document(config) == Some([]) && Start(config) == 0
    ensures !AllSpace(config) ==>
              && |Padded(config)| > |config| && Padded(config)[..Start(config)] == config[..Start(config)]
              && Entries(Padded(config)[Start(config)..], []) == Document(config)
              && EndsLine(Padded(config)[Start(config)..])
  {
    if AllSpace(config) {
      hide Entries, AllSpace;
      AllSpaceStart(config);
      assert config[0..] == config;
      AllSpaceIsBlank(config, []);
      NoEntries(config, []);
    } else {
      hide Entries, AllSpace;
      var k := Start(config);
      var t := config[k..];
      SuffixJoin(config, "\n", k);
      SuffixJoin(config + "\n", "\n", k);
      NewlineAdded(t);
      NewlineAdded(t + "\n");
    }
  }

  lemma AppendedIsPadded(config: Bytes, path: Bytes, level: Bytes)
    ensures Appended(config, path, level) == Padded(config) + (HeaderLine(path) + ProjectTrust.TrustLine(level))
  {
    hide AllSpace, HeaderLine, ProjectTrust.TrustLine;
    var table := HeaderLine(path) + ProjectTrust.TrustLine(level);
    assert [] + table == table;
    assert config + "\n" + "\n" + table == (config + "\n" + "\n") + table;
  }

  lemma RewrittenAppended(config: Bytes, path: Bytes, level: Bytes, level': Bytes)
    requires Document(config).Some? && !HasTrust(Document(config).value, path)
    requires ValidUtf8(path) && PlainLevel(level) && PlainLevel(level')
    ensures var k, out := Start(config), Appended(config, path, level);
            k <= |out| && out[..k] + Rewritten(out[k..], [], TrustKey(path), Quoted(level'))
                == Appended(config, path, level')
  {
    hide Entries, AllSpace, Rewritten, Padded, HeaderLine, ProjectTrust.TrustLine, Appended, Start;
    var k, p := Start(config), Padded(config);
    var table, table' := HeaderLine(path) + ProjectTrust.TrustLine(level),
        HeaderLine(path) + ProjectTrust.TrustLine(level');
    PaddedDocument(config);
    AppendedIsPadded(config, path, level);
    AppendedIsPadded(config, path, level');
    if AllSpace(config) {
      PaddedEmpty(config);
      NoEntries([], []);
      RewrittenTable([], path, level, level');
      assert (p + table)[0..] == p + table && (p + table)[..0] == [];
      assert p + table == [] + table && p + table' == [] + table';
    } else {
      RewrittenTable(p[k..], path, level, level');
      assert (p + table)[k..] == p[k..] + table;
      assert (p + table)[..k] == p[..k];
      assert p == p[..k] + p[k..];
      assert p + table' == p[..k] + (p[k..] + table');
    }
  }

  lemma PaddedEmpty(config: Bytes)
    requires AllSpace(config)
    ensures Padded(config) == []
  {
    hide AllSpace;
  }

  lemma HeaderIndexAfter(es: seq<Entry>, path: Bytes)
    requires forall e <- es :: !Heads(e, path)
    ensures HeaderIndex(es, path) == |es|
  {
    if HeaderIndex(es, path) < |es| {
      assert es[HeaderIndex(es, path)] in es;
    }
  }

  lemma UnderTable(path: Bytes, p: Bytes)
    ensures ProjectTable(path) <= TrustKey(p) ==> path == p
  {
    assert ProjectTable(path)[1] == path && TrustKey(p)[1] == p;
  }

  /** A path that cannot be written is appended again by every edit. */
  lemma AppendsAgain(es: seq<Entry>, path: Bytes, level: Bytes)
    requires !Reaches(es, path) && !HasDotted(es, path)
    ensures var out := After(es, path, level);
            HeaderIndex(out, path) == |out| && !HasTrust(out, path) && !HasDotted(out, path)
  {
    hide Sanitized;
    var p, out := Sanitized(path), After(es, path, level);
    SanitizedIsIdentity(path);
    SameKey(path, p);
    var e, t := Entry(Table, ProjectTable(p), []), TrustEntry(p, level);
    UnderTable(path, p);
    forall x <- out
        ensures !Heads(x, path) && !Trusts(x, path) && !(x.kind == KeyValue && ProjectTable(path) <= x.path) {
      if x in es {
        var i :| 0 <= i < |es| && es[i] == x;
      }
    }
    HeaderIndexAfter(out, path);
  }

  lemma AppendedGrows(config: Bytes, path: Bytes, level: Bytes, level': Bytes)
    requires Document(config).Some?
    requires !AllSpace(Appended(config, path, level))
    ensures Appended(Appended(config, path, level), path, level') != Appended(config, path, level')
  {
    hide AllSpace, Padded, HeaderLine, Document, Appended;
    var out := Appended(config, path, level);
    AppendedIsPadded(config, path, level);
    AppendedIsPadded(config, path, level');
    AppendedIsPadded(out, path, level');
    PaddedLonger(out);
  }

  lemma PaddedLonger(config: Bytes)
    requires !AllSpace(config)
    ensures |Padded(config)| > |config|
  {
    hide AllSpace;
  }

  lemma EditedAgain(config: Bytes, path: Bytes, level: Bytes, level': Bytes)
    requires PlainLevel(level) && PlainLevel(level') && SetTrust(config, path, level).Edited?
    requires Reaches(Document(config).value, path)
    ensures var out := SetTrust(config, path, level).config;
            SetTrust(out, path, level')
                == Edited(out[..Start(out)] + Rewritten(out[Start(out)..], [], TrustKey(path), Quoted(level')))
  {
    var es, out := Document(config).value, SetTrust(config, path, level).config;
    EditedDocument(config, path, level);
    AfterGet(es, path, level);
    AfterEditable(es, path, level, path);
  }

  lemma PutPutReached(config: Bytes, path: Bytes, level: Bytes, level': Bytes)
    requires PlainLevel(level) && PlainLevel(level') && SetTrust(config, path, level).Edited?
    requires Reaches(Document(config).value, path)
    ensures SetTrust(SetTrust(config, path, level).config, path, level') == SetTrust(config, path, level')
  {
    EditedAgain(config, path, level, level');
    hide Entries, Rewritten, Appended, Inserted, AllAtLevel, CutAt, HasDotted, FirstObjection;
    var es, out := Document(config).value, SetTrust(config, path, level).config;
    var k, h, key, q := Start(config), HeaderIndex(es, path), TrustKey(path), Quoted(level');
    var t := config[k..];
    if HasTrust(es, path) {
      RewrittenEntries(t, [], key, level);
      StartKept(config, Rewritten(t, [], key, Quoted(level)), []);
      RewrittenTwice(t, [], key, level, q);
    } else if h < |es| {
      var c := CutAt(t, [], h);
      InsertedEntries(t, h, path, level);
      StartKept(config, t[..c] + Inserted(t[..c], level) + t[c..], []);
      Cut(t, [], h);
      InsertedText(config, h, level);
      InsertedText(config, h, level');
      RewrittenInserted(t, h, path, level, level');
    } else {
      AppendedDocument(config, path, level);
      RewrittenAppended(config, path, level, level');
    }
  }

  lemma PutPutMissed(config: Bytes, path: Bytes, level: Bytes, level': Bytes)
    requires PlainLevel(level) && PlainLevel(level') && SetTrust(config, path, level).Edited?
    requires !Reaches(Document(config).value, path)
    ensures SetTrust(SetTrust(config, path, level).config, path, level') != SetTrust(config, path, level')
  {
    hide Entries, Rewritten, Appended, Inserted, AllAtLevel, CutAt, AllSpace, Sanitized;
    var es, out := Document(config).value, SetTrust(config, path, level).config;
    EditedDocument(config, path, level);
    AfterEditable(es, path, level, path);
    AppendsAgain(es, path, level);
    PaddedDocument(out);
    AppendedGrows(config, path, level, level');
  }

  /** A second edit gives, byte for byte, what it alone would have given, exactly
      when the first one reached the path. */
  lemma PutPut(config: Bytes, path: Bytes, level: Bytes, level': Bytes)
    requires PlainLevel(level) && PlainLevel(level') && SetTrust(config, path, level).Edited?
    ensures Document(config).Some?
    ensures SetTrust(SetTrust(config, path, level).config, path, level') == SetTrust(config, path, level')
       <==> Reaches(Document(config).value, path)
  {
    hide Document, Entries, Rewritten, Appended, Inserted, AllAtLevel, CutAt, Reaches, HasTrust, HasDotted,
        FirstObjection;
    var es, out := Document(config).value, SetTrust(config, path, level).config;
    if Reaches(es, path) {
      PutPutReached(config, path, level, level');
    } else {
      PutPutMissed(config, path, level, level');
    }
  }

  /** A path that is not UTF-8: one 0xFF byte. In an empty configuration its edit
      leaves no value under it, and repeating the edit appends a second table. */
  lemma UnwritablePath(level: Bytes)
    requires PlainLevel(level)
    ensures var path: Bytes := ['\U{FF}'];
            && SetTrust([], path, level).Edited?
            && Document(SetTrust([], path, level).config).Some?
            && !HasTrust(Document(SetTrust([], path, level).config).value, path)
            && SetTrust(SetTrust([], path, level).config, path, level) != SetTrust([], path, level)
  {
    hide Rewritten, Appended, Inserted, Entries;
    var path: Bytes := ['\U{FF}'];
    var t: Bytes := [];
    assert BlankLen(t) == 0;
    NoEntries(t, []);
    assert t[Start(t)..] == t;
    assert DecodeRune(path) == Decoded(RUNE_ERROR, 1);
    assert !ValidUtf8(path);
    PutGet(t, path, level);
    PutPut(t, path, level, level);
  }

  // ---- every spelling of a path

  /** The project is at the level and a further edit of it is not refused. */
  predicate Settled(es: seq<Entry>, path: Bytes, level: Bytes) {
    HasTrust(es, path) && AllAt(es, path, level) && FirstObjection(es, path).None?
  }

  lemma SettledAfter(es: seq<Entry>, path: Bytes, level: Bytes)
    requires FirstObjection(es, path).None? && Reaches(es, path)
    ensures Settled(After(es, path, level), path, level)
  {
    hide After, Reaches;
    AfterGet(es, path, level);
    AfterEditable(es, path, level, path);
  }

  /** Editing any path leaves a settled one settled. */
  lemma SettledKept(es: seq<Entry>, path: Bytes, level: Bytes, other: Bytes)
    requires Settled(es, path, level)
    ensures Settled(After(es, other, level), path, level)
  {
    hide Sanitized, HeaderIndex;
    var out := After(es, other, level);
    AfterEditable(es, other, level, path);
    if other == path {
      AfterGet(es, path, level);
    } else {
      SameKey(path, other);
      forall e <- out | Trusts(e, path) ensures e.value == Quoted(level) {
        AfterMember(es, other, level, e);
      }
      var e :| e in es && Trusts(e, path);
      AfterKeeps(es, other, level, e);
    }
  }

  /** Whether an edit can reach a path is decided once: no edit, of it or of another
      path, makes it reachable or unreachable. */
  lemma ReachesKept(es: seq<Entry>, path: Bytes, level: Bytes, other: Bytes)
    ensures Reaches(After(es, other, level), path) <==> Reaches(es, path)
  {
    if ValidUtf8(path) {
    } else if Reaches(es, path) {
      StillReached(es, path, level, other);
    } else {
      StillUnreached(es, path, level, other);
    }
  }

  lemma StillReached(es: seq<Entry>, path: Bytes, level: Bytes, other: Bytes)
    requires HasTrust(es, path) || HeaderIndex(es, path) < |es|
    ensures Reaches(After(es, other, level), path)
  {
    var out := After(es, other, level);
    if HasTrust(es, path) {
      var e :| e in es && Trusts(e, path);
      hide After, HeaderIndex;
      if other == path {
        AfterGet(es, path, level);
      } else {
        SameKey(path, other);
        AfterKeeps(es, other, level, e);
      }
    } else {
      var e := es[HeaderIndex(es, path)];
      hide After, HasTrust;
      AfterKeeps(es, other, level, e);
      var i :| 0 <= i < |out| && out[i] == e;
    }
  }

  lemma StillUnreached(es: seq<Entry>, path: Bytes, level: Bytes, other: Bytes)
    requires !Reaches(es, path)
    ensures !Reaches(After(es, other, level), path)
  {
    var out := After(es, other, level);
    SameKey(path, other);
    SameKey(path, Sanitized(other));
    SanitizedIsValid(other);
    hide Sanitized, ValidUtf8, After;
    forall x <- out ensures !Heads(x, path) && !Trusts(x, path) {
      AfterMember(es, other, level, x);
      assert forall e <- es :: !Trusts(e, path);
      forall e <- es ensures !Heads(e, path) {
        var i :| 0 <= i < |es| && es[i] == e;
      }
    }
    HeaderIndexAfter(out, path);
  }

  lemma AfterKeeps(es: seq<Entry>, path: Bytes, level: Bytes, e: Entry)
    requires e in es && !Trusts(e, path)
    ensures e in After(es, path, level)
  {
    hide HasTrust, HeaderIndex, Sanitized;
    var h := HeaderIndex(es, path);
    if HasTrust(es, path) {
      AtLevelOf(es, TrustKey(path), Quoted(level), e);
    } else if h < |es| {
      assert es == es[..h + 1] + es[h + 1..];
    }
  }

  /** A settled project's edit writes back the very same bytes. */
  lemma SettledSame(config: Bytes, path: Bytes, level: Bytes)
    requires PlainLevel(level) && Document(config).Some? && Settled(Document(config).value, path, level)
    ensures SetTrust(config, path, level) == Edited(config)
  {
    hide Rewritten, Appended, Inserted, Entries, FirstObjection, HasTrust;
    var k := Start(config);
    NothingAtLevel(Document(config).value, path, Quoted(level));
    RewrittenSame(config[k..], [], TrustKey(path), Quoted(level));
    assert config[..k] + config[k..] == config;
  }

  /** Along the fold a settled path stays settled, and what can be reached stays so. */
  lemma {:induction false} FoldKeeps(config: Bytes, paths: seq<Bytes>, level: Bytes, path: Bytes)
    requires PlainLevel(level) && SetTrustAll(config, paths, level).Edited? && Document(config).Some?
    ensures Document(SetTrustAll(config, paths, level).config).Some?
    ensures Settled(Document(config).value, path, level) ==>
              Settled(Document(SetTrustAll(config, paths, level).config).value, path, level)
    ensures Reaches(Document(SetTrustAll(config, paths, level).config).value, path)
       <==> Reaches(Document(config).value, path)
    decreases |paths|
  {
    hide Document, SetTrust, Settled, Reaches, After;
    if paths != [] {
      var es := Document(config).value;
      EditedDocument(config, paths[0], level);
      if Settled(es, path, level) {
        SettledKept(es, path, level, paths[0]);
      }
      ReachesKept(es, path, level, paths[0]);
      FoldKeeps(SetTrust(config, paths[0], level).config, paths[1..], level, path);
    }
  }

  lemma Unobjectionable(config: Bytes, path: Bytes, level: Bytes)
    requires SetTrust(config, path, level).Edited?
    ensures Document(config).Some? && FirstObjection(Document(config).value, path).None?
  {
    hide Document, Rewritten, Appended, Inserted, LineEnd;
  }

  lemma UnreachedUnsettled(es: seq<Entry>, path: Bytes, level: Bytes)
    requires !Reaches(es, path)
    ensures !Settled(es, path, level)
  {
  }

  /** Folding the edit over every spelling leaves at the level exactly those that the
      configuration it started from let it reach: among them every valid one. */
  lemma {:induction false} EverySpellingSettled(config: Bytes, paths: seq<Bytes>, level: Bytes)
    requires PlainLevel(level) && Document(config).Some? && SetTrustAll(config, paths, level).Edited?
    ensures Document(SetTrustAll(config, paths, level).config).Some?
    ensures forall p <- paths ::
              Settled(Document(SetTrustAll(config, paths, level).config).value, p, level) <==>
              Reaches(Document(config).value, p)
    decreases |paths|
  {
    hide Document, SetTrust, Settled, Reaches, After;
    if paths != [] {
      var es, path, next := Document(config).value, paths[0], SetTrust(config, paths[0], level).config;
      EditedDocument(config, path, level);
      Unobjectionable(config, path, level);
      EverySpellingSettled(next, paths[1..], level);
      FoldKeeps(next, paths[1..], level, path);
      ReachesKept(es, path, level, path);
      if Reaches(es, path) {
        SettledAfter(es, path, level);
      } else {
        UnreachedUnsettled(Document(SetTrustAll(config, paths, level).config).value, path, level);
      }
      forall p <- paths[1..] ensures Reaches(Document(next).value, p) <==> Reaches(es, p) {
        ReachesKept(es, p, level, path);
      }
      assert paths == [paths[0]] + paths[1..];
    }
  }

  lemma {:induction false} AllSettledSame(config: Bytes, paths: seq<Bytes>, level: Bytes)
    requires PlainLevel(level) && Document(config).Some?
    requires forall p <- paths :: Settled(Document(config).value, p, level)
    ensures SetTrustAll(config, paths, level) == Edited(config)
    decreases |paths|
  {
    hide Document, SetTrust, Settled;
    if paths != [] {
      SettledSame(config, paths[0], level);
      AllSettledSame(config, paths[1..], level);
    }
  }

  lemma UnreachedAppends(config: Bytes, path: Bytes, level: Bytes)
    requires SetTrust(config, path, level).Edited? && Document(config).Some? && !Reaches(Document(config).value, path)
    ensures SetTrust(config, path, level) == Edited(Appended(config, path, level))
  {
    hide Document, Rewritten, Inserted, LineEnd, Appended;
  }

  /** Appending makes a configuration with anything in it longer. */
  lemma UnreachedGrows(config: Bytes, path: Bytes, level: Bytes)
    requires SetTrust(config, path, level).Edited? && Document(config).Some? && Document(config).value != []
    requires !Reaches(Document(config).value, path)
    ensures |SetTrust(config, path, level).config| > |config|
  {
    UnreachedAppends(config, path, level);
    PaddedDocument(config);
    AppendedIsPadded(config, path, level);
    hide Document, SetTrust, AllSpace, Padded, HeaderLine, Appended, Reaches;
    PaddedLonger(config);
  }

  /** On what a fold left, a further edit changes nothing of a settled path and appends for an unreached one. */
  lemma {:induction false} FoldAgain(config: Bytes, paths: seq<Bytes>, level: Bytes)
    requires PlainLevel(level) && Document(config).Some? && Document(config).value != []
    requires forall p <- paths :: Settled(Document(config).value, p, level) || !Reaches(Document(config).value, p)
    requires SetTrustAll(config, paths, level).Edited?
    ensures |SetTrustAll(config, paths, level).config| >= |config|
    ensures (exists p <- paths :: !Reaches(Document(config).value, p)) ==>
              |SetTrustAll(config, paths, level).config| > |config|
    decreases |paths|
  {
    hide Document, SetTrust, Settled, Reaches, After;
    if paths != [] {
      var es, path, next := Document(config).value, paths[0], SetTrust(config, paths[0], level).config;
      EditedDocument(config, path, level);
      AfterHasSome(es, path, level);
      forall p <- paths[1..] ensures Settled(Document(next).value, p, level) || !Reaches(Document(next).value, p) {
        ReachesKept(es, p, level, path);
        if Settled(es, p, level) {
          SettledKept(es, p, level, path);
        }
      }
      forall p <- paths[1..] ensures Reaches(Document(next).value, p) <==> Reaches(es, p) {
        ReachesKept(es, p, level, path);
      }
      FoldAgain(next, paths[1..], level);
      if Reaches(es, path) {
        SettledSame(config, path, level);
      } else {
        UnreachedGrows(config, path, level);
      }
      assert paths == [paths[0]] + paths[1..];
    }
  }

  /** Recording the same decision again, for every spelling, changes no byte exactly
      when the first time could reach them all. */
  lemma FoldIdempotent(config: Bytes, paths: seq<Bytes>, level: Bytes)
    requires PlainLevel(level) && Document(config).Some? && SetTrustAll(config, paths, level).Edited?
    ensures (var out := SetTrustAll(config, paths, level).config;
             SetTrustAll(out, paths, level) == Edited(out) <==> forall p <- paths :: Reaches(Document(config).value, p))
  {
    hide Document, SetTrustAll, Settled, Reaches;
    var out := SetTrustAll(config, paths, level).config;
    EverySpellingSettled(config, paths, level);
    if forall p <- paths :: Reaches(Document(config).value, p) {
      AllSettledSame(out, paths, level);
    } else {
      forall p <- paths ensures Settled(Document(out).value, p, level) || !Reaches(Document(out).value, p) {
        FoldKeeps(config, paths, level, p);
      }
      var p :| p in paths && !Reaches(Document(config).value, p);
      FoldKeeps(config, paths, level, p);
      FoldNotEmpty(config, paths, level);
      if SetTrustAll(out, paths, level).Edited? {
        FoldAgain(out, paths, level);
      }
    }
  }

  lemma {:induction false} FoldNotEmpty(config: Bytes, paths: seq<Bytes>, level: Bytes)
    requires PlainLevel(level) && Document(config).Some? && SetTrustAll(config, paths, level).Edited?
    requires paths != [] || Document(config).value != []
    ensures Document(SetTrustAll(config, paths, level).config).Some?
    ensures Document(SetTrustAll(config, paths, level).config).value != []
    decreases |paths|
  {
    hide Document, SetTrust, After;
    if paths != [] {
      EditedDocument(config, paths[0], level);
      AfterHasSome(Document(config).value, paths[0], level);
      FoldNotEmpty(SetTrust(config, paths[0], level).config, paths[1..], level);
    }
  }

  lemma AfterHasSome(es: seq<Entry>, path: Bytes, level: Bytes)
    ensures After(es, path, level) != []
  {
  }
}
