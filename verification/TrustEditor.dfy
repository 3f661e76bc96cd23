/** The editor's loops: classifying statements, rewriting values from the last to
    the first so that earlier offsets stay good, escaping a path, and folding the
    edit over every spelling. Each is verified against the specification whose
    laws the other modules prove. */
module TrustEditor {
  import opened Wrappers
  import opened Utf8
  import opened TomlGrammar
  import opened TomlDocument
  import opened TomlRewrite
  import opened TomlScanner
  import opened ProjectTrust

  // ---- rewriting by offsets

  /** Values in order, none overlapping the next. */
  predicate Apart(vals: seq<Stmt>, from: nat, to: nat) {
    if vals == [] then from <= to
    else from <= vals[0].valueStart <= vals[0].valueEnd && Apart(vals[1..], vals[0].valueEnd, to)
  }

  lemma {:induction false} ApartBound(vals: seq<Stmt>, from: nat, to: nat)
    requires Apart(vals, from, to)
    ensures from <= to
    ensures vals != [] ==> vals[0].valueEnd <= to
  {
    if vals != [] {
      ApartBound(vals[1..], vals[0].valueEnd, to);
    }
  }

  /** `doc` from `from` on, with every value's bytes replaced by `q`. */
  function Spliced(doc: Bytes, from: nat, vals: seq<Stmt>, q: Bytes): Bytes
    requires Apart(vals, from, |doc|)
    decreases |vals|
  {
    ApartBound(vals, from, |doc|);
    if vals == [] then doc[from..]
    else doc[from..vals[0].valueStart] + q + Spliced(doc, vals[0].valueEnd, vals[1..], q)
  }

  function TrustValues(stmts: seq<Stmt>, key: Path): seq<Stmt> {
    if stmts == [] then []
    else (if stmts[0].kind == KeyValue && stmts[0].path == key then [stmts[0]] else []) + TrustValues(stmts[1..], key)
  }

  /** The text up to the first value can be taken off the front. */
  lemma SplicedFrom(doc: Bytes, from: nat, at: nat, vals: seq<Stmt>, q: Bytes)
    requires from <= at && Apart(vals, at, |doc|)
    ensures at <= |doc| && Apart(vals, from, |doc|)
    ensures Spliced(doc, from, vals, q) == doc[from..at] + Spliced(doc, at, vals, q)
  {
    ApartBound(vals, at, |doc|);
    if vals == [] {
      assert doc[from..] == doc[from..at] + doc[at..];
    } else {
      var v, tail := vals[0], Spliced(doc, vals[0].valueEnd, vals[1..], q);
      assert Spliced(doc, at, vals, q) == doc[at..v.valueStart] + q + tail;
      assert Spliced(doc, from, vals, q) == doc[from..v.valueStart] + q + tail;
      hide Spliced;
      assert doc[from..v.valueStart] == doc[from..at] + doc[at..v.valueStart];
      assert doc[from..at] + (doc[at..v.valueStart] + q + tail) == doc[from..v.valueStart] + q + tail;
    }
  }

  lemma AllBlank(doc: Bytes, at: nat, table: Path, key: Path, q: Bytes)
    requires at <= |doc| && BlankLen(doc[at..]) == |doc| - at
    ensures StatementsFrom(doc[at..], table, at) == Some([]) && TrustValues([], key) == []
    ensures Apart([], at, |doc|) && Spliced(doc, at, [], q) == Rewritten(doc[at..], table, key, q)
  {
    hide BlankLen, Statement;
  }

  lemma TrustValuesCons(st: Stmt, d: nat, rest: seq<Stmt>, key: Path)
    ensures TrustValues([Moved(st, d)] + rest, key)
         == (if st.kind == KeyValue && st.path == key then [Moved(st, d)] else []) + TrustValues(rest, key)
  {
    assert ([Moved(st, d)] + rest)[1..] == rest;
  }

  lemma SomeStatement(t: Bytes, table: Path, at: nat)
    requires StatementsFrom(t, table, at).Some? && BlankLen(t) < |t|
    ensures Statement(t[BlankLen(t)..], table).Some?
  {
    hide BlankLen, Statement;
  }

  lemma StatementsStep(t: Bytes, table: Path, at: nat, k: nat, st: Stmt)
    requires BlankLen(t) == k < |t| && Statement(t[k..], table) == Some(st)
    ensures (var rest := StatementsFrom(t[k + st.lineEnd..], TableAfter(table, st), at + k + st.lineEnd);
             StatementsFrom(t, table, at) == if rest.None? then None else Some([Moved(st, at + k)] + rest.value))
  {
    hide BlankLen, Statement;
  }

  /** Splicing by the scanner's offsets is rewriting the document's values. */
  lemma {:induction false} SplicedIsRewritten(doc: Bytes, at: nat, table: Path, key: Path, q: Bytes)
    requires at <= |doc| && StatementsFrom(doc[at..], table, at).Some?
    ensures var vals := TrustValues(StatementsFrom(doc[at..], table, at).value, key);
            Apart(vals, at, |doc|) && Spliced(doc, at, vals, q) == Rewritten(doc[at..], table, key, q)
    decreases |doc| - at
  {
    hide BlankLen, Statement, StatementsFrom, Rewritten, Spliced, LineWith, TableAfter, Moved, TrustValues, Apart;
    var t := doc[at..];
    var k := BlankLen(t);
    if k == |t| {
      AllBlank(doc, at, table, key, q);
    } else {
      SomeStatement(t, table, at);
      var st := Statement(t[k..], table).value;
      StatementsStep(t, table, at, k, st);
      var n := at + k + st.lineEnd;
      var next := TableAfter(table, st);
      assert doc[n..] == t[k + st.lineEnd..];
      SplicedIsRewritten(doc, n, next, key, q);
      RewrittenStep(t, table, key, q, k, st);
      var rest := StatementsFrom(doc[n..], next, n).value;
      SplicedLine(doc, at, k, st, TrustValues(rest, key), key, q);
      TrustValuesCons(st, at + k, rest, key);
    }
  }

  lemma ValueText(doc: Bytes, at: nat, m: nat, st: Stmt, q: Bytes, tail: Bytes)
    requires at <= m && st.valueStart <= st.valueEnd <= st.lineEnd && m + st.lineEnd <= |doc|
    ensures doc[at..m + st.valueStart] + q + (doc[m + st.valueEnd..m + st.lineEnd] + tail)
         == doc[at..m] + (doc[m..][..st.valueStart] + q + doc[m..][st.valueEnd..st.lineEnd]) + tail
  {
    var b := doc[m..m + st.valueStart];
    assert doc[m..][..st.valueStart] == b;
    assert doc[m..][st.valueEnd..st.lineEnd] == doc[m + st.valueEnd..m + st.lineEnd];
    assert doc[at..m + st.valueStart] == doc[at..m] + b;
  }

  lemma SplicedLine(doc: Bytes, at: nat, k: nat, st: Stmt, vals: seq<Stmt>, key: Path, q: Bytes)
    requires st.valueStart <= st.valueEnd <= st.lineEnd && at + k + st.lineEnd <= |doc|
    requires Apart(vals, at + k + st.lineEnd, |doc|)
    ensures (var all := (if st.kind == KeyValue && st.path == key then [Moved(st, at + k)] else []) + vals;
             && Apart(all, at, |doc|)
             && Spliced(doc, at, all, q)
                == doc[at..][..k] + LineWith(doc[at..][k..], st, key, q) + Spliced(doc, at + k + st.lineEnd, vals, q))
  {
    hide Spliced, Apart;
    var m := at + k;
    assert doc[at..][..k] == doc[at..m] && doc[at..][k..] == doc[m..];
    if st.kind == KeyValue && st.path == key {
      SplicedValue(doc, at, m, st, vals, q);
    } else {
      assert [] + vals == vals;
      SplicedText(doc, at, m, st.lineEnd, vals, q);
    }
  }

  lemma SplicedValue(doc: Bytes, at: nat, m: nat, st: Stmt, vals: seq<Stmt>, q: Bytes)
    requires st.kind == KeyValue && st.valueStart <= st.valueEnd <= st.lineEnd
    requires at <= m && m + st.lineEnd <= |doc| && Apart(vals, m + st.lineEnd, |doc|)
    ensures Apart([Moved(st, m)] + vals, at, |doc|)
    ensures Spliced(doc, at, [Moved(st, m)] + vals, q)
         == doc[at..m] + (doc[m..][..st.valueStart] + q + doc[m..][st.valueEnd..st.lineEnd])
            + Spliced(doc, m + st.lineEnd, vals, q)
  {
    hide Spliced, Apart;
    var v, n := Moved(st, m), m + st.lineEnd;
    SplicedFrom(doc, v.valueEnd, n, vals, q);
    SplicedHead(doc, at, v, vals, q);
    ValueText(doc, at, m, st, q, Spliced(doc, n, vals, q));
  }

  lemma SplicedText(doc: Bytes, at: nat, m: nat, len: nat, vals: seq<Stmt>, q: Bytes)
    requires at <= m && m + len <= |doc| && Apart(vals, m + len, |doc|)
    ensures Apart(vals, at, |doc|)
    ensures Spliced(doc, at, vals, q) == doc[at..m] + doc[m..][..len] + Spliced(doc, m + len, vals, q)
  {
    hide Spliced, Apart;
    SplicedFrom(doc, at, m + len, vals, q);
    assert doc[at..m + len] == doc[at..m] + doc[m..][..len];
  }

  lemma SplicedHead(doc: Bytes, from: nat, v: Stmt, vals: seq<Stmt>, q: Bytes)
    requires Apart(vals, v.valueEnd, |doc|) && from <= v.valueStart <= v.valueEnd
    ensures Apart([v] + vals, from, |doc|)
    ensures v.valueEnd <= |doc|
    ensures Spliced(doc, from, [v] + vals, q) == doc[from..v.valueStart] + q + Spliced(doc, v.valueEnd, vals, q)
  {
    assert ([v] + vals)[1..] == vals;
    ApartBound(vals, v.valueEnd, |doc|);
  }

  // ---- statements and entries side by side

  lemma {:induction false} ViewAt(doc: Bytes, stmts: seq<Stmt>, es: seq<Entry>, i: nat)
    requires Views(doc, stmts, es) && i < |stmts|
    ensures i < |es| && es[i].kind == stmts[i].kind && es[i].path == stmts[i].path
  {
    if i > 0 {
      ViewAt(doc, stmts[1..], es[1..], i - 1);
    }
  }

  lemma {:induction false} ViewLength(doc: Bytes, stmts: seq<Stmt>, es: seq<Entry>)
    requires Views(doc, stmts, es)
    ensures |es| == |stmts|
  {
    if stmts != [] {
      ViewLength(doc, stmts[1..], es[1..]);
    }
  }

  lemma {:induction false} LineEndIs(t: Bytes, table: Path, at: nat, h: nat)
    requires StatementsFrom(t, table, at).Some? && h < |StatementsFrom(t, table, at).value|
    ensures StatementsFrom(t, table, at).value[h].lineEnd == at + CutAt(t, table, h)
    decreases |t|
  {
    hide BlankLen, Statement;
    var k := BlankLen(t);
    var st := Statement(t[k..], table).value;
    if h > 0 {
      LineEndIs(t[k + st.lineEnd..], TableAfter(table, st), at + k + st.lineEnd, h - 1);
    }
  }

  // ---- the loops

  method TomlBasicStringEscape(value: Bytes) returns (b: Bytes)
    ensures b == Escaped(value)
  {
    hide DecodeRune, EscapedRune;
    b := [];
    var i := 0;
    assert value[0..] == value;
    assert [] + Escaped(value) == Escaped(value);
    while i < |value|
      invariant i <= |value|
      invariant Escaped(value) == b + Escaped(value[i..])
    {
      var d := DecodeRune(value[i..]);
      assert value[i..][d.size..] == value[i + d.size..];
      assert b + (EscapedRune(d.rune) + Escaped(value[i + d.size..]))
             == (b + EscapedRune(d.rune)) + Escaped(value[i + d.size..]);
      b := b + EscapedRune(d.rune);
      i := i + d.size;
    }
  }

  /** One turn of the rewriting loop: the values from the `i`-th on, when those after it are done. */
  lemma ReplaceStep(config: Bytes, vals: seq<Stmt>, i: nat, out: Bytes, q: Bytes)
    requires i < |vals| && Apart(vals[i..], ValueBound(vals, i), |config|)
    requires vals[i].valueEnd <= |config| && Apart(vals[i + 1..], vals[i].valueEnd, |config|)
    requires out == config[..vals[i].valueEnd] + Spliced(config, vals[i].valueEnd, vals[i + 1..], q)
    ensures (var st := vals[i];
             && ValueBound(vals, i) <= st.valueStart <= st.valueEnd <= |out| && ValueBound(vals, i) <= |config|
             && out[..st.valueStart] + q + out[st.valueEnd..]
                 == config[..ValueBound(vals, i)] + Spliced(config, ValueBound(vals, i), vals[i..], q))
  {
    var st, b := vals[i], ValueBound(vals, i);
    assert vals[i..][0] == st;
    assert vals[i..] == [st] + vals[i + 1..];
    hide Spliced;
    SplicedHead(config, b, st, vals[i + 1..], q);
    hide Apart, ValueBound;
    var tail := Spliced(config, st.valueEnd, vals[i + 1..], q);
    assert out[..st.valueStart] == config[..b] + config[b..st.valueStart];
    assert out[st.valueEnd..] == tail;
  }

  /** Rewrites the given values, the last one first. */
  method ReplaceValues(config: Bytes, vals: seq<Stmt>, q: Bytes) returns (out: Bytes)
    requires Apart(vals, 0, |config|)
    ensures out == Spliced(config, 0, vals, q)
  {
    hide Spliced, Apart;
    out := config;
    var i := |vals|;
    ApartDrop(vals, 0, |config|, i);
    SplicedEmpty(config, vals, q);
    while i > 0
      invariant 0 <= i <= |vals|
      invariant Apart(vals[i..], ValueBound(vals, i), |config|) && ValueBound(vals, i) <= |config|
      invariant out == config[..ValueBound(vals, i)] + Spliced(config, ValueBound(vals, i), vals[i..], q)
    {
      i := i - 1;
      var st := vals[i];
      ApartDrop(vals, 0, |config|, i);
      ReplaceStep(config, vals, i, out, q);
      out := out[..st.valueStart] + q + out[st.valueEnd..];
    }
    assert vals[0..] == vals;
  }

  /** Where the text before the `i`-th value starts. */
  function ValueBound(vals: seq<Stmt>, i: nat): nat
    requires i <= |vals|
  {
    if i == 0 then 0 else vals[i - 1].valueEnd
  }

  lemma {:induction false} ApartDrop(vals: seq<Stmt>, from: nat, to: nat, i: nat)
    requires Apart(vals, from, to) && i <= |vals|
    ensures Apart(vals[i..], if i == 0 then from else vals[i - 1].valueEnd, to)
    ensures i > 0 ==> vals[i - 1].valueEnd <= to
    decreases i
  {
    ApartBound(vals, from, to);
    if i > 0 {
      ApartDrop(vals[1..], vals[0].valueEnd, to, i - 1);
      assert vals[1..][i - 1..] == vals[i..];
    } else {
      assert vals[0..] == vals;
    }
  }

  lemma SplicedEmpty(config: Bytes, vals: seq<Stmt>, q: Bytes)
    requires Apart(vals, 0, |config|)
    ensures ValueBound(vals, |vals|) <= |config|
    ensures Apart(vals[|vals|..], ValueBound(vals, |vals|), |config|)
    ensures config == config[..ValueBound(vals, |vals|)] + Spliced(config, ValueBound(vals, |vals|), vals[|vals|..], q)
  {
    ApartDrop(vals, 0, |config|, |vals|);
  }

  lemma Objections(es: seq<Entry>, path: Bytes, i: nat)
    requires i < |es|
    ensures FirstObjection(es[i..], path) == if Objection(es[i], path).Some? then Objection(es[i], path)
            else FirstObjection(es[i + 1..], path)
    ensures HeaderIndex(es[i..], path) == if Heads(es[i], path) then 0 else 1 + HeaderIndex(es[i + 1..], path)
  {
    assert es[i..][1..] == es[i + 1..];
  }

  lemma ValuesDrop(stmts: seq<Stmt>, key: Path, i: nat)
    requires i < |stmts|
    ensures TrustValues(stmts[i..], key)
         == (if stmts[i].kind == KeyValue && stmts[i].path == key then [stmts[i]] else [])
             + TrustValues(stmts[i + 1..], key)
  {
    assert stmts[i..][1..] == stmts[i + 1..];
  }

  /** What the classifying loop has found among the first `i` statements. */
  ghost predicate Classified(es: seq<Entry>, path: Bytes, i: nat, found: bool, header: int, dotted: bool)
    requires i <= |es|
  {
    && FirstObjection(es, path) == FirstObjection(es[i..], path)
    && (found <==> exists k | 0 <= k < i :: Trusts(es[k], path))
    && (if header < 0 then HeaderIndex(es, path) == i + HeaderIndex(es[i..], path)
        else header == HeaderIndex(es, path) < i)
    && (dotted <==>
        exists k | 0 <= k < i :: es[k].kind == KeyValue && ProjectTable(path) <= es[k].path && !Trusts(es[k], path))
  }

  lemma NoneLeft(config: Bytes, stmts: seq<Stmt>, es: seq<Entry>, path: Bytes, vals: seq<Stmt>, header: int,
                 dotted: bool)
    requires |stmts| == |es| && Classified(es, path, |es|, vals != [], header, dotted)
    requires TrustValues(stmts, TrustKey(path)) == vals + TrustValues(stmts[|es|..], TrustKey(path))
    ensures FirstObjection(es, path).None? && TrustValues(stmts, TrustKey(path)) == vals
    ensures HasTrust(es, path) <==> vals != []
    ensures HeaderIndex(es, path) == if header < 0 then |es| else header
    ensures header < |es|
    ensures !HasTrust(es, path) ==> (HasDotted(es, path) <==> dotted)
  {
    assert stmts[|es|..] == [] && es[|es|..] == [];
    assert vals + [] == vals;
    if HasTrust(es, path) {
      var e :| e in es && Trusts(e, path);
      var k :| 0 <= k < |es| && es[k] == e;
    } else if HasDotted(es, path) {
      var e :| e in es && e.kind == KeyValue && ProjectTable(path) <= e.path;
      var k :| 0 <= k < |es| && es[k] == e;
    }
  }

  /** Sorts the statements: a reason to refuse, or the project's trust values, its
      first header (or -1), and whether a dotted key already defines its table. */
  method Classify(config: Bytes, stmts: seq<Stmt>, ghost es: seq<Entry>, path: Bytes)
    returns (why: Option<Refusal>, trustValues: seq<Stmt>, header: int, dottedTable: bool)
    requires Views(config, stmts, es)
    ensures |es| == |stmts| && why == FirstObjection(es, path)
    ensures why.None? ==>
              && trustValues == TrustValues(stmts, TrustKey(path)) && (HasTrust(es, path) <==> trustValues != [])
              && HeaderIndex(es, path) == (if header < 0 then |es| else header) && header < |es|
              && (!HasTrust(es, path) ==> (HasDotted(es, path) <==> dottedTable))
  {
    hide Views, FirstObjection, HeaderIndex, TrustValues, HasTrust, HasDotted;
    ViewLength(config, stmts, es);
    var table := ProjectTable(path);
    var trustKey := TrustKey(path);
    trustValues := [];
    header := -1;
    dottedTable := false;
    var i := 0;
    assert es[0..] == es && stmts[0..] == stmts;
    assert [] + TrustValues(stmts, trustKey) == TrustValues(stmts, trustKey);
    while i < |stmts|
      invariant i <= |stmts|
      invariant Classified(es, path, i, trustValues != [], header, dottedTable)
      invariant TrustValues(stmts, trustKey) == trustValues + TrustValues(stmts[i..], trustKey)
    {
      var st := stmts[i];
      ViewAt(config, stmts, es, i);
      Objections(es, path, i);
      ValuesDrop(stmts, trustKey, i);
      if st.kind == KeyValue && st.path == trustKey {
        assert trustValues + ([st] + TrustValues(stmts[i + 1..], trustKey))
               == (trustValues + [st]) + TrustValues(stmts[i + 1..], trustKey);
        trustValues := trustValues + [st];
      } else if trustKey <= st.path {
        why := Some(TrustIsTable);
        return;
      } else if st.kind == ArrayTable && st.path <= table {
        why := Some(ProjectsIsArray);
        return;
      } else if st.kind == KeyValue && st.path <= table {
        why := Some(ProjectsIsInline);
        return;
      } else {
        assert [] + TrustValues(stmts[i + 1..], trustKey) == TrustValues(stmts[i + 1..], trustKey);
        if st.kind == Table && st.path == table {
          if header < 0 {
            header := i;
          }
        } else if st.kind == KeyValue && table <= st.path {
          dottedTable := true;
        }
      }
      i := i + 1;
    }
    NoneLeft(config, stmts, es, path, trustValues, header, dottedTable);
    why := None;
  }

  lemma AppendedText(config: Bytes, path: Bytes, level: Bytes)
    ensures (var header, line := "[projects.\"" + Escaped(path) + "\"]", "trust_level = " + Quoted(level);
             && (AllSpace(config) ==> Appended(config, path, level) == header + "\n" + line + "\n")
             && (!AllSpace(config) ==>
                   (Appended(config, path, level)
                    == (if EndsLine(config) then config else config + "\n") + "\n" + header + "\n" + line + "\n")))
  {
    hide AllSpace, Escaped, Quoted;
    var header, line := "[projects.\"" + Escaped(path) + "\"]", "trust_level = " + Quoted(level);
    assert HeaderLine(path) + ProjectTrust.TrustLine(level) == header + "\n" + line + "\n";
    var before := if EndsLine(config) then config else config + "\n";
    assert before + "\n" + (header + "\n" + line + "\n") == before + "\n" + header + "\n" + line + "\n";
  }

  lemma RewriteText(config: Bytes, path: Bytes, stmts: seq<Stmt>, q: Bytes)
    requires Statements(config) == Some(stmts)
    ensures (var vals, k := TrustValues(stmts, TrustKey(path)), Start(config);
             Apart(vals, 0, |config|)
             && Spliced(config, 0, vals, q) == config[..k] + Rewritten(config[k..], [], TrustKey(path), q))
  {
    hide StatementsFrom, Entries, TrustValues, Rewritten, Spliced;
    var k := Start(config);
    SplicedIsRewritten(config, k, [], TrustKey(path), q);
    SplicedFrom(config, 0, k, TrustValues(stmts, TrustKey(path)), q);
    assert config[0..k] == config[..k];
  }

  /** Sets the project's trust level in a configuration. */
  method SetCodexProjectTrustLevel(config: Bytes, path: Bytes, level: Bytes) returns (r: Edit)
    ensures r == SetTrust(config, path, level)
  {
    hide StatementsFrom, Entries, Views, FirstObjection, HeaderIndex, TrustValues, Rewritten, Appended, CutAt,
        HasTrust, HasDotted, Apart, Spliced, Escaped;
    var parsed := ParseTomlStatements(config);
    StatementsAreEntries(config, Start(config), []);
    if parsed.None? {
      return Refused(Unreadable);
    }
    var stmts := parsed.value;
    ghost var es := Document(config).value;
    var why, trustValues, header, dottedTable := Classify(config, stmts, es, path);
    if why.Some? {
      return Refused(why.value);
    }

    var quoted := Quoted(level);
    if |trustValues| > 0 {
      RewriteText(config, path, stmts, quoted);
      var out := ReplaceValues(config, trustValues, quoted);
      return Edited(out);
    }
    var trustLine := "trust_level = " + quoted;
    if header >= 0 {
      LineEndIs(config[Start(config)..], [], Start(config), header);
      var at := stmts[header].lineEnd;
      var insert := trustLine + "\n";
      if at > 0 && config[at - 1] != '\n' {
        insert := "\n" + insert;
      }
      assert insert == Inserted(config[..at], level);
      return Edited(config[..at] + insert + config[at..]);
    }
    if dottedTable {
      return Refused(DefinedByDottedKeys);
    }
    AppendedText(config, path, level);
    var escaped := TomlBasicStringEscape(path);
    var headerLine := "[projects.\"" + escaped + "\"]";
    if AllSpace(config) {
      return Edited(headerLine + "\n" + trustLine + "\n");
    }
    var out := config;
    if !EndsLine(config) {
      out := config + "\n";
    }
    return Edited(out + "\n" + headerLine + "\n" + trustLine + "\n");
  }

  /** The edit, once for every spelling of the path. */
  method EditCodexWorktreeTrust(config: Bytes, spellings: seq<Bytes>, level: Bytes) returns (r: Edit)
    ensures r == SetTrustAll(config, spellings, level)
  {
    hide SetTrust;
    var current := config;
    var i := 0;
    assert spellings[0..] == spellings;
    while i < |spellings|
      invariant i <= |spellings|
      invariant SetTrustAll(config, spellings, level) == SetTrustAll(current, spellings[i..], level)
    {
      var next := SetCodexProjectTrustLevel(current, spellings[i], level);
      assert spellings[i..][1..] == spellings[i + 1..];
      if next.Refused? {
        return next;
      }
      current := next.config;
      i := i + 1;
    }
    return Edited(current);
  }
}
