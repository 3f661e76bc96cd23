/** What an edit does to the text of a configuration, line by line: the trust levels
    that are there are written over, or one line, or one table, is put in. Every
    other byte stays. */
module TrustLines {
  import opened Wrappers
  import opened Utf8
  import opened TomlGrammar
  import opened TomlDocument
  import opened TomlRewrite
  import opened TomlText
  import opened TomlSpoken
  import opened ProjectTrust
  import Print = TomlPrint

  // ---- the edited lines

  function Plains(text: Bytes): seq<Unit> {
    if text == [] then [] else [Plain(text[0])] + Plains(text[1..])
  }

  /** The line with its value replaced by the level, if it is a trust level of the project. */
  function LeveledLine(l: Line, table: Path, path: Bytes, level: Bytes): Line
    requires ValidLine(l)
  {
    if IsTrustLine(l, table, path) then l.(val := BasicVal(Plains(level))) else l
  }

  function Leveled(ls: seq<Line>, table: Path, path: Bytes, level: Bytes): (r: seq<Line>)
    requires AllValid(ls)
    ensures |r| == |ls|
  {
    if ls == [] then []
    else [LeveledLine(ls[0], table, path, level)] + Leveled(ls[1..], Print.InForce(ls[0], table), path, level)
  }

  // ---- values written over

  lemma {:induction false} PlainsAre(level: Bytes)
    requires PlainLevel(level)
    ensures ValidUnits(Plains(level)) && UnitsText(Plains(level)) == level
  {
    if level != [] {
      PlainsAre(level[1..]);
      assert [Plain(level[0])] + Plains(level[1..]) == Plains(level);
      assert level == [level[0]] + level[1..];
    }
  }

  lemma LeveledValid(l: Line, table: Path, path: Bytes, level: Bytes)
    requires ValidLine(l) && PlainLevel(level)
    ensures ValidLine(LeveledLine(l, table, path, level)) && LeveledLine(l, table, path, level).nl == l.nl
    ensures LeveledLine(l, table, path, level).gap == l.gap && LeveledLine(l, table, path, level).Empty? == l.Empty?
    ensures Indent(LeveledLine(l, table, path, level)) == Indent(l)
  {
    PlainsAre(level);
    hide KeyMeaning, Plains;
  }

  lemma WrittenOver(l: Line, key: Bytes, val: Bytes, q: Bytes, rest: Bytes, u: Bytes, st: Stmt)
    requires l.Paired? && st.kind == KeyValue
    requires st.valueStart == |key| + 1 + |l.equals| && st.valueEnd == st.valueStart + |val|
    requires st.lineEnd == st.valueEnd + |rest|
    ensures (var t := key + "=" + l.equals + val + rest + u;
             && st.lineEnd <= |t|
             && t[..st.valueStart] + q + t[st.valueEnd..st.lineEnd] == key + "=" + l.equals + q + rest)
  {
    var a := key + "=" + l.equals;
    var t := a + val + rest + u;
    Print.Assoc4(a, val, rest, u);
    Print.Drop(a, val + rest + u);
    assert t[..|a| + |val| + |rest|] == a + val + rest;
    Print.Drop(a + val, rest);
    assert t[st.valueEnd..st.lineEnd] == (a + val + rest)[|a + val|..];
  }

  predicate IsTrustLine(l: Line, table: Path, path: Bytes)
    requires ValidLine(l)
  {
    l.Paired? && table + KeyMeaning(l.key) == ["projects", path, "trust_level"]
  }

  lemma SaidIs(l: Line, table: Path, path: Bytes, st: Stmt)
    requires ValidLine(l) && !l.Empty? && Moved(st, |Indent(l)|) == Said(l, table, 0)
    ensures st.kind == KeyValue && st.path == TrustKey(path) <==> IsTrustLine(l, table, path)
    ensures l.Paired? ==>
              && st.kind == KeyValue && st.valueStart == |KeyText(l.key)| + 1 + |l.equals|
              && st.valueEnd == st.valueStart + |ValText(l.val)|
    ensures st.lineEnd == |LineText(l)| - |Indent(l)|
  {
    hide LineText, KeyText, ValText, KeyMeaning, ValidVal;
  }

  lemma LineParts(l: Line)
    requires ValidLine(l)
    ensures |LineText(l)| == |Indent(l)| + |StatementText(l) + (GapText(l.gap) + NewlineText(l.nl))|
    ensures l.Paired? ==> l.key != [] && StatementText(l) == KeyText(l.key) + "=" + l.equals + ValText(l.val)
  {
    hide GapText, NewlineText, KeyText, ValText, Indent;
  }

  lemma UntouchedLine(s: Bytes, rest: Bytes, u: Bytes, n: nat)
    requires n == |s + rest|
    ensures (s + rest + u)[..n] == s + rest
  {
  }

  /** A statement's own text, with its value written over if it is a trust level. */
  lemma StatementLeveled(l: Line, u: Bytes, table: Path, path: Bytes, level: Bytes, st: Stmt)
    requires ValidLine(l) && !l.Empty? && PlainLevel(level)
    requires Moved(st, |Indent(l)|) == Said(l, table, 0) && st.valueStart <= st.valueEnd <= st.lineEnd
    ensures (var m, rest := LeveledLine(l, table, path, level), GapText(l.gap) + NewlineText(l.nl);
             var t := StatementText(l) + rest + u;
             && st.lineEnd <= |t|
             && ValidLine(m) && LineWith(t, st, TrustKey(path), Quoted(level)) == StatementText(m) + rest)
  {
    hide GapText, NewlineText, KeyText, ValText, ValidLine, LineText, StatementText, Said, Moved, LeveledLine,
         TrustKey, Quoted, IsTrustLine, KeyMeaning, Plains;
    var rest := GapText(l.gap) + NewlineText(l.nl);
    LeveledValid(l, table, path, level);
    LeveledIs(l, table, path, level);
    SaidIs(l, table, path, st);
    LineParts(l);
    if IsTrustLine(l, table, path) {
      WrittenOver(l, KeyText(l.key), ValText(l.val), Quoted(level), rest, u, st);
    } else {
      UntouchedLine(StatementText(l), rest, u, st.lineEnd);
    }
  }

  lemma LeveledIs(l: Line, table: Path, path: Bytes, level: Bytes)
    requires ValidLine(l) && PlainLevel(level)
    ensures (var m := LeveledLine(l, table, path, level);
             && ValidLine(m)
             && (!IsTrustLine(l, table, path) ==> m == l)
             && (IsTrustLine(l, table, path) ==>
                 l.Paired? && StatementText(m) == KeyText(l.key) + "=" + l.equals + Quoted(level)))
  {
    LeveledValid(l, table, path, level);
    if IsTrustLine(l, table, path) {
      LeveledText(l, level);
    }
    hide KeyText, ValText, KeyMeaning, Plains, StatementText, ValidLine;
  }

  lemma LeveledText(l: Line, level: Bytes)
    requires ValidLine(l) && l.Paired? && PlainLevel(level) && ValidLine(l.(val := BasicVal(Plains(level))))
    ensures StatementText(l.(val := BasicVal(Plains(level)))) == KeyText(l.key) + "=" + l.equals + Quoted(level)
  {
    PlainsAre(level);
    hide KeyText;
  }

  lemma RewrittenNothing(e: Bytes, u: Bytes, table: Path, key: Path, q: Bytes)
    requires BlankLen(e) == |e| && BlankLen(e + u) == |e| + BlankLen(u)
    ensures Rewritten(e + u, table, key, q) == e + Rewritten(u, table, key, q)
  {
    RewrittenBlank(e, u, table, key, q);
    hide BlankLen, Statement;
    assert Rewritten(e, table, key, q) == e;
  }

  lemma EmptyWhole(l: Line, u: Bytes)
    requires ValidLine(l) && l.Empty? && (l.nl == NoNewline ==> u == [])
    ensures BlankLen(LineText(l)) == |LineText(l)| && BlankLen(LineText(l) + u) == |LineText(l)| + BlankLen(u)
  {
    hide BlankLen, LineText;
    Print.EmptySkipped(l, u);
    Print.EmptySkipped(l, []);
    Print.SolidNone([]);
    assert LineText(l) + [] == LineText(l);
  }

  lemma IndentWhole(e: Bytes, u: Bytes)
    requires Spaces(e)
    ensures BlankLen(e) == |e| && BlankLen(e + u) == |e| + BlankLen(u)
  {
    hide BlankLen, Spaces;
    Print.BlankSpaces(e, u);
    Print.BlankSpaces(e, []);
    Print.SolidNone([]);
    assert e + [] == e;
  }

  /** A line that says something, and whatever follows it, rewritten. */
  lemma LineRewritten(l: Line, u: Bytes, table: Path, path: Bytes, level: Bytes)
    requires ValidLine(l) && !l.Empty? && (l.nl == NoNewline ==> u == []) && PlainLevel(level)
    ensures (var m := LeveledLine(l, table, path, level);
             && ValidLine(m)
             && Rewritten(LineText(l) + u, table, TrustKey(path), Quoted(level))
                == LineText(m) + Rewritten(u, Print.InForce(l, table), TrustKey(path), Quoted(level)))
  {
    hide BlankLen, GapText, NewlineText, StatementText, Statement, LineText, ValidLine, Said, Moved, TableAfter,
         Print.Solid, Rewritten, LineWith, LeveledLine, TrustKey, Quoted, Spaces, KeyMeaning, IsTrustLine;
    var key, q := TrustKey(path), Quoted(level);
    var m := LeveledLine(l, table, path, level);
    var rest := GapText(l.gap) + NewlineText(l.nl);
    var s := StatementText(l) + GapText(l.gap) + NewlineText(l.nl);
    var e := Indent(l);
    LeveledValid(l, table, path, level);
    Print.LineOpens(l, u);
    Print.SolidNone(s + u);
    IndentWhole(e, s + u);
    RewrittenNothing(e, s + u, table, key, q);
    Print.LineRead(l, u, table);
    Print.Assoc(StatementText(l), GapText(l.gap), NewlineText(l.nl));
    Print.Assoc4(StatementText(l), GapText(l.gap), NewlineText(l.nl), u);
    var st := Statement(s + u, table).value;
    StatementLeveled(l, u, table, path, level, st);
    Print.SameTable(l, table, st, |e|);
    StepAtOnce(s, u, table, key, q, st);
    Print.Drop(s, u);
    LineIs(m);
    Print.Assoc(e, StatementText(m) + rest, Rewritten(u, Print.InForce(l, table), key, q));
    Print.Assoc(e, StatementText(m), rest);
  }

  lemma LineIs(l: Line)
    requires ValidLine(l)
    ensures LineText(l) == Indent(l) + (StatementText(l) + (GapText(l.gap) + NewlineText(l.nl)))
  {
    hide Indent, StatementText, GapText, NewlineText, ValidLine;
  }

  lemma StepAtOnce(s: Bytes, u: Bytes, table: Path, key: Path, q: Bytes, st: Stmt)
    requires BlankLen(s + u) == 0 < |s + u| && Statement(s + u, table) == Some(st) && st.lineEnd == |s|
    ensures Rewritten(s + u, table, key, q) == LineWith(s + u, st, key, q) + Rewritten(u, TableAfter(table, st), key, q)
  {
    hide BlankLen, Statement, LineWith, Rewritten, TableAfter;
    assert (s + u)[0..] == s + u && (s + u)[..0] == [];
    RewrittenStep(s + u, table, key, q, 0, st);
    Print.Drop(s, u);
  }

  lemma LeveledMore(ls: seq<Line>, table: Path, path: Bytes, level: Bytes)
    requires ValidLines(ls) && ls != [] && PlainLevel(level)
    ensures (var m := LeveledLine(ls[0], table, path, level);
             && ValidLine(ls[0]) && ValidLine(m) && m.nl == ls[0].nl
             && Leveled(ls, table, path, level) == [m] + Leveled(ls[1..], Print.InForce(ls[0], table), path, level))
  {
    LeveledValid(ls[0], table, path, level);
    hide LeveledLine, ValidLine;
  }

  lemma LinesTextMore(l: Line, ls: seq<Line>)
    requires AllValid([l] + ls)
    ensures ValidLine(l) && AllValid(ls) && LinesText([l] + ls) == LineText(l) + LinesText(ls)
  {
    hide LineText, ValidLine;
    assert ([l] + ls)[0] == l && ([l] + ls)[1..] == ls;
    assert forall i | 0 <= i < |ls| :: ls[i] == ([l] + ls)[i + 1];
  }

  lemma ValidMore(l: Line, ls: seq<Line>)
    requires ValidLine(l) && ValidLines(ls) && (l.nl == NoNewline ==> ls == [])
    ensures ValidLines([l] + ls)
  {
    hide ValidLine;
    var all := [l] + ls;
    assert forall i | 0 < i < |all| :: all[i] == ls[i - 1];
  }

  /** Rewriting a document's values is rewriting its lines. */
  lemma {:induction false} LinesRewritten(ls: seq<Line>, table: Path, path: Bytes, level: Bytes)
    requires ValidLines(ls) && PlainLevel(level)
    ensures ValidLines(Leveled(ls, table, path, level))
    ensures Rewritten(LinesText(ls), table, TrustKey(path), Quoted(level))
         == LinesText(Leveled(ls, table, path, level))
    decreases |ls|
  {
    hide Rewritten, LinesText, LineText, ValidLine, LeveledLine, Leveled, TrustKey, Quoted, KeyMeaning;
    if ls == [] {
      NoneRewritten(table, path, level);
    } else {
      var l, rest := ls[0], ls[1..];
      var m := LeveledLine(l, table, path, level);
      LeveledMore(ls, table, path, level);
      LinesRewritten(rest, Print.InForce(l, table), path, level);
      var done := Leveled(rest, Print.InForce(l, table), path, level);
      assert ls == [l] + rest;
      LinesTextMore(l, rest);
      ValidMore(m, done);
      LinesTextMore(m, done);
      if rest == [] {
        NoneRewritten(Print.InForce(l, table), path, level);
      }
      if l.Empty? {
        EmptyWhole(l, LinesText(rest));
        RewrittenNothing(LineText(l), LinesText(rest), table, TrustKey(path), Quoted(level));
        EmptyKept(l, table, path, level);
      } else {
        LineRewritten(l, LinesText(rest), table, path, level);
      }
    }
  }

  lemma EmptyKept(l: Line, table: Path, path: Bytes, level: Bytes)
    requires ValidLine(l) && l.Empty?
    ensures LeveledLine(l, table, path, level) == l && Print.InForce(l, table) == table
  {
  }

  lemma NoneRewritten(table: Path, path: Bytes, level: Bytes)
    ensures LinesText([]) == [] && Leveled([], table, path, level) == [] && ValidLines([])
    ensures Rewritten([], table, TrustKey(path), Quoted(level)) == []
  {
    Print.SolidNone([]);
    hide BlankLen;
  }

  // ---- a line put in

  predicate IsProjectHeader(l: Line, path: Bytes)
    requires ValidLine(l)
  {
    l.Headed? && !l.many && KeyMeaning(l.key) == ["projects", path]
  }

  /** The first header of the project's table. */
  predicate FirstHeader(ls: seq<Line>, path: Bytes, j: int)
    requires AllValid(ls)
  {
    0 <= j < |ls| && IsProjectHeader(ls[j], path) && forall i | 0 <= i < j :: !IsProjectHeader(ls[i], path)
  }

  predicate AnyTrustLine(ls: seq<Line>, table: Path, path: Bytes)
    requires AllValid(ls)
  {
    ls != [] && (IsTrustLine(ls[0], table, path) || AnyTrustLine(ls[1..], Print.InForce(ls[0], table), path))
  }

  lemma {:induction false} TrustIs(ls: seq<Line>, table: Path, path: Bytes)
    requires AllValid(ls)
    ensures HasTrust(Spoken(ls, table), path) <==> AnyTrustLine(ls, table, path)
    decreases |ls|
  {
    if ls != [] {
      var l := ls[0];
      SpokenMore(ls, table);
      TrustIs(ls[1..], Print.InForce(l, table), path);
      ToldIs(l, table, path);
      HasTrustJoin(Told(l, table), Spoken(ls[1..], Print.InForce(l, table)), path);
      hide Told, Spoken, ValidLine, IsTrustLine, HasTrust, KeyMeaning;
    }
  }

  lemma OneTrust(e: Entry, path: Bytes)
    ensures HasTrust([e], path) <==> Trusts(e, path)
    ensures !HasTrust([], path)
  {
    hide Trusts;
    assert e in [e];
  }

  lemma ToldIs(l: Line, table: Path, path: Bytes)
    requires ValidLine(l)
    ensures HasTrust(Told(l, table), path) <==> IsTrustLine(l, table, path)
    ensures if l.Empty? then Told(l, table) == [] else |Told(l, table)| == 1
    ensures !l.Empty? ==> (Heads(Told(l, table)[0], path) <==> IsProjectHeader(l, path))
  {
    hide KeyMeaning, ValText, ValidKey, ValidVal, HasTrust;
    OneTrust(if l.Empty? then Entry(Table, [], []) else Told(l, table)[0], path);
    assert !l.Empty? ==> Told(l, table) == [Told(l, table)[0]];
  }

  lemma HasTrustJoin(a: seq<Entry>, b: seq<Entry>, path: Bytes)
    ensures HasTrust(a + b, path) <==> HasTrust(a, path) || HasTrust(b, path)
  {
    hide Trusts;
  }

  lemma CutSkips(e: Bytes, u: Bytes, table: Path, h: nat)
    requires BlankLen(e + u) == |e| + BlankLen(u) && CutAt(u, table, h) > 0
    ensures CutAt(e + u, table, h) == |e| + CutAt(u, table, h)
  {
    hide BlankLen, Statement;
    var k := BlankLen(u);
    assert (e + u)[|e| + k..] == u[k..];
    if k < |u| && Statement(u[k..], table).Some? {
      var n := Statement(u[k..], table).value.lineEnd;
      assert (e + u)[|e| + k + n..] == u[k + n..];
    }
  }

  lemma CutLine(l: Line, u: Bytes, table: Path, h: nat)
    requires ValidLine(l) && !l.Empty? && (l.nl == NoNewline ==> u == [])
    requires h > 0 ==> CutAt(u, Print.InForce(l, table), h - 1) > 0
    ensures CutAt(LineText(l) + u, table, h)
         == |LineText(l)| + if h == 0 then 0 else CutAt(u, Print.InForce(l, table), h - 1)
  {
    hide BlankLen, GapText, NewlineText, StatementText, Statement, LineText, ValidLine, Said, Moved, TableAfter,
         Print.Solid, Spaces, KeyMeaning, CutAt;
    var s := StatementText(l) + GapText(l.gap) + NewlineText(l.nl);
    Print.LineOpens(l, u);
    Print.SolidNone(s + u);
    IndentWhole(Indent(l), s + u);
    Print.LineRead(l, u, table);
    var st := Statement(s + u, table).value;
    Print.SameTable(l, table, st, |Indent(l)|);
    Print.Assoc4(StatementText(l), GapText(l.gap), NewlineText(l.nl), u);
    assert (s + u)[0..] == s + u;
    Print.Drop(s, u);
    var n := CutOne(s + u, table, h, 0, st);
    CutSkips(Indent(l), s + u, table, h);
  }

  lemma SpokenNone(ls: seq<Line>, table: Path)
    requires ValidLines(ls)
    ensures AllValid(ls) && (ls == [] ==> Spoken(ls, table) == [])
  {
    hide ValidLine;
  }

  lemma FirstValid(ls: seq<Line>)
    requires ValidLines(ls) && ls != []
    ensures ValidLine(ls[0]) && ValidLines(ls[1..]) && AllValid(ls) && (ls[0].nl == NoNewline ==> ls[1..] == [])
    ensures ls[1..] == [] ==> LinesText(ls[1..]) == []
  {
    hide ValidLine;
    assert forall i | 0 <= i < |ls[1..]| :: ls[1..][i] == ls[i + 1];
  }

  lemma SpokenFirst(ls: seq<Line>, table: Path, path: Bytes)
    requires AllValid(ls) && ls != []
    ensures ValidLine(ls[0]) && AllValid(ls[1..])
    ensures (var rest := Spoken(ls[1..], Print.InForce(ls[0], table));
             && |Spoken(ls, table)| == |rest| + (if ls[0].Empty? then 0 else 1)
             && HeaderIndex(Spoken(ls, table), path)
                == if ls[0].Empty? then HeaderIndex(rest, path)
                   else if IsProjectHeader(ls[0], path) then 0 else 1 + HeaderIndex(rest, path))
  {
    var l, next := ls[0], Print.InForce(ls[0], table);
    SpokenMore(ls, table);
    ToldIs(l, table, path);
    hide Told, ValidLine, KeyMeaning, Heads, Spoken, IsProjectHeader;
    var told, rest := Told(l, table), Spoken(ls[1..], next);
    assert (told + rest)[|told|..] == rest;
    if told == [] {
      assert told + rest == rest;
    } else {
      assert (told + rest)[1..] == rest;
    }
  }

  lemma LineUnlike(l: Line, path: Bytes)
    requires ValidLine(l)
    ensures l.Empty? ==> !IsProjectHeader(l, path)
  {
    hide ValidLine, KeyMeaning;
  }

  lemma OneLineText(ls: seq<Line>)
    requires AllValid(ls) && ls != [] && !ls[0].Empty?
    ensures LinesText(ls[..1]) == LineText(ls[0]) != []
  {
    Print.LineUnmarked(ls[0]);
    hide LineText, ValidLine;
    assert LineText(ls[0]) + [] == LineText(ls[0]);
  }

  lemma PrefixText(ls: seq<Line>, k: nat)
    requires AllValid(ls) && k < |ls|
    ensures AllValid(ls[1..]) && LinesText(ls[..k + 1]) == LineText(ls[0]) + LinesText(ls[1..][..k])
  {
    hide LineText, ValidLine;
    assert ls[..k + 1][1..] == ls[1..][..k];
  }

  lemma HeadersLater(ls: seq<Line>, path: Bytes, j: nat)
    requires AllValid(ls) && ls != [] && j < |ls| && !IsProjectHeader(ls[0], path)
    requires forall i | 0 <= i < |ls[1..]| && i < j :: !IsProjectHeader(ls[1..][i], path)
    ensures forall i | 0 <= i < |ls| && i < j + 1 :: !IsProjectHeader(ls[i], path)
  {
    hide ValidLine, IsProjectHeader;
    forall i | 0 <= i < |ls| && i < j + 1 ensures !IsProjectHeader(ls[i], path) {
      if i > 0 {
        assert ls[i] == ls[1..][i - 1];
      }
    }
  }

  /** Where the first header's statement ends is where its line ends. */
  lemma {:induction false} HeaderEndsAt(ls: seq<Line>, table: Path, path: Bytes) returns (j: nat)
    requires ValidLines(ls)
    ensures (var es := Spoken(ls, table);
             var h := HeaderIndex(es, path);
             && j <= |ls| && (j == |ls| <==> h == |es|)
             && (forall i | 0 <= i < |ls| && i < j :: !IsProjectHeader(ls[i], path))
             && (j < |ls| ==>
                 && IsProjectHeader(ls[j], path)
                 && CutAt(LinesText(ls), table, h) == |LinesText(ls[..j + 1])| > 0))
    decreases |ls|
  {
    hide Spoken, HeaderIndex, CutAt, LinesText, LineText, ValidLine, KeyMeaning, IsProjectHeader, BlankLen,
         Print.InForce;
    j := 0;
    SpokenNone(ls, table);
    if ls != [] {
      var l, rest := ls[0], ls[1..];
      var next := Print.InForce(l, table);
      FirstValid(ls);
      j := HeaderEndsAt(rest, next, path);
      var es, h := Spoken(rest, next), HeaderIndex(Spoken(rest, next), path);
      ToldIs(l, table, path);
      SpokenFirst(ls, table, path);
      assert ls == [l] + rest;
      LinesTextMore(l, rest);
      if l.Empty? {
        EmptyWhole(l, LinesText(rest));
        EmptyKept(l, table, path, []);
      }
      LineUnlike(l, path);
      if !l.Empty? && IsProjectHeader(l, path) {
        j := 0;
        CutLine(l, LinesText(rest), table, 0);
        OneLineText(ls);
      } else {
        if j < |rest| {
          if l.Empty? {
            CutSkips(LineText(l), LinesText(rest), table, h);
          } else {
            CutLine(l, LinesText(rest), table, h + 1);
          }
          PrefixText(ls, j + 1);
        }
        HeadersLater(ls, path, j);
        j := j + 1;
      }
    }
  }

  // ---- the edit

  /** The text with a trust line put in after `a`, on a line of its own. */
  function NewTrustLine(level: Bytes): Bytes {
    "trust_level = " + "\"" + level + "\"" + "\n"
  }

  function WithTrustLine(a: Bytes, level: Bytes, b: Bytes): Bytes {
    if a == [] || a[|a| - 1] == '\n' then a + NewTrustLine(level) + b else a + "\n" + NewTrustLine(level) + b
  }

  /** The header of a project's table: its path escaped as a basic string. */
  function HeaderOf(path: Bytes): Bytes {
    "[projects.\"" + Escaped(path) + "\"]\n"
  }

  /** The text with the project's table after it, a blank line between them; blank text is
      given up. */
  function WithTable(text: Bytes, path: Bytes, level: Bytes): Bytes {
    if AllSpace(text) then WithTrustLine(HeaderOf(path), level, "")
    else WithTrustLine(text + (if EndsLine(text) then "" else "\n") + "\n" + HeaderOf(path), level, "")
  }

  lemma EditIs(config: Bytes, es: seq<Entry>, path: Bytes, level: Bytes)
    requires Document(config) == Some(es) && SetTrust(config, path, level).Edited?
    ensures (var out, k, h := SetTrust(config, path, level).config, Start(config), HeaderIndex(es, path);
             && (HasTrust(es, path) ==> out == config[..k] + Rewritten(config[k..], [], TrustKey(path), Quoted(level)))
             && (!HasTrust(es, path) && h < |es| ==>
                 (var n := k + CutAt(config[k..], [], h);
                  out == config[..n] + Inserted(config[..n], level) + config[n..]))
             && (!HasTrust(es, path) && h == |es| ==> out == Appended(config, path, level)))
  {
    hide Document, Rewritten, CutAt, Inserted, Appended, FirstObjection, HasTrust, HeaderIndex, HasDotted, Start;
  }

  /** A document's text after its mark, and the entries it has. */
  lemma TextOf(d: Doc)
    requires ValidLines(d.lines)
    ensures AllValid(d.lines) && Document(DocText(d)) == Some(Spoken(d.lines, []))
    ensures (var t, k := DocText(d), Start(DocText(d));
             && t[k..] == LinesText(d.lines) && t[..k] == Print.MarkText(d) && k == |Print.MarkText(d)|
             && t == Print.MarkText(d) + LinesText(d.lines))
  {
    Print.Marked(d);
    DocumentSpoken(d);
    hide ValidLine, LinesText, Spoken, Document, Start;
    var t := DocText(d);
    assert t == Print.MarkText(d) + LinesText(d.lines);
    Print.Drop(Print.MarkText(d), LinesText(d.lines));
  }

  lemma DocTextIs(d: Doc)
    requires ValidLines(d.lines)
    ensures DocText(d) == Print.MarkText(d) + LinesText(d.lines)
  {
    hide ValidLine, LinesText;
  }

  /** Where the project's trust level is there, an edit writes over it, wherever it stands
      and however often, and leaves every other byte as it was. */
  lemma LevelsText(d: Doc, path: Bytes, level: Bytes)
    requires ValidLines(d.lines) && PlainLevel(level) && SetTrust(DocText(d), path, level).Edited?
    requires AllValid(d.lines) && AnyTrustLine(d.lines, [], path)
    ensures ValidLines(Leveled(d.lines, [], path, level))
    ensures SetTrust(DocText(d), path, level).config == DocText(Doc(d.mark, Leveled(d.lines, [], path, level)))
  {
    hide SetTrust, DocText, LinesText, ValidLine, Leveled, Rewritten, AnyTrustLine, Spoken, Document, Start,
         TrustKey, Quoted;
    TextOf(d);
    TrustIs(d.lines, [], path);
    LinesRewritten(d.lines, [], path, level);
    EditIs(DocText(d), Spoken(d.lines, []), path, level);
    DocTextIs(Doc(d.mark, Leveled(d.lines, [], path, level)));
  }

  lemma TrustLineIs(level: Bytes)
    ensures TrustLine(level) == NewTrustLine(level)
  {
    Print.Assoc4("trust_level = ", "\"", level, "\"");
  }

  lemma InsertedIs(a: Bytes, level: Bytes, b: Bytes)
    ensures a + Inserted(a, level) + b == WithTrustLine(a, level, b)
  {
    TrustLineIs(level);
    hide TrustLine;
    Print.Assoc(a, "\n", TrustLine(level));
    assert a + "" == a;
  }

  lemma FirstHeaderIs(ls: seq<Line>, path: Bytes, i: nat, j: int)
    requires AllValid(ls) && i < |ls| && IsProjectHeader(ls[i], path) && FirstHeader(ls, path, j)
    requires forall k | 0 <= k < |ls| && k < i :: !IsProjectHeader(ls[k], path)
    ensures i == j
  {
    hide IsProjectHeader, ValidLine;
  }

  lemma PrefixValid(ls: seq<Line>, j: nat)
    requires ValidLines(ls) && j < |ls|
    ensures ValidLines(ls[..j + 1])
  {
    hide ValidLine;
  }

  lemma {:induction false} LinesSplit(ls: seq<Line>, j: nat)
    requires AllValid(ls) && j <= |ls|
    ensures LinesText(ls[..j]) <= LinesText(ls)
    decreases |ls|
  {
    hide LineText, ValidLine;
    if j > 0 {
      LinesSplit(ls[1..], j - 1);
      assert ls[..j][1..] == ls[1..][..j - 1];
      Print.Assoc(LineText(ls[0]), LinesText(ls[1..][..j - 1]), LinesText(ls[1..])[|LinesText(ls[1..][..j - 1])|..]);
    }
  }

  /** Where it is not, but the project's table has a header, an edit puts one line in
      after that header's line. */
  lemma InsertedText(d: Doc, path: Bytes, level: Bytes, j: nat)
    requires ValidLines(d.lines) && PlainLevel(level) && SetTrust(DocText(d), path, level).Edited?
    requires AllValid(d.lines) && !AnyTrustLine(d.lines, [], path) && FirstHeader(d.lines, path, j)
    ensures j < |d.lines| && ValidLines(d.lines[..j + 1])
    ensures (var a, text := DocText(Doc(d.mark, d.lines[..j + 1])), DocText(d);
             && a <= text && SetTrust(text, path, level).config == WithTrustLine(a, level, text[|a|..]))
  {
    hide SetTrust, DocText, LinesText, ValidLine, AnyTrustLine, Spoken, Document, Start, CutAt, Inserted, WithTrustLine,
         IsProjectHeader;
    TextOf(d);
    TrustIs(d.lines, [], path);
    EditIs(DocText(d), Spoken(d.lines, []), path, level);
    var i := HeaderEndsAt(d.lines, [], path);
    FirstHeaderIs(d.lines, path, if i < |d.lines| then i else j, j);
    PrefixValid(d.lines, j);
    DocTextIs(Doc(d.mark, d.lines[..j + 1]));
    LinesSplit(d.lines, j + 1);
    var a, text := DocText(Doc(d.mark, d.lines[..j + 1])), DocText(d);
    Print.Assoc(Print.MarkText(d), LinesText(d.lines[..j + 1]), LinesText(d.lines)[|LinesText(d.lines[..j + 1])|..]);
    assert text[..|a|] == a;
    InsertedIs(a, level, text[|a|..]);
  }

  lemma SomeHeaderAt(ls: seq<Line>, path: Bytes) returns (j: nat)
    requires ValidLines(ls) && AllValid(ls) && HeaderIndex(Spoken(ls, []), path) < |Spoken(ls, [])|
    ensures FirstHeader(ls, path, j)
  {
    j := HeaderEndsAt(ls, [], path);
    hide ValidLine, Spoken, IsProjectHeader, CutAt, LinesText;
  }

  lemma NoHeaderAt(ls: seq<Line>, path: Bytes)
    requires ValidLines(ls) && AllValid(ls) && forall j :: !FirstHeader(ls, path, j)
    ensures HeaderIndex(Spoken(ls, []), path) == |Spoken(ls, [])|
  {
    hide ValidLine, Spoken, FirstHeader;
    if HeaderIndex(Spoken(ls, []), path) != |Spoken(ls, [])| {
      var j := SomeHeaderAt(ls, path);
    }
  }

  /** And where there is neither, a table is put after the whole text. */
  lemma AppendedText(d: Doc, path: Bytes, level: Bytes)
    requires ValidLines(d.lines) && PlainLevel(level) && SetTrust(DocText(d), path, level).Edited?
    requires AllValid(d.lines) && !AnyTrustLine(d.lines, [], path) && forall j :: !FirstHeader(d.lines, path, j)
    ensures SetTrust(DocText(d), path, level).config == WithTable(DocText(d), path, level)
  {
    hide SetTrust, DocText, ValidLine, AnyTrustLine, Spoken, Document, Start, CutAt, Inserted, FirstHeader, Rewritten,
         WithTable, Appended, HasTrust, HeaderIndex, LinesText;
    TextOf(d);
    TrustIs(d.lines, [], path);
    NoHeaderAt(d.lines, path);
    EditIs(DocText(d), Spoken(d.lines, []), path, level);
    AppendedIs(DocText(d), path, level);
  }

  lemma AppendedIs(text: Bytes, path: Bytes, level: Bytes)
    ensures Appended(text, path, level) == WithTable(text, path, level)
  {
    hide AllSpace, Escaped, EndsLine;
    var table := HeaderOf(path);
    var line := TrustLine(level);
    AfterNewline(table, level);
    var gap: Bytes := text + (if EndsLine(text) then "" else "\n") + "\n";
    assert (gap + table)[|gap + table| - 1] == '\n';
    AfterNewline(gap + table, level);
    Print.Assoc(gap, table, line);
    assert EndsLine(text) ==> gap == text + "\n";
  }

  lemma AfterNewline(a: Bytes, level: Bytes)
    requires a != [] && a[|a| - 1] == '\n'
    ensures WithTrustLine(a, level, "") == a + TrustLine(level)
  {
    InsertedIs(a, level, "");
  }
}
