/** A document's entries are what its lines say, however their keys are spelled. */
module TomlSpoken {
  import opened Wrappers
  import opened Utf8
  import opened TomlGrammar
  import opened TomlDocument
  import opened TomlText
  import opened TomlRewrite
  import opened ProjectTrust
  import opened TrustLaws
  import Print = TomlPrint

  predicate AllValid(ls: seq<Line>) {
    forall i | 0 <= i < |ls| :: ValidLine(ls[i])
  }

  /** What a line tells a reader under the table in force. */
  function Told(l: Line, table: Path): seq<Entry>
    requires ValidLine(l)
  {
    match l
    case Empty(_, _) => []
    case Headed(_, many, key, _, _) => [Entry(if many then ArrayTable else Table, KeyMeaning(key), "")]
    case Paired(_, key, _, val, _, _) => [Entry(KeyValue, table + KeyMeaning(key), ValText(val))]
  }

  function Spoken(ls: seq<Line>, table: Path): seq<Entry>
    requires AllValid(ls)
  {
    if ls == [] then []
    else Told(ls[0], table) + Spoken(ls[1..], if ls[0].Headed? then KeyMeaning(ls[0].key) else table)
  }

  lemma SpokenMore(ls: seq<Line>, table: Path)
    requires AllValid(ls) && ls != []
    ensures ValidLine(ls[0]) && LinesText(ls) == LineText(ls[0]) + LinesText(ls[1..])
    ensures Spoken(ls, table) == Told(ls[0], table) + Spoken(ls[1..], Print.InForce(ls[0], table))
  {
    hide ValidLine, LineText, Told, KeyMeaning;
  }

  lemma ValueThere(l: Line, v: Bytes)
    requires ValidLine(l) && l.Paired?
    ensures (var start := |KeyText(l.key)| + 1 + |l.equals|;
             && start + |ValText(l.val)| == |StatementText(l)|
             && (StatementText(l) + v)[start..start + |ValText(l.val)|] == ValText(l.val))
  {
    hide KeyText, ValText;
    Print.Drop(KeyText(l.key) + "=" + l.equals, ValText(l.val));
    assert StatementText(l)[|KeyText(l.key)| + 1 + |l.equals|..] == ValText(l.val);
  }

  lemma EntryTold(l: Line, v: Bytes, st: Stmt, table: Path)
    requires ValidLine(l) && !l.Empty? && Moved(st, |Indent(l)|) == Said(l, table, 0)
    ensures st.valueStart <= st.valueEnd <= |StatementText(l) + v|
    ensures [EntryOf(StatementText(l) + v, st)] == Told(l, table)
  {
    if l.Paired? {
      ValueThere(l, v);
    }
    hide KeyText, ValText, KeyMeaning, LineText;
  }

  lemma SaysTold(l: Line, u: Bytes, table: Path, rest: seq<Entry>)
    requires ValidLine(l) && !l.Empty? && (l.nl == NoNewline ==> u == [])
    requires Entries(u, Print.InForce(l, table)) == Some(rest)
    ensures Entries(LineText(l) + u, table) == Some(Told(l, table) + rest)
  {
    hide Entries, BlankLen, GapText, StatementText, NewlineText, Statement, LineText, ValidLine, Said, Moved, Told,
         TableAfter, EntryOf, Spaces, Print.Solid, Print.InForce;
    var v := GapText(l.gap) + NewlineText(l.nl) + u;
    var s := StatementText(l) + GapText(l.gap) + NewlineText(l.nl);
    Print.LineOpens(l, u);
    Print.SolidNone(s + u);
    Print.BlankSpaces(Indent(l), s + u);
    JoinBlank(Indent(l), s + u, table);
    Print.LineRead(l, u, table);
    var st := Statement(s + u, table).value;
    Print.SameTable(l, table, st, |Indent(l)|);
    Print.Assoc4(StatementText(l), GapText(l.gap), NewlineText(l.nl), u);
    EntryTold(l, v, st, table);
    Print.Drop(s, u);
    assert (s + u)[0..] == s + u;
    Unfold(s + u, table, 0, st, rest);
  }

  lemma EmptyTold(l: Line, u: Bytes, table: Path)
    requires ValidLine(l) && l.Empty? && (l.nl == NoNewline ==> u == [])
    ensures Entries(LineText(l) + u, table) == Entries(u, table) && Told(l, table) == []
  {
    hide Entries, BlankLen;
    Print.EmptySkipped(l, u);
    JoinBlank(LineText(l), u, table);
  }

  lemma {:induction false} LinesTold(ls: seq<Line>, table: Path)
    requires ValidLines(ls)
    ensures Entries(LinesText(ls), table) == Some(Spoken(ls, table))
    decreases |ls|
  {
    hide Entries, LinesText, LineText, ValidLine, Told, Spoken, Print.InForce;
    if ls == [] {
      NoneTold(table);
    } else {
      var l, u := ls[0], LinesText(ls[1..]);
      SpokenMore(ls, table);
      if |ls| == 1 {
        NoneTold(Print.InForce(l, table));
        assert ls[1..] == [];
      }
      LinesTold(ls[1..], Print.InForce(l, table));
      if l.Empty? {
        EmptyTold(l, u, table);
        Print.EmptyNoTable(l, table);
        Print.NoneFirst(Spoken(ls[1..], table));
      } else {
        SaysTold(l, u, table, Spoken(ls[1..], Print.InForce(l, table)));
      }
    }
  }

  lemma NoneTold(table: Path)
    ensures LinesText([]) == [] && Entries([], table) == Some([]) && Spoken([], table) == []
  {
    Print.SolidNone([]);
  }

  /** The entries the trust editor works on are what the document's lines say. */
  lemma DocumentSpoken(d: Doc)
    requires ValidLines(d.lines)
    ensures Document(DocText(d)) == Some(Spoken(d.lines, []))
  {
    Print.Marked(d);
    LinesTold(d.lines, []);
    hide DocText, Start, LinesText, Spoken, Entries;
  }

  /** Two lines that say the same: only spelling, white space and comments differ. */
  predicate SameTold(l: Line, m: Line)
    requires ValidLine(l) && ValidLine(m)
  {
    match (l, m)
    case (Empty(_, _), Empty(_, _)) => true
    case (Headed(_, many, key, _, _), Headed(_, many', key', _, _)) => many == many'
        && KeyMeaning(key) == KeyMeaning(key')
    case (Paired(_, key, _, val, _, _), Paired(_, key', _, val', _, _)) =>
      KeyMeaning(key) == KeyMeaning(key') && ValText(val) == ValText(val')
    case _ => false
  }

  lemma {:induction false} SpokenAlike(ls: seq<Line>, ms: seq<Line>, table: Path)
    requires AllValid(ls) && AllValid(ms) && |ls| == |ms| && forall i | 0 <= i < |ls| :: SameTold(ls[i], ms[i])
    ensures Spoken(ls, table) == Spoken(ms, table)
    decreases |ls|
  {
    if ls != [] {
      assert SameTold(ls[0], ms[0]);
      hide KeyMeaning, ValText, ValidLine;
      SpokenAlike(ls[1..], ms[1..], if ls[0].Headed? then KeyMeaning(ls[0].key) else table);
    }
  }

  lemma SameRefusal(config: Bytes, other: Bytes, path: Bytes, level: Bytes)
    requires Document(config) == Document(other)
    ensures SetTrust(config, path, level).Refused? ==> SetTrust(other, path, level) == SetTrust(config, path, level)
  {
    hide Document;
  }

  /** Bare, basic or literal, escaped or not: however its keys are spelled, a document has
      the same entries, an edit of it is refused for the same reason, and where it succeeds
      what it leaves has the same entries too. */
  lemma SpellingsAgree(d: Doc, e: Doc, path: Bytes, level: Bytes)
    requires PlainLevel(level) && ValidLines(d.lines) && ValidLines(e.lines) && |d.lines| == |e.lines|
    requires forall i | 0 <= i < |d.lines| :: SameTold(d.lines[i], e.lines[i])
    ensures Document(DocText(d)) == Document(DocText(e))
    ensures (var a, b := SetTrust(DocText(d), path, level), SetTrust(DocText(e), path, level);
             if a.Refused? then b == a else b.Edited? && Document(b.config) == Document(a.config))
  {
    hide Document, DocText, SetTrust, ValidLine, Spoken;
    DocumentSpoken(d);
    DocumentSpoken(e);
    SpokenAlike(d.lines, e.lines, []);
    SameRefusal(DocText(d), DocText(e), path, level);
    if SetTrust(DocText(d), path, level).Edited? {
      SameRefusal(DocText(e), DocText(d), path, level);
      EditedDocument(DocText(d), path, level);
      EditedDocument(DocText(e), path, level);
    }
  }
}
