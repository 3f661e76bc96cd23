/** Reading back what is written: the grammar gives of every document's text exactly
    the statements the document says. */
module TomlPrint {
  import opened Wrappers
  import opened Utf8
  import opened TomlGrammar
  import opened TomlText

  lemma Drop(a: Bytes, b: Bytes)
    ensures (a + b)[|a|..] == b && (a + b)[..|a|] == a
  {
  }

  // ---- blanks

  /** Text that begins with no white space and no comment. */
  predicate Solid(t: Bytes) {
    t == [] || t[0] !in {' ', '\t', '#', '\n', '\r'}
  }

  lemma {:induction false} SpaceRun(sp: Bytes, u: Bytes)
    requires Spaces(sp)
    ensures SpaceLen(sp + u) == |sp| + SpaceLen(u)
  {
    if sp == [] {
      assert sp + u == u;
    } else {
      assert (sp + u)[1..] == sp[1..] + u;
      SpaceRun(sp[1..], u);
    }
  }

  lemma {:induction false} LineRun(text: Bytes, u: Bytes)
    requires OneLine(text)
    ensures LineLen(text + u) == |text| + LineLen(u)
  {
    if text == [] {
      assert text + u == u;
    } else {
      assert (text + u)[1..] == text[1..] + u;
      assert text[0] in text;
      LineRun(text[1..], u);
    }
  }

  lemma SolidNone(u: Bytes)
    requires Solid(u)
    ensures SpaceLen(u) == 0 && GapLen(u) == 0 && NewlineLen(u) == 0 && BlankLen(u) == 0
  {
    assert u[0..] == u;
  }

  lemma GapSpaces(sp: Bytes, u: Bytes)
    requires Spaces(sp)
    ensures GapLen(sp + u) == |sp| + GapLen(u)
  {
    SpaceRun(sp, u);
    assert (sp + u)[|sp| + SpaceLen(u)..] == u[SpaceLen(u)..];
  }

  lemma BlankUnfold(t: Bytes)
    ensures (var g := GapLen(t);
             var nl := NewlineLen(t[g..]);
             BlankLen(t) == if nl == 0 then g else g + nl + BlankLen(t[g + nl..]))
  {
    hide GapLen, NewlineLen;
  }

  lemma BlankSpaces(sp: Bytes, u: Bytes)
    requires Spaces(sp)
    ensures BlankLen(sp + u) == |sp| + BlankLen(u)
  {
    hide BlankLen, GapLen, NewlineLen;
    GapSpaces(sp, u);
    BlankUnfold(sp + u);
    BlankUnfold(u);
    var g := GapLen(u);
    assert (sp + u)[|sp| + g..] == u[g..];
    var nl := NewlineLen(u[g..]);
    assert (sp + u)[|sp| + g + nl..] == u[g + nl..];
  }

  /** A comment takes the carriage return of its line's end with it. */
  function CommentRest(nl: Newline): nat {
    if nl == CRLF then 1 else 0
  }

  lemma NewlineRun(nl: Newline, u: Bytes)
    requires nl != NoNewline
    ensures SpaceLen(NewlineText(nl) + u) == 0 && CommentLen(NewlineText(nl) + u) == 0
    ensures NewlineLen(NewlineText(nl) + u) == |NewlineText(nl)| && LineLen(NewlineText(nl) + u) == CommentRest(nl)
    ensures NewlineLen((NewlineText(nl) + u)[CommentRest(nl)..]) == |NewlineText(nl)| - CommentRest(nl)
  {
    var t := NewlineText(nl) + u;
    if nl == CRLF {
      assert t[..2] == "\r\n" && t[1..][0] == '\n';
    }
  }

  lemma Assoc(a: Bytes, b: Bytes, c: Bytes)
    ensures a + (b + c) == a + b + c
  {
  }

  lemma Assoc4(a: Bytes, b: Bytes, c: Bytes, d: Bytes)
    ensures a + (b + c + d) == a + b + c + d
  {
    Assoc(a, b + c, d);
    Assoc(a, b, c);
  }

  lemma PlainGapRun(sp: Bytes, v: Bytes)
    requires Spaces(sp) && SpaceLen(v) == 0 && CommentLen(v) == 0
    ensures GapLen(sp + v) == |sp| && (sp + v)[|sp|..] == v
  {
    hide SpaceLen, CommentLen, Spaces;
    GapSpaces(sp, v);
    assert v[0..] == v;
  }

  lemma HashLine(c: Bytes)
    requires OneLine(c)
    ensures OneLine("#" + c)
  {
  }

  lemma HashGap(h: Bytes)
    requires Starts(h, '#')
    ensures GapLen(h) == LineLen(h)
  {
    assert h[0..] == h;
  }

  lemma CommentGapRun(sp: Bytes, c: Bytes, v: Bytes)
    requires Spaces(sp) && OneLine(c)
    ensures GapLen(sp + ("#" + c + v)) == |sp| + 1 + |c| + LineLen(v)
    ensures (sp + ("#" + c + v))[|sp| + 1 + |c|..] == v
  {
    hide LineLen, Spaces, OneLine, GapLen;
    var h: Bytes := "#" + c;
    GapSpaces(sp, h + v);
    HashLine(c);
    LineRun(h, v);
    HashGap(h + v);
    Assoc(sp, h, v);
    Drop(sp + h, v);
  }

  lemma NoLineLeft()
    ensures SpaceLen([]) == 0 && CommentLen([]) == 0 && LineLen([]) == 0 && NewlineLen([]) == 0
  {
  }

  /** What a gap and the newline after it come to for the grammar, which counts a
      carriage return to the comment before it. */
  lemma GapRun(g: Gap, nl: Newline, u: Bytes)
    requires ValidGap(g) && (nl == NoNewline ==> u == [])
    ensures (var t := GapText(g) + NewlineText(nl) + u;
             var n := |GapText(g)| + if g.comment.Some? then CommentRest(nl) else 0;
             && GapLen(t) == n && NewlineLen(t[n..]) == |GapText(g)| + |NewlineText(nl)| - n)
  {
    hide GapLen, SpaceLen, LineLen, CommentLen, NewlineLen, Spaces, OneLine, NewlineText;
    var v := NewlineText(nl) + u;
    assert GapText(g) + NewlineText(nl) + u == GapText(g) + v;
    if nl != NoNewline {
      NewlineRun(nl, u);
    } else {
      NoLineLeft();
      NoNewlineText();
      assert v == [];
    }
    if g.comment.None? {
      GapPlain(g);
      PlainGapRun(g.spaces, v);
    } else {
      var c := "#" + g.comment.value;
      CommentGapRun(g.spaces, g.comment.value, v);
      GapCommented(g, v);
      DropMore(GapText(g), v, CommentRest(nl));
    }
  }

  lemma NoNewlineText()
    ensures NewlineText(NoNewline) == ""
  {
  }

  lemma GapPlain(g: Gap)
    requires g.comment.None?
    ensures GapText(g) == g.spaces
  {
  }

  lemma GapCommented(g: Gap, v: Bytes)
    requires g.comment.Some?
    ensures GapText(g) + v == g.spaces + ("#" + g.comment.value + v)
    ensures |GapText(g)| == |g.spaces| + 1 + |g.comment.value|
  {
  }

  lemma DropMore(a: Bytes, v: Bytes, k: nat)
    requires k <= |v|
    ensures (a + v)[|a| + k..] == v[k..]
  {
  }

  lemma BlankLineRun(l: BlankLine, u: Bytes)
    requires ValidGap(l.gap) && l.nl != NoNewline
    ensures BlankLen(GapText(l.gap) + NewlineText(l.nl) + u) == |GapText(l.gap)| + |NewlineText(l.nl)| + BlankLen(u)
  {
    var t := GapText(l.gap) + NewlineText(l.nl) + u;
    GapRun(l.gap, l.nl, u);
    hide GapLen, GapText;
    Drop(GapText(l.gap) + NewlineText(l.nl), u);
  }

  lemma {:induction false} BlankLinesRun(ls: seq<BlankLine>, u: Bytes)
    requires forall i | 0 <= i < |ls| :: ValidGap(ls[i].gap) && ls[i].nl != NoNewline
    ensures BlankLen(BlankLinesText(ls) + u) == |BlankLinesText(ls)| + BlankLen(u)
  {
    hide BlankLen, GapText;
    if ls == [] {
      assert BlankLinesText(ls) + u == u;
    } else {
      var first := GapText(ls[0].gap) + NewlineText(ls[0].nl);
      BlankLineRun(ls[0], BlankLinesText(ls[1..]) + u);
      BlankLinesRun(ls[1..], u);
      assert BlankLinesText(ls) + u == first + (BlankLinesText(ls[1..]) + u);
    }
  }

  lemma BlanksRun(b: Blanks, u: Bytes)
    requires ValidBlanks(b)
    ensures BlankLen(BlanksText(b) + u) == |BlanksText(b)| + BlankLen(u)
  {
    hide BlankLen, BlankLinesText;
    BlankLinesRun(b.lines, b.spaces + u);
    BlankSpaces(b.spaces, u);
    assert BlanksText(b) + u == BlankLinesText(b.lines) + (b.spaces + u);
  }

  lemma EndLineRun(g: Gap, nl: Newline, u: Bytes)
    requires ValidGap(g) && (nl == NoNewline ==> u == [])
    ensures EndLine(GapText(g) + NewlineText(nl) + u) == Some(|GapText(g)| + |NewlineText(nl)|)
  {
    GapRun(g, nl, u);
    hide GapLen, GapText;
  }

  // ---- strings

  lemma {:induction false} NumberLast(d: Bytes, c: Byte, high: nat)
    ensures Number(d + [c], high) == 16 * Number(d, high) + DigitOf(c)
  {
    if d == [] {
      assert (d + [c])[1..] == [];
    } else {
      assert (d + [c])[1..] == d[1..] + [c];
      NumberLast(d[1..], c, 16 * high + DigitOf(d[0]));
    }
  }

  lemma {:induction false} HexRead(d: Bytes)
    requires Hexadecimal(d)
    ensures HexValue(d) == Some(Number(d, 0))
  {
    if d != [] {
      var n := |d| - 1;
      HexRead(d[..n]);
      NumberLast(d[..n], d[n], 0);
      assert d == d[..n] + [d[n]];
    }
  }

  lemma EscapeRead(u: Unit, t: Bytes)
    requires ValidUnit(u) && !u.Plain?
    ensures Escape(UnitText(u) + t) == Some(Token(UnitMeaning(u), |UnitText(u)|))
  {
    var s := UnitText(u) + t;
    if u.Short? {
      assert s[1] == u.c;
      assert SimpleEscape(u.c) == Some(ShortMeaning(u.c));
    } else {
      assert s[1] == u.form && s[2..2 + |u.digits|] == u.digits;
      HexRead(u.digits);
      assert SimpleEscape(u.form).None? && EscapeDigits(u.form) == |u.digits|;
      hide HexValue, EncodeRune, Number;
    }
  }

  lemma BodyStep(u: Unit, v: Bytes, b: Token)
    requires ValidUnit(u) && BasicBody(v) == Some(b)
    ensures BasicBody(UnitText(u) + v) == Some(Token(UnitMeaning(u) + b.text, |UnitText(u)| + b.len))
  {
    hide Escape;
    var s := UnitText(u) + v;
    if u.Plain? {
      assert s[0] == u.c && s[1..] == v;
    } else {
      EscapeRead(u, v);
      Drop(UnitText(u), v);
      hide UnitMeaning;
      assert s[0] == '\\';
    }
  }

  lemma QuoteCloses(t: Bytes)
    ensures BasicBody("\"" + t) == Some(Token([], 1))
  {
  }

  lemma UnitsMore(us: seq<Unit>)
    requires ValidUnits(us)
    ensures us == [] ==> UnitsText(us) == "" && UnitsMeaning(us) == ""
    ensures us != [] ==>
              && ValidUnit(us[0]) && ValidUnits(us[1..])
              && UnitsText(us) == UnitText(us[0]) + UnitsText(us[1..])
              && UnitsMeaning(us) == UnitMeaning(us[0]) + UnitsMeaning(us[1..])
  {
    hide ValidUnit, UnitText, UnitMeaning;
  }

  lemma {:induction false} BodyRead(us: seq<Unit>, t: Bytes)
    requires ValidUnits(us)
    ensures BasicBody(UnitsText(us) + "\"" + t) == Some(Token(UnitsMeaning(us), |UnitsText(us)| + 1))
    decreases |us|
  {
    hide BasicBody, UnitText, UnitMeaning, UnitsText, UnitsMeaning, ValidUnit;
    UnitsMore(us);
    var s := UnitsText(us) + "\"" + t;
    if us == [] {
      assert s == "\"" + t;
      QuoteCloses(t);
    } else {
      var u, v := us[0], UnitsText(us[1..]) + "\"" + t;
      assert s == UnitText(u) + v;
      BodyRead(us[1..], t);
      BodyStep(u, v, BasicBody(v).value);
    }
  }

  lemma {:induction false} LiteralRead(text: Bytes, t: Bytes)
    requires LiteralText(text)
    ensures LiteralLen(text + "'" + t) == Some(|text|)
  {
    var s := text + "'" + t;
    if text != [] {
      assert text[0] in text;
      assert s[0] == text[0] && s[1..] == text[1..] + "'" + t;
      LiteralRead(text[1..], t);
    }
  }

  // ---- keys

  /** What may follow a segment: nothing that would prolong it. */
  predicate Stops(t: Bytes) {
    t == [] || (!IsBareKeyByte(t[0]) && t[0] != '"' && t[0] != '\'')
  }

  lemma {:induction false} BareRead(text: Bytes, t: Bytes)
    requires (forall i | 0 <= i < |text| :: KeyByte(text[i])) && Stops(t)
    ensures BareKeyLen(text + t) == |text|
  {
    if text == [] {
      assert text + t == t;
    } else {
      assert KeyByte(text[0]);
      assert (text + t)[1..] == text[1..] + t;
      BareRead(text[1..], t);
    }
  }

  lemma UnitsFirst(us: seq<Unit>, t: Bytes)
    requires ValidUnits(us)
    ensures us != [] ==> (UnitsText(us) + t)[0] != '"'
  {
    if us != [] {
      assert ValidUnit(us[0]);
    }
  }

  lemma TripleBytes(s: Bytes, q: Byte)
    requires [q, q, q] <= s
    ensures s[1] == q && s[2] == q
  {
    assert s[1] == s[..3][1] && s[2] == s[..3][2];
  }

  lemma NotTriple(s: Bytes, q: Byte)
    requires |s| < 3 || s[1] != q || s[2] != q
    ensures !([q, q, q] <= s)
  {
    if [q, q, q] <= s {
      TripleBytes(s, q);
    }
  }

  lemma QuoteOpens(a: Bytes, q: Byte, t: Bytes)
    requires (t == [] || t[0] != q) && (a == [] || a[0] != q)
    ensures (var s := [q] + a + [q] + t; s[0] == q && s[1..] == a + [q] + t && !([q, q, q] <= s))
  {
    var s := [q] + a + [q] + t;
    if a == [] {
      assert s == [q, q] + t;
      assert t == [] || s[2] == t[0];
    } else {
      assert s[1] == a[0];
    }
    NotTriple(s, q);
  }

  lemma BasicOpens(us: seq<Unit>, t: Bytes)
    requires ValidUnits(us) && (t == [] || t[0] != '"')
    ensures (var s := "\"" + UnitsText(us) + "\"" + t;
             s[0] == '"' && s[1..] == UnitsText(us) + "\"" + t && !("\"\"\"" <= s))
  {
    UnitsFirst(us, "");
    assert UnitsText(us) + "" == UnitsText(us);
    hide UnitsText;
    QuoteOpens(UnitsText(us), '"', t);
  }

  lemma LiteralOpens(text: Bytes, t: Bytes)
    requires LiteralText(text) && (t == [] || t[0] != '\'')
    ensures (var s := "'" + text + "'" + t; s[0] == '\'' && s[1..] == text + "'" + t && !("'''" <= s))
  {
    assert text != [] ==> text[0] in text;
    QuoteOpens(text, '\'', t);
  }

  lemma BareKeyStep(text: Bytes, t: Bytes)
    requires text != [] && BareKeyLen(text + t) == |text| && text[0] != '"' && text[0] != '\''
    ensures SimpleKey(text + t) == Some(Token(text, |text|))
  {
    hide BareKeyLen;
    Drop(text, t);
  }

  lemma BasicKeyStep(s: Bytes, b: Token)
    requires Starts(s, '"') && !("\"\"\"" <= s) && BasicBody(s[1..]) == Some(b)
    ensures SimpleKey(s) == Some(Token(b.text, 1 + b.len))
  {
    hide BasicBody;
  }

  lemma LiteralKeyStep(s: Bytes, n: nat)
    requires Starts(s, '\'') && !("'''" <= s) && LiteralLen(s[1..]) == Some(n)
    ensures SimpleKey(s) == Some(Token(s[1..1 + n], n + 2))
  {
    hide LiteralLen;
  }

  lemma Quoted(q: Byte, a: Bytes, t: Bytes)
    ensures (var s := [q] + a + [q] + t; |s| >= |a| + 2 && s[1..1 + |a|] == a)
  {
  }

  lemma SegRead(g: Seg, t: Bytes)
    requires ValidSeg(g) && Stops(t)
    ensures SimpleKey(SegText(g) + t) == Some(Token(SegMeaning(g), |SegText(g)|))
  {
    hide SimpleKey, BasicBody, LiteralLen, BareKeyLen, UnitsText, UnitsMeaning;
    match g
    case BareSeg(text) =>
      BareRead(text, t);
      assert KeyByte(text[0]);
      BareKeyStep(text, t);
    case BasicSeg(units) =>
      BasicOpens(units, t);
      BodyRead(units, t);
      BasicKeyStep("\"" + UnitsText(units) + "\"" + t, Token(UnitsMeaning(units), |UnitsText(units)| + 1));
    case LiteralSeg(text) =>
      LiteralOpens(text, t);
      LiteralRead(text, t);
      LiteralKeyStep("'" + text + "'" + t, |text|);
      Quoted('\'', text, t);
  }

  lemma SegFirst(g: Seg)
    requires ValidSeg(g)
    ensures SegText(g) != [] && (IsBareKeyByte(SegText(g)[0]) || SegText(g)[0] == '"' || SegText(g)[0] == '\'')
  {
    if g.BareSeg? {
      assert KeyByte(g.text[0]);
    }
  }

  lemma NoSpaceFirst(t: Bytes)
    requires t == [] || !IsSpace(t[0])
    ensures SpaceLen(t) == 0
  {
  }

  lemma PartRead(p: Part, t: Bytes)
    requires ValidPart(p) && Stops(t) && (t == [] || !IsSpace(t[0]))
    ensures Segment(PartText(p) + t) == Some(Token(SegMeaning(p.seg), |PartText(p)|))
  {
    hide SimpleKey, SpaceLen, SegText, SegMeaning;
    var s, seg := PartText(p) + t, SegText(p.seg);
    var u := seg + (p.after + t);
    SegFirst(p.seg);
    SegRead(p.seg, p.after + t);
    assert s == p.before + u;
    SpaceRun(p.before, u);
    NoSpaceFirst(u);
    Drop(p.before, u);
    SpaceRun(p.after, t);
    NoSpaceFirst(t);
    assert s[|p.before| + |seg|..] == p.after + t;
  }

  lemma KeyTextMore(ps: seq<Part>)
    requires ValidKey(ps)
    ensures KeyText(ps) == PartText(ps[0]) + if |ps| == 1 then "" else "." + KeyText(ps[1..])
    ensures KeyMeaning(ps) == [SegMeaning(ps[0].seg)] + KeyMeaning(ps[1..])
    ensures |ps| > 1 ==> ValidKey(ps[1..])
    ensures KeyMeaning([]) == []
  {
    hide PartText, SegMeaning, ValidPart;
    KeyTextUnfold(ps);
  }

  lemma KeyTextUnfold(ps: seq<Part>)
    requires ps != []
    ensures KeyText(ps) == PartText(ps[0]) + if |ps| == 1 then "" else "." + KeyText(ps[1..])
  {
    hide PartText;
    if |ps| == 1 {
      assert PartText(ps[0]) + "" == PartText(ps[0]);
    } else {
      Assoc(PartText(ps[0]), ".", KeyText(ps[1..]));
    }
  }

  lemma {:induction false} KeyRead(ps: seq<Part>, t: Bytes)
    requires ValidKey(ps) && t != [] && (t[0] == '=' || t[0] == ']')
    ensures DottedKey(KeyText(ps) + t) == Some(Key(KeyMeaning(ps), |KeyText(ps)|))
    decreases |ps|
  {
    hide DottedKey, Segment, PartText, KeyText, KeyMeaning, SegMeaning;
    var s, p := KeyText(ps) + t, ps[0];
    assert ValidPart(p);
    KeyTextMore(ps);
    var k := Token(SegMeaning(p.seg), |PartText(p)|);
    if |ps| == 1 {
      assert s == PartText(p) + t && ps[1..] == [];
      assert KeyText(ps) == PartText(p) && KeyMeaning(ps) == [SegMeaning(p.seg)];
      PartRead(p, t);
      Drop(PartText(p), t);
      DottedLast(s, k);
    } else {
      var v := KeyText(ps[1..]) + t;
      assert s == PartText(p) + ("." + v);
      PartRead(p, "." + v);
      Drop(PartText(p), "." + v);
      assert s[|PartText(p)| + 1..] == v;
      KeyRead(ps[1..], t);
      DottedMore(s, k);
    }
  }

  lemma KeyEqualsRead(ps: seq<Part>, equals: Bytes, t: Bytes)
    requires ValidKey(ps) && Spaces(equals) && (t == [] || !IsSpace(t[0]))
    ensures KeyEquals(KeyText(ps) + "=" + equals + t) == Some(Key(KeyMeaning(ps), |KeyText(ps)| + 1 + |equals|))
  {
    hide DottedKey, KeyText, KeyMeaning, SpaceLen;
    var s, v := KeyText(ps) + "=" + equals + t, "=" + (equals + t);
    assert s == KeyText(ps) + v;
    KeyRead(ps, v);
    Drop(KeyText(ps), v);
    assert s[|KeyText(ps)| + 1..] == equals + t;
    SpaceRun(equals, t);
    NoSpaceFirst(t);
  }

  lemma FirstOf(a: Bytes, b: Bytes)
    requires a != []
    ensures a + b != [] && (a + b)[0] == a[0]
  {
  }

  lemma PartBegins(p: Part)
    requires ValidPart(p)
    ensures PartText(p) != [] && PartText(p)[0] != '['
    ensures p.before == "" ==>
              (var c := PartText(p)[0]; IsBareKeyByte(c) || c == '"' || c == '\'')
  {
    SegFirst(p.seg);
    hide SegText, IsBareKeyByte;
    var g := SegText(p.seg);
    Assoc(p.before, g, p.after);
    if p.before == "" {
      assert PartText(p) == g + p.after;
      FirstOf(g, p.after);
      NotBracket(g[0]);
    } else {
      FirstOf(p.before, g + p.after);
      assert p.before[0] == ' ' || p.before[0] == '\t';
    }
  }

  lemma NotBracket(c: Byte)
    requires IsBareKeyByte(c) || c == '"' || c == '\''
    ensures c != '['
  {
  }

  lemma KeyBegins(ps: seq<Part>)
    requires ValidKey(ps)
    ensures KeyText(ps) != [] && KeyText(ps)[0] != '['
    ensures ps[0].before == "" ==>
              (var c := KeyText(ps)[0]; IsBareKeyByte(c) || c == '"' || c == '\'')
  {
    hide KeyText, PartText, IsBareKeyByte, ValidPart;
    assert ValidPart(ps[0]);
    PartBegins(ps[0]);
    KeyTextUnfold(ps);
    FirstOf(PartText(ps[0]), if |ps| == 1 then "" else "." + KeyText(ps[1..]));
  }

  lemma KeyFirst(ps: seq<Part>, t: Bytes)
    requires ValidKey(ps)
    ensures KeyText(ps) != [] && (KeyText(ps) + t)[0] != '['
    ensures ps[0].before == "" ==>
              (var c := (KeyText(ps) + t)[0]; IsBareKeyByte(c) || c == '"' || c == '\'')
  {
    KeyBegins(ps);
    hide KeyText;
    FirstOf(KeyText(ps), t);
  }

  // ---- values

  /** After a value there are only spaces before the end, or before a byte that ends it. */
  predicate Follows(t: Bytes) {
    var k := SpaceLen(t);
    k == |t| || EndsBare(t[k])
  }

  lemma FollowsFirst(t: Bytes)
    requires Follows(t)
    ensures t == [] || (t[0] != '"' && t[0] != '\'')
  {
  }

  lemma {:induction false} BareValRun(text: Bytes, t: Bytes)
    requires forall i | 0 <= i < |text| :: !EndsBare(text[i])
    ensures BareRun(text + t) == |text| + BareRun(t)
  {
    if text == [] {
      assert text + t == t;
    } else {
      assert (text + t)[1..] == text[1..] + t;
      BareValRun(text[1..], t);
    }
  }

  lemma {:induction false} SpacesBare(t: Bytes)
    requires Follows(t)
    ensures BareRun(t) == SpaceLen(t)
  {
    if t != [] && IsSpace(t[0]) {
      assert SpaceLen(t) == 1 + SpaceLen(t[1..]);
      SpacesBare(t[1..]);
    }
  }

  lemma {:induction false} Trimmed(t: Bytes, n: nat, k: nat)
    requires 0 < k <= n <= |t| && !IsSpace(t[k - 1]) && forall i | k <= i < n :: IsSpace(t[i])
    ensures TrimLen(t, n) == k
    decreases n
  {
    if n > k {
      Trimmed(t, n - 1, k);
    }
  }

  lemma {:induction false} SpaceBytes(t: Bytes, i: nat)
    requires i < SpaceLen(t)
    ensures IsSpace(t[i])
  {
    if i > 0 {
      SpaceBytes(t[1..], i - 1);
    }
  }

  lemma BareRead2(text: Bytes, t: Bytes)
    requires BareText(text) && Follows(t)
    ensures ValueLen(text + t) == Some(|text|)
  {
    var s, k := text + t, SpaceLen(t);
    BareValRun(text, t);
    SpacesBare(t);
    forall i | |text| <= i < |text| + k ensures IsSpace(s[i]) {
      SpaceBytes(t, i - |text|);
    }
    Trimmed(s, |text| + k, |text|);
    assert s[0] == text[0];
    hide BareRun, TrimLen;
  }

  lemma {:induction false} RepeatAt(c: Byte, n: nat)
    ensures |Repeat(c, n)| == n && forall i | 0 <= i < n :: Repeat(c, n)[i] == c
  {
    if n > 0 {
      RepeatAt(c, n - 1);
    }
  }

  lemma Closes(q: Byte, extra: nat, t: Bytes)
    requires extra <= 2 && (t == [] || t[0] != q)
    ensures (var s := Repeat(q, 3 + extra) + t; [q, q, q] <= s && ExtraQuotes(s[3..], q) == extra)
  {
    var r := Repeat(q, 3 + extra);
    RepeatAt(q, 3 + extra);
    var s := r + t;
    assert s[..3] == [q, q, q];
    assert s[3 + extra..] == t;
    hide Repeat;
    if extra > 0 {
      assert s[3] == q && s[3..][1..] == s[4..];
    }
    if extra == 2 {
      assert s[4] == q;
    }
    assert extra == 0 ==> s[3..] == t;
    assert extra == 1 ==> s[4..] == t;
  }

  lemma PieceFirst(ps: seq<Piece>, q: Byte, t: Bytes)
    requires ps != [] && q != '\\' && ps[0] != Char(q)
    ensures PiecesText(ps) != [] && (PiecesText(ps) + t)[0] != q
  {
  }

  lemma SecondPiece(ps: seq<Piece>, q: Byte, t: Bytes)
    requires ps != [] && ps[0].Char?
    ensures |PiecesText(ps)| == 1 + |PiecesText(ps[1..])| && (PiecesText(ps) + t)[1..] == PiecesText(ps[1..]) + t
  {
  }

  /** No three quotes stand where a piece begins. */
  lemma NotYet(ps: seq<Piece>, q: Byte, escapes: bool, t: Bytes)
    requires ps != [] && ValidPieces(ps, q, escapes) && q != '\\'
    ensures !([q, q, q] <= PiecesText(ps) + t)
  {
    var s := PiecesText(ps) + t;
    hide PiecesText;
    if ps[0] != Char(q) {
      PieceFirst(ps, q, t);
    } else {
      assert |ps| > 1;
      SecondPiece(ps, q, t);
      if ps[1] != Char(q) {
        PieceFirst(ps[1..], q, t);
        assert s[1] == s[1..][0];
        NotTriple(s, q);
      } else {
        assert |ps| > 2;
        assert !(ps[0] == Char(q) && ps[0 + 1] == Char(q) && ps[0 + 2] == Char(q));
        SecondPiece(ps[1..], q, t);
        assert ps[1..][1..] == ps[2..];
        PieceFirst(ps[2..], q, t);
        assert s[2] == s[1..][1..][0];
        NotTriple(s, q);
      }
    }
  }

  lemma PiecesRest(ps: seq<Piece>, q: Byte, escapes: bool)
    requires ps != [] && ValidPieces(ps, q, escapes)
    ensures ValidPieces(ps[1..], q, escapes)
  {
    var r := ps[1..];
    assert forall i | 0 <= i < |r| :: r[i] == ps[i + 1];
  }

  lemma MultiStep(s: Bytes, q: Byte, escapes: bool, p: Piece, v: Bytes, n: nat)
    requires s == PieceText(p) + v && MultiBody(v, q, escapes) == Some(n) && !([q, q, q] <= s)
    requires if escapes then p != Char('\\') else p.Char?
    ensures MultiBody(s, q, escapes) == Some(|PieceText(p)| + n)
  {
    if p.Slash? {
      assert s[2..] == v;
    } else {
      assert s[1..] == v;
    }
  }

  lemma MultiCloses(s: Bytes, q: Byte, escapes: bool, extra: nat)
    requires (q == '"' || q == '\'') && [q, q, q] <= s && ExtraQuotes(s[3..], q) == extra
    ensures MultiBody(s, q, escapes) == Some(3 + extra)
  {
    assert s[0] == s[..3][0];
    hide ExtraQuotes;
  }

  lemma PiecesMore(ps: seq<Piece>, q: Byte, escapes: bool)
    requires ValidPieces(ps, q, escapes)
    ensures ps == [] ==> PiecesText(ps) == ""
    ensures ps != [] ==> PiecesText(ps) == PieceText(ps[0]) + PiecesText(ps[1..])
    ensures ps != [] ==> if escapes then ps[0] != Char('\\') else ps[0].Char?
  {
    hide PieceText;
  }

  lemma {:induction false} MultiRead(ps: seq<Piece>, q: Byte, extra: nat, t: Bytes)
    requires (q == '"' || q == '\'') && ValidPieces(ps, q, q == '"') && extra <= 2 && (t == [] || t[0] != q)
    ensures MultiBody(PiecesText(ps) + (Repeat(q, 3 + extra) + t), q, q == '"') == Some(|PiecesText(ps)| + 3 + extra)
    decreases |ps|
  {
    hide *;
    var u := Repeat(q, 3 + extra) + t;
    PiecesMore(ps, q, q == '"');
    if ps == [] {
      assert PiecesText(ps) + u == u;
      Closes(q, extra, t);
      MultiCloses(u, q, q == '"', extra);
    } else {
      Assoc(PieceText(ps[0]), PiecesText(ps[1..]), u);
      NotYet(ps, q, q == '"', u);
      PiecesRest(ps, q, q == '"');
      MultiRead(ps[1..], q, extra, t);
      MultiStep(PiecesText(ps) + u, q, q == '"', ps[0], PiecesText(ps[1..]) + u, |PiecesText(ps[1..])| + 3 + extra);
    }
  }

  lemma ValFirst(v: Val, t: Bytes)
    requires ValidVal(v)
    ensures ValText(v) != [] && Solid(ValText(v) + t) && (ValText(v) + t)[0] !in {']', '}', ','}
  {
    if v.MultiVal? {
      RepeatAt(v.quote, 3);
      assert (ValText(v) + t)[0] == Repeat(v.quote, 3)[0];
    }
    hide PiecesText, ElemsText, UnitsText;
  }

  lemma FollowsSpaces(sp: Bytes, t: Bytes)
    requires Spaces(sp) && (t == [] || EndsBare(t[0]))
    ensures Follows(sp + t)
  {
    SpaceRun(sp, t);
  }

  lemma FollowsGap(g: Gap, t: Bytes)
    requires ValidGap(g) && (t == [] || EndsBare(t[0]))
    ensures Follows(GapText(g) + t)
  {
    var c := if g.comment.Some? then "#" + g.comment.value else "";
    assert GapText(g) + t == g.spaces + (c + t);
    assert c == "" ==> c + t == t;
    FollowsSpaces(g.spaces, c + t);
  }

  lemma FollowsBlanks(b: Blanks, t: Bytes)
    requires ValidBlanks(b) && t != [] && EndsBare(t[0])
    ensures Follows(BlanksText(b) + t)
  {
    if b.lines == [] {
      FollowsSpaces(b.spaces, t);
      assert BlanksText(b) + t == b.spaces + t;
    } else {
      var l := b.lines[0];
      var rest := BlankLinesText(b.lines[1..]) + b.spaces + t;
      assert BlanksText(b) + t == GapText(l.gap) + (NewlineText(l.nl) + rest);
      FollowsGap(l.gap, NewlineText(l.nl) + rest);
    }
  }

  function Body(t: Bytes, close: Byte): (r: Option<nat>)
    ensures r.Some? ==> 0 < r.value <= |t|
  {
    if close == ']' then ArrayBody(t) else InlineBody(t)
  }

  lemma ValueBasic(s: Bytes, b: Token)
    requires Starts(s, '"') && !("\"\"\"" <= s) && BasicBody(s[1..]) == Some(b)
    ensures ValueLen(s) == Some(1 + b.len)
  {
    hide BasicBody;
  }

  lemma ValueLiteral(s: Bytes, n: nat)
    requires Starts(s, '\'') && !("'''" <= s) && LiteralLen(s[1..]) == Some(n)
    ensures ValueLen(s) == Some(n + 2)
  {
    hide LiteralLen;
  }

  lemma ValueMulti(s: Bytes, q: Byte, n: nat)
    requires (q == '"' || q == '\'') && [q, q, q] <= s && MultiBody(s[3..], q, q == '"') == Some(n)
    ensures ValueLen(s) == Some(3 + n)
  {
    hide MultiBody;
    TripleBytes(s, q);
    assert s[0] == s[..3][0];
    assert q == '\'' ==> !("\"\"\"" <= s);
  }

  lemma ValueNested(s: Bytes, close: Byte, n: nat)
    requires (close == ']' || close == '}') && Starts(s, if close == ']' then '[' else '{')
    requires Body(s[1..], close) == Some(n)
    ensures ValueLen(s) == Some(1 + n)
  {
    hide ArrayBody, InlineBody;
  }

  lemma QuotedRead(v: Val, t: Bytes)
    requires (v.BasicVal? || v.LiteralVal? || v.MultiVal?) && ValidVal(v) && Follows(t)
    ensures ValueLen(ValText(v) + t) == Some(|ValText(v)|)
  {
    hide ValueLen, BasicBody, LiteralLen, MultiBody, UnitsText, PiecesText, ValidPieces;
    FollowsFirst(t);
    hide Follows;
    var s := ValText(v) + t;
    match v
    case BasicVal(units) =>
      BasicOpens(units, t);
      assert s == "\"" + UnitsText(units) + "\"" + t;
      BodyRead(units, t);
      ValueBasic(s, Token(UnitsMeaning(units), |UnitsText(units)| + 1));
    case LiteralVal(text) =>
      LiteralOpens(text, t);
      assert s == "'" + text + "'" + t;
      LiteralRead(text, t);
      ValueLiteral(s, |text|);
    case MultiVal(quote, pieces, extra) =>
      MultiValRead(quote, pieces, extra, t);
  }

  lemma MultiText(quote: Byte, pieces: seq<Piece>, extra: nat, t: Bytes)
    ensures (var s := ValText(MultiVal(quote, pieces, extra));
             var u := PiecesText(pieces) + (Repeat(quote, 3 + extra) + t);
             && s + t == [quote, quote, quote] + u && |s| == 6 + extra + |PiecesText(pieces)|)
  {
    RepeatAt(quote, 3);
    RepeatAt(quote, 3 + extra);
    var open, r := Repeat(quote, 3), Repeat(quote, 3 + extra);
    assert open == [quote, quote, quote];
    hide PiecesText, Repeat;
    Assoc4(open, PiecesText(pieces), r, t);
    Assoc(PiecesText(pieces), r, t);
  }

  lemma MultiValRead(quote: Byte, pieces: seq<Piece>, extra: nat, t: Bytes)
    requires ValidVal(MultiVal(quote, pieces, extra)) && (t == [] || t[0] != quote)
    ensures (var s := ValText(MultiVal(quote, pieces, extra)); ValueLen(s + t) == Some(|s|))
  {
    hide ValueLen, MultiBody, PiecesText, Repeat, ValidPieces, ValText;
    var u := PiecesText(pieces) + (Repeat(quote, 3 + extra) + t);
    MultiText(quote, pieces, extra, t);
    MultiRead(pieces, quote, extra, t);
    TripleFirst(quote, u);
    ValueMulti([quote, quote, quote] + u, quote, |PiecesText(pieces)| + 3 + extra);
  }

  lemma TripleFirst(q: Byte, u: Bytes)
    ensures (var s := [q, q, q] + u; [q, q, q] <= s && s[3..] == u)
  {
  }

  lemma {:induction false} ValRead(v: Val, t: Bytes)
    requires ValidVal(v) && Follows(t)
    ensures ValueLen(ValText(v) + t) == Some(|ValText(v)|)
    decreases v, 0
  {
    hide ValueLen, ArrayBody, InlineBody, ElemsText, Follows, Body, UnitsText, PiecesText;
    var s := ValText(v) + t;
    match v
    case BareVal(text) => BareRead2(text, t);
    case ArrayVal(elems) =>
      ElemsRead(elems, ']', t);
      assert s[1..] == ElemsText(elems, ']') + t;
      ValueNested(s, ']', |ElemsText(elems, ']')|);
    case InlineVal(elems) =>
      ElemsRead(elems, '}', t);
      assert s[1..] == ElemsText(elems, '}') + t;
      ValueNested(s, '}', |ElemsText(elems, '}')|);
    case _ => QuotedRead(v, t);
  }

  lemma ElemsMore(e: Elems, close: Byte, t: Bytes)
    ensures (var s := ElemsText(e, close) + t;
             && (e.Close? ==> s == BlanksText(e.blanks) + ([close] + t))
             && (e.Last? ==> s == ItemText(e.item) + ([close] + t))
             && (e.More? ==> s == ItemText(e.item) + ("," + (ElemsText(e.rest, close) + t))))
    ensures e.Close? ==> |ElemsText(e, close)| == |BlanksText(e.blanks)| + 1
    ensures e.Last? ==> |ElemsText(e, close)| == |ItemText(e.item)| + 1
    ensures e.More? ==> |ElemsText(e, close)| == |ItemText(e.item)| + 1 + |ElemsText(e.rest, close)|
  {
    hide ItemText, BlanksText;
    match e
    case Close(blanks) => Assoc(BlanksText(blanks), [close], t);
    case Last(item) => Assoc(ItemText(item), [close], t);
    case More(item, rest) =>
      Assoc4(ItemText(item), ",", ElemsText(rest, close), t);
      Assoc(",", ElemsText(rest, close), t);
  }

  lemma ElemsMembers(e: Elems, close: Byte)
    requires ValidElems(e, close == '}')
    ensures e.Close? ==> ValidBlanks(e.blanks)
    ensures !e.Close? ==> ValidItem(e.item, close == '}')
    ensures e.More? ==> ValidElems(e.rest, close == '}')
  {
  }

  lemma CommaFirst(item: Bytes, w: Bytes)
    ensures (var s := item + ("," + w); s[|item| + 1..] == w && |item| < |s| && s[|item|] == ',')
    ensures Solid("," + w)
  {
    Assoc(item, ",", w);
    Drop(item + ",", w);
  }

  lemma CloseFirst(item: Bytes, close: Byte, t: Bytes)
    requires close == ']' || close == '}'
    ensures (var s := item + ([close] + t); |item| < |s| && s[|item|] == close)
    ensures Solid([close] + t)
  {
  }

  lemma {:induction false} ElemsRead(e: Elems, close: Byte, t: Bytes)
    requires (close == ']' || close == '}') && ValidElems(e, close == '}')
    ensures Body(ElemsText(e, close) + t, close) == Some(|ElemsText(e, close)|)
    decreases e, 1
  {
    hide *;
    ElemsMore(e, close, t);
    ElemsMembers(e, close);
    match e
    case Close(blanks) =>
      ClosedRead(blanks, close, t);
    case Last(item) =>
      var u := [close] + t;
      ItemFollows(item, close, u);
      ValRead(item.val, BlanksText(item.after) + u);
      CloseFirst(ItemText(item), close, t);
      ItemRead(item, close, u);
      ItemCloses(ItemText(item) + u, |ItemText(item)| - |BlanksText(item.after)|, |ItemText(item)|, close);
    case More(item, rest) =>
      var w := ElemsText(rest, close) + t;
      ItemFollows(item, close, "," + w);
      ValRead(item.val, BlanksText(item.after) + ("," + w));
      ElemsRead(rest, close, t);
      CommaFirst(ItemText(item), w);
      ItemRead(item, close, "," + w);
      ItemGoesOn(ItemText(item) + ("," + w), |ItemText(item)| - |BlanksText(item.after)|, |ItemText(item)|, close,
          |ElemsText(rest, close)|);
  }

  lemma ItemFollows(i: Item, close: Byte, u: Bytes)
    requires ValidItem(i, close == '}') && u != [] && u[0] in {',', ']', '}'}
    ensures ValidVal(i.val) && Follows(BlanksText(i.after) + u)
  {
    FollowsBlanks(i.after, u);
    hide Follows, BlanksText;
  }

  lemma ClosedRead(blanks: Blanks, close: Byte, t: Bytes)
    requires (close == ']' || close == '}') && ValidBlanks(blanks)
    ensures Body(BlanksText(blanks) + ([close] + t), close) == Some(|BlanksText(blanks)| + 1)
  {
    hide BlankLen, BlanksText, ValidBlanks, ValueLen, KeyEquals, AfterItem;
    BlanksRun(blanks, [close] + t);
    SolidNone([close] + t);
  }

  lemma ItemCloses(s: Bytes, n: nat, m: nat, close: Byte)
    requires (close == ']' || close == '}') && 0 < n <= |s| && n + BlankLen(s[n..]) == m < |s| && s[m] == close
    requires Body(s, close) == AfterItem(s, n, close)
    ensures Body(s, close) == Some(m + 1)
  {
    hide BlankLen, ArrayBody, InlineBody, Body;
  }

  lemma ItemGoesOn(s: Bytes, n: nat, m: nat, close: Byte, k: nat)
    requires (close == ']' || close == '}') && 0 < n <= |s| && n + BlankLen(s[n..]) == m < |s| && s[m] == ','
    requires Body(s, close) == AfterItem(s, n, close) && Body(s[m + 1..], close) == Some(k)
    ensures Body(s, close) == Some(m + 1 + k)
  {
    hide BlankLen, ArrayBody, InlineBody;
  }

  lemma ItemParts(i: Item, u: Bytes)
    requires i.key == [] || ValidKey(i.key)
    ensures ItemText(i) + u == BlanksText(i.before) + (KeyOf(i) + (ValText(i.val) + (BlanksText(i.after) + u)))
    ensures |ItemText(i)| == |BlanksText(i.before)| + |KeyOf(i)| + |ValText(i.val)| + |BlanksText(i.after)|
  {
    hide ValText, BlanksText, KeyText, ValidKey;
  }

  lemma SliceTwice(s: Bytes, a: nat, b: nat)
    requires a + b <= |s|
    ensures s[a..][b..] == s[a + b..]
  {
  }

  lemma ItemSlices(a: Bytes, k: Bytes, v: Bytes, b: Bytes)
    ensures (var s := a + (k + (v + b));
             && s[|a|..] == k + (v + b) && s[|a| + |k|..] == v + b && s[|a| + |k| + |v|..] == b)
  {
    Drop(a, k + (v + b));
    Assoc(a, k, v + b);
    Drop(a + k, v + b);
    Assoc(a + k, v, b);
    Drop(a + k + v, b);
  }

  /** An item is read up to the byte after it, and from there on it is that byte's turn. */
  lemma ItemRead(i: Item, close: Byte, u: Bytes)
    requires (close == ']' || close == '}') && ValidItem(i, close == '}') && u != [] && Solid(u)
    requires ValueLen(ValText(i.val) + (BlanksText(i.after) + u)) == Some(|ValText(i.val)|)
    ensures (var s, n := ItemText(i) + u, |ItemText(i)| - |BlanksText(i.after)|;
             && 0 < n <= |s| && n + BlankLen(s[n..]) == |ItemText(i)|
             && Body(s, close) == AfterItem(s, n, close))
  {
    hide *;
    ItemMembers(i, close);
    var a, k, w, b := BlanksText(i.before), KeyOf(i), ValText(i.val), BlanksText(i.after) + u;
    var v := w + b;
    ItemParts(i, u);
    ValFirst(i.val, b);
    KeyedRead(i, close, v);
    BlanksRun(i.before, k + v);
    SolidNone(k + v);
    ItemSlices(a, k, w, b);
    BlanksRun(i.after, u);
    SolidNone(u);
    ItemStarts(a + (k + v), |a|, |k|, |w|, close);
  }

  lemma ItemMembers(i: Item, close: Byte)
    requires ValidItem(i, close == '}')
    ensures ValidBlanks(i.before) && ValidVal(i.val) && ValidBlanks(i.after) && (i.key == [] || ValidKey(i.key))
  {
  }

  function KeyOf(i: Item): Bytes {
    if i.key == [] then "" else KeyText(i.key) + "=" + i.equals
  }

  lemma KeyedRead(i: Item, close: Byte, v: Bytes)
    requires ValidItem(i, close == '}') && v != [] && Solid(v) && v[0] !in {']', '}', ','}
    ensures (var s := KeyOf(i) + v;
             && s != [] && Solid(s) && s[0] != close
             && (close == '}' ==> KeyEquals(s).Some? && KeyEquals(s).value.len == |KeyOf(i)|)
             && (close != '}' ==> KeyOf(i) == ""))
    requires close == ']' || close == '}'
  {
    hide KeyText, KeyEquals, ValidBlanks, ValidVal;
    if close == '}' {
      KeyFirst(i.key, "=" + i.equals + v);
      assert KeyOf(i) + v == KeyText(i.key) + ("=" + i.equals + v);
      KeyEqualsRead(i.key, i.equals, v);
      assert KeyOf(i) + v == KeyText(i.key) + "=" + i.equals + v;
    } else {
      assert KeyOf(i) + v == v;
    }
  }

  lemma ItemStarts(s: Bytes, a: nat, k: nat, n: nat, close: Byte)
    requires (close == ']' || close == '}') && BlankLen(s) == a < |s| && s[a] != close && a + k <= |s|
    requires if close == '}' then KeyEquals(s[a..]).Some? && KeyEquals(s[a..]).value.len == k else k == 0
    requires ValueLen(s[a + k..]) == Some(n)
    ensures 0 < a + k + n <= |s| && Body(s, close) == AfterItem(s, a + k + n, close)
  {
    hide BlankLen, KeyEquals, ValueLen, AfterItem;
  }

  // ---- statements

  lemma KeyParts(key: seq<Part>)
    requires ValidKey(key)
    ensures key != [] && forall i | 0 <= i < |key| :: ValidPart(key[i])
  {
  }

  lemma ArrayOpens(key: Bytes, v: Bytes)
    ensures (var s := "[[" + key + "]]" + v; Starts(s, '[') && "[[" <= s && s[2..] == key + ("]]" + v))
  {
    assert ("[[" + key + "]]" + v)[..2] == "[[";
  }

  lemma BothBrackets(s: Bytes)
    requires "[[" <= s
    ensures s[1] == '['
  {
    assert s[1] == s[..2][1];
  }

  lemma TableOpens(key: Bytes, v: Bytes)
    requires (key + ("]" + v))[0] != '['
    ensures (var s := "[" + key + "]" + v; Starts(s, '[') && !("[[" <= s) && s[1..] == key + ("]" + v))
  {
    var s: Bytes := "[" + key + "]" + v;
    assert s == "[" + (key + ("]" + v));
    assert s[1] == (key + ("]" + v))[0];
    if "[[" <= s {
      BothBrackets(s);
    }
  }

  lemma HeaderOpens(many: bool, key: seq<Part>, v: Bytes)
    requires ValidKey(key)
    ensures (var s, close := HeaderText(many, key) + v, Closing(if many then ArrayTable else Table);
             && Starts(s, '[') && ("[[" <= s <==> many)
             && s[|close|..] == KeyText(key) + (close + v) && |HeaderText(many, key)| == |KeyText(key)| + 2 * |close|)
  {
    KeyFirst(key, "]" + v);
    assert key != [];
    hide KeyText, ValidKey;
    if many {
      ArrayOpens(KeyText(key), v);
    } else {
      TableOpens(KeyText(key), v);
    }
  }

  lemma HeaderRead(many: bool, key: seq<Part>, v: Bytes)
    requires ValidKey(key)
    ensures (var s, kind := HeaderText(many, key), if many then ArrayTable else Table;
             Bare(s + v, []) == Some(Stmt(kind, KeyMeaning(key), 0, 0, |s|)))
    ensures forall table :: Bare(HeaderText(many, key) + v, table) == Bare(HeaderText(many, key) + v, [])
  {
    hide HeaderText, KeyText, ValidKey, KeyMeaning, DottedKey;
    KeyParts(key);
    var close := Closing(if many then ArrayTable else Table);
    HeaderOpens(many, key, v);
    KeyRead(key, close + v);
    var s := HeaderText(many, key) + v;
    Drop(KeyText(key), close + v);
    SliceTwice(s, |close|, |KeyText(key)|);
    assert close <= close + v;
  }

  lemma PairBare(s: Bytes, k: Key, n: nat, table: Path)
    requires s != [] && s[0] != '[' && KeyEquals(s) == Some(k) && ValueLen(s[k.len..]) == Some(n)
    ensures Bare(s, table) == Some(Stmt(KeyValue, table + k.path, k.len, k.len + n, k.len + n))
  {
    hide KeyEquals, ValueLen;
  }

  lemma PairText(key: Bytes, equals: Bytes, val: Bytes, v: Bytes)
    ensures (var s, u := key + "=" + equals + val + v, val + v;
             && s == key + "=" + equals + u && s == key + ("=" + equals + u)
             && s[|key| + 1 + |equals|..] == u)
  {
    var a := key + "=" + equals;
    assert a + val + v == a + (val + v);
    Drop(a, val + v);
  }

  lemma PairFirst(key: seq<Part>, equals: Bytes, val: Val, v: Bytes)
    requires ValidKey(key) && key[0].before == "" && ValidVal(val)
    ensures (var u := ValText(val) + v;
             (u == [] || !IsSpace(u[0])) && (KeyText(key) + ("=" + equals + u))[0] != '[')
  {
    hide KeyText, ValText;
    KeyFirst(key, "=" + equals + (ValText(val) + v));
    ValFirst(val, v);
  }

  lemma PairJoin(key: Bytes, equals: Bytes, val: Bytes, v: Bytes, path: Path, table: Path)
    requires |key + ("=" + equals + (val + v))| > 0 && (key + ("=" + equals + (val + v)))[0] != '['
    requires KeyEquals(key + "=" + equals + (val + v)) == Some(Key(path, |key| + 1 + |equals|))
    requires ValueLen(val + v) == Some(|val|)
    ensures (var start := |key| + 1 + |equals|;
             Bare(key + "=" + equals + val + v, table)
             == Some(Stmt(KeyValue, table + path, start, start + |val|, start + |val|)))
  {
    hide KeyEquals, ValueLen, Bare;
    PairText(key, equals, val, v);
    PairBare(key + "=" + equals + val + v, Key(path, |key| + 1 + |equals|), |val|, table);
  }

  lemma PairRead(key: seq<Part>, equals: Bytes, val: Val, v: Bytes, table: Path)
    requires ValidKey(key) && key[0].before == "" && Spaces(equals) && ValidVal(val) && Follows(v)
    ensures (var start := |KeyText(key)| + 1 + |equals|;
             var end := start + |ValText(val)|;
             Bare(KeyText(key) + "=" + equals + ValText(val) + v, table)
             == Some(Stmt(KeyValue, table + KeyMeaning(key), start, end, end)))
  {
    hide KeyText, ValidKey, KeyMeaning, KeyEquals, ValText, ValueLen, Follows, ValidVal, Bare, Spaces, IsSpace,
        ValidPart;
    KeyParts(key);
    PairFirst(key, equals, val, v);
    KeyEqualsRead(key, equals, ValText(val) + v);
    ValRead(val, v);
    PairJoin(KeyText(key), equals, ValText(val), v, KeyMeaning(key), table);
  }

  /** A line's statement, read from where its indentation ends, as if the document began there. */
  lemma BareLine(l: Line, v: Bytes, table: Path)
    requires ValidLine(l) && !l.Empty? && Follows(v)
    ensures (var r := Bare(StatementText(l) + v, table);
             && r.Some? && r.value.lineEnd == |StatementText(l)|
             && Moved(r.value.(lineEnd := |LineText(l)| - |Indent(l)|), |Indent(l)|) == Said(l, table, 0))
  {
    hide KeyText, ValidKey, KeyMeaning, ValText, Follows, ValidVal, GapText, HeaderText, Bare;
    match l
    case Headed(_, many, key, _, _) => HeaderRead(many, key, v);
    case Paired(_, key, equals, val, _, _) => PairRead(key, equals, val, v, table);
  }

  lemma LineRest(l: Line, u: Bytes)
    requires ValidLine(l) && (l.nl == NoNewline ==> u == [])
    ensures Follows(GapText(l.gap) + NewlineText(l.nl) + u)
  {
    FollowsGap(l.gap, NewlineText(l.nl) + u);
    assert GapText(l.gap) + NewlineText(l.nl) + u == GapText(l.gap) + (NewlineText(l.nl) + u);
  }

  lemma LineRead(l: Line, u: Bytes, table: Path)
    requires ValidLine(l) && !l.Empty? && (l.nl == NoNewline ==> u == [])
    ensures (var r := Statement(StatementText(l) + GapText(l.gap) + NewlineText(l.nl) + u, table);
             && r.Some? && r.value.lineEnd == |LineText(l)| - |Indent(l)|
             && Moved(r.value, |Indent(l)|) == Said(l, table, 0))
  {
    hide StatementText, GapText, Bare, EndLine, Follows, Said, Moved;
    var v := GapText(l.gap) + NewlineText(l.nl) + u;
    LineRest(l, u);
    BareLine(l, v, table);
    assert StatementText(l) + v == StatementText(l) + GapText(l.gap) + NewlineText(l.nl) + u;
    Drop(StatementText(l), v);
    EndLineRun(l.gap, l.nl, u);
  }

  // ---- documents

  lemma FirstSolid(s: Bytes, v: Bytes)
    requires s != [] && (s[0] == '[' || IsBareKeyByte(s[0]) || s[0] == '"' || s[0] == '\'')
    ensures s + v != [] && Solid(s + v)
  {
  }

  lemma StatementFirst(l: Line, v: Bytes)
    requires ValidLine(l) && !l.Empty?
    ensures StatementText(l) != [] && Solid(StatementText(l) + v)
  {
    hide KeyText, ValText, Solid, IsBareKeyByte;
    if l.Paired? {
      KeyBegins(l.key);
      Assoc(KeyText(l.key), "=" + l.equals, ValText(l.val));
      Assoc(KeyText(l.key), "=", l.equals);
      FirstOf(KeyText(l.key), "=" + l.equals + ValText(l.val));
    }
    FirstSolid(StatementText(l), v);
  }

  /** Blanks before a document's text put off its statements and change nothing else. */
  lemma SkipBlanks(e: Bytes, u: Bytes, table: Path, at: nat)
    requires BlankLen(e + u) == |e| + BlankLen(u)
    ensures StatementsFrom(e + u, table, at) == StatementsFrom(u, table, at + |e|)
  {
    hide BlankLen, Statement;
    var k := BlankLen(u);
    assert (e + u)[|e| + k..] == u[k..];
    if k < |u| && Statement(u[k..], table).Some? {
      var n := Statement(u[k..], table).value.lineEnd;
      assert (e + u)[|e| + k + n..] == u[k + n..];
    }
  }

  lemma OneStatement(s: Bytes, u: Bytes, table: Path, at: nat, st: Stmt)
    requires Statement(s + u, table) == Some(st) && st.lineEnd == |s| && BlankLen(s + u) == 0
    ensures (var rest := StatementsFrom(u, TableAfter(table, st), at + |s|);
             StatementsFrom(s + u, table, at)
             == if rest.None? then None else Some([Moved(st, at)] + rest.value))
  {
    hide BlankLen, Statement;
    Drop(s, u);
    assert (s + u)[0..] == s + u;
  }

  lemma SaidLater(l: Line, table: Path, d: nat, at: nat)
    requires ValidLine(l) && !l.Empty?
    ensures Moved(Said(l, table, d), at) == Said(l, table, d + at)
  {
  }

  lemma MovedTwice(st: Stmt, d: nat, e: nat)
    ensures Moved(Moved(st, d), e) == Moved(st, d + e)
  {
  }

  /** The table in force after a line. */
  function InForce(l: Line, table: Path): Path
    requires ValidLine(l)
  {
    if l.Headed? then KeyMeaning(l.key) else table
  }

  lemma EmptySkipped(l: Line, u: Bytes)
    requires ValidLine(l) && l.Empty? && (l.nl == NoNewline ==> u == [])
    ensures BlankLen(LineText(l) + u) == |LineText(l)| + BlankLen(u)
  {
    hide BlankLen, GapLen, GapText, NewlineText, LineText;
    EmptyText(l);
    if l.nl == NoNewline {
      GapRun(l.gap, l.nl, u);
      BlankUnfold(LineText(l) + u);
      SolidNone([]);
      NoNewlineText();
    } else {
      BlankLineRun(BlankLine(l.gap, l.nl), u);
    }
  }

  lemma EmptyRead(l: Line, u: Bytes, table: Path, at: nat)
    requires ValidLine(l) && l.Empty? && (l.nl == NoNewline ==> u == [])
    ensures StatementsFrom(LineText(l) + u, table, at) == StatementsFrom(u, table, at + |LineText(l)|)
  {
    hide StatementsFrom, BlankLen;
    EmptySkipped(l, u);
    SkipBlanks(LineText(l), u, table, at);
  }

  lemma LineOpens(l: Line, u: Bytes)
    requires ValidLine(l) && !l.Empty?
    ensures (var s := StatementText(l) + GapText(l.gap) + NewlineText(l.nl);
             && LineText(l) + u == Indent(l) + (s + u) && |LineText(l)| == |Indent(l)| + |s|
             && Spaces(Indent(l)) && s + u != [] && Solid(s + u))
  {
    hide GapText, NewlineText, StatementText, Solid;
    var v := GapText(l.gap) + NewlineText(l.nl) + u;
    StatementFirst(l, v);
    Assoc4(StatementText(l), GapText(l.gap), NewlineText(l.nl), u);
    Assoc4(Indent(l), StatementText(l), GapText(l.gap), NewlineText(l.nl));
    Assoc(Indent(l), StatementText(l) + GapText(l.gap) + NewlineText(l.nl), u);
  }

  lemma SaysRead(l: Line, u: Bytes, table: Path, at: nat)
    requires ValidLine(l) && !l.Empty? && (l.nl == NoNewline ==> u == [])
    ensures (var rest := StatementsFrom(u, InForce(l, table), at + |LineText(l)|);
             StatementsFrom(LineText(l) + u, table, at)
             == if rest.None? then None else Some([Said(l, table, at)] + rest.value))
  {
    hide StatementsFrom, BlankLen, GapText, StatementText, NewlineText, Statement, LineText, Solid, ValidLine, Said,
         Moved, InForce, TableAfter;
    var s := StatementText(l) + GapText(l.gap) + NewlineText(l.nl);
    var e := Indent(l);
    LineOpens(l, u);
    SolidNone(s + u);
    BlankSpaces(e, s + u);
    SkipBlanks(e, s + u, table, at);
    LineRead(l, u, table);
    var st := Statement(s + u, table).value;
    OneStatement(s, u, table, at + |e|, st);
    MovedTwice(st, |e|, at);
    SaidLater(l, table, 0, at);
    SameTable(l, table, st, |e|);
  }

  lemma SameTable(l: Line, table: Path, st: Stmt, d: nat)
    requires ValidLine(l) && !l.Empty? && Moved(st, d) == Said(l, table, 0)
    ensures TableAfter(table, st) == InForce(l, table)
  {
    hide LineText, KeyText, ValText, KeyMeaning;
  }

  lemma AllSaidMore(ls: seq<Line>, table: Path, at: nat)
    requires forall i | 0 <= i < |ls| :: ValidLine(ls[i])
    ensures ls == [] ==> LinesText(ls) == "" && AllSaid(ls, table, at) == []
    ensures ls != [] ==>
              && ValidLine(ls[0]) && LinesText(ls) == LineText(ls[0]) + LinesText(ls[1..])
              && AllSaid(ls, table, at)
                 == (if ls[0].Empty? then [] else [Said(ls[0], table, at)])
                    + AllSaid(ls[1..], InForce(ls[0], table), at + |LineText(ls[0])|)
  {
    hide ValidLine, LineText, Said, KeyMeaning;
  }

  lemma NoLines(table: Path, at: nat)
    ensures StatementsFrom([], table, at) == Some([])
  {
    SolidNone([]);
  }

  lemma {:induction false} LinesRead(ls: seq<Line>, table: Path, at: nat)
    requires ValidLines(ls)
    ensures StatementsFrom(LinesText(ls), table, at) == Some(AllSaid(ls, table, at))
    decreases |ls|
  {
    hide StatementsFrom, LinesText, AllSaid, LineText, ValidLine, Said, InForce;
    AllSaidMore(ls, table, at);
    if ls == [] {
      NoLines(table, at);
    } else {
      var l, u := ls[0], LinesText(ls[1..]);
      if |ls| == 1 {
        AllSaidMore(ls[1..], table, at);
      }
      LinesRead(ls[1..], InForce(l, table), at + |LineText(l)|);
      if l.Empty? {
        EmptyNoTable(l, table);
        EmptyRead(l, u, table, at);
        NoneFirst(AllSaid(ls[1..], table, at + |LineText(l)|));
      } else {
        SaysRead(l, u, table, at);
      }
    }
  }

  lemma NoneFirst<T>(s: seq<T>)
    ensures [] + s == s
  {
  }

  lemma EmptyNoTable(l: Line, table: Path)
    requires ValidLine(l) && l.Empty?
    ensures InForce(l, table) == table
  {
  }

  /** No document but a marked one begins with the first byte of the mark. */
  predicate Unmarked(t: Bytes) {
    t == [] || t[0] != '\U{EF}'
  }

  lemma EmptyText(l: Line)
    requires ValidLine(l) && l.Empty?
    ensures LineText(l) == GapText(l.gap) + NewlineText(l.nl)
  {
    hide GapText;
  }

  lemma LineUnmarked(l: Line)
    requires ValidLine(l)
    ensures Unmarked(LineText(l)) && (l.nl != NoNewline ==> LineText(l) != [])
    ensures !l.Empty? ==> LineText(l) != []
  {
    hide StatementText, GapText;
    var v := GapText(l.gap) + NewlineText(l.nl);
    if l.Empty? {
      EmptyUnmarked(l.gap, NewlineText(l.nl));
      EmptyText(l);
    } else {
      StatementFirst(l, v);
      Assoc4(Indent(l), StatementText(l), GapText(l.gap), NewlineText(l.nl));
      Assoc(StatementText(l), GapText(l.gap), NewlineText(l.nl));
      StatementUnmarked(l);
      FirstOf(StatementText(l), v);
      if Indent(l) == "" {
        assert "" + (StatementText(l) + v) == StatementText(l) + v;
      } else {
        FirstOf(Indent(l), StatementText(l) + v);
      }
    }
  }

  lemma EmptyUnmarked(g: Gap, nl: Bytes)
    requires ValidGap(g) && (nl == [] || nl[0] == '\n' || nl[0] == '\r')
    ensures Unmarked(GapText(g) + nl)
  {
    var c: Bytes := if g.comment.Some? then "#" + g.comment.value else "";
    assert GapText(g) == g.spaces + c;
    if g.spaces != "" {
      FirstOf(g.spaces, c + nl);
      Assoc(g.spaces, c, nl);
    } else if c != "" {
      assert GapText(g) == c;
      FirstOf(c, nl);
    } else {
      assert GapText(g) + nl == nl;
    }
  }

  lemma StatementUnmarked(l: Line)
    requires ValidLine(l) && !l.Empty?
    ensures StatementText(l) != [] && StatementText(l)[0] != '\U{EF}'
  {
    hide KeyText, ValText;
    if l.Paired? {
      KeyBegins(l.key);
      Assoc(KeyText(l.key), "=" + l.equals, ValText(l.val));
      Assoc(KeyText(l.key), "=", l.equals);
      FirstOf(KeyText(l.key), "=" + l.equals + ValText(l.val));
    }
  }

  lemma LinesUnmarked(ls: seq<Line>)
    requires ValidLines(ls)
    ensures Unmarked(LinesText(ls))
  {
    hide LineText, ValidLine;
    if ls != [] {
      var l := ls[0];
      LineUnmarked(l);
      if LineText(l) != [] {
        FirstOf(LineText(l), LinesText(ls[1..]));
      } else {
        assert |ls| == 1;
      }
    }
  }

  function MarkText(d: Doc): Bytes {
    if d.mark then BOM else ""
  }

  lemma MarkFirst(t: Bytes)
    requires BOM <= t
    ensures t[0] == '\U{EF}'
  {
    assert t[0] == t[..3][0];
  }

  lemma Marked(d: Doc)
    requires ValidLines(d.lines)
    ensures Start(DocText(d)) == |MarkText(d)| && DocText(d)[|MarkText(d)|..] == LinesText(d.lines)
  {
    LinesUnmarked(d.lines);
    hide LinesText, ValidLines;
    var t := DocText(d);
    if d.mark {
      assert t == BOM + LinesText(d.lines);
      assert t[..3] == BOM;
    } else {
      assert t == LinesText(d.lines) && t[0..] == t;
      if BOM <= t {
        MarkFirst(t);
      }
    }
  }

  /** Every document reads back as the statements it says, each at its place. */
  lemma DocRead(d: Doc)
    requires ValidLines(d.lines)
    ensures Statements(DocText(d)) == Some(AllSaid(d.lines, [], if d.mark then 3 else 0))
  {
    Marked(d);
    hide DocText, Start, LinesText, AllSaid, StatementsFrom;
    LinesRead(d.lines, [], |MarkText(d)|);
  }
}
