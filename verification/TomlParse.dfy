/** The other way round: whatever the grammar accepts is the text of a document, so
    the two together say exactly which texts are read, and as what. */
module TomlParse {
  import opened Wrappers
  import opened Utf8
  import opened TomlGrammar
  import opened TomlText
  import opened TomlPrint

  lemma TakeDrop(t: Bytes, a: nat)
    requires a <= |t|
    ensures t[..a] + t[a..] == t
  {
  }

  lemma TakeMore(t: Bytes, a: nat, k: nat)
    requires a <= |t| && k <= |t| - a
    ensures t[..a + k] == t[..a] + t[a..][..k]
  {
  }

  // ---- blanks

  lemma {:induction false} SpacesIn(t: Bytes)
    ensures Spaces(t[..SpaceLen(t)])
    ensures SpaceLen(t) < |t| ==> !IsSpace(t[SpaceLen(t)])
  {
    if t != [] && IsSpace(t[0]) {
      SpacesIn(t[1..]);
      assert t[..SpaceLen(t)] == [t[0]] + t[1..][..SpaceLen(t) - 1];
    }
  }

  lemma {:induction false} LineIn(t: Bytes)
    ensures OneLine(t[..LineLen(t)])
    ensures LineLen(t) < |t| ==> t[LineLen(t)] == '\n'
  {
    if t != [] && t[0] != '\n' {
      LineIn(t[1..]);
      assert t[..LineLen(t)] == [t[0]] + t[1..][..LineLen(t) - 1];
    }
  }

  lemma CommentIn(u: Bytes) returns (c: Bytes)
    requires Starts(u, '#')
    ensures OneLine(c) && u[..LineLen(u)] == "#" + c
    ensures LineLen(u) < |u| ==> u[LineLen(u)] == '\n'
  {
    LineIn(u);
    assert LineLen(u) > 0;
    c := u[1..LineLen(u)];
    assert u[..LineLen(u)] == [u[0]] + c;
  }

  lemma GapIn(t: Bytes) returns (g: Gap)
    ensures ValidGap(g) && GapText(g) == t[..GapLen(t)]
    ensures g.comment.None? && GapLen(t) < |t| ==> !IsSpace(t[GapLen(t)]) && t[GapLen(t)] != '#'
    ensures g.comment.Some? && GapLen(t) < |t| ==> t[GapLen(t)] == '\n'
  {
    SpacesIn(t);
    var a := SpaceLen(t);
    hide SpaceLen, LineLen;
    if Starts(t[a..], '#') {
      var c := CommentIn(t[a..]);
      TakeMore(t, a, LineLen(t[a..]));
      g := Gap(t[..a], Some(c));
    } else {
      g := Gap(t[..a], None);
    }
  }

  lemma NewlineIn(t: Bytes) returns (nl: Newline)
    ensures nl == NoNewline <==> NewlineLen(t) == 0
    ensures NewlineText(nl) == t[..NewlineLen(t)]
  {
    nl := if "\r\n" <= t then CRLF else if Starts(t, '\n') then LF else NoNewline;
  }

  lemma NoLineEnd(t: Bytes)
    requires NewlineLen(t) == 0
    ensures !Starts(t, '\n')
  {
  }

  lemma BlankLinesMore(l: BlankLine, ls: seq<BlankLine>)
    ensures BlankLinesText([l] + ls) == GapText(l.gap) + NewlineText(l.nl) + BlankLinesText(ls)
  {
    assert ([l] + ls)[1..] == ls;
  }

  /** Blanks, and what is left of them on their last line. */
  lemma {:induction false} BlanksIn(t: Bytes) returns (ls: seq<BlankLine>, g: Gap)
    ensures ValidBlanks(Blanks(ls, "")) && ValidGap(g)
    ensures BlankLinesText(ls) + GapText(g) == t[..BlankLen(t)]
    ensures BlankLen(t) < |t| ==> g.comment.None? && t[BlankLen(t)] !in {' ', '\t', '#', '\n'}
    decreases |t|
  {
    hide GapLen, NewlineLen, BlankLen, GapText, NewlineText, ValidGap, BlankLinesText;
    BlankUnfold(t);
    var h := GapIn(t);
    var k := GapLen(t);
    var nl := NewlineIn(t[k..]);
    var n := NewlineLen(t[k..]);
    if n == 0 {
      NoLineEnd(t[k..]);
      ls, g := [], h;
      NoBlankLines(GapText(g));
    } else {
      var more;
      more, g := BlanksIn(t[k + n..]);
      var l := BlankLine(h, nl);
      ls := [l] + more;
      BlankLinesMore(l, more);
      TakeMore(t, k, n);
      TakeMore(t, k + n, BlankLen(t[k + n..]));
      Assoc(GapText(h) + NewlineText(nl), BlankLinesText(more), GapText(g));
    }
  }

  lemma NoBlankLines(s: Bytes)
    ensures BlankLinesText([]) + s == s
  {
  }

  lemma BlanksBefore(t: Bytes) returns (b: Blanks)
    requires BlankLen(t) < |t|
    ensures ValidBlanks(b) && BlanksText(b) == t[..BlankLen(t)] && t[BlankLen(t)] !in {' ', '\t', '#', '\n'}
  {
    hide BlankLen, BlankLinesText;
    var ls, g := BlanksIn(t);
    GapPlain(g);
    b := Blanks(ls, g.spaces);
  }

  // ---- strings

  lemma {:induction false} HexIn(d: Bytes)
    requires HexValue(d).Some?
    ensures Hexadecimal(d)
  {
    if d != [] {
      var n := |d| - 1;
      HexIn(d[..n]);
      assert d == d[..n] + [d[n]];
    }
  }

  lemma EscapeIn(t: Bytes) returns (u: Unit)
    requires Escape(t).Some? && t[0] == '\\'
    ensures ValidUnit(u) && UnitText(u) == t[..Escape(t).value.len]
  {
    hide EncodeRune, HexValue, Number;
    if SimpleEscape(t[1]).Some? {
      u := Short(t[1]);
      assert t[..2] == ['\\', t[1]];
    } else {
      var d := EscapeDigits(t[1]);
      HexIn(t[2..2 + d]);
      HexRead(t[2..2 + d]);
      u := Coded(t[1], t[2..2 + d]);
      assert t[..2 + d] == ['\\', t[1]] + t[2..2 + d];
    }
  }

  lemma UnitFirst(u: Unit, us: seq<Unit>)
    requires ValidUnit(u) && ValidUnits(us)
    ensures ValidUnits([u] + us) && UnitsText([u] + us) == UnitText(u) + UnitsText(us)
  {
    hide ValidUnit, UnitText;
    assert ([u] + us)[1..] == us;
  }

  /** The first unit of a basic string's body. */
  lemma UnitIn(t: Bytes) returns (u: Unit)
    requires BasicBody(t).Some? && t[0] != '"'
    ensures ValidUnit(u) && |UnitText(u)| <= |t| && UnitText(u) == t[..|UnitText(u)|] && UnitText(u) != []
    ensures (var r := BasicBody(t[|UnitText(u)|..]);
             r.Some? && BasicBody(t).value.len == |UnitText(u)| + r.value.len)
  {
    hide Escape;
    if t[0] == '\\' {
      u := EscapeIn(t);
    } else {
      u := Plain(t[0]);
    }
  }

  lemma {:induction false} UnitsIn(t: Bytes) returns (us: seq<Unit>)
    requires BasicBody(t).Some?
    ensures ValidUnits(us) && t[..BasicBody(t).value.len] == UnitsText(us) + "\""
    decreases |t|
  {
    if t[0] == '"' {
      us := [];
    } else {
      var u := UnitIn(t);
      hide BasicBody, UnitText, UnitsText, ValidUnit, ValidUnits;
      var k := |UnitText(u)|;
      var more := UnitsIn(t[k..]);
      us := [u] + more;
      UnitFirst(u, more);
      TakeMore(t, k, BasicBody(t[k..]).value.len);
      Assoc(UnitText(u), UnitsText(more), "\"");
    }
  }

  lemma {:induction false} LiteralIn(t: Bytes)
    requires LiteralLen(t).Some?
    ensures LiteralText(t[..LiteralLen(t).value])
  {
    if t[0] != '\'' {
      LiteralIn(t[1..]);
      assert t[..LiteralLen(t).value] == [t[0]] + t[1..][..LiteralLen(t).value - 1];
    }
  }

  lemma Quotes(t: Bytes, q: Byte, n: nat)
    requires Starts(t, q) && n + 2 <= |t| && t[1..][n] == q
    ensures t[..n + 2] == [q] + t[1..][..n] + [q]
  {
  }

  // ---- keys

  lemma {:induction false} BareKeyIn(t: Bytes)
    ensures forall i | 0 <= i < BareKeyLen(t) :: KeyByte(t[i])
  {
    if t != [] && IsBareKeyByte(t[0]) {
      BareKeyIn(t[1..]);
      forall i | 0 <= i < BareKeyLen(t) ensures KeyByte(t[i]) {
        if i > 0 {
          assert KeyByte(t[1..][i - 1]);
        }
      }
    }
  }

  lemma SegIn(t: Bytes) returns (g: Seg)
    requires SimpleKey(t).Some?
    ensures ValidSeg(g) && SegText(g) == t[..SimpleKey(t).value.len]
  {
    hide BasicBody, LiteralLen, BareKeyLen, UnitsText, ValidUnits;
    if Starts(t, '"') {
      var us := UnitsIn(t[1..]);
      g := BasicSeg(us);
      TakeMore(t, 1, BasicBody(t[1..]).value.len);
      Assoc("\"", UnitsText(us), "\"");
    } else if Starts(t, '\'') {
      var n := LiteralLen(t[1..]).value;
      LiteralIn(t[1..]);
      Quotes(t, '\'', n);
      g := LiteralSeg(t[1..][..n]);
    } else {
      BareKeyIn(t);
      g := BareSeg(t[..BareKeyLen(t)]);
    }
  }

  lemma PartIn(t: Bytes) returns (p: Part)
    requires Segment(t).Some?
    ensures ValidPart(p) && PartText(p) == t[..Segment(t).value.len] && p.before == t[..SpaceLen(t)]
  {
    hide SimpleKey, SpaceLen, SegText, ValidSeg;
    var a := SpaceLen(t);
    SpacesIn(t);
    var g := SegIn(t[a..]);
    var k := SimpleKey(t[a..]).value.len;
    var u := t[a + k..];
    SpacesIn(u);
    TakeMore(t, a, k);
    TakeMore(t, a + k, SpaceLen(u));
    p := Part(t[..a], g, u[..SpaceLen(u)]);
  }

  lemma KeyOne(p: Part)
    requires ValidPart(p)
    ensures ValidKey([p]) && KeyText([p]) == PartText(p)
  {
    hide ValidPart, PartText;
  }

  lemma KeyMore(p: Part, ps: seq<Part>)
    requires ValidPart(p) && ValidKey(ps)
    ensures ValidKey([p] + ps) && KeyText([p] + ps) == PartText(p) + "." + KeyText(ps)
  {
    hide ValidPart, PartText;
    assert ([p] + ps)[1..] == ps;
  }

  lemma DottedParts(t: Bytes) returns (k: Token)
    requires DottedKey(t).Some?
    ensures Segment(t) == Some(k) && 0 < k.len <= |t|
    ensures !Starts(t[k.len..], '.') ==> DottedKey(t).value.len == k.len
    ensures Starts(t[k.len..], '.') ==>
              (var r := DottedKey(t[k.len + 1..]); r.Some? && DottedKey(t).value.len == k.len + 1 + r.value.len)
  {
    hide Segment;
    k := Segment(t).value;
  }

  lemma DotNext(t: Bytes, k: nat, n: nat)
    requires k < |t| && t[k] == '.' && n <= |t| - k - 1
    ensures t[..k + 1 + n] == t[..k] + "." + t[k + 1..][..n]
  {
  }

  lemma {:induction false} KeyIn(t: Bytes) returns (ps: seq<Part>)
    requires DottedKey(t).Some?
    ensures ValidKey(ps) && KeyText(ps) == t[..DottedKey(t).value.len] && ps[0].before == t[..SpaceLen(t)]
    decreases |t|
  {
    hide *;
    var k := DottedParts(t);
    var p := PartIn(t);
    if !Starts(t[k.len..], '.') {
      ps := [p];
      KeyOne(p);
    } else {
      var more := KeyIn(t[k.len + 1..]);
      ps := [p] + more;
      KeyMore(p, more);
      StartsAt(t, k.len, '.');
      DotNext(t, k.len, DottedKey(t[k.len + 1..]).value.len);
    }
  }

  lemma StartsAt(t: Bytes, k: nat, c: Byte)
    requires k <= |t| && Starts(t[k..], c)
    ensures k < |t| && t[k] == c
  {
  }

  lemma KeyEqualsParts(t: Bytes) returns (k: Key)
    requires KeyEquals(t).Some?
    ensures DottedKey(t) == Some(k) && k.len < |t| && t[k.len] == '='
    ensures KeyEquals(t).value.len == k.len + 1 + SpaceLen(t[k.len + 1..])
  {
    hide DottedKey, SpaceLen;
    k := DottedKey(t).value;
  }

  lemma EqualsNext(t: Bytes, k: nat, n: nat)
    requires k < |t| && t[k] == '=' && n <= |t| - k - 1
    ensures t[..k + 1 + n] == t[..k] + "=" + t[k + 1..][..n]
  {
  }

  lemma KeyEqualsIn(t: Bytes) returns (ps: seq<Part>, equals: Bytes)
    requires KeyEquals(t).Some?
    ensures ValidKey(ps) && Spaces(equals) && ps[0].before == t[..SpaceLen(t)]
    ensures KeyText(ps) + "=" + equals == t[..KeyEquals(t).value.len]
  {
    hide DottedKey, SpaceLen, KeyText, KeyEquals, ValidKey;
    var k := KeyEqualsParts(t);
    ps := KeyIn(t);
    var u := t[k.len + 1..];
    SpacesIn(u);
    equals := u[..SpaceLen(u)];
    EqualsNext(t, k.len, SpaceLen(u));
  }

  // ---- multi-line strings

  lemma PieceMore(p: Piece, ps: seq<Piece>)
    ensures PiecesText([p] + ps) == PieceText(p) + PiecesText(ps)
  {
    assert ([p] + ps)[1..] == ps;
  }

  lemma PiecesTwo(ps: seq<Piece>, q: Byte)
    requires |ps| >= 2 && ps[0] == Char(q) && ps[1] == Char(q)
    ensures [q, q] <= PiecesText(ps)
  {
    assert PiecesText(ps) == [q] + ([q] + PiecesText(ps[1..][1..]));
  }

  lemma OneAndTwo(q: Byte, s: Bytes)
    requires [q, q] <= s
    ensures [q, q, q] <= [q] + s
  {
    assert s[0] == s[..2][0] && s[1] == s[..2][1];
    assert ([q] + s)[..3] == [q, s[0], s[1]];
  }

  lemma TwoMore(q: Byte, s: Bytes, r: Bytes)
    requires [q, q] <= s
    ensures [q, q] <= s + r
  {
    assert (s + r)[..2] == s[..2];
  }

  lemma TripleText(ps: seq<Piece>, q: Byte, r: Bytes)
    requires [q, q, q] <= r && (ps == [] || (|ps| >= 2 && ps[0] == Char(q) && ps[1] == Char(q)))
    ensures [q, q, q] <= [q] + PiecesText(ps) + r
  {
    hide *;
    TwoOf(q, r);
    if ps == [] {
      NoPieces(ps, r);
    } else {
      PiecesTwo(ps, q);
      TwoMore(q, PiecesText(ps), r);
    }
    OneAndTwo(q, PiecesText(ps) + r);
    Assoc([q], PiecesText(ps), r);
  }

  lemma TwoOf(q: Byte, r: Bytes)
    requires [q, q, q] <= r
    ensures [q, q] <= r
  {
    assert r[..2] == r[..3][..2];
  }

  lemma NoPieces(ps: seq<Piece>, r: Bytes)
    requires ps == []
    ensures PiecesText(ps) + r == r
  {
  }

  lemma PrefixOf(q: Byte, s: Bytes, t: Bytes)
    requires [q, q, q] <= s <= t
    ensures [q, q, q] <= t
  {
    assert t[..3] == t[..|s|][..3];
  }

  lemma PiecesValid(p: Piece, ps: seq<Piece>, q: Byte, escapes: bool, r: Bytes, t: Bytes)
    requires ValidPieces(ps, q, escapes) && (if escapes then p != Char('\\') else p.Char?)
    requires [q, q, q] <= r && p == Char(q) ==> [q] + PiecesText(ps) + r <= t && !([q, q, q] <= t)
    requires [q, q, q] <= r
    ensures ValidPieces([p] + ps, q, escapes)
  {
    hide PiecesText;
    var all := [p] + ps;
    if p == Char(q) {
      if ps == [] || (|ps| >= 2 && ps[0] == Char(q) && ps[1] == Char(q)) {
        TripleText(ps, q, r);
        PrefixOf(q, [q] + PiecesText(ps) + r, t);
        assert false;
      }
    }
    assert forall i | 0 < i < |all| :: all[i] == ps[i - 1];
  }

  lemma MultiNext(t: Bytes, q: Byte, escapes: bool) returns (p: Piece)
    requires (q == '"' || q == '\'') && MultiBody(t, q, escapes).Some? && (Slashed(t, escapes) || !([q, q, q] <= t))
    ensures (if escapes then p != Char('\\') else p.Char?) && |PieceText(p)| <= |t|
    ensures PieceText(p) == t[..|PieceText(p)|]
    ensures (var r := MultiBody(t[|PieceText(p)|..], q, escapes);
             r.Some? && MultiBody(t, q, escapes).value == |PieceText(p)| + r.value)
    ensures p == Char(q) ==> !([q, q, q] <= t)
  {
    if Slashed(t, escapes) {
      p := Slash(t[1]);
    } else {
      p := Char(t[0]);
    }
  }

  predicate Slashed(t: Bytes, escapes: bool) {
    escapes && Starts(t, '\\')
  }

  lemma ExtraIn(t: Bytes, q: Byte)
    requires [q, q, q] <= t
    ensures (var n := 3 + ExtraQuotes(t[3..], q); n <= |t| && t[..n] == Repeat(q, n))
  {
    var n := 3 + ExtraQuotes(t[3..], q);
    RepeatAt(q, n);
    forall i | 0 <= i < n ensures t[i] == q {
      assert i < 3 ==> t[i] == t[..3][i];
      assert i == 3 ==> t[i] == t[3..][0];
      assert i == 4 ==> t[i] == t[3..][1..][0];
    }
  }

  lemma MultiEnd(t: Bytes, q: Byte, escapes: bool)
    requires (q == '"' || q == '\'') && [q, q, q] <= t && !Slashed(t, escapes)
    ensures MultiBody(t, q, escapes) == Some(3 + ExtraQuotes(t[3..], q))
  {
    assert t[0] == t[..3][0];
    hide ExtraQuotes;
  }

  lemma TripleRepeat(q: Byte, extra: nat, t: Bytes)
    ensures [q, q, q] <= Repeat(q, 3 + extra)
  {
    RepeatAt(q, 3 + extra);
  }

  lemma PieceOrder(p: Piece, ps: Bytes, r: Bytes, q: Byte, t: Bytes)
    requires PieceText(p) + (ps + r) == t && p == Char(q)
    ensures [q] + ps + r <= t
  {
    Assoc([q], ps, r);
  }

  lemma SlicePrefix(t: Bytes, n: nat)
    requires n <= |t|
    ensures t[..n] <= t
  {
  }

  lemma PiecesEnd(t: Bytes, q: Byte, escapes: bool) returns (ps: seq<Piece>, extra: nat)
    requires (q == '"' || q == '\'') && [q, q, q] <= t && !Slashed(t, escapes)
    ensures MultiBody(t, q, escapes).Some? && ps == [] && extra <= 2
    ensures t[..MultiBody(t, q, escapes).value] == PiecesText(ps) + Repeat(q, 3 + extra)
  {
    hide MultiBody, ExtraQuotes, Repeat;
    ps, extra := [], ExtraQuotes(t[3..], q);
    MultiEnd(t, q, escapes);
    ExtraIn(t, q);
    NoPieces(ps, Repeat(q, 3 + extra));
  }

  lemma NothingValid(ps: seq<Piece>, q: Byte, escapes: bool)
    requires ps == []
    ensures ValidPieces(ps, q, escapes)
  {
  }

  lemma {:induction false} PiecesIn(t: Bytes, q: Byte, escapes: bool) returns (ps: seq<Piece>, extra: nat)
    requires (q == '"' || q == '\'') && MultiBody(t, q, escapes).Some?
    ensures ValidPieces(ps, q, escapes) && extra <= 2
    ensures t[..MultiBody(t, q, escapes).value] == PiecesText(ps) + Repeat(q, 3 + extra)
    decreases |t|
  {
    hide *;
    if [q, q, q] <= t && !Slashed(t, escapes) {
      ps, extra := PiecesEnd(t, q, escapes);
      NothingValid(ps, q, escapes);
    } else {
      var p := MultiNext(t, q, escapes);
      PieceSome(p);
      var k := |PieceText(p)|;
      var more;
      more, extra := PiecesIn(t[k..], q, escapes);
      var n, r := MultiBody(t[k..], q, escapes).value, Repeat(q, 3 + extra);
      ps := [p] + more;
      PieceMore(p, more);
      TakeMore(t, k, n);
      Assoc(PieceText(p), PiecesText(more), r);
      TripleRepeat(q, extra, t);
      if p == Char(q) {
        SlicePrefix(t, k + n);
        PieceOrder(p, PiecesText(more), r, q, t[..k + n]);
        PrefixMore([q] + PiecesText(more) + r, t[..k + n], t);
      }
      PiecesValid(p, more, q, escapes, r, t);
    }
  }

  lemma PrefixMore(a: Bytes, b: Bytes, c: Bytes)
    requires a <= b <= c
    ensures a <= c
  {
    assert c[..|a|] == c[..|b|][..|a|];
  }

  lemma PieceSome(p: Piece)
    ensures PieceText(p) != []
  {
  }

  // ---- values

  lemma {:induction false} BareIn(t: Bytes)
    ensures forall i | 0 <= i < BareRun(t) :: !EndsBare(t[i])
  {
    if t != [] && !EndsBare(t[0]) {
      BareIn(t[1..]);
      forall i | 0 <= i < BareRun(t) ensures !EndsBare(t[i]) {
        if i > 0 {
          assert !EndsBare(t[1..][i - 1]);
        }
      }
    }
  }

  lemma {:induction false} TrimIn(t: Bytes, n: nat)
    requires n <= |t|
    ensures TrimLen(t, n) > 0 ==> !IsSpace(t[TrimLen(t, n) - 1])
  {
    if n > 0 && IsSpace(t[n - 1]) {
      TrimIn(t, n - 1);
    }
  }

  /** Text whose value is neither quoted nor bracketed. */
  predicate Unopened(t: Bytes) {
    !Starts(t, '"') && !Starts(t, '\'') && !Starts(t, '[') && !Starts(t, '{')
  }

  lemma UnopenedValue(t: Bytes) returns (n: nat)
    requires ValueLen(t).Some? && Unopened(t)
    ensures n == TrimLen(t, BareRun(t)) > 0 && ValueLen(t) == Some(n)
  {
    n := ValueLen(t).value;
  }

  lemma BareValIn(t: Bytes) returns (v: Val)
    requires ValueLen(t).Some? && Unopened(t) && t != [] && !IsSpace(t[0])
    ensures ValidVal(v) && ValText(v) == t[..ValueLen(t).value]
  {
    hide ValueLen, BareRun, TrimLen;
    var n := UnopenedValue(t);
    BareIn(t);
    TrimIn(t, BareRun(t));
    v := BareVal(t[..n]);
    forall i | 0 <= i < n ensures t[..n][i] !in {'\r', '\n', '#', ',', ']', '}'} {
      assert !EndsBare(t[i]);
    }
  }

  lemma QuotedParts(t: Bytes)
    requires ValueLen(t).Some?
    ensures "\"\"\"" <= t ==>
              (var r := MultiBody(t[3..], '"', true); r.Some? && ValueLen(t).value == 3 + r.value)
    ensures "'''" <= t && !Starts(t, '"') ==>
              (var r := MultiBody(t[3..], '\'', false); r.Some? && ValueLen(t).value == 3 + r.value)
    ensures !("\"\"\"" <= t) && Starts(t, '"') ==>
              (var r := BasicBody(t[1..]); r.Some? && ValueLen(t).value == 1 + r.value.len)
    ensures !("'''" <= t) && Starts(t, '\'') ==>
              (var r := LiteralLen(t[1..]); r.Some? && ValueLen(t).value == 2 + r.value)
  {
    hide MultiBody, BasicBody, LiteralLen, ArrayBody, InlineBody;
    if "\"\"\"" <= t {
      assert t[0] == t[..3][0];
    } else if "'''" <= t {
      assert t[0] == t[..3][0];
    }
  }

  lemma MultiValIn(t: Bytes, q: Byte) returns (v: Val)
    requires (q == '"' || q == '\'') && [q, q, q] <= t && MultiBody(t[3..], q, q == '"').Some?
    ensures ValidVal(v) && ValText(v) == t[..3 + MultiBody(t[3..], q, q == '"').value]
  {
    hide MultiBody, PiecesText, ValidPieces;
    var ps, extra := PiecesIn(t[3..], q, q == '"');
    v := MultiVal(q, ps, extra);
    RepeatAt(q, 3);
    assert Repeat(q, 3) == [q, q, q];
    hide Repeat;
    TakeMore(t, 3, MultiBody(t[3..], q, q == '"').value);
    Assoc(Repeat(q, 3), PiecesText(ps), Repeat(q, 3 + extra));
  }

  lemma BasicValIn(t: Bytes) returns (v: Val)
    requires Starts(t, '"') && BasicBody(t[1..]).Some?
    ensures ValidVal(v) && ValText(v) == t[..1 + BasicBody(t[1..]).value.len]
  {
    hide BasicBody, UnitsText, ValidUnits;
    var us := UnitsIn(t[1..]);
    v := BasicVal(us);
    TakeMore(t, 1, BasicBody(t[1..]).value.len);
    Assoc("\"", UnitsText(us), "\"");
  }

  lemma LiteralValIn(t: Bytes) returns (v: Val)
    requires Starts(t, '\'') && LiteralLen(t[1..]).Some?
    ensures ValidVal(v) && ValText(v) == t[..2 + LiteralLen(t[1..]).value]
  {
    hide LiteralLen;
    var n := LiteralLen(t[1..]).value;
    LiteralIn(t[1..]);
    Quotes(t, '\'', n);
    v := LiteralVal(t[1..][..n]);
  }

  lemma QuotedIn(t: Bytes) returns (v: Val)
    requires ValueLen(t).Some? && (Starts(t, '"') || Starts(t, '\''))
    ensures ValidVal(v) && ValText(v) == t[..ValueLen(t).value]
  {
    hide ValueLen, MultiBody, BasicBody, LiteralLen, ValText, ValidVal;
    QuotedParts(t);
    if "\"\"\"" <= t {
      v := MultiValIn(t, '"');
    } else if Starts(t, '"') {
      v := BasicValIn(t);
    } else if "'''" <= t {
      v := MultiValIn(t, '\'');
    } else {
      v := LiteralValIn(t);
    }
  }

  lemma NestedParts(t: Bytes)
    requires ValueLen(t).Some?
    ensures Starts(t, '[') ==> (var r := Body(t[1..], ']'); r.Some? && ValueLen(t).value == 1 + r.value)
    ensures Starts(t, '{') ==> (var r := Body(t[1..], '}'); r.Some? && ValueLen(t).value == 1 + r.value)
  {
    hide ArrayBody, InlineBody, MultiBody;
    if "\"\"\"" <= t || "'''" <= t {
      assert t[0] == t[..3][0];
    }
  }

  lemma NestedText(e: Elems, close: Byte) returns (v: Val)
    requires (close == ']' || close == '}') && ValidElems(e, close == '}')
    ensures ValidVal(v) && ValText(v) == [if close == ']' then '[' else '{'] + ElemsText(e, close)
  {
    v := if close == ']' then ArrayVal(e) else InlineVal(e);
    hide ElemsText, ValidElems;
  }

  lemma {:induction false} NestedIn(t: Bytes, close: Byte) returns (v: Val)
    requires (close == ']' || close == '}') && Starts(t, if close == ']' then '[' else '{') && ValueLen(t).Some?
    ensures ValidVal(v) && ValText(v) == t[..ValueLen(t).value]
    decreases |t|, 0
  {
    hide ValueLen, Body, ElemsText, ValidElems, ValidVal, ValText;
    NestedParts(t);
    var e := ElemsIn(t[1..], close);
    TakeMore(t, 1, Body(t[1..], close).value);
    v := NestedText(e, close);
  }

  lemma {:induction false} ValIn(t: Bytes) returns (v: Val)
    requires ValueLen(t).Some? && t != [] && !IsSpace(t[0])
    ensures ValidVal(v) && ValText(v) == t[..ValueLen(t).value]
    decreases |t|, 1
  {
    hide ValueLen, IsSpace, ValidVal, ValText;
    if Starts(t, '"') || Starts(t, '\'') {
      v := QuotedIn(t);
    } else if Starts(t, '[') {
      v := NestedIn(t, ']');
    } else if Starts(t, '{') {
      v := NestedIn(t, '}');
    } else {
      v := BareValIn(t);
    }
  }

  /** Where the first item of an array or an inline table lies, and what comes after it. */
  lemma AfterLies(t: Bytes, i: nat, close: Byte) returns (b: nat)
    requires (close == ']' || close == '}') && 0 < i <= |t| && AfterItem(t, i, close).Some?
    ensures b == i + BlankLen(t[i..]) < |t|
    ensures t[b] == close ==> AfterItem(t, i, close) == Some(b + 1)
    ensures t[b] != close ==>
              && t[b] == ','
              && (var r := Body(t[b + 1..], close); r.Some? && AfterItem(t, i, close).value == b + 1 + r.value)
  {
    hide BlankLen, ArrayBody, InlineBody;
    b := i + BlankLen(t[i..]);
  }

  lemma ArrayLies(t: Bytes) returns (a: nat, n: nat)
    requires ArrayBody(t).Some? && BlankLen(t) < |t| && t[BlankLen(t)] != ']'
    ensures a == BlankLen(t) && ValueLen(t[a..]) == Some(n) && 0 < n && a + n <= |t|
    ensures AfterItem(t, a + n, ']') == ArrayBody(t)
  {
    hide BlankLen, ValueLen, AfterItem;
    a := BlankLen(t);
    n := ValueLen(t[a..]).value;
  }

  lemma InlineLies(t: Bytes) returns (a: nat, k: nat, n: nat)
    requires InlineBody(t).Some? && BlankLen(t) < |t| && t[BlankLen(t)] != '}'
    ensures a == BlankLen(t) && KeyEquals(t[a..]).Some? && k == KeyEquals(t[a..]).value.len
    ensures a + k <= |t| && ValueLen(t[a + k..]) == Some(n) && 0 < n && a + k + n <= |t|
    ensures AfterItem(t, a + k + n, '}') == InlineBody(t)
  {
    hide BlankLen, ValueLen, AfterItem, KeyEquals;
    a := BlankLen(t);
    k := KeyEquals(t[a..]).value.len;
    n := ValueLen(t[a + k..]).value;
  }

  /** Where the first item of an array or an inline table lies, and what comes after it. */
  lemma ItemLies(t: Bytes, close: Byte) returns (a: nat, k: nat, n: nat, b: nat)
    requires (close == ']' || close == '}') && Body(t, close).Some?
    requires BlankLen(t) < |t| && t[BlankLen(t)] != close
    ensures a == BlankLen(t)
    ensures (if close == '}' then KeyEquals(t[a..]).Some? && k == KeyEquals(t[a..]).value.len else k == 0)
    ensures a + k <= |t| && ValueLen(t[a + k..]) == Some(n) && a + k + n <= |t| && n > 0
    ensures a + k + n + BlankLen(t[a + k + n..]) == b < |t|
    ensures t[b] == close ==> Body(t, close) == Some(b + 1)
    ensures t[b] != close ==>
              && t[b] == ','
              && (var r := Body(t[b + 1..], close); r.Some? && Body(t, close).value == b + 1 + r.value)
  {
    hide BlankLen, KeyEquals, ValueLen, AfterItem, ArrayBody, InlineBody;
    if close == '}' {
      a, k, n := InlineLies(t);
    } else {
      k := 0;
      a, n := ArrayLies(t);
    }
    b := AfterLies(t, a + k + n, close);
  }

  lemma BodyBlanks(t: Bytes, close: Byte)
    requires (close == ']' || close == '}') && Body(t, close).Some?
    ensures BlankLen(t) < |t| && (t[BlankLen(t)] == close ==> Body(t, close) == Some(BlankLen(t) + 1))
  {
    hide BlankLen, KeyEquals, ValueLen, AfterItem;
  }

  lemma TakeOne(t: Bytes, a: nat)
    requires a < |t|
    ensures t[..a + 1] == t[..a] + [t[a]]
  {
  }

  /** An item's key, which ends where no space is. */
  lemma ItemKey(t: Bytes, close: Byte) returns (ps: seq<Part>, equals: Bytes)
    requires close == ']' || close == '}'
    requires t != [] && !IsSpace(t[0]) && (close == '}' ==> KeyEquals(t).Some?)
    ensures (if close == '}' then ValidKey(ps) && ps[0].before == "" && Spaces(equals) else ps == [])
    ensures (var k := if close == '}' then KeyEquals(t).value.len else 0;
             (if ps == [] then "" else KeyText(ps) + "=" + equals) == t[..k] && (k < |t| ==> !IsSpace(t[k])))
  {
    hide KeyText, KeyEquals, ValidKey;
    ps, equals := [], "";
    if close == '}' {
      ps, equals := KeyEqualsIn(t);
      KeyParts(ps);
      NoSpaceFirst(t);
      KeyEqualsStop(t);
    }
  }

  lemma KeyEqualsStop(t: Bytes)
    requires KeyEquals(t).Some?
    ensures (var k := KeyEquals(t).value.len; k < |t| ==> !IsSpace(t[k]))
  {
    hide DottedKey, SpaceLen, KeyEquals;
    var k := KeyEqualsParts(t);
    SpacesIn(t[k.len + 1..]);
  }

  lemma ItemMade(i: Item, t: Bytes, a: nat, k: nat, n: nat, b: nat)
    requires a + k + n <= b <= |t| && BlanksText(i.before) == t[..a] && KeyOf(i) == t[a..][..k]
    requires ValText(i.val) == t[a + k..][..n] && BlanksText(i.after) == t[a + k + n..][..b - a - k - n]
    ensures ItemText(i) == t[..b]
  {
    hide BlanksText, ValText, KeyText;
    TakeMore(t, a, k);
    TakeMore(t, a + k, n);
    TakeMore(t, a + k + n, b - a - k - n);
  }

  lemma {:induction false} ItemIn(t: Bytes, close: Byte, a: nat, k: nat, n: nat, b: nat) returns (i: Item)
    requires (close == ']' || close == '}') && a == BlankLen(t) < |t| && t[a] != close
    requires if close == '}' then KeyEquals(t[a..]).Some? && k == KeyEquals(t[a..]).value.len else k == 0
    requires a + k <= |t| && ValueLen(t[a + k..]) == Some(n) && a + k + n <= |t|
    requires a + k + n + BlankLen(t[a + k + n..]) == b < |t|
    ensures ValidItem(i, close == '}') && ItemText(i) == t[..b]
    decreases |t|, 2
  {
    hide BlankLen, ValueLen, KeyEquals, BlanksText, ValText, ValidVal, ValidBlanks, KeyText, ValidKey, IsSpace,
         ItemText, Spaces;
    var before := BlanksBefore(t);
    NotSpace(t[a]);
    var ps, equals := ItemKey(t[a..], close);
    var v := ValIn(t[a + k..]);
    var after := BlanksBefore(t[a + k + n..]);
    i := Item(before, ps, equals, v, after);
    ItemMade(i, t, a, k, n, b);
  }

  lemma {:induction false} ElemsIn(t: Bytes, close: Byte) returns (e: Elems)
    requires (close == ']' || close == '}') && Body(t, close).Some?
    ensures ValidElems(e, close == '}') && ElemsText(e, close) == t[..Body(t, close).value]
    decreases |t|, 3
  {
    hide *;
    BodyBlanks(t, close);
    if t[BlankLen(t)] == close {
      var before := BlanksBefore(t);
      e := Close(before);
      TakeOne(t, BlankLen(t));
      CloseText(before, close);
    } else {
      var a, k, n, b := ItemLies(t, close);
      var i := ItemIn(t, close, a, k, n, b);
      TakeOne(t, b);
      if t[b] == close {
        e := Last(i);
        LastText(i, close);
      } else {
        var more := ElemsIn(t[b + 1..], close);
        TakeMore(t, b + 1, Body(t[b + 1..], close).value);
        e := More(i, more);
        MoreText(i, more, close);
      }
    }
  }

  lemma CloseText(blanks: Blanks, close: Byte)
    ensures ElemsText(Close(blanks), close) == BlanksText(blanks) + [close]
    ensures forall keyed | ValidBlanks(blanks) :: ValidElems(Close(blanks), keyed)
  {
  }

  lemma LastText(i: Item, close: Byte)
    ensures ElemsText(Last(i), close) == ItemText(i) + [close]
    ensures forall keyed | ValidItem(i, keyed) :: ValidElems(Last(i), keyed)
  {
  }

  lemma MoreText(i: Item, more: Elems, close: Byte)
    ensures ElemsText(More(i, more), close) == ItemText(i) + "," + ElemsText(more, close)
    ensures forall keyed | ValidItem(i, keyed) && ValidElems(more, keyed) :: ValidElems(More(i, more), keyed)
  {
  }

  lemma NotSpace(c: Byte)
    requires c !in {' ', '\t', '#', '\n'}
    ensures !IsSpace(c)
  {
  }

  // ---- statements

  lemma EndLineIn(t: Bytes) returns (g: Gap, nl: Newline)
    requires EndLine(t).Some?
    ensures ValidGap(g) && GapText(g) + NewlineText(nl) == t[..EndLine(t).value]
    ensures nl == NoNewline ==> EndLine(t).value == |t|
  {
    hide GapLen, NewlineLen, GapText, NewlineText, ValidGap;
    g := GapIn(t);
    var k := GapLen(t);
    nl := NewlineIn(t[k..]);
    TakeMore(t, k, NewlineLen(t[k..]));
    NoNewlineText();
    NoLineLeft();
    if k == |t| {
      assert t[k..] == [];
      assert GapText(g) + "" == GapText(g);
    }
  }

  lemma HeaderLies(t: Bytes) returns (kind: Kind, n: nat)
    requires Starts(t, '[') && Header(t).Some?
    ensures kind == (if "[[" <= t then ArrayTable else Table)
    ensures (var open := |Closing(kind)|;
             && open <= |t| && DottedKey(t[open..]).Some? && n == DottedKey(t[open..]).value.len
             && open + n <= |t| && Closing(kind) <= t[open + n..] && Header(t).value.lineEnd == open + n + open)
  {
    hide DottedKey;
    kind := if "[[" <= t then ArrayTable else Table;
    n := DottedKey(t[|Closing(kind)|..]).value.len;
  }

  lemma HeaderBytes(t: Bytes, kind: Kind, n: nat)
    requires Starts(t, '[') && kind == (if "[[" <= t then ArrayTable else Table)
    requires (var open := |Closing(kind)|; open + n <= |t| && Closing(kind) <= t[open + n..])
    ensures (var open := |Closing(kind)|;
             && open + n + open <= |t|
             && t[..open + n + open] == (if kind == ArrayTable then "[[" else "[") + t[open..][..n] + Closing(kind))
  {
    var open := |Closing(kind)|;
    TakeMore(t, open, n);
    TakeMore(t, open + n, open);
    assert t[open + n..][..open] == Closing(kind);
    if kind == Table {
      assert t[..1] == "[";
    }
  }

  lemma HeaderIn(t: Bytes) returns (many: bool, key: seq<Part>)
    requires Starts(t, '[') && Header(t).Some?
    ensures ValidKey(key) && HeaderText(many, key) == t[..Header(t).value.lineEnd]
  {
    hide Header, DottedKey, ValidKey, KeyText, Closing;
    var kind, n := HeaderLies(t);
    key := KeyIn(t[|Closing(kind)|..]);
    many := kind == ArrayTable;
    HeaderBytes(t, kind, n);
    Brackets(kind);
    KeyParts(key);
  }

  lemma Brackets(kind: Kind)
    ensures Closing(kind) == if kind == ArrayTable then "]]" else "]"
  {
  }

  lemma PairLies(t: Bytes, table: Path) returns (k: nat)
    requires Pair(t, table).Some?
    ensures KeyEquals(t).Some? && k == KeyEquals(t).value.len && ValueLen(t[k..]).Some?
    ensures Pair(t, table).value.lineEnd == k + ValueLen(t[k..]).value
  {
    hide KeyEquals, ValueLen;
    k := KeyEquals(t).value.len;
  }

  lemma PairIn(t: Bytes, table: Path) returns (key: seq<Part>, equals: Bytes, val: Val)
    requires t != [] && !IsSpace(t[0]) && Pair(t, table).Some?
    ensures ValidKey(key) && key[0].before == "" && Spaces(equals) && ValidVal(val)
    ensures KeyText(key) + "=" + equals + ValText(val) == t[..Pair(t, table).value.lineEnd]
  {
    hide Pair, KeyEquals, ValueLen, KeyText, ValText, ValidVal, ValidKey, Spaces, IsSpace;
    var k := PairLies(t, table);
    key, equals := KeyEqualsIn(t);
    NoSpaceFirst(t);
    KeyEqualsStop(t);
    val := ValIn(t[k..]);
    TakeMore(t, k, ValueLen(t[k..]).value);
  }

  lemma BareParts(t: Bytes, table: Path)
    requires Bare(t, table).Some?
    ensures Starts(t, '[') ==> Header(t) == Bare(t, table)
    ensures !Starts(t, '[') ==> Pair(t, table) == Bare(t, table)
  {
    hide Header, Pair;
  }

  /** A statement's line, put after some indentation. */
  lemma LineOf(t: Bytes, table: Path, indent: Bytes) returns (l: Line)
    requires Spaces(indent) && t != [] && !IsSpace(t[0]) && Statement(t, table).Some?
    ensures ValidLine(l) && !l.Empty? && LineText(l) == indent + t[..Statement(t, table).value.lineEnd]
    ensures l.nl == NoNewline ==> Statement(t, table).value.lineEnd == |t|
  {
    hide Bare, EndLine, GapText, NewlineText, ValidGap, HeaderText, KeyText, ValText, ValidVal, ValidKey, Spaces,
         IsSpace, Header, Pair;
    var n := Bare(t, table).value.lineEnd;
    var g, nl := EndLineIn(t[n..]);
    BareParts(t, table);
    if Starts(t, '[') {
      var many, key := HeaderIn(t);
      l := Headed(indent, many, key, g, nl);
    } else {
      var key, equals, val := PairIn(t, table);
      l := Paired(indent, key, equals, val, g, nl);
    }
    TakeMore(t, n, EndLine(t[n..]).value);
    assert StatementText(l) == t[..n];
    hide StatementText;
    Assoc(t[..n], GapText(g), NewlineText(nl));
    Assoc4(indent, t[..n], GapText(g), NewlineText(nl));
  }

  // ---- documents

  function Empties(bs: seq<BlankLine>): (ls: seq<Line>)
    ensures |ls| == |bs| && forall i | 0 <= i < |bs| :: ls[i] == Empty(bs[i].gap, bs[i].nl)
  {
    if bs == [] then [] else [Empty(bs[0].gap, bs[0].nl)] + Empties(bs[1..])
  }

  lemma LinesMore(l: Line, ls: seq<Line>)
    requires ValidLine(l) && ValidLines(ls) && (l.nl == NoNewline ==> ls == [])
    ensures ValidLines([l] + ls) && LinesText([l] + ls) == LineText(l) + LinesText(ls)
  {
    hide ValidLine, LineText;
    var all := [l] + ls;
    assert all[1..] == ls;
    assert forall i | 0 < i < |all| :: all[i] == ls[i - 1];
  }

  lemma {:induction false} EmptiesMore(bs: seq<BlankLine>, ls: seq<Line>)
    requires ValidBlanks(Blanks(bs, "")) && ValidLines(ls)
    ensures ValidLines(Empties(bs) + ls) && LinesText(Empties(bs) + ls) == BlankLinesText(bs) + LinesText(ls)
    decreases |bs|
  {
    hide ValidLine, LineText, GapText, NewlineText, LinesText, ValidGap;
    if bs == [] {
      assert Empties(bs) + ls == ls;
      NoBlankLines(LinesText(ls));
    } else {
      var b := bs[0];
      var l := Empty(b.gap, b.nl);
      assert ValidBlanks(Blanks(bs[1..], ""));
      EmptiesMore(bs[1..], ls);
      assert Empties(bs) + ls == [l] + (Empties(bs[1..]) + ls);
      EmptyValid(b);
      EmptyText(l);
      LinesMore(l, Empties(bs[1..]) + ls);
      Assoc(GapText(b.gap) + NewlineText(b.nl), BlankLinesText(bs[1..]), LinesText(ls));
    }
  }

  lemma EmptyValid(b: BlankLine)
    requires ValidGap(b.gap)
    ensures ValidLine(Empty(b.gap, b.nl))
  {
  }

  lemma LastEmpty(g: Gap)
    requires ValidGap(g)
    ensures (var ls := [Empty(g, NoNewline)]; ValidLines(ls) && LinesText(ls) == GapText(g))
  {
    EmptyText(Empty(g, NoNewline));
    hide GapText, ValidGap, LineText;
    assert GapText(g) + "" == GapText(g);
    assert LinesText([]) == "";
  }

  lemma StatementsLie(t: Bytes, table: Path, at: nat) returns (n: nat, next: Path, later: nat)
    requires StatementsFrom(t, table, at).Some? && BlankLen(t) < |t|
    ensures Statement(t[BlankLen(t)..], table).Some? && n == Statement(t[BlankLen(t)..], table).value.lineEnd > 0
    ensures BlankLen(t) + n <= |t| && StatementsFrom(t[BlankLen(t) + n..], next, later).Some?
  {
    hide BlankLen, Statement;
    var st := Statement(t[BlankLen(t)..], table).value;
    n, next, later := st.lineEnd, TableAfter(table, st), at + BlankLen(t) + st.lineEnd;
  }

  lemma {:induction false} LinesIn(t: Bytes, table: Path, at: nat) returns (ls: seq<Line>)
    requires StatementsFrom(t, table, at).Some?
    ensures ValidLines(ls) && LinesText(ls) == t && (t == [] ==> ls == [])
    decreases |t|
  {
    hide *;
    var k := BlankLen(t);
    if t == [] {
      ls := [];
      NoLinesText();
    } else {
      var bs, g := BlanksIn(t);
      if k == |t| {
        LastEmpty(g);
        EmptiesMore(bs, [Empty(g, NoNewline)]);
        ls := Empties(bs) + [Empty(g, NoNewline)];
      } else {
        var n, next, later := StatementsLie(t, table, at);
        NotSpace(t[k]);
        GapIsSpaces(g);
        var l := LineOf(t[k..], table, g.spaces);
        var more := LinesIn(t[k + n..], next, later);
        LinesMore(l, more);
        EmptiesMore(bs, [l] + more);
        ls := Empties(bs) + ([l] + more);
        LineJoins(t, k, n, BlankLinesText(bs), g.spaces);
      }
    }
  }

  lemma NoLinesText()
    ensures ValidLines([]) && LinesText([]) == []
  {
  }

  lemma GapIsSpaces(g: Gap)
    requires ValidGap(g) && g.comment.None?
    ensures Spaces(g.spaces) && GapText(g) == g.spaces
  {
  }

  lemma LineJoins(t: Bytes, k: nat, n: nat, lines: Bytes, indent: Bytes)
    requires k + n <= |t| && lines + indent == t[..k]
    ensures lines + (indent + t[k..][..n] + t[k + n..]) == t
  {
    Assoc4(lines, indent, t[k..][..n], t[k + n..]);
    TakeMore(t, k, n);
    TakeDrop(t, k + n);
  }

  lemma DocIn(t: Bytes) returns (d: Doc)
    requires Statements(t).Some?
    ensures ValidLines(d.lines) && DocText(d) == t
  {
    hide StatementsFrom, LinesText, ValidLine;
    var k := Start(t);
    var ls := LinesIn(t[k..], [], k);
    d := Doc(k > 0, ls);
    TakeDrop(t, k);
    if k > 0 {
      assert t[..k] == BOM;
    } else {
      assert t[..k] == "";
      assert "" + LinesText(ls) == LinesText(ls);
    }
  }

  /** Exactly the documents' texts are read, each as the statements its document says. */
  lemma ReadsExactly(t: Bytes, ss: seq<Stmt>)
    ensures Statements(t) == Some(ss)
       <==> exists d: Doc ::
              ValidLines(d.lines) && DocText(d) == t && AllSaid(d.lines, [], if d.mark then 3 else 0) == ss
  {
    hide Statements, ValidLine, DocText, AllSaid;
    if Statements(t).Some? {
      var d := DocIn(t);
      DocRead(d);
    }
    forall d: Doc | ValidLines(d.lines) && DocText(d) == t
      ensures Statements(t) == Some(AllSaid(d.lines, [], if d.mark then 3 else 0))
    {
      DocRead(d);
    }
  }
}
