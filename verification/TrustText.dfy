/** How the lines the trust editor writes parse back. */
module TrustText {
  import opened Wrappers
  import opened Utf8
  import opened TomlGrammar
  import opened TomlDocument
  import opened TomlRewrite
  import opened ProjectTrust

  // ---- escapes

  lemma HexDigits(d: nat)
    requires d < 16
    ensures HexDigit(HexUpper(d)) == Some(d)
  {
    if d < 10 {
      assert HexUpper(d) as int == '0' as int + d;
    } else {
      assert HexUpper(d) as int == 'A' as int + d - 10;
    }
  }

  lemma ControlEscape(r: nat, rest: Bytes)
    requires r < 0x20
    ensures Escape("\\u00" + [HexUpper(r / 16), HexUpper(r % 16)] + rest) == Some(Token(EncodeRune(r), 6))
  {
    var h, l := HexUpper(r / 16), HexUpper(r % 16);
    var t := "\\u00" + [h, l] + rest;
    HexDigits(r / 16);
    HexDigits(r % 16);
    var d: Bytes := ['0', '0', h, l];
    assert t[2..6] == d;
    assert d[..3] == ['0', '0', h] && d[..3][..2] == ['0', '0'] && d[..3][..2][..1] == ['0'];
    assert HexValue(['0']) == Some(0);
    assert HexValue(['0', '0']) == Some(0);
    assert HexValue(d[..3]) == Some(r / 16);
  }

  /** Bytes a basic string takes as they are. */
  predicate Verbatim(t: Bytes) {
    forall i | 0 <= i < |t| :: t[i] != '"' && t[i] != '\\' && t[i] != '\n'
  }

  /** A string's body after some text it takes as it is. */
  function Prepended(a: Bytes, r: Option<Token>): Option<Token> {
    if r.None? then None else Some(Token(a + r.value.text, |a| + r.value.len))
  }

  lemma PlainByte(c: Byte, t: Bytes)
    requires c != '"' && c != '\\' && c != '\n'
    ensures BasicBody([c] + t) == Prepended([c], BasicBody(t))
  {
    assert ([c] + t)[1..] == t;
  }

  lemma PrependedTwice(a: Bytes, b: Bytes, r: Option<Token>)
    ensures Prepended(a, Prepended(b, r)) == Prepended(a + b, r)
  {
    if r.Some? {
      assert a + (b + r.value.text) == (a + b) + r.value.text;
    }
  }

  lemma {:induction false} VerbatimBody(a: Bytes, t: Bytes)
    requires Verbatim(a)
    ensures BasicBody(a + t) == Prepended(a, BasicBody(t))
  {
    hide BasicBody;
    if a == [] {
      assert a + t == t;
      if BasicBody(t).Some? {
        assert a + BasicBody(t).value.text == BasicBody(t).value.text;
      }
    } else {
      assert [a[0]] + (a[1..] + t) == a + t;
      assert [a[0]] + a[1..] == a;
      VerbatimBody(a[1..], t);
      PlainByte(a[0], a[1..] + t);
      PrependedTwice([a[0]], a[1..], BasicBody(t));
    }
  }

  lemma EncodedVerbatim(r: int)
    requires ValidRune(r) && r >= 0x20 && r != '"' as int && r != '\\' as int
    ensures Verbatim(EncodeRune(r))
  {
    forall i | 0 <= i < |EncodeRune(r)|
      ensures EncodeRune(r)[i] != '"' && EncodeRune(r)[i] != '\\' && EncodeRune(r)[i] != '\n'
    {
      assert r >= 0x80 ==> EncodeRune(r)[i] as int >= 0x80;
    }
  }

  predicate NeedsEscape(r: int) {
    r < 0x20 || r == '"' as int || r == '\\' as int
  }

  lemma EscapedRuneEscape(r: int, t: Bytes)
    requires ValidRune(r) && NeedsEscape(r)
    ensures var e := EscapedRune(r);
            |e| >= 2 && e[0] == '\\' && Escape(e + t) == Some(Token(EncodeRune(r), |e|))
  {
    hide EncodeRune;
    EncodeAscii(r);
    var e := EscapedRune(r);
    if e[1] == 'u' {
      assert e + t == "\\u00" + [HexUpper(r / 16), HexUpper(r % 16)] + t;
      ControlEscape(r, t);
    }
  }

  lemma EscapeStep(u: Bytes, e: Token, t: Bytes)
    requires Starts(u, '\\') && Escape(u) == Some(e) && u[e.len..] == t && BasicBody(t).Some?
    ensures BasicBody(u) == Some(Token(e.text + BasicBody(t).value.text, e.len + BasicBody(t).value.len))
  {
    hide Escape;
  }

  lemma EscapedRunePlain(r: int)
    requires ValidRune(r) && !NeedsEscape(r)
    ensures EscapedRune(r) == EncodeRune(r)
  {
  }

  lemma EscapedBody(r: int, t: Bytes)
    requires ValidRune(r) && NeedsEscape(r) && BasicBody(t).Some?
    ensures BasicBody(EscapedRune(r) + t)
         == Some(Token(EncodeRune(r) + BasicBody(t).value.text, |EscapedRune(r)| + BasicBody(t).value.len))
  {
    hide EncodeRune, BasicBody, Escape, EscapedRune, NeedsEscape;
    var e := EscapedRune(r);
    EscapedRuneEscape(r, t);
    assert (e + t)[|e|..] == t;
    EscapeStep(e + t, Token(EncodeRune(r), |e|), t);
  }

  lemma PlainRuneBody(r: int, t: Bytes)
    requires ValidRune(r) && !NeedsEscape(r) && BasicBody(t).Some?
    ensures BasicBody(EscapedRune(r) + t)
         == Some(Token(EncodeRune(r) + BasicBody(t).value.text, |EscapedRune(r)| + BasicBody(t).value.len))
  {
    hide EncodeRune, BasicBody, EscapedRune, Verbatim;
    EscapedRunePlain(r);
    EncodedVerbatim(r);
    VerbatimBody(EscapedRune(r), t);
  }

  lemma EscapedRuneBody(r: int, t: Bytes)
    requires ValidRune(r) && BasicBody(t).Some?
    ensures BasicBody(EscapedRune(r) + t)
         == Some(Token(EncodeRune(r) + BasicBody(t).value.text, |EscapedRune(r)| + BasicBody(t).value.len))
  {
    hide EncodeRune, BasicBody, EscapedRune, NeedsEscape;
    if NeedsEscape(r) {
      EscapedBody(r, t);
    } else {
      PlainRuneBody(r, t);
    }
  }

  lemma EncodeAscii(r: nat)
    requires r < 0x80
    ensures EncodeRune(r) == [ByteOf(r)]
  {
  }

  lemma ClosingQuote(t: Bytes)
    requires Starts(t, '"')
    ensures BasicBody(t) == Some(Token([], 1))
  {
  }

  /** Escaping, then reading back: exactly the sanitized text, up to the closing quote. */
  lemma {:induction false} EscapeRoundTrip(v: Bytes, rest: Bytes)
    ensures BasicBody(Escaped(v) + "\"" + rest) == Some(Token(Sanitized(v), |Escaped(v)| + 1))
    decreases |v|
  {
    hide DecodeRune, EncodeRune, EscapedRune, BasicBody;
    if v == [] {
      var t := Escaped(v) + "\"" + rest;
      assert t[0] == '"';
      ClosingQuote(t);
    } else {
      var d := DecodeRune(v);
      var tail := Escaped(v[d.size..]) + "\"" + rest;
      EscapeRoundTrip(v[d.size..], rest);
      EscapedRuneBody(d.rune, tail);
      assert Escaped(v) + "\"" + rest == EscapedRune(d.rune) + tail;
    }
  }

  // ---- keys and lines

  lemma {:induction false} BareKeyRun(k: Bytes, rest: Bytes)
    requires forall i | 0 <= i < |k| :: IsBareKeyByte(k[i])
    requires rest != [] ==> !IsBareKeyByte(rest[0])
    ensures BareKeyLen(k + rest) == |k|
  {
    if k == [] {
      assert k + rest == rest;
    } else {
      assert (k + rest)[1..] == k[1..] + rest;
      BareKeyRun(k[1..], rest);
    }
  }

  lemma NoSpace(t: Bytes)
    requires t != [] && !IsSpace(t[0])
    ensures SpaceLen(t) == 0
  {
  }

  lemma NoBlank(t: Bytes)
    requires t != [] && !IsSpace(t[0]) && t[0] != '#' && t[0] != '\r' && t[0] != '\n'
    ensures BlankLen(t) == 0
  {
  }

  /** A bare key, one byte that is neither bare nor a space, and more. */
  lemma BareSegment(k: Bytes, rest: Bytes)
    requires k != [] && forall i | 0 <= i < |k| :: IsBareKeyByte(k[i])
    requires rest != [] && !IsBareKeyByte(rest[0]) && !IsSpace(rest[0])
    ensures Segment(k + rest) == Some(Token(k, |k|))
  {
    var t := k + rest;
    assert IsBareKeyByte(t[0]);
    BareKeyRun(k, rest);
    assert t[0..] == t;
    NoSpace(t);
    assert t[|k|..] == rest;
    assert t[..|k|] == k;
    NoSpace(rest);
  }

  lemma OneSpace(rest: Bytes)
    requires rest != [] && !IsSpace(rest[0])
    ensures SpaceLen(" " + rest) == 1
  {
    assert (" " + rest)[1..] == rest;
    NoSpace(rest);
  }

  lemma BareSegmentSpaced(k: Bytes, rest: Bytes)
    requires k != [] && forall i | 0 <= i < |k| :: IsBareKeyByte(k[i])
    requires rest != [] && !IsSpace(rest[0])
    ensures Segment(k + (" " + rest)) == Some(Token(k, |k| + 1))
  {
    var t := k + (" " + rest);
    assert IsBareKeyByte(t[0]);
    BareKeyRun(k, " " + rest);
    assert t[0..] == t;
    NoSpace(t);
    assert t[|k|..] == " " + rest;
    assert t[..|k|] == k;
    OneSpace(rest);
  }

  lemma TrustLineKey(rest: Bytes)
    requires rest != [] && !IsSpace(rest[0])
    ensures KeyEquals("trust_level = " + rest) == Some(Key(["trust_level"], 14))
  {
    hide SimpleKey, SpaceLen;
    var t := "trust_level = " + rest;
    var k: Bytes := "trust_level";
    BareSegmentSpaced(k, "= " + rest);
    assert t == k + (" " + ("= " + rest));
    assert t[12..] == "= " + rest;
    hide Segment;
    DottedLast(t, Token(k, 12));
    assert t[13..] == " " + rest;
    OneSpace(rest);
  }

  lemma Newline()
    ensures EndLine("\n") == Some(1)
  {
    NoSpace("\n");
    assert "\n"[0..] == "\n";
  }

  lemma TrustLineStatement(level: Bytes, table: Path) returns (st: Stmt)
    requires PlainLevel(level)
    ensures var t, n := ProjectTrust.TrustLine(level), |Quoted(level)|;
            && st == Stmt(KeyValue, table + ["trust_level"], 14, 14 + n, 15 + n)
            && |t| == 15 + n && BlankLen(t) == 0 && Statement(t, table) == Some(st)
  {
    hide KeyEquals, ValueLen, EndLine, BlankLen;
    var t, q := TrustLine(level), Quoted(level);
    assert t == "trust_level = " + (q + "\n");
    TrustLineKey(q + "\n");
    QuotedValue(level, "\n");
    assert t[14..] == q + "\n";
    assert t[14 + |q|..] == "\n";
    Newline();
    NoBlank(t);
    st := Stmt(KeyValue, table + ["trust_level"], 14, 14 + |q|, 15 + |q|);
    assert t[0] == 't';
  }

  lemma TrustLineEntry(level: Bytes, table: Path)
    requires PlainLevel(level)
    ensures Entries(TrustLine(level), table) == Some([Entry(KeyValue, table + ["trust_level"], Quoted(level))])
  {
    hide Statement, BlankLen;
    var t, q := TrustLine(level), Quoted(level);
    var st := TrustLineStatement(level, table);
    assert t[0..] == t;
    assert t[14..14 + |q|] == q;
    assert t[st.lineEnd..] == [];
    NoEntries([], TableAfter(table, st));
    Unfold(t, table, 0, st, []);
    assert [EntryOf(t, st)] + [] == [EntryOf(t, st)];
  }

  /** The quote that opens a written path is not the start of a multi-line one. */
  lemma OpensOneLine(path: Bytes, rest: Bytes)
    ensures !("\"\"\"" <= "\"" + Escaped(path) + "\"]" + rest)
  {
    hide DecodeRune, EncodeRune;
    var e := Escaped(path);
    var u := "\"" + e + "\"]" + rest;
    Triple(u);
    if path == [] {
      assert u[2] == ']';
    } else {
      var r := DecodeRune(path).rune;
      EscapedFirst(r);
      assert e == EscapedRune(r) + Escaped(path[DecodeRune(path).size..]);
      assert u[1] == EscapedRune(r)[0];
    }
  }

  lemma EscapedFirst(r: int)
    requires ValidRune(r)
    ensures EscapedRune(r) != [] && EscapedRune(r)[0] != '"'
  {
    hide EncodeRune;
    if r >= 0x20 && r != '"' as int && r != '\\' as int {
      EncodedVerbatim(r);
    }
  }

  lemma QuotedKey(v: Bytes)
    requires BasicBody(v).Some? && !("\"\"\"" <= "\"" + v)
    ensures SimpleKey("\"" + v) == Some(Token(BasicBody(v).value.text, 1 + BasicBody(v).value.len))
  {
    hide BasicBody;
    assert ("\"" + v)[1..] == v;
  }

  lemma TightSegment(t: Bytes, k: Token)
    requires t != [] && !IsSpace(t[0]) && SimpleKey(t) == Some(k)
    requires k.len <= |t| && (t[k.len..] != [] ==> !IsSpace(t[k.len]))
    ensures Segment(t) == Some(k)
  {
    hide SimpleKey;
    NoSpace(t);
    assert t[0..] == t;
  }

  lemma QuotedSegment(path: Bytes, rest: Bytes)
    ensures Segment("\"" + Escaped(path) + "\"]" + rest) == Some(Token(Sanitized(path), |Escaped(path)| + 2))
  {
    hide BasicBody, Escaped, SimpleKey, Segment;
    var e := Escaped(path);
    var v := e + "\"" + ("]" + rest);
    var u := "\"" + e + "\"]" + rest;
    assert u == "\"" + v;
    EscapeRoundTrip(path, "]" + rest);
    OpensOneLine(path, rest);
    QuotedKey(v);
    assert u[|e| + 2] == ']';
    TightSegment(u, Token(Sanitized(path), |e| + 2));
  }

  lemma HeaderKey(path: Bytes, rest: Bytes)
    ensures DottedKey("projects.\"" + Escaped(path) + "\"]" + rest)
         == Some(Key(["projects", Sanitized(path)], 11 + |Escaped(path)|))
  {
    hide Segment, Escaped, DottedKey;
    var e := Escaped(path);
    var k: Bytes := "projects";
    var u := "\"" + e + "\"]" + rest;
    var t := k + ("." + u);
    assert "projects.\"" + e + "\"]" + rest == t;
    BareSegment(k, "." + u);
    assert t[8..] == "." + u;
    assert t[9..] == u;
    QuotedSegment(path, rest);
    assert u[|e| + 2..] == "]" + rest;
    DottedLast(u, Token(Sanitized(path), |e| + 2));
    DottedMore(t, Token(k, 8));
    assert [k] + [Sanitized(path)] == [k, Sanitized(path)];
  }

  lemma OneHeader(t: Bytes, k: Key, table: Path)
    requires |t| > 1 && t[0] == '[' && t[1] != '[' && DottedKey(t[1..]) == Some(k)
    requires k.len < |t| && t[1 + k.len..] == "]\n"
    ensures Entries(t, table) == Some([Entry(Table, k.path, [])])
  {
    hide DottedKey, EndLine, BlankLen;
    var n := 1 + k.len;
    assert t[n..][..1] == "]";
    assert t[n + 1..] == t[n..][1..] == "\n";
    Newline();
    NoBlank(t);
    var st := Stmt(Table, k.path, 0, 0, n + 2);
    assert !("[[" <= t) by {
      assert t[..2][1] != '[';
    }
    assert Header(t) == Some(st.(lineEnd := n + 1));
    assert t[0..] == t;
    assert Statement(t, table) == Some(st);
    assert t[st.lineEnd..] == [];
    NoEntries([], TableAfter(table, st));
    Unfold(t, table, 0, st, []);
    assert [EntryOf(t, st)] + [] == [EntryOf(t, st)];
  }

  /** The header the editor writes is a table header for the sanitized path. */
  lemma HeaderLineEntry(path: Bytes, table: Path)
    ensures Entries(HeaderLine(path), table) == Some([Entry(Table, ["projects", Sanitized(path)], [])])
  {
    hide DottedKey, Escaped;
    var t, e := HeaderLine(path), Escaped(path);
    var u := "projects.\"" + e + "\"]" + "\n";
    assert t == "[" + u;
    HeaderKey(path, "\n");
    assert t[1..] == u;
    assert t[1] == 'p';
    assert t[12 + |e|..] == "]\n";
    OneHeader(t, Key(["projects", Sanitized(path)], 11 + |e|), table);
  }
}
