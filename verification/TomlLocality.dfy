/** What the scanner reads is decided by the text it consumes and, at most, the
    one byte after it. This is the property that lets one value be rewritten, or
    a line be added, without disturbing how the rest of the document parses. */
module TomlLocality {
  import opened Wrappers
  import opened Utf8
  import opened TomlGrammar

  /** `u` agrees with `t` on its first `n` bytes and on the byte after them; at
      the very end of `t`, `u` may also go on with a newline. */
  predicate Alike(t: Bytes, u: Bytes, n: nat) {
    && n <= |t| && n <= |u|
    && t[..n] == u[..n]
    && (if n < |t| then n < |u| && t[n] == u[n] else n < |u| ==> u[n] == '\n')
  }

  lemma AlikeDrop(t: Bytes, u: Bytes, n: nat, k: nat)
    requires Alike(t, u, n) && k <= n
    ensures Alike(t[k..], u[k..], n - k)
  {
    assert t[k..][..n - k] == t[..n][k..];
    assert u[k..][..n - k] == u[..n][k..];
  }

  lemma AlikeTake(t: Bytes, u: Bytes, n: nat, k: nat)
    requires Alike(t, u, n) && k <= n
    ensures Alike(t, u, k)
  {
    assert t[..k] == t[..n][..k];
    assert u[..k] == u[..n][..k];
    if k < n {
      assert t[k] == t[..n][k] == u[..n][k] == u[k];
    }
  }

  lemma AlikeSub(t: Bytes, u: Bytes, n: nat, a: nat, m: nat)
    requires Alike(t, u, n) && a + m <= n
    ensures a <= |t| && a <= |u| && Alike(t[a..], u[a..], m)
  {
    AlikeDrop(t, u, n, a);
    AlikeTake(t[a..], u[a..], n - a, m);
  }

  lemma AlikeAt(t: Bytes, u: Bytes, n: nat, k: nat)
    requires Alike(t, u, n) && k < n
    ensures k < |t| && k < |u| && t[k] == u[k]
  {
    assert t[k] == t[..n][k] == u[..n][k] == u[k];
  }

  lemma AlikeSlice(t: Bytes, u: Bytes, n: nat, a: nat, b: nat)
    requires Alike(t, u, n) && a <= b <= n
    ensures b <= |t| && b <= |u| && t[a..b] == u[a..b]
  {
    assert t[a..b] == t[..n][a..b] == u[..n][a..b] == u[a..b];
  }

  /** The byte after the part they share is the same, or a newline stands where `t` ends. */
  lemma AlikeNext(t: Bytes, u: Bytes, n: nat)
    requires Alike(t, u, n)
    ensures n <= |t| && n <= |u|
    ensures n < |t| ==> n < |u| && t[n] == u[n]
    ensures n == |t| && n < |u| ==> u[n] == '\n'
  {
  }

  // ---- blanks and line ends

  lemma {:induction false} SpaceLocal(t: Bytes, u: Bytes)
    requires Alike(t, u, SpaceLen(t))
    ensures SpaceLen(u) == SpaceLen(t)
  {
    if SpaceLen(t) > 0 {
      AlikeDrop(t, u, SpaceLen(t), 1);
      assert t[0] == t[..SpaceLen(t)][0] == u[..SpaceLen(t)][0];
      SpaceLocal(t[1..], u[1..]);
    }
  }

  lemma {:induction false} LineLocal(t: Bytes, u: Bytes)
    requires Alike(t, u, LineLen(t))
    ensures LineLen(u) == LineLen(t)
  {
    if LineLen(t) > 0 {
      AlikeDrop(t, u, LineLen(t), 1);
      assert t[0] == t[..LineLen(t)][0] == u[..LineLen(t)][0];
      LineLocal(t[1..], u[1..]);
    }
  }

  lemma CommentLocal(t: Bytes, u: Bytes)
    requires Alike(t, u, CommentLen(t))
    ensures CommentLen(u) == CommentLen(t)
  {
    if Starts(t, '#') {
      AlikeAt(t, u, CommentLen(t), 0);
      LineLocal(t, u);
    }
  }

  lemma GapLocal(t: Bytes, u: Bytes)
    requires Alike(t, u, GapLen(t))
    ensures GapLen(u) == GapLen(t)
  {
    var n := SpaceLen(t);
    AlikeSub(t, u, GapLen(t), 0, n);
    SpaceLocal(t, u);
    AlikeSub(t, u, GapLen(t), n, CommentLen(t[n..]));
    CommentLocal(t[n..], u[n..]);
  }

  lemma NewlineLocal(t: Bytes, u: Bytes, n: nat)
    requires Alike(t, u, n) && NewlineLen(t) <= n
    requires NewlineLen(t) == 0 ==> n < |t| && t[n] != '\r'
    ensures NewlineLen(u) == NewlineLen(t)
  {
    if NewlineLen(t) == 0 {
      if n > 0 {
        AlikeAt(t, u, n, 0);
      }
      if n > 1 {
        AlikeAt(t, u, n, 1);
      }
    } else {
      AlikeSlice(t, u, n, 0, NewlineLen(t));
      assert u[..NewlineLen(t)] == t[..NewlineLen(t)];
    }
  }

  lemma BlankParts(t: Bytes)
    ensures (var g, nl := GapLen(t), NewlineLen(t[GapLen(t)..]);
             g + nl <= BlankLen(t) && (nl == 0 ==> BlankLen(t) == g)
             && (nl > 0 ==> BlankLen(t) == g + nl + BlankLen(t[g + nl..])))
  {
    hide GapLen, NewlineLen;
  }

  lemma BlankGap(t: Bytes, u: Bytes)
    requires Alike(t, u, BlankLen(t))
    requires BlankLen(t) < |t| && t[BlankLen(t)] != '\r'
    ensures GapLen(u) == GapLen(t) && NewlineLen(u[GapLen(t)..]) == NewlineLen(t[GapLen(t)..])
  {
    hide Alike, GapLen, NewlineLen, BlankLen;
    var n, g := BlankLen(t), GapLen(t);
    BlankParts(t);
    AlikeSub(t, u, n, 0, g);
    GapLocal(t, u);
    AlikeSub(t, u, n, g, n - g);
    NewlineLocal(t[g..], u[g..], n - g);
  }

  /** Blanks that stop at a byte which is no carriage return. */
  lemma {:induction false} BlankLocal(t: Bytes, u: Bytes)
    requires Alike(t, u, BlankLen(t))
    requires BlankLen(t) < |t| && t[BlankLen(t)] != '\r'
    ensures BlankLen(u) == BlankLen(t)
    decreases |t|
  {
    hide Alike, GapLen, NewlineLen, BlankLen;
    var n, g := BlankLen(t), GapLen(t);
    var nl := NewlineLen(t[g..]);
    BlankGap(t, u);
    BlankParts(t);
    BlankParts(u);
    if nl > 0 {
      AlikeSub(t, u, n, g + nl, n - g - nl);
      BlankLocal(t[g + nl..], u[g + nl..]);
    }
  }

  lemma NewlineSame(t: Bytes, u: Bytes, n: nat)
    requires NewlineLen(t) == n > 0 && n <= |u| && t[..n] == u[..n]
    ensures NewlineLen(u) == n
  {
    assert t[0] == t[..n][0] == u[..n][0];
    if n == 2 {
      assert u[..2] == "\r\n";
    } else {
      assert u[0] == '\n';
    }
  }

  /** A line end that was really a newline looks no further than itself. */
  lemma EndLineLocal(t: Bytes, u: Bytes, n: nat)
    requires EndLine(t) == Some(n) && n <= |u| && t[..n] == u[..n]
    requires (n > 0 && t[n - 1] == '\n') || n == |t| == |u|
    ensures EndLine(u) == Some(n)
  {
    hide GapLen, NewlineLen;
    var g := GapLen(t);
    GapHasNoNewline(t);
    if g == |t| {
      assert t == t[..n] && u[..n] == t;
      assert Alike(t, u, g);
      GapLocal(t, u);
    } else {
      assert Alike(t, u, g) by {
        assert t[g] == t[..n][g] == u[..n][g];
        assert t[..g] == t[..n][..g] == u[..n][..g] == u[..g];
      }
      GapLocal(t, u);
      assert t[g..][..n - g] == t[..n][g..] == u[..n][g..] == u[g..][..n - g];
      NewlineSame(t[g..], u[g..], n - g);
    }
  }

  lemma NewlineLast(t: Bytes)
    ensures t != [] && NewlineLen(t) == |t| ==> t[|t| - 1] == '\n'
  {
    if "\r\n" <= t {
      assert t[1] == t[..2][1];
    }
  }

  lemma EndLineAtEnd(t: Bytes)
    requires EndLine(t) == Some(|t|) && (t == [] || t[|t| - 1] != '\n')
    ensures GapLen(t) == |t|
  {
    hide GapLen, NewlineLen;
    var g := GapLen(t);
    if g < |t| {
      DropLast(t, g);
      NewlineLast(t[g..]);
    }
  }

  lemma DropLast(t: Bytes, k: nat)
    requires k < |t|
    ensures t[k..][|t| - k - 1] == t[|t| - 1]
  {
  }

  /** A line end reached at the end of the text ends at a newline put there. */
  lemma EndLineExtends(t: Bytes, u: Bytes)
    requires EndLine(t) == Some(|t|) && (t == [] || t[|t| - 1] != '\n')
    requires |t| < |u| && u[..|t|] == t && u[|t|] == '\n'
    ensures EndLine(u) == Some(|t| + 1)
  {
    hide GapLen;
    var g := GapLen(t);
    EndLineAtEnd(t);
    assert Alike(t, u, g);
    GapLocal(t, u);
    assert u[g..][0] == '\n';
  }

  lemma {:induction false} LineHasNoNewline(t: Bytes, k: nat)
    requires k < LineLen(t)
    ensures t[k] != '\n'
  {
    if k > 0 {
      LineHasNoNewline(t[1..], k - 1);
    }
  }

  lemma {:induction false} SpacesAreSpaces(t: Bytes, k: nat)
    requires k < SpaceLen(t)
    ensures IsSpace(t[k])
  {
    if k > 0 {
      SpacesAreSpaces(t[1..], k - 1);
    }
  }

  lemma GapHasNoNewline(t: Bytes)
    ensures GapLen(t) > 0 ==> t[GapLen(t) - 1] != '\n'
  {
    var n, g := SpaceLen(t), GapLen(t);
    if g > n {
      LineHasNoNewline(t[n..], g - n - 1);
    } else if n > 0 {
      SpacesAreSpaces(t, n - 1);
    }
  }

  // ---- strings

  lemma {:induction false} BasicLocal(t: Bytes, u: Bytes)
    requires BasicBody(t).Some? && Alike(t, u, BasicBody(t).value.len)
    ensures BasicBody(u) == BasicBody(t)
    decreases |t|
  {
    hide Alike, Escape;
    var n := BasicBody(t).value.len;
    AlikeAt(t, u, n, 0);
    if t[0] == '\\' {
      var k := Escape(t).value.len;
      AlikeNext(t, u, n);
      AlikeSlice(t, u, n, 0, n);
      EscapeLocal(t, u, n);
      AlikeSub(t, u, n, k, n - k);
      BasicLocal(t[k..], u[k..]);
    } else if t[0] != '"' {
      AlikeSub(t, u, n, 1, n - 1);
      BasicLocal(t[1..], u[1..]);
    }
  }

  lemma EscapeLocal(t: Bytes, u: Bytes, n: nat)
    requires Escape(t).Some? && Escape(t).value.len <= n <= |t| && n <= |u| && t[..n] == u[..n]
    ensures Escape(u) == Escape(t)
  {
    assert t[1] == t[..n][1] == u[..n][1] == u[1];
    var d := EscapeDigits(t[1]);
    if SimpleEscape(t[1]).None? {
      assert t[2..2 + d] == t[..n][2..2 + d] == u[..n][2..2 + d] == u[2..2 + d];
    }
  }

  lemma {:induction false} LiteralLocal(t: Bytes, u: Bytes)
    requires LiteralLen(t).Some? && Alike(t, u, LiteralLen(t).value + 1)
    ensures LiteralLen(u) == LiteralLen(t)
    decreases |t|
  {
    var n := LiteralLen(t).value + 1;
    assert t[0] == t[..n][0] == u[..n][0];
    if n > 1 {
      AlikeDrop(t, u, n, 1);
      LiteralLocal(t[1..], u[1..]);
    }
  }

  lemma DelimiterLocal(t: Bytes, u: Bytes, n: nat, q: Byte)
    requires Alike(t, u, n) && 3 <= n
    ensures [q, q, q] <= t <==> [q, q, q] <= u
  {
    hide Alike;
    AlikeNext(t, u, n);
    AlikeSlice(t, u, n, 0, 3);
    assert t[..3] == t[0..3] && u[..3] == u[0..3];
  }

  lemma {:induction false} MultiLocal(t: Bytes, u: Bytes, q: Byte, escapes: bool)
    requires q == '"' || q == '\''
    requires MultiBody(t, q, escapes).Some? && Alike(t, u, MultiBody(t, q, escapes).value)
    ensures MultiBody(u, q, escapes) == MultiBody(t, q, escapes)
    decreases |t|
  {
    hide Alike, ExtraQuotes;
    var n := MultiBody(t, q, escapes).value;
    AlikeAt(t, u, n, 0);
    if escapes && t[0] == '\\' {
      AlikeAt(t, u, n, 1);
      AlikeSub(t, u, n, 2, n - 2);
      MultiLocal(t[2..], u[2..], q, escapes);
    } else {
      DelimiterLocal(t, u, n, q);
      if [q, q, q] <= t {
        AlikeSub(t, u, n, 3, n - 3);
        ExtraLocal(t[3..], u[3..], q);
      } else {
        AlikeSub(t, u, n, 1, n - 1);
        MultiLocal(t[1..], u[1..], q, escapes);
      }
    }
  }

  lemma ExtraLocal(t: Bytes, u: Bytes, q: Byte)
    requires q == '"' || q == '\''
    requires Alike(t, u, ExtraQuotes(t, q))
    ensures ExtraQuotes(u, q) == ExtraQuotes(t, q)
  {
    var n := ExtraQuotes(t, q);
    if n > 0 {
      assert t[0] == t[..n][0] == u[..n][0];
      if n > 1 {
        assert t[1] == t[..n][1] == u[..n][1];
      }
    }
  }

  // ---- keys

  lemma {:induction false} BareKeyLocal(t: Bytes, u: Bytes)
    requires Alike(t, u, BareKeyLen(t))
    ensures BareKeyLen(u) == BareKeyLen(t)
  {
    var n := BareKeyLen(t);
    if n > 0 {
      assert t[0] == t[..n][0] == u[..n][0];
      AlikeDrop(t, u, n, 1);
      BareKeyLocal(t[1..], u[1..]);
    }
  }

  /** Text that starts a one-line string does not start a multi-line one when nearby text does not. */
  lemma OneLine(t: Bytes, u: Bytes, q: Byte, n: nat)
    requires q != '\n' && Alike(t, u, n) && n >= 2 && !([q, q, q] <= t)
    ensures !([q, q, q] <= u)
  {
    AlikeAt(t, u, n, 0);
    AlikeAt(t, u, n, 1);
    AlikeNext(t, u, n);
    if n > 2 {
      AlikeAt(t, u, n, 2);
    }
    if |u| >= 3 {
      if |t| >= 3 {
        assert t[..3] == u[..3];
      } else {
        assert u[..3][2] == '\n';
      }
    }
  }

  lemma SimpleKeyLocal(t: Bytes, u: Bytes)
    requires SimpleKey(t).Some? && Alike(t, u, SimpleKey(t).value.len)
    ensures SimpleKey(u) == SimpleKey(t)
  {
    hide Alike, BasicBody, LiteralLen, BareKeyLen;
    var n := SimpleKey(t).value.len;
    AlikeAt(t, u, n, 0);
    if Starts(t, '"') {
      OneLine(t, u, '"', n);
      AlikeSub(t, u, n, 1, n - 1);
      BasicLocal(t[1..], u[1..]);
    } else if Starts(t, '\'') {
      OneLine(t, u, '\'', n);
      AlikeSub(t, u, n, 1, n - 1);
      LiteralLocal(t[1..], u[1..]);
      AlikeSlice(t, u, n, 1, n - 1);
    } else {
      BareKeyLocal(t, u);
      AlikeSlice(t, u, n, 0, n);
      assert t[..n] == t[0..n] == u[0..n] == u[..n];
    }
  }

  lemma SegmentLocal(t: Bytes, u: Bytes)
    requires Segment(t).Some? && Alike(t, u, Segment(t).value.len)
    ensures Segment(u) == Segment(t)
  {
    hide Alike, SimpleKey, SpaceLen;
    var n, a := Segment(t).value.len, SpaceLen(t);
    var k := SimpleKey(t[a..]).value.len;
    AlikeSub(t, u, n, 0, a);
    SpaceLocal(t, u);
    AlikeSub(t, u, n, a, k);
    SimpleKeyLocal(t[a..], u[a..]);
    AlikeSub(t, u, n, a + k, SpaceLen(t[a + k..]));
    SpaceLocal(t[a + k..], u[a + k..]);
  }

  lemma {:induction false} DottedKeyLocal(t: Bytes, u: Bytes)
    requires DottedKey(t).Some? && Alike(t, u, DottedKey(t).value.len)
    ensures DottedKey(u) == DottedKey(t)
    decreases |t|
  {
    hide Alike, Segment;
    var n, k := DottedKey(t).value.len, Segment(t).value.len;
    AlikeSub(t, u, n, 0, k);
    SegmentLocal(t, u);
    if Starts(t[k..], '.') {
      AlikeAt(t, u, n, k);
      AlikeSub(t, u, n, k + 1, n - k - 1);
      DottedKeyLocal(t[k + 1..], u[k + 1..]);
    } else {
      AlikeNext(t, u, n);
    }
  }

  /** A key and its '=' do not depend on the value, as long as it starts with no space. */
  lemma KeyEqualsLocal(t: Bytes, u: Bytes)
    requires KeyEquals(t).Some? && KeyEquals(t).value.len <= |u|
    requires t[..KeyEquals(t).value.len] == u[..KeyEquals(t).value.len]
    requires KeyEquals(t).value.len < |u| ==> !IsSpace(u[KeyEquals(t).value.len])
    ensures KeyEquals(u) == KeyEquals(t)
  {
    hide DottedKey, SpaceLen;
    var n, k := KeyEquals(t).value.len, DottedKey(t).value.len;
    assert t[k] == t[..n][k] == u[..n][k] == u[k];
    assert Alike(t, u, k) by {
      assert t[..k] == t[..n][..k] == u[..n][..k] == u[..k];
    }
    DottedKeyLocal(t, u);
    var v, w := t[k + 1..], u[k + 1..];
    assert v[..n - k - 1] == t[..n][k + 1..] == u[..n][k + 1..] == w[..n - k - 1];
    SpaceRun(v, w, n - k - 1);
  }

  /** Spaces shared by two texts, and no more of them in the second. */
  lemma {:induction false} SpaceRun(t: Bytes, u: Bytes, n: nat)
    requires n == SpaceLen(t) && n <= |u| && t[..n] == u[..n] && (n < |u| ==> !IsSpace(u[n]))
    ensures SpaceLen(u) == n
  {
    if n > 0 {
      assert t[0] == t[..n][0] == u[..n][0];
      assert t[1..][..n - 1] == t[..n][1..] == u[..n][1..] == u[1..][..n - 1];
      SpaceRun(t[1..], u[1..], n - 1);
    }
  }

  // ---- values

  /** The bytes a value was read from: an unquoted one runs on through the
      spaces after it, which are then left for the line's end. */
  function ValueReach(t: Bytes): (n: nat)
    requires ValueLen(t).Some?
    ensures ValueLen(t).value <= n <= |t|
  {
    ValueLen(t).value + SpaceLen(t[ValueLen(t).value..])
  }

  lemma {:induction false} BareRunLocal(t: Bytes, u: Bytes)
    requires Alike(t, u, BareRun(t))
    ensures BareRun(u) == BareRun(t)
  {
    var n := BareRun(t);
    if n > 0 {
      assert t[0] == t[..n][0] == u[..n][0];
      AlikeDrop(t, u, n, 1);
      BareRunLocal(t[1..], u[1..]);
    }
  }

  lemma {:induction false} TrimLocal(t: Bytes, u: Bytes, n: nat)
    requires n <= |t| && n <= |u| && t[..n] == u[..n]
    ensures TrimLen(t, n) == TrimLen(u, n)
  {
    if n > 0 {
      assert t[n - 1] == t[..n][n - 1] == u[..n][n - 1] == u[n - 1];
      assert t[..n - 1] == t[..n][..n - 1] == u[..n][..n - 1] == u[..n - 1];
      TrimLocal(t, u, n - 1);
    }
  }

  lemma {:induction false} TrimmedAreSpaces(t: Bytes, n: nat)
    requires n <= |t|
    requires n < |t| ==> !IsSpace(t[n])
    ensures TrimLen(t, n) + SpaceLen(t[TrimLen(t, n)..]) == n
  {
    TrimmedSpaces(t, n, n);
  }

  lemma {:induction false} TrimmedSpaces(t: Bytes, n: nat, k: nat)
    requires k <= n <= |t|
    requires k + SpaceLen(t[k..]) == n
    ensures TrimLen(t, k) + SpaceLen(t[TrimLen(t, k)..]) == n
    decreases k
  {
    if k > 0 && IsSpace(t[k - 1]) {
      assert t[k - 1..][1..] == t[k..];
      TrimmedSpaces(t, n, k - 1);
    }
  }

  lemma {:induction false} BareRunStops(t: Bytes)
    ensures BareRun(t) < |t| ==> EndsBare(t[BareRun(t)])
  {
    if BareRun(t) > 0 {
      BareRunStops(t[1..]);
    }
  }

  lemma {:induction false} ValueLocal(t: Bytes, u: Bytes)
    requires ValueLen(t).Some? && Alike(t, u, ValueReach(t))
    ensures ValueLen(u) == ValueLen(t)
    decreases |t|, 0
  {
    hide Alike, SpaceLen, BareRun, TrimLen, BasicBody, LiteralLen, MultiBody, ArrayBody, InlineBody;
    var n, r := ValueLen(t).value, ValueReach(t);
    AlikeSub(t, u, r, 0, n);
    AlikeAt(t, u, n, 0);
    if "\"\"\"" <= t || "'''" <= t {
      MultiValueLocal(t, u);
    } else if Starts(t, '"') || Starts(t, '\'') {
      QuotedValueLocal(t, u);
    } else if Starts(t, '[') {
      AlikeSub(t, u, n, 1, n - 1);
      ArrayLocal(t[1..], u[1..]);
    } else if Starts(t, '{') {
      AlikeSub(t, u, n, 1, n - 1);
      InlineLocal(t[1..], u[1..]);
    } else {
      BareRunStops(t);
      TrimmedAreSpaces(t, BareRun(t));
      BareRunLocal(t, u);
      AlikeSlice(t, u, r, 0, r);
      TrimLocal(t, u, r);
    }
  }

  lemma MultiValueLocal(t: Bytes, u: Bytes)
    requires "\"\"\"" <= t || "'''" <= t
    requires ValueLen(t).Some? && Alike(t, u, ValueLen(t).value)
    ensures ValueLen(u) == ValueLen(t)
  {
    hide Alike, MultiBody, BasicBody, ArrayBody, InlineBody, LiteralLen, BareRun, TrimLen;
    var n := ValueLen(t).value;
    DelimiterLocal(t, u, n, '"');
    DelimiterLocal(t, u, n, '\'');
    assert "\"\"\"" == ['"', '"', '"'] && "'''" == ['\'', '\'', '\''];
    AlikeSub(t, u, n, 3, n - 3);
    if "\"\"\"" <= t {
      MultiLocal(t[3..], u[3..], '"', true);
    } else {
      MultiLocal(t[3..], u[3..], '\'', false);
    }
  }

  lemma QuotedValueLocal(t: Bytes, u: Bytes)
    requires Starts(t, '"') || Starts(t, '\'')
    requires !("\"\"\"" <= t || "'''" <= t)
    requires ValueLen(t).Some? && Alike(t, u, ValueLen(t).value)
    ensures ValueLen(u) == ValueLen(t)
  {
    hide Alike, MultiBody, BasicBody, ArrayBody, InlineBody, LiteralLen, BareRun, TrimLen;
    var n := ValueLen(t).value;
    AlikeAt(t, u, n, 0);
    OneLine(t, u, t[0], n);
    AlikeSub(t, u, n, 1, n - 1);
    if Starts(t, '"') {
      BasicLocal(t[1..], u[1..]);
    } else {
      LiteralLocal(t[1..], u[1..]);
    }
  }

  lemma {:induction false} SpaceStops(t: Bytes)
    ensures SpaceLen(t) < |t| ==> !IsSpace(t[SpaceLen(t)])
  {
    if SpaceLen(t) > 0 {
      SpaceStops(t[1..]);
    }
  }

  lemma {:induction false} ArrayLocal(t: Bytes, u: Bytes)
    requires ArrayBody(t).Some? && Alike(t, u, ArrayBody(t).value)
    ensures ArrayBody(u) == ArrayBody(t)
    decreases |t|, 2
  {
    hide Alike, BlankLen, ValueLen, AfterItem;
    var n, a := ArrayBody(t).value, BlankLen(t);
    AlikeSub(t, u, n, 0, a);
    AlikeAt(t, u, n, a);
    if t[a] == ']' {
      BlankLocal(t, u);
    } else {
      var i := a + ValueLen(t[a..]).value;
      ValueStart(t[a..]);
      BlankLocal(t, u);
      ItemValueLocal(t, u, a, i, ']');
      AfterItemLocal(t, u, i, ']');
    }
  }

  lemma {:induction false} InlineLocal(t: Bytes, u: Bytes)
    requires InlineBody(t).Some? && Alike(t, u, InlineBody(t).value)
    ensures InlineBody(u) == InlineBody(t)
    decreases |t|, 2
  {
    hide Alike, BlankLen, ValueLen, AfterItem, KeyEquals;
    var n, a := InlineBody(t).value, BlankLen(t);
    AlikeSub(t, u, n, 0, a);
    AlikeAt(t, u, n, a);
    if t[a] == '}' {
      BlankLocal(t, u);
    } else {
      var k := KeyEquals(t[a..]).value.len;
      var i := a + k + ValueLen(t[a + k..]).value;
      KeyEqualsStart(t[a..]);
      BlankLocal(t, u);
      InlineKeyLocal(t, u, a, n);
      ItemValueLocal(t, u, a + k, i, '}');
      AfterItemLocal(t, u, i, '}');
    }
  }

  /** A value starts with no carriage return. */
  lemma ValueStart(t: Bytes)
    requires ValueLen(t).Some?
    ensures t[0] != '\r'
  {
  }

  /** A value inside brackets, whose text agrees through what follows it. */
  lemma ItemValueLocal(t: Bytes, u: Bytes, a: nat, i: nat, close: Byte)
    requires close == ']' || close == '}'
    requires a <= |t| && ValueLen(t[a..]).Some? && i == a + ValueLen(t[a..]).value
    requires AfterItem(t, i, close).Some? && Alike(t, u, AfterItem(t, i, close).value)
    ensures a <= |u| && ValueLen(u[a..]) == ValueLen(t[a..])
    decreases |t| - a, 1
  {
    hide Alike, ValueLen, SpaceLen;
    var n := AfterItem(t, i, close).value;
    assert t[a..][i - a..] == t[i..];
    AlikeSub(t, u, n, a, ValueReach(t[a..]));
    ValueLocal(t[a..], u[a..]);
  }

  /** A key starts with no carriage return. */
  lemma KeyEqualsStart(t: Bytes)
    requires t != [] && KeyEquals(t).Some?
    ensures t[0] != '\r'
  {
  }

  lemma KeyEqualsStops(t: Bytes)
    requires KeyEquals(t).Some? && KeyEquals(t).value.len < |t|
    ensures !IsSpace(t[KeyEquals(t).value.len])
  {
    hide DottedKey, SpaceLen;
    SpaceStops(t[DottedKey(t).value.len + 1..]);
  }

  lemma InlineKeyLocal(t: Bytes, u: Bytes, a: nat, n: nat)
    requires Alike(t, u, n) && a < n && KeyEquals(t[a..]).Some? && a + KeyEquals(t[a..]).value.len < n
    ensures KeyEquals(u[a..]) == KeyEquals(t[a..])
  {
    hide Alike, KeyEquals;
    AlikeNext(t, u, n);
    var k := KeyEquals(t[a..]).value.len;
    KeyEqualsStops(t[a..]);
    AlikeAt(t, u, n, a + k);
    AlikeSlice(t, u, n, a, a + k);
    assert t[a..][..k] == t[a..a + k] == u[a..a + k] == u[a..][..k];
    KeyEqualsLocal(t[a..], u[a..]);
  }

  lemma {:induction false} AfterItemLocal(t: Bytes, u: Bytes, i: nat, close: Byte)
    requires 0 < i <= |t| && (close == ']' || close == '}')
    requires AfterItem(t, i, close).Some? && Alike(t, u, AfterItem(t, i, close).value)
    ensures AfterItem(u, i, close) == AfterItem(t, i, close)
    decreases |t| - i, 3
  {
    hide Alike, BlankLen, ArrayBody, InlineBody;
    var n, b := AfterItem(t, i, close).value, i + BlankLen(t[i..]);
    AlikeSub(t, u, n, i, b - i);
    AlikeAt(t, u, n, b);
    BlankLocal(t[i..], u[i..]);
    if t[b] == ',' {
      AlikeSub(t, u, n, b + 1, n - b - 1);
      if close == ']' {
        ArrayLocal(t[b + 1..], u[b + 1..]);
      } else {
        InlineLocal(t[b + 1..], u[b + 1..]);
      }
    }
  }
}
