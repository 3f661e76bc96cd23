/** The scanner: one offset into a document, advanced in place. Every method is
    verified against the function that says what the text from that offset on
    holds; no byte outside the document is ever read. A `None` or `false` result
    is the source's syntax error, after which the offset is not used again. */
module TomlScanner {
  import opened Wrappers
  import opened Utf8
  import opened TomlGrammar
  import opened TomlLocality

  function Plus(n: nat, r: Option<nat>): Option<nat> {
    if r.None? then None else Some(n + r.value)
  }

  function After(text: Bytes, n: nat, r: Option<Token>): Option<Token> {
    if r.None? then None else Some(Token(text + r.value.text, n + r.value.len))
  }

  function Joined(path: Path, n: nat, r: Option<Key>): Option<Key> {
    if r.None? then None else Some(Key(path + r.value.path, n + r.value.len))
  }

  /** One turn of the blank-skipping loop. */
  lemma BlankStep(s: Bytes, j: nat, i: nat)
    requires j <= i <= |s|
    requires i == j + SpaceLen(s[j..]) + CommentLen(s[j + SpaceLen(s[j..])..])
    ensures BlankLen(s[j..])
            == i - j + (if NewlineLen(s[i..]) == 0 then 0
                else NewlineLen(s[i..]) + BlankLen(s[i + NewlineLen(s[i..])..]))
  {
    hide SpaceLen, CommentLen, BlankLen, NewlineLen;
    var t := s[j..];
    assert t[SpaceLen(t)..] == s[j + SpaceLen(t)..];
    assert GapLen(t) == i - j;
    hide GapLen;
    assert t[i - j..] == s[i..];
    BlankParts(t);
    var nl := NewlineLen(s[i..]);
    if nl > 0 {
      assert t[i - j + nl..] == s[i + nl..];
    }
  }

  lemma NoMore(q: Byte, escapes: bool)
    ensures MultiBody([], q, escapes).None?
  {
  }

  /** What follows a bracketed element that ended at offset `i`, as an offset. */
  function NextItem(s: Bytes, i: nat, close: Byte): Option<nat>
    requires i <= |s|
  {
    var b := i + BlankLen(s[i..]);
    if b == |s| then None
    else if s[b] == close then Some(b + 1)
    else if s[b] != ',' then None
    else Plus(b + 1, if close == ']' then ArrayBody(s[b + 1..]) else InlineBody(s[b + 1..]))
  }

  lemma NextItemIs(s: Bytes, j: nat, i: nat, close: Byte)
    requires j < i <= |s| && (close == ']' || close == '}')
    ensures Plus(j, AfterItem(s[j..], i - j, close)) == NextItem(s, i, close)
  {
    hide BlankLen, ArrayBody, InlineBody;
    var t := s[j..];
    assert t[i - j..] == s[i..];
    var b := i + BlankLen(s[i..]);
    if b < |s| {
      assert t[b - j + 1..] == s[b + 1..];
    }
  }

  /** A key takes the spaces after it along. */
  lemma {:induction false} KeyTakesSpaces(t: Bytes)
    requires DottedKey(t).Some?
    ensures SpaceLen(t[DottedKey(t).value.len..]) == 0
    decreases |t|
  {
    hide SimpleKey, SpaceLen;
    var k := Segment(t).value.len;
    if Starts(t[k..], '.') {
      KeyTakesSpaces(t[k + 1..]);
      assert t[k + 1..][DottedKey(t[k + 1..]).value.len..] == t[DottedKey(t).value.len..];
    } else {
      var a := SpaceLen(t);
      var b := a + SimpleKey(t[a..]).value.len;
      SpacesOnce(t[b..]);
      assert t[b..][k - b..] == t[k..];
    }
  }

  lemma {:induction false} SpacesOnce(t: Bytes)
    ensures SpaceLen(t[SpaceLen(t)..]) == 0
  {
    if SpaceLen(t) > 0 {
      SpacesOnce(t[1..]);
      assert t[1..][SpaceLen(t[1..])..] == t[SpaceLen(t)..];
    } else {
      assert t[0..] == t;
    }
  }

  /** One turn of the array loop. */
  lemma ArrayStep(s: Bytes, j: nat, a: nat)
    requires j <= a <= |s| && a == j + BlankLen(s[j..])
    ensures Plus(j, ArrayBody(s[j..])) ==
            if a == |s| then None
            else if s[a] == ']' then Some(a + 1)
            else if ValueLen(s[a..]).None? then None
            else NextItem(s, a + ValueLen(s[a..]).value, ']')
  {
    hide BlankLen, ValueLen, AfterItem, NextItem;
    assert s[j..][a - j..] == s[a..];
    if a < |s| && ValueLen(s[a..]).Some? {
      NextItemIs(s, j, a + ValueLen(s[a..]).value, ']');
    }
  }

  /** One turn of the inline-table loop. */
  lemma InlineStep(s: Bytes, j: nat, a: nat)
    requires j <= a <= |s| && a == j + BlankLen(s[j..])
    ensures Plus(j, InlineBody(s[j..])) ==
            if a == |s| then None
            else if s[a] == '}' then Some(a + 1)
            else if KeyEquals(s[a..]).None? then None
            else
              var v := a + KeyEquals(s[a..]).value.len;
              if ValueLen(s[v..]).None? then None else NextItem(s, v + ValueLen(s[v..]).value, '}')
  {
    hide BlankLen, ValueLen, AfterItem, NextItem, KeyEquals;
    assert s[j..][a - j..] == s[a..];
    if a < |s| && KeyEquals(s[a..]).Some? {
      var v := a + KeyEquals(s[a..]).value.len;
      assert s[j..][v - j..] == s[v..];
      if ValueLen(s[v..]).Some? {
        NextItemIs(s, j, v + ValueLen(s[v..]).value, '}');
      }
    }
  }

  /** A key and its '=', read in three steps. */
  lemma KeyEqualsAt(s: Bytes, a: nat)
    requires a <= |s|
    ensures KeyEquals(s[a..]) ==
            match DottedKey(s[a..])
            case None => None
            case Some(k) =>
              if !Starts(s[a + k.len..], '=') then None
              else Some(Key(k.path, k.len + 1 + SpaceLen(s[a + k.len + 1..])))
  {
    hide DottedKey, SpaceLen;
    if DottedKey(s[a..]).Some? {
      var k := DottedKey(s[a..]).value.len;
      assert s[a..][k..] == s[a + k..];
      if Starts(s[a + k..], '=') {
        assert s[a..][k + 1..] == s[a + k + 1..];
      }
    }
  }

  /** One turn of the key loop: a segment that ended at `i`, and the key after its dot. */
  lemma KeyStep(s: Bytes, j: nat, a: nat, k: nat, i: nat, seg: Bytes)
    requires j <= a <= k <= i <= |s| && a == j + SpaceLen(s[j..])
    requires SimpleKey(s[a..]) == Some(Token(seg, k - a)) && i == k + SpaceLen(s[k..])
    ensures DottedKey(s[j..]) ==
            if Starts(s[i..], '.') then Joined([seg], i + 1 - j, DottedKey(s[i + 1..])) else Some(Key([seg], i - j))
  {
    hide SpaceLen, SimpleKey, DottedKey;
    var t := s[j..];
    assert t[a - j..] == s[a..] && t[k - j..] == s[k..] && t[i - j..] == s[i..];
    assert Segment(t) == Some(Token(seg, i - j));
    hide Segment;
    if Starts(s[i..], '.') {
      assert t[i - j + 1..] == s[i + 1..];
      DottedMore(t, Token(seg, i - j));
    } else {
      DottedLast(t, Token(seg, i - j));
    }
  }

  lemma JoinedTwice(path: Path, n: nat, seg: Bytes, m: nat, r: Option<Key>)
    ensures Joined(path, n, Joined([seg], m, r)) == Joined(path + [seg], n + m, r)
  {
    if r.Some? {
      assert path + ([seg] + r.value.path) == (path + [seg]) + r.value.path;
    }
  }

  lemma JoinedNone(r: Option<Key>)
    ensures Joined([], 0, r) == r
  {
    if r.Some? {
      assert [] + r.value.path == r.value.path;
    }
  }

  lemma NoKey(s: Bytes, j: nat, a: nat, path: Path, n: nat)
    requires j <= a <= |s| && a == j + SpaceLen(s[j..]) && SimpleKey(s[a..]).None?
    ensures Joined(path, n, DottedKey(s[j..])).None?
  {
    hide SpaceLen, SimpleKey;
    assert s[j..][a - j..] == s[a..];
  }

  lemma LastKey(path: Path, seg: Bytes, n: nat, m: nat)
    requires path != [] && path[|path| - 1] == seg
    ensures Joined(path[..|path| - 1], n, Some(Key([seg], m))) == Some(Key(path, n + m))
  {
    assert path[..|path| - 1] + [seg] == path;
  }

  lemma AfterTwice(a: Bytes, n: nat, b: Bytes, m: nat, r: Option<Token>)
    ensures After(a, n, After(b, m, r)) == After(a + b, n + m, r)
  {
    if r.Some? {
      assert a + (b + r.value.text) == (a + b) + r.value.text;
    }
  }

  lemma AfterNone(r: Option<Token>)
    ensures After([], 0, r) == r
  {
    if r.Some? {
      assert [] + r.value.text == r.value.text;
    }
  }

  lemma AfterOfNone(b: Bytes, n: nat)
    ensures After(b, n, None) == None
  {
  }

  lemma NoString(s: Bytes, i: nat, b: Bytes, n: nat)
    requires i <= |s| && (i == |s| || s[i] == '\n')
    ensures After(b, n, BasicBody(s[i..])) == None
  {
  }

  lemma StringEnd(s: Bytes, i: nat, b: Bytes, n: nat)
    requires i < |s| && s[i] == '"'
    ensures After(b, n, BasicBody(s[i..])) == Some(Token(b, n + 1))
  {
    assert b + [] == b;
  }

  /** One turn of the basic-string loop. */
  lemma BasicStep(s: Bytes, i: nat)
    requires i < |s| && s[i] != '"' && s[i] != '\n'
    ensures BasicBody(s[i..]) ==
            if s[i] != '\\' then After([s[i]], 1, BasicBody(s[i + 1..]))
            else if Escape(s[i..]).None? then None
            else After(Escape(s[i..]).value.text, Escape(s[i..]).value.len,
                BasicBody(s[i + Escape(s[i..]).value.len..]))
  {
    hide Escape;
    assert s[i..][1..] == s[i + 1..];
    if s[i] == '\\' && Escape(s[i..]).Some? {
      assert s[i..][Escape(s[i..]).value.len..] == s[i + Escape(s[i..]).value.len..];
    }
  }

  /** One turn of the multi-line loop. */
  lemma MultiStep(s: Bytes, i: nat, q: Byte, escapes: bool)
    requires i < |s|
    ensures MultiBody(s[i..], q, escapes) ==
            if escapes && s[i] == '\\' then (if i + 2 <= |s| then Plus(2, MultiBody(s[i + 2..], q, escapes)) else None)
            else if [q, q, q] <= s[i..] then Some(3 + ExtraQuotes(s[i + 3..], q))
            else Plus(1, MultiBody(s[i + 1..], q, escapes))
  {
    var t := s[i..];
    assert t[1..] == s[i + 1..];
    assert |t| >= 2 ==> t[2..] == s[i + 2..];
    assert |t| >= 3 ==> t[3..] == s[i + 3..];
  }

  class Scanner {
    const s: Bytes
    var i: nat

    constructor (doc: Bytes)
      ensures s == doc && i == 0
    {
      s := doc;
      i := 0;
    }

    predicate Done()
      reads this
    {
      i >= |s|
    }

    function Peek(): Byte
      reads this
    {
      if Done() then '\0' else s[i]
    }

    method SkipSpace()
      requires i <= |s|
      modifies this
      ensures i == old(i) + SpaceLen(s[old(i)..])
    {
      assert s[i..] == s[old(i)..];
      while !Done() && IsSpace(s[i])
        invariant old(i) <= i <= |s|
        invariant SpaceLen(s[old(i)..]) == i - old(i) + SpaceLen(s[i..])
        decreases |s| - i
      {
        assert s[i..][1..] == s[i + 1..];
        i := i + 1;
      }
    }

    method SkipComment()
      requires i <= |s|
      modifies this
      ensures i == old(i) + CommentLen(s[old(i)..])
    {
      if Peek() != '#' {
        return;
      }
      while !Done() && s[i] != '\n'
        invariant old(i) <= i <= |s|
        invariant LineLen(s[old(i)..]) == i - old(i) + LineLen(s[i..])
        decreases |s| - i
      {
        assert s[i..][1..] == s[i + 1..];
        i := i + 1;
      }
    }

    method SkipBlank()
      requires i <= |s|
      modifies this
      ensures i == old(i) + BlankLen(s[old(i)..])
    {
      hide SpaceLen, CommentLen, BlankLen, GapLen;
      while true
        invariant old(i) <= i <= |s|
        invariant BlankLen(s[old(i)..]) == i - old(i) + BlankLen(s[i..])
        decreases |s| - i
      {
        ghost var j := i;
        SkipSpace();
        SkipComment();
        BlankStep(s, j, i);
        if "\r\n" <= s[i..] {
          i := i + 2;
        } else if Peek() == '\n' {
          i := i + 1;
        } else {
          return;
        }
      }
    }

    method EndLine() returns (ok: bool)
      requires i <= |s|
      modifies this
      ensures ok == TomlGrammar.EndLine(s[old(i)..]).Some?
      ensures ok ==> i == old(i) + TomlGrammar.EndLine(s[old(i)..]).value
    {
      hide SpaceLen, CommentLen;
      ghost var t := s[i..];
      SkipSpace();
      assert t[SpaceLen(t)..] == s[i..];
      SkipComment();
      assert t[GapLen(t)..] == s[i..];
      if Done() {
        return true;
      } else if "\r\n" <= s[i..] {
        i := i + 2;
        return true;
      } else if s[i] == '\n' {
        i := i + 1;
        return true;
      }
      return false;
    }

    method ParseKey() returns (r: Option<Path>)
      requires i <= |s|
      modifies this
      ensures r.Some? == DottedKey(s[old(i)..]).Some?
      ensures r.Some? ==> r.value == DottedKey(s[old(i)..]).value.path && i == old(i) + DottedKey(s[old(i)..]).value.len
    {
      hide SpaceLen, SimpleKey, Joined, DottedKey;
      var path: Path := [];
      JoinedNone(DottedKey(s[i..]));
      while true
        invariant old(i) <= i <= |s|
        invariant DottedKey(s[old(i)..]) == Joined(path, i - old(i), DottedKey(s[i..]))
        decreases |s| - i
      {
        ghost var j := i;
        SkipSpace();
        ghost var a := i;
        var seg := ParseSimpleKey();
        if seg.None? {
          NoKey(s, j, a, path, j - old(i));
          return None;
        }
        ghost var k := i;
        SkipSpace();
        KeyStep(s, j, a, k, i, seg.value);
        path := path + [seg.value];
        if Peek() != '.' {
          LastKey(path, seg.value, j - old(i), i - j);
          return Some(path);
        }
        i := i + 1;
        JoinedTwice(path[..|path| - 1], j - old(i), seg.value, i - j, DottedKey(s[i..]));
      }
    }

    /** A key, its '=', and the spaces up to the value. */
    method ParseKeyEquals() returns (r: Option<Path>)
      requires i <= |s|
      modifies this
      ensures r.Some? == KeyEquals(s[old(i)..]).Some?
      ensures r.Some? ==> r.value == KeyEquals(s[old(i)..]).value.path && i == old(i) + KeyEquals(s[old(i)..]).value.len
    {
      hide DottedKey, SpaceLen, KeyEquals;
      ghost var a := i;
      KeyEqualsAt(s, a);
      var key := ParseKey();
      if key.None? {
        assert KeyEquals(s[a..]).None?;
        return None;
      }
      KeyTakesSpaces(s[a..]);
      assert s[a..][i - a..] == s[i..];
      SkipSpace();
      if Peek() != '=' {
        return None;
      }
      i := i + 1;
      SkipSpace();
      return key;
    }

    method ParseSimpleKey() returns (r: Option<Bytes>)
      requires i <= |s|
      modifies this
      ensures r.Some? == SimpleKey(s[old(i)..]).Some?
      ensures r.Some? ==> r.value == SimpleKey(s[old(i)..]).value.text && i == old(i) + SimpleKey(s[old(i)..]).value.len
    {
      hide BasicBody, LiteralLen, BareKeyLen;
      ghost var t := s[i..];
      if Peek() == '"' {
        if "\"\"\"" <= s[i..] {
          return None;
        }
        assert t[1..] == s[i + 1..];
        r := ParseBasicString();
        return;
      }
      if Peek() == '\'' {
        if "'''" <= s[i..] {
          return None;
        }
        var start := i + 1;
        assert t[1..] == s[start..];
        var n := LiteralLen(s[start..]);
        if n.None? {
          return None;
        }
        i := start + n.value + 1;
        assert t[1..1 + n.value] == s[start..start + n.value];
        return Some(s[start..start + n.value]);
      }
      r := ParseBareKey();
    }

    method ParseBareKey() returns (r: Option<Bytes>)
      requires i <= |s|
      modifies this
      ensures r.Some? == (BareKeyLen(s[old(i)..]) > 0)
      ensures r.Some? ==> r.value == s[old(i)..][..BareKeyLen(s[old(i)..])] && i == old(i) + BareKeyLen(s[old(i)..])
    {
      var start := i;
      while !Done() && IsBareKeyByte(s[i])
        invariant start <= i <= |s|
        invariant BareKeyLen(s[start..]) == i - start + BareKeyLen(s[i..])
        decreases |s| - i
      {
        assert s[i..][1..] == s[i + 1..];
        i := i + 1;
      }
      if i == start {
        return None;
      }
      assert s[start..][..i - start] == s[start..i];
      return Some(s[start..i]);
    }

    /** Reads a basic string, from its opening quote. */
    method ParseBasicString() returns (r: Option<Bytes>)
      requires i < |s|
      modifies this
      ensures r.Some? == BasicBody(s[old(i) + 1..]).Some?
      ensures r.Some? ==>
                && r.value == BasicBody(s[old(i) + 1..]).value.text
                && i == old(i) + 1 + BasicBody(s[old(i) + 1..]).value.len
    {
      hide BasicBody, After, Escape;
      i := i + 1;
      ghost var start := i;
      var b: Bytes := [];
      AfterNone(BasicBody(s[i..]));
      while true
        invariant start <= i <= |s|
        invariant BasicBody(s[start..]) == After(b, i - start, BasicBody(s[i..]))
        decreases |s| - i
      {
        ghost var j := i;
        if Done() || s[i] == '\n' {
          NoString(s, i, b, i - start);
          return None;
        }
        var c := s[i];
        if c == '"' {
          StringEnd(s, i, b, i - start);
          i := i + 1;
          return Some(b);
        }
        BasicStep(s, i);
        if c == '\\' {
          var e := DecodeEscape();
          if e.None? {
            AfterOfNone(b, j - start);
            return None;
          }
          AfterTwice(b, j - start, e.value, i - j, BasicBody(s[i..]));
          b := b + e.value;
        } else {
          i := i + 1;
          AfterTwice(b, j - start, [c], 1, BasicBody(s[i..]));
          b := b + [c];
        }
      }
    }

    /** Decodes the escape sequence at the offset, which is at a backslash. */
    method DecodeEscape() returns (r: Option<Bytes>)
      requires i < |s|
      modifies this
      ensures r.Some? == Escape(s[old(i)..]).Some?
      ensures r.Some? ==> r.value == Escape(s[old(i)..]).value.text && i == old(i) + Escape(s[old(i)..]).value.len
    {
      ghost var t := s[i..];
      if i + 1 >= |s| {
        return None;
      }
      var c := s[i + 1];
      i := i + 2;
      if SimpleEscape(c).Some? {
        return Some([SimpleEscape(c).value]);
      }
      var digits := EscapeDigits(c);
      if digits == 0 || i + digits > |s| {
        return None;
      }
      assert t[2..2 + digits] == s[i..i + digits];
      var code := HexValue(s[i..i + digits]);
      if code.None? || !ValidRune(code.value) {
        return None;
      }
      i := i + digits;
      return Some(EncodeRune(code.value));
    }

    /** Moves past one value. */
    method SkipValue() returns (ok: bool)
      requires i <= |s|
      modifies this
      ensures ok == ValueLen(s[old(i)..]).Some?
      ensures ok ==> i == old(i) + ValueLen(s[old(i)..]).value
      decreases |s| - i, 1
    {
      hide BasicBody, MultiBody, ArrayBody, InlineBody, LiteralLen;
      ghost var t := s[i..];
      if "\"\"\"" <= s[i..] {
        assert t[3..] == s[i + 3..];
        ok := SkipMultiline('"', true);
      } else if "'''" <= s[i..] {
        assert t[3..] == s[i + 3..];
        ok := SkipMultiline('\'', false);
      } else if Peek() == '"' {
        assert t[1..] == s[i + 1..];
        var b := ParseBasicString();
        ok := b.Some?;
      } else if Peek() == '\'' {
        assert t[1..] == s[i + 1..];
        var n := LiteralLen(s[i + 1..]);
        ok := n.Some?;
        if ok {
          i := i + n.value + 2;
        }
      } else if Peek() == '[' {
        assert t[1..] == s[i + 1..];
        ok := SkipArray();
      } else if Peek() == '{' {
        assert t[1..] == s[i + 1..];
        ok := SkipInlineTable();
      } else {
        ok := SkipBare();
      }
    }

    /** An unquoted value: up to the next delimiter, without trailing spaces. */
    method SkipBare() returns (ok: bool)
      requires i <= |s|
      modifies this
      ensures ok == (TrimLen(s[old(i)..], BareRun(s[old(i)..])) > 0)
      ensures ok ==> i == old(i) + TrimLen(s[old(i)..], BareRun(s[old(i)..]))
    {
      var start := i;
      ghost var t := s[start..];
      while !Done() && !EndsBare(s[i])
        invariant start <= i <= |s|
        invariant BareRun(t) == i - start + BareRun(s[i..])
        decreases |s| - i
      {
        assert s[i..][1..] == s[i + 1..];
        i := i + 1;
      }
      while i > start && IsSpace(s[i - 1])
        invariant start <= i <= |s|
        invariant TrimLen(t, BareRun(t)) == TrimLen(t, i - start)
        decreases i
      {
        assert t[i - start - 1] == s[i - 1];
        i := i - 1;
      }
      assert i > start ==> t[i - start - 1] == s[i - 1];
      ok := i > start;
    }

    /** Up to two more quotes may close the string's content. */
    method SkipExtraQuotes(q: Byte)
      requires i <= |s| && (q == '"' || q == '\'')
      modifies this
      ensures i == old(i) + ExtraQuotes(s[old(i)..], q)
    {
      ghost var j := i;
      assert j < |s| ==> s[j..][1..] == s[j + 1..];
      var k := 0;
      while k < 2 && Peek() == q
        invariant 0 <= k <= 2 && i == j + k <= |s|
        invariant k >= 1 ==> s[j] == q
        invariant k == 2 ==> s[j + 1] == q
      {
        i := i + 1;
        k := k + 1;
      }
    }

    /** Moves past a multi-line string, from its opening delimiter. The two-byte
        step over a backslash may leave the document; nothing is read there. */
    method SkipMultiline(q: Byte, escapes: bool) returns (ok: bool)
      requires i + 3 <= |s| && (q == '"' || q == '\'')
      modifies this
      ensures ok == MultiBody(s[old(i) + 3..], q, escapes).Some?
      ensures ok ==> i == old(i) + 3 + MultiBody(s[old(i) + 3..], q, escapes).value
    {
      hide MultiBody, ExtraQuotes;
      i := i + 3;
      ghost var start := i;
      while !Done()
        invariant start <= i <= |s| + 1
        invariant i <= |s| ==> MultiBody(s[start..], q, escapes) == Plus(i - start, MultiBody(s[i..], q, escapes))
        invariant i > |s| ==> MultiBody(s[start..], q, escapes).None?
        decreases |s| - i
      {
        MultiStep(s, i, q, escapes);
        if escapes && s[i] == '\\' {
          i := i + 2;
        } else if [q, q, q] <= s[i..] {
          i := i + 3;
          SkipExtraQuotes(q);
          return true;
        } else {
          i := i + 1;
        }
      }
      NoMore(q, escapes);
      assert i == |s| ==> s[i..] == [];
      return false;
    }

    /** After an element: a comma and more to come, or the closing byte, or neither. */
    method SkipItemEnd(close: Byte) returns (ok: bool, more: bool)
      requires i <= |s| && (close == ']' || close == '}')
      modifies this
      ensures more ==> old(i) < i <= |s|
      ensures more ==>
                NextItem(s, old(i), close) == Plus(i, if close == ']' then ArrayBody(s[i..]) else InlineBody(s[i..]))
      ensures !more ==> ok == NextItem(s, old(i), close).Some? && (ok ==> i == NextItem(s, old(i), close).value)
    {
      hide BlankLen, ArrayBody, InlineBody;
      SkipBlank();
      ok, more := false, false;
      if Peek() == ',' {
        i := i + 1;
        more := true;
      } else if Peek() == close {
        i := i + 1;
        ok := true;
      }
    }

    /** Moves past an array, from its opening bracket. */
    method SkipArray() returns (ok: bool)
      requires i < |s|
      modifies this
      ensures ok == ArrayBody(s[old(i) + 1..]).Some?
      ensures ok ==> i == old(i) + 1 + ArrayBody(s[old(i) + 1..]).value
      decreases |s| - i, 0
    {
      hide BlankLen, ValueLen, ArrayBody, NextItem;
      i := i + 1;
      ghost var start := i;
      while true
        invariant old(i) < start <= i <= |s|
        invariant ArrayBody(s[start..]) == Plus(i - start, ArrayBody(s[i..]))
        decreases |s| - i
      {
        ghost var j := i;
        SkipBlank();
        ghost var a := i;
        ArrayStep(s, j, a);
        if Peek() == ']' {
          i := i + 1;
          return true;
        }
        if Done() {
          return false;
        }
        var item := SkipValue();
        if !item {
          return false;
        }
        var more;
        ok, more := SkipItemEnd(']');
        if !more {
          return ok;
        }
      }
    }

    /** Moves past an inline table, from its opening brace. */
    method SkipInlineTable() returns (ok: bool)
      requires i < |s|
      modifies this
      ensures ok == InlineBody(s[old(i) + 1..]).Some?
      ensures ok ==> i == old(i) + 1 + InlineBody(s[old(i) + 1..]).value
      decreases |s| - i, 0
    {
      hide BlankLen, ValueLen, InlineBody, KeyEquals, NextItem;
      i := i + 1;
      ghost var start := i;
      while true
        invariant old(i) < start <= i <= |s|
        invariant InlineBody(s[start..]) == Plus(i - start, InlineBody(s[i..]))
        decreases |s| - i
      {
        ghost var j := i;
        SkipBlank();
        ghost var a := i;
        InlineStep(s, j, a);
        if Peek() == '}' {
          i := i + 1;
          return true;
        }
        if Done() {
          return false;
        }
        var key := ParseKeyEquals();
        if key.None? {
          return false;
        }
        var item := SkipValue();
        if !item {
          return false;
        }
        var more;
        ok, more := SkipItemEnd('}');
        if !more {
          return ok;
        }
      }
    }
  }

  function Following(prefix: seq<Stmt>, r: Option<seq<Stmt>>): Option<seq<Stmt>> {
    if r.None? then None else Some(prefix + r.value)
  }

  lemma FollowingTwice(prefix: seq<Stmt>, st: Stmt, r: Option<seq<Stmt>>)
    ensures Following(prefix, Following([st], r)) == Following(prefix + [st], r)
  {
    if r.Some? {
      assert prefix + ([st] + r.value) == (prefix + [st]) + r.value;
    }
  }

  /** One turn of the statement loop, at the first byte of a statement. */
  lemma StatementStep(doc: Bytes, j: nat, i: nat, table: Path)
    requires j <= i < |doc| && i == j + BlankLen(doc[j..])
    ensures StatementsFrom(doc[j..], table, j) ==
            match Statement(doc[i..], table)
            case None => None
            case Some(st) => Following([Moved(st, i)],
                StatementsFrom(doc[i + st.lineEnd..], TableAfter(table, st), i + st.lineEnd))
  {
    hide BlankLen, Statement;
    assert doc[j..][i - j..] == doc[i..];
    if Statement(doc[i..], table).Some? {
      var st := Statement(doc[i..], table).value;
      assert doc[j..][i - j + st.lineEnd..] == doc[i + st.lineEnd..];
    }
  }

  lemma StatementAt(doc: Bytes, i: nat, table: Path)
    requires i < |doc|
    ensures Statement(doc[i..], table) ==
            match Bare(doc[i..], table)
            case None => None
            case Some(st) =>
              match EndLine(doc[i + st.lineEnd..])
              case None => None
              case Some(e) => Some(st.(lineEnd := st.lineEnd + e))
  {
    hide Bare, EndLine;
    if Bare(doc[i..], table).Some? {
      assert doc[i..][Bare(doc[i..], table).value.lineEnd..] == doc[i + Bare(doc[i..], table).value.lineEnd..];
    }
  }

  lemma HeaderAt(s: Bytes, i: nat, kind: Kind, k: nat)
    requires i < |s| && s[i] == '['
    requires kind == if i + 1 < |s| && s[i + 1] == '[' then ArrayTable else Table
    requires k == i + |Closing(kind)|
    ensures k <= |s|
    ensures Header(s[i..]) ==
            match DottedKey(s[k..])
            case None => None
            case Some(key) =>
              if !(Closing(kind) <= s[k + key.len..]) then None
              else Some(Stmt(kind, key.path, 0, 0, k - i + key.len + |Closing(kind)|))
  {
    hide DottedKey;
    var t := s[i..];
    if kind == ArrayTable {
      assert t[..2] == "[[";
    }
    assert "[[" <= t ==> t[1] == "[["[1];
    assert t[k - i..] == s[k..];
    if DottedKey(s[k..]).Some? {
      assert t[k - i + DottedKey(s[k..]).value.len..] == s[k + DottedKey(s[k..]).value.len..];
    }
  }

  lemma PairAt(s: Bytes, i: nat, table: Path)
    requires i < |s|
    ensures Pair(s[i..], table) ==
            match KeyEquals(s[i..])
            case None => None
            case Some(k) =>
              match ValueLen(s[i + k.len..])
              case None => None
              case Some(v) => Some(Stmt(KeyValue, table + k.path, k.len, k.len + v, k.len + v))
  {
    hide KeyEquals, ValueLen;
    if KeyEquals(s[i..]).Some? {
      assert s[i..][KeyEquals(s[i..]).value.len..] == s[i + KeyEquals(s[i..]).value.len..];
    }
  }

  /** Reads a table header, from its opening bracket. */
  method ParseHeader(sc: Scanner) returns (r: Option<Stmt>)
    requires sc.i < |sc.s| && sc.s[sc.i] == '['
    modifies sc
    ensures r.Some? == Header(sc.s[old(sc.i)..]).Some?
    ensures r.Some? ==> r.value == Moved(Header(sc.s[old(sc.i)..]).value, old(sc.i)) && sc.i == r.value.lineEnd
  {
    hide DottedKey, SpaceLen, Header;
    ghost var at := sc.i;
    var kind := Table;
    sc.i := sc.i + 1;
    if sc.Peek() == '[' {
      kind := ArrayTable;
      sc.i := sc.i + 1;
    }
    ghost var k := sc.i;
    HeaderAt(sc.s, at, kind, k);
    var path := sc.ParseKey();
    if path.None? {
      assert DottedKey(sc.s[k..]).None?;
      return None;
    }
    KeyTakesSpaces(sc.s[k..]);
    assert sc.s[k..][sc.i - k..] == sc.s[sc.i..];
    sc.SkipSpace();
    if !(Closing(kind) <= sc.s[sc.i..]) {
      return None;
    }
    sc.i := sc.i + |Closing(kind)|;
    return Some(Stmt(kind, path.value, 0, 0, sc.i));
  }

  /** Reads a key/value pair under `table`. */
  method ParsePair(sc: Scanner, table: Path) returns (r: Option<Stmt>)
    requires sc.i < |sc.s|
    modifies sc
    ensures r.Some? == Pair(sc.s[old(sc.i)..], table).Some?
    ensures r.Some? ==> r.value == Moved(Pair(sc.s[old(sc.i)..], table).value, old(sc.i)) && sc.i == r.value.lineEnd
  {
    hide KeyEquals, ValueLen, Pair;
    PairAt(sc.s, sc.i, table);
    var key := sc.ParseKeyEquals();
    if key.None? {
      return None;
    }
    var valueStart := sc.i;
    var ok := sc.SkipValue();
    if !ok {
      return None;
    }
    return Some(Stmt(KeyValue, table + key.value, valueStart, sc.i, sc.i));
  }

  /** Reads one statement up to the rest of its line. */
  method ParseStatement(sc: Scanner, table: Path) returns (r: Option<Stmt>)
    requires sc.i < |sc.s|
    modifies sc
    ensures r.Some? == Bare(sc.s[old(sc.i)..], table).Some?
    ensures r.Some? ==> r.value == Moved(Bare(sc.s[old(sc.i)..], table).value, old(sc.i)) && sc.i == r.value.lineEnd
  {
    hide Header, Pair;
    if sc.Peek() == '[' {
      r := ParseHeader(sc);
    } else {
      r := ParsePair(sc, table);
    }
  }

  lemma NoStatements(doc: Bytes, j: nat, table: Path, stmts: seq<Stmt>)
    requires j <= |doc| && j + BlankLen(doc[j..]) == |doc|
    ensures Following(stmts, StatementsFrom(doc[j..], table, j)) == Some(stmts)
  {
    hide BlankLen;
    assert stmts + [] == stmts;
  }

  lemma FollowingNone(r: Option<seq<Stmt>>)
    ensures Following([], r) == r
  {
    if r.Some? {
      assert [] + r.value == r.value;
    }
  }

  /** Splits a document into its top-level statements. */
  method ParseTomlStatements(doc: Bytes) returns (r: Option<seq<Stmt>>)
    ensures r == Statements(doc)
  {
    hide BlankLen, Statement, StatementsFrom, TomlGrammar.EndLine, Bare;
    var sc := new Scanner(doc);
    if BOM <= doc {
      sc.i := |BOM|;
    }
    var stmts: seq<Stmt> := [];
    var table: Path := [];
    FollowingNone(Statements(doc));
    while true
      invariant sc.s == doc && sc.i <= |doc|
      invariant Statements(doc) == Following(stmts, StatementsFrom(doc[sc.i..], table, sc.i))
      decreases |doc| - sc.i
    {
      ghost var j := sc.i;
      sc.SkipBlank();
      if sc.Done() {
        NoStatements(doc, j, table, stmts);
        return Some(stmts);
      }
      ghost var i := sc.i;
      StatementStep(doc, j, i, table);
      StatementAt(doc, i, table);
      var st := ParseStatement(sc, table);
      if st.None? {
        return None;
      }
      var ok := sc.EndLine();
      if !ok {
        return None;
      }
      var next := st.value.(lineEnd := sc.i);
      table := if next.kind == KeyValue then table else next.path;
      FollowingTwice(stmts, next, StatementsFrom(doc[sc.i..], table, sc.i));
      stmts := stmts + [next];
    }
  }
}
