/** What each scanner operation consumes, as a function of the text from the
    current offset on. The scanner class is verified against these functions,
    and every law about the trust editor is proved about them. A length counts
    bytes from the start of the text; `None` is a syntax error. */
module TomlGrammar {
  import opened Wrappers
  import opened Utf8

  type Path = seq<Bytes>

  /** Decoded text together with the number of bytes it was read from. */
  datatype Token = Token(text: Bytes, len: nat)

  datatype Key = Key(path: Path, len: nat)

  datatype Kind = Table | ArrayTable | KeyValue

  /** One top-level statement, located by byte offsets; a header has no value. */
  datatype Stmt = Stmt(kind: Kind, path: Path, valueStart: nat, valueEnd: nat, lineEnd: nat)

  const BOM: Bytes := ['\U{EF}', '\U{BB}', '\U{BF}']

  predicate Starts(t: Bytes, c: Byte) {
    t != [] && t[0] == c
  }

  predicate IsSpace(c: Byte) {
    c == ' ' || c == '\t'
  }

  predicate IsBareKeyByte(c: Byte) {
    c == '_' || c == '-' || '0' <= c <= '9' || 'a' <= c <= 'z' || 'A' <= c <= 'Z'
  }

  // ---- blanks and line ends

  function SpaceLen(t: Bytes): (n: nat)
    ensures n <= |t|
  {
    if t != [] && IsSpace(t[0]) then 1 + SpaceLen(t[1..]) else 0
  }

  function LineLen(t: Bytes): (n: nat)
    ensures n <= |t|
  {
    if t != [] && t[0] != '\n' then 1 + LineLen(t[1..]) else 0
  }

  function CommentLen(t: Bytes): (n: nat)
    ensures n <= |t|
  {
    if Starts(t, '#') then LineLen(t) else 0
  }

  /** Spaces, then a comment: what may precede a newline. */
  function GapLen(t: Bytes): (n: nat)
    ensures n <= |t|
  {
    SpaceLen(t) + CommentLen(t[SpaceLen(t)..])
  }

  function NewlineLen(t: Bytes): (n: nat)
    ensures n <= |t|
  {
    if "\r\n" <= t then 2 else if Starts(t, '\n') then 1 else 0
  }

  function BlankLen(t: Bytes): (n: nat)
    ensures n <= |t|
    decreases |t|
  {
    var g := GapLen(t);
    var nl := NewlineLen(t[g..]);
    if nl == 0 then g else g + nl + BlankLen(t[g + nl..])
  }

  /** The rest of a statement's line, newline included. */
  function EndLine(t: Bytes): (r: Option<nat>)
    ensures r.Some? ==> r.value <= |t|
  {
    var g := GapLen(t);
    if g == |t| then Some(g)
    else if NewlineLen(t[g..]) == 0 then None
    else Some(g + NewlineLen(t[g..]))
  }

  // ---- strings

  function SimpleEscape(c: Byte): Option<Byte> {
    match c
    case 'b' => Some('\U{08}')
    case 't' => Some('\t')
    case 'n' => Some('\n')
    case 'f' => Some('\U{0C}')
    case 'r' => Some('\r')
    case '"' => Some('"')
    case '\\' => Some('\\')
    case 'e' => Some('\U{1B}')
    case _ => None
  }

  function EscapeDigits(c: Byte): (d: nat) {
    match c
    case 'x' => 2
    case 'u' => 4
    case 'U' => 8
    case _ => 0
  }

  function HexDigit(c: Byte): (d: Option<nat>)
    ensures d.Some? ==> d.value < 16
  {
    if '0' <= c <= '9' then Some(c as int - '0' as int)
    else if 'a' <= c <= 'f' then Some(c as int - 'a' as int + 10)
    else if 'A' <= c <= 'F' then Some(c as int - 'A' as int + 10)
    else None
  }

  /** A hexadecimal number of any length, most significant digit first. */
  function HexValue(t: Bytes): (v: Option<nat>) {
    if t == [] then Some(0)
    else
      var high :- HexValue(t[..|t| - 1]);
      var low :- HexDigit(t[|t| - 1]);
      Some(16 * high + low)
  }

  /** One escape sequence; `t` starts at its backslash. */
  function Escape(t: Bytes): (r: Option<Token>)
    ensures r.Some? ==> 2 <= r.value.len <= |t|
  {
    if |t| < 2 then None
    else if SimpleEscape(t[1]).Some? then Some(Token([SimpleEscape(t[1]).value], 2))
    else
      var d := EscapeDigits(t[1]);
      if d == 0 || 2 + d > |t| then None
      else
        var code :- HexValue(t[2..2 + d]);
        if ValidRune(code) then Some(Token(EncodeRune(code), 2 + d)) else None
  }

  /** A basic string after its opening quote, through its closing one. */
  function BasicBody(t: Bytes): (r: Option<Token>)
    ensures r.Some? ==> 0 < r.value.len <= |t|
    decreases |t|
  {
    if t == [] || t[0] == '\n' then None
    else if t[0] == '"' then Some(Token([], 1))
    else if t[0] == '\\' then
      var e :- Escape(t);
      var b :- BasicBody(t[e.len..]);
      Some(Token(e.text + b.text, e.len + b.len))
    else
      var b :- BasicBody(t[1..]);
      Some(Token([t[0]] + b.text, 1 + b.len))
  }

  /** A literal string after its opening apostrophe: the length of its content. */
  function LiteralLen(t: Bytes): (r: Option<nat>)
    ensures r.Some? ==> r.value < |t| && t[r.value] == '\''
  {
    if t == [] || t[0] == '\n' then None
    else if t[0] == '\'' then Some(0)
    else
      var n :- LiteralLen(t[1..]);
      Some(1 + n)
  }

  /** Up to two more quotes belong to a multi-line string's content. */
  function ExtraQuotes(t: Bytes, q: Byte): (n: nat)
    ensures n <= |t| && n <= 2
  {
    if !Starts(t, q) then 0 else if !Starts(t[1..], q) then 1 else 2
  }

  /** A multi-line string after its opening delimiter, through its closing one. */
  function MultiBody(t: Bytes, q: Byte, escapes: bool): (r: Option<nat>)
    ensures r.Some? ==> 0 < r.value <= |t|
    decreases |t|
  {
    if t == [] then None
    else if escapes && t[0] == '\\' then
      if |t| < 2 then None else
      var n :- MultiBody(t[2..], q, escapes);
      Some(2 + n)
    else if [q, q, q] <= t then Some(3 + ExtraQuotes(t[3..], q))
    else
      var n :- MultiBody(t[1..], q, escapes);
      Some(1 + n)
  }

  // ---- keys

  function BareKeyLen(t: Bytes): (n: nat)
    ensures n <= |t|
  {
    if t != [] && IsBareKeyByte(t[0]) then 1 + BareKeyLen(t[1..]) else 0
  }

  function SimpleKey(t: Bytes): (r: Option<Token>)
    ensures r.Some? ==> 0 < r.value.len <= |t|
  {
    if Starts(t, '"') then
      if "\"\"\"" <= t then None else
      var b :- BasicBody(t[1..]);
      Some(Token(b.text, 1 + b.len))
    else if Starts(t, '\'') then
      if "'''" <= t then None else
      var n :- LiteralLen(t[1..]);
      Some(Token(t[1..1 + n], n + 2))
    else
      var n := BareKeyLen(t);
      if n == 0 then None else Some(Token(t[..n], n))
  }

  /** One segment of a dotted key with the whitespace around it. */
  function Segment(t: Bytes): (r: Option<Token>)
    ensures r.Some? ==> 0 < r.value.len <= |t|
  {
    var a := SpaceLen(t);
    var k :- SimpleKey(t[a..]);
    Some(Token(k.text, a + k.len + SpaceLen(t[a + k.len..])))
  }

  function DottedKey(t: Bytes): (r: Option<Key>)
    ensures r.Some? ==> 0 < r.value.len <= |t| && r.value.path != []
    decreases |t|
  {
    var k :- Segment(t);
    if !Starts(t[k.len..], '.') then Some(Key([k.text], k.len))
    else
      var rest :- DottedKey(t[k.len + 1..]);
      Some(Key([k.text] + rest.path, k.len + 1 + rest.len))
  }

  lemma DottedLast(t: Bytes, k: Token)
    requires Segment(t) == Some(k) && !Starts(t[k.len..], '.')
    ensures DottedKey(t) == Some(Key([k.text], k.len))
  {
    hide Segment;
  }

  lemma DottedMore(t: Bytes, k: Token)
    requires Segment(t) == Some(k) && Starts(t[k.len..], '.')
    ensures (var rest := DottedKey(t[k.len + 1..]);
             DottedKey(t) == if rest.None? then None
                 else Some(Key([k.text] + rest.value.path, k.len + 1 + rest.value.len)))
  {
    hide Segment;
  }

  /** A key, its '=', and the whitespace up to the value. */
  function KeyEquals(t: Bytes): (r: Option<Key>)
    ensures r.Some? ==> 1 < r.value.len <= |t| && r.value.path != []
  {
    var k :- DottedKey(t);
    if !Starts(t[k.len..], '=') then None
    else Some(Key(k.path, k.len + 1 + SpaceLen(t[k.len + 1..])))
  }

  // ---- values

  predicate EndsBare(c: Byte) {
    c == '\r' || c == '\n' || c == '#' || c == ',' || c == ']' || c == '}'
  }

  function BareRun(t: Bytes): (n: nat)
    ensures n <= |t|
  {
    if t != [] && !EndsBare(t[0]) then 1 + BareRun(t[1..]) else 0
  }

  function TrimLen(t: Bytes, n: nat): (m: nat)
    requires n <= |t|
    ensures m <= n
  {
    if n > 0 && IsSpace(t[n - 1]) then TrimLen(t, n - 1) else n
  }

  function ValueLen(t: Bytes): (r: Option<nat>)
    ensures r.Some? ==> 0 < r.value <= |t|
    decreases |t|, 0
  {
    if "\"\"\"" <= t then
      var n :- MultiBody(t[3..], '"', true);
      Some(3 + n)
    else if "'''" <= t then
      var n :- MultiBody(t[3..], '\'', false);
      Some(3 + n)
    else if Starts(t, '"') then
      var b :- BasicBody(t[1..]);
      Some(1 + b.len)
    else if Starts(t, '\'') then
      var n :- LiteralLen(t[1..]);
      Some(n + 2)
    else if Starts(t, '[') then
      var n :- ArrayBody(t[1..]);
      Some(1 + n)
    else if Starts(t, '{') then
      var n :- InlineBody(t[1..]);
      Some(1 + n)
    else
      var n := TrimLen(t, BareRun(t));
      if n == 0 then None else Some(n)
  }

  /** The elements of an array, through its closing bracket. */
  function ArrayBody(t: Bytes): (r: Option<nat>)
    ensures r.Some? ==> 0 < r.value <= |t|
    decreases |t|, 1
  {
    var a := BlankLen(t);
    if a == |t| then None
    else if t[a] == ']' then Some(a + 1)
    else
      var v :- ValueLen(t[a..]);
      AfterItem(t, a + v, ']')
  }

  /** The entries of an inline table, through its closing brace. */
  function InlineBody(t: Bytes): (r: Option<nat>)
    ensures r.Some? ==> 0 < r.value <= |t|
    decreases |t|, 1
  {
    var a := BlankLen(t);
    if a == |t| then None
    else if t[a] == '}' then Some(a + 1)
    else
      var k :- KeyEquals(t[a..]);
      var v :- ValueLen(t[a + k.len..]);
      AfterItem(t, a + k.len + v, '}')
  }

  /** What follows an element that ended at `i`: the closing byte, or a comma and the next element. */
  function AfterItem(t: Bytes, i: nat, close: Byte): (r: Option<nat>)
    requires 0 < i <= |t|
    requires close == ']' || close == '}'
    ensures r.Some? ==> i < r.value <= |t|
    decreases |t| - i, 2
  {
    var b := i + BlankLen(t[i..]);
    if b == |t| then None
    else if t[b] == close then Some(b + 1)
    else if t[b] != ',' then None
    else
      var n :- if close == ']' then ArrayBody(t[b + 1..]) else InlineBody(t[b + 1..]);
      Some(b + 1 + n)
  }

  // ---- statements and documents

  function Closing(kind: Kind): Bytes {
    if kind == ArrayTable then "]]" else "]"
  }

  /** A table header, through its closing brackets; `t` starts at the opening ones. */
  function Header(t: Bytes): (r: Option<Stmt>)
    requires Starts(t, '[')
    ensures r.Some? ==>
              && r.value.kind != KeyValue && r.value.valueEnd == r.value.valueStart == 0
              && 1 < r.value.lineEnd <= |t|
  {
    var kind := if "[[" <= t then ArrayTable else Table;
    var open := |Closing(kind)|;
    var k :- DottedKey(t[open..]);
    if !(Closing(kind) <= t[open + k.len..]) then None
    else Some(Stmt(kind, k.path, 0, 0, open + k.len + open))
  }

  /** A key/value pair, through its value; its path is the enclosing table's followed by its own. */
  function Pair(t: Bytes, table: Path): (r: Option<Stmt>)
    ensures r.Some? ==> r.value.kind == KeyValue && 1 < r.value.valueStart < r.value.valueEnd == r.value.lineEnd <= |t|
  {
    var k :- KeyEquals(t);
    var v :- ValueLen(t[k.len..]);
    Some(Stmt(KeyValue, table + k.path, k.len, k.len + v, k.len + v))
  }

  /** A statement without the rest of its line. */
  function Bare(t: Bytes, table: Path): (r: Option<Stmt>)
    ensures r.Some? ==> 1 < r.value.lineEnd <= |t| && r.value.valueStart <= r.value.valueEnd <= r.value.lineEnd
    ensures r.Some? && r.value.kind == KeyValue ==> 1 < r.value.valueStart < r.value.valueEnd == r.value.lineEnd
    ensures r.Some? && r.value.kind != KeyValue ==> r.value.valueEnd == 0
  {
    if Starts(t, '[') then Header(t) else Pair(t, table)
  }

  /** The statement at the start of `t`, with offsets counted from there. */
  function Statement(t: Bytes, table: Path): (r: Option<Stmt>)
    ensures r.Some? ==> 1 < r.value.lineEnd <= |t| && r.value.valueStart <= r.value.valueEnd <= r.value.lineEnd
    ensures r.Some? && r.value.kind == KeyValue ==> 1 < r.value.valueStart < r.value.valueEnd
    ensures r.Some? && r.value.kind != KeyValue ==> r.value.valueEnd == 0
  {
    var st :- Bare(t, table);
    var e :- EndLine(t[st.lineEnd..]);
    Some(st.(lineEnd := st.lineEnd + e))
  }

  /** The table in force after a statement. */
  function TableAfter(table: Path, st: Stmt): Path {
    if st.kind == KeyValue then table else st.path
  }

  function Moved(st: Stmt, d: nat): Stmt {
    if st.kind == KeyValue
    then Stmt(KeyValue, st.path, st.valueStart + d, st.valueEnd + d, st.lineEnd + d)
    else st.(lineEnd := st.lineEnd + d)
  }

  /** The statements of `t`, which starts at offset `at` of its document. */
  function StatementsFrom(t: Bytes, table: Path, at: nat): (r: Option<seq<Stmt>>)
    decreases |t|
  {
    var a := BlankLen(t);
    if a == |t| then Some([])
    else
      var st :- Statement(t[a..], table);
      var rest :- StatementsFrom(t[a + st.lineEnd..], TableAfter(table, st), at + a + st.lineEnd);
      Some([Moved(st, at + a)] + rest)
  }

  /** Where a document's first line starts: past a byte order mark. */
  function Start(doc: Bytes): (n: nat)
    ensures n <= |doc|
  {
    if BOM <= doc then |BOM| else 0
  }

  function Statements(doc: Bytes): Option<seq<Stmt>> {
    StatementsFrom(doc[Start(doc)..], [], Start(doc))
  }
}
