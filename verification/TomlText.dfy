/** How a TOML document is written: its lines, keys and values with every freedom
    the format leaves, the text they are written as, and what that text says. */
module TomlText {
  import opened Wrappers
  import opened Utf8
  import opened TomlGrammar

  // ---- white space and comments

  predicate Spaces(b: Bytes) {
    forall i | 0 <= i < |b| :: b[i] == ' ' || b[i] == '\t'
  }

  predicate OneLine(b: Bytes) {
    '\n' !in b
  }

  /** How a line ends; only a document's last line may go without. */
  datatype Newline = LF | CRLF | NoNewline

  function NewlineText(nl: Newline): Bytes {
    match nl
    case LF => "\n"
    case CRLF => "\r\n"
    case NoNewline => ""
  }

  datatype Gap = Gap(spaces: Bytes, comment: Option<Bytes>)

  function GapText(g: Gap): Bytes {
    g.spaces + if g.comment.Some? then "#" + g.comment.value else ""
  }

  predicate ValidGap(g: Gap) {
    Spaces(g.spaces) && (g.comment.Some? ==> OneLine(g.comment.value))
  }

  datatype BlankLine = BlankLine(gap: Gap, nl: Newline)

  /** What may stand around the items of an array: blank lines, then spaces. */
  datatype Blanks = Blanks(lines: seq<BlankLine>, spaces: Bytes)

  function BlankLinesText(lines: seq<BlankLine>): Bytes {
    if lines == [] then "" else GapText(lines[0].gap) + NewlineText(lines[0].nl) + BlankLinesText(lines[1..])
  }

  function BlanksText(b: Blanks): Bytes {
    BlankLinesText(b.lines) + b.spaces
  }

  predicate ValidBlanks(b: Blanks) {
    Spaces(b.spaces) && forall i | 0 <= i < |b.lines| :: ValidGap(b.lines[i].gap) && b.lines[i].nl != NoNewline
  }

  // ---- strings

  /** What a basic string is made of: bytes that stand for themselves, short escapes,
      and characters by their number. */
  datatype Unit = Plain(c: Byte) | Short(c: Byte) | Coded(form: Byte, digits: Bytes)

  function DigitOf(c: Byte): nat {
    if '0' <= c <= '9' then (c - '0') as nat
    else if 'a' <= c <= 'f' then (c - 'a') as nat + 10
    else if 'A' <= c <= 'F' then (c - 'A') as nat + 10
    else 0
  }

  predicate Hexadecimal(b: Bytes) {
    forall i | 0 <= i < |b| :: '0' <= b[i] <= '9' || 'a' <= b[i] <= 'f' || 'A' <= b[i] <= 'F'
  }

  function Number(digits: Bytes, high: nat): nat {
    if digits == [] then high else Number(digits[1..], 16 * high + DigitOf(digits[0]))
  }

  predicate ValidUnit(u: Unit) {
    match u
    case Plain(c) => c != '"' && c != '\\' && c != '\n'
    case Short(c) => c in "btnfre\"\\"
    case Coded(form, digits) =>
      && Hexadecimal(digits) && ValidRune(Number(digits, 0))
      && ((form == 'x' && |digits| == 2) || (form == 'u' && |digits| == 4) || (form == 'U' && |digits| == 8))
  }

  function UnitText(u: Unit): Bytes {
    match u
    case Plain(c) => [c]
    case Short(c) => ['\\', c]
    case Coded(form, digits) => ['\\', form] + digits
  }

  function ShortMeaning(c: Byte): Byte {
    if c == 'b' then '\U{08}'
    else if c == 't' then '\t'
    else if c == 'n' then '\n'
    else if c == 'f' then '\U{0C}'
    else if c == 'r' then '\r'
    else if c == 'e' then '\U{1B}'
    else c
  }

  function UnitMeaning(u: Unit): Bytes
    requires ValidUnit(u)
  {
    match u
    case Plain(c) => [c]
    case Short(c) => [ShortMeaning(c)]
    case Coded(_, digits) => EncodeRune(Number(digits, 0))
  }

  function UnitsText(us: seq<Unit>): Bytes {
    if us == [] then "" else UnitText(us[0]) + UnitsText(us[1..])
  }

  predicate ValidUnits(us: seq<Unit>) {
    forall i | 0 <= i < |us| :: ValidUnit(us[i])
  }

  function UnitsMeaning(us: seq<Unit>): Bytes
    requires ValidUnits(us)
  {
    if us == [] then "" else UnitMeaning(us[0]) + UnitsMeaning(us[1..])
  }

  // ---- keys

  datatype Seg = BareSeg(text: Bytes) | BasicSeg(units: seq<Unit>) | LiteralSeg(text: Bytes)

  predicate KeyByte(c: Byte) {
    'a' <= c <= 'z' || 'A' <= c <= 'Z' || '0' <= c <= '9' || c == '_' || c == '-'
  }

  predicate LiteralText(b: Bytes) {
    OneLine(b) && '\'' !in b
  }

  predicate ValidSeg(s: Seg) {
    match s
    case BareSeg(text) => text != "" && forall i | 0 <= i < |text| :: KeyByte(text[i])
    case BasicSeg(units) => ValidUnits(units)
    case LiteralSeg(text) => LiteralText(text)
  }

  function SegText(s: Seg): Bytes {
    match s
    case BareSeg(text) => text
    case BasicSeg(units) => "\"" + UnitsText(units) + "\""
    case LiteralSeg(text) => "'" + text + "'"
  }

  function SegMeaning(s: Seg): Bytes
    requires ValidSeg(s)
  {
    match s
    case BareSeg(text) => text
    case BasicSeg(units) => UnitsMeaning(units)
    case LiteralSeg(text) => text
  }

  /** A segment of a dotted key and the spaces around it. */
  datatype Part = Part(before: Bytes, seg: Seg, after: Bytes)

  predicate ValidPart(p: Part) {
    Spaces(p.before) && ValidSeg(p.seg) && Spaces(p.after)
  }

  function PartText(p: Part): Bytes {
    p.before + SegText(p.seg) + p.after
  }

  predicate ValidKey(ps: seq<Part>) {
    ps != [] && forall i | 0 <= i < |ps| :: ValidPart(ps[i])
  }

  function KeyText(ps: seq<Part>): Bytes
    requires ps != []
  {
    if |ps| == 1 then PartText(ps[0]) else PartText(ps[0]) + "." + KeyText(ps[1..])
  }

  function KeyMeaning(ps: seq<Part>): Path
    requires forall i | 0 <= i < |ps| :: ValidPart(ps[i])
  {
    if ps == [] then []
    else
      assert ValidPart(ps[0]);
      [SegMeaning(ps[0].seg)] + KeyMeaning(ps[1..])
  }

  // ---- values

  /** A byte of a multi-line string, or a backslash and the byte it takes with it. */
  datatype Piece = Char(c: Byte) | Slash(c: Byte)

  function PieceText(p: Piece): Bytes {
    if p.Char? then [p.c] else ['\\', p.c]
  }

  function PiecesText(ps: seq<Piece>): Bytes {
    if ps == [] then "" else PieceText(ps[0]) + PiecesText(ps[1..])
  }

  /** Between the delimiters: never three quotes in a row, and none at the end; in a
      literal string a backslash is a byte like any other. */
  predicate ValidPieces(ps: seq<Piece>, quote: Byte, escapes: bool) {
    && (forall i | 0 <= i < |ps| :: if escapes then ps[i] != Char('\\') else ps[i].Char?)
    && (forall i | 0 <= i < |ps| - 2 :: !(ps[i] == Char(quote) && ps[i + 1] == Char(quote) && ps[i + 2] == Char(quote)))
    && (ps != [] ==> ps[|ps| - 1] != Char(quote))
  }

  datatype Val =
    | BasicVal(units: seq<Unit>)
    | LiteralVal(text: Bytes)
    | MultiVal(quote: Byte, pieces: seq<Piece>, extra: nat)
    | BareVal(text: Bytes)
    | ArrayVal(elems: Elems)
    | InlineVal(elems: Elems)

  /** A value in an array; in an inline table its key comes before it. */
  datatype Item = Item(before: Blanks, key: seq<Part>, equals: Bytes, val: Val, after: Blanks)

  /** The items up to the closing byte, which may follow a comma or not. */
  datatype Elems = Close(blanks: Blanks) | Last(item: Item) | More(item: Item, rest: Elems)

  function Repeat(c: Byte, n: nat): Bytes {
    if n == 0 then "" else [c] + Repeat(c, n - 1)
  }

  function ValText(v: Val): Bytes {
    match v
    case BasicVal(units) => "\"" + UnitsText(units) + "\""
    case LiteralVal(text) => "'" + text + "'"
    case MultiVal(quote, pieces, extra) => Repeat(quote, 3) + PiecesText(pieces) + Repeat(quote, 3 + extra)
    case BareVal(text) => text
    case ArrayVal(elems) => "[" + ElemsText(elems, ']')
    case InlineVal(elems) => "{" + ElemsText(elems, '}')
  }

  function ItemText(i: Item): Bytes {
    BlanksText(i.before) + (if i.key == [] then "" else KeyText(i.key) + "=" + i.equals) + ValText(i.val)
        + BlanksText(i.after)
  }

  function ElemsText(e: Elems, close: Byte): Bytes {
    match e
    case Close(blanks) => BlanksText(blanks) + [close]
    case Last(item) => ItemText(item) + [close]
    case More(item, rest) => ItemText(item) + "," + ElemsText(rest, close)
  }

  /** A number, a date or a word: anything up to the byte that must follow a value. */
  predicate BareText(b: Bytes) {
    && b != "" && b[0] !in {'"', '\'', '[', '{', ' ', '\t'} && b[|b| - 1] !in {' ', '\t'}
    && forall i | 0 <= i < |b| :: b[i] !in {'\r', '\n', '#', ',', ']', '}'}
  }

  predicate ValidVal(v: Val) {
    match v
    case BasicVal(units) => ValidUnits(units)
    case LiteralVal(text) => LiteralText(text)
    case MultiVal(quote, pieces, extra) =>
      (quote == '"' || quote == '\'') && extra <= 2 && ValidPieces(pieces, quote, quote == '"')
    case BareVal(text) => BareText(text)
    case ArrayVal(elems) => ValidElems(elems, false)
    case InlineVal(elems) => ValidElems(elems, true)
  }

  predicate ValidItem(i: Item, keyed: bool) {
    && ValidBlanks(i.before) && ValidVal(i.val) && ValidBlanks(i.after)
    && (if keyed then ValidKey(i.key) && i.key[0].before == "" && Spaces(i.equals) else i.key == [])
  }

  predicate ValidElems(e: Elems, keyed: bool) {
    match e
    case Close(blanks) => ValidBlanks(blanks)
    case Last(item) => ValidItem(item, keyed)
    case More(item, rest) => ValidItem(item, keyed) && ValidElems(rest, keyed)
  }

  // ---- lines and documents

  datatype Line =
    | Empty(gap: Gap, nl: Newline)
    | Headed(indent: Bytes, many: bool, key: seq<Part>, gap: Gap, nl: Newline)
    | Paired(indent: Bytes, key: seq<Part>, equals: Bytes, val: Val, gap: Gap, nl: Newline)

  predicate ValidLine(l: Line) {
    ValidGap(l.gap) &&
    match l
    case Empty(_, _) => true
    case Headed(indent, _, key, _, _) => Spaces(indent) && ValidKey(key)
    case Paired(indent, key, equals, val, _, _) =>
      Spaces(indent) && ValidKey(key) && key[0].before == "" && Spaces(equals) && ValidVal(val)
  }

  function HeaderText(many: bool, key: seq<Part>): Bytes
    requires key != []
  {
    if many then "[[" + KeyText(key) + "]]" else "[" + KeyText(key) + "]"
  }

  /** A line's statement, up to where the rest of its line begins. */
  function StatementText(l: Line): Bytes
    requires ValidLine(l)
  {
    match l
    case Empty(_, _) => ""
    case Headed(_, many, key, _, _) => HeaderText(many, key)
    case Paired(_, key, equals, val, _, _) => KeyText(key) + "=" + equals + ValText(val)
  }

  function Indent(l: Line): Bytes {
    if l.Empty? then "" else l.indent
  }

  function LineText(l: Line): Bytes
    requires ValidLine(l)
  {
    Indent(l) + StatementText(l) + GapText(l.gap) + NewlineText(l.nl)
  }

  predicate ValidLines(ls: seq<Line>) {
    && (forall i | 0 <= i < |ls| :: ValidLine(ls[i]))
    && forall i | 0 <= i < |ls| - 1 :: ls[i].nl != NoNewline
  }

  function LinesText(ls: seq<Line>): Bytes
    requires forall i | 0 <= i < |ls| :: ValidLine(ls[i])
  {
    if ls == [] then "" else LineText(ls[0]) + LinesText(ls[1..])
  }

  datatype Doc = Doc(mark: bool, lines: seq<Line>)

  function DocText(d: Doc): Bytes
    requires ValidLines(d.lines)
  {
    (if d.mark then ['\U{EF}', '\U{BB}', '\U{BF}'] else "") + LinesText(d.lines)
  }

  // ---- what a document says

  /** The statement a line makes, under the table in force, at its place in the document. */
  function Said(l: Line, table: Path, at: nat): Stmt
    requires ValidLine(l) && !l.Empty?
  {
    var end := at + |LineText(l)|;
    match l
    case Headed(_, many, key, _, _) => Stmt(if many then ArrayTable else Table, KeyMeaning(key), 0, 0, end)
    case Paired(indent, key, equals, val, _, _) =>
      var start := at + |indent| + |KeyText(key)| + 1 + |equals|;
      Stmt(KeyValue, table + KeyMeaning(key), start, start + |ValText(val)|, end)
  }

  function AllSaid(ls: seq<Line>, table: Path, at: nat): seq<Stmt>
    requires forall i | 0 <= i < |ls| :: ValidLine(ls[i])
  {
    if ls == [] then []
    else
      var next := at + |LineText(ls[0])|;
      match ls[0]
      case Empty(_, _) => AllSaid(ls[1..], table, next)
      case Headed(_, _, key, _, _) => [Said(ls[0], table, at)] + AllSaid(ls[1..], KeyMeaning(key), next)
      case Paired(_, _, _, _, _, _) => [Said(ls[0], table, at)] + AllSaid(ls[1..], table, next)
  }
}
