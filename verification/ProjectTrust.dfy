/** The trust editor: what one edit of a Codex configuration does to its text. */
module ProjectTrust {
  import opened Wrappers
  import opened Utf8
  import opened TomlGrammar
  import opened TomlDocument
  import opened TomlRewrite

  datatype Refusal = Unreadable | TrustIsTable | ProjectsIsArray | ProjectsIsInline | DefinedByDottedKeys

  datatype Edit = Edited(config: Bytes) | Refused(why: Refusal)

  function ProjectTable(path: Bytes): Path {
    ["projects", path]
  }

  function TrustKey(path: Bytes): Path {
    ["projects", path, "trust_level"]
  }

  // ---- deciding what to do, from kinds and paths alone

  predicate Trusts(e: Entry, path: Bytes) {
    e.kind == KeyValue && e.path == TrustKey(path)
  }

  predicate Heads(e: Entry, path: Bytes) {
    e.kind == Table && e.path == ProjectTable(path)
  }

  /** Why this entry makes the configuration uneditable, if it does. */
  function Objection(e: Entry, path: Bytes): Option<Refusal> {
    if Trusts(e, path) then None
    else if TrustKey(path) <= e.path then Some(TrustIsTable)
    else if e.kind == ArrayTable && e.path <= ProjectTable(path) then Some(ProjectsIsArray)
    else if e.kind == KeyValue && e.path <= ProjectTable(path) then Some(ProjectsIsInline)
    else None
  }

  function FirstObjection(es: seq<Entry>, path: Bytes): Option<Refusal> {
    if es == [] then None
    else if Objection(es[0], path).Some? then Objection(es[0], path)
    else FirstObjection(es[1..], path)
  }

  predicate HasTrust(es: seq<Entry>, path: Bytes) {
    exists e <- es :: Trusts(e, path)
  }

  /** The first header of the project's table, or the number of entries. */
  function HeaderIndex(es: seq<Entry>, path: Bytes): (h: nat)
    ensures h <= |es|
    ensures h < |es| ==> Heads(es[h], path)
    ensures forall i | 0 <= i < h :: !Heads(es[i], path)
  {
    if es == [] then 0 else if Heads(es[0], path) then 0 else 1 + HeaderIndex(es[1..], path)
  }

  predicate HasDotted(es: seq<Entry>, path: Bytes) {
    exists e <- es :: e.kind == KeyValue && ProjectTable(path) <= e.path
  }

  // ---- the text each branch writes

  function HexUpper(d: nat): Byte
    requires d < 16
  {
    "0123456789ABCDEF"[d]
  }

  function EscapedRune(r: int): Bytes
    requires ValidRune(r)
  {
    if r == '\\' as int then "\\\\"
    else if r == '"' as int then "\\\""
    else if r == 0x08 then "\\b"
    else if r == 0x09 then "\\t"
    else if r == 0x0A then "\\n"
    else if r == 0x0C then "\\f"
    else if r == 0x0D then "\\r"
    else if r < 0x20 then "\\u00" + [HexUpper(r / 16), HexUpper(r % 16)]
    else EncodeRune(r)
  }

  function Escaped(v: Bytes): Bytes
    decreases |v|
  {
    if v == [] then [] else EscapedRune(DecodeRune(v).rune) + Escaped(v[DecodeRune(v).size..])
  }

  function HeaderLine(path: Bytes): Bytes {
    "[projects.\"" + Escaped(path) + "\"]\n"
  }

  function TrustLine(level: Bytes): Bytes {
    "trust_level = " + Quoted(level) + "\n"
  }

  /** The trust line, on a line of its own even if the header's line is unfinished. */
  function Inserted(before: Bytes, level: Bytes): Bytes {
    if EndsLine(before) then TrustLine(level) else "\n" + TrustLine(level)
  }

  /** Whether `strings.TrimSpace` leaves nothing of `t`: only Unicode white space. */
  predicate AllSpace(t: Bytes)
    decreases |t|
  {
    t == [] || (SpaceRune(DecodeRune(t).rune) && AllSpace(t[DecodeRune(t).size..]))
  }

  predicate SpaceRune(r: int) {
    0x09 <= r <= 0x0D || r == 0x20 || r == 0x85 || r == 0xA0 || r == 0x1680 || 0x2000 <= r <= 0x200A
    || r == 0x2028 || r == 0x2029 || r == 0x202F || r == 0x205F || r == 0x3000
  }

  function Appended(config: Bytes, path: Bytes, level: Bytes): Bytes {
    var table := HeaderLine(path) + TrustLine(level);
    if AllSpace(config) then table
    else if EndsLine(config) then config + "\n" + table
    else config + "\n" + "\n" + table
  }

  // ---- the edit

  /** A document's entries. */
  function Document(config: Bytes): Option<seq<Entry>> {
    Entries(config[Start(config)..], [])
  }

  /** Where the line of the `h`-th statement ends. */
  function LineEnd(config: Bytes, h: nat): (n: nat)
    ensures n <= |config|
  {
    Start(config) + CutAt(config[Start(config)..], [], h)
  }

  function SetTrust(config: Bytes, path: Bytes, level: Bytes): Edit {
    match Document(config)
    case None => Refused(Unreadable)
    case Some(es) =>
      var h := HeaderIndex(es, path);
      if FirstObjection(es, path).Some? then Refused(FirstObjection(es, path).value)
      else if HasTrust(es, path) then
        var k := Start(config);
        Edited(config[..k] + Rewritten(config[k..], [], TrustKey(path), Quoted(level)))
      else if h < |es| then
        var n := LineEnd(config, h);
        Edited(config[..n] + Inserted(config[..n], level) + config[n..])
      else if HasDotted(es, path) then Refused(DefinedByDottedKeys)
      else Edited(Appended(config, path, level))
  }

  /** Every spelling of the project path in turn; the first refusal stands. */
  function SetTrustAll(config: Bytes, paths: seq<Bytes>, level: Bytes): Edit
    decreases |paths|
  {
    if paths == [] then Edited(config)
    else
      var first := SetTrust(config, paths[0], level);
      if first.Refused? then first else SetTrustAll(first.config, paths[1..], level)
  }
}
