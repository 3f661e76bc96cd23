/** What an agent is doing, read backwards from the end of its transcript. */
module ProgressTail {
  import opened Wrappers
  import opened Calendar
  import opened Text

  const TAIL_SIZE: nat := 64 * 1024

  datatype Content = NoContent | TextContent(text: string) | Blocks(types: seq<string>)

  /** A transcript record; an unparseable timestamp is None. */
  datatype Record = Record(kind: string, content: Content, timestamp: Option<Time>)

  /** Decoding one trimmed line; None when it is not a complete record. */
  type Decoder = string -> Option<Record>

  datatype Phase = AwaitingModel | ExecutingTool | Idle | UnknownPhase

  datatype Snapshot = Snapshot(lastProgressAt: Time, lastAssistantMessageAt: Time, phase: Phase, known: bool)

  const UNKNOWN := Snapshot(ZERO_TIME, ZERO_TIME, UnknownPhase, false)

  predicate HasBlockType(c: Content, want: string) {
    match c
    case NoContent => false
    case TextContent(text) => text != "" && want == "text"
    case Blocks(types) => want in types
  }

  function Classify(r: Record): Option<Phase> {
    if r.kind == "api-request" || r.kind == "user" then Some(AwaitingModel)
    else if r.kind != "assistant" then None
    else if HasBlockType(r.content, "tool_use") then Some(ExecutingTool)
    else if HasBlockType(r.content, "text") then Some(Idle)
    else None
  }

  /** The record on a line, if there is a complete one. */
  function RecordOn(line: string, decode: Decoder): Option<Record> {
    var text := TrimSpace(line);
    if text == "" then None else decode(text)
  }

  /** The phase a line settles, if it settles one. */
  function Settles(line: string, decode: Decoder): Option<Phase> {
    var r :- RecordOn(line, decode);
    Classify(r)
  }

  /** The snapshot taken from the record that settles the phase. */
  function SnapshotOf(r: Record, phase: Phase, newestWrite: Time): Snapshot {
    if r.timestamp.None? then UNKNOWN
    else
      var ts := r.timestamp.value;
      Snapshot(if newestWrite > ts then newestWrite else ts, if r.kind == "assistant" then ts else ZERO_TIME, phase,
          true)
  }

  /** The first timestamp met walking back over records that settle nothing. */
  function WalkedPast(line: string, decode: Decoder, newestWrite: Time): Time {
    var r := RecordOn(line, decode);
    if r.Some? && Classify(r.value).None? && r.value.timestamp.Some? && newestWrite == ZERO_TIME then
      r.value.timestamp.value
    else newestWrite
  }

  /** The walk from the last line back. */
  function Walk(lines: seq<string>, decode: Decoder, newestWrite: Time): Snapshot {
    if lines == [] then UNKNOWN
    else
      var line := lines[|lines| - 1];
      if Settles(line, decode).Some? then
        SnapshotOf(RecordOn(line, decode).value, Settles(line, decode).value, newestWrite)
      else Walk(lines[..|lines| - 1], decode, WalkedPast(line, decode, newestWrite))
  }

  function IndexByte(s: string, c: char): (r: Option<nat>)
    ensures r.Some? ==> r.value < |s|
  {
    if s == [] then None
    else if s[0] == c then Some(0)
    else
      var i :- IndexByte(s[1..], c);
      Some(i + 1)
  }

  lemma {:induction false} IndexByteIs(s: string, c: char)
    ensures match IndexByte(s, c)
            case None => c !in s
            case Some(i) => s[i] == c && c !in s[..i]
  {
    if s != [] && s[0] != c {
      IndexByteIs(s[1..], c);
      assert s == [s[0]] + s[1..];
      if IndexByte(s, c).Some? {
        var i := IndexByte(s, c).value;
        assert s[..i] == [s[0]] + s[1..][..i - 1];
      }
    }
  }

  /** The pieces between newlines, one more than there are newlines. */
  function Lines(s: string): (lines: seq<string>)
    ensures lines != []
  {
    if s == [] then [""]
    else if s[0] == '\n' then [""] + Lines(s[1..])
    else
      var rest := Lines(s[1..]);
      [[s[0]] + rest[0]] + rest[1..]
  }

  lemma LinesCons(c: char, s: string)
    ensures Lines([c] + s) == if c == '\n' then [""] + Lines(s) else [[c] + Lines(s)[0]] + Lines(s)[1..]
  {
    assert ([c] + s)[1..] == s;
  }

  lemma LinesFirst(b: string)
    ensures Lines(['\n'] + b) == Lines([]) + Lines(b)
  {
    LinesCons('\n', b);
  }

  lemma LinesStep(c: char, rest: string, b: string)
    requires Lines(rest + ['\n'] + b) == Lines(rest) + Lines(b)
    ensures Lines([c] + (rest + ['\n'] + b)) == Lines([c] + rest) + Lines(b)
  {
    LinesCons(c, rest);
    LinesCons(c, rest + ['\n'] + b);
    hide Lines;
    FirstOfTwo(Lines(rest), Lines(b));
    if c == '\n' {
      LinesFlat([[]], Lines(rest), Lines(b));
    } else {
      LinesFlat([[c] + Lines(rest)[0]], Lines(rest)[1..], Lines(b));
    }
  }

  lemma FirstOfTwo(first: seq<string>, second: seq<string>)
    requires first != []
    ensures (first + second)[0] == first[0] && (first + second)[1..] == first[1..] + second
  {
  }

  lemma LinesFlat(a: seq<string>, b: seq<string>, c: seq<string>)
    ensures a + (b + c) == a + b + c
  {
  }

  lemma {:induction false} LinesJoin(a: string, b: string)
    ensures Lines(a + ['\n'] + b) == Lines(a) + Lines(b)
  {
    hide Lines;
    if a == [] {
      LinesFirst(b);
      assert a + ['\n'] + b == ['\n'] + b;
    } else {
      LinesJoin(a[1..], b);
      LinesStep(a[0], a[1..], b);
      assert a + ['\n'] + b == [a[0]] + (a[1..] + ['\n'] + b);
      assert [a[0]] + a[1..] == a;
    }
  }

  /** The answer of a read that started at `offset`: past it, the first line is dropped. */
  function TailAnswer(contents: string, offset: nat, decode: Decoder): Snapshot {
    var data := if offset <= |contents| then contents[offset..] else "";
    if offset == 0 then Walk(Lines(data), decode, ZERO_TIME)
    else
      match IndexByte(data, '\n')
      case None => UNKNOWN
      case Some(nl) => Walk(Lines(data[nl + 1..]), decode, ZERO_TIME)
  }

  /** The answer of the same walk over the whole transcript. */
  function WholeAnswer(contents: string, decode: Decoder): Snapshot {
    Walk(Lines(contents), decode, ZERO_TIME)
  }

  function TailOffset(size: nat): nat {
    if size > TAIL_SIZE then size - TAIL_SIZE else 0
  }

  /** One read: it failed, or the file had `size` bytes when opened and `contents` when read. */
  datatype Reading = Failed | Reading(size: nat, contents: string)

  /** None when the read says nothing about the bytes. */
  function ReadAnswer(r: Reading, decode: Decoder): Option<Snapshot> {
    if r.Failed? || r.size == 0 then None else Some(TailAnswer(r.contents, TailOffset(r.size), decode))
  }

  method ReadProgressTail(r: Reading, decode: Decoder) returns (snap: Snapshot, ok: bool)
    ensures ok <==> ReadAnswer(r, decode).Some?
    ensures snap == if ok then ReadAnswer(r, decode).value else UNKNOWN
  {
    hide Walk, Lines, IndexByte;
    if r.Failed? || r.size == 0 {
      return UNKNOWN, false;
    }
    var offset := 0;
    if r.size > TAIL_SIZE {
      offset := r.size - TAIL_SIZE;
    }
    var data := if offset <= |r.contents| then r.contents[offset..] else "";
    if offset > 0 {
      var nl := IndexByte(data, '\n');
      if nl.None? {
        return UNKNOWN, true;
      }
      data := data[nl.value + 1..];
    }
    snap := WalkBack(Lines(data), decode);
    ok := true;
  }

  method WalkBack(lines: seq<string>, decode: Decoder) returns (snap: Snapshot)
    ensures snap == Walk(lines, decode, ZERO_TIME)
  {
    var newestWrite := ZERO_TIME;
    var i := |lines|;
    assert lines[..i] == lines;
    while i > 0
      invariant 0 <= i <= |lines|
      invariant Walk(lines, decode, ZERO_TIME) == Walk(lines[..i], decode, newestWrite)
    {
      i := i - 1;
      assert lines[..i + 1][..i] == lines[..i];
      var line := TrimSpace(lines[i]);
      if line != "" {
        var rec := decode(line);
        if rec.Some? {
          var phase := Classify(rec.value);
          if phase.Some? {
            return SnapshotOf(rec.value, phase.value, newestWrite);
          }
          if rec.value.timestamp.Some? && newestWrite == ZERO_TIME {
            newestWrite := rec.value.timestamp.value;
          }
        }
      }
    }
    return UNKNOWN;
  }

  // ---- the tail stands for the whole

  /** More lines in front change nothing once the walk has its answer. */
  lemma {:induction false} WalkMore(front: seq<string>, lines: seq<string>, decode: Decoder, newestWrite: Time)
    ensures (exists i | 0 <= i < |lines| :: Settles(lines[i], decode).Some?) ==>
              Walk(front + lines, decode, newestWrite) == Walk(lines, decode, newestWrite)
    ensures (forall i | 0 <= i < |lines| :: Settles(lines[i], decode).None?) ==>
              Walk(lines, decode, newestWrite) == UNKNOWN
  {
    if lines != [] {
      var n := |lines| - 1;
      assert (front + lines)[..|front| + n] == front + lines[..n];
      if Settles(lines[n], decode).None? {
        WalkMore(front, lines[..n], decode, WalkedPast(lines[n], decode, newestWrite));
      }
    }
  }

  /** Reading from any offset gives the whole transcript's answer, or fails open. */
  lemma TailRefinesWhole(contents: string, offset: nat, decode: Decoder)
    requires offset <= |contents|
    ensures TailAnswer(contents, offset, decode) in {UNKNOWN, WholeAnswer(contents, decode)}
  {
    var data := contents[offset..];
    IndexByteIs(data, '\n');
    if offset > 0 && IndexByte(data, '\n').Some? {
      var nl := IndexByte(data, '\n').value;
      var front, rest := contents[..offset + nl], data[nl + 1..];
      assert contents == front + ['\n'] + rest;
      LinesJoin(front, rest);
      WalkMore(Lines(front), Lines(rest), decode, ZERO_TIME);
    }
  }
}
