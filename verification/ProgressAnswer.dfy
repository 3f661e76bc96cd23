/** What a transcript's answer says, told from its lines and the records on them. */
module ProgressAnswer {
  import opened Wrappers
  import opened Calendar
  import opened Text
  import opened ProgressTail

  /** The record a line carries: what decoding the line finds once the white space
      around it is off. */
  ghost predicate Carries(line: string, decode: Decoder, r: Record) {
    exists a, text, b ::
      && line == a + text + b && AllBlank(a) && AllBlank(b)
      && text != "" && !IsSpace(text[0]) && !IsSpace(text[|text| - 1])
      && decode(text) == Some(r)
  }

  // ---- what a record says of the agent

  predicate HasBlock(c: Content, kind: string) {
    c.Blocks? && kind in c.types
  }

  /** A prompt, a tool's result, or a request just sent: the model owes an answer. */
  predicate AsksModel(r: Record) {
    r.kind == "user" || r.kind == "api-request"
  }

  predicate CallsTool(r: Record) {
    r.kind == "assistant" && HasBlock(r.content, "tool_use")
  }

  predicate OnlySpeaks(r: Record) {
    r.kind == "assistant" && !HasBlock(r.content, "tool_use")
    && (HasBlock(r.content, "text") || (r.content.TextContent? && r.content.text != ""))
  }

  predicate Speaks(r: Record) {
    AsksModel(r) || CallsTool(r) || OnlySpeaks(r)
  }

  predicate SaysPhase(r: Record, phase: Phase) {
    match phase
    case AwaitingModel => AsksModel(r)
    case ExecutingTool => CallsTool(r)
    case Idle => OnlySpeaks(r)
    case UnknownPhase => false
  }

  /** A line that carries a record that settles a phase. */
  ghost predicate SpeakingLine(line: string, decode: Decoder) {
    exists r :: Carries(line, decode, r) && Speaks(r)
  }

  ghost predicate Silent(lines: seq<string>, decode: Decoder) {
    forall j | 0 <= j < |lines| :: !SpeakingLine(lines[j], decode)
  }

  /** A line whose record has a time. */
  ghost predicate StampedLine(line: string, decode: Decoder, t: Time) {
    t != ZERO_TIME && exists r :: Carries(line, decode, r) && r.timestamp == Some(t)
  }

  /** The last of the lines that speak, if any does. */
  ghost predicate LastSpeaks(lines: seq<string>, decode: Decoder, i: nat, r: Record) {
    && i < |lines| && Carries(lines[i], decode, r) && Speaks(r)
    && forall j | i < j < |lines| :: !SpeakingLine(lines[j], decode)
  }

  /** The time of the last line past the `from`-th that has one; the zero time if none has. */
  ghost predicate LastWrite(lines: seq<string>, decode: Decoder, from: int, t: Time) {
    if t == ZERO_TIME then forall j, u | from < j < |lines| && 0 <= j :: !StampedLine(lines[j], decode, u)
    else
      exists k ::
        && from < k < |lines| && 0 <= k && StampedLine(lines[k], decode, t)
        && forall j, u | k < j < |lines| :: !StampedLine(lines[j], decode, u)
  }

  /** What the last speaking record and the last write after it come to. */
  predicate Answers(snap: Snapshot, r: Record, written: Time) {
    if r.timestamp.None? then snap == UNKNOWN
    else
      var t := r.timestamp.value;
      && snap.known && SaysPhase(r, snap.phase)
      && snap.lastProgressAt == (if written > t then written else t)
      && snap.lastAssistantMessageAt == (if r.kind == "assistant" then t else ZERO_TIME)
  }

  // ---- the records on a line

  lemma CarriesRecordOn(line: string, decode: Decoder, r: Record)
    ensures Carries(line, decode, r) <==> RecordOn(line, decode) == Some(r)
  {
    var t := TrimSpace(line);
    var a, b := TrimSpaceIs(line);
    if RecordOn(line, decode) == Some(r) {
      assert line == a + t + b && decode(t) == Some(r);
    }
    if Carries(line, decode, r) {
      var c, text, d :|
        && line == c + text + d && AllBlank(c) && AllBlank(d)
        && text != "" && !IsSpace(text[0]) && !IsSpace(text[|text| - 1])
        && decode(text) == Some(r);
      TrimSpaceOf(c, text, d);
    }
  }

  lemma SpeakingSettles(line: string, decode: Decoder)
    ensures SpeakingLine(line, decode) <==> Settles(line, decode).Some?
    ensures forall r | Settles(line, decode).Some? && Carries(line, decode, r) && Speaks(r) ::
              SaysPhase(r, Settles(line, decode).value)
  {
    forall r ensures Carries(line, decode, r) <==> RecordOn(line, decode) == Some(r) {
      CarriesRecordOn(line, decode, r);
    }
    hide Carries, RecordOn;
    if Settles(line, decode).Some? {
      assert Carries(line, decode, RecordOn(line, decode).value);
    }
  }

  lemma StampedIs(line: string, decode: Decoder, t: Time)
    ensures StampedLine(line, decode, t)
       <==> t != ZERO_TIME && RecordOn(line, decode).Some? && RecordOn(line, decode).value.timestamp == Some(t)
  {
    forall r ensures Carries(line, decode, r) <==> RecordOn(line, decode) == Some(r) {
      CarriesRecordOn(line, decode, r);
    }
    hide Carries, RecordOn;
    if RecordOn(line, decode).Some? {
      assert Carries(line, decode, RecordOn(line, decode).value) <==> true;
    }
  }

  // ---- the walk's answer

  /** What the walk remembers of the lines it has passed. */
  lemma PastIs(line: string, decode: Decoder, newest: Time)
    ensures (var past := WalkedPast(line, decode, newest);
             && (newest != ZERO_TIME ==> past == newest)
             && (newest == ZERO_TIME && past != ZERO_TIME ==> StampedLine(line, decode, past))
             && (newest == ZERO_TIME && past == ZERO_TIME && !SpeakingLine(line, decode) ==>
                   forall u :: !StampedLine(line, decode, u)))
  {
    SpeakingSettles(line, decode);
    forall u ensures StampedLine(line, decode, u)
                <==> u != ZERO_TIME && RecordOn(line, decode).Some? && RecordOn(line, decode).value.timestamp == Some(u)
    {
      StampedIs(line, decode, u);
    }
    hide StampedLine, SpeakingLine, RecordOn, Carries;
  }

  /** Passing one more line back keeps what is known of the writes. */
  lemma WriteBack(lines: seq<string>, decode: Decoder, n: nat, newest: Time)
    requires n < |lines| && !SpeakingLine(lines[n], decode) && LastWrite(lines, decode, n, newest)
    ensures LastWrite(lines, decode, n - 1, WalkedPast(lines[n], decode, newest))
  {
    PastIs(lines[n], decode, newest);
    hide WalkedPast, StampedLine, SpeakingLine;
    var past := WalkedPast(lines[n], decode, newest);
    if newest == ZERO_TIME && past != ZERO_TIME {
      assert StampedLine(lines[n], decode, past);
    }
  }

  /** The walk from the `n`-th line back, with the last write after it remembered. */
  lemma {:induction false} WalkAnswers(lines: seq<string>, decode: Decoder, n: nat, newest: Time)
    requires n <= |lines| && LastWrite(lines, decode, n - 1, newest)
    requires forall j | n <= j < |lines| :: !SpeakingLine(lines[j], decode)
    ensures forall i: nat, r | LastSpeaks(lines, decode, i, r) ::
              exists written :: LastWrite(lines, decode, i, written)
                  && Answers(Walk(lines[..n], decode, newest), r, written)
    ensures Silent(lines, decode) ==> Walk(lines[..n], decode, newest) == UNKNOWN
    decreases n
  {
    hide LastWrite, SpeakingLine, Answers, Settles, SnapshotOf, WalkedPast, RecordOn, Speaks, Carries;
    if n > 0 {
      var m := n - 1;
      assert lines[..n][..m] == lines[..m] && lines[..n][m] == lines[m];
      SpeakingSettles(lines[m], decode);
      if Settles(lines[m], decode).None? {
        WriteBack(lines, decode, m, newest);
        WalkAnswers(lines, decode, m, WalkedPast(lines[m], decode, newest));
      } else {
        forall i: nat, r | LastSpeaks(lines, decode, i, r)
          ensures exists written ::
                    LastWrite(lines, decode, i, written) && Answers(Walk(lines[..n], decode, newest), r, written)
        {
          OnlyLast(lines, decode, m, i, r);
          SettledAnswers(lines[m], decode, r, newest);
        }
      }
    } else {
      assert lines[..0] == [];
      forall i: nat, r | LastSpeaks(lines, decode, i, r) ensures false {
        Speaker(lines, decode, i, r);
      }
    }
  }

  lemma Speaker(lines: seq<string>, decode: Decoder, i: nat, r: Record)
    requires LastSpeaks(lines, decode, i, r)
    ensures SpeakingLine(lines[i], decode)
  {
  }

  lemma OnlyLast(lines: seq<string>, decode: Decoder, m: nat, i: nat, r: Record)
    requires m < |lines| && SpeakingLine(lines[m], decode) && forall j | m < j < |lines| ::
               !SpeakingLine(lines[j], decode)
    requires LastSpeaks(lines, decode, i, r)
    ensures i == m
  {
    Speaker(lines, decode, i, r);
  }

  lemma SettledAnswers(line: string, decode: Decoder, r: Record, newest: Time)
    requires Carries(line, decode, r) && Speaks(r) && Settles(line, decode).Some?
    ensures Answers(SnapshotOf(RecordOn(line, decode).value, Settles(line, decode).value, newest), r, newest)
  {
    CarriesRecordOn(line, decode, r);
    hide RecordOn, Carries;
  }

  /** The whole answer of a walk over lines. It is unknown if no line speaks or the
      last one that does has no time. Otherwise its phase is what that record says:
      the model owes an answer, a tool runs, or the agent has spoken and is idle; it
      is dated by that record or by the last line after it that has a time, whichever
      is later; and the last message is that record's if the agent wrote it. */
  lemma AnswerIs(lines: seq<string>, decode: Decoder)
    ensures forall i: nat, r | LastSpeaks(lines, decode, i, r) ::
              exists written :: LastWrite(lines, decode, i, written)
                  && Answers(Walk(lines, decode, ZERO_TIME), r, written)
    ensures Silent(lines, decode) ==> Walk(lines, decode, ZERO_TIME) == UNKNOWN
  {
    hide Walk, SpeakingLine, StampedLine, Answers;
    assert lines[..|lines|] == lines;
    WalkAnswers(lines, decode, |lines|, ZERO_TIME);
  }

  /** The last write is one time, so the answer is one. */
  lemma LastWriteUnique(lines: seq<string>, decode: Decoder, from: int, t: Time, u: Time)
    requires LastWrite(lines, decode, from, t) && LastWrite(lines, decode, from, u)
    ensures t == u
  {
    forall line, v, w | StampedLine(line, decode, v) && StampedLine(line, decode, w) ensures v == w {
      StampedIs(line, decode, v);
      StampedIs(line, decode, w);
    }
    hide StampedLine;
  }

  // ---- the lines a read sees

  function Joined(lines: seq<string>): string
    requires lines != []
  {
    if |lines| == 1 then lines[0] else lines[0] + "\n" + Joined(lines[1..])
  }

  /** The text's lines: without newlines, and the text again when newlines join them. */
  predicate LinesOf(text: string, lines: seq<string>) {
    lines != [] && Joined(lines) == text && forall i | 0 <= i < |lines| :: '\n' !in lines[i]
  }

  lemma {:induction false} SplitIs(text: string)
    ensures LinesOf(text, Lines(text))
  {
    if text != [] {
      SplitIs(text[1..]);
      var rest := Lines(text[1..]);
      assert text == [text[0]] + text[1..];
      if text[0] == '\n' {
        assert ([""] + rest)[1..] == rest;
      } else {
        var lines := [[text[0]] + rest[0]] + rest[1..];
        assert lines[1..] == rest[1..];
        assert forall i | 0 < i < |lines| :: lines[i] == rest[i];
      }
    }
  }

  /** What a read that started past the beginning leaves out: everything through the
      first newline from there on. */
  predicate DropsPartial(contents: string, offset: nat, rest: string) {
    exists n | offset <= n < |contents| ::
      contents[n] == '\n' && '\n' !in contents[offset..n] && rest == contents[n + 1..]
  }

  lemma {:induction false} IndexByteAt(s: string, c: char, n: nat)
    requires n < |s| && s[n] == c && c !in s[..n]
    ensures IndexByte(s, c) == Some(n)
  {
    if n > 0 {
      assert s[0] == s[..n][0];
      assert s[1..][..n - 1] == s[..n][1..];
      IndexByteAt(s[1..], c, n - 1);
    }
  }

  lemma TailIs(contents: string, offset: nat, rest: string, decode: Decoder)
    requires 0 < offset && DropsPartial(contents, offset, rest)
    ensures TailAnswer(contents, offset, decode) == Walk(Lines(rest), decode, ZERO_TIME)
  {
    hide Walk, Lines;
    var n :| offset <= n < |contents| && contents[n] == '\n' && '\n' !in contents[offset..n]
        && rest == contents[n + 1..];
    var data := contents[offset..];
    assert data[..n - offset] == contents[offset..n];
    IndexByteAt(data, '\n', n - offset);
    assert data[n - offset + 1..] == rest;
  }

  predicate NoNewline(contents: string, offset: nat) {
    forall i | offset <= i < |contents| :: contents[i] != '\n'
  }

  lemma NoLineLeft(contents: string, offset: nat, decode: Decoder)
    requires 0 < offset && NoNewline(contents, offset)
    ensures TailAnswer(contents, offset, decode) == UNKNOWN
  {
    var data := if offset <= |contents| then contents[offset..] else "";
    IndexByteIs(data, '\n');
    assert forall k | 0 <= k < |data| :: data[k] == contents[offset + k];
  }

  /** The text a read classifies: all of it, or of a transcript longer than the window
      what follows the first newline in the window; None when there is none. */
  ghost predicate Seen(r: Reading, text: Option<string>)
    requires r.Reading?
  {
    if r.size <= TAIL_SIZE then text == Some(r.contents)
    else if text.Some? then DropsPartial(r.contents, r.size - TAIL_SIZE, text.value)
    else NoNewline(r.contents, r.size - TAIL_SIZE)
  }

  /** What a read of the transcript says: nothing about the bytes when it failed or
      found no size, and otherwise what the lines it sees say. */
  lemma ReadSays(r: Reading, text: Option<string>, decode: Decoder)
    requires r.Reading? ==> Seen(r, text)
    ensures ReadAnswer(r, decode).None? <==> r.Failed? || r.size == 0
    ensures r.Reading? && r.size > 0 ==>
              (var snap := ReadAnswer(r, decode).value;
               && (text.None? ==> snap == UNKNOWN)
               && (text.Some? ==>
                     var lines := Lines(text.value);
                     && LinesOf(text.value, lines)
                     && (Silent(lines, decode) ==> snap == UNKNOWN)
                     && forall i: nat, last | LastSpeaks(lines, decode, i, last) ::
                          exists written :: LastWrite(lines, decode, i, written) && Answers(snap, last, written)))
  {
    hide Walk, Lines, LinesOf, LastSpeaks, LastWrite, Answers, SpeakingLine, DropsPartial;
    if r.Reading? && r.size > 0 {
      if text.Some? {
        SplitIs(text.value);
        AnswerIs(Lines(text.value), decode);
        if r.size > TAIL_SIZE {
          TailIs(r.contents, r.size - TAIL_SIZE, text.value, decode);
        } else {
          assert r.contents[0..] == r.contents;
        }
      } else {
        NoLineLeft(r.contents, r.size - TAIL_SIZE, decode);
      }
    }
  }

  lemma SpeaksOn(front: seq<string>, lines: seq<string>, decode: Decoder)
    requires !Silent(lines, decode)
    ensures Walk(front + lines, decode, ZERO_TIME) == Walk(lines, decode, ZERO_TIME)
  {
    hide Walk, SpeakingLine, Settles;
    var i :| 0 <= i < |lines| && SpeakingLine(lines[i], decode);
    SpeakingSettles(lines[i], decode);
    WalkMore(front, lines, decode, ZERO_TIME);
  }

  lemma WholeIs(contents: string, n: nat, decode: Decoder)
    requires n < |contents| && contents[n] == '\n' && !Silent(Lines(contents[n + 1..]), decode)
    ensures WholeAnswer(contents, decode) == Walk(Lines(contents[n + 1..]), decode, ZERO_TIME)
  {
    hide Walk, Lines, Silent;
    var front, rest := contents[..n], contents[n + 1..];
    assert contents == front + ['\n'] + rest;
    LinesJoin(front, rest);
    SpeaksOn(Lines(front), Lines(rest), decode);
  }

  /** A read that sees a line that speaks answers as the whole transcript does. */
  lemma SeenIsWhole(contents: string, offset: nat, rest: string, decode: Decoder)
    requires 0 < offset && DropsPartial(contents, offset, rest)
    requires !Silent(Lines(rest), decode)
    ensures TailAnswer(contents, offset, decode) == WholeAnswer(contents, decode)
  {
    TailIs(contents, offset, rest, decode);
    var n :| offset <= n < |contents| && contents[n] == '\n' && '\n' !in contents[offset..n]
        && rest == contents[n + 1..];
    hide *;
    WholeIs(contents, n, decode);
  }
}
