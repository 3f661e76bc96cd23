/** What the entries bossd keeps do: which call wrote each of them last, and the
    command line it holds. */
module HookCommands {
  import opened Wrappers
  import opened HookLists
  import opened HookConfig
  import opened HookRuns

  // ---- the command line

  predicate AllDigits(s: string) {
    forall i | 0 <= i < |s| :: '0' <= s[i] <= '9'
  }

  function NumberOf(s: string): nat
    requires AllDigits(s)
  {
    if s == "" then 0 else 10 * NumberOf(s[..|s| - 1]) + (s[|s| - 1] - '0') as nat
  }

  /** The number in decimal, with no zero in front. */
  predicate Writes(s: string, n: nat) {
    s != "" && AllDigits(s) && NumberOf(s) == n && (s[0] == '0' ==> n < 10)
  }

  /** A call of curl: whether it gives up after five seconds and fails on an error, or
      after two and says nothing; the token it presents, if any; whether it passes on
      what it is told as JSON; and where on this machine it posts to. */
  ghost predicate Curls(command: string, strict: bool, token: string, json: bool, port: nat, path: string) {
    exists digits :: Writes(digits, port) && command == Line(strict, token, json, digits, path)
  }

  function Line(strict: bool, token: string, json: bool, digits: string, path: string): string {
    (if strict then "curl -sf --max-time 5 -X POST " else "curl -s --max-time 2 -X POST ")
    + (if token == "" then "" else "-H \"Authorization: Bearer " + token + "\" ")
    + (if json then "-H \"Content-Type: application/json\" " + "--data-binary @- " else "")
    + "http://127.0.0.1:" + digits + "/hooks/" + path
    + if strict then "" else " >/dev/null 2>&1 || true"
  }

  lemma Flat(x: string, h: string, d: string, k: string, p: string, t: string)
    ensures x + (h + d) + (k + p) + t == x + h + d + k + p + t
  {
  }

  lemma NothingMore(x: string)
    ensures x + "" == x
  {
  }

  /** A group under this matcher with this one command. */
  ghost predicate Does(e: Entry, matcher: string, strict: bool, token: string, json: bool, port: nat, path: string) {
    e.Group? && e.matcher == matcher && |e.commands| == 1 && e.rest == 0
    && Curls(e.commands[0], strict, token, json, port, path)
  }

  lemma {:induction false} DecimalWrites(n: nat)
    ensures Writes(Decimal(n), n)
  {
    if n >= 10 {
      DecimalWrites(n / 10);
      var d := ('0' as int + n % 10) as char;
      assert Decimal(n)[..|Decimal(n)| - 1] == Decimal(n / 10) && (d - '0') as nat == n % 10;
      assert Decimal(n)[0] == Decimal(n / 10)[0];
    } else {
      assert Decimal(n)[..0] == "";
    }
  }

  lemma StopDoes(matcher: string, path: string, token: string, port: nat)
    requires token != ""
    ensures Does(StopEntry(matcher, HOOKS + path, token, port), matcher, true, token, false, port, path)
  {
    DecimalWrites(port);
    hide Decimal, Writes;
    var x := "curl -sf --max-time 5 -X POST " + Bearer(token);
    NothingMore(x);
    Flat(x, "http://127.0.0.1:", Decimal(port), HOOKS, path, "");
    assert StopEntry(matcher, HOOKS + path, token, port).commands[0] == Line(true, token, false, Decimal(port), path);
  }

  lemma NotificationDoes(path: string, token: string, port: nat)
    requires token != ""
    ensures Does(NotificationEntry(HOOKS + path, token, port), "", true, token, true, port, path)
  {
    DecimalWrites(port);
    hide Decimal, Writes;
    var x := "curl -sf --max-time 5 -X POST " + Bearer(token) + JSON_BODY;
    Flat(x, "http://127.0.0.1:", Decimal(port), HOOKS, path, "");
    assert NotificationEntry(HOOKS + path, token, port).commands[0] == Line(true, token, true, Decimal(port), path);
  }

  lemma TurnDoes(path: string, token: string, port: nat)
    requires token != ""
    ensures Does(TurnEndedEntry(HOOKS + path, token, port), "", false, token, true, port, path)
  {
    DecimalWrites(port);
    hide Decimal, Writes;
    var x := "curl -s --max-time 2 -X POST " + Bearer(token) + JSON_BODY;
    Flat(x, "http://127.0.0.1:", Decimal(port), HOOKS, path, QUIETLY);
    assert TurnEndedEntry(HOOKS + path, token, port).commands[0] == Line(false, token, true, Decimal(port), path);
  }

  lemma PromptDoes(path: string, token: string, port: nat)
    ensures Does(PromptEntry(HOOKS + path, token, port), "", false, token, true, port, path)
  {
    DecimalWrites(port);
    hide Decimal, Writes;
    var x := "curl -s --max-time 2 -X POST " + (if token == "" then "" else Bearer(token)) + JSON_BODY;
    Flat(x, "http://127.0.0.1:", Decimal(port), HOOKS, path, QUIETLY);
    assert PromptEntry(HOOKS + path, token, port).commands[0] == Line(false, token, true, Decimal(port), path);
  }
  // ---- who wrote what is kept

  predicate WritesFinalize(op: Op) {
    op.Write? && op.agent == ""
  }

  predicate WritesRun(op: Op) {
    op.Write? && op.agent != ""
  }

  /** The last call that wrote the finalize entry; nothing removes it. */
  ghost predicate LastFinalize(ops: seq<Op>, k: int) {
    0 <= k < |ops| && WritesFinalize(ops[k]) && forall j | k < j < |ops| :: !WritesFinalize(ops[j])
  }

  /** The last call that wrote a chat's run entry and question entry, that chat not removed since. */
  ghost predicate LastRun(ops: seq<Op>, k: int) {
    && 0 <= k < |ops| && WritesRun(ops[k])
    && forall j | k < j < |ops| :: !WritesRun(ops[j]) && ops[j] != Remove(ops[k].agent)
  }

  /** The last submit, that chat not removed since. */
  ghost predicate LastPrompt(ops: seq<Op>, k: int) {
    && 0 <= k < |ops| && ops[k].Submit?
    && forall j | k < j < |ops| :: !ops[j].Submit? && ops[j] != Remove(ops[k].agent)
  }

  ghost predicate FinalizeTold(ops: seq<Op>, r: Registry) {
    && (r.finalize.Some? <==> exists k :: LastFinalize(ops, k))
    && forall k | LastFinalize(ops, k) :: r.finalize.Some? && FinalizeDoes(ops[k], r.finalize.value)
  }

  ghost predicate FinalizeDoes(op: Op, e: Entry)
    requires op.Write?
  {
    Does(e, "bossd-finalize", true, op.token, false, op.port, "finalize/" + op.session)
  }

  ghost predicate RunTold(ops: seq<Op>, r: Registry) {
    && (r.run.Some? <==> exists k :: LastRun(ops, k)) && (r.question.Some? <==> r.run.Some?)
    && forall k | LastRun(ops, k) ::
         r.run.Some? && r.question.Some? && RunDoes(ops[k], r.run.value, r.question.value)
  }

  ghost predicate RunDoes(op: Op, run: Owned, question: Owned)
    requires op.Write?
  {
    && run.id == question.id == op.agent
    && Does(run.entry, "bossd-agent-run-" + op.agent, true, op.token, false, op.port, "agent-run-complete/" + op.agent)
    && Does(question.entry, "", true, op.token, true, op.port, "question/" + op.agent)
  }

  ghost predicate PromptTold(ops: seq<Op>, r: Registry) {
    && (r.prompt.Some? <==> exists k :: LastPrompt(ops, k))
    && forall k | LastPrompt(ops, k) :: r.prompt.Some? && PromptTells(ops[k], r.prompt.value)
  }

  ghost predicate PromptTells(op: Op, o: Owned)
    requires op.Submit?
  {
    o.id == op.agent && Does(o.entry, "", false, op.token, true, op.port, "prompt-submitted/" + op.agent)
  }

  ghost predicate TurnTold(ops: seq<Op>, o: Owned) {
    exists k ::
      && 0 <= k < |ops| && ops[k].Submit? && ops[k].token != "" && ops[k].agent == o.id
      && (forall j | k < j < |ops| && ops[j].Submit? && ops[j].token != "" :: ops[j].agent != o.id)
      && Does(o.entry, "", false, ops[k].token, true, ops[k].port, "turn-ended/" + o.id)
  }

  /** Every entry of bossd's is that of its last write, and does what that write asked for. */
  ghost predicate Told(ops: seq<Op>, r: Registry) {
    FinalizeTold(ops, r) && RunTold(ops, r) && PromptTold(ops, r)
    && forall i | 0 <= i < |r.turns| :: TurnTold(ops, r.turns[i])
  }

  // ---- one more call

  lemma FinalizeLater(ops: seq<Op>, op: Op, k: int)
    ensures LastFinalize(ops + [op], k)
       <==> if WritesFinalize(op) then k == |ops| else LastFinalize(ops, k)
  {
    var all := ops + [op];
    assert all[|ops|] == op && forall j | 0 <= j < |ops| :: all[j] == ops[j];
  }

  lemma RunLater(ops: seq<Op>, op: Op, k: int)
    ensures LastRun(ops + [op], k)
       <==> if WritesRun(op) then k == |ops| else LastRun(ops, k) && op != Remove(ops[k].agent)
  {
    var all := ops + [op];
    assert all[|ops|] == op && forall j | 0 <= j < |ops| :: all[j] == ops[j];
  }

  lemma PromptLater(ops: seq<Op>, op: Op, k: int)
    ensures LastPrompt(ops + [op], k)
       <==> if op.Submit? then k == |ops| else LastPrompt(ops, k) && op != Remove(ops[k].agent)
  {
    var all := ops + [op];
    assert all[|ops|] == op && forall j | 0 <= j < |ops| :: all[j] == ops[j];
  }

  lemma FinalizeStep(ops: seq<Op>, op: Op, r: Registry)
    requires FinalizeTold(ops, r) && (op.Write? ==> op.token != "")
    ensures FinalizeTold(ops + [op], Track(r, op))
  {
    var all, t := ops + [op], Track(r, op);
    assert all[|ops|] == op && forall j | 0 <= j < |ops| :: all[j] == ops[j];
    if WritesFinalize(op) {
      StopDoes(FINALIZE_MATCHER, FINALIZE + op.session, op.token, op.port);
      assert HOOKS + (FINALIZE + op.session) == HookURL(op.session, "") && HookMatcher("") == FINALIZE_MATCHER;
      hide Does, StopEntry, HookURL, HookMatcher, NotificationEntry, PromptEntry, TurnOf;
      FinalizeLater(ops, op, |ops|);
      assert LastFinalize(all, |ops|);
    }
    hide Does, StopEntry, HookURL, HookMatcher, NotificationEntry, PromptEntry, TurnOf, LastFinalize;
    forall k ensures LastFinalize(all, k) <==> if WritesFinalize(op) then k == |ops| else LastFinalize(ops, k) {
      FinalizeLater(ops, op, k);
    }
  }

  lemma RunWritten(op: Op)
    requires WritesRun(op) && op.token != ""
    ensures (var t := Track(NOTHING, op); t.run.Some? && t.question.Some? && RunDoes(op, t.run.value, t.question.value))
  {
    var a := op.agent;
    StopDoes(RUN_PREFIX + a, RUN_COMPLETE + a, op.token, op.port);
    NotificationDoes(QUESTION + a, op.token, op.port);
    assert HOOKS + (RUN_COMPLETE + a) == HookURL(op.session, a) && HookMatcher(a) == RUN_PREFIX + a;
    assert HOOKS + (QUESTION + a) == HOOKS + QUESTION + a;
    hide Does, StopEntry, NotificationEntry;
  }

  lemma RunKept(r: Registry, op: Op)
    requires !WritesRun(op)
    ensures (var t := Track(r, op);
             && t.run == (if op.Remove? then Unless(r.run, op.agent) else r.run)
             && t.question == (if op.Remove? then Unless(r.question, op.agent) else r.question))
  {
    hide StopEntry, HookURL, HookMatcher, NotificationEntry, PromptEntry, TurnOf;
  }

  lemma RunPut(r: Registry, op: Op)
    requires WritesRun(op)
    ensures Track(r, op).run == Track(NOTHING, op).run && Track(r, op).question == Track(NOTHING, op).question
  {
  }

  lemma LastRunIs(ops: seq<Op>, k: int)
    requires LastRun(ops, k)
    ensures 0 <= k < |ops| && WritesRun(ops[k])
  {
  }

  lemma RunWrittenStep(ops: seq<Op>, op: Op, r: Registry)
    requires WritesRun(op) && op.token != ""
    ensures RunTold(ops + [op], Track(r, op))
  {
    hide Does, LastRun, Track, RunDoes;
    var all, n := ops + [op], |ops|;
    assert all[n] == op;
    RunWritten(op);
    RunPut(r, op);
    RunLater(ops, op, n);
    assert LastRun(all, n);
    forall k | LastRun(all, k) ensures k == n {
      RunLater(ops, op, k);
    }
  }

  lemma RunKeptStep(ops: seq<Op>, op: Op, r: Registry)
    requires RunTold(ops, r) && !WritesRun(op)
    ensures RunTold(ops + [op], Track(r, op))
  {
    hide Does, LastRun, Track;
    var all, t := ops + [op], Track(r, op);
    RunKept(r, op);
    forall k | LastRun(all, k)
      ensures LastRun(ops, k) && 0 <= k < |ops| && all[k] == ops[k] && op != Remove(ops[k].agent)
    {
      RunLater(ops, op, k);
      LastRunIs(ops, k);
    }
    if r.run.Some? {
      var k :| LastRun(ops, k);
      LastRunIs(ops, k);
      assert RunDoes(ops[k], r.run.value, r.question.value);
      RunLater(ops, op, k);
      if op != Remove(ops[k].agent) {
        assert LastRun(all, k);
      }
    }
  }

  lemma RunStep(ops: seq<Op>, op: Op, r: Registry)
    requires RunTold(ops, r) && (op.Write? ==> op.token != "")
    ensures RunTold(ops + [op], Track(r, op))
  {
    hide RunTold, Track;
    if WritesRun(op) {
      RunWrittenStep(ops, op, r);
    } else {
      RunKeptStep(ops, op, r);
    }
  }

  lemma PromptKept(r: Registry, op: Op)
    requires !op.Submit?
    ensures Track(r, op).prompt == if op.Remove? then Unless(r.prompt, op.agent) else r.prompt
  {
    hide StopEntry, HookURL, HookMatcher, NotificationEntry;
  }

  lemma PromptWritten(r: Registry, op: Op)
    requires op.Submit?
    ensures (var t := Track(r, op); t.prompt.Some? && PromptTells(op, t.prompt.value))
  {
    PromptDoes(PROMPT_SUBMITTED + op.agent, op.token, op.port);
    assert HOOKS + (PROMPT_SUBMITTED + op.agent) == HOOKS + PROMPT_SUBMITTED + op.agent;
    hide Does, PromptEntry, TurnOf;
  }

  lemma LastPromptIs(ops: seq<Op>, k: int)
    requires LastPrompt(ops, k)
    ensures 0 <= k < |ops| && ops[k].Submit?
  {
  }

  lemma PromptWrittenStep(ops: seq<Op>, op: Op, r: Registry)
    requires op.Submit?
    ensures PromptTold(ops + [op], Track(r, op))
  {
    hide LastPrompt, Track, PromptTells;
    var all, n := ops + [op], |ops|;
    assert all[n] == op;
    PromptWritten(r, op);
    PromptLater(ops, op, n);
    assert LastPrompt(all, n);
    forall k | LastPrompt(all, k) ensures k == n {
      PromptLater(ops, op, k);
    }
  }

  lemma PromptKeptStep(ops: seq<Op>, op: Op, r: Registry)
    requires PromptTold(ops, r) && !op.Submit?
    ensures PromptTold(ops + [op], Track(r, op))
  {
    hide Does, LastPrompt, Track;
    var all := ops + [op];
    PromptKept(r, op);
    forall k | LastPrompt(all, k)
      ensures LastPrompt(ops, k) && 0 <= k < |ops| && all[k] == ops[k] && op != Remove(ops[k].agent)
    {
      PromptLater(ops, op, k);
      LastPromptIs(ops, k);
    }
    if r.prompt.Some? {
      var k :| LastPrompt(ops, k);
      LastPromptIs(ops, k);
      assert PromptTells(ops[k], r.prompt.value);
      PromptLater(ops, op, k);
      if op != Remove(ops[k].agent) {
        assert LastPrompt(all, k);
      }
    }
  }

  lemma PromptStep(ops: seq<Op>, op: Op, r: Registry)
    requires PromptTold(ops, r)
    ensures PromptTold(ops + [op], Track(r, op))
  {
    hide PromptTold, Track;
    if op.Submit? {
      PromptWrittenStep(ops, op, r);
    } else {
      PromptKeptStep(ops, op, r);
    }
  }

  lemma TurnLater(ops: seq<Op>, op: Op, o: Owned)
    requires TurnTold(ops, o) && !(op.Submit? && op.token != "" && op.agent == o.id)
    ensures TurnTold(ops + [op], o)
  {
    hide Does;
    var all := ops + [op];
    assert all[|ops|] == op && forall j | 0 <= j < |ops| :: all[j] == ops[j];
  }

  lemma TurnNow(ops: seq<Op>, op: Op)
    requires op.Submit? && op.token != ""
    ensures TurnTold(ops + [op], TurnOf(op.agent, op.token, op.port))
  {
    TurnDoes(TURN_ENDED + op.agent, op.token, op.port);
    assert HOOKS + (TURN_ENDED + op.agent) == HOOKS + TURN_ENDED + op.agent;
    hide Does, TurnEndedEntry;
    assert (ops + [op])[|ops|] == op;
  }

  lemma TurnsStep(ops: seq<Op>, op: Op, r: Registry)
    requires forall i | 0 <= i < |r.turns| :: TurnTold(ops, r.turns[i])
    ensures (var t := Track(r, op); forall i | 0 <= i < |t.turns| :: TurnTold(ops + [op], t.turns[i]))
  {
    var t := Track(r, op);
    hide TurnTold, TurnOf;
    if op.Submit? && op.token != "" {
      var kept, o := Keep(r.turns, Other(op.agent)), TurnOf(op.agent, op.token, op.port);
      TurnNow(ops, op);
      forall i | 0 <= i < |t.turns| ensures TurnTold(ops + [op], t.turns[i]) {
        var x := t.turns[i];
        assert x in kept + [o];
        if x != o {
          KeepIs(r.turns, Other(op.agent), x);
          TurnLater(ops, op, x);
        }
      }
    } else {
      forall i | 0 <= i < |t.turns| ensures TurnTold(ops + [op], t.turns[i]) {
        TurnLater(ops, op, r.turns[i]);
      }
    }
  }

  lemma NothingTold(ops: seq<Op>)
    requires ops == []
    ensures Told(ops, TrackAll(ops))
  {
    hide Does;
  }

  /** After any calls with tokens where a write needs one, each of bossd's entries is
      that of its last write, and does what that write asked for. */
  lemma {:induction false} EntriesTold(ops: seq<Op>)
    requires forall i | 0 <= i < |ops| && ops[i].Write? :: ops[i].token != ""
    ensures Told(ops, TrackAll(ops))
  {
    hide FinalizeTold, RunTold, PromptTold, TurnTold, Track;
    if ops == [] {
      NothingTold(ops);
    } else {
      var op, before := ops[|ops| - 1], ops[..|ops| - 1];
      EntriesTold(before);
      FinalizeStep(before, op, TrackAll(before));
      RunStep(before, op, TrackAll(before));
      PromptStep(before, op, TrackAll(before));
      TurnsStep(before, op, TrackAll(before));
      assert before + [op] == ops;
    }
  }
}
