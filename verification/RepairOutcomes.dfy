/** What an attempt, the wait after it and a whole repair session come to, told from
    the host's answers and the polls alone. */
module RepairOutcomes {
  import opened Wrappers
  import opened Calendar
  import opened RepairBackoff
  import opened RepairModel
  import opened RepairMonitor
  import opened RepairLoop

  // ---- one attempt

  /** A stale chat was in the way and the host gave it up, so the start was made again. */
  predicate StartedOver(h: AttemptHost) {
    h.start == ChatExists(true) && h.reclaim == Reclaimed
  }

  /** The host's last word on starting the run. */
  function LastStart(h: AttemptHost): Start {
    if StartedOver(h) then h.again else h.start
  }

  predicate Runs(h: AttemptHost) {
    LastStart(h).Started?
  }

  /** The daemon would not have it: the start, or the reclaim before it. */
  predicate TurnedDown(h: AttemptHost) {
    LastStart(h).Precondition? || (h.start == ChatExists(true) && h.reclaim == ReclaimPrecondition)
  }

  predicate RanCleanly(h: AttemptHost) {
    Runs(h) && h.wait.CleanExit?
  }

  /** Which lane each attempt is recorded in, whether it went well, what it is resumed
      as, when it held the lease, and when its fix is reported. */
  lemma AnswerMeans(h: AttemptHost)
    ensures (var r := Answer(h);
             && (r.ok <==> RanCleanly(h))
             && (r.lane == CleanLane <==> RanCleanly(h))
             && (r.lane == ExitErrorLane <==> Runs(h) && h.wait.Exited?)
             && (r.lane == RunnerErrorLane <==> LastStart(h).StartError? || (Runs(h) && h.wait.WaitError?))
             && (r.lane == BlockedLane <==> TurnedDown(h))
             && (r.tookLease <==> Runs(h) && h.leaseOk)
             && (r.fixed <==> RanCleanly(h) && h.state == Some(FixingChecks))
             && r.resume == (if !RanCleanly(h) then "" else if h.provider == "" then h.agent else h.provider))
  {
  }

  /** The run got as far as acting on its input: it ended by itself, or with an error
      that is not the sort to be tried again. */
  predicate Acted(h: AttemptHost) {
    Runs(h) && (h.wait.CleanExit? || h.wait == Exited(false))
  }

  /** Nothing but this session's records differs. */
  predicate OnlyOf(s: State, t: State, id: string) {
    && t.stopped == s.stopped && t.paused == s.paused && t.config == s.config && t.repairing == s.repairing
    && t.cooldowns - {id} == s.cooldowns - {id} && t.lastAttempt - {id} == s.lastAttempt - {id}
    && t.refusals - {id} == s.refusals - {id} && t.baseMoves - {id} == s.baseMoves - {id}
  }

  lemma OwnershipIs(h: AttemptHost)
    ensures StartOwnership(h) == Owned <==> Runs(h)
    ensures StartOwnership(h) == Refused <==> TurnedDown(h)
  {
  }

  lemma SetElsewhere<V>(m: map<string, V>, id: string, v: V)
    ensures m[id := v] - {id} == m - {id} && m - {id} - {id} == m - {id}
  {
  }

  lemma Recorded(s: State, id: string, input: RepairInput, ran: bool, now: Time)
    ensures (var t := RecordAttempt(ClearRefusals(s, id), id, true, ran, input, now);
             && OnlyOf(s, t, id) && t.baseMoves == s.baseMoves
             && id !in t.refusals && id in t.cooldowns && t.cooldowns[id] == now
             && t.Last(id) == (if !ran || input.headSHA == "" then s.Last(id)
                               else RepairInput(input.headSHA, input.status,
                                                if input.reviewFPOk then input.reviewFP else s.Last(id).reviewFP,
                                                false, input.baseSHA, false)))
  {
    SetElsewhere(s.cooldowns, id, now);
    var t := RecordAttempt(ClearRefusals(s, id), id, true, ran, input, now);
    if ran && input.headSHA != "" {
      SetElsewhere(s.lastAttempt, id, t.lastAttempt[id]);
    }
  }

  /** A run that started leaves no refusals and cools the session down from its end; it
      is remembered as the attempt on its input exactly if it acted on one, and with the
      comments known before if it could not read them. */
  lemma RunLeaves(s: State, id: string, input: RepairInput, h: AttemptHost)
    requires Runs(h)
    ensures (var t := AttemptStep(s, id, input, h).0;
             && OnlyOf(s, t, id) && t.baseMoves == s.baseMoves
             && id !in t.refusals && id in t.cooldowns && t.cooldowns[id] == h.ended
             && t.Last(id) == (if !Acted(h) || input.headSHA == "" then s.Last(id)
                               else RepairInput(input.headSHA, input.status,
                                                if input.reviewFPOk then input.reviewFP else s.Last(id).reviewFP,
                                                false, input.baseSHA, false)))
  {
    OwnershipIs(h);
    Recorded(s, id, input, AttemptRan(h.wait), h.ended);
    assert AttemptRan(h.wait) <==> Acted(h);
    hide StartOwnership, RecordAttempt, ClearRefusals, OnlyOf, Answer, AttemptRan, Acted, Runs, State.Last;
  }

  /** The refusals in a row on one head, this one counted. */
  function RefusedBefore(s: State, id: string, headSHA: string): nat {
    if s.Refusals(id).headSHA == headSHA then s.Refusals(id).count else 0
  }

  /** Five or more on a known head, spread over half an hour, or one after a hand-over was due. */
  predicate HandOverDue(s: State, id: string, headSHA: string, now: Time) {
    RefusedBefore(s, id, headSHA) > 0 &&
    var was := s.Refusals(id);
    was.escalated || (headSHA != "" && was.count >= 4 && now - was.first >= 30 * MINUTE)
  }

  lemma CountedIs(s: State, id: string, headSHA: string, now: Time)
    ensures (var u, n := NoteRefusal(s.Refusals(id), headSHA, now), RefusedBefore(s, id, headSHA);
             && u.headSHA == headSHA && u.count == n + 1 && (u.escalated <==> HandOverDue(s, id, headSHA, now))
             && u.first == (if n == 0 then now else s.Refusals(id).first)
             && u.blocked == (n > 0 && s.Refusals(id).blocked))
  {
    hide State.Refusals;
  }

  lemma HandedOver(t: State, id: string, recoverable: bool, ok: bool, now: Time)
    ensures (var u := AfterBlock(t, id, recoverable, ok, now);
             && OnlyOf(t, u, id) && u.lastAttempt == t.lastAttempt
             && u.baseMoves == (if ok then t.baseMoves - {id} else t.baseMoves)
             && u.cooldowns == (if ok then t.cooldowns else t.cooldowns[id := now])
             && u.refusals == (if !ok then t.refusals
                               else if recoverable then t.refusals[id := t.Refusals(id).(blocked := true)]
                               else t.refusals - {id}))
  {
    SetElsewhere(t.cooldowns, id, now);
    SetElsewhere(t.refusals, id, t.Refusals(id).(blocked := true));
    hide State.Refusals;
  }

  lemma RefusedLeaves(s: State, id: string, headSHA: string, recoverable: bool, blockOk: bool, now: Time)
    ensures (var t, due := Refuse(NoteCooldown(s, id, now), id, headSHA, now), HandOverDue(s, id, headSHA, now);
             var u := if t.Refusals(id).escalated then AfterBlock(t, id, recoverable, blockOk, now) else t;
             && OnlyOf(s, u, id) && u.lastAttempt == s.lastAttempt
             && id in u.cooldowns && u.cooldowns[id] == now
             && u.baseMoves == (if due && blockOk then s.baseMoves - {id} else s.baseMoves)
             && (id !in u.refusals <==> due && blockOk && !recoverable)
             && (id in u.refusals ==>
                 (var n, v := RefusedBefore(s, id, headSHA), u.Refusals(id);
                  && v.headSHA == headSHA && v.count == n + 1 && (v.escalated <==> due)
                  && v.first == (if n == 0 then now else s.Refusals(id).first)
                  && v.blocked == ((n > 0 && s.Refusals(id).blocked) || (due && blockOk)))))
  {
    var t := Refuse(NoteCooldown(s, id, now), id, headSHA, now);
    CountedIs(s, id, headSHA, now);
    assert NoteCooldown(s, id, now).Refusals(id) == s.Refusals(id);
    SetElsewhere(s.cooldowns, id, now);
    SetElsewhere(s.refusals, id, t.refusals[id]);
    HandedOver(t, id, recoverable, blockOk, now);
    hide NoteRefusal, HandOverDue, RefusedBefore, AfterBlock;
  }

  /** A start that was turned down cools the session down and counts one more refusal;
      it is handed over exactly if that is due, and if the host will not take it then
      the refusals stand. */
  lemma RefusalLeaves(s: State, id: string, input: RepairInput, h: AttemptHost)
    requires TurnedDown(h)
    ensures (var t, due := AttemptStep(s, id, input, h).0, HandOverDue(s, id, input.headSHA, h.refused);
             && OnlyOf(s, t, id) && t.lastAttempt == s.lastAttempt
             && id in t.cooldowns && t.cooldowns[id] == h.refused
             && t.baseMoves == (if due && h.blockOk then s.baseMoves - {id} else s.baseMoves)
             && (id !in t.refusals <==>
                 due && h.blockOk && StartBlockOf(input.headSHA, input.baseSHA).None?)
             && (id in t.refusals ==>
                 (var n, u := RefusedBefore(s, id, input.headSHA), t.Refusals(id);
                  && u.headSHA == input.headSHA && u.count == n + 1 && (u.escalated <==> due)
                  && u.first == (if n == 0 then h.refused else s.Refusals(id).first)
                  && u.blocked == ((n > 0 && s.Refusals(id).blocked) || (due && h.blockOk)))))
  {
    OwnershipIs(h);
    RefusedLeaves(s, id, input.headSHA, StartBlockOf(input.headSHA, input.baseSHA).Some?, h.blockOk, h.refused);
    hide StartBlockOf, StartOwnership, HandOverDue, RefusedBefore, AfterBlock, Refuse, NoteCooldown, OnlyOf, Answer,
         TurnedDown, State.Refusals;
  }

  /** Any other attempt leaves nothing at all. */
  lemma LostLeavesNothing(s: State, id: string, input: RepairInput, h: AttemptHost)
    requires !Runs(h) && !TurnedDown(h)
    ensures AttemptStep(s, id, input, h).0 == s
  {
  }

  // ---- the wait

  predicate Shows(p: Poll) {
    p.Listed? && p.session.Some?
  }

  /** Work for another attempt, from the status alone. */
  predicate Broken(s: Seen) {
    s.display in {Failing, Conflict, Rejected} || (s.display in {Verifying, NeedsHuman} && s.changesRequested)
  }

  predicate Running(s: Seen) {
    s.display == Checking
  }

  predicate Unreadable(s: Seen) {
    s.display in {DisplayStatus.Unspecified, Unrecognized}
  }

  /** Review comments were read that were not there when the attempt began. */
  predicate NewComments(p: Poll, cur: LoopInput)
    requires Shows(p)
  {
    cur.reviewFPOk && p.fingerprint.Some? && p.fingerprint.value !in {"", cur.reviewFP}
  }

  predicate WantsWork(p: Poll, cur: LoopInput)
    requires Shows(p)
  {
    var s := p.session.value;
    Broken(s) || (!Running(s) && !Unreadable(s) && NewComments(p, cur))
  }

  /** What an attempt after this poll would act on. */
  function ActsOn(p: Poll, cur: LoopInput): LoopInput
    requires Shows(p)
  {
    var s := p.session.value;
    LoopInput(s.display, s.hasFailures, if s.headSHA != "" then s.headSHA else cur.headSHA,
              if p.fingerprint.Some? then p.fingerprint.value else "", p.fingerprint.Some?)
  }

  /** Polls the wait goes on after: checks that run, or work for an attempt that would
      act on the very input of the one before. */
  predicate WaitsOn(p: Poll, cur: LoopInput) {
    Shows(p) && (Running(p.session.value) || (WantsWork(p, cur) && ActsOn(p, cur) == cur))
  }

  lemma AssessIs(p: Poll, cur: LoopInput)
    requires cur.Valid()
    ensures Decisive(p, cur) <==> !WaitsOn(p, cur)
    ensures (var a := Assess(p, cur);
             && (a.status == Clean <==>
                 Shows(p) && !Running(p.session.value) && !Unreadable(p.session.value) && !WantsWork(p, cur))
             && (a.status == NeedsWork <==> Shows(p) && WantsWork(p, cur))
             && (a.status == Undetermined <==> !Shows(p) || Unreadable(p.session.value))
             && (a.status == NeedsWork ==> NextInput(cur, a) == ActsOn(p, cur)))
  {
  }

  /** The first poll the wait does not go on after. */
  predicate StopsAt(polls: seq<Poll>, cur: LoopInput, k: int) {
    0 <= k < |polls| && !WaitsOn(polls[k], cur) && forall i | 0 <= i < k :: WaitsOn(polls[i], cur)
  }

  /** What a poll that ends the wait makes of it. */
  predicate Reports(p: Poll, cur: LoopInput, a: Assessment) {
    && a.status != Pending
    && (a.status == Undetermined <==> !Shows(p) || Unreadable(p.session.value))
    && (a.status == NeedsWork <==> Shows(p) && WantsWork(p, cur))
    && (a.status == NeedsWork ==> NextInput(cur, a) == ActsOn(p, cur) != cur)
  }

  lemma StopsLater(polls: seq<Poll>, cur: LoopInput, k: int)
    requires polls != [] && WaitsOn(polls[0], cur)
    ensures StopsAt(polls, cur, k) <==> StopsAt(polls[1..], cur, k - 1)
  {
    hide WaitsOn;
    var rest := polls[1..];
    if StopsAt(polls, cur, k) {
      assert k > 0 && rest[k - 1] == polls[k];
      assert forall i | 0 <= i < k - 1 :: rest[i] == polls[i + 1];
    }
    if StopsAt(rest, cur, k - 1) {
      assert forall i | 0 < i < k :: polls[i] == rest[i - 1];
    }
  }

  lemma Reported(p: Poll, cur: LoopInput)
    requires cur.Valid() && !WaitsOn(p, cur)
    ensures Decisive(p, cur) && Reports(p, cur, Assess(p, cur))
  {
    AssessIs(p, cur);
    hide Assess, Decisive, NextInput, NewComments, Broken;
  }

  /** The wait stops at the first poll it does not go on after, and says what that poll
      shows; it ends with the checks unsettled exactly if there is none. */
  lemma {:induction false} WaitMeans(polls: seq<Poll>, cur: LoopInput)
    requires cur.Valid()
    ensures Waited(polls, cur).status == Pending <==> forall i | 0 <= i < |polls| :: WaitsOn(polls[i], cur)
    ensures forall k | StopsAt(polls, cur, k) :: Reports(polls[k], cur, Waited(polls, cur))
    decreases |polls|
  {
    hide Assess, WaitsOn, Reports, Decisive;
    if polls != [] {
      if WaitsOn(polls[0], cur) {
        AssessIs(polls[0], cur);
        WaitMeans(polls[1..], cur);
        forall k | StopsAt(polls, cur, k) ensures Reports(polls[k], cur, Waited(polls, cur)) {
          StopsLater(polls, cur, k);
          assert polls[1..][k - 1] == polls[k];
        }
        AllWait(polls, cur);
      } else {
        Reported(polls[0], cur);
        ReportsSettled(polls[0], cur, Assess(polls[0], cur));
        assert forall k | StopsAt(polls, cur, k) :: k == 0;
      }
    }
  }

  lemma ReportsSettled(p: Poll, cur: LoopInput, a: Assessment)
    requires Reports(p, cur, a)
    ensures a.status != Pending
  {
  }

  lemma AllWait(polls: seq<Poll>, cur: LoopInput)
    requires polls != [] && WaitsOn(polls[0], cur)
    ensures (forall i | 0 <= i < |polls| :: WaitsOn(polls[i], cur))
       <==> forall i | 0 <= i < |polls[1..]| :: WaitsOn(polls[1..][i], cur)
  {
    hide WaitsOn;
    var rest := polls[1..];
    assert forall i | 0 < i < |polls| :: polls[i] == rest[i - 1];
    if forall i | 0 <= i < |polls| :: WaitsOn(polls[i], cur) {
      assert forall i | 0 <= i < |rest| :: rest[i] == polls[i + 1];
    }
  }

  // ---- the session

  predicate Halts(t: Turn) {
    t.stopped || t.paused
  }

  /** The wait ended at a poll that asks for another attempt. */
  ghost predicate AsksAgain(t: Turn, input: LoopInput) {
    exists k :: StopsAt(t.polls, input, k) && Shows(t.polls[k]) && WantsWork(t.polls[k], input)
  }

  /** The next attempt acts on what the poll that asked for it shows, and goes on from this run. */
  ghost predicate LeadsTo(t: Turn, was: Attempt, next: Attempt) {
    && !Halts(t) && RanCleanly(t.host)
    && next.resume == (if t.host.provider == "" then t.host.agent else t.host.provider)
    && exists k ::
         && StopsAt(t.polls, was.input, k) && Shows(t.polls[k]) && WantsWork(t.polls[k], was.input)
         && next.input == ActsOn(t.polls[k], was.input)
  }

  ghost predicate ShowsSettled(t: Turn, input: LoopInput) {
    exists k ::
      && StopsAt(t.polls, input, k) && Shows(t.polls[k])
      && !WantsWork(t.polls[k], input) && !Unreadable(t.polls[k].session.value)
  }

  ghost predicate ShowsNothing(t: Turn, input: LoopInput) {
    exists k :: StopsAt(t.polls, input, k) && (!Shows(t.polls[k]) || Unreadable(t.polls[k].session.value))
  }

  predicate NeverStops(t: Turn, input: LoopInput) {
    forall i | 0 <= i < |t.polls| :: WaitsOn(t.polls[i], input)
  }

  /** Why the loop ended with this attempt; `last` says it was the last one allowed. */
  ghost predicate EndsWith(exit: Exit, t: Turn, input: LoopInput, last: bool) {
    !Halts(t) &&
    match exit
    case AttemptFailed => !RanCleanly(t.host)
    case WasClean => RanCleanly(t.host) && ShowsSettled(t, input)
    case Unsure => RanCleanly(t.host) && ShowsNothing(t, input)
    case NotSettled => RanCleanly(t.host) && NeverStops(t, input)
    case OutOfAttempts => RanCleanly(t.host) && AsksAgain(t, input) && last
    case _ => false
  }

  /** How a session went, turn by turn: the flags let every attempt begin, each but the
      last led to the next, and the last one, or a flag, ended it. */
  ghost predicate WentAs(turns: seq<Turn>, first: Attempt, s: Session) {
    var n := |s.attempts|;
    && n <= |turns| && (n > 0 ==> s.attempts[0] == first)
    && (forall i | 0 <= i < n - 1 :: LeadsTo(turns[i], s.attempts[i], s.attempts[i + 1]))
    && (if s.exit == Halted then
          n < |turns| && Halts(turns[n]) && (n > 0 ==> Goes(turns[n - 1], s.attempts[n - 1].input))
        else n > 0 && EndsWith(s.exit, turns[n - 1], s.attempts[n - 1].input, n == |turns|))
    && (s.tookLease <==> exists i :: 0 <= i < n && Leased(turns[i]))
  }

  ghost predicate Goes(t: Turn, input: LoopInput) {
    !Halts(t) && RanCleanly(t.host) && AsksAgain(t, input)
  }

  predicate Leased(t: Turn) {
    Runs(t.host) && t.host.leaseOk
  }

  // ---- step by step

  lemma {:induction false} SomeStops(polls: seq<Poll>, cur: LoopInput) returns (k: int)
    requires !forall i | 0 <= i < |polls| :: WaitsOn(polls[i], cur)
    ensures StopsAt(polls, cur, k)
  {
    hide WaitsOn;
    if !WaitsOn(polls[0], cur) {
      k := 0;
    } else {
      AllWait(polls, cur);
      var j := SomeStops(polls[1..], cur);
      StopsLater(polls, cur, j + 1);
      k := j + 1;
    }
  }

  /** One turn: what the wait answers tells how the loop goes on. */
  lemma TurnMeans(t: Turn, cur: Attempt)
    requires cur.input.Valid()
    ensures (var a := Waited(t.polls, cur.input);
             && (a.status == Clean ==> ShowsSettled(t, cur.input))
             && (a.status == Undetermined ==> ShowsNothing(t, cur.input))
             && (a.status == Pending ==> NeverStops(t, cur.input))
             && (a.status == NeedsWork ==>
                 && AsksAgain(t, cur.input) && PostRepairInputChanged(cur.input, a) && NextInput(cur.input, a).Valid()
                 && (!Halts(t) && Answer(t.host).ok ==>
                     LeadsTo(t, cur, Attempt(NextInput(cur.input, a), Answer(t.host).resume)))))
  {
    var a := Waited(t.polls, cur.input);
    WaitMeans(t.polls, cur.input);
    NeedsWorkChanged(t.polls, cur.input);
    AnswerMeans(t.host);
    hide Waited, WaitsOn, WantsWork, Shows, Unreadable, PostRepairInputChanged, NextInput, ActsOn, Answer, RanCleanly,
         StopsAt;
    if a.status != Pending {
      var k := SomeStops(t.polls, cur.input);
      assert Reports(t.polls[k], cur.input, a);
      InRange(t.polls, cur.input, k);
    }
    if a.status == NeedsWork {
      NextValid(cur.input, a);
    }
  }

  lemma InRange(polls: seq<Poll>, cur: LoopInput, k: int)
    requires StopsAt(polls, cur, k)
    ensures 0 <= k < |polls|
  {
  }

  lemma OneTurn(turns: seq<Turn>, cur: Attempt, s: Session)
    requires turns != []
    requires if s.exit == Halted then Halts(turns[0]) && s.attempts == [] && !s.tookLease
             else s.attempts == [cur] && EndsWith(s.exit, turns[0], cur.input, |turns| == 1)
                  && (s.tookLease <==> Leased(turns[0]))
    ensures WentAs(turns, cur, s)
  {
    hide Halts, EndsWith, Leased, Goes, LeadsTo;
  }

  lemma LeasedLater(turns: seq<Turn>, n: nat)
    requires turns != [] && n < |turns|
    ensures (exists i :: 0 <= i < n + 1 && Leased(turns[i]))
       <==> Leased(turns[0]) || exists i :: 0 <= i < n && Leased(turns[1..][i])
  {
    hide Leased;
    var rest := turns[1..];
    if i :| 0 <= i < n && Leased(rest[i]) {
      assert Leased(turns[i + 1]);
    }
    if i :| 0 < i < n + 1 && Leased(turns[i]) {
      assert Leased(rest[i - 1]);
    }
  }

  lemma LeadsLater(turns: seq<Turn>, cur: Attempt, more: seq<Attempt>)
    requires turns != [] && |more| < |turns| && (more != [] ==> LeadsTo(turns[0], cur, more[0]))
    requires forall i | 0 <= i < |more| - 1 :: LeadsTo(turns[1..][i], more[i], more[i + 1])
    ensures (var all := [cur] + more; forall i | 0 <= i < |all| - 1 :: LeadsTo(turns[i], all[i], all[i + 1]))
  {
    hide LeadsTo;
    var all := [cur] + more;
    forall i | 0 <= i < |all| - 1 ensures LeadsTo(turns[i], all[i], all[i + 1]) {
      if i > 0 {
        assert turns[1..][i - 1] == turns[i] && all[i] == more[i - 1];
      }
    }
  }

  lemma MoreTurns(turns: seq<Turn>, cur: Attempt, next: Attempt, took: bool, s: Session)
    requires turns != [] && WentAs(turns[1..], next, s) && LeadsTo(turns[0], cur, next) && Goes(turns[0], cur.input)
    requires took <==> Leased(turns[0])
    ensures WentAs(turns, cur, Onto([cur], took, s))
  {
    hide Halts, EndsWith, Leased, Goes, LeadsTo;
    var rest, t := turns[1..], Onto([cur], took, s);
    var n := |s.attempts|;
    LeasedLater(turns, n);
    LeadsLater(turns, cur, s.attempts);
    assert t.attempts == [cur] + s.attempts && t.exit == s.exit;
    if n > 0 {
      assert t.attempts[n] == s.attempts[n - 1] && turns[n] == rest[n - 1];
    }
  }

  /** Every session goes as `WentAs` says. */
  lemma {:induction false} SessionMeans(turns: seq<Turn>, cur: Attempt)
    requires turns != [] && cur.input.Valid()
    ensures WentAs(turns, cur, SessionFrom(turns, cur))
    decreases |turns|
  {
    hide *;
    var turn, rest := turns[0], turns[1..];
    var r, a := Answer(turn.host), Waited(turn.polls, cur.input);
    var s := SessionFrom(turns, cur);
    assert turns == [turn] + rest;
    SessionTurn(turn, rest, cur);
    TurnMeans(turn, cur);
    if turn.stopped || turn.paused || !r.ok || a.status != NeedsWork || rest == [] {
      LastTurn(turn, cur, |rest| == 0, s, rest);
      OneTurn(turns, cur, s);
    } else {
      var next := Attempt(NextInput(cur.input, a), r.resume);
      Continues(turn, rest, cur);
      SessionMeans(rest, next);
      MoreTurns(turns, cur, next, r.tookLease, SessionFrom(rest, next));
    }
  }

  lemma Continues(turn: Turn, rest: seq<Turn>, cur: Attempt)
    requires cur.input.Valid() && rest != [] && !turn.stopped && !turn.paused && Answer(turn.host).ok
    requires Waited(turn.polls, cur.input).status == NeedsWork
    ensures (var r, a := Answer(turn.host), Waited(turn.polls, cur.input);
             var next := Attempt(NextInput(cur.input, a), r.resume);
             && AfterTurn(rest, cur, r, a) == Onto([cur], r.tookLease, SessionFrom(rest, next))
             && Goes(turn, cur.input) && LeadsTo(turn, cur, next) && (r.tookLease <==> Leased(turn))
             && next.input.Valid())
  {
    hide SessionFrom, Waited, PostRepairInputChanged, NextInput, Answer, RanCleanly, AsksAgain, LeadsTo, Onto, Runs;
    TurnMeans(turn, cur);
    AnswerMeans(turn.host);
  }

  lemma LastTurn(turn: Turn, cur: Attempt, last: bool, s: Session, rest: seq<Turn>)
    requires cur.input.Valid() && last == (rest == [])
    requires (var r, a := Answer(turn.host), Waited(turn.polls, cur.input);
              && (turn.stopped || turn.paused || !r.ok || a.status != NeedsWork || last)
              && s == (if turn.stopped || turn.paused then Session([], false, Halted)
                       else if !r.ok then Session([cur], r.tookLease, AttemptFailed)
                       else AfterTurn(rest, cur, r, a)))
    ensures if s.exit == Halted then Halts(turn) && s.attempts == [] && !s.tookLease
            else s.attempts == [cur] && EndsWith(s.exit, turn, cur.input, last) && (s.tookLease <==> Leased(turn))
  {
    hide SessionFrom, Waited, PostRepairInputChanged, NextInput, Answer, RanCleanly, AsksAgain, LeadsTo, ShowsSettled,
         ShowsNothing, NeverStops, Onto, Runs;
    TurnMeans(turn, cur);
    AnswerMeans(turn.host);
  }
}
