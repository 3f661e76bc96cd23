/** One repair session: bounded attempts, each followed by a wait for the pull
    request to settle. */
module RepairLoop {
  import opened Wrappers
  import opened RepairModel
  import opened RepairMonitor

  datatype PostStatus = Clean | Pending | NeedsWork | Undetermined

  datatype Assessment = Assessment(status: PostStatus, display: DisplayStatus, hasFailures: bool, headSHA: string,
                                   reviewFP: string, reviewFPOk: bool)

  /** What one attempt acts on; a fingerprint that could not be read is empty. */
  datatype LoopInput = LoopInput(display: DisplayStatus, hasFailures: bool, headSHA: string, reviewFP: string,
                                 reviewFPOk: bool) {
    predicate Valid() {
      !reviewFPOk ==> reviewFP == ""
    }
  }

  datatype Seen = Seen(display: DisplayStatus, hasFailures: bool, headSHA: string, changesRequested: bool)

  predicate UnresolvedFeedback(display: DisplayStatus, changesRequested: bool) {
    display == Rejected || ((display == Verifying || display == NeedsHuman) && changesRequested)
  }

  function NoAnswer(status: PostStatus): Assessment {
    Assessment(status, Unspecified, false, "", "", false)
  }

  function AssessPostRepairStatus(session: Option<Seen>): Assessment {
    if session.None? then NoAnswer(Undetermined)
    else
      var s := session.value;
      var status :=
        if UnresolvedFeedback(s.display, s.changesRequested) then NeedsWork
        else
          match s.display
          case Checking => Pending
          case Passing => Clean
          case Approved => Clean
          case Review => Clean
          case Verifying => Clean
          case NeedsHuman => Clean
          case Failing => NeedsWork
          case Conflict => NeedsWork
          case Idle => Clean
          case Draft => Clean
          case Merged => Clean
          case Closed => Clean
          case _ => Undetermined;
      Assessment(status, s.display, s.hasFailures, s.headSHA, "", false)
  }

  /** A green pull request with review comments it did not have before needs work again. */
  function WithReviewComparison(a: Assessment, previous: LoopInput): Assessment {
    if previous.reviewFPOk && a.reviewFPOk && previous.reviewFP != a.reviewFP && a.reviewFP != "" then
      a.(status := NeedsWork)
    else a
  }

  predicate PostRepairInputChanged(cur: LoopInput, a: Assessment) {
    || a.display != cur.display
    || a.hasFailures != cur.hasFailures
    || (a.headSHA != "" && a.headSHA != cur.headSHA)
    || a.reviewFPOk != cur.reviewFPOk
    || (a.reviewFPOk && a.reviewFP != cur.reviewFP)
  }

  /** What the next attempt would act on. */
  function NextInput(cur: LoopInput, a: Assessment): LoopInput {
    LoopInput(a.display, a.hasFailures, if a.headSHA != "" then a.headSHA else cur.headSHA, a.reviewFP, a.reviewFPOk)
  }

  /** The comparison is exact: an input counts as changed if and only if the next
      attempt would act on something else. */
  lemma ChangedIsDifferent(cur: LoopInput, a: Assessment)
    requires cur.Valid() && (!a.reviewFPOk ==> a.reviewFP == "")
    ensures PostRepairInputChanged(cur, a) <==> NextInput(cur, a) != cur
  {
  }

  // ---- the wait

  /** One turn of the wait: the context is done, the list failed, or it answered. */
  datatype Poll = Cancelled | ListFailed | Listed(session: Option<Seen>, fingerprint: Option<string>)

  /** What one poll says, with the review comments fetched once the checks have settled. */
  function Assess(p: Poll, cur: LoopInput): Assessment {
    match p
    case Cancelled => NoAnswer(Undetermined)
    case ListFailed => NoAnswer(Undetermined)
    case Listed(session, fingerprint) =>
      var a := AssessPostRepairStatus(session);
      if a.status != Clean && a.status != NeedsWork then a
      else
        var b := a.(reviewFP := if fingerprint.Some? then fingerprint.value else "", reviewFPOk := fingerprint.Some?);
        if b.status == Clean then WithReviewComparison(b, cur) else b
  }

  predicate Decisive(p: Poll, cur: LoopInput) {
    var a := Assess(p, cur);
    a.status == Clean || a.status == Undetermined || (a.status == NeedsWork && PostRepairInputChanged(cur, a))
  }

  /** The first decisive poll's answer; Pending when time runs out before one. */
  function Waited(polls: seq<Poll>, cur: LoopInput): Assessment {
    if polls == [] then NoAnswer(Pending)
    else if Decisive(polls[0], cur) then Assess(polls[0], cur)
    else Waited(polls[1..], cur)
  }

  method WaitForPostRepairAssessment(polls: seq<Poll>, cur: LoopInput) returns (a: Assessment)
    ensures a == Waited(polls, cur)
  {
    var i := 0;
    while i < |polls|
      invariant i <= |polls|
      invariant Waited(polls, cur) == Waited(polls[i..], cur)
    {
      var p := polls[i];
      assert polls[i..][0] == p && polls[i..][1..] == polls[i + 1..];
      if p.Cancelled? || p.ListFailed? {
        return NoAnswer(Undetermined);
      }
      a := AssessPostRepairStatus(p.session);
      if a.status == Clean || a.status == NeedsWork {
        a := a.(reviewFP := if p.fingerprint.Some? then p.fingerprint.value else "", reviewFPOk := p.fingerprint.Some?);
        if a.status == Clean {
          a := WithReviewComparison(a, cur);
        }
      }
      if a.status == Clean || a.status == Undetermined {
        return;
      }
      if a.status == NeedsWork && PostRepairInputChanged(cur, a) {
        return;
      }
      i := i + 1;
    }
    return NoAnswer(Pending);
  }

  /** The wait asks for another repair only on an input that changed. */
  lemma {:induction false} NeedsWorkChanged(polls: seq<Poll>, cur: LoopInput)
    ensures Waited(polls, cur).status == NeedsWork ==> PostRepairInputChanged(cur, Waited(polls, cur))
    ensures !Waited(polls, cur).reviewFPOk ==> Waited(polls, cur).reviewFP == ""
  {
    if polls != [] && !Decisive(polls[0], cur) {
      NeedsWorkChanged(polls[1..], cur);
    }
  }

  predicate SettledClean(s: Seen) {
    s.display in {Passing, Approved, Review, Verifying, NeedsHuman, Idle, Draft, Merged, Closed}
        && !UnresolvedFeedback(s.display, s.changesRequested)
  }

  /** It reports a clean pull request exactly when the first decisive poll shows one
      that holds no open feedback and no comments the attempt had not seen. */
  lemma {:induction false} CleanMeans(polls: seq<Poll>, cur: LoopInput)
    ensures Waited(polls, cur).status == Clean <==>
            exists k :: 0 <= k < |polls| && (forall j | 0 <= j < k :: !Decisive(polls[j], cur))
                && ShowsClean(polls[k], cur)
  {
    if polls == [] {
    } else if Decisive(polls[0], cur) {
      ShowsCleanDecides(polls[0], cur);
      if k :| 0 <= k < |polls| && (forall j | 0 <= j < k :: !Decisive(polls[j], cur)) && ShowsClean(polls[k], cur) {
        assert k == 0;
      }
    } else {
      CleanMeans(polls[1..], cur);
      ShowsCleanDecides(polls[0], cur);
      if k :| 0 <= k < |polls| && (forall j | 0 <= j < k :: !Decisive(polls[j], cur)) && ShowsClean(polls[k], cur) {
        assert k > 0 && polls[1..][k - 1] == polls[k];
        assert forall j | 0 <= j < k - 1 :: polls[1..][j] == polls[j + 1];
      }
      if k :|
          && 0 <= k < |polls[1..]| && (forall j | 0 <= j < k :: !Decisive(polls[1..][j], cur))
          && ShowsClean(polls[1..][k], cur)
      {
        assert forall j | 0 < j < k + 1 :: polls[j] == polls[1..][j - 1];
        assert ShowsClean(polls[k + 1], cur);
      }
    }
  }

  predicate ShowsClean(p: Poll, cur: LoopInput) {
    && p.Listed? && p.session.Some? && SettledClean(p.session.value)
    && (cur.reviewFPOk && p.fingerprint.Some? ==> p.fingerprint.value in {cur.reviewFP, ""})
  }

  lemma ShowsCleanDecides(p: Poll, cur: LoopInput)
    ensures ShowsClean(p, cur) <==> Assess(p, cur).status == Clean
  {
  }

  // ---- the session

  /** What the loop meets around one attempt: the workflow's flags as it reads them
      before, the host's answers to the attempt, and the polls of the wait after it. */
  datatype Turn = Turn(stopped: bool, paused: bool, host: AttemptHost, polls: seq<Poll>)

  datatype Exit = Halted | AttemptFailed | WasClean | Unchanged | OutOfAttempts | NotSettled | Unsure

  /** An attempt's input, and the earlier run it resumes, if any. */
  datatype Attempt = Attempt(input: LoopInput, resume: string)

  /** The attempts made, whether any of them took the lease, and how the loop ended. */
  datatype Session = Session(attempts: seq<Attempt>, tookLease: bool, exit: Exit)

  /** The session over the turns left. */
  function SessionFrom(turns: seq<Turn>, cur: Attempt): Session
    requires turns != []
    decreases |turns|, 0
  {
    var turn := turns[0];
    if turn.stopped || turn.paused then Session([], false, Halted)
    else
      var r := Answer(turn.host);
      if !r.ok then Session([cur], r.tookLease, AttemptFailed)
      else AfterTurn(turns[1..], cur, r, Waited(turn.polls, cur.input))
  }

  /** The session once an attempt was assessed. */
  function AfterTurn(rest: seq<Turn>, cur: Attempt, r: AttemptResult, a: Assessment): Session
    decreases |rest|, 1
  {
    match a.status
    case Clean => Session([cur], r.tookLease, WasClean)
    case Pending => Session([cur], r.tookLease, NotSettled)
    case Undetermined => Session([cur], r.tookLease, Unsure)
    case NeedsWork =>
      if !PostRepairInputChanged(cur.input, a) then Session([cur], r.tookLease, Unchanged)
      else if rest == [] then Session([cur], r.tookLease, OutOfAttempts)
      else Onto([cur], r.tookLease, SessionFrom(rest, Attempt(NextInput(cur.input, a), r.resume)))
  }

  /** A session with more attempts in front. */
  function Onto(attempts: seq<Attempt>, tookLease: bool, s: Session): Session {
    Session(attempts + s.attempts, tookLease || s.tookLease, s.exit)
  }

  /** What an attempt is recorded with. */
  function RecordedInput(input: LoopInput, baseSHA: string): RepairInput {
    RepairInput(input.headSHA, input.display, input.reviewFP, input.reviewFPOk,
        AttemptBaseSHA(input.display, baseSHA), false)
  }

  /** What a session's attempts leave of the monitor. */
  function AttemptsOn(m: State, id: string, baseSHA: string, turns: seq<Turn>, attempts: seq<Attempt>): State
    requires |attempts| <= |turns|
  {
    if attempts == [] then m
    else
      var n := |attempts| - 1;
      AttemptStep(AttemptsOn(m, id, baseSHA, turns, attempts[..n]), id, RecordedInput(attempts[n].input, baseSHA),
          turns[n].host).0
  }

  lemma AttemptsMore(m: State, id: string, baseSHA: string, turns: seq<Turn>, attempts: seq<Attempt>, cur: Attempt)
    requires |attempts| < |turns|
    ensures AttemptsOn(m, id, baseSHA, turns, attempts + [cur])
         == AttemptStep(AttemptsOn(m, id, baseSHA, turns, attempts), id, RecordedInput(cur.input, baseSHA),
             turns[|attempts|].host).0
  {
    assert (attempts + [cur])[..|attempts|] == attempts;
  }

  /** The bounded loop: every attempt resumes the one before it, they share one
      lease flag, and the mark is deleted last, whichever way the loop ends. */
  method RepairSession(m: Monitor, id: string, baseSHA: string, turns: seq<Turn>, initial: LoopInput)
    returns (attempts: seq<Attempt>, repairFlagSet: bool, exit: Exit)
    requires |turns| == MAX_ATTEMPTS && initial.Valid()
    modifies m
    ensures Session(attempts, repairFlagSet, exit) == SessionFrom(turns, Attempt(initial, ""))
    ensures |attempts| <= |turns|
    ensures (var t := AttemptsOn(old(m.View()), id, baseSHA, turns, attempts);
            m.View() == t.(repairing := t.repairing - {id}))
  {
    hide Waited, PostRepairInputChanged, NextInput, SessionFrom, AfterTurn, AttemptStep, AttemptsOn, RecordedInput,
        Answer, Onto;
    ghost var was, whole := m.View(), SessionFrom(turns, Attempt(initial, ""));
    AttemptsNone(was, id, baseSHA, turns);
    OntoNothing(whole);
    var cur := Attempt(initial, "");
    attempts, repairFlagSet := [], false;
    var attempt := 1;
    assert turns[0..] == turns;
    while true
      invariant 1 <= attempt <= MAX_ATTEMPTS && |attempts| == attempt - 1 && cur.input.Valid()
      invariant m.View() == AttemptsOn(was, id, baseSHA, turns, attempts)
      invariant whole == Onto(attempts, repairFlagSet, SessionFrom(turns[attempt - 1..], cur))
      decreases MAX_ATTEMPTS - attempt
    {
      var turn := turns[attempt - 1];
      assert turns[attempt - 1..] == [turn] + turns[attempt..];
      TurnOutcome(whole, attempts, repairFlagSet, turn, turns[attempt..], cur);
      if turn.stopped || turn.paused {
        exit := Halted;
        break;
      }
      AttemptsMore(was, id, baseSHA, turns, attempts, cur);
      StepAnswer(AttemptsOn(was, id, baseSHA, turns, attempts), id, RecordedInput(cur.input, baseSHA), turn.host);
      attempts := attempts + [cur];
      var r := m.RunRepairAttempt(id, RecordedInput(cur.input, baseSHA), turn.host);
      repairFlagSet := repairFlagSet || r.tookLease;
      if !r.ok {
        exit := AttemptFailed;
        break;
      }
      var a := WaitForPostRepairAssessment(turn.polls, cur.input);
      if a.status == Clean {
        exit := WasClean;
        break;
      }
      if a.status == Pending {
        exit := NotSettled;
        break;
      }
      if a.status == Undetermined {
        exit := Unsure;
        break;
      }
      if !PostRepairInputChanged(cur.input, a) {
        exit := Unchanged;
        break;
      }
      if attempt == MAX_ATTEMPTS {
        exit := OutOfAttempts;
        break;
      }
      NeedsWorkChanged(turn.polls, cur.input);
      NextValid(cur.input, a);
      cur := Attempt(NextInput(cur.input, a), r.resume);
      attempt := attempt + 1;
    }
    m.FinishSession(id);
  }

  lemma StepAnswer(m: State, id: string, input: RepairInput, h: AttemptHost)
    ensures AttemptStep(m, id, input, h).1 == Answer(h)
  {
  }

  lemma AttemptsNone(m: State, id: string, baseSHA: string, turns: seq<Turn>)
    ensures AttemptsOn(m, id, baseSHA, turns, []) == m
  {
  }

  lemma OntoNothing(s: Session)
    ensures Onto([], false, s) == s
  {
  }

  lemma SessionTurn(turn: Turn, rest: seq<Turn>, cur: Attempt)
    ensures SessionFrom([turn] + rest, cur)
         == if turn.stopped || turn.paused then Session([], false, Halted)
            else if !Answer(turn.host).ok then Session([cur], Answer(turn.host).tookLease, AttemptFailed)
            else AfterTurn(rest, cur, Answer(turn.host), Waited(turn.polls, cur.input))
  {
    hide AfterTurn, Waited, Answer;
    assert ([turn] + rest)[1..] == rest;
  }

  lemma OntoTwice(before: seq<Attempt>, flag: bool, cur: Attempt, took: bool, s: Session)
    ensures Onto(before, flag, Onto([cur], took, s)) == Onto(before + [cur], flag || took, s)
  {
    assert before + ([cur] + s.attempts) == before + [cur] + s.attempts;
  }

  /** What a session comes to once one more turn has been played. */
  lemma TurnOutcome(whole: Session, before: seq<Attempt>, flag: bool, turn: Turn, rest: seq<Turn>, cur: Attempt)
    requires whole == Onto(before, flag, SessionFrom([turn] + rest, cur))
    ensures turn.stopped || turn.paused ==> whole == Session(before, flag, Halted)
    ensures !turn.stopped && !turn.paused ==>
              (var r, a := Answer(turn.host), Waited(turn.polls, cur.input);
               var done, took := before + [cur], flag || r.tookLease;
               if !r.ok then whole == Session(done, took, AttemptFailed)
               else
                 match a.status
                 case Clean => whole == Session(done, took, WasClean)
                 case Pending => whole == Session(done, took, NotSettled)
                 case Undetermined => whole == Session(done, took, Unsure)
                 case NeedsWork =>
                   if !PostRepairInputChanged(cur.input, a) then whole == Session(done, took, Unchanged)
                   else if rest == [] then whole == Session(done, took, OutOfAttempts)
                   else whole == Onto(done, took, SessionFrom(rest, Attempt(NextInput(cur.input, a), r.resume))))
  {
    hide SessionFrom, Waited, Answer, PostRepairInputChanged, NextInput;
    SessionTurn(turn, rest, cur);
    if rest != [] {
      var r, a := Answer(turn.host), Waited(turn.polls, cur.input);
      OntoTwice(before, flag, cur, r.tookLease, SessionFrom(rest, Attempt(NextInput(cur.input, a), r.resume)));
    }
  }

  lemma NextValid(cur: LoopInput, a: Assessment)
    requires !a.reviewFPOk ==> a.reviewFP == ""
    ensures NextInput(cur, a).Valid()
  {
  }

  /** No attempt is idle: each acts on an input that differs from the one before it,
      and the loop's own exit for an unchanged input is never taken. Each resumes
      the run before it, the first none. */
  lemma {:induction false} NoIdleAttempt(turns: seq<Turn>, cur: Attempt)
    requires turns != [] && cur.input.Valid()
    ensures (var s := SessionFrom(turns, cur);
             && |s.attempts| <= |turns|
             && (s.attempts != [] ==> s.attempts[0] == cur)
             && (forall i | 0 <= i < |s.attempts| :: s.attempts[i].input.Valid())
             && (forall i | 0 <= i < |s.attempts| - 1 ::
                   && s.attempts[i + 1].input != s.attempts[i].input
                   && Answer(turns[i].host).ok && s.attempts[i + 1].resume == Answer(turns[i].host).resume)
             && s.exit != Unchanged)
    decreases |turns|
  {
    var turn := turns[0];
    var r := Answer(turn.host);
    var a := Waited(turn.polls, cur.input);
    NeedsWorkChanged(turn.polls, cur.input);
    ChangedIsDifferent(cur.input, a);
    hide Waited, PostRepairInputChanged, Answer;
    if !turn.stopped && !turn.paused && r.ok && a.status == NeedsWork && PostRepairInputChanged(cur.input, a)
        && |turns| > 1 {
      NoIdleAttempt(turns[1..], Attempt(NextInput(cur.input, a), r.resume));
    }
  }

  /** The session holds the lease exactly when one of its attempts took it. */
  lemma {:induction false} LeaseTaken(turns: seq<Turn>, cur: Attempt)
    requires turns != [] && cur.input.Valid()
    ensures (var s := SessionFrom(turns, cur);
             |s.attempts| <= |turns|
                 && (s.tookLease <==> exists i :: 0 <= i < |s.attempts| && Answer(turns[i].host).tookLease))
    decreases |turns|
  {
    var turn := turns[0];
    var r := Answer(turn.host);
    var a := Waited(turn.polls, cur.input);
    NeedsWorkChanged(turn.polls, cur.input);
    hide Waited, PostRepairInputChanged, Answer;
    var s := SessionFrom(turns, cur);
    if !turn.stopped && !turn.paused && r.ok && a.status == NeedsWork && PostRepairInputChanged(cur.input, a)
        && |turns| > 1 {
      var next := Attempt(NextInput(cur.input, a), r.resume);
      LeaseTaken(turns[1..], next);
      var t := SessionFrom(turns[1..], next);
      if i :| 0 <= i < |t.attempts| && Answer(turns[1..][i].host).tookLease {
        assert Answer(turns[i + 1].host).tookLease;
      }
      if i :| 0 < i < |s.attempts| && Answer(turns[i].host).tookLease {
        assert Answer(turns[1..][i - 1].host).tookLease;
      }
    }
  }

  /** An attempt that ran, with the workflow running, and was followed by a wait that asked for another. */
  predicate Asked(t: Turn, input: LoopInput) {
    !t.stopped && !t.paused && Answer(t.host).ok && Waited(t.polls, input).status == NeedsWork
  }

  ghost predicate AllAsked(turns: seq<Turn>, attempts: seq<Attempt>) {
    |attempts| == |turns| && forall i | 0 <= i < |turns| :: Asked(turns[i], attempts[i].input)
  }

  lemma AllAskedCons(turns: seq<Turn>, attempts: seq<Attempt>)
    requires turns != [] && attempts != []
    ensures AllAsked(turns, attempts) <==> Asked(turns[0], attempts[0].input) && AllAsked(turns[1..], attempts[1..])
  {
    hide Asked;
    if Asked(turns[0], attempts[0].input) && AllAsked(turns[1..], attempts[1..]) {
      forall i | 0 <= i < |turns| ensures Asked(turns[i], attempts[i].input) {
        if i > 0 {
          assert Asked(turns[1..][i - 1], attempts[1..][i - 1].input);
        }
      }
    }
    if AllAsked(turns, attempts) {
      forall i | 0 <= i < |turns[1..]| ensures Asked(turns[1..][i], attempts[1..][i].input) {
        assert Asked(turns[i + 1], attempts[i + 1].input);
      }
    }
  }

  /** The loop runs out of attempts exactly when every one of them asked for another. */
  lemma {:induction false} OutOfAttemptsMeans(turns: seq<Turn>, cur: Attempt)
    requires turns != [] && cur.input.Valid()
    ensures SessionFrom(turns, cur).exit == OutOfAttempts <==> AllAsked(turns, SessionFrom(turns, cur).attempts)
    decreases |turns|
  {
    var s := SessionFrom(turns, cur);
    var a := Waited(turns[0].polls, cur.input);
    NeedsWorkChanged(turns[0].polls, cur.input);
    if s.attempts != [] {
      NoIdleAttempt(turns, cur);
      AllAskedCons(turns, s.attempts);
    }
    hide Waited, PostRepairInputChanged, AllAsked, Answer;
    if Asked(turns[0], cur.input) && |turns| > 1 {
      var next := Attempt(NextInput(cur.input, a), Answer(turns[0].host).resume);
      OutOfAttemptsMeans(turns[1..], next);
      assert s.attempts[1..] == SessionFrom(turns[1..], next).attempts;
    } else {
      ShortAsked(turns, s.attempts);
    }
  }

  lemma ShortAsked(turns: seq<Turn>, attempts: seq<Attempt>)
    ensures |attempts| != |turns| ==> !AllAsked(turns, attempts)
    ensures turns == [] && attempts == [] ==> AllAsked(turns, attempts)
  {
  }
}
