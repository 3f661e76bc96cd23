/** What one call of MaybeRepair does, told from the row, the monitor and the
    host's answers alone: when it launches, and what lifting a start block leaves. */
module RepairCalls {
  import opened Wrappers
  import opened Calendar
  import opened Text
  import opened RepairBackoff
  import opened RepairModel
  import opened RepairMonitor

  // ---- which calls look at the row at all

  predicate CanBeRepaired(status: DisplayStatus) {
    status in {Failing, Conflict, Rejected}
  }

  predicate PastCooldown(s: State, id: string, now: Time) {
    id in s.cooldowns ==> now - s.cooldowns[id] >= BaseCooldown(s.config)
  }

  predicate Admitted(s: State, id: string, status: DisplayStatus, h: Host) {
    CanBeRepaired(status) && !s.stopped && !s.paused && id !in s.repairing && PastCooldown(s, id, h.admitted)
  }

  predicate MayBeRepaired(r: Row) {
    r.canAutoRepair && !r.verifyOnly
  }

  /** A session in one of the states in which repair makes sense: a conflict may also
      be repaired while it is being finalized. */
  predicate InRepairableState(r: Row, status: DisplayStatus) {
    r.state in {AwaitingChecks, FixingChecks, GreenDraft, ReadyForReview}
        || (r.state == Finalizing && status == Conflict)
  }

  // ---- a session that was handed over because its starts were refused

  predicate StartBlocked(r: Row) {
    MayBeRepaired(r) && r.state == Blocked && r.startBlock.Some?
  }

  /** The current key does not begin with the recorded one, letter case aside. */
  predicate Elsewhere(recorded: string, current: string) {
    && recorded != "" && current != ""
    && (|current| < |recorded| || exists i | 0 <= i < |recorded| :: SmallLetter(recorded[i]) != SmallLetter(current[i]))
  }

  /** The base the host reports for a failing or conflicted session, or nothing. */
  function HostBase(status: DisplayStatus, answer: Option<string>): string {
    if status in {Failing, Conflict} && answer.Some? then answer.value else ""
  }

  predicate HeadHasMoved(r: Row)
    requires StartBlocked(r)
  {
    Elsewhere(r.startBlock.value.headSHA, r.headSHA)
  }

  predicate BaseHasMoved(r: Row, status: DisplayStatus, h: Host)
    requires StartBlocked(r)
  {
    Elsewhere(r.startBlock.value.baseSHA, HostBase(status, h.blockBase))
  }

  predicate HasMoved(r: Row, status: DisplayStatus, h: Host)
    requires StartBlocked(r)
  {
    HeadHasMoved(r) || BaseHasMoved(r, status, h)
  }

  /** It has stood for a quarter of an hour. */
  predicate Stale(r: Row, h: Host) {
    r.blockedAt.Some? && h.evaluated - r.blockedAt.value >= 15 * MINUTE
  }

  lemma ElsewhereIs(recorded: string, current: string)
    ensures Elsewhere(recorded, current) <==> KeyMoved(recorded, current)
  {
    forall i | 0 <= i < |recorded| ensures Lower(recorded)[i] == SmallLetter(recorded[i]) {
      LowerAt(recorded, i);
    }
    forall i | 0 <= i < |current| ensures Lower(current)[i] == SmallLetter(current[i]) {
      LowerAt(current, i);
    }
    hide Lower, SmallLetter;
    if |recorded| <= |current| {
      assert Lower(recorded) <= Lower(current)
        <==> forall i | 0 <= i < |recorded| :: Lower(recorded)[i] == Lower(current)[i];
    }
  }

  /** Which leg lifts the block, told from what moved and how long it has stood. */
  lemma LegIs(r: Row, status: DisplayStatus, h: Host)
    requires StartBlocked(r)
    ensures (var info := LookupSession(Some(r), status);
             && info.row == r && !info.repairable && info.startBlock == r.startBlock && info.blockedAt == r.blockedAt
             && LegOf(info, status, h)
                == if HeadHasMoved(r) then Some(HeadMoved) else if BaseHasMoved(r, status, h) then Some(BaseMoved)
                   else if Stale(r, h) then Some(Reprobe) else None)
  {
    hide Elsewhere, KeyMoved;
    var b := r.startBlock.value;
    ElsewhereIs(b.headSHA, r.headSHA);
    ElsewhereIs(b.baseSHA, HostBase(status, h.blockBase));
    EmptyNotMoved(HostBase(status, h.blockBase));
    EmptyNotMoved(b.baseSHA);
  }

  lemma EmptyNotMoved(key: string)
    ensures !KeyMoved("", key) && !KeyMoved(key, "") && !KeyMoved("", "")
  {
  }

  /** A younger block of a session that did not move is not lifted, and the call
      changes nothing. */
  lemma YoungBlockStands(s: State, id: string, r: Row, status: DisplayStatus, h: Host)
    requires h.row == Some(r) && StartBlocked(r) && !HasMoved(r, status, h) && !Stale(r, h)
    ensures MaybeRepairStep(s, id, status, h) == (s, NotLaunched)
  {
    LegIs(r, status, h);
    hide LegOf, LookupSession, HeadHasMoved, BaseHasMoved, ChatIdleness;
  }

  /** One the host fails to lift costs the base cooldown. */
  lemma FailedLiftCoolsDown(s: State, id: string, r: Row, status: DisplayStatus, h: Host)
    requires Admitted(s, id, status, h) && h.row == Some(r) && StartBlocked(r)
    requires (HasMoved(r, status, h) || Stale(r, h)) && !h.unblockOk
    ensures MaybeRepairStep(s, id, status, h) == (s.(cooldowns := s.cooldowns[id := h.evaluated]), NotLaunched)
  {
    LegIs(r, status, h);
    hide LegOf, LookupSession, HeadHasMoved, BaseHasMoved, ChatIdleness, BaseCooldown;
  }

  // ---- what the rest of the call leaves of the refusals

  lemma LaunchKeepsRefusals(s: State, id: string, info: SessionInfo, status: DisplayStatus, h: Host)
    ensures (var (t, o) := LaunchStep(s, id, info, status, h);
             && (o != HandedOver ==> t.refusals == s.refusals)
             && (s.Refusals(id) == NO_REFUSALS ==> t.Refusals(id) == NO_REFUSALS))
  {
    hide BuildInput, NoteBaseMoveRetry, RepairInput.Repeats, State.Free, PersistedCounts;
  }

  predicate ChatBusy(s: State, r: Row, h: Host) {
    r.hasActiveChat && r.lastChatActivityAt.Some? && h.gated - r.lastChatActivityAt.value < IdleThreshold(s.config)
  }

  lemma GatesKeepRefusals(s: State, id: string, info: SessionInfo, base: int, status: DisplayStatus, h: Host)
    ensures (var (t, o) := GatedStep(s, id, info, base, status, h);
             && (o != HandedOver && !(info.repairable && ChatBusy(s, info.row, h)) ==> t.refusals == s.refusals)
             && (s.Refusals(id) == NO_REFUSALS ==> t.Refusals(id) == NO_REFUSALS))
  {
    LaunchKeepsRefusals(s, id, info, status, h);
    hide LaunchStep, RepairExhausted, BackingOff, IdleThreshold;
  }

  /** The next refused start on this head hands the session over at once. */
  ghost predicate NextRefusalHandsOver(t: State, id: string, headSHA: string) {
    forall input: RepairInput, h | input.headSHA == headSHA && StartOwnership(h) == Refused ::
      AttemptStep(t, id, input, h).0
      == AfterBlock(Refuse(NoteCooldown(t, id, h.refused), id, headSHA, h.refused), id,
                    StartBlockOf(headSHA, input.baseSHA).Some?, h.blockOk, h.refused)
  }

  /** The next refused start, on any head, is the first that is counted. */
  ghost predicate NextRefusalIsFirst(t: State, id: string) {
    forall input, h | StartOwnership(h) == Refused ::
      (var u := AttemptStep(t, id, input, h).0;
       && u == t.(cooldowns := t.cooldowns[id := h.refused], refusals := t.refusals[id := u.Refusals(id)])
       && u.Refusals(id) == RefusalStreak(false, false, input.headSHA, h.refused, 1))
  }

  lemma EscalatedHandsOver(t: State, id: string, headSHA: string)
    requires t.Refusals(id).count > 0 && t.Refusals(id).headSHA == headSHA && t.Refusals(id).escalated
    ensures NextRefusalHandsOver(t, id, headSHA)
  {
    hide AfterBlock, StartBlockOf;
  }

  lemma NoneIsFirst(t: State, id: string)
    requires t.Refusals(id) == NO_REFUSALS
    ensures NextRefusalIsFirst(t, id)
  {
    hide AfterBlock, StartBlockOf;
    forall input: RepairInput, h | StartOwnership(h) == Refused
      ensures (var u := AttemptStep(t, id, input, h).0;
               && u == t.(cooldowns := t.cooldowns[id := h.refused], refusals := t.refusals[id := u.Refusals(id)])
               && u.Refusals(id) == RefusalStreak(false, false, input.headSHA, h.refused, 1))
    {
      assert NoteRefusal(NO_REFUSALS, input.headSHA, h.refused)
             == RefusalStreak(false, false, input.headSHA, h.refused, 1);
    }
  }

  /** A block lifted because the head or the base moved starts the count of refused
      starts afresh, whatever the rest of the call does. */
  lemma MovedStartsAfresh(s: State, id: string, r: Row, status: DisplayStatus, h: Host)
    requires Admitted(s, id, status, h) && h.row == Some(r) && StartBlocked(r) && HasMoved(r, status, h) && h.unblockOk
    ensures NextRefusalIsFirst(MaybeRepairStep(s, id, status, h).0, id)
  {
    LegIs(r, status, h);
    var (t, info) := Evaluate(s, id, status, h);
    hide LegOf, HeadHasMoved, BaseHasMoved, NextRefusalIsFirst, GatedStep, BaseCooldown;
    assert t.Refusals(id) == NO_REFUSALS by { hide LookupSession; }
    GatesKeepRefusals(t, id, info, BaseCooldown(s.config), status, h);
    NoneIsFirst(MaybeRepairStep(s, id, status, h).0, id);
  }

  /** A block lifted after a quarter of an hour, with head and base as they were, is
      a probe: the next refused start on that head hands the session over again at
      once. So it stands unless the session turns out not to be repairable, a person
      is at its chat, or the call itself hands it over for another reason. */
  lemma ReprobeHandsOverNext(s: State, id: string, r: Row, again: Row, status: DisplayStatus, h: Host)
    requires Admitted(s, id, status, h) && h.row == Some(r) && StartBlocked(r) && h.unblockOk
    requires !HasMoved(r, status, h) && Stale(r, h)
    requires h.rowAfter == Some(again) && MayBeRepaired(again) && !ChatBusy(s, again, h)
    requires InRepairableState(again, status) || StartBlocked(again)
    requires MaybeRepairStep(s, id, status, h).1 != HandedOver
    ensures NextRefusalHandsOver(MaybeRepairStep(s, id, status, h).0, id, r.headSHA)
  {
    LegIs(r, status, h);
    var (t, info) := Evaluate(s, id, status, h);
    var left := t.Refusals(id);
    hide LegOf, HeadHasMoved, BaseHasMoved, NextRefusalHandsOver, GatedStep, BaseCooldown, IdleThreshold;
    assert left == RefusalStreak(true, false, r.headSHA, r.blockedAt.value, MAX_ATTEMPTS);
    assert info.row == again && t.config == s.config;
    GatesKeepRefusals(t, id, info, BaseCooldown(s.config), status, h);
    EscalatedHandsOver(MaybeRepairStep(s, id, status, h).0, id, r.headSHA);
  }

  // ---- when a call launches

  /** The row the decision is taken on: the one looked up, or the one looked up again
      after its start block was lifted. */
  predicate ActedOn(r: Row, status: DisplayStatus, h: Host) {
    h.row.Some? &&
    if !StartBlocked(h.row.value) then r == h.row.value
    else h.unblockOk && h.rowAfter == Some(r) && (HasMoved(h.row.value, status, h) || Stale(h.row.value, h))
  }

  function IdleFor(c: Config): int {
    if c.idleMinutes > 0 then Wrap64(c.idleMinutes * MINUTE) else 5 * MINUTE
  }

  /** Nobody is at the session's chat: it has none, or it has been quiet for long enough. */
  predicate ChatQuiet(s: State, r: Row, h: Host) {
    r.hasActiveChat ==> r.lastChatActivityAt.Some? && h.gated - r.lastChatActivityAt.value >= IdleFor(s.config)
  }

  /** Fewer than five failures in a row on the head it is on now. */
  predicate AttemptsLeft(r: Row) {
    r.attemptCount < 5 || r.headSHA == "" || r.lastHeadSHA != r.headSHA
  }

  predicate BackoffOver(s: State, r: Row, h: Host) {
    r.attemptCount > 0 && r.startedAt.Some? ==>
      h.gated - r.startedAt.value >= CooldownFor(r.attemptCount, BaseCooldown(s.config))
  }

  predicate SameHead(r: Row, status: DisplayStatus, headSHA: string, was: DisplayStatus) {
    r.headSHA != "" && headSHA == r.headSHA && was == status
  }

  predicate SamePersisted(r: Row, status: DisplayStatus) {
    SameHead(r, status, r.lastHeadSHA, r.lastStatus)
  }

  predicate SameRemembered(s: State, id: string, r: Row, status: DisplayStatus) {
    SameHead(r, status, s.Last(id).headSHA, s.Last(id).status)
  }

  /** The base this call reads before it decides: only where an attempt on the same
      head and status might have left something to compare it with. */
  function BaseRead(s: State, id: string, r: Row, status: DisplayStatus, h: Host): string {
    if SamePersisted(r, status) || SameRemembered(s, id, r, status) then HostBase(status, h.base) else ""
  }

  /** An attempt on the same head and status has already acted on what is there now:
      on the same review comments, or the same base, or on ones that cannot be read. */
  predicate NothingNew(status: DisplayStatus, reviewFP: string, baseSHA: string, fingerprint: Option<string>,
                       base: string) {
    match status
    case Rejected => fingerprint.None? || fingerprint.value == reviewFP
    case Failing => base == "" || base == baseSHA
    case Conflict => base == "" || base == baseSHA
    case _ => true
  }

  /** A retry that only the base sets apart, and its base is a sixth one on this head. */
  predicate BasesSpent(s: State, id: string, r: Row, status: DisplayStatus, base: string) {
    && status in {Failing, Conflict} && base != ""
    && ((SamePersisted(r, status) && !r.runnerError && !r.exitRetryable) || SameRemembered(s, id, r, status))
    && (var moves := s.Moves(id); moves.headSHA == r.headSHA && moves.count >= 5 && moves.baseSHA != base)
  }

  /** The gates before the attempts made so far are looked at. */
  predicate Approachable(s: State, r: Row, status: DisplayStatus, h: Host) {
    MayBeRepaired(r) && InRepairableState(r, status) && ChatQuiet(s, r, h)
  }

  /** No attempt on this head and status, persisted or remembered, has acted on what
      is there now. */
  predicate IsNew(s: State, id: string, r: Row, status: DisplayStatus, h: Host) {
    var base := BaseRead(s, id, r, status, h);
    && !(SamePersisted(r, status) && !r.runnerError && !r.exitRetryable
         && NothingNew(status, r.lastReviewFP, r.lastBaseSHA, h.fingerprint, base))
    && !(SameRemembered(s, id, r, status)
         && NothingNew(status, s.Last(id).reviewFP, s.Last(id).baseSHA, h.fingerprint, base))
  }

  predicate Decidable(s: State, id: string, r: Row, status: DisplayStatus, h: Host) {
    AttemptsLeft(r) && BackoffOver(s, r, h) && PastCooldown(s, id, h.decided) && IsNew(s, id, r, status, h)
  }

  predicate Spent(s: State, id: string, r: Row, status: DisplayStatus, h: Host) {
    BasesSpent(s, id, r, status, BaseRead(s, id, r, status, h))
  }

  /** Every gate is open. */
  predicate GatesOpen(s: State, id: string, r: Row, status: DisplayStatus, h: Host) {
    Approachable(s, r, status, h) && Decidable(s, id, r, status, h) && !Spent(s, id, r, status, h)
  }

  /** The session has to be handed to a person: five failures in a row on its head, or
      a retry due on a sixth base. */
  predicate MustHandOver(s: State, id: string, r: Row, status: DisplayStatus, h: Host) {
    && Approachable(s, r, status, h)
    && (!AttemptsLeft(r) || (Decidable(s, id, r, status, h) && Spent(s, id, r, status, h)))
  }

  // ---- step by step

  lemma InputIs(s: State, id: string, info: SessionInfo, status: DisplayStatus, h: Host)
    requires CanBeRepaired(status)
    ensures (var input, base := BuildInput(s, id, info, status, h), BaseRead(s, id, info.row, status, h);
             && input.headSHA == info.row.headSHA && input.status == status
             && input.reviewFPOk == h.fingerprint.Some?
                 && (h.fingerprint.Some? ==> input.reviewFP == h.fingerprint.value)
             && input.baseSHA == base && input.baseOk == (base != ""))
  {
  }

  lemma RepeatsIs(input: RepairInput, prev: RepairInput)
    requires CanBeRepaired(input.status) && input.baseOk == (input.baseSHA != "")
    ensures input.Repeats(prev)
       <==> && input.headSHA != "" && prev.headSHA == input.headSHA && prev.status == input.status
            && NothingNew(input.status, prev.reviewFP, prev.baseSHA,
                          if input.reviewFPOk then Some(input.reviewFP) else None, input.baseSHA)
  {
  }

  lemma ExhaustedIs(s: State, id: string, r: Row, input: RepairInput)
    requires CanBeRepaired(input.status) && input.headSHA == r.headSHA
    ensures NoteBaseMoveRetry(s.Moves(id), s.Last(id), input, PersistedMove(r, input)).exhausted
       <==> BasesSpent(s, id, r, input.status, input.baseSHA)
  {
  }

  /** The decision launches exactly if nothing is repeated and a base is left. */
  lemma LaunchIff(s: State, id: string, info: SessionInfo, status: DisplayStatus, h: Host)
    requires CanBeRepaired(status) && !s.stopped && !s.paused && id !in s.repairing
    ensures (var r, o := info.row, LaunchStep(s, id, info, status, h).1;
             var free := PastCooldown(s, id, h.decided) && IsNew(s, id, r, status, h);
             && (o.Launched? <==> free && !Spent(s, id, r, status, h))
             && (o.HandedOver? <==> free && Spent(s, id, r, status, h)))
  {
    var r, input := info.row, BuildInput(s, id, info, status, h);
    InputIs(s, id, info, status, h);
    RepeatsIs(input, PersistedInput(r));
    RepeatsIs(input, s.Last(id));
    ExhaustedIs(s, id, r, input);
    assert (if input.reviewFPOk then Some(input.reviewFP) else None) == h.fingerprint;
    hide BuildInput, RepairInput.Repeats, NoteBaseMoveRetry, BasesSpent, NothingNew, BaseRead, PersistedMove,
        BaseCooldown,
        AfterBlock;
  }

  lemma GatesIff(s: State, id: string, info: SessionInfo, status: DisplayStatus, h: Host)
    requires Admitted(s, id, status, h)
    requires info.repairable <==> MayBeRepaired(info.row) && InRepairableState(info.row, status)
    ensures (var r, o := info.row, GatedStep(s, id, info, BaseCooldown(s.config), status, h).1;
             && (o.Launched? <==> GatesOpen(s, id, r, status, h))
             && (o.HandedOver? <==> MustHandOver(s, id, r, status, h)))
  {
    LaunchIff(s, id, info, status, h);
    hide LaunchStep, Spent, IsNew, BaseCooldown, CooldownFor, MayBeRepaired, InRepairableState, AfterBlock;
  }

  lemma EvaluatedBlocked(s: State, id: string, status: DisplayStatus, h: Host)
    requires CanBeRepaired(status) && h.row.Some? && StartBlocked(h.row.value)
    ensures (var (t, info) := Evaluate(s, id, status, h);
             && (info.repairable ==> ActedOn(info.row, status, h) && t == s.(refusals := t.refusals)
                                     && MayBeRepaired(info.row) && InRepairableState(info.row, status))
             && (forall r | ActedOn(r, status, h) && MayBeRepaired(r) && InRepairableState(r, status) ::
                   info.repairable && info.row == r))
  {
    var r := h.row.value;
    LegIs(r, status, h);
    LookedUp(h.rowAfter, status);
    hide HeadHasMoved, BaseHasMoved, LegOf, LookupSession, MayBeRepaired, InRepairableState;
  }

  lemma EvaluatedFree(s: State, id: string, status: DisplayStatus, h: Host)
    requires CanBeRepaired(status) && !(h.row.Some? && StartBlocked(h.row.value))
    ensures (var (t, info) := Evaluate(s, id, status, h);
             && (info.repairable ==> ActedOn(info.row, status, h) && t == s.(refusals := t.refusals)
                                     && MayBeRepaired(info.row) && InRepairableState(info.row, status))
             && (forall r | ActedOn(r, status, h) && MayBeRepaired(r) && InRepairableState(r, status) ::
                   info.repairable && info.row == r))
  {
    LookedUp(h.row, status);
    hide LookupSession, MayBeRepaired, InRepairableState, Release;
  }

  lemma LookedUp(row: Option<Row>, status: DisplayStatus)
    ensures (var info := LookupSession(row, status);
             && (info.repairable <==> row.Some? && MayBeRepaired(row.value) && InRepairableState(row.value, status))
             && (row.Some? ==> info.row == row.value)
             && (info.startBlock.Some? <==> row.Some? && StartBlocked(row.value)))
  {
  }

  /** Evaluating the session leaves what the gates look at, and hands on the row acted on. */
  lemma EvaluatedRow(s: State, id: string, status: DisplayStatus, h: Host)
    requires CanBeRepaired(status)
    ensures (var (t, info) := Evaluate(s, id, status, h);
             && (info.repairable ==> ActedOn(info.row, status, h) && t == s.(refusals := t.refusals)
                                     && MayBeRepaired(info.row) && InRepairableState(info.row, status))
             && (forall r | ActedOn(r, status, h) && MayBeRepaired(r) && InRepairableState(r, status) ::
                   info.repairable && info.row == r))
  {
    if h.row.Some? && StartBlocked(h.row.value) {
      EvaluatedBlocked(s, id, status, h);
    } else {
      EvaluatedFree(s, id, status, h);
    }
  }

  lemma SameReads(s: State, t: State, id: string, r: Row, status: DisplayStatus, h: Host)
    requires t == s.(refusals := t.refusals)
    ensures BaseRead(t, id, r, status, h) == BaseRead(s, id, r, status, h)
    ensures SameRemembered(t, id, r, status) == SameRemembered(s, id, r, status)
    ensures forall base :: BasesSpent(t, id, r, status, base) == BasesSpent(s, id, r, status, base)
    ensures t.Last(id) == s.Last(id)
  {
    assert t.Last(id) == s.Last(id) && t.Moves(id) == s.Moves(id);
    hide SameHead, State.Last, State.Moves;
  }

  lemma SameCooldown(s: State, t: State, id: string, now: Time)
    requires t.cooldowns == s.cooldowns && t.config == s.config
    ensures PastCooldown(t, id, now) == PastCooldown(s, id, now)
  {
    hide BaseCooldown;
  }

  lemma SameParts(s: State, t: State, id: string, r: Row, status: DisplayStatus, h: Host)
    requires t == s.(refusals := t.refusals)
    ensures Approachable(t, r, status, h) == Approachable(s, r, status, h)
    ensures Decidable(t, id, r, status, h) == Decidable(s, id, r, status, h)
    ensures Spent(t, id, r, status, h) == Spent(s, id, r, status, h)
  {
    SameReads(s, t, id, r, status, h);
    SameCooldown(s, t, id, h.decided);
    hide NothingNew, CooldownFor, BaseCooldown, IdleFor, BaseRead, BasesSpent, SamePersisted, SameRemembered,
        MayBeRepaired,
        InRepairableState, PastCooldown, AttemptsLeft;
  }

  lemma RefusalsElsewhere(s: State, t: State, id: string, r: Row, status: DisplayStatus, h: Host)
    requires t == s.(refusals := t.refusals)
    ensures GatesOpen(t, id, r, status, h) == GatesOpen(s, id, r, status, h)
    ensures MustHandOver(t, id, r, status, h) == MustHandOver(s, id, r, status, h)
    ensures Admitted(t, id, status, h) == Admitted(s, id, status, h)
  {
    SameParts(s, t, id, r, status, h);
    hide Approachable, Decidable, Spent, AttemptsLeft, PastCooldown, CanBeRepaired;
    assert PastCooldown(t, id, h.admitted) == PastCooldown(s, id, h.admitted) by { SameCooldown(s, t, id, h.admitted); }
  }

  /** What a launch carries: the input and the row it was decided on, the base its
      attempts are recorded against, and the last activity of the chat it replaces. */
  predicate Carries(s: State, id: string, o: Outcome, status: DisplayStatus, h: Host) {
    o.Launched? &&
    var r, base := o.info.row, BaseRead(s, id, o.info.row, status, h);
    && o.input.headSHA == r.headSHA && o.input.status == status && o.input.baseSHA == base
    && (o.input.reviewFPOk <==> h.fingerprint.Some?)
        && (h.fingerprint.Some? ==> o.input.reviewFP == h.fingerprint.value)
    && o.baseSHA == (if base != "" then base else HostBase(status, h.lateBase))
    && o.quietSince == (if r.hasActiveChat then r.lastChatActivityAt else None)
  }

  /** A call launches a repair session if and only if it is admitted, finds a row to
      act on, and every gate is open for that row; it hands the session to a person
      if and only if it is admitted and that row calls for it. */
  lemma LaunchesExactly(s: State, id: string, status: DisplayStatus, h: Host)
    ensures (var o := MaybeRepairStep(s, id, status, h).1;
             && (o.Launched? <==>
                 Admitted(s, id, status, h) && exists r :: ActedOn(r, status, h) && GatesOpen(s, id, r, status, h))
             && (o.HandedOver? <==>
                 Admitted(s, id, status, h) && exists r :: ActedOn(r, status, h) && MustHandOver(s, id, r, status, h))
             && (o.Launched? ==> ActedOn(o.info.row, status, h) && Carries(s, id, o, status, h)))
  {
    var o := MaybeRepairStep(s, id, status, h).1;
    AdmittedIs(s, id, status, h);
    if Admitted(s, id, status, h) {
      var (t, info) := Evaluate(s, id, status, h);
      EvaluatedRow(s, id, status, h);
      hide Evaluate, GatedStep, GatesOpen, MustHandOver, ActedOn, BaseCooldown, MayBeRepaired, InRepairableState,
          Carries;
      if info.repairable {
        RefusalsElsewhere(s, t, id, info.row, status, h);
        GatesIff(t, id, info, status, h);
        OutcomeRow(t, id, info, BaseCooldown(s.config), status, h);
        CarriesElsewhere(s, t, id, o, status, h);
      } else {
        NotRepairable(t, id, info, BaseCooldown(s.config), status, h);
      }
      OpenNeedsState(s, id, status, h);
    } else {
      hide Admitted, Evaluate, GatedStep, GatesOpen, MustHandOver, ActedOn, Carries;
    }
  }

  lemma CarriesElsewhere(s: State, t: State, id: string, o: Outcome, status: DisplayStatus, h: Host)
    requires t == s.(refusals := t.refusals)
    ensures Carries(t, id, o, status, h) == Carries(s, id, o, status, h)
  {
    if o.Launched? {
      SameReads(s, t, id, o.info.row, status, h);
    }
    hide BaseRead;
  }

  lemma AdmittedIs(s: State, id: string, status: DisplayStatus, h: Host)
    ensures Admitted(s, id, status, h) <==> NeedsRepair(status) && s.Free(id, h.admitted)
  {
    hide BaseCooldown;
  }

  lemma NotRepairable(s: State, id: string, info: SessionInfo, base: int, status: DisplayStatus, h: Host)
    requires !info.repairable
    ensures GatedStep(s, id, info, base, status, h) == (s, NotLaunched)
  {
  }

  lemma OpenNeedsState(s: State, id: string, status: DisplayStatus, h: Host)
    ensures forall r | GatesOpen(s, id, r, status, h) :: MayBeRepaired(r) && InRepairableState(r, status)
    ensures forall r | MustHandOver(s, id, r, status, h) :: MayBeRepaired(r) && InRepairableState(r, status)
  {
    hide MayBeRepaired, InRepairableState, ChatQuiet, Decidable, AttemptsLeft, Spent;
  }

  lemma OutcomeRow(s: State, id: string, info: SessionInfo, base: int, status: DisplayStatus, h: Host)
    requires CanBeRepaired(status)
    ensures (var o := GatedStep(s, id, info, base, status, h).1;
             o.Launched? ==> o.info == info && Carries(s, id, o, status, h))
  {
    InputIs(s, id, info, status, h);
    hide BuildInput, BaseRead, Decide, RepairInput.Repeats, PersistedMove, BackingOff, RepairExhausted, AfterBlock,
        IdleThreshold;
  }
}
