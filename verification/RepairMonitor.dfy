/** The monitor that launches repair runs: the state its lock protects, and every
    critical section over it. */
module RepairMonitor {
  import opened Wrappers
  import opened Calendar
  import opened RepairBackoff
  import opened RepairModel

  datatype Config = Config(cooldownMinutes: int, idleMinutes: int)

  const NO_CONFIG := Config(0, 0)

  function IdleThreshold(c: Config): int {
    if c.idleMinutes > 0 then Wrap64(c.idleMinutes * MINUTE) else DEFAULT_IDLE_THRESHOLD
  }

  function BaseCooldown(c: Config): int {
    CooldownFor(0, CooldownDuration(c.cooldownMinutes))
  }

  /** The fields the lock protects. A session absent from a map reads as the zero value. */
  datatype State = State(
    stopped: bool, paused: bool, config: Config, repairing: set<string>, cooldowns: map<string, Time>,
    lastAttempt: map<string, RepairInput>, refusals: map<string, RefusalStreak>, baseMoves: map<string, BaseMoveStreak>)
  {
    function Last(id: string): RepairInput {
      if id in lastAttempt then lastAttempt[id] else NO_INPUT
    }

    function Refusals(id: string): RefusalStreak {
      if id in refusals then refusals[id] else NO_REFUSALS
    }

    function Moves(id: string): BaseMoveStreak {
      if id in baseMoves then baseMoves[id] else NO_MOVES
    }

    predicate CoolingDown(id: string, now: Time) {
      id in cooldowns && now - cooldowns[id] < BaseCooldown(config)
    }

    /** What a launch needs of the monitor itself. */
    predicate Free(id: string, now: Time) {
      !stopped && !paused && id !in repairing && !CoolingDown(id, now)
    }
  }

  // ---- the critical sections, as functions of the state

  function NoteCooldown(s: State, id: string, now: Time): State {
    s.(cooldowns := s.cooldowns[id := now])
  }

  function ClearRefusals(s: State, id: string): State {
    s.(refusals := s.refusals - {id})
  }

  function MarkRefusalBlocked(s: State, id: string): State {
    s.(refusals := s.refusals[id := s.Refusals(id).(blocked := true)])
  }

  function ClearReleasedStartBlock(s: State, id: string): State {
    if s.Refusals(id).blocked then ClearRefusals(s, id) else s
  }

  function Refuse(s: State, id: string, headSHA: string, now: Time): State {
    s.(refusals := s.refusals[id := NoteRefusal(s.Refusals(id), headSHA, now)])
  }

  /** After a session was handed to a person, or the host would not take it. */
  function AfterBlock(s: State, id: string, recoverable: bool, ok: bool, now: Time): State {
    if !ok then NoteCooldown(s, id, now)
    else
      var t := if recoverable then MarkRefusalBlocked(s, id) else ClearRefusals(s, id);
      t.(baseMoves := t.baseMoves - {id})
  }

  /** After lifting a start block: a reprobe leaves a streak that the next refusal completes. */
  function AfterRelease(s: State, id: string, leg: Leg, ok: bool, headSHA: string, blockedAt: Time, now: Time): State {
    if !ok then NoteCooldown(s, id, now)
    else if leg == Reprobe then
      s.(refusals := s.refusals[id := RefusalStreak(true, false, headSHA, blockedAt, MAX_ATTEMPTS)])
    else ClearRefusals(s, id)
  }

  datatype Decision = Skip | GiveUp | Launch

  /** The section that re-checks every guard and marks the session as repairing. */
  function Decide(s: State, id: string, input: RepairInput, persistedMove: bool, now: Time): (State, Decision) {
    if !s.Free(id, now) || input.Repeats(s.Last(id)) then (s, Skip)
    else
      var move := NoteBaseMoveRetry(s.Moves(id), s.Last(id), input, persistedMove);
      var t := if move.streak == s.Moves(id) then s else s.(baseMoves := s.baseMoves[id := move.streak]);
      if move.exhausted then (s, GiveUp) else (t.(repairing := t.repairing + {id}), Launch)
  }

  /** What one finished attempt leaves behind. */
  function RecordAttempt(s: State, id: string, owned: bool, ran: bool, input: RepairInput, now: Time): State {
    var t := if owned then NoteCooldown(s, id, now) else s;
    if !ran || input.headSHA == "" then t
    else
      var fp := if input.reviewFPOk then input.reviewFP else t.Last(id).reviewFP;
      t.(lastAttempt := t.lastAttempt[id := RepairInput(input.headSHA, input.status, fp, false, input.baseSHA, false)])
  }

  // ---- the host's answers to one call of MaybeRepair

  /** Each None or `false` is a failed call; the times never go back. */
  datatype Host = Host(
    row: Option<Row>, unblockOk: bool, rowAfter: Option<Row>, blockOk: bool,
    fingerprint: Option<string>, blockBase: Option<string>, base: Option<string>, lateBase: Option<string>,
    admitted: Time, evaluated: Time, gated: Time, decided: Time)
  {
    predicate Ordered() {
      admitted <= evaluated <= gated <= decided
    }
  }

  /** A launch carries the base its attempts are recorded against, and the last
      activity of the quiet chat it is to replace. */
  datatype Outcome = NotLaunched | HandedOver
      | Launched(input: RepairInput, info: SessionInfo, baseSHA: string, quietSince: Option<Time>)

  // ---- the parts of MaybeRepair between the critical sections

  /** Why the session's start block may be lifted now; its base is read only if the block has one. */
  function LegOf(info: SessionInfo, status: DisplayStatus, h: Host): (leg: Option<Leg>)
    requires info.startBlock.Some?
    ensures leg == Some(Reprobe) ==> info.blockedAt.Some?
  {
    var block := info.startBlock.value;
    var answer := if block.baseSHA == "" then None else CurrentBaseSHA(status, h.blockBase);
    ReleaseLeg(block, info.row.headSHA, if answer.Some? then answer.value else "", info.blockedAt, h.evaluated)
  }

  function Release(s: State, id: string, info: SessionInfo, status: DisplayStatus, h: Host): (State, bool)
    requires info.startBlock.Some?
  {
    var leg := LegOf(info, status, h);
    if leg.None? then (s, false)
    else
      var blockedAt := if info.blockedAt.Some? then info.blockedAt.value else 0;
      (AfterRelease(s, id, leg.value, h.unblockOk, info.row.headSHA, blockedAt, h.evaluated), h.unblockOk)
  }

  /** The refusals a session keeps once it has been looked up. */
  function Settle(s: State, id: string, released: bool, repairable: bool, after: SessionInfo): State {
    var t := if !released && repairable then ClearReleasedStartBlock(s, id) else s;
    if !after.repairable && after.startBlock.None? then ClearRefusals(t, id) else t
  }

  function Evaluate(s: State, id: string, status: DisplayStatus, h: Host): (State, SessionInfo) {
    var info := LookupSession(h.row, status);
    var (t, released) := if info.startBlock.Some? then Release(s, id, info, status, h) else (s, false);
    var after := if released then LookupSession(h.rowAfter, status) else info;
    (Settle(t, id, released, info.repairable, after), after)
  }

  datatype Idleness = Quiet | Unknown | Busy

  function ChatIdleness(r: Row, threshold: int, now: Time): Idleness {
    if !r.hasActiveChat then Quiet
    else if r.lastChatActivityAt.None? then Unknown
    else if now - r.lastChatActivityAt.value < threshold then Busy
    else Quiet
  }

  /** Whether the persisted schedule still holds the session back. */
  predicate BackingOff(r: Row, baseCooldown: int, now: Time) {
    r.attemptCount > 0 && r.startedAt.Some? && now - r.startedAt.value < CooldownFor(r.attemptCount, baseCooldown)
  }

  /** The base is read only where it could show that an earlier attempt's input moved. */
  function BuildInput(s: State, id: string, info: SessionInfo, status: DisplayStatus, h: Host): (input: RepairInput)
    ensures input.headSHA == info.row.headSHA && input.status == status
    ensures input.baseOk <==> input.baseSHA != ""
  {
    var r := info.row;
    var fp := if h.fingerprint.Some? then h.fingerprint.value else "";
    var input := RepairInput(r.headSHA, status, fp, h.fingerprint.Some?, "", false);
    if !input.SameHeadAndStatus(PersistedInput(r)) && !input.SameHeadAndStatus(s.Last(id)) then input
    else
      var base := CurrentBaseSHA(status, h.base);
      input.(baseSHA := if base.Some? then base.value else "", baseOk := base.Some?)
  }

  /** The retry differs from the persisted attempt by the base alone. */
  predicate PersistedMove(r: Row, input: RepairInput) {
    PersistedCounts(r) && input.SameHeadAndStatus(PersistedInput(r))
        && AttemptBaseSHA(input.status, input.baseSHA) != ""
  }

  /** A launch whose input did not need the base reads it now, once it is decided. */
  function BaseSHAForAttempt(input: RepairInput, h: Host): string {
    if input.baseOk then input.baseSHA
    else
      var late := CurrentBaseSHA(input.status, h.lateBase);
      if late.Some? then late.value else ""
  }

  /** The last leg: skip an input already attempted, or else decide and mark. */
  function LaunchStep(s: State, id: string, info: SessionInfo, status: DisplayStatus, h: Host): (State, Outcome) {
    var r := info.row;
    var input := BuildInput(s, id, info, status, h);
    if PersistedCounts(r) && input.Repeats(PersistedInput(r)) then (s, NotLaunched)
    else
      var (t, d) := Decide(s, id, input, PersistedMove(r, input), h.decided);
      match d
      case Skip => (t, NotLaunched)
      case GiveUp => (AfterBlock(t, id, false, h.blockOk, h.decided), HandedOver)
      case Launch => (t,
          Launched(input, info, BaseSHAForAttempt(input, h), if r.hasActiveChat then r.lastChatActivityAt else None))
  }

  /** The gates between evaluating the session and building its input. */
  function GatedStep(s: State, id: string, info: SessionInfo, baseCooldown: int, status: DisplayStatus,
                     h: Host): (State, Outcome) {
    var r := info.row;
    if !info.repairable then (s, NotLaunched)
    else
      match ChatIdleness(r, IdleThreshold(s.config), h.gated)
      case Unknown => (s, NotLaunched)
      case Busy => (ClearRefusals(s, id), NotLaunched)
      case Quiet =>
        if RepairExhausted(r) then (AfterBlock(s, id, false, h.blockOk, h.gated), HandedOver)
        else if BackingOff(r, baseCooldown, h.gated) then (s, NotLaunched)
        else LaunchStep(s, id, info, status, h)
  }

  lemma GatedCases(s: State, id: string, info: SessionInfo, base: int, status: DisplayStatus, h: Host)
    ensures (var r, g := info.row, GatedStep(s, id, info, base, status, h);
             var waiting := r.attemptCount > 0 && r.startedAt.Some?;
             if !info.repairable || (r.hasActiveChat && r.lastChatActivityAt.None?) then g == (s, NotLaunched)
             else if r.hasActiveChat && h.gated - r.lastChatActivityAt.value < IdleThreshold(s.config) then
               g == (ClearRefusals(s, id), NotLaunched)
             else if RepairExhausted(r) then g == (AfterBlock(s, id, false, h.blockOk, h.gated), HandedOver)
             else if waiting && h.gated - r.startedAt.value < CooldownFor(r.attemptCount, base) then
               g == (s, NotLaunched)
             else g == LaunchStep(s, id, info, status, h))
  {
    hide AfterBlock, LaunchStep, CooldownFor, IdleThreshold, ClearRefusals, RepairExhausted;
  }

  /** Everything MaybeRepair does when nothing else runs in between. */
  function MaybeRepairStep(s: State, id: string, status: DisplayStatus, h: Host): (State, Outcome) {
    if !NeedsRepair(status) || !s.Free(id, h.admitted) then (s, NotLaunched)
    else
      var (t, info) := Evaluate(s, id, status, h);
      GatedStep(t, id, info, BaseCooldown(s.config), status, h)
  }

  // ---- one attempt

  datatype Start = Started | ChatExists(stale: bool) | Precondition | StartError

  datatype Reclaim = Reclaimed | ReclaimPrecondition | ReclaimError

  datatype Wait = WaitError | Exited(retryable: bool) | CleanExit

  /** The host's answers to one attempt; `again` is the start after a reclaim,
      `provider` the agent's own id for the run, empty if it has none, and `state`
      the session's state after it, None if the list failed. */
  datatype AttemptHost = AttemptHost(
    start: Start, reclaim: Reclaim, again: Start, blockOk: bool, leaseOk: bool, wait: Wait,
    agent: string, provider: string, state: Option<SessionState>, refused: Time, ended: Time)

  datatype Ownership = Owned | Refused | Lost

  /** What is recorded on the session's row. */
  datatype Lane = NotRecorded | BlockedLane | RunnerErrorLane | ExitErrorLane | CleanLane

  /** `resume` is the run the next attempt goes on from, and `fixed` whether the
      session was told that its fix is complete. */
  datatype AttemptResult = AttemptResult(ok: bool, tookLease: bool, lane: Lane, resume: string, fixed: bool)

  function NoRun(lane: Lane): AttemptResult {
    AttemptResult(false, false, lane, "", false)
  }

  function ResumeSessionID(h: AttemptHost): string {
    if h.provider != "" then h.provider else h.agent
  }

  /** What the caller learns of an attempt, whatever the monitor holds. */
  function Answer(h: AttemptHost): AttemptResult {
    match StartOwnership(h)
    case Lost => NoRun(LostLane(h))
    case Refused => NoRun(BlockedLane)
    case Owned =>
      if h.wait != CleanExit then AttemptResult(false, h.leaseOk, WaitLane(h.wait), "", false)
      else AttemptResult(true, h.leaseOk, CleanLane, ResumeSessionID(h), h.state == Some(FixingChecks))
  }

  function StartOwnership(h: AttemptHost): Ownership {
    match h.start
    case Started => Owned
    case Precondition => Refused
    case StartError => Lost
    case ChatExists(stale) =>
      if !stale || h.reclaim == ReclaimError then Lost
      else if h.reclaim == ReclaimPrecondition || h.again == Precondition then Refused
      else if h.again == Started then Owned
      else Lost
  }

  /** A lost start is recorded only when it broke down rather than met another run. */
  function LostLane(h: AttemptHost): Lane {
    if h.start == StartError || (h.start == ChatExists(true) && h.reclaim == Reclaimed && h.again == StartError) then
      RunnerErrorLane
    else NotRecorded
  }

  predicate AttemptRan(w: Wait) {
    w == CleanExit || w == Exited(false)
  }

  function WaitLane(w: Wait): Lane {
    match w
    case WaitError => RunnerErrorLane
    case Exited(_) => ExitErrorLane
    case CleanExit => CleanLane
  }

  /** A start the daemon refused: the base cooldown, one more refusal, and the
      session handed over if that was one too many. */
  function RefusedStep(s: State, id: string, headSHA: string, baseSHA: string, blockOk: bool, now: Time): State {
    var t := Refuse(NoteCooldown(s, id, now), id, headSHA, now);
    if t.Refusals(id).escalated then AfterBlock(t, id, StartBlockOf(headSHA, baseSHA).Some?, blockOk, now) else t
  }

  function AttemptStep(s: State, id: string, input: RepairInput, h: AttemptHost): (State, AttemptResult) {
    match StartOwnership(h)
    case Lost => (s, Answer(h))
    case Refused => (RefusedStep(s, id, input.headSHA, input.baseSHA, h.blockOk, h.refused), Answer(h))
    case Owned => (RecordAttempt(ClearRefusals(s, id), id, true, AttemptRan(h.wait), input, h.ended), Answer(h))
  }

  // ---- the monitor itself

  class Monitor {
    var stopped: bool
    var paused: bool
    var config: Config
    var repairing: set<string>
    var cooldowns: map<string, Time>
    var lastAttempt: map<string, RepairInput>
    var refusals: map<string, RefusalStreak>
    var baseMoves: map<string, BaseMoveStreak>

    function View(): State
      reads this
    {
      State(stopped, paused, config, repairing, cooldowns, lastAttempt, refusals, baseMoves)
    }

    /** Nothing is launched before the first StartWorkflow. */
    constructor ()
      ensures View() == State(true, false, NO_CONFIG, {}, map[], map[], map[], map[])
    {
      stopped, paused, config := true, false, NO_CONFIG;
      repairing, cooldowns, lastAttempt, refusals, baseMoves := {}, map[], map[], map[], map[];
    }

    method StartWorkflow(cfg: Config)
      modifies this
      ensures View() == old(View()).(stopped := false, paused := false, config := cfg)
    {
      stopped := false;
      paused := false;
      config := cfg;
    }

    method PauseWorkflow()
      modifies `paused
      ensures paused
    {
      paused := true;
    }

    method ResumeWorkflow()
      modifies `paused
      ensures !paused
    {
      paused := false;
    }

    /** Also what Shutdown does to the protected state. */
    method CancelWorkflow()
      modifies `stopped
      ensures stopped
    {
      stopped := true;
    }

    method ClearSessionRefusals(id: string)
      modifies `refusals
      ensures View() == ClearRefusals(old(View()), id)
    {
      refusals := refusals - {id};
    }

    method MarkBlocked(id: string)
      modifies `refusals
      ensures View() == MarkRefusalBlocked(old(View()), id)
    {
      var streak := if id in refusals then refusals[id] else NO_REFUSALS;
      refusals := refusals[id := streak.(blocked := true)];
    }

    method ClearReleasedBlock(id: string)
      modifies `refusals
      ensures View() == ClearReleasedStartBlock(old(View()), id)
    {
      if id in refusals && refusals[id].blocked {
        refusals := refusals - {id};
      }
    }

    method NoteStartRefusal(id: string, headSHA: string, now: Time) returns (streak: RefusalStreak, escalate: bool)
      modifies `refusals
      ensures View() == Refuse(old(View()), id, headSHA, now)
      ensures streak == View().Refusals(id) && escalate == streak.escalated
    {
      streak := if id in refusals then refusals[id] else NO_REFUSALS;
      if streak.count == 0 || streak.headSHA != headSHA {
        streak := RefusalStreak(false, false, headSHA, now, 0);
      }
      streak := streak.(count := streak.count + 1);
      var due := headSHA != "" && streak.count >= MAX_ATTEMPTS && now - streak.first >= ESCALATE_AFTER;
      streak := streak.(escalated := streak.escalated || due);
      refusals := refusals[id := streak];
      escalate := streak.escalated;
    }

    method NoteBaseMoveLocked(id: string, headSHA: string, baseSHA: string)
      returns (streak: BaseMoveStreak, exhausted: bool)
      modifies `baseMoves
      ensures BaseMove(streak, exhausted) == NoteBaseMove(old(View()).Moves(id), headSHA, baseSHA)
      ensures baseMoves == if streak == old(View()).Moves(id) || exhausted then old(baseMoves)
              else old(baseMoves)[id := streak]
    {
      streak := if id in baseMoves then baseMoves[id] else NO_MOVES;
      if streak.headSHA != headSHA {
        streak := BaseMoveStreak(headSHA, "", 0);
      }
      if streak.count > 0 && streak.baseSHA == baseSHA {
        return streak, false;
      }
      if streak.count >= MAX_ATTEMPTS {
        return streak, true;
      }
      streak := streak.(baseSHA := baseSHA, count := streak.count + 1);
      baseMoves := baseMoves[id := streak];
      exhausted := false;
    }

    method BlockSession(id: string, recoverable: bool, hostOk: bool, now: Time)
      modifies this
      ensures View() == AfterBlock(old(View()), id, recoverable, hostOk, now)
    {
      if !hostOk {
        cooldowns := cooldowns[id := now];
        return;
      }
      if recoverable {
        MarkBlocked(id);
      } else {
        ClearSessionRefusals(id);
      }
      baseMoves := baseMoves - {id};
    }

    method StartBlockLeg(info: SessionInfo, status: DisplayStatus, h: Host) returns (leg: Option<Leg>)
      requires info.startBlock.Some?
      ensures leg == LegOf(info, status, h)
    {
      hide KeyMoved;
      var block := info.startBlock.value;
      if KeyMoved(block.headSHA, info.row.headSHA) {
        return Some(HeadMoved);
      }
      var base := "";
      if block.baseSHA != "" {
        var answer := CurrentBaseSHA(status, h.blockBase);
        if answer.Some? {
          base := answer.value;
        }
      }
      if KeyMoved(block.baseSHA, base) {
        return Some(BaseMoved);
      }
      if info.blockedAt.Some? && h.evaluated - info.blockedAt.value >= REPROBE_AFTER {
        return Some(Reprobe);
      }
      return None;
    }

    method ReleaseStartBlock(id: string, info: SessionInfo, status: DisplayStatus, h: Host) returns (released: bool)
      requires info.startBlock.Some?
      modifies this
      ensures (View(), released) == Release(old(View()), id, info, status, h)
    {
      hide LegOf;
      var leg := StartBlockLeg(info, status, h);
      if leg.None? {
        return false;
      }
      if !h.unblockOk {
        cooldowns := cooldowns[id := h.evaluated];
        return false;
      }
      ClearSessionRefusals(id);
      if leg.value == Reprobe {
        refusals := refusals[id := RefusalStreak(true, false, info.row.headSHA, info.blockedAt.value, MAX_ATTEMPTS)];
        assert refusals == old(refusals)[id := refusals[id]];
      }
      return true;
    }

    method EvaluateRepairSession(id: string, status: DisplayStatus, h: Host) returns (info: SessionInfo)
      modifies this
      ensures (View(), info) == Evaluate(old(View()), id, status, h)
    {
      info := LookupSession(h.row, status);
      var released := false;
      if info.startBlock.Some? {
        released := ReleaseStartBlock(id, info, status, h);
      }
      if released {
        info := LookupSession(h.rowAfter, status);
      } else if info.repairable {
        ClearReleasedBlock(id);
      }
      if !info.repairable && info.startBlock.None? {
        ClearSessionRefusals(id);
      }
    }

    /** The section that decides and marks the session, in one hold of the lock. */
    method DecideAndMark(id: string, input: RepairInput, persistedMove: bool, now: Time) returns (d: Decision)
      modifies this
      ensures (View(), d) == Decide(old(View()), id, input, persistedMove, now)
    {
      if stopped || paused || id in repairing {
        return Skip;
      }
      if id in cooldowns && now - cooldowns[id] < CooldownFor(0, CooldownDuration(config.cooldownMinutes)) {
        return Skip;
      }
      var last := if id in lastAttempt then lastAttempt[id] else NO_INPUT;
      if input.Repeats(last) {
        return Skip;
      }
      var inMemoryMove := input.SameHeadAndStatus(last) && AttemptBaseSHA(input.status, input.baseSHA) != "";
      if persistedMove || inMemoryMove {
        var _, exhausted := NoteBaseMoveLocked(id, input.headSHA, input.baseSHA);
        if exhausted {
          return GiveUp;
        }
      }
      repairing := repairing + {id};
      return Launch;
    }

    method LaunchIfNew(id: string, info: SessionInfo, status: DisplayStatus, h: Host) returns (o: Outcome)
      modifies this
      ensures (View(), o) == LaunchStep(old(View()), id, info, status, h)
    {
      hide AfterBlock, BuildInput, Decide, PersistedInput;
      var r := info.row;
      var input := BuildInput(View(), id, info, status, h);
      var persisted := PersistedInput(r);
      var baseMoveRetry := false;
      if PersistedCounts(r) {
        if input.Repeats(persisted) {
          return NotLaunched;
        }
        if input.SameHeadAndStatus(persisted) {
          baseMoveRetry := AttemptBaseSHA(status, input.baseSHA) != "";
        }
      }
      var d := DecideAndMark(id, input, baseMoveRetry, h.decided);
      match d
      case Skip => return NotLaunched;
      case GiveUp =>
        BlockSession(id, false, h.blockOk, h.decided);
        return HandedOver;
      case Launch =>
        var baseSHA := input.baseSHA;
        if !input.baseOk {
          var late := CurrentBaseSHA(input.status, h.lateBase);
          baseSHA := if late.Some? then late.value else "";
        }
        return Launched(input, info, baseSHA, if r.hasActiveChat then r.lastChatActivityAt else None);
    }

    /** What is left once the session was evaluated. */
    method LaunchGated(id: string, info: SessionInfo, baseCooldown: int, status: DisplayStatus, h: Host)
      returns (o: Outcome)
      modifies this
      ensures (View(), o) == GatedStep(old(View()), id, info, baseCooldown, status, h)
    {
      hide GatedStep, AfterBlock, LaunchStep, CooldownFor, IdleThreshold, ClearRefusals, RepairExhausted;
      GatedCases(View(), id, info, baseCooldown, status, h);
      if !info.repairable {
        return NotLaunched;
      }
      var r := info.row;
      if r.hasActiveChat {
        if r.lastChatActivityAt.None? {
          return NotLaunched;
        }
        if h.gated - r.lastChatActivityAt.value < IdleThreshold(config) {
          ClearSessionRefusals(id);
          return NotLaunched;
        }
      }
      if RepairExhausted(r) {
        BlockSession(id, false, h.blockOk, h.gated);
        return HandedOver;
      }
      if r.attemptCount > 0 && r.startedAt.Some?
          && h.gated - r.startedAt.value < CooldownFor(r.attemptCount, baseCooldown) {
        return NotLaunched;
      }
      o := LaunchIfNew(id, info, status, h);
    }

    method MaybeRepair(id: string, status: DisplayStatus, h: Host) returns (o: Outcome)
      modifies this
      ensures (View(), o) == MaybeRepairStep(old(View()), id, status, h)
    {
      hide Evaluate, GatedStep, CooldownFor, CooldownDuration;
      if !NeedsRepair(status) || stopped || paused || id in repairing {
        return NotLaunched;
      }
      var baseCooldown := CooldownFor(0, CooldownDuration(config.cooldownMinutes));
      if id in cooldowns && h.admitted - cooldowns[id] < baseCooldown {
        return NotLaunched;
      }
      var info := EvaluateRepairSession(id, status, h);
      o := LaunchGated(id, info, baseCooldown, status, h);
    }

    /** The deferred part of an attempt. */
    method FinishAttempt(id: string, owned: bool, ran: bool, input: RepairInput, now: Time)
      modifies this
      ensures View() == RecordAttempt(old(View()), id, owned, ran, input, now)
    {
      if owned {
        cooldowns := cooldowns[id := now];
      }
      if ran && input.headSHA != "" {
        var last := if id in lastAttempt then lastAttempt[id] else NO_INPUT;
        var fp := if input.reviewFPOk then input.reviewFP else last.reviewFP;
        lastAttempt := lastAttempt[id := RepairInput(input.headSHA, input.status, fp, false, input.baseSHA, false)];
      }
    }

    /** A start the daemon refused: no run, the base cooldown, and one more refusal. */
    method MarkStartRefused(id: string, headSHA: string, baseSHA: string, blockOk: bool, now: Time)
      modifies this
      ensures View() == RefusedStep(old(View()), id, headSHA, baseSHA, blockOk, now)
    {
      cooldowns := cooldowns[id := now];
      var _, escalate := NoteStartRefusal(id, headSHA, now);
      if escalate {
        BlockSession(id, StartBlockOf(headSHA, baseSHA).Some?, blockOk, now);
      }
    }

    /** Start the run, reclaiming a stale chat once if one is in the way, and wait for it. */
    method RunRepairAttempt(id: string, input: RepairInput, h: AttemptHost) returns (r: AttemptResult)
      modifies this
      ensures (View(), r) == AttemptStep(old(View()), id, input, h)
    {
      hide RefusedStep, RecordAttempt;
      if h.start != Started {
        if h.start.ChatExists? {
          if !h.start.stale {
            return NoRun(NotRecorded);
          }
          if h.reclaim != Reclaimed {
            if h.reclaim == ReclaimPrecondition {
              MarkStartRefused(id, input.headSHA, input.baseSHA, h.blockOk, h.refused);
              return NoRun(BlockedLane);
            }
            return NoRun(NotRecorded);
          }
          if h.again != Started {
            if h.again.ChatExists? {
              return NoRun(NotRecorded);
            }
            if h.again == Precondition {
              MarkStartRefused(id, input.headSHA, input.baseSHA, h.blockOk, h.refused);
              return NoRun(BlockedLane);
            }
            return NoRun(RunnerErrorLane);
          }
        } else if h.start == Precondition {
          MarkStartRefused(id, input.headSHA, input.baseSHA, h.blockOk, h.refused);
          return NoRun(BlockedLane);
        } else {
          return NoRun(RunnerErrorLane);
        }
      }
      ClearSessionRefusals(id);
      var ran := false;
      r := NoRun(RunnerErrorLane).(tookLease := h.leaseOk);
      if h.wait != WaitError {
        if h.wait.Exited? {
          ran := !h.wait.retryable;
          r := r.(lane := ExitErrorLane);
        } else {
          ran := true;
          r := r.(ok := true, lane := CleanLane, resume := if h.provider != "" then h.provider else h.agent);
          if h.state == Some(FixingChecks) {
            r := r.(fixed := true);
          }
        }
      }
      FinishAttempt(id, true, ran, input, h.ended);
    }

    /** The deferred part of a repair session. */
    method FinishSession(id: string)
      modifies `repairing
      ensures repairing == old(repairing) - {id}
    {
      repairing := repairing - {id};
    }
  }
}
