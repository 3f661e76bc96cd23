/** What automatic repair knows of a session, and the decisions it takes from that alone. */
module RepairModel {
  import opened Wrappers
  import opened Calendar
  import opened RepairBackoff
  import opened Text

  const MAX_ATTEMPTS := 5
  const ESCALATE_AFTER := 30 * MINUTE
  const REPROBE_AFTER := 15 * MINUTE
  const DEFAULT_IDLE_THRESHOLD := 5 * MINUTE
  const SHORT_SHA := 12

  datatype DisplayStatus =
    | Unspecified | Idle | Draft | Checking | Failing | Conflict | Rejected | Passing
    | Approved | Review | Merged | Closed | Verifying | NeedsHuman | Unrecognized

  datatype SessionState = AwaitingChecks | FixingChecks | GreenDraft | ReadyForReview | Finalizing | Blocked
      | OtherState

  // ---- inputs and repeats

  /** What one attempt acted on; a field that could not be read has its flag off. */
  datatype RepairInput = RepairInput(headSHA: string, status: DisplayStatus, reviewFP: string, reviewFPOk: bool,
                                     baseSHA: string, baseOk: bool) {

    predicate SameHeadAndStatus(prev: RepairInput) {
      headSHA != "" && prev.headSHA == headSHA && prev.status == status
    }

    /** Whether `prev` already attempted this input. */
    predicate Repeats(prev: RepairInput) {
      SameHeadAndStatus(prev) &&
      match status
      case Rejected => !reviewFPOk || prev.reviewFP == reviewFP
      case Conflict => !baseOk || prev.baseSHA == baseSHA
      case Failing => !baseOk || prev.baseSHA == baseSHA
      case _ => true
    }
  }

  /** What a map of inputs answers for a session it does not hold. */
  const NO_INPUT := RepairInput("", Unspecified, "", false, "", false)

  predicate BaseMatters(status: DisplayStatus) {
    status == Conflict || status == Failing
  }

  /** The base an attempt is recorded against. */
  function AttemptBaseSHA(status: DisplayStatus, baseSHA: string): string {
    if BaseMatters(status) then baseSHA else ""
  }

  /** The live base tip, given the host's answer; an empty one counts as unknown. */
  function CurrentBaseSHA(status: DisplayStatus, answer: Option<string>): Option<string> {
    if !BaseMatters(status) || answer == Some("") then None else answer
  }

  // ---- streaks

  datatype BaseMoveStreak = BaseMoveStreak(headSHA: string, baseSHA: string, count: nat)

  const NO_MOVES := BaseMoveStreak("", "", 0)

  datatype BaseMove = BaseMove(streak: BaseMoveStreak, exhausted: bool)

  /** Counts a retry of a head on a base tip, unless that tip is the one already counted. */
  function NoteBaseMove(was: BaseMoveStreak, headSHA: string, baseSHA: string): (r: BaseMove)
    ensures was.count <= MAX_ATTEMPTS ==> r.streak.count <= MAX_ATTEMPTS
    ensures r.streak.headSHA == headSHA
  {
    var streak := if was.headSHA != headSHA then BaseMoveStreak(headSHA, "", 0) else was;
    if streak.count > 0 && streak.baseSHA == baseSHA then BaseMove(streak, false)
    else if streak.count >= MAX_ATTEMPTS then BaseMove(streak, true)
    else BaseMove(streak.(baseSHA := baseSHA, count := streak.count + 1), false)
  }

  function NoteBaseMoveRetry(was: BaseMoveStreak, last: RepairInput, input: RepairInput,
                             persistedMove: bool): BaseMove {
    if !persistedMove && !(input.SameHeadAndStatus(last) && AttemptBaseSHA(input.status, input.baseSHA) != "") then
      BaseMove(was, false)
    else NoteBaseMove(was, input.headSHA, input.baseSHA)
  }

  datatype RefusalStreak = RefusalStreak(escalated: bool, blocked: bool, headSHA: string, first: Time, count: nat)

  const NO_REFUSALS := RefusalStreak(false, false, "", 0, 0)

  /** One more refused start; the result's `escalated` asks for the session to be blocked. */
  function NoteRefusal(was: RefusalStreak, headSHA: string, now: Time): RefusalStreak {
    var streak := if was.count == 0 || was.headSHA != headSHA then RefusalStreak(false, false, headSHA, now, 0)
        else was;
    var count := streak.count + 1;
    streak.(count := count,
            escalated := streak.escalated
                || (headSHA != "" && count >= MAX_ATTEMPTS && now - streak.first >= ESCALATE_AFTER))
  }

  // ---- the start block

  datatype RepairStartBlock = RepairStartBlock(headSHA: string, baseSHA: string)

  predicate KeyMoved(blocked: string, current: string) {
    blocked != "" && current != "" && !(Lower(blocked) <= Lower(current))
  }

  function ShortSHA(sha: string): string {
    if |sha| > SHORT_SHA then sha[..SHORT_SHA] else sha
  }

  /** What reading a refusal's own blocking reason back finds: its short head and base,
      or nothing where their characters do not let them be told apart. */
  function StartBlockOf(headSHA: string, baseSHA: string): Option<RepairStartBlock> {
    BlockOf(ShortSHA(headSHA), ShortSHA(baseSHA))
  }

  function BlockOf(head: string, base: string): Option<RepairStartBlock> {
    if head != "" && ' ' !in head && ';' !in head && ' ' !in base && ')' !in base then
      Some(RepairStartBlock(head, base))
    else if base == "" then Posed(head)
    else None
  }

  /** A head that itself reads as a head and a base. */
  function Posed(head: string): Option<RepairStartBlock> {
    var p, n := UpTo(head, ' '), |head| - 1;
    if 0 < p && p + 7 < n && head[p..p + 7] == " (base " && head[n] == ')'
        && ';' !in head[..p] && ' ' !in head[p + 7..n] && ')' !in head[p + 7..n] then
      Some(RepairStartBlock(head[..p], head[p + 7..n]))
    else None
  }

  function UpTo(s: string, c: char): (n: nat)
    ensures n <= |s| && c !in s[..n] && (n < |s| ==> s[n] == c)
  {
    if s == "" || s[0] == c then 0 else 1 + UpTo(s[1..], c)
  }

  /** A block never reports its own head or base as moved, and reports every other
      one whose short form differs. */
  lemma OwnKeyNotMoved(sha: string, other: string)
    ensures !KeyMoved(ShortSHA(sha), sha)
    ensures |sha| >= SHORT_SHA && |other| >= SHORT_SHA ==>
            (KeyMoved(ShortSHA(sha), other) <==> Lower(ShortSHA(sha)) != Lower(ShortSHA(other)))
  {
    if |sha| > SHORT_SHA {
      LowerPrefix(sha, SHORT_SHA);
    }
    if |other| > SHORT_SHA {
      LowerPrefix(other, SHORT_SHA);
    }
  }

  datatype Leg = HeadMoved | BaseMoved | Reprobe

  /** Why a start block may be lifted now, if it may. */
  function ReleaseLeg(block: RepairStartBlock, headSHA: string, base: string, blockedAt: Option<Time>,
                      now: Time): Option<Leg> {
    if KeyMoved(block.headSHA, headSHA) then Some(HeadMoved)
    else if KeyMoved(block.baseSHA, base) then Some(BaseMoved)
    else if blockedAt.Some? && now - blockedAt.value >= REPROBE_AFTER then Some(Reprobe)
    else None
  }

  // ---- session rows

  /** One row of the host's session list; None stands for an absent timestamp. */
  datatype Row = Row(
    state: SessionState, canAutoRepair: bool, verifyOnly: bool, startBlock: Option<RepairStartBlock>,
        blockedAt: Option<Time>,
    hasActiveChat: bool, lastChatActivityAt: Option<Time>, headSHA: string,
    lastHeadSHA: string, lastStatus: DisplayStatus, lastReviewFP: string, lastBaseSHA: string,
    runnerError: bool, exitRetryable: bool, startedAt: Option<Time>, attemptCount: int)

  datatype SessionInfo = SessionInfo(row: Row, repairable: bool, startBlock: Option<RepairStartBlock>,
                                     blockedAt: Option<Time>)

  const NO_ROW := Row(OtherState, false, false, None, None, false, None, "", "", Unspecified, "", "", false, false,
      None, 0)

  predicate NeedsRepair(status: DisplayStatus) {
    status == Failing || status == Conflict || status == Rejected
  }

  predicate RepairableState(state: SessionState, status: DisplayStatus) {
    match state
    case AwaitingChecks => true
    case FixingChecks => true
    case GreenDraft => true
    case ReadyForReview => true
    case Finalizing => status == Conflict
    case _ => false
  }

  /** A missing row, or a failed list, leaves nothing repairable. */
  function LookupSession(row: Option<Row>, status: DisplayStatus): SessionInfo {
    if row.None? then SessionInfo(NO_ROW, false, None, None)
    else
      var r := row.value;
      if !r.canAutoRepair || r.verifyOnly then SessionInfo(r, false, None, None)
      else SessionInfo(r, RepairableState(r.state, status), if r.state == Blocked then r.startBlock else None,
          r.blockedAt)
  }

  predicate RepairExhausted(r: Row) {
    r.attemptCount >= MAX_ATTEMPTS && r.headSHA != "" && r.lastHeadSHA == r.headSHA
  }

  function PersistedInput(r: Row): RepairInput {
    RepairInput(r.lastHeadSHA, r.lastStatus, r.lastReviewFP, false, r.lastBaseSHA, false)
  }

  /** Whether the persisted attempt may hold back a repeat: one whose run broke down may not. */
  predicate PersistedCounts(r: Row) {
    !r.runnerError && !r.exitRetryable
  }
}
