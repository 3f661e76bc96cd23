/** How often repair retries a head that stays put while its base branch moves. */
module RepairBaseMoves {
  import opened Wrappers
  import opened Calendar
  import opened RepairModel
  import opened RepairMonitor
  import opened RepairRuns

  /** The launches for a session in which an agent run completed. */
  function Completed(ws: seq<Worker>, id: string): nat {
    if ws == [] then 0
    else
      var k := ws[|ws| - 1];
      Completed(ws[..|ws| - 1], id) + if k.session == id && k.ran then 1 else 0
  }

  lemma CompletedMore(ws: seq<Worker>, k: Worker, id: string)
    ensures Completed(ws + [k], id) == Completed(ws, id) + if k.session == id && k.ran then 1 else 0
  {
    assert (ws + [k])[..|ws|] == ws;
  }

  lemma {:induction false} CompletedUpdate(ws: seq<Worker>, w: nat, k: Worker, id: string)
    requires w < |ws| && k.session == ws[w].session
    ensures Completed(ws[w := k], id)
         == Completed(ws, id)
             + (if k.session == id && k.ran then 1 else 0) - (if k.session == id && ws[w].ran then 1 else 0)
  {
    var n := |ws| - 1;
    if w < n {
      CompletedUpdate(ws[..n], w, k, id);
      assert ws[w := k][..n] == ws[..n][w := k];
    } else {
      assert ws[w := k][..n] == ws[..n];
    }
  }

  lemma {:induction false} CompletedSame(ws: seq<Worker>, vs: seq<Worker>, id: string, except: nat)
    requires |ws| == |vs| && forall w | 0 <= w < |ws| :: ws[w].session == vs[w].session
    requires forall w | 0 <= w < |ws| && w != except :: ws[w].ran == vs[w].ran
    requires except < |ws| ==> ws[except].session != id
    ensures Completed(ws, id) == Completed(vs, id)
  {
    if ws != [] {
      CompletedSame(ws[..|ws| - 1], vs[..|ws| - 1], id, if except < |ws| - 1 then except else |ws| - 1);
    }
  }

  /** The session's head stays as it is, failing or conflicted as it may be from time
      to time, and no block of it succeeds. */
  predicate SteadyEvent(s: System, e: Event, id: string, headSHA: string)
    requires Enabled(s, e)
  {
    match e
    case Decided(i, input, _, _, _) => i == id ==> input.headSHA == headSHA && BaseMatters(input.status)
    case AttemptEnded(w, ran, h, st, _, _) => s.workers[w].session == id && ran ==> h == headSHA && BaseMatters(st)
    case BlockEnded(i, _, ok, _) => i == id ==> !ok
    case _ => true
  }

  ghost predicate Steady(s: System, es: seq<Event>, id: string, headSHA: string)
    requires IsRun(s, es)
    decreases es
  {
    es == [] || (SteadyEvent(s, es[0], id, headSHA) && Steady(Next(s, es[0]), es[1..], id, headSHA))
  }

  /** A launch on another status than the last attempt was recorded with, once a
      launch has completed since `before` had. */
  predicate Switched(s: System, e: Event, id: string, before: nat)
    requires Enabled(s, e)
  {
    && e.Decided? && e.id == id && |Next(s, e).workers| > |s.workers|
    && Completed(s.workers, id) > before && e.input.status != s.m.Last(id).status
  }

  function Switch(s: System, e: Event, id: string, before: nat): nat
    requires Enabled(s, e)
  {
    if Switched(s, e, id, before) then 1 else 0
  }

  ghost function Switches(s: System, es: seq<Event>, id: string, before: nat): nat
    requires IsRun(s, es)
    decreases es
  {
    if es == [] then 0 else Switch(s, es[0], id, before) + Switches(Next(s, es[0]), es[1..], id, before)
  }

  function Count(moves: BaseMoveStreak, headSHA: string): nat {
    if moves.headSHA == headSHA then moves.count else 0
  }

  predicate Attempted(last: RepairInput, headSHA: string) {
    last.headSHA == headSHA && BaseMatters(last.status)
  }

  /** `done` launches completed, the last of them on the recorded base: no more than
      one plus the bases counted and two for each switch, and one fewer if the last
      counted base has not been tried. */
  predicate Tally(last: RepairInput, moves: BaseMoveStreak, headSHA: string, switches: nat, done: int) {
    done > 0 ==>
      && Attempted(last, headSHA)
      && done <= 1 + Count(moves, headSHA) + 2 * switches
      && (Count(moves, headSHA) > 0 && last.baseSHA != moves.baseSHA ==> done <= Count(moves, headSHA) + 2 * switches)
  }

  /** While a launch is under way its completion is still to be counted, or has been. */
  predicate TallyRunning(last: RepairInput, moves: BaseMoveStreak, headSHA: string, switches: nat, done: int,
                         ran: bool, baseSHA: string) {
    if ran then done > 0 && Tally(last, moves, headSHA, switches, done) && last.baseSHA == baseSHA
    else
      && (done > 0 ==> Attempted(last, headSHA))
      && done <= Count(moves, headSHA) + 2 * switches
      && (Count(moves, headSHA) > 0 && baseSHA != moves.baseSHA ==> done < Count(moves, headSHA) + 2 * switches)
  }

  ghost predicate Bounded(s: System, id: string, headSHA: string, before: nat, switches: nat) {
    var done := Completed(s.workers, id) - before;
    && s.m.Moves(id).count <= MAX_ATTEMPTS
    && done >= 0
    && (id !in s.m.repairing ==> Tally(s.m.Last(id), s.m.Moves(id), headSHA, switches, done))
    && (forall w: nat | w < |s.workers| && RunsFor(s.workers[w], id) ::
          TallyRunning(s.m.Last(id), s.m.Moves(id), headSHA, switches, done, s.workers[w].ran, s.workers[w].baseSHA))
  }

  /** A launch that is not the first is on another status, or on the base last
      counted, which either is new to the count or has not been tried yet. */
  lemma LaunchTally(last: RepairInput, moves: BaseMoveStreak, input: RepairInput, persistedMove: bool, switches: nat,
                    done: int, baseSHA: string)
    requires input.headSHA != "" && BaseMatters(input.status)
    requires (input.baseOk <==> input.baseSHA != "") && (persistedMove ==> input.baseSHA != "")
    requires moves.count <= MAX_ATTEMPTS && done >= 0 && Tally(last, moves, input.headSHA, switches, done)
    requires !input.Repeats(last) && !NoteBaseMoveRetry(moves, last, input, persistedMove).exhausted
    requires input.baseOk ==> baseSHA == input.baseSHA
    ensures (var r := NoteBaseMoveRetry(moves, last, input, persistedMove).streak;
             && r.count <= MAX_ATTEMPTS
             && TallyRunning(last, r, input.headSHA,
                 switches + if done > 0 && input.status != last.status then 1 else 0, done, false, baseSHA))
  {
  }

  /** A completed run moves the tally on by one, the first time. */
  lemma EndTally(last: RepairInput, now: RepairInput, moves: BaseMoveStreak, switches: nat, done: int, ran: bool)
    requires done >= 0 && BaseMatters(now.status)
    requires TallyRunning(last, moves, now.headSHA, switches, done, ran, now.baseSHA)
    ensures TallyRunning(now, moves, now.headSHA, switches, if ran then done else done + 1, true, now.baseSHA)
  {
  }

  lemma DoneTally(last: RepairInput, moves: BaseMoveStreak, headSHA: string, switches: nat, done: int, ran: bool,
                  baseSHA: string)
    requires done >= 0 && moves.count <= MAX_ATTEMPTS
    requires TallyRunning(last, moves, headSHA, switches, done, ran, baseSHA)
    ensures Tally(last, moves, headSHA, switches, done) && done <= 1 + MAX_ATTEMPTS + 2 * switches
  {
  }

  // ---- each step keeps the bound

  lemma OnlyWorker(s: System, w: nat, id: string)
    requires Exclusive(s) && w < |s.workers| && RunsFor(s.workers[w], id)
    ensures id in s.m.repairing && forall v: nat | v < |s.workers| && RunsFor(s.workers[v], id) :: v == w
  {
  }

  lemma DecidedEffect(s: System, e: Event)
    requires e.Decided? && Enabled(s, e)
    ensures (var t := Next(s, e);
             || t == s
             || (&& e.id !in s.m.repairing && !e.input.Repeats(s.m.Last(e.id))
                 && !NoteBaseMoveRetry(s.m.Moves(e.id), s.m.Last(e.id), e.input, e.persistedMove).exhausted
                 && t.m.Moves(e.id)
                     == NoteBaseMoveRetry(s.m.Moves(e.id), s.m.Last(e.id), e.input, e.persistedMove).streak
                 && (forall id | id != e.id :: t.m.Moves(id) == s.m.Moves(id))
                 && t.m.lastAttempt == s.m.lastAttempt && t.m.repairing == s.m.repairing + {e.id}
                 && t.workers
                     == s.workers + [RepairRuns.Launched(e.id, if e.input.baseOk then e.input.baseSHA else e.late)]))
  {
    hide NoteBaseMoveRetry;
  }

  /** A step that leaves a session's own records and launches alone keeps its bound. */
  lemma Kept(s: System, t: System, id: string, headSHA: string, before: nat, switches: nat)
    requires Bounded(s, id, headSHA, before, switches)
    requires t.m.Last(id) == s.m.Last(id) && t.m.Moves(id) == s.m.Moves(id)
    requires Completed(t.workers, id) == Completed(s.workers, id)
    requires id !in t.m.repairing ==>
               id !in s.m.repairing
                   || Tally(s.m.Last(id), s.m.Moves(id), headSHA, switches, Completed(s.workers, id) - before)
    requires forall w: nat | w < |t.workers| && RunsFor(t.workers[w], id) ::
               w < |s.workers| && RunsFor(s.workers[w], id) && t.workers[w].ran == s.workers[w].ran
                   && t.workers[w].baseSHA == s.workers[w].baseSHA
    ensures Bounded(t, id, headSHA, before, switches)
  {
  }

  lemma DecidedElsewhere(s: System, e: Event, id: string, headSHA: string, before: nat, switches: nat)
    requires e.Decided? && Enabled(s, e) && e.id != id && Next(s, e) != s
    requires Bounded(s, id, headSHA, before, switches)
    ensures Bounded(Next(s, e), id, headSHA, before, switches)
  {
    DecidedEffect(s, e);
    var t := Next(s, e);
    CompletedMore(s.workers, t.workers[|s.workers|], id);
    hide Next, Enabled, Bounded, Completed, Tally, NoteBaseMoveRetry;
    Kept(s, t, id, headSHA, before, switches);
  }

  lemma LaunchBounded(s: System, e: Event, id: string, headSHA: string, before: nat, switches: nat)
    requires e.Decided? && Enabled(s, e) && SteadyEvent(s, e, id, headSHA)
    requires headSHA != "" && Exclusive(s) && Bounded(s, id, headSHA, before, switches) && Next(s, e) != s && e.id == id
    ensures Bounded(Next(s, e), id, headSHA, before, switches + Switch(s, e, id, before))
  {
    DecidedEffect(s, e);
    var t := Next(s, e);
    var done := Completed(s.workers, id) - before;
    var k := t.workers[|s.workers|];
    CompletedMore(s.workers, k, id);
    hide Next, Tally, TallyRunning, NoteBaseMoveRetry, Completed;
    LaunchTally(s.m.Last(id), s.m.Moves(id), e.input, e.persistedMove, switches, done, k.baseSHA);
    assert forall w: nat | w < |s.workers| :: !RunsFor(s.workers[w], id);
    hide Exclusive;
    forall w: nat | w < |s.workers| ensures !RunsFor(t.workers[w], id) {
      assert t.workers[w] == s.workers[w];
    }
  }

  lemma DecidedBounded(s: System, e: Event, id: string, headSHA: string, before: nat, switches: nat)
    requires e.Decided? && Enabled(s, e) && SteadyEvent(s, e, id, headSHA)
    requires headSHA != "" && Exclusive(s) && Bounded(s, id, headSHA, before, switches)
    ensures Bounded(Next(s, e), id, headSHA, before, switches + Switch(s, e, id, before))
  {
    hide Next, Bounded, Exclusive, SteadyEvent;
    if Next(s, e) == s {
    } else if e.id == id {
      LaunchBounded(s, e, id, headSHA, before, switches);
    } else {
      DecidedElsewhere(s, e, id, headSHA, before, switches);
    }
  }

  lemma EndedEffect(s: System, e: Event)
    requires e.AttemptEnded? && Enabled(s, e)
    ensures (var t, k := Next(s, e), s.workers[e.w];
             && t.workers == s.workers[e.w := k.(owning := false, ran := k.ran || e.ran)]
             && t.m.repairing == s.m.repairing && t.m.baseMoves == s.m.baseMoves
             && (forall id | id != k.session :: t.m.Last(id) == s.m.Last(id))
             && (!e.ran ==> t.m.Last(k.session) == s.m.Last(k.session))
             && (e.ran && e.headSHA != "" ==>
                   && t.m.Last(k.session).headSHA == e.headSHA && t.m.Last(k.session).status == e.status
                   && t.m.Last(k.session).baseSHA == AttemptBaseSHA(e.status, k.baseSHA)))
  {
  }

  lemma EndedElsewhere(s: System, e: Event, id: string, headSHA: string, before: nat, switches: nat)
    requires e.AttemptEnded? && Enabled(s, e) && s.workers[e.w].session != id
    requires Bounded(s, id, headSHA, before, switches)
    ensures Bounded(Next(s, e), id, headSHA, before, switches)
  {
    EndedEffect(s, e);
    var t := Next(s, e);
    CompletedSame(s.workers, t.workers, id, e.w);
    hide Next, Enabled, Bounded, Completed, Tally;
    Kept(s, t, id, headSHA, before, switches);
  }

  lemma EndedHere(s: System, e: Event, headSHA: string, before: nat, switches: nat)
    requires e.AttemptEnded? && Enabled(s, e)
    requires e.ran ==> e.headSHA == headSHA != "" && BaseMatters(e.status)
    requires Exclusive(s) && Bounded(s, s.workers[e.w].session, headSHA, before, switches)
    ensures Bounded(Next(s, e), s.workers[e.w].session, headSHA, before, switches)
  {
    EndedEffect(s, e);
    var t := Next(s, e);
    var k := s.workers[e.w];
    var id := k.session;
    var done := Completed(s.workers, id) - before;
    OnlyWorker(s, e.w, id);
    CompletedUpdate(s.workers, e.w, t.workers[e.w], id);
    assert TallyRunning(s.m.Last(id), s.m.Moves(id), headSHA, switches, done, k.ran, k.baseSHA);
    if e.ran {
      EndTally(s.m.Last(id), t.m.Last(id), s.m.Moves(id), switches, done, k.ran);
    }
    hide Next, Enabled, Exclusive, Completed, Tally, TallyRunning;
    forall w: nat | w < |t.workers| && RunsFor(t.workers[w], id) ensures w == e.w {
      assert RunsFor(s.workers[w], id);
    }
  }

  lemma OtherWorkers(s: System, e: Event)
    requires !e.Decided? && !e.AttemptEnded? && Enabled(s, e)
    ensures (var t := Next(s, e);
             && |t.workers| == |s.workers|
             && (forall w: nat | w < |s.workers| ::
                   && t.workers[w].session == s.workers[w].session && t.workers[w].ran == s.workers[w].ran
                   && t.workers[w].baseSHA == s.workers[w].baseSHA
                       && (t.workers[w].stage == Running ==> s.workers[w].stage == Running))
             && (e.MarkDeleted? ==>
                   t.workers[e.w].stage == Unmarked && t.m.repairing == s.m.repairing - {s.workers[e.w].session}))
  {
    hide Decide, RecordAttempt, AttemptInput, AfterBlock, AfterRelease, Refuse, NoteCooldown, ClearRefusals,
        ClearReleasedStartBlock;
  }

  lemma OtherMonitor(s: System, e: Event, id: string, headSHA: string)
    requires !e.Decided? && !e.AttemptEnded? && Enabled(s, e) && SteadyEvent(s, e, id, headSHA)
    ensures (var t := Next(s, e);
             && t.m.lastAttempt == s.m.lastAttempt && t.m.Moves(id) == s.m.Moves(id)
             && (!e.MarkDeleted? ==> t.m.repairing == s.m.repairing))
  {
    hide Decide, RecordAttempt, AttemptInput, NoteRefusal, NoteCooldown, ClearReleasedStartBlock, AfterBlock,
        AfterRelease, Refuse, ClearRefusals;
    RefusalsOnly(s.m);
    if e.BlockEnded? {
      BlockMoves(s.m, e.id, e.recoverable, e.ok, e.now, id);
    }
  }

  predicate SameAttempts(m: State, n: State) {
    n.lastAttempt == m.lastAttempt && n.baseMoves == m.baseMoves && n.repairing == m.repairing
  }

  lemma RefusalsOnly(m: State)
    ensures forall id :: SameAttempts(m, ClearRefusals(m, id)) && SameAttempts(m, ClearReleasedStartBlock(m, id))
    ensures forall id, now :: SameAttempts(m, NoteCooldown(m, id, now))
    ensures forall id, headSHA, now, n :: SameAttempts(n, Refuse(n, id, headSHA, now))
    ensures forall id, leg, ok, headSHA, blockedAt, now ::
              SameAttempts(m, AfterRelease(m, id, leg, ok, headSHA, blockedAt, now))
  {
  }

  lemma BlockMoves(m: State, i: string, recoverable: bool, ok: bool, now: Time, id: string)
    ensures (var n := AfterBlock(m, i, recoverable, ok, now);
             n.lastAttempt == m.lastAttempt && n.repairing == m.repairing && (i == id ==> !ok) ==>
               n.Moves(id) == m.Moves(id))
    ensures (var n := AfterBlock(m, i, recoverable, ok, now);
            n.lastAttempt == m.lastAttempt && n.repairing == m.repairing)
  {
  }

  lemma MarkedTally(s: System, w: nat, headSHA: string, before: nat, switches: nat)
    requires Enabled(s, MarkDeleted(w)) && Bounded(s, s.workers[w].session, headSHA, before, switches)
    ensures (var id := s.workers[w].session;
            Tally(s.m.Last(id), s.m.Moves(id), headSHA, switches, Completed(s.workers, id) - before))
  {
    var k := s.workers[w];
    assert RunsFor(k, k.session);
    DoneTally(s.m.Last(k.session), s.m.Moves(k.session), headSHA, switches, Completed(s.workers, k.session) - before,
        k.ran, k.baseSHA);
  }

  lemma OtherBounded(s: System, e: Event, id: string, headSHA: string, before: nat, switches: nat)
    requires !e.Decided? && !e.AttemptEnded? && Enabled(s, e) && SteadyEvent(s, e, id, headSHA)
    requires Exclusive(s) && Bounded(s, id, headSHA, before, switches)
    ensures Bounded(Next(s, e), id, headSHA, before, switches)
  {
    OtherWorkers(s, e);
    OtherMonitor(s, e, id, headSHA);
    var t := Next(s, e);
    CompletedSame(s.workers, t.workers, id, |s.workers|);
    if e.MarkDeleted? && s.workers[e.w].session == id {
      MarkedTally(s, e.w, headSHA, before, switches);
    }
    hide Next, Enabled, Exclusive, Bounded, Completed, Tally;
    Kept(s, t, id, headSHA, before, switches);
  }

  lemma StepBounded(s: System, e: Event, id: string, headSHA: string, before: nat, switches: nat)
    requires Enabled(s, e) && SteadyEvent(s, e, id, headSHA)
    requires headSHA != "" && Exclusive(s) && Bounded(s, id, headSHA, before, switches)
    ensures Bounded(Next(s, e), id, headSHA, before, switches + Switch(s, e, id, before))
  {
    hide Next, Exclusive, Bounded;
    if e.Decided? {
      DecidedBounded(s, e, id, headSHA, before, switches);
    } else if !e.AttemptEnded? {
      OtherBounded(s, e, id, headSHA, before, switches);
    } else if s.workers[e.w].session == id {
      EndedHere(s, e, headSHA, before, switches);
    } else {
      EndedElsewhere(s, e, id, headSHA, before, switches);
    }
  }

  lemma {:induction false} StaysBounded(s: System, es: seq<Event>, id: string, headSHA: string, before: nat,
                                        switches: nat)
    requires IsRun(s, es) && Steady(s, es, id, headSHA)
    requires headSHA != "" && Exclusive(s) && Bounded(s, id, headSHA, before, switches)
    ensures Exclusive(After(s, es))
    ensures Bounded(After(s, es), id, headSHA, before, switches + Switches(s, es, id, before))
    decreases es
  {
    hide Exclusive, Bounded, SteadyEvent, Next, Enabled, Switch;
    if es != [] {
      ExclusiveStep(s, es[0]);
      StepBounded(s, es[0], id, headSHA, before, switches);
      StaysBounded(Next(s, es[0]), es[1..], id, headSHA, before, switches + Switch(s, es[0], id, before));
    }
  }

  lemma WithinBound(t: System, id: string, headSHA: string, before: nat, switches: nat)
    requires Exclusive(t) && Bounded(t, id, headSHA, before, switches)
    ensures Completed(t.workers, id) <= before + 1 + MAX_ATTEMPTS + 2 * switches
  {
    hide Completed;
    if id in t.m.repairing {
      var w: nat :| w < |t.workers| && RunsFor(t.workers[w], id);
      DoneTally(t.m.Last(id), t.m.Moves(id), headSHA, switches, Completed(t.workers, id) - before, t.workers[w].ran,
          t.workers[w].baseSHA);
    }
  }

  lemma BoundedFirst(s: System, id: string, headSHA: string)
    requires Exclusive(s) && id !in s.m.repairing && s.m.Moves(id).count <= MAX_ATTEMPTS
    ensures Bounded(s, id, headSHA, Completed(s.workers, id), 0)
  {
    hide Completed;
    forall w: nat | w < |s.workers| ensures !RunsFor(s.workers[w], id) {
    }
  }

  /** While a head stays put and no block succeeds, at most one launch, one more for
      each of five counted bases and two for each switch between failing and
      conflicted complete an agent run: however often the base moves, and whatever
      else happens meanwhile. */
  lemma BoundedRetries(s: System, es: seq<Event>, id: string, headSHA: string)
    requires IsRun(s, es) && Steady(s, es, id, headSHA) && headSHA != ""
    requires Exclusive(s) && id !in s.m.repairing && s.m.Moves(id).count <= MAX_ATTEMPTS
    ensures (var before := Completed(s.workers, id);
             Completed(After(s, es).workers, id) <= before + 1 + MAX_ATTEMPTS + 2 * Switches(s, es, id, before))
  {
    hide *;
    var before := Completed(s.workers, id);
    BoundedFirst(s, id, headSHA);
    StaysBounded(s, es, id, headSHA, before, 0);
    WithinBound(After(s, es), id, headSHA, before, Switches(s, es, id, before));
  }

  /** The session's status stays as it is too. */
  predicate KeepsStatus(s: System, e: Event, id: string, status: DisplayStatus)
    requires Enabled(s, e)
  {
    match e
    case Decided(i, input, _, _, _) => i == id ==> input.status == status
    case AttemptEnded(w, ran, _, st, _, _) => s.workers[w].session == id && ran ==> st == status
    case _ => true
  }

  ghost predicate OneStatus(s: System, es: seq<Event>, id: string, status: DisplayStatus)
    requires IsRun(s, es)
    decreases es
  {
    es == [] || (KeepsStatus(s, es[0], id, status) && OneStatus(Next(s, es[0]), es[1..], id, status))
  }

  predicate LastHas(s: System, id: string, before: nat, status: DisplayStatus) {
    Completed(s.workers, id) > before ==> s.m.Last(id).status == status
  }

  lemma LastSame(s: System, t: System, id: string, before: nat, status: DisplayStatus)
    requires LastHas(s, id, before, status) && Completed(t.workers, id) == Completed(s.workers, id)
    requires t.m.lastAttempt == s.m.lastAttempt
    ensures LastHas(t, id, before, status)
  {
  }

  lemma DecidedStatus(s: System, e: Event, id: string, before: nat, status: DisplayStatus)
    requires e.Decided? && Enabled(s, e) && KeepsStatus(s, e, id, status) && LastHas(s, id, before, status)
    ensures LastHas(Next(s, e), id, before, status) && Switch(s, e, id, before) == 0
  {
    DecidedEffect(s, e);
    var t := Next(s, e);
    hide Next, NoteBaseMoveRetry, Completed, RepairInput.Repeats;
    if t != s {
      CompletedMore(s.workers, t.workers[|s.workers|], id);
    }
  }

  lemma EndedStatus(s: System, e: Event, id: string, headSHA: string, before: nat, status: DisplayStatus)
    requires e.AttemptEnded? && Enabled(s, e) && SteadyEvent(s, e, id, headSHA) && headSHA != ""
    requires KeepsStatus(s, e, id, status) && LastHas(s, id, before, status)
    ensures LastHas(Next(s, e), id, before, status)
  {
    EndedEffect(s, e);
    CompletedUpdate(s.workers, e.w, Next(s, e).workers[e.w], id);
    hide Next, Completed;
  }

  lemma StatusStep(s: System, e: Event, id: string, headSHA: string, before: nat, status: DisplayStatus)
    requires Enabled(s, e) && SteadyEvent(s, e, id, headSHA) && headSHA != "" && KeepsStatus(s, e, id, status)
    requires LastHas(s, id, before, status)
    ensures LastHas(Next(s, e), id, before, status) && Switch(s, e, id, before) == 0
  {
    hide Next, LastHas, SteadyEvent;
    if e.Decided? {
      DecidedStatus(s, e, id, before, status);
    } else if e.AttemptEnded? {
      EndedStatus(s, e, id, headSHA, before, status);
    } else {
      OtherWorkers(s, e);
      OtherMonitor(s, e, id, headSHA);
      CompletedSame(s.workers, Next(s, e).workers, id, |s.workers|);
      LastSame(s, Next(s, e), id, before, status);
    }
  }

  lemma {:induction false} OneStatusNoSwitch(s: System, es: seq<Event>, id: string, headSHA: string, before: nat,
                                             status: DisplayStatus)
    requires IsRun(s, es) && Steady(s, es, id, headSHA) && headSHA != "" && OneStatus(s, es, id, status)
    requires LastHas(s, id, before, status)
    ensures Switches(s, es, id, before) == 0 && LastHas(After(s, es), id, before, status)
    decreases es
  {
    hide SteadyEvent, KeepsStatus, LastHas, Next, Enabled, Switch;
    if es != [] {
      StatusStep(s, es[0], id, headSHA, before, status);
      OneStatusNoSwitch(Next(s, es[0]), es[1..], id, headSHA, before, status);
    }
  }

  /** On one status there is no switch, so at most six launches complete. */
  lemma OneStatusRetries(s: System, es: seq<Event>, id: string, headSHA: string, status: DisplayStatus)
    requires IsRun(s, es) && Steady(s, es, id, headSHA) && OneStatus(s, es, id, status) && headSHA != ""
    requires Exclusive(s) && id !in s.m.repairing && s.m.Moves(id).count <= MAX_ATTEMPTS
    ensures Completed(After(s, es).workers, id) <= Completed(s.workers, id) + 1 + MAX_ATTEMPTS
  {
    BoundedRetries(s, es, id, headSHA);
    OneStatusNoSwitch(s, es, id, headSHA, Completed(s.workers, id), status);
  }

  // ---- the bound is reached

  lemma {:induction false} SteadyOn(s: System, a: seq<Event>, b: seq<Event>, id: string, headSHA: string, before: nat)
    requires IsRun(s, a) && IsRun(After(s, a), b)
    requires Steady(s, a, id, headSHA) && Steady(After(s, a), b, id, headSHA)
    ensures IsRun(s, a + b) && After(s, a + b) == After(After(s, a), b) && Steady(s, a + b, id, headSHA)
    ensures Switches(s, a + b, id, before) == Switches(s, a, id, before) + Switches(After(s, a), b, id, before)
    decreases a
  {
    hide Next, Enabled, SteadyEvent, Switch;
    RunOn(s, a, b);
    if a == [] {
      assert a + b == b;
    } else {
      RunOn(Next(s, a[0]), a[1..], b);
      SteadyOn(Next(s, a[0]), a[1..], b, id, headSHA, before);
      assert (a + b)[1..] == a[1..] + b;
    }
  }

  /** One launch whose agent run completes. */
  function Round(s: System, id: string, input: RepairInput, now: Time): seq<Event> {
    [Decided(id, input, false, now, ""), RunStarted(|s.workers|, false),
     AttemptEnded(|s.workers|, true, input.headSHA, input.status, None, now), MarkDeleted(|s.workers|)]
  }

  predicate Idle(s: System, id: string, now: Time) {
    && !s.m.stopped && !s.m.paused && s.m.repairing == {} && s.m.config == NO_CONFIG
    && (id in s.m.cooldowns ==> now - s.m.cooldowns[id] >= MINUTE)
  }

  lemma RoundRuns(s: System, id: string, input: RepairInput, now: Time, before: nat)
    requires Idle(s, id, now) && (input.baseOk <==> input.baseSHA != "") && input.headSHA != ""
    requires BaseMatters(input.status)
    requires !input.Repeats(s.m.Last(id)) && !NoteBaseMoveRetry(s.m.Moves(id), s.m.Last(id), input, false).exhausted
    ensures (var es := Round(s, id, input, now);
             && IsRun(s, es) && Steady(s, es, id, input.headSHA)
             && Switches(s, es, id, before)
                 == (if Completed(s.workers, id) > before && input.status != s.m.Last(id).status then 1 else 0)
             && (var t := After(s, es);
                 && Idle(t, id, now + MINUTE) && Completed(t.workers, id) == Completed(s.workers, id) + 1
                 && t.m.Last(id)
                     == RepairInput(input.headSHA, input.status, s.m.Last(id).reviewFP, false, input.baseSHA, false)
                 && t.m.Moves(id) == NoteBaseMoveRetry(s.m.Moves(id), s.m.Last(id), input, false).streak))
  {
    var es := Round(s, id, input, now);
    DecideLaunches(s, id, input, now);
    var s1 := Next(s, es[0]);
    RestOfRound(s, s1, id, input, now);
    hide Next, Decide, NoteBaseMoveRetry, RepairInput.Repeats, Completed, Idle, BaseMatters;
    assert es[1..] == RoundTail(|s.workers|, input, now);
    NoLaunchNoSwitch(s1, es[1..], id, before);
  }

  lemma {:induction false} NoLaunchNoSwitch(s: System, es: seq<Event>, id: string, before: nat)
    requires IsRun(s, es) && forall e | e in es :: !e.Decided?
    ensures Switches(s, es, id, before) == 0
    decreases es
  {
    hide Next, Enabled;
    if es != [] {
      assert es[0] in es;
      NoLaunchNoSwitch(Next(s, es[0]), es[1..], id, before);
    }
  }

  function RoundTail(w: nat, input: RepairInput, now: Time): seq<Event> {
    [RunStarted(w, false), AttemptEnded(w, true, input.headSHA, input.status, None, now), MarkDeleted(w)]
  }

  lemma EmptyRun(s: System, id: string, headSHA: string)
    ensures IsRun(s, []) && Steady(s, [], id, headSHA) && After(s, []) == s
  {
  }

  lemma RunFrom(s: System, e: Event, es: seq<Event>, id: string, headSHA: string)
    requires Enabled(s, e) && SteadyEvent(s, e, id, headSHA) && IsRun(Next(s, e), es)
    requires Steady(Next(s, e), es, id, headSHA)
    ensures IsRun(s, [e] + es) && Steady(s, [e] + es, id, headSHA) && After(s, [e] + es) == After(Next(s, e), es)
  {
    hide Next, Enabled, SteadyEvent;
    assert ([e] + es)[1..] == es;
  }

  lemma ThreeSteps(s: System, a: Event, b: Event, c: Event, id: string, headSHA: string)
    requires Enabled(s, a) && SteadyEvent(s, a, id, headSHA)
    requires (var t := Next(s, a); Enabled(t, b) && SteadyEvent(t, b, id, headSHA))
    requires (var u := Next(Next(s, a), b); Enabled(u, c) && SteadyEvent(u, c, id, headSHA))
    ensures IsRun(s, [a, b, c]) && Steady(s, [a, b, c], id, headSHA)
    ensures After(s, [a, b, c]) == Next(Next(Next(s, a), b), c)
  {
    hide Next, Enabled, SteadyEvent, IsRun, After, Steady;
    var t := Next(s, a);
    var u := Next(t, b);
    EmptyRun(Next(u, c), id, headSHA);
    RunFrom(u, c, [], id, headSHA);
    RunFrom(t, b, [c] + [], id, headSHA);
    RunFrom(s, a, [b] + ([c] + []), id, headSHA);
    assert [a, b, c] == [a] + ([b] + ([c] + []));
  }

  /** The states the tail of a round goes through. */
  lemma TailEffect(s: System, s1: System, id: string, input: RepairInput, now: Time)
    requires Idle(s, id, now) && input.headSHA != "" && BaseMatters(input.status)
    requires s1.workers == s.workers + [RepairRuns.Launched(id, input.baseSHA)]
    requires s1.m == s.m.(repairing := {id}, baseMoves := s1.m.baseMoves)
    ensures (var es := RoundTail(|s.workers|, input, now);
             && Enabled(s1, es[0])
             && (var s2 := Next(s1, es[0]);
                 && Enabled(s2, es[1])
                 && (var s3 := Next(s2, es[1]);
                     && Enabled(s3, es[2]) && s2.workers[|s.workers|].session == id
                     && (var t := Next(s3, es[2]);
                         && Idle(t, id, now + MINUTE) && |t.workers| == |s.workers| + 1
                             && t.workers[..|s.workers|] == s.workers
                         && RunsFor(t.workers[|s.workers|].(stage := Running), id) && t.workers[|s.workers|].ran
                         && t.m.Last(id)
                             == RepairInput(input.headSHA, input.status, s.m.Last(id).reviewFP, false, input.baseSHA,
                                 false)
                         && t.m.Moves(id) == s1.m.Moves(id)))))
  {
  }

  /** From the launch on. */
  lemma RestOfRound(s: System, s1: System, id: string, input: RepairInput, now: Time)
    requires Idle(s, id, now) && input.headSHA != "" && BaseMatters(input.status)
    requires s1.workers == s.workers + [RepairRuns.Launched(id, input.baseSHA)]
    requires s1.m == s.m.(repairing := {id}, baseMoves := s1.m.baseMoves)
    ensures (var es := RoundTail(|s.workers|, input, now);
             && IsRun(s1, es) && Steady(s1, es, id, input.headSHA)
             && (var t := After(s1, es);
                 && Idle(t, id, now + MINUTE) && Completed(t.workers, id) == Completed(s.workers, id) + 1
                 && t.m.Last(id)
                     == RepairInput(input.headSHA, input.status, s.m.Last(id).reviewFP, false, input.baseSHA, false)
                 && t.m.Moves(id) == s1.m.Moves(id)))
  {
    TailEffect(s, s1, id, input, now);
    hide Next, Enabled, Idle, Completed, IsRun, After, Steady;
    var es := RoundTail(|s.workers|, input, now);
    ThreeSteps(s1, es[0], es[1], es[2], id, input.headSHA);
    var ws := After(s1, es).workers;
    assert ws == s.workers + [ws[|s.workers|]];
    CompletedMore(s.workers, ws[|s.workers|], id);
  }

  lemma DecideLaunches(s: System, id: string, input: RepairInput, now: Time)
    requires Idle(s, id, now) && (input.baseOk <==> input.baseSHA != "")
    requires !input.Repeats(s.m.Last(id)) && !NoteBaseMoveRetry(s.m.Moves(id), s.m.Last(id), input, false).exhausted
    ensures (var t := Next(s, Decided(id, input, false, now, ""));
             && t.workers == s.workers + [RepairRuns.Launched(id, input.baseSHA)] && t.lease == s.lease
             && t.m == s.m.(repairing := {id}, baseMoves := t.m.baseMoves)
             && t.m.Moves(id) == NoteBaseMoveRetry(s.m.Moves(id), s.m.Last(id), input, false).streak)
  {
    hide NoteBaseMoveRetry, RepairInput.Repeats;
    assert {} + {id} == {id};
  }

  /** Base tips all different from one another; the empty one is a tip that was not read. */
  function Tip(k: nat): (tip: string)
    ensures |tip| == k
  {
    seq(k, _ => 'b')
  }

  function OnTip(headSHA: string, status: DisplayStatus, k: nat): RepairInput {
    RepairInput(headSHA, status, "", false, Tip(k), k > 0)
  }

  /** Each next tip is no repeat, and is counted as one more move. */
  lemma NextTip(last: RepairInput, moves: BaseMoveStreak, headSHA: string, status: DisplayStatus, k: nat)
    requires k <= MAX_ATTEMPTS && headSHA != "" && BaseMatters(status)
    requires last == if k == 0 then NO_INPUT else OnTip(headSHA, status, k - 1).(baseOk := false)
    requires moves == if k <= 1 then NO_MOVES else BaseMoveStreak(headSHA, Tip(k - 1), k - 1)
    ensures (var input := OnTip(headSHA, status, k);
             && !input.Repeats(last) && (input.baseOk <==> input.baseSHA != "")
             && NoteBaseMoveRetry(moves, last, input, false)
                == BaseMove(if k == 0 then NO_MOVES else BaseMoveStreak(headSHA, Tip(k), k), false))
  {
    assert k > 0 ==> |Tip(k)| != |Tip(k - 1)|;
  }

  /** The record after `k` rounds on the tips in turn. */
  predicate OnLadder(s: System, id: string, headSHA: string, status: DisplayStatus, k: nat) {
    && s.m.Last(id) == (if k == 0 then NO_INPUT else RepairInput(headSHA, status, "", false, Tip(k - 1), false))
    && s.m.Moves(id) == if k <= 1 then NO_MOVES else BaseMoveStreak(headSHA, Tip(k - 1), k - 1)
  }

  lemma LadderRound(s: System, id: string, headSHA: string, status: DisplayStatus, at: Time, k: nat, before: nat)
    returns (es: seq<Event>)
    requires k <= MAX_ATTEMPTS && headSHA != "" && BaseMatters(status) && Idle(s, id, at)
    requires OnLadder(s, id, headSHA, status, k)
    requires Completed(s.workers, id) == before + k
    ensures IsRun(s, es) && Steady(s, es, id, headSHA) && Switches(s, es, id, before) == 0
    ensures (var t := After(s, es);
             Completed(t.workers, id) == Completed(s.workers, id) + 1 && Idle(t, id, at + MINUTE)
                 && OnLadder(t, id, headSHA, status, k + 1))
  {
    var input := OnTip(headSHA, status, k);
    NextTip(s.m.Last(id), s.m.Moves(id), headSHA, status, k);
    hide IsRun, After, Steady, Switches, Completed, Idle, NoteBaseMoveRetry, RepairInput.Repeats, Round, State.Moves,
        State.Last;
    RoundRuns(s, id, input, at, before);
    es := Round(s, id, input, at);
  }

  /** On one status the base moves before every retry, and six launches complete. */
  lemma {:induction false} SixComplete(s: System, id: string, headSHA: string, status: DisplayStatus, now: Time, k: nat)
    returns (es: seq<Event>, at: Time)
    requires k <= 1 + MAX_ATTEMPTS && headSHA != "" && BaseMatters(status)
    requires Idle(s, id, now) && id !in s.m.lastAttempt && id !in s.m.baseMoves
    ensures (var before := Completed(s.workers, id);
             IsRun(s, es) && Steady(s, es, id, headSHA) && Switches(s, es, id, before) == 0
                 && Completed(After(s, es).workers, id) == before + k)
    ensures Idle(After(s, es), id, at) && OnLadder(After(s, es), id, headSHA, status, k)
  {
    if k == 0 {
      hide Idle, Completed, Next, Enabled;
      es, at := [], now;
    } else {
      var done, since := SixComplete(s, id, headSHA, status, now, k - 1);
      hide *;
      var more := LadderRound(After(s, done), id, headSHA, status, since, k - 1, Completed(s.workers, id));
      SteadyOn(s, done, more, id, headSHA, Completed(s.workers, id));
      es, at := done + more, since + MINUTE;
    }
  }

  function Alternate(k: nat): DisplayStatus {
    if k % 2 == 0 then Failing else Conflict
  }

  /** The record once every base has been counted and the last of them tried. */
  predicate Spent(s: System, id: string, headSHA: string, status: DisplayStatus) {
    && s.m.Last(id) == RepairInput(headSHA, status, "", false, Tip(MAX_ATTEMPTS), false)
    && s.m.Moves(id) == BaseMoveStreak(headSHA, Tip(MAX_ATTEMPTS), MAX_ATTEMPTS)
  }

  /** A switch lets through a base that could not be read, and after it the counted
      base, which is then no longer the last attempted. */
  lemma SwitchInputs(last: RepairInput, moves: BaseMoveStreak, headSHA: string, j: nat)
    requires headSHA != "" && last == RepairInput(headSHA, Alternate(j), "", false, Tip(MAX_ATTEMPTS), false)
    requires moves == BaseMoveStreak(headSHA, Tip(MAX_ATTEMPTS), MAX_ATTEMPTS)
    ensures (var unread := RepairInput(headSHA, Alternate(j + 1), "", false, "", false);
             var tip := OnTip(headSHA, Alternate(j + 1), MAX_ATTEMPTS);
             && unread.status != last.status && tip.baseSHA == Tip(MAX_ATTEMPTS) != ""
             && !unread.Repeats(last) && NoteBaseMoveRetry(moves, last, unread, false) == BaseMove(moves, false)
             && !tip.Repeats(unread) && NoteBaseMoveRetry(moves, unread, tip, false) == BaseMove(moves, false))
  {
  }

  lemma SwitchPair(s: System, id: string, headSHA: string, now: Time, j: nat, before: nat) returns (es: seq<Event>)
    requires headSHA != "" && Idle(s, id, now) && Spent(s, id, headSHA, Alternate(j))
    requires Completed(s.workers, id) > before
    ensures IsRun(s, es) && Steady(s, es, id, headSHA) && Switches(s, es, id, before) == 1
    ensures (var t := After(s, es);
             Completed(t.workers, id) == Completed(s.workers, id) + 2 && Idle(t, id, now + MINUTE + MINUTE)
                 && Spent(t, id, headSHA, Alternate(j + 1)))
  {
    var unread := RepairInput(headSHA, Alternate(j + 1), "", false, "", false);
    var tip := OnTip(headSHA, Alternate(j + 1), MAX_ATTEMPTS);
    SwitchInputs(s.m.Last(id), s.m.Moves(id), headSHA, j);
    hide IsRun, After, Steady, Switches, Completed, Idle, NoteBaseMoveRetry, RepairInput.Repeats, Round, State.Moves,
        State.Last;
    var first := Round(s, id, unread, now);
    RoundRuns(s, id, unread, now, before);
    var t := After(s, first);
    var second := Round(t, id, tip, now + MINUTE);
    RoundRuns(t, id, tip, now + MINUTE, before);
    SteadyOn(s, first, second, id, headSHA, before);
    es := first + second;
  }

  /** The bound is reached for every number of switches: after six completions each
      switch brings two more, so only with a bound on the switches is there one on
      the retries. */
  lemma {:induction false} BoundReached(s: System, id: string, headSHA: string, now: Time, k: nat)
    returns (es: seq<Event>, at: Time)
    requires headSHA != "" && Idle(s, id, now) && id !in s.m.lastAttempt && id !in s.m.baseMoves
    ensures (var before := Completed(s.workers, id);
             && IsRun(s, es) && Steady(s, es, id, headSHA) && Switches(s, es, id, before) == k
             && Completed(After(s, es).workers, id) == before + 1 + MAX_ATTEMPTS + 2 * k)
    ensures Idle(After(s, es), id, at) && Spent(After(s, es), id, headSHA, Alternate(k))
  {
    var before := Completed(s.workers, id);
    hide IsRun, After, Steady, Switches, Completed, Idle;
    if k == 0 {
      es, at := SixComplete(s, id, headSHA, Failing, now, 1 + MAX_ATTEMPTS);
    } else {
      var done, since := BoundReached(s, id, headSHA, now, k - 1);
      hide Spent;
      var more := SwitchPair(After(s, done), id, headSHA, since, k - 1, before);
      SteadyOn(s, done, more, id, headSHA, before);
      es, at := done + more, since + MINUTE + MINUTE;
    }
  }

  lemma OtherStatus(last: RepairInput, moves: BaseMoveStreak, headSHA: string, k: nat)
    requires headSHA != ""
    requires last == if k == 0 then NO_INPUT else RepairInput(headSHA, Alternate(k - 1), "", false, "", false)
    ensures (var input := RepairInput(headSHA, Alternate(k), "", false, "", false);
             !input.Repeats(last) && NoteBaseMoveRetry(moves, last, input, false) == BaseMove(moves, false))
  {
  }

  lemma AlternateRound(s: System, id: string, headSHA: string, at: Time, k: nat) returns (es: seq<Event>)
    requires headSHA != "" && Idle(s, id, at)
    requires s.m.Last(id) == if k == 0 then NO_INPUT else RepairInput(headSHA, Alternate(k - 1), "", false, "", false)
    ensures IsRun(s, es) && Steady(s, es, id, headSHA)
    ensures (var t := After(s, es);
             && Completed(t.workers, id) == Completed(s.workers, id) + 1 && Idle(t, id, at + MINUTE)
                 && t.m.Moves(id) == s.m.Moves(id)
             && t.m.Last(id) == RepairInput(headSHA, Alternate(k), "", false, "", false))
  {
    var input := RepairInput(headSHA, Alternate(k), "", false, "", false);
    OtherStatus(s.m.Last(id), s.m.Moves(id), headSHA, k);
    hide IsRun, After, Steady, Switches, Completed, Idle, NoteBaseMoveRetry, RepairInput.Repeats, Round, State.Moves,
        State.Last;
    RoundRuns(s, id, input, at, 0);
    es := Round(s, id, input, at);
  }

  /** Not even the base need move: on one head that alternates between failing and
      conflicted, any number of launches completes and no base move is ever counted. */
  lemma {:induction false} AlternatingUnbounded(s: System, id: string, headSHA: string, now: Time, k: nat)
    returns (es: seq<Event>, at: Time)
    requires headSHA != "" && Idle(s, id, now) && id !in s.m.lastAttempt
    ensures IsRun(s, es) && Steady(s, es, id, headSHA)
    ensures Completed(After(s, es).workers, id) == Completed(s.workers, id) + k
    ensures Idle(After(s, es), id, at) && After(s, es).m.Moves(id) == s.m.Moves(id)
    ensures k > 0 ==> After(s, es).m.Last(id) == RepairInput(headSHA, Alternate(k - 1), "", false, "", false)
    ensures k == 0 ==> After(s, es) == s
  {
    if k == 0 {
      hide Idle, Completed, Next, Enabled;
      es, at := [], now;
    } else {
      var done, since := AlternatingUnbounded(s, id, headSHA, now, k - 1);
      hide *;
      var more := AlternateRound(After(s, done), id, headSHA, since, k - 1);
      SteadyOn(s, done, more, id, headSHA, 0);
      es, at := done + more, since + MINUTE;
    }
  }

  /** Once the bound is reached and every counted base has been tried, no sweep
      launches again: it skips, or hands the session to a person. */
  lemma ExhaustedNeverLaunches(m: State, id: string, input: RepairInput, persistedMove: bool, now: Time)
    requires input.headSHA != "" && BaseMatters(input.status) && (input.baseOk <==> input.baseSHA != "")
    requires Attempted(m.Last(id), input.headSHA) && input.status == m.Last(id).status
    requires Count(m.Moves(id), input.headSHA) == MAX_ATTEMPTS && m.Last(id).baseSHA == m.Moves(id).baseSHA
    ensures Decide(m, id, input, persistedMove, now).1 != Launch
    ensures m.Free(id, now) && input.baseOk && input.baseSHA != m.Last(id).baseSHA ==>
              Decide(m, id, input, persistedMove, now).1 == GiveUp
  {
  }

  /** After the sixth completion on one head and status no later step launches the session. */
  lemma SixIsLast(s: System, es: seq<Event>, e: Event, id: string, headSHA: string, status: DisplayStatus)
    requires IsRun(s, es) && Steady(s, es, id, headSHA) && OneStatus(s, es, id, status) && headSHA != ""
    requires Exclusive(s) && id !in s.m.repairing && s.m.Moves(id).count <= MAX_ATTEMPTS
    requires Completed(After(s, es).workers, id) == Completed(s.workers, id) + 1 + MAX_ATTEMPTS
    requires e.Decided? && e.id == id && Enabled(After(s, es), e)
    requires SteadyEvent(After(s, es), e, id, headSHA) && KeepsStatus(After(s, es), e, id, status)
    ensures Next(After(s, es), e).workers == After(s, es).workers
  {
    hide *;
    var before := Completed(s.workers, id);
    BoundedFirst(s, id, headSHA);
    StaysBounded(s, es, id, headSHA, before, 0);
    NoneSinceBefore(s, id, status);
    OneStatusNoSwitch(s, es, id, headSHA, before, status);
    SpentNeverLaunches(After(s, es), e, id, headSHA, before, status);
  }

  lemma NoneSinceBefore(s: System, id: string, status: DisplayStatus)
    ensures LastHas(s, id, Completed(s.workers, id), status)
  {
  }

  lemma SpentNeverLaunches(t: System, e: Event, id: string, headSHA: string, before: nat, status: DisplayStatus)
    requires Bounded(t, id, headSHA, before, 0) && LastHas(t, id, before, status) && headSHA != ""
    requires Completed(t.workers, id) == before + 1 + MAX_ATTEMPTS
    requires e.Decided? && e.id == id && Enabled(t, e) && SteadyEvent(t, e, id, headSHA)
    requires KeepsStatus(t, e, id, status)
    ensures Next(t, e).workers == t.workers
  {
    hide Completed, NoteBaseMoveRetry, RepairInput.Repeats;
    if id !in t.m.repairing {
      ExhaustedNeverLaunches(t.m, id, e.input, e.persistedMove, e.now);
    }
  }
}
