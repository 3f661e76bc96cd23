/** What a call of MaybeRepair guarantees, and that it is one of the runs that
    the run-level results speak about. */
module RepairGuarantees {
  import opened Wrappers
  import opened Calendar
  import opened RepairBackoff
  import opened RepairModel
  import opened RepairMonitor
  import Runs = RepairRuns

  /** A call that launches went through every gate; the row that let it through is in the outcome. */
  lemma LaunchedThroughGates(s: State, id: string, status: DisplayStatus, h: Host)
    requires MaybeRepairStep(s, id, status, h).1.Launched?
    ensures (var (t, o) := MaybeRepairStep(s, id, status, h);
             var r := o.info.row;
             && NeedsRepair(status) && o.info.repairable && s.Free(id, h.admitted)
             && !RepairExhausted(r) && !BackingOff(r, BaseCooldown(s.config), h.gated)
             && ChatIdleness(r, IdleThreshold(s.config), h.gated) == Quiet
             && id in t.repairing
             && !(PersistedCounts(r) && o.input.Repeats(PersistedInput(r))) && !o.input.Repeats(s.Last(id))
             && o.input.headSHA == r.headSHA && o.input.status == status)
  {
    hide BuildInput, NoteBaseMoveRetry, BackingOff, RepairExhausted, PersistedInput, LegOf, LookupSession,
        IdleThreshold, BaseCooldown, RepairInput.Repeats;
    EvaluateKeeps(s, id, status, h);
    hide Evaluate;
  }

  /** Evaluating a session may lift its block, and then settles its refusals. */
  lemma EvaluateSteps(s: State, id: string, status: DisplayStatus, h: Host)
    returns (leg: Leg, headSHA: string, blockedAt: Time, lifting: bool, released: bool, repairable: bool,
        after: SessionInfo)
    ensures (var t := if lifting then AfterRelease(s, id, leg, h.unblockOk, headSHA, blockedAt, h.evaluated) else s;
             Evaluate(s, id, status, h).0 == Settle(t, id, released, repairable, after))
  {
    hide LegOf, LookupSession, Settle, AfterRelease;
    var info := LookupSession(h.row, status);
    lifting := info.startBlock.Some? && LegOf(info, status, h).Some?;
    released := lifting && h.unblockOk;
    leg := if lifting then LegOf(info, status, h).value else HeadMoved;
    headSHA := info.row.headSHA;
    blockedAt := if info.blockedAt.Some? then info.blockedAt.value else 0;
    after := if released then LookupSession(h.rowAfter, status) else info;
    repairable := info.repairable;
  }

  /** Only refusals and cooldowns differ. */
  predicate OnlyStreaks(s: State, t: State) {
    && t.stopped == s.stopped && t.paused == s.paused && t.config == s.config && t.repairing == s.repairing
    && t.lastAttempt == s.lastAttempt && t.baseMoves == s.baseMoves
  }

  lemma StreakSteps(s: State, id: string, leg: Leg, ok: bool, headSHA: string, blockedAt: Time, now: Time,
                    released: bool, repairable: bool, after: SessionInfo)
    ensures OnlyStreaks(s, AfterRelease(s, id, leg, ok, headSHA, blockedAt, now))
    ensures OnlyStreaks(s, Settle(s, id, released, repairable, after))
  {
  }

  lemma EvaluateKeeps(s: State, id: string, status: DisplayStatus, h: Host)
    ensures OnlyStreaks(s, Evaluate(s, id, status, h).0)
  {
    var leg, headSHA, blockedAt, lifting, released, repairable, after := EvaluateSteps(s, id, status, h);
    var t := if lifting then AfterRelease(s, id, leg, h.unblockOk, headSHA, blockedAt, h.evaluated) else s;
    StreakSteps(s, id, leg, h.unblockOk, headSHA, blockedAt, h.evaluated, released, repairable, after);
    StreakSteps(t, id, leg, h.unblockOk, headSHA, blockedAt, h.evaluated, released, repairable, after);
    hide Evaluate, AfterRelease, Settle;
  }

  /** Two states hold the same of a session. */
  predicate Same(s: State, t: State, id: string) {
    && (id in t.repairing <==> id in s.repairing)
    && (id in t.cooldowns <==> id in s.cooldowns) && (id in s.cooldowns ==> t.cooldowns[id] == s.cooldowns[id])
    && t.Last(id) == s.Last(id) && t.Refusals(id) == s.Refusals(id) && t.Moves(id) == s.Moves(id)
  }

  lemma SameSame(s: State, t: State, u: State, id: string)
    requires Same(s, t, id) && Same(t, u, id)
    ensures Same(s, u, id)
  {
  }

  lemma ClearElsewhere(s: State, id: string, other: string)
    requires other != id
    ensures Same(s, s, other) && Same(s, ClearRefusals(s, id), other) && Same(s, ClearReleasedStartBlock(s, id), other)
  {
  }

  lemma SettleElsewhere(s: State, id: string, other: string, released: bool, repairable: bool, after: SessionInfo)
    requires other != id
    ensures Same(s, Settle(s, id, released, repairable, after), other)
  {
  }

  lemma ReleaseElsewhere(s: State, id: string, other: string, leg: Leg, ok: bool, headSHA: string, blockedAt: Time,
                         now: Time)
    requires other != id
    ensures Same(s, AfterRelease(s, id, leg, ok, headSHA, blockedAt, now), other)
  {
  }

  lemma BlockElsewhere(s: State, id: string, other: string, recoverable: bool, ok: bool, now: Time)
    requires other != id
    ensures Same(s, AfterBlock(s, id, recoverable, ok, now), other)
  {
  }

  /** A decision touches its own session's mark and streak alone. */
  lemma DecideShape(s: State, id: string, input: RepairInput, persistedMove: bool, now: Time)
    ensures (var t := Decide(s, id, input, persistedMove, now).0;
             var streak := NoteBaseMoveRetry(s.Moves(id), s.Last(id), input, persistedMove).streak;
             t in {s, s.(repairing := s.repairing + {id}),
                   s.(repairing := s.repairing + {id}, baseMoves := s.baseMoves[id := streak])})
  {
    hide NoteBaseMoveRetry, State.Free, RepairInput.Repeats;
  }

  lemma DecideElsewhere(s: State, id: string, other: string, input: RepairInput, persistedMove: bool, now: Time)
    requires other != id
    ensures Same(s, Decide(s, id, input, persistedMove, now).0, other)
  {
    DecideShape(s, id, input, persistedMove, now);
    hide Decide;
  }

  lemma EvaluateElsewhere(s: State, id: string, other: string, status: DisplayStatus, h: Host)
    requires other != id
    ensures Same(s, Evaluate(s, id, status, h).0, other)
  {
    hide *;
    var leg, headSHA, blockedAt, lifting, released, repairable, after := EvaluateSteps(s, id, status, h);
    var t := if lifting then AfterRelease(s, id, leg, h.unblockOk, headSHA, blockedAt, h.evaluated) else s;
    ReleaseElsewhere(s, id, other, leg, h.unblockOk, headSHA, blockedAt, h.evaluated);
    ClearElsewhere(s, id, other);
    SettleElsewhere(t, id, other, released, repairable, after);
    SameSame(s, t, Settle(t, id, released, repairable, after), other);
  }

  lemma BaseAtLeastMinute(c: Config)
    requires SafeMinutes(c.cooldownMinutes)
    ensures MINUTE <= BaseCooldown(c) && BaseCooldown(c) * 65536 >= MAX_COOLDOWN
  {
    ConfiguredBase(c.cooldownMinutes);
  }

  /** No session that failed `n` times in a row is launched again sooner after its
      persisted last start than the base cooldown doubled `n - 1` times, up to the ceiling. */
  lemma BackoffFloor(s: State, id: string, status: DisplayStatus, h: Host)
    requires h.Ordered() && SafeMinutes(s.config.cooldownMinutes)
    requires MaybeRepairStep(s, id, status, h).1.Launched?
    ensures (var r := MaybeRepairStep(s, id, status, h).1.info.row;
             r.attemptCount > 0 && r.startedAt.Some? ==>
               h.decided >= r.startedAt.value + CappedDoubling(r.attemptCount, BaseCooldown(s.config)))
  {
    LaunchedThroughGates(s, id, status, h);
    BaseAtLeastMinute(s.config);
    var r := MaybeRepairStep(s, id, status, h).1.info.row;
    hide MaybeRepairStep, CooldownFor, BaseCooldown, CappedDoubling;
    if r.attemptCount > 0 {
      CooldownIsCappedDoubling(r.attemptCount, BaseCooldown(s.config));
    }
  }

  lemma LaunchElsewhere(s: State, id: string, other: string, info: SessionInfo, status: DisplayStatus, h: Host)
    requires other != id
    ensures Same(s, LaunchStep(s, id, info, status, h).0, other)
  {
    hide *;
    hide Same;
    var input := BuildInput(s, id, info, status, h);
    var move := PersistedMove(info.row, input);
    var t := Decide(s, id, input, move, h.decided).0;
    ClearElsewhere(s, id, other);
    DecideElsewhere(s, id, other, input, move, h.decided);
    BlockElsewhere(t, id, other, false, h.blockOk, h.decided);
    SameSame(s, t, AfterBlock(t, id, false, h.blockOk, h.decided), other);
    LaunchOutcomes(s, id, info, status, h);
  }

  lemma LaunchOutcomes(s: State, id: string, info: SessionInfo, status: DisplayStatus, h: Host)
    ensures (var input := BuildInput(s, id, info, status, h);
             var t := Decide(s, id, input, PersistedMove(info.row, input), h.decided).0;
             LaunchStep(s, id, info, status, h).0 in {s, t, AfterBlock(t, id, false, h.blockOk, h.decided)})
  {
    hide BuildInput, Decide, PersistedMove, AfterBlock, PersistedCounts, RepairInput.Repeats;
  }

  lemma StepOutcomes(s: State, id: string, status: DisplayStatus, h: Host)
    ensures (var (t, info) := Evaluate(s, id, status, h);
             MaybeRepairStep(s, id, status, h).0
             in {s, t, ClearRefusals(t, id), AfterBlock(t, id, false, h.blockOk, h.gated),
                 LaunchStep(t, id, info, status, h).0})
  {
    hide Evaluate, LaunchStep, ClearRefusals, AfterBlock, ChatIdleness, BackingOff, RepairExhausted, BaseCooldown,
        State.Free, IdleThreshold;
  }

  /** A call concerns its own session only. */
  lemma OthersUntouched(s: State, id: string, other: string, status: DisplayStatus, h: Host)
    requires other != id
    ensures Same(s, MaybeRepairStep(s, id, status, h).0, other)
  {
    hide *;
    var (t, info) := Evaluate(s, id, status, h);
    var blocked, launched := AfterBlock(t, id, false, h.blockOk, h.gated), LaunchStep(t, id, info, status, h).0;
    EvaluateElsewhere(s, id, other, status, h);
    ClearElsewhere(s, id, other);
    ClearElsewhere(t, id, other);
    BlockElsewhere(t, id, other, false, h.blockOk, h.gated);
    LaunchElsewhere(t, id, other, info, status, h);
    SameSame(s, t, ClearRefusals(t, id), other);
    SameSame(s, t, blocked, other);
    SameSame(s, t, launched, other);
    StepOutcomes(s, id, status, h);
  }

  // ---- a call is a run

  /** A run that ends with the monitor as `m`, the lease untouched, and the sessions in `more` launched. */
  ghost predicate RunTo(s: Runs.System, es: seq<Runs.Event>, m: State, more: seq<Runs.Worker>) {
    Runs.IsRun(s, es) && Runs.After(s, es) == Runs.System(m, s.workers + more, s.lease)
  }

  lemma Stay(s: Runs.System)
    ensures RunTo(s, [], s.m, [])
  {
  }

  lemma Then(s: Runs.System, es: seq<Runs.Event>, m: State, e: Runs.Event, n: State, added: seq<Runs.Worker>)
    requires RunTo(s, es, m, [])
    requires forall t: Runs.System | t.m == m :: Adds(t, e, n, added)
    ensures RunTo(s, es + [e], n, added)
  {
    var t := Runs.After(s, es);
    assert Adds(t, e, n, added) && t.workers == s.workers;
    Runs.RunOn(s, es, [e]);
    assert Runs.After(t, [e]) == Runs.Next(t, e);
  }

  predicate Adds(t: Runs.System, e: Runs.Event, n: State, added: seq<Runs.Worker>) {
    Runs.Enabled(t, e) && Runs.Next(t, e) == Runs.System(n, t.workers + added, t.lease)
  }

  lemma SettleIsRun(s: Runs.System, es: seq<Runs.Event>, m: State, id: string, released: bool, repairable: bool,
                    after: SessionInfo)
    returns (r: seq<Runs.Event>)
    requires RunTo(s, es, m, [])
    ensures RunTo(s, r, Settle(m, id, released, repairable, after), [])
  {
    hide RunTo, ClearReleasedStartBlock, ClearRefusals;
    r := es;
    var n := m;
    if !released && repairable {
      n := ClearReleasedStartBlock(m, id);
      Then(s, r, m, Runs.SweptRepairable(id), n, []);
      r := r + [Runs.SweptRepairable(id)];
    }
    if !after.repairable && after.startBlock.None? {
      Then(s, r, n, Runs.RefusalsCleared(id), ClearRefusals(n, id), []);
      r := r + [Runs.RefusalsCleared(id)];
    }
  }

  lemma EvaluateIsRun(s: Runs.System, id: string, status: DisplayStatus, h: Host) returns (es: seq<Runs.Event>)
    ensures RunTo(s, es, Evaluate(s.m, id, status, h).0, [])
  {
    var leg, headSHA, blockedAt, lifting, released, repairable, after := EvaluateSteps(s.m, id, status, h);
    hide RunTo, Evaluate, Settle, AfterRelease;
    Stay(s);
    es := [];
    var m := s.m;
    if lifting {
      var e := Runs.StartBlockReleased(id, leg, h.unblockOk, headSHA, blockedAt, h.evaluated);
      m := AfterRelease(s.m, id, leg, h.unblockOk, headSHA, blockedAt, h.evaluated);
      Then(s, es, s.m, e, m, []);
      es := es + [e];
    }
    es := SettleIsRun(s, es, m, id, released, repairable, after);
  }

  /** The session a call launches. */
  function NewWorkers(o: Outcome, id: string): seq<Runs.Worker> {
    if o.Launched? then [Runs.Launched(id, o.baseSHA)] else []
  }

  lemma DecideAdds(m: State, id: string, input: RepairInput, move: bool, h: Host)
    requires (input.baseOk <==> input.baseSHA != "") && (move ==> AttemptBaseSHA(input.status, input.baseSHA) != "")
    ensures (var (n, d) := Decide(m, id, input, move, h.decided);
             forall t: Runs.System | t.m == m ::
               Adds(t, Runs.Decided(id, input, move, h.decided, BaseSHAForAttempt(input, h)), n,
                    if d == Launch then [Runs.Launched(id, BaseSHAForAttempt(input, h))] else []))
  {
    hide Decide;
  }

  lemma LaunchIsRun(s: Runs.System, before: seq<Runs.Event>, m: State, id: string, info: SessionInfo,
                    status: DisplayStatus, h: Host)
    returns (es: seq<Runs.Event>)
    requires RunTo(s, before, m, [])
    ensures (var (n, o) := LaunchStep(m, id, info, status, h); RunTo(s, es, n, NewWorkers(o, id)))
  {
    var input := BuildInput(m, id, info, status, h);
    var move := PersistedMove(info.row, input);
    var (n, d) := Decide(m, id, input, move, h.decided);
    var e := Runs.Decided(id, input, move, h.decided, BaseSHAForAttempt(input, h));
    DecideAdds(m, id, input, move, h);
    hide RunTo, Adds, BuildInput, Decide, BaseSHAForAttempt, PersistedMove, AfterBlock, PersistedCounts,
        RepairInput.Repeats;
    es := before;
    if !(PersistedCounts(info.row) && input.Repeats(PersistedInput(info.row))) {
      Then(s, es, m, e, n, if d == Launch then [Runs.Launched(id, BaseSHAForAttempt(input, h))] else []);
      es := es + [e];
      if d == GiveUp {
        var b := Runs.BlockEnded(id, false, h.blockOk, h.decided);
        BlockAdds(n, id, h.blockOk, h.decided);
        Then(s, es, n, b, AfterBlock(n, id, false, h.blockOk, h.decided), []);
        es := es + [b];
      }
    }
  }

  lemma BlockAdds(m: State, id: string, ok: bool, now: Time)
    ensures forall t: Runs.System | t.m == m ::
              Adds(t, Runs.BlockEnded(id, false, ok, now), AfterBlock(m, id, false, ok, now), [])
  {
  }

  /** A call of MaybeRepair is a run of the monitor's critical sections that leaves
      every earlier repair session and the lease alone and launches one for this
      session if the call says so, and none otherwise: whatever holds over every
      run holds of every call. */
  lemma MaybeRepairIsRun(s: Runs.System, id: string, status: DisplayStatus, h: Host) returns (es: seq<Runs.Event>)
    ensures (var (m, o) := MaybeRepairStep(s.m, id, status, h); RunTo(s, es, m, NewWorkers(o, id)))
  {
    hide RunTo, Evaluate, AfterBlock, LaunchStep, ClearRefusals, ChatIdleness, BackingOff, RepairExhausted,
        BaseCooldown, State.Free, IdleThreshold;
    Stay(s);
    es := [];
    if NeedsRepair(status) && s.m.Free(id, h.admitted) {
      es := EvaluateIsRun(s, id, status, h);
      var (t, info) := Evaluate(s.m, id, status, h);
      if info.repairable {
        match ChatIdleness(info.row, IdleThreshold(t.config), h.gated)
        case Unknown =>
        case Busy =>
          Then(s, es, t, Runs.RefusalsCleared(id), ClearRefusals(t, id), []);
          es := es + [Runs.RefusalsCleared(id)];
        case Quiet =>
          if RepairExhausted(info.row) {
            BlockAdds(t, id, h.blockOk, h.gated);
            var b := Runs.BlockEnded(id, false, h.blockOk, h.gated);
            Then(s, es, t, b, AfterBlock(t, id, false, h.blockOk, h.gated), []);
            es := es + [b];
          } else if !BackingOff(info.row, BaseCooldown(s.m.config), h.gated) {
            es := LaunchIsRun(s, es, t, id, info, status, h);
          }
      }
    }
  }
}
