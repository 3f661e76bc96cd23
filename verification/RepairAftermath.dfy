/** What a call of MaybeRepair leaves of the monitor, told from the row, the monitor
    and the host's answers alone. */
module RepairAftermath {
  import opened Wrappers
  import opened Calendar
  import opened RepairBackoff
  import opened RepairModel
  import opened RepairMonitor
  import opened RepairCalls

  /** The call lifts a start block, or tries to. */
  predicate TriesToLift(status: DisplayStatus, h: Host) {
    h.row.Some? && StartBlocked(h.row.value)
    && (HasMoved(h.row.value, status, h) || Stale(h.row.value, h))
  }

  /** The row the gates look at, if the session is one that may be repaired now. */
  function RowActedOn(status: DisplayStatus, h: Host): Option<Row> {
    var row := if h.row.Some? && StartBlocked(h.row.value)
        then (if TriesToLift(status, h) && h.unblockOk then h.rowAfter else None) else h.row;
    if row.Some? && MayBeRepaired(row.value) && InRepairableState(row.value, status) then row else None
  }

  /** What is put under a session's name, or taken away. */
  function Put<V>(m: map<string, V>, id: string, v: Option<V>): map<string, V> {
    if v.Some? then m[id := v.value] else m - {id}
  }

  function Held<V>(m: map<string, V>, id: string): Option<V> {
    if id in m then Some(m[id]) else None
  }

  /** The refusals once the session was looked up: gone if its head or base moved on, if
      it was taken out of its block by somebody else, or if it is not to be repaired;
      five, with a hand-over due, if its block is probed. */
  function RefusalsFound(s: State, id: string, status: DisplayStatus, h: Host): Option<RefusalStreak> {
    if h.row.None? then None
    else
      var r := h.row.value;
      if !StartBlocked(r) then
        if MayBeRepaired(r) && InRepairableState(r, status) && id in s.refusals && !s.refusals[id].blocked then
          Some(s.refusals[id])
        else None
      else if !TriesToLift(status, h) || !h.unblockOk then Held(s.refusals, id)
      else if HasMoved(r, status, h) then None
      else if h.rowAfter.Some? && (StartBlocked(h.rowAfter.value) || RowActedOn(status, h).Some?) then
        Some(RefusalStreak(true, false, r.headSHA, r.blockedAt.value, 5))
      else None
  }

  /** A launch that only the base tells apart from an attempt made before. */
  predicate BaseOnly(s: State, id: string, r: Row, status: DisplayStatus, base: string) {
    && status in {Failing, Conflict} && base != ""
    && ((SamePersisted(r, status) && !r.runnerError && !r.exitRetryable) || SameRemembered(s, id, r, status))
  }

  /** The bases tried on a head, this one counted unless it was the last one counted. */
  function BasesTried(was: BaseMoveStreak, headSHA: string, base: string): BaseMoveStreak {
    if was.headSHA != headSHA then BaseMoveStreak(headSHA, base, 1)
    else if was.count > 0 && was.baseSHA == base then was
    else BaseMoveStreak(headSHA, base, was.count + 1)
  }

  function BasesLeft(s: State, id: string, status: DisplayStatus, h: Host, o: Outcome): Option<BaseMoveStreak> {
    if o.HandedOver? && h.blockOk then None
    else if o.Launched? then
      var r := o.info.row;
      var base := BaseRead(s, id, r, status, h);
      if BaseOnly(s, id, r, status, base) then Some(BasesTried(s.Moves(id), r.headSHA, base))
      else Held(s.baseMoves, id)
    else Held(s.baseMoves, id)
  }

  function RefusalsLeft(s: State, id: string, status: DisplayStatus, h: Host, o: Outcome): Option<RefusalStreak> {
    var row := RowActedOn(status, h);
    if (o.HandedOver? && h.blockOk) || (row.Some? && ChatBusy(s, row.value, h)) then None
    else RefusalsFound(s, id, status, h)
  }

  /** The cooldown a failed call of the host leaves: from the attempt to lift the block,
      or from the attempt to hand the session over. */
  function CooldownLeft(s: State, id: string, status: DisplayStatus, h: Host, o: Outcome): Option<Time> {
    var row := RowActedOn(status, h);
    if TriesToLift(status, h) && !h.unblockOk then Some(h.evaluated)
    else if o.HandedOver? && !h.blockOk && row.Some? then Some(if AttemptsLeft(row.value) then h.decided else h.gated)
    else Held(s.cooldowns, id)
  }

  /** Everything the call leaves. */
  function Left(s: State, id: string, status: DisplayStatus, h: Host, o: Outcome): State {
    s.(repairing := if o.Launched? then s.repairing + {id} else s.repairing,
       cooldowns := Put(s.cooldowns, id, CooldownLeft(s, id, status, h, o)),
       refusals := Put(s.refusals, id, RefusalsLeft(s, id, status, h, o)),
       baseMoves := Put(s.baseMoves, id, BasesLeft(s, id, status, h, o)))
  }

  // ---- step by step

  lemma PutHeld<V>(m: map<string, V>, id: string)
    ensures Put(m, id, Held(m, id)) == m
  {
  }

  lemma PutTwice<V>(m: map<string, V>, id: string, v: Option<V>, w: Option<V>)
    ensures Put(Put(m, id, v), id, w) == Put(m, id, w) && Held(Put(m, id, v), id) == v
  {
  }

  lemma EvaluatedFreeLeaves(s: State, id: string, status: DisplayStatus, h: Host)
    requires CanBeRepaired(status) && !(h.row.Some? && StartBlocked(h.row.value))
    ensures (var (t, info) := Evaluate(s, id, status, h);
             && t == s.(refusals := Put(s.refusals, id, RefusalsFound(s, id, status, h)))
             && (info.repairable <==> RowActedOn(status, h).Some?)
             && (info.repairable ==> Some(info.row) == RowActedOn(status, h)))
  {
    LookedUp(h.row, status);
    PutHeld(s.refusals, id);
    hide LookupSession, Release, StartBlocked, MayBeRepaired, InRepairableState;
  }

  lemma LiftedLeaves(s: State, id: string, info: SessionInfo, status: DisplayStatus, h: Host)
    requires CanBeRepaired(status) && h.row.Some? && StartBlocked(h.row.value)
    requires info == LookupSession(h.row, status) && info.startBlock.Some? && info.row == h.row.value
    requires info.blockedAt == h.row.value.blockedAt
    ensures (var (t, released), r := Release(s, id, info, status, h), h.row.value;
             && (released <==> TriesToLift(status, h) && h.unblockOk)
             && t == (if !TriesToLift(status, h) then s
                      else if !h.unblockOk then NoteCooldown(s, id, h.evaluated)
                      else s.(refusals := Put(s.refusals, id, if HasMoved(r, status, h) then None
                          else Some(RefusalStreak(true, false, r.headSHA, r.blockedAt.value, 5))))))
  {
    LegIs(h.row.value, status, h);
    hide LegOf, LookupSession, HeadHasMoved, BaseHasMoved, StartBlocked;
  }

  lemma BlockedFound(s: State, id: string, status: DisplayStatus, h: Host)
    requires h.row.Some? && StartBlocked(h.row.value)
    ensures (var r, tries := h.row.value, TriesToLift(status, h);
             && (!tries || !h.unblockOk ==>
                 RefusalsFound(s, id, status, h) == Held(s.refusals, id) && RowActedOn(status, h).None?)
             && (tries && h.unblockOk ==>
                 var again := h.rowAfter;
                 var fits := again.Some? && MayBeRepaired(again.value) && InRepairableState(again.value, status);
                 && RowActedOn(status, h) == (if fits then again else None)
                 && RefusalsFound(s, id, status, h)
                    == if HasMoved(r, status, h) || !(fits || (again.Some? && StartBlocked(again.value))) then None
                       else Some(RefusalStreak(true, false, r.headSHA, r.blockedAt.value, 5))))
  {
    hide HasMoved, MayBeRepaired, InRepairableState, StartBlocked;
  }

  lemma StandsLeaves(s: State, id: string, status: DisplayStatus, h: Host)
    requires CanBeRepaired(status) && h.row.Some? && StartBlocked(h.row.value)
    requires !TriesToLift(status, h) || !h.unblockOk
    ensures (var (t, info) := Evaluate(s, id, status, h);
             && t == s.(cooldowns := if TriesToLift(status, h) then s.cooldowns[id := h.evaluated] else s.cooldowns)
             && !info.repairable)
  {
    var info := LookupSession(h.row, status);
    LegIs(h.row.value, status, h);
    LiftedLeaves(s, id, info, status, h);
    hide LookupSession, Release, StartBlocked, TriesToLift, CanBeRepaired;
  }

  lemma LiftLeaves(s: State, id: string, status: DisplayStatus, h: Host)
    requires CanBeRepaired(status) && h.row.Some? && StartBlocked(h.row.value)
    requires TriesToLift(status, h) && h.unblockOk
    ensures (var (t, info) := Evaluate(s, id, status, h);
             && t == s.(refusals := Put(s.refusals, id, RefusalsFound(s, id, status, h)))
             && (info.repairable <==> RowActedOn(status, h).Some?)
             && (info.repairable ==> Some(info.row) == RowActedOn(status, h)))
  {
    var info := LookupSession(h.row, status);
    LegIs(h.row.value, status, h);
    LiftedLeaves(s, id, info, status, h);
    LookedUp(h.rowAfter, status);
    BlockedFound(s, id, status, h);
    hide LookupSession, Release, StartBlocked, MayBeRepaired, InRepairableState, HasMoved, LegOf, TriesToLift,
         RefusalsFound, RowActedOn, CanBeRepaired, ClearReleasedStartBlock;
  }

  lemma EvaluatedBlockedLeaves(s: State, id: string, status: DisplayStatus, h: Host)
    requires CanBeRepaired(status) && h.row.Some? && StartBlocked(h.row.value)
    ensures (var (t, info) := Evaluate(s, id, status, h);
             && t == s.(refusals := Put(s.refusals, id, RefusalsFound(s, id, status, h)),
                        cooldowns := if TriesToLift(status, h) && !h.unblockOk then s.cooldowns[id := h.evaluated]
                                     else s.cooldowns)
             && (info.repairable <==> RowActedOn(status, h).Some?)
             && (info.repairable ==> Some(info.row) == RowActedOn(status, h)))
  {
    hide Evaluate, StartBlocked, TriesToLift, RowActedOn, RefusalsFound, CanBeRepaired, Put, Held;
    if TriesToLift(status, h) && h.unblockOk {
      LiftLeaves(s, id, status, h);
    } else {
      StandsLeaves(s, id, status, h);
      BlockedFound(s, id, status, h);
      PutHeld(s.refusals, id);
    }
  }

  lemma EvaluatedLeaves(s: State, id: string, status: DisplayStatus, h: Host)
    requires CanBeRepaired(status)
    ensures (var (t, info) := Evaluate(s, id, status, h);
             && t == s.(refusals := Put(s.refusals, id, RefusalsFound(s, id, status, h)),
                        cooldowns := if TriesToLift(status, h) && !h.unblockOk then s.cooldowns[id := h.evaluated]
                                     else s.cooldowns)
             && (info.repairable <==> RowActedOn(status, h).Some?)
             && (info.repairable ==> Some(info.row) == RowActedOn(status, h)))
  {
    hide Evaluate;
    if h.row.Some? && StartBlocked(h.row.value) {
      EvaluatedBlockedLeaves(s, id, status, h);
    } else {
      EvaluatedFreeLeaves(s, id, status, h);
    }
  }

  lemma GivenUp(s: State, id: string, ok: bool, now: Time)
    ensures AfterBlock(s, id, false, ok, now)
            == if ok then s.(refusals := s.refusals - {id}, baseMoves := s.baseMoves - {id})
               else s.(cooldowns := s.cooldowns[id := now])
  {
  }

  lemma RetryIs(s: State, id: string, r: Row, input: RepairInput)
    requires CanBeRepaired(input.status) && input.headSHA == r.headSHA
    ensures (var m := NoteBaseMoveRetry(s.Moves(id), s.Last(id), input, PersistedMove(r, input));
             && (!m.exhausted ==>
                 m.streak == if BaseOnly(s, id, r, input.status, input.baseSHA)
                             then BasesTried(s.Moves(id), r.headSHA, input.baseSHA) else s.Moves(id)))
  {
  }

  lemma LaunchLeaves(s: State, id: string, info: SessionInfo, status: DisplayStatus, h: Host)
    requires CanBeRepaired(status)
    ensures (var (t, o) := LaunchStep(s, id, info, status, h);
             && (o.Launched? ==> o.info == info)
             && t == if o.HandedOver? then AfterBlock(s, id, false, h.blockOk, h.decided)
                     else if o.Launched? then
                       s.(repairing := s.repairing + {id},
                           baseMoves := Put(s.baseMoves, id, BasesLeft(s, id, status, h, o)))
                     else s)
  {
    var r, input := info.row, BuildInput(s, id, info, status, h);
    InputIs(s, id, info, status, h);
    RetryIs(s, id, r, input);
    PutHeld(s.baseMoves, id);
    hide BuildInput, RepairInput.Repeats, NoteBaseMoveRetry, BaseOnly, BasesTried, BaseRead, PersistedMove,
        AfterBlock, State.Free, PersistedCounts;
  }

  /** What the gates leave of the state they find. */
  function Passed(s: State, id: string, r: Row, status: DisplayStatus, h: Host, o: Outcome): State {
    s.(repairing := if o.Launched? then s.repairing + {id} else s.repairing,
       cooldowns := if o.HandedOver? && !h.blockOk
                    then s.cooldowns[id := if AttemptsLeft(r) then h.decided else h.gated] else s.cooldowns,
       refusals := if ChatBusy(s, r, h) || (o.HandedOver? && h.blockOk) then s.refusals - {id} else s.refusals,
       baseMoves := Put(s.baseMoves, id, BasesLeft(s, id, status, h, o)))
  }

  lemma LaunchPassed(s: State, id: string, info: SessionInfo, status: DisplayStatus, h: Host)
    requires CanBeRepaired(status) && AttemptsLeft(info.row) && !ChatBusy(s, info.row, h)
    ensures (var (t, o) := LaunchStep(s, id, info, status, h); t == Passed(s, id, info.row, status, h, o))
  {
    LaunchLeaves(s, id, info, status, h);
    GivenUp(s, id, h.blockOk, h.decided);
    PutHeld(s.baseMoves, id);
    hide LaunchStep, AfterBlock, ChatBusy, AttemptsLeft, BaseRead, BaseOnly, BasesTried;
  }

  lemma GatedLeaves(s: State, id: string, info: SessionInfo, base: int, status: DisplayStatus, h: Host)
    requires CanBeRepaired(status) && info.repairable
    ensures (var (t, o) := GatedStep(s, id, info, base, status, h); t == Passed(s, id, info.row, status, h, o))
  {
    var r := info.row;
    GatedCases(s, id, info, base, status, h);
    assert RepairExhausted(r) <==> !AttemptsLeft(r);
    GivenUp(s, id, h.blockOk, h.gated);
    PutHeld(s.baseMoves, id);
    hide GatedStep, LaunchStep, AfterBlock, AttemptsLeft, RepairExhausted, IdleThreshold, CooldownFor, BaseRead,
         BaseOnly, BasesTried;
    if AttemptsLeft(r) && !ChatBusy(s, r, h) {
      LaunchPassed(s, id, info, status, h);
    }
  }

  /** The gates see the same row and history whatever the lookup left of refusals and cooldowns. */
  lemma SameBases(s: State, t: State, id: string, status: DisplayStatus, h: Host, o: Outcome)
    requires t == s.(refusals := t.refusals, cooldowns := t.cooldowns)
    ensures BasesLeft(t, id, status, h, o) == BasesLeft(s, id, status, h, o)
    ensures forall r :: ChatBusy(t, r, h) == ChatBusy(s, r, h)
  {
    var u := s.(refusals := t.refusals);
    if o.Launched? {
      assert t.Last(id) == s.Last(id) && t.Moves(id) == s.Moves(id);
      hide SameHead, State.Last, State.Moves, IdleThreshold;
      assert SameRemembered(t, id, o.info.row, status) == SameRemembered(s, id, o.info.row, status);
      hide SameRemembered, SamePersisted;
    }
  }

  lemma NothingHeld(s: State, id: string, status: DisplayStatus, h: Host)
    ensures BasesLeft(s, id, status, h, NotLaunched) == Held(s.baseMoves, id)
    ensures RowActedOn(status, h).None? ==>
              RefusalsLeft(s, id, status, h, NotLaunched) == RefusalsFound(s, id, status, h)
    ensures CooldownLeft(s, id, status, h, NotLaunched)
         == if TriesToLift(status, h) && !h.unblockOk then Some(h.evaluated) else Held(s.cooldowns, id)
  {
    hide RefusalsFound, TriesToLift, RowActedOn;
  }

  lemma ActedOnMeans(status: DisplayStatus, h: Host)
    ensures RowActedOn(status, h).Some? ==> !(TriesToLift(status, h) && !h.unblockOk)
  {
    hide HasMoved, Stale, MayBeRepaired, InRepairableState;
  }

  /** What one call leaves, whatever its outcome: the mark of a launch, and this
      session's cooldown, refusals and bases as told above. */
  lemma CallLeaves(s: State, id: string, status: DisplayStatus, h: Host)
    ensures (var (t, o) := MaybeRepairStep(s, id, status, h);
             t == if Admitted(s, id, status, h) then Left(s, id, status, h, o) else s)
  {
    AdmittedIs(s, id, status, h);
    var (t, o) := MaybeRepairStep(s, id, status, h);
    if Admitted(s, id, status, h) {
      var (u, info) := Evaluate(s, id, status, h);
      EvaluatedLeaves(s, id, status, h);
      assert CanBeRepaired(status);
      hide Evaluate, GatedStep, Admitted, BaseCooldown, RefusalsFound, TriesToLift, RowActedOn, NeedsRepair;
      ActedOnMeans(status, h);
      assert (t, o) == GatedStep(u, id, info, BaseCooldown(s.config), status, h);
      if info.repairable {
        GatedLeaves(u, id, info, BaseCooldown(s.config), status, h);
        SameBases(s, u, id, status, h, o);
        LeftPassed(s, u, id, info.row, status, h, o);
      } else {
        NotRepairable(u, id, info, BaseCooldown(s.config), status, h);
        NothingHeld(s, id, status, h);
        PutHeld(s.baseMoves, id);
        PutHeld(s.cooldowns, id);
        hide BasesLeft, RefusalsLeft, CooldownLeft, Held;
      }
    }
  }

  lemma LeftPassed(s: State, u: State, id: string, r: Row, status: DisplayStatus, h: Host, o: Outcome)
    requires u == s.(refusals := Put(s.refusals, id, RefusalsFound(s, id, status, h)))
    requires RowActedOn(status, h) == Some(r) && !(TriesToLift(status, h) && !h.unblockOk)
    requires BasesLeft(u, id, status, h, o) == BasesLeft(s, id, status, h, o) && ChatBusy(u, r, h) == ChatBusy(s, r, h)
    ensures Passed(u, id, r, status, h, o) == Left(s, id, status, h, o)
  {
    hide RefusalsFound, TriesToLift, RowActedOn, BasesLeft, ChatBusy, AttemptsLeft;
    PutHeld(s.cooldowns, id);
    PutTwice(s.refusals, id, RefusalsFound(s, id, status, h), None);
  }
}
