/** When refused starts hand a session to a person, over whole runs. */
module RepairRefusals {
  import opened Calendar
  import opened RepairModel
  import opened RepairMonitor
  import opened RepairRuns

  /** What happened to a session since its refusals last started over: whether a
      reprobe opened the streak, the one head it is on, the time of every refusal
      in it, and whether the session was handed to a person meanwhile. */
  datatype Streak = Streak(reprobed: bool, headSHA: string, times: seq<Time>, handed: bool)

  const FRESH := Streak(false, "", [], false)

  predicate Begun(k: Streak) {
    k.reprobed || k.times != []
  }

  /** Five refusals on one known head, the last of them half an hour or more after
      the first; after a reprobe any one is enough. */
  predicate Due(k: Streak) {
    || k.reprobed
    || (k.headSHA != "" && exists n | MAX_ATTEMPTS - 1 <= n < |k.times| :: k.times[n] - k.times[0] >= ESCALATE_AFTER)
  }

  /** How one event changes it: a started run, another head, a lifted block, a
      session no longer repairable and a hand-over for another reason all start it over. */
  function Follow(k: Streak, s: System, e: Event, id: string): Streak
    requires Enabled(s, e)
  {
    match e
    case StartRefused(w, headSHA, now) =>
      if s.workers[w].session != id then k
      else if Begun(k) && k.headSHA == headSHA then k.(times := k.times + [now])
      else Streak(false, headSHA, [now], false)
    case RunStarted(w, _) => if s.workers[w].session == id then FRESH else k
    case RefusalsCleared(i) => if i == id then FRESH else k
    case BlockEnded(i, recoverable, ok, _) =>
      if i != id || !ok then k else if recoverable then k.(handed := true) else FRESH
    case StartBlockReleased(i, leg, ok, headSHA, _, _) =>
      if i != id || !ok then k else if leg == Reprobe then Streak(true, headSHA, [], false) else FRESH
    case SweptRepairable(i) => if i == id && k.handed then FRESH else k
    case _ => k
  }

  function FollowAll(k: Streak, s: System, es: seq<Event>, id: string): Streak
    requires IsRun(s, es)
    decreases es
  {
    if es == [] then k else FollowAll(Follow(k, s, es[0], id), Next(s, es[0]), es[1..], id)
  }

  /** The monitor's counters say what the history says. */
  ghost predicate Matches(k: Streak, r: RefusalStreak) {
    && r.blocked == k.handed
    && (if !Begun(k) then r.count == 0
        else
          && r.headSHA == k.headSHA
          && r.count == |k.times| + (if k.reprobed then MAX_ATTEMPTS else 0)
          && (!k.reprobed ==> r.first == k.times[0])
          && (r.escalated <==> Due(k)))
  }

  lemma RefusalMatches(k: Streak, r: RefusalStreak, headSHA: string, now: Time)
    requires Matches(k, r)
    ensures Matches(if Begun(k) && k.headSHA == headSHA then k.(times := k.times + [now])
            else Streak(false, headSHA, [now], false),
                    NoteRefusal(r, headSHA, now))
  {
    if Begun(k) && k.headSHA == headSHA {
      var t := k.(times := k.times + [now]);
      if n :| MAX_ATTEMPTS - 1 <= n < |k.times| && k.times[n] - k.times[0] >= ESCALATE_AFTER {
        assert t.times[n] - t.times[0] >= ESCALATE_AFTER;
      }
      assert !k.reprobed ==> t.times[|k.times|] == now && t.times[0] == k.times[0];
    }
  }

  lemma RefusedMatches(k: Streak, s: System, w: nat, headSHA: string, now: Time, id: string)
    requires Enabled(s, StartRefused(w, headSHA, now)) && Matches(k, s.m.Refusals(id))
    ensures Matches(Follow(k, s, StartRefused(w, headSHA, now), id),
            Next(s, StartRefused(w, headSHA, now)).m.Refusals(id))
  {
    RefusalMatches(k, s.m.Refusals(id), headSHA, now);
    hide NoteRefusal, Due, Matches;
    var t := Next(s, StartRefused(w, headSHA, now));
    assert t.m.Refusals(id) == if s.workers[w].session == id then NoteRefusal(s.m.Refusals(id), headSHA, now)
           else s.m.Refusals(id);
  }

  lemma RefusalsUntouched(s: System, e: Event)
    requires Enabled(s, e)
    requires !e.StartRefused? && !e.BlockEnded? && !e.StartBlockReleased? && !e.SweptRepairable?
    requires !e.RefusalsCleared? && !e.RunStarted?
    ensures Next(s, e).m.refusals == s.m.refusals
  {
    hide Decide;
    if e.Decided? {
      DecideRefusals(s.m, e.id, e.input, e.persistedMove, e.now);
    }
  }

  /** What the steps that may start a streak over leave of it. */
  lemma SettledRefusals(s: System, e: Event, id: string)
    requires Enabled(s, e)
    requires e.BlockEnded? || e.StartBlockReleased? || e.SweptRepairable? || e.RefusalsCleared? || e.RunStarted?
    ensures (var r := s.m.Refusals(id);
             Next(s, e).m.Refusals(id) ==
             match e
             case RunStarted(w, _) => if s.workers[w].session == id then NO_REFUSALS else r
             case RefusalsCleared(i) => if i == id then NO_REFUSALS else r
             case BlockEnded(i, recoverable, ok, _) =>
               if i != id || !ok then r else if recoverable then r.(blocked := true) else NO_REFUSALS
             case StartBlockReleased(i, leg, ok, headSHA, blockedAt, _) =>
               if i != id || !ok then r
               else if leg == Reprobe then RefusalStreak(true, false, headSHA, blockedAt, MAX_ATTEMPTS) else NO_REFUSALS
             case SweptRepairable(i) => if i == id && r.blocked then NO_REFUSALS else r
             case _ => r)
  {
    hide Decide, NoteRefusal, RecordAttempt;
  }

  lemma MatchesKept(k: Streak, r: RefusalStreak)
    requires Matches(k, r)
    ensures Matches(k.(handed := true), r.(blocked := true)) && Matches(FRESH, NO_REFUSALS) && r.blocked == k.handed
  {
    HandedDue(k);
    hide Due;
  }

  lemma ReprobedMatches()
    ensures forall headSHA, blockedAt ::
              Matches(Streak(true, headSHA, [], false), RefusalStreak(true, false, headSHA, blockedAt, MAX_ATTEMPTS))
  {
    ReprobedDue();
    hide Due;
  }

  lemma SettledMatches(k: Streak, s: System, e: Event, id: string)
    requires Enabled(s, e) && Matches(k, s.m.Refusals(id))
    requires e.BlockEnded? || e.StartBlockReleased? || e.SweptRepairable? || e.RefusalsCleared? || e.RunStarted?
    ensures Matches(Follow(k, s, e, id), Next(s, e).m.Refusals(id))
  {
    SettledRefusals(s, e, id);
    MatchesKept(k, s.m.Refusals(id));
    ReprobedMatches();
    hide Due, Next, Matches;
    var r := s.m.Refusals(id);
    assert Matches(k, r) && Matches(FRESH, NO_REFUSALS) && r.blocked == k.handed;
  }

  lemma StepMatches(k: Streak, s: System, e: Event, id: string)
    requires Enabled(s, e) && Matches(k, s.m.Refusals(id))
    ensures Matches(Follow(k, s, e, id), Next(s, e).m.Refusals(id))
  {
    if e.StartRefused? {
      RefusedMatches(k, s, e.w, e.headSHA, e.now, id);
    } else if e.BlockEnded? || e.StartBlockReleased? || e.SweptRepairable? || e.RefusalsCleared? || e.RunStarted? {
      SettledMatches(k, s, e, id);
    } else {
      RefusalsUntouched(s, e);
      hide Next, Matches;
    }
  }

  lemma DecideRefusals(m: State, id: string, input: RepairInput, persistedMove: bool, now: Time)
    ensures Decide(m, id, input, persistedMove, now).0.refusals == m.refusals
  {
  }

  lemma HandedDue(k: Streak)
    ensures Due(k.(handed := true)) == Due(k)
  {
    var t := k.(handed := true);
    assert t.times == k.times;
  }

  lemma ReprobedDue()
    ensures forall headSHA :: Due(Streak(true, headSHA, [], false))
  {
  }

  /** Over whole runs the counters say what the history says. */
  lemma {:induction false} HistoryMatches(k: Streak, s: System, es: seq<Event>, id: string)
    requires IsRun(s, es) && Matches(k, s.m.Refusals(id))
    ensures Matches(FollowAll(k, s, es, id), After(s, es).m.Refusals(id))
    decreases es
  {
    hide Next, Enabled, Matches, Follow;
    if es != [] {
      StepMatches(k, s, es[0], id);
      HistoryMatches(Follow(k, s, es[0], id), Next(s, es[0]), es[1..], id);
    }
  }

  lemma InitialMatches(id: string)
    ensures Matches(FRESH, INITIAL.m.Refusals(id))
  {
  }

  /** A refused attempt of a session in the middle of a run. */
  ghost predicate RefusedAfter(es: seq<Event>, w: nat, h: AttemptHost) {
    IsRun(INITIAL, es) && w < |After(INITIAL, es).workers| && StartOwnership(h) == Refused
    && After(INITIAL, es).workers[w].stage == Running && !After(INITIAL, es).workers[w].owning
  }

  /** The session's history once that attempt was refused too. */
  ghost function HistoryAfter(es: seq<Event>, w: nat, input: RepairInput, h: AttemptHost): Streak
    requires RefusedAfter(es, w, h)
  {
    var s := After(INITIAL, es);
    var id := s.workers[w].session;
    Follow(FollowAll(FRESH, INITIAL, es, id), s, StartRefused(w, input.headSHA, h.refused), id)
  }

  /** Wherever in a run an attempt is refused, the session is handed over there and
      then if its history has come to be due, and otherwise only the refusal and the
      cooldown are noted. */
  lemma HandsOverWhenDue(es: seq<Event>, w: nat, input: RepairInput, h: AttemptHost)
    requires RefusedAfter(es, w, h)
    ensures (var s := After(INITIAL, es);
             var id := s.workers[w].session;
             var noted := Next(s, StartRefused(w, input.headSHA, h.refused)).m;
             AttemptStep(s.m, id, input, h).0
             == if Due(HistoryAfter(es, w, input, h)) then
                  AfterBlock(noted, id, StartBlockOf(input.headSHA, input.baseSHA).Some?, h.blockOk, h.refused)
                else noted)
  {
    var s := After(INITIAL, es);
    var id := s.workers[w].session;
    var e := StartRefused(w, input.headSHA, h.refused);
    InitialMatches(id);
    HistoryMatches(FRESH, INITIAL, es, id);
    StepMatches(FollowAll(FRESH, INITIAL, es, id), s, e, id);
    hide IsRun, After, FollowAll, AfterBlock, NoteRefusal, StartBlockOf, Due;
    assert Begun(HistoryAfter(es, w, input, h));
  }

  // ---- what due comes to when the clock never goes back

  predicate InOrder(times: seq<Time>) {
    forall i, j | 0 <= i <= j < |times| :: times[i] <= times[j]
  }

  /** The refusals of a session are noted at times that never go back. */
  ghost predicate ClockForward(s: System, es: seq<Event>, id: string, since: Time)
    requires IsRun(s, es)
    decreases es
  {
    if es == [] then true
    else if Refuses(s, es[0], id) then since <= es[0].now && ClockForward(Next(s, es[0]), es[1..], id, es[0].now)
    else ClockForward(Next(s, es[0]), es[1..], id, since)
  }

  predicate Refuses(s: System, e: Event, id: string)
    requires Enabled(s, e)
  {
    e.StartRefused? && s.workers[e.w].session == id
  }

  lemma FollowInOrder(k: Streak, s: System, e: Event, id: string, since: Time)
    requires Enabled(s, e) && InOrder(k.times) && (k.times != [] ==> k.times[|k.times| - 1] <= since)
    requires Refuses(s, e, id) ==> since <= e.now
    ensures (var t := Follow(k, s, e, id).times;
             InOrder(t) && (t != [] ==> t[|t| - 1] <= if Refuses(s, e, id) then e.now else since))
  {
  }

  lemma {:induction false} HistoryInOrder(k: Streak, s: System, es: seq<Event>, id: string, since: Time)
    requires IsRun(s, es) && ClockForward(s, es, id, since) && InOrder(k.times)
    requires k.times != [] ==> k.times[|k.times| - 1] <= since
    ensures InOrder(FollowAll(k, s, es, id).times)
    decreases es
  {
    hide Next, Enabled, Follow, InOrder;
    if es != [] {
      FollowInOrder(k, s, es[0], id, since);
      HistoryInOrder(Follow(k, s, es[0], id), Next(s, es[0]), es[1..], id,
          if Refuses(s, es[0], id) then es[0].now else since);
    }
  }

  /** In a run whose clock never goes back, a streak no reprobe opened is due exactly
      when its last refusal is at least the fifth and half an hour after its first,
      and the monitor's own flag says so. */
  lemma DueInOrder(es: seq<Event>, id: string, since: Time)
    requires IsRun(INITIAL, es) && ClockForward(INITIAL, es, id, since)
    ensures (var k := FollowAll(FRESH, INITIAL, es, id);
             !k.reprobed && k.times != [] ==>
               && (Due(k) <==>
                   && k.headSHA != "" && |k.times| >= MAX_ATTEMPTS
                   && k.times[|k.times| - 1] - k.times[0] >= ESCALATE_AFTER)
               && (After(INITIAL, es).m.Refusals(id).escalated <==> Due(k)))
  {
    InitialMatches(id);
    HistoryMatches(FRESH, INITIAL, es, id);
    HistoryInOrder(FRESH, INITIAL, es, id, since);
    hide IsRun, After, FollowAll;
  }

  function RefusalsOf(s: System, es: seq<Event>, id: string): nat
    requires IsRun(s, es)
    decreases es
  {
    if es == [] then 0
    else (if Refuses(s, es[0], id) then 1 else 0) + RefusalsOf(Next(s, es[0]), es[1..], id)
  }

  predicate Reprobes(e: Event, id: string) {
    e.StartBlockReleased? && e.id == id && e.ok && e.leg == Reprobe
  }

  lemma {:induction false} StreakBounded(k: Streak, s: System, es: seq<Event>, id: string)
    requires IsRun(s, es) && forall n | 0 <= n < |es| :: !Reprobes(es[n], id)
    ensures |FollowAll(k, s, es, id).times| <= |k.times| + RefusalsOf(s, es, id)
    ensures FollowAll(k, s, es, id).reprobed ==> k.reprobed
    decreases es
  {
    hide Next, Enabled;
    if es != [] {
      assert !Reprobes(es[0], id);
      StreakBounded(Follow(k, s, es[0], id), Next(s, es[0]), es[1..], id);
    }
  }

  /** So fewer than five refused starts in all, and no reprobe, never hand a session
      over, wherever in the monitor's life they fall. */
  lemma FewRefusalsNeverHandOver(es: seq<Event>, w: nat, input: RepairInput, h: AttemptHost)
    requires RefusedAfter(es, w, h)
    requires (var id := After(INITIAL, es).workers[w].session;
              RefusalsOf(INITIAL, es, id) + 1 < MAX_ATTEMPTS && forall n | 0 <= n < |es| :: !Reprobes(es[n], id))
    ensures (var s := After(INITIAL, es);
             AttemptStep(s.m, s.workers[w].session, input, h).0 == Next(s, StartRefused(w, input.headSHA, h.refused)).m)
  {
    HandsOverWhenDue(es, w, input, h);
    StreakBounded(FRESH, INITIAL, es, After(INITIAL, es).workers[w].session);
    hide FollowAll, RefusalsOf, After, IsRun, AttemptStep, AfterBlock, Next;
  }
}
