/** Whole runs of the repair monitor: notifications, sweeps, workflow calls and
    repair sessions interleaved at the granularity of the events below. */
module RepairRuns {
  import opened Wrappers
  import opened Calendar
  import opened RepairModel
  import opened RepairMonitor

  /** A repair session is Running until its deferred cleanup has deleted its mark,
      and Done once it has also given back the lease, if it took it. */
  datatype Stage = Running | Unmarked | Done

  /** `owning` while an agent run it started is under way; `ran` once one has completed. */
  datatype Worker = Worker(session: string, baseSHA: string, owning: bool, ran: bool, tookLease: bool, stage: Stage,
                           released: nat)

  function Launched(id: string, baseSHA: string): Worker {
    Worker(id, baseSHA, false, false, false, Running, 0)
  }

  /** The monitor, every repair session launched so far, and the sessions whose
      lease the host holds for this dispatcher. */
  datatype System = System(m: State, workers: seq<Worker>, lease: set<string>)

  const INITIAL := System(State(true, false, NO_CONFIG, {}, map[], map[], map[], map[]), [], {})

  /** A call of MaybeRepair appears as the sections it ends in. What it carried
      between sections, such as its input, is arbitrary: anything may have happened
      since it was read. `late` is the base read after the decision.

      Most events are one hold of the lock. Four stand for two in a row, with
      nothing of anyone else's in between: StartRefused for the cooldown and the
      refusal noted after it, a successful BlockEnded for the refusals and then the
      base moves, StartBlockReleased on a reprobe for the refusals cleared and then
      set, and RunStarted for the refusals cleared and the host's answer about the
      lease. */
  datatype Event =
    | StartWorkflow(config: Config)
    | Pause
    | Resume
    | Cancel
    | Decided(id: string, input: RepairInput, persistedMove: bool, now: Time, late: string)
    | RunStarted(w: nat, leaseOk: bool)
    | StartRefused(w: nat, headSHA: string, now: Time)
    | AttemptEnded(w: nat, ran: bool, headSHA: string, status: DisplayStatus, fingerprint: Option<string>, now: Time)
    | MarkDeleted(w: nat)
    | LeaseReleased(w: nat)
    | BlockEnded(id: string, recoverable: bool, ok: bool, now: Time)
    | RefusalsCleared(id: string)
    | StartBlockReleased(id: string, leg: Leg, ok: bool, headSHA: string, blockedAt: Time, now: Time)
    | SweptRepairable(id: string)

  predicate Enabled(s: System, e: Event) {
    match e
    case Decided(_, input, persistedMove, _, _) =>
      (input.baseOk <==> input.baseSHA != "") && (persistedMove ==> AttemptBaseSHA(input.status, input.baseSHA) != "")
    case RunStarted(w, _) => w < |s.workers| && s.workers[w].stage == Running && !s.workers[w].owning
    case StartRefused(w, _, _) => w < |s.workers| && s.workers[w].stage == Running && !s.workers[w].owning
    case AttemptEnded(w, ran, _, _, _, _) => w < |s.workers| && s.workers[w].stage == Running
        && (ran ==> s.workers[w].owning)
    case MarkDeleted(w) => w < |s.workers| && s.workers[w].stage == Running && !s.workers[w].owning
    case LeaseReleased(w) => w < |s.workers| && s.workers[w].stage == Unmarked
    case _ => true
  }

  function AttemptInput(headSHA: string, status: DisplayStatus, fingerprint: Option<string>,
                        baseSHA: string): RepairInput {
    RepairInput(headSHA, status, if fingerprint.Some? then fingerprint.value else "", fingerprint.Some?,
        AttemptBaseSHA(status, baseSHA), false)
  }

  function Next(s: System, e: Event): System
    requires Enabled(s, e)
  {
    match e
    case StartWorkflow(cfg) => s.(m := s.m.(stopped := false, paused := false, config := cfg))
    case Pause => s.(m := s.m.(paused := true))
    case Resume => s.(m := s.m.(paused := false))
    case Cancel => s.(m := s.m.(stopped := true))
    case Decided(id, input, persistedMove, now, late) =>
      var (m, d) := Decide(s.m, id, input, persistedMove, now);
      if d == Launch then
        System(m, s.workers + [Launched(id, if input.baseOk then input.baseSHA else late)], s.lease)
      else s.(m := m)
    case RunStarted(w, leaseOk) =>
      var k := s.workers[w];
      System(ClearRefusals(s.m, k.session),
             s.workers[w := k.(owning := true, tookLease := k.tookLease || leaseOk)],
             if leaseOk then s.lease + {k.session} else s.lease)
    case StartRefused(w, headSHA, now) =>
      var id := s.workers[w].session;
      s.(m := Refuse(NoteCooldown(s.m, id, now), id, headSHA, now))
    case AttemptEnded(w, ran, headSHA, status, fingerprint, now) =>
      var k := s.workers[w];
      s.(m := RecordAttempt(s.m, k.session, k.owning, ran, AttemptInput(headSHA, status, fingerprint, k.baseSHA), now),
         workers := s.workers[w := k.(owning := false, ran := k.ran || ran)])
    case MarkDeleted(w) =>
      var k := s.workers[w];
      s.(m := s.m.(repairing := s.m.repairing - {k.session}), workers := s.workers[w := k.(stage := Unmarked)])
    case LeaseReleased(w) =>
      var k := s.workers[w];
      s.(workers := s.workers[w := k.(stage := Done, released := k.released + if k.tookLease then 1 else 0)],
         lease := if k.tookLease then s.lease - {k.session} else s.lease)
    case BlockEnded(id, recoverable, ok, now) => s.(m := AfterBlock(s.m, id, recoverable, ok, now))
    case RefusalsCleared(id) => s.(m := ClearRefusals(s.m, id))
    case StartBlockReleased(id, leg, ok, headSHA, blockedAt,
        now) => s.(m := AfterRelease(s.m, id, leg, ok, headSHA, blockedAt, now))
    case SweptRepairable(id) => s.(m := ClearReleasedStartBlock(s.m, id))
  }

  ghost predicate IsRun(s: System, es: seq<Event>)
    decreases es
  {
    es == [] || (Enabled(s, es[0]) && IsRun(Next(s, es[0]), es[1..]))
  }

  function After(s: System, es: seq<Event>): System
    requires IsRun(s, es)
    decreases es
  {
    if es == [] then s else After(Next(s, es[0]), es[1..])
  }

  lemma {:induction false} RunOn(s: System, a: seq<Event>, b: seq<Event>)
    requires IsRun(s, a) && IsRun(After(s, a), b)
    ensures IsRun(s, a + b) && After(s, a + b) == After(After(s, a), b)
    decreases a
  {
    hide Next, Enabled;
    if a == [] {
      assert a + b == b;
    } else {
      RunOn(Next(s, a[0]), a[1..], b);
      assert (a + b)[1..] == a[1..] + b;
    }
  }

  // ---- one repair session at a time, and its lease

  predicate RunsFor(k: Worker, id: string) {
    k.session == id && k.stage == Running
  }

  /** The marks are exactly the running sessions, and no two of them are of the same
      session; `released` says no more than the stages do. */
  ghost predicate Exclusive(s: System) {
    && (forall id :: id in s.m.repairing <==> exists w: nat :: w < |s.workers| && RunsFor(s.workers[w], id))
    && (forall v: nat, w: nat,
        id | v < |s.workers| && w < |s.workers| && RunsFor(s.workers[v], id) && RunsFor(s.workers[w], id) :: v == w)
    && (forall w: nat | w < |s.workers| ::
      s.workers[w].released == if s.workers[w].stage == Done && s.workers[w].tookLease then 1 else 0)
  }

  lemma SameWorkers(s: System, t: System)
    requires Exclusive(s) && t.m.repairing == s.m.repairing && |t.workers| == |s.workers|
    requires forall w: nat | w < |s.workers| ::
               t.workers[w].session == s.workers[w].session && t.workers[w].stage == s.workers[w].stage
    requires forall w: nat | w < |s.workers| :: s.workers[w].stage == Running || t.workers[w] == s.workers[w]
    requires forall w: nat | w < |s.workers| :: t.workers[w].released == s.workers[w].released
    ensures Exclusive(t)
  {
    forall w: nat, id | w < |s.workers| ensures RunsFor(s.workers[w], id) == RunsFor(t.workers[w], id) {
    }
    forall id ensures id in t.m.repairing <==> exists w: nat :: w < |t.workers| && RunsFor(t.workers[w], id) {
      if id in t.m.repairing {
        var w: nat :| w < |s.workers| && RunsFor(s.workers[w], id);
        assert RunsFor(t.workers[w], id);
      }
    }
  }

  lemma LaunchExclusive(s: System, e: Event)
    requires e.Decided? && Enabled(s, e) && Exclusive(s)
    ensures Exclusive(Next(s, e))
  {
    hide NoteBaseMoveRetry;
    var t := Next(s, e);
    if |t.workers| == |s.workers| + 1 {
      var n := |s.workers|;
      assert RunsFor(t.workers[n], e.id) && e.id !in s.m.repairing;
      forall id ensures id in t.m.repairing <==> exists w: nat :: w < |t.workers| && RunsFor(t.workers[w], id) {
        if w: nat :| w < |s.workers| && RunsFor(s.workers[w], id) {
          assert RunsFor(t.workers[w], id);
        }
      }
      forall v: nat | v < n ensures !RunsFor(t.workers[v], e.id) {
        assert !RunsFor(s.workers[v], e.id);
      }
    }
  }

  lemma DeleteExclusive(s: System, w: nat)
    requires Enabled(s, MarkDeleted(w)) && Exclusive(s)
    ensures Exclusive(Next(s, MarkDeleted(w)))
  {
    var t := Next(s, MarkDeleted(w));
    var mine := s.workers[w].session;
    assert RunsFor(s.workers[w], mine);
    forall id ensures id in t.m.repairing <==> exists v: nat :: v < |t.workers| && RunsFor(t.workers[v], id) {
      forall v: nat | v < |s.workers| ensures RunsFor(t.workers[v], id) <==> RunsFor(s.workers[v], id) && v != w {
      }
      if id in t.m.repairing {
        var v: nat :| v < |s.workers| && RunsFor(s.workers[v], id);
        assert RunsFor(t.workers[v], id);
      }
    }
  }

  lemma ReleaseExclusive(s: System, w: nat)
    requires Enabled(s, LeaseReleased(w)) && Exclusive(s)
    ensures Exclusive(Next(s, LeaseReleased(w)))
  {
    var t := Next(s, LeaseReleased(w));
    forall id, v: nat | v < |s.workers| ensures RunsFor(t.workers[v], id) == RunsFor(s.workers[v], id) {
    }
  }

  predicate SameFlags(m: State, n: State) {
    n.stopped == m.stopped && n.paused == m.paused && n.repairing == m.repairing
  }

  lemma FlagsKept(m: State)
    ensures forall id :: SameFlags(m, ClearRefusals(m, id)) && SameFlags(m, ClearReleasedStartBlock(m, id))
    ensures forall id, leg, ok, headSHA, blockedAt, now ::
              SameFlags(m, AfterRelease(m, id, leg, ok, headSHA, blockedAt, now))
    ensures forall id, recoverable, ok, now :: SameFlags(m, AfterBlock(m, id, recoverable, ok, now))
    ensures forall id, owned, ran, input, now :: SameFlags(m, RecordAttempt(m, id, owned, ran, input, now))
    ensures forall n, id, headSHA, now :: SameFlags(n, Refuse(NoteCooldown(n, id, now), id, headSHA, now))
  {
  }

  lemma ExclusiveStep(s: System, e: Event)
    requires Enabled(s, e) && Exclusive(s)
    ensures Exclusive(Next(s, e))
  {
    hide Exclusive, RunsFor, Decide, NoteRefusal, AttemptInput;
    FlagsKept(s.m);
    hide AfterRelease, AfterBlock, RecordAttempt, ClearReleasedStartBlock, ClearRefusals, Refuse, NoteCooldown;
    match e
    case Decided(_, _, _, _, _) => LaunchExclusive(s, e);
    case MarkDeleted(w) => DeleteExclusive(s, w);
    case LeaseReleased(w) => ReleaseExclusive(s, w);
    case _ => SameWorkers(s, Next(s, e));
  }

  lemma {:induction false} AlwaysExclusive(s: System, es: seq<Event>)
    requires IsRun(s, es) && Exclusive(s)
    ensures Exclusive(After(s, es))
    decreases es
  {
    if es != [] {
      ExclusiveStep(s, es[0]);
      AlwaysExclusive(Next(s, es[0]), es[1..]);
    }
  }

  /** Mutual exclusion holds in every state that is reached. */
  lemma ReachedExclusive(es: seq<Event>)
    requires IsRun(INITIAL, es)
    ensures Exclusive(After(INITIAL, es))
  {
    AlwaysExclusive(INITIAL, es);
  }

  /** A repair session appears only in a step that found the workflow started, not
      paused, and the session free and past its cooldown. */
  lemma LaunchedWhenFree(s: System, e: Event)
    requires Enabled(s, e) && |Next(s, e).workers| > |s.workers|
    ensures e.Decided? && s.m.Free(e.id, e.now) && Next(s, e).workers[|s.workers|].session == e.id
    ensures !e.input.Repeats(s.m.Last(e.id))
  {
  }

  /** The workflow was cancelled or never started, or is paused. */
  predicate Held(m: State) {
    m.stopped || m.paused
  }

  /** What lets a held workflow go on: a start, or a resume of one that was only paused. */
  predicate LetsGo(m: State, e: Event) {
    e.StartWorkflow? || (e.Resume? && !m.stopped)
  }

  lemma HeldStep(s: System, e: Event)
    requires Enabled(s, e) && Held(s.m) && !LetsGo(s.m, e)
    ensures Held(Next(s, e).m) && (s.m.stopped ==> Next(s, e).m.stopped) && |Next(s, e).workers| == |s.workers|
  {
    hide NoteBaseMoveRetry, RepairInput.Repeats, RecordAttempt, AttemptInput, AfterBlock, AfterRelease, NoteRefusal;
    FlagsKept(s.m);
    hide AfterRelease, AfterBlock, ClearReleasedStartBlock, ClearRefusals, Refuse, NoteCooldown;
    if |Next(s, e).workers| > |s.workers| {
      LaunchedWhenFree(s, e);
    }
  }

  ghost predicate NoneLetsGo(s: System, es: seq<Event>)
    requires IsRun(s, es)
    decreases es
  {
    es == [] || (!LetsGo(s.m, es[0]) && NoneLetsGo(Next(s, es[0]), es[1..]))
  }

  /** From a cancel until the next start, and from a pause until the next start or
      resume, no repair session is launched, whatever calls were under way. */
  lemma {:induction false} HeldLaunchesNothing(s: System, es: seq<Event>)
    requires IsRun(s, es) && Held(s.m) && NoneLetsGo(s, es)
    ensures Held(After(s, es).m) && |After(s, es).workers| == |s.workers|
    decreases es
  {
    hide Held, LetsGo, Next, Enabled;
    if es != [] {
      HeldStep(s, es[0]);
      HeldLaunchesNothing(Next(s, es[0]), es[1..]);
    }
  }

  // ---- the lease as the host sees it

  predicate Owes(k: Worker, id: string) {
    k.session == id && k.tookLease && k.stage != Done
  }

  /** The host holds a session's lease exactly while some repair session that took it has yet to give it back. */
  ghost predicate LeaseHeld(s: System) {
    forall id :: id in s.lease <==> exists w: nat :: w < |s.workers| && Owes(s.workers[w], id)
  }

  /** Giving back the lease keeps that true exactly if no other session, launched
      since the mark was deleted, has taken the same lease meanwhile. */
  lemma ReleaseKeepsLease(s: System, w: nat)
    requires Enabled(s, LeaseReleased(w)) && LeaseHeld(s) && s.workers[w].tookLease
    ensures LeaseHeld(Next(s, LeaseReleased(w)))
       <==> forall v: nat | v < |s.workers| && v != w :: !Owes(s.workers[v], s.workers[w].session)
  {
    var t := Next(s, LeaseReleased(w));
    var mine := s.workers[w].session;
    forall id, v: nat | v < |s.workers| ensures Owes(t.workers[v], id) <==> Owes(s.workers[v], id) && v != w {
    }
    forall id ensures id != mine ==> (id in t.lease <==> exists v: nat :: v < |t.workers| && Owes(t.workers[v], id)) {
      if v: nat :| id != mine && v < |s.workers| && Owes(s.workers[v], id) {
        assert Owes(t.workers[v], id);
      }
    }
    if v: nat :| v < |s.workers| && v != w && Owes(s.workers[v], mine) {
      assert Owes(t.workers[v], mine);
      assert !LeaseHeld(t);
    }
  }

  /** Every other step keeps it true. */
  lemma LeaseStep(s: System, e: Event)
    requires Enabled(s, e) && LeaseHeld(s)
    requires e.LeaseReleased? ==> !s.workers[e.w].tookLease
    ensures LeaseHeld(Next(s, e))
  {
    hide Decide, AfterBlock, AfterRelease, Refuse, RecordAttempt, ClearReleasedStartBlock;
    var t := Next(s, e);
    forall id ensures id in t.lease <==> exists v: nat :: v < |t.workers| && Owes(t.workers[v], id) {
      forall v: nat | v < |s.workers|
        ensures Owes(t.workers[v], id)
           <==> Owes(s.workers[v], id) || (e.RunStarted? && e.leaseOk && e.w == v && s.workers[v].session == id) {
      }
      if id in t.lease {
        if id in s.lease {
          var v: nat :| v < |s.workers| && Owes(s.workers[v], id);
          assert Owes(t.workers[v], id);
        } else {
          assert Owes(t.workers[e.w], id);
        }
      }
    }
  }

  predicate Leads(s: System, e: Event, t: System) {
    Enabled(s, e) && Next(s, e) == t
  }

  /** The interleaving that loses it. A session's agent run completes, and its wait
      for the checks outlasts the cooldown. Its mark goes first, so once the head has
      moved a new session may be launched and take the lease before the old one gives
      it back. */
  lemma LeaseLost(id: string, input: RepairInput, moved: RepairInput, now: Time)
    requires FirstOf(input) && FirstOf(moved) && moved.headSHA != input.headSHA
    ensures (var es := LosingRun(id, input, moved, now);
             && IsRun(INITIAL, es)
             && After(INITIAL, es).workers
                 == [Holder(id).(ran := true, stage := Done, released := 1), Holder(id).(owning := true)]
             && After(INITIAL, es).lease == {})
  {
    LosingSteps(id, input, moved, now);
    hide IsRun, After, Next, Enabled, Leads;
    RunThrough(LosingStages(id, input, now), LosingRun(id, input, moved, now));
  }

  /** An input of a head that was not attempted before, so that its base was not read. */
  predicate FirstOf(input: RepairInput) {
    input.headSHA != "" && !input.baseOk && input.baseSHA == ""
  }

  function Holder(id: string): Worker {
    Launched(id, "").(tookLease := true)
  }

  function LosingRun(id: string, input: RepairInput, moved: RepairInput, now: Time): seq<Event> {
    [StartWorkflow(NO_CONFIG), Decided(id, input, false, now, ""), RunStarted(0, true),
     AttemptEnded(0, true, input.headSHA, input.status, None, now), MarkDeleted(0),
     Decided(id, moved, false, now + MINUTE, ""), RunStarted(1, true), LeaseReleased(0)]
  }

  lemma FirstStart(idle: State)
    requires idle == State(false, false, NO_CONFIG, {}, map[], map[], map[], map[])
    ensures Leads(INITIAL, StartWorkflow(NO_CONFIG), System(idle, [], {}))
  {
  }

  /** What the completed run leaves on record. */
  function AttemptOn(input: RepairInput): RepairInput {
    RepairInput(input.headSHA, input.status, "", false, "", false)
  }

  function LosingStages(id: string, input: RepairInput, now: Time): seq<System> {
    var idle := State(false, false, NO_CONFIG, {}, map[], map[], map[], map[]);
    var busy := idle.(repairing := {id});
    var later := idle.(cooldowns := map[id := now], lastAttempt := map[id := AttemptOn(input)]);
    var again := later.(repairing := {id});
    var k, h := Launched(id, ""), Holder(id);
    var u := h.(ran := true, stage := Unmarked);
    [INITIAL, System(idle, [], {}), System(busy, [k], {}), System(busy, [h.(owning := true)], {id}),
     System(again, [h.(ran := true)], {id}), System(later, [u], {id}), System(again, [u, k], {id}),
     System(again, [u, h.(owning := true)], {id}),
     System(again, [u.(stage := Done, released := 1), h.(owning := true)], {})]
  }

  lemma LosingSteps(id: string, input: RepairInput, moved: RepairInput, now: Time)
    requires FirstOf(input) && FirstOf(moved) && moved.headSHA != input.headSHA
    ensures (var ss, es := LosingStages(id, input, now), LosingRun(id, input, moved, now);
             && |ss| == |es| + 1
             && forall n | 0 <= n < |es| :: Leads(ss[n], es[n], ss[n + 1]))
  {
    var ss, es := LosingStages(id, input, now), LosingRun(id, input, moved, now);
    var u, h := Holder(id).(ran := true, stage := Unmarked), Holder(id).(owning := true);
    FirstStart(ss[1].m);
    FirstLaunch(ss[1].m, [], {}, id, input, now);
    FirstLaunch(ss[5].m, [u], {id}, id, moved, now + MINUTE);
    StartTakesLease(ss[2].m, [], {}, id);
    StartTakesLease(ss[6].m, [u], {id}, id);
    RunCompletes(ss[2].m, id, input, now);
    EndOfRun(ss[5].m, id);
    hide Leads, Holder, Launched;
    assert [u] + [h] == [u, h] && {} + {id} == {id} && {id} + {id} == {id};
  }

  lemma EndOfRun(later: State, id: string)
    requires later.repairing == {}
    ensures (var again, k := later.(repairing := {id}), Holder(id).(ran := true);
             var u, h := k.(stage := Unmarked), Holder(id).(owning := true);
             && Leads(System(again, [k], {id}), MarkDeleted(0), System(later, [u], {id}))
             && Leads(System(again, [u, h], {id}), LeaseReleased(0),
                 System(again, [u.(stage := Done, released := 1), h], {})))
  {
    assert {id} - {id} == {};
  }

  lemma RunCompletes(busy: State, id: string, input: RepairInput, now: Time)
    requires busy.cooldowns == map[] && busy.lastAttempt == map[] && input.headSHA != ""
    ensures Leads(System(busy, [Holder(id).(owning := true)], {id}),
            AttemptEnded(0, true, input.headSHA, input.status, None, now),
                  System(busy.(cooldowns := map[id := now], lastAttempt := map[id := AttemptOn(input)]),
                      [Holder(id).(ran := true)], {id}))
  {
  }

  lemma FirstLaunch(m: State, ws: seq<Worker>, lease: set<string>, id: string, input: RepairInput, now: Time)
    requires m.Free(id, now) && m.Last(id).headSHA != input.headSHA && FirstOf(input)
    ensures Leads(System(m, ws, lease), Decided(id, input, false, now, ""),
                  System(m.(repairing := m.repairing + {id}), ws + [Launched(id, "")], lease))
  {
  }

  lemma StartTakesLease(m: State, ws: seq<Worker>, lease: set<string>, id: string)
    requires m.refusals == map[]
    ensures Leads(System(m, ws + [Launched(id, "")], lease), RunStarted(|ws|, true),
                  System(m, ws + [Holder(id).(owning := true)], lease + {id}))
  {
    assert m.refusals - {id} == map[];
    assert (ws + [Launched(id, "")])[|ws| := Holder(id).(owning := true)] == ws + [Holder(id).(owning := true)];
  }

  /** Events that lead from each listed system to the next are a run to the last. */
  lemma {:induction false} RunThrough(ss: seq<System>, es: seq<Event>)
    requires |ss| == |es| + 1 && forall k | 0 <= k < |es| :: Leads(ss[k], es[k], ss[k + 1])
    ensures IsRun(ss[0], es) && After(ss[0], es) == ss[|es|]
    decreases es
  {
    hide Next, Enabled;
    if es != [] {
      assert Leads(ss[0], es[0], ss[1]);
      forall k | 0 <= k < |es[1..]| ensures Leads(ss[1..][k], es[1..][k], ss[1..][k + 1]) {
        assert Leads(ss[k + 1], es[k + 1], ss[k + 2]);
      }
      RunThrough(ss[1..], es[1..]);
      LeadsOn(ss[0], es[0], ss[1]);
    }
  }

  lemma LeadsOn(s: System, e: Event, t: System)
    requires Leads(s, e, t)
    ensures Enabled(s, e) && Next(s, e) == t
  {
  }
}
