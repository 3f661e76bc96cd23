/** A whole repair session as part of a run: whatever else happens between its
    steps, it ends with its mark deleted and its lease given back. */
module RepairSession {
  import opened Wrappers
  import opened RepairModel
  import opened RepairMonitor
  import opened RepairLoop
  import Runs = RepairRuns

  // ---- the events of one repair session

  /** The steps the session of worker `w` takes itself. */
  predicate By(e: Runs.Event, w: nat) {
    match e
    case RunStarted(v, _) => v == w
    case StartRefused(v, _, _) => v == w
    case AttemptEnded(v, _, _, _, _, _) => v == w
    case MarkDeleted(v) => v == w
    case LeaseReleased(v) => v == w
    case _ => false
  }

  function Own(es: seq<Runs.Event>, w: nat): seq<Runs.Event> {
    if es == [] then [] else (if By(es[0], w) then [es[0]] else []) + Own(es[1..], w)
  }

  lemma {:induction false} OwnJoin(a: seq<Runs.Event>, b: seq<Runs.Event>, w: nat)
    ensures Own(a + b, w) == Own(a, w) + Own(b, w)
  {
    if a == [] {
      assert a + b == b;
    } else {
      assert (a + b)[1..] == a[1..] + b;
      OwnJoin(a[1..], b, w);
      assert (a + b)[0] == a[0];
      assert (if By(a[0], w) then [a[0]] else []) + (Own(a[1..], w) + Own(b, w)) == Own(a, w) + Own(b, w);
    }
  }

  function Fingerprint(input: LoopInput): Option<string> {
    if input.reviewFPOk then Some(input.reviewFP) else None
  }

  /** An attempt that starts no run leaves none of its own, except a refusal. */
  function AttemptEvents(w: nat, input: LoopInput, h: AttemptHost): seq<Runs.Event> {
    match StartOwnership(h)
    case Lost => []
    case Refused => [Runs.StartRefused(w, input.headSHA, h.refused)]
    case Owned =>
      [Runs.RunStarted(w, h.leaseOk),
          Runs.AttemptEnded(w, AttemptRan(h.wait), input.headSHA, input.display, Fingerprint(input), h.ended)]
  }

  function AllAttempts(w: nat, turns: seq<Turn>, attempts: seq<Attempt>): seq<Runs.Event>
    requires |attempts| <= |turns|
  {
    if attempts == [] then []
    else
      var n := |attempts| - 1;
      AllAttempts(w, turns, attempts[..n]) + AttemptEvents(w, attempts[n].input, turns[n].host)
  }

  /** The attempts, and then the deferred cleanup. */
  function SessionEvents(w: nat, turns: seq<Turn>, attempts: seq<Attempt>): seq<Runs.Event>
    requires |attempts| <= |turns|
  {
    AllAttempts(w, turns, attempts) + [Runs.MarkDeleted(w), Runs.LeaseReleased(w)]
  }

  // ---- a session in any run

  /** What a session's own step makes of its worker. */
  function WorkerStep(k: Runs.Worker, e: Runs.Event): Runs.Worker {
    match e
    case RunStarted(_, leaseOk) => k.(owning := true, tookLease := k.tookLease || leaseOk)
    case AttemptEnded(_, ran, _, _, _, _) => k.(owning := false, ran := k.ran || ran)
    case MarkDeleted(_) => k.(stage := Runs.Unmarked)
    case LeaseReleased(_) => k.(stage := Runs.Done, released := k.released + if k.tookLease then 1 else 0)
    case _ => k
  }

  function WorkerAfter(k: Runs.Worker, es: seq<Runs.Event>): Runs.Worker
    decreases es
  {
    if es == [] then k else WorkerAfter(WorkerStep(k, es[0]), es[1..])
  }

  lemma {:induction false} WorkerJoin(k: Runs.Worker, a: seq<Runs.Event>, b: seq<Runs.Event>)
    ensures WorkerAfter(k, a + b) == WorkerAfter(WorkerAfter(k, a), b)
    decreases a
  {
    if a == [] {
      assert a + b == b;
    } else {
      assert (a + b)[1..] == a[1..] + b;
      WorkerJoin(WorkerStep(k, a[0]), a[1..], b);
    }
  }

  lemma StepWorker(s: Runs.System, e: Runs.Event, w: nat)
    requires Runs.Enabled(s, e) && w < |s.workers|
    ensures (var t := Runs.Next(s, e);
             w < |t.workers| && t.workers[w] == if By(e, w) then WorkerStep(s.workers[w], e) else s.workers[w])
  {
    hide Decide, AfterBlock, AfterRelease, Refuse, RecordAttempt, ClearReleasedStartBlock;
  }

  /** Nobody else's step touches a worker. */
  lemma {:induction false} FollowWorker(s: Runs.System, es: seq<Runs.Event>, w: nat)
    requires Runs.IsRun(s, es) && w < |s.workers|
    ensures (var t := Runs.After(s, es); w < |t.workers| && t.workers[w] == WorkerAfter(s.workers[w], Own(es, w)))
    decreases es
  {
    hide Runs.Next, Runs.Enabled, WorkerStep;
    if es != [] {
      StepWorker(s, es[0], w);
      FollowWorker(Runs.Next(s, es[0]), es[1..], w);
      if By(es[0], w) {
        assert Own(es, w)[0] == es[0] && Own(es, w)[1..] == Own(es[1..], w);
      } else {
        assert Own(es, w) == Own(es[1..], w);
      }
    }
  }

  predicate SomeTook(turns: seq<Turn>, n: nat)
    requires n <= |turns|
  {
    exists i :: 0 <= i < n && Answer(turns[i].host).tookLease
  }

  predicate SomeRan(turns: seq<Turn>, n: nat)
    requires n <= |turns|
  {
    exists i :: 0 <= i < n && StartOwnership(turns[i].host) == Owned && AttemptRan(turns[i].host.wait)
  }

  lemma OneStep(k: Runs.Worker, e: Runs.Event)
    ensures WorkerAfter(k, [e]) == WorkerStep(k, e)
  {
    assert [e][1..] == [];
  }

  lemma TwoEvents(k: Runs.Worker, a: Runs.Event, b: Runs.Event)
    ensures WorkerAfter(k, [a, b]) == WorkerStep(WorkerStep(k, a), b)
  {
    assert [a, b][1..] == [b];
    OneStep(WorkerStep(k, a), b);
  }

  lemma AnswerLease(h: AttemptHost)
    ensures Answer(h).tookLease <==> StartOwnership(h) == Owned && h.leaseOk
  {
  }

  lemma OneAttempt(k: Runs.Worker, w: nat, input: LoopInput, h: AttemptHost)
    requires !k.owning
    ensures WorkerAfter(k, AttemptEvents(w, input, h))
         == k.(ran := k.ran || (StartOwnership(h) == Owned && AttemptRan(h.wait)),
             tookLease := k.tookLease || Answer(h).tookLease)
  {
    hide AttemptRan, LostLane, WaitLane;
    AnswerLease(h);
    if StartOwnership(h) == Owned {
      var a, b := Runs.RunStarted(w, h.leaseOk),
          Runs.AttemptEnded(w, AttemptRan(h.wait), input.headSHA, input.display, Fingerprint(input), h.ended);
      assert AttemptEvents(w, input, h) == [a, b];
      hide AttemptEvents, Answer, StartOwnership;
      TwoEvents(k, a, b);
    } else if StartOwnership(h) == Refused {
      var e := Runs.StartRefused(w, input.headSHA, h.refused);
      assert AttemptEvents(w, input, h) == [e];
      hide AttemptEvents, Answer, StartOwnership;
      OneStep(k, e);
    } else {
      assert AttemptEvents(w, input, h) == [];
      hide AttemptEvents, Answer, StartOwnership;
    }
  }

  lemma {:induction false} AttemptsWorker(k: Runs.Worker, w: nat, turns: seq<Turn>, attempts: seq<Attempt>)
    requires |attempts| <= |turns| && !k.owning && !k.ran && !k.tookLease
    ensures WorkerAfter(k, AllAttempts(w, turns, attempts))
            == k.(ran := SomeRan(turns, |attempts|), tookLease := SomeTook(turns, |attempts|))
    decreases attempts
  {
    if attempts != [] {
      var n := |attempts| - 1;
      AttemptsWorker(k, w, turns, attempts[..n]);
      OneAttempt(WorkerAfter(k, AllAttempts(w, turns, attempts[..n])), w, attempts[n].input, turns[n].host);
      WorkerJoin(k, AllAttempts(w, turns, attempts[..n]), AttemptEvents(w, attempts[n].input, turns[n].host));
      hide Answer, StartOwnership, AttemptRan;
    }
  }

  lemma Cleanup(k: Runs.Worker, w: nat)
    ensures WorkerAfter(k, [Runs.MarkDeleted(w), Runs.LeaseReleased(w)])
            == k.(stage := Runs.Done, released := k.released + if k.tookLease then 1 else 0)
  {
    TwoEvents(k, Runs.MarkDeleted(w), Runs.LeaseReleased(w));
  }

  /** In any run in which a launched session takes the steps of its loop, however
      the steps of everyone else fall between them, it ends with its mark deleted,
      and has given back the lease once if one of its attempts took it and never
      otherwise. */
  lemma SessionInRun(s: Runs.System, es: seq<Runs.Event>, w: nat, turns: seq<Turn>, initial: LoopInput)
    requires turns != [] && initial.Valid()
    requires Runs.IsRun(s, es) && w < |s.workers|
    requires s.workers[w] == Runs.Launched(s.workers[w].session, s.workers[w].baseSHA)
    requires (var attempts := SessionFrom(turns, Attempt(initial, "")).attempts;
              |attempts| <= |turns| && Own(es, w) == SessionEvents(w, turns, attempts))
    ensures (var t, made := Runs.After(s, es), SessionFrom(turns, Attempt(initial, ""));
             && w < |t.workers|
             && t.workers[w]
                 == s.workers[w].(stage := Runs.Done, ran := SomeRan(turns, |made.attempts|),
                     tookLease := made.tookLease,
                                              released := if made.tookLease then 1 else 0)
             && (made.tookLease <==> SomeTook(turns, |made.attempts|)))
  {
    var k := s.workers[w];
    var made := SessionFrom(turns, Attempt(initial, ""));
    var attempts := made.attempts;
    LeaseTaken(turns, Attempt(initial, ""));
    FollowWorker(s, es, w);
    AttemptsWorker(k, w, turns, attempts);
    WorkerJoin(k, AllAttempts(w, turns, attempts), [Runs.MarkDeleted(w), Runs.LeaseReleased(w)]);
    Cleanup(WorkerAfter(k, AllAttempts(w, turns, attempts)), w);
    hide SessionFrom, WorkerAfter, AllAttempts, Own, Runs.IsRun, Runs.After, Answer;
  }

  // ---- the loop is such a run

  lemma OneEvent(s: Runs.System, e: Runs.Event)
    requires Runs.Enabled(s, e)
    ensures Runs.IsRun(s, [e]) && Runs.After(s, [e]) == Runs.Next(s, e)
  {
  }

  predicate Between(k: Runs.Worker) {
    k.stage == Runs.Running && !k.owning
  }

  /** An attempt of a running repair session is a run: it takes the lease and
      completes a run only as the run-level events say. */
  lemma AttemptIsRun(s: Runs.System, w: nat, input: LoopInput, h: AttemptHost) returns (es: seq<Runs.Event>)
    requires w < |s.workers| && Between(s.workers[w]) && input.Valid()
    ensures Runs.IsRun(s, es) && Own(es, w) == AttemptEvents(w, input, h)
    ensures (var k, t := s.workers[w], Runs.After(s, es);
             var (m, r) := AttemptStep(s.m, k.session, RecordedInput(input, k.baseSHA), h);
             && t.m == m
             && t.workers
                 == s.workers[w := k.(ran := k.ran || (StartOwnership(h) == Owned && AttemptRan(h.wait)),
                     tookLease := k.tookLease || r.tookLease)]
             && t.lease == if r.tookLease then s.lease + {k.session} else s.lease)
  {
    hide RecordAttempt, AfterBlock, NoteRefusal, StartBlockOf, Decide, StartOwnership, LostLane, WaitLane,
        AttemptRan, AfterRelease;
    var k := s.workers[w];
    var id := k.session;
    match StartOwnership(h)
    case Lost =>
      es := [];
    case Refused =>
      es := RefusalIsRun(s, w, input, h);
    case Owned =>
      es := OwnedIsRun(s, w, input, h);
  }

  lemma RefusalIsRun(s: Runs.System, w: nat, input: LoopInput, h: AttemptHost) returns (es: seq<Runs.Event>)
    requires w < |s.workers| && Between(s.workers[w])
    ensures Runs.IsRun(s, es) && Own(es, w) == [Runs.StartRefused(w, input.headSHA, h.refused)]
    ensures (var k, t := s.workers[w], Runs.After(s, es);
             var recorded := RecordedInput(input, k.baseSHA);
             && t.m == RefusedStep(s.m, k.session, recorded.headSHA, recorded.baseSHA, h.blockOk, h.refused)
             && t.workers == s.workers && t.lease == s.lease)
  {
    hide AfterBlock, NoteRefusal, StartBlockOf, Decide;
    var id := s.workers[w].session;
    var e := Runs.StartRefused(w, input.headSHA, h.refused);
    es := [e];
    OneEvent(s, e);
    var t := Runs.Next(s, e);
    if t.m.Refusals(id).escalated {
      var b := Runs.BlockEnded(id,
          StartBlockOf(input.headSHA, AttemptBaseSHA(input.display, s.workers[w].baseSHA)).Some?, h.blockOk, h.refused);
      OneEvent(t, b);
      Runs.RunOn(s, [e], [b]);
      OwnJoin([e], [b], w);
      es := [e] + [b];
    }
  }

  lemma OwnedIsRun(s: Runs.System, w: nat, input: LoopInput, h: AttemptHost) returns (es: seq<Runs.Event>)
    requires w < |s.workers| && Between(s.workers[w]) && input.Valid() && StartOwnership(h) == Owned
    ensures Runs.IsRun(s, es) && Own(es, w) == AttemptEvents(w, input, h)
    ensures (var k, t := s.workers[w], Runs.After(s, es);
             && t.m == RecordAttempt(ClearRefusals(s.m, k.session), k.session, true, AttemptRan(h.wait),
                 RecordedInput(input, k.baseSHA), h.ended)
             && t.workers
                 == s.workers[w := k.(ran := k.ran || AttemptRan(h.wait), tookLease := k.tookLease || h.leaseOk)]
             && t.lease == if h.leaseOk then s.lease + {k.session} else s.lease)
  {
    hide RecordAttempt, Decide, AttemptRan;
    var e := Runs.RunStarted(w, h.leaseOk);
    var d := Runs.AttemptEnded(w, AttemptRan(h.wait), input.headSHA, input.display, Fingerprint(input), h.ended);
    OneEvent(s, e);
    var t := Runs.Next(s, e);
    OneEvent(t, d);
    Runs.RunOn(s, [e], [d]);
    OwnJoin([e], [d], w);
    es := [e] + [d];
  }

  /** What a session's attempts leave of the system. */
  ghost predicate Attempted(s: Runs.System, es: seq<Runs.Event>, w: nat, turns: seq<Turn>, attempts: seq<Attempt>)
    requires w < |s.workers| && |attempts| <= |turns|
  {
    var k := s.workers[w];
    && Runs.IsRun(s, es) && Own(es, w) == AllAttempts(w, turns, attempts)
    && (var t := Runs.After(s, es);
        && t.m == AttemptsOn(s.m, k.session, k.baseSHA, turns, attempts)
        && t.workers == s.workers[w := k.(ran := SomeRan(turns, |attempts|), tookLease := SomeTook(turns, |attempts|))]
        && t.lease == if SomeTook(turns, |attempts|) then s.lease + {k.session} else s.lease)
  }

  lemma {:induction false} AttemptsAreRun(s: Runs.System, w: nat, turns: seq<Turn>, attempts: seq<Attempt>)
    returns (es: seq<Runs.Event>)
    requires w < |s.workers| && s.workers[w] == Runs.Launched(s.workers[w].session, s.workers[w].baseSHA)
    requires |attempts| <= |turns| && forall i | 0 <= i < |attempts| :: attempts[i].input.Valid()
    ensures Attempted(s, es, w, turns, attempts)
    decreases attempts
  {
    if attempts == [] {
      es := [];
    } else {
      var n := |attempts| - 1;
      var before := AttemptsAreRun(s, w, turns, attempts[..n]);
      es := OneMore(s, before, w, turns, attempts);
    }
  }

  lemma OneMore(s: Runs.System, before: seq<Runs.Event>, w: nat, turns: seq<Turn>, attempts: seq<Attempt>)
    returns (es: seq<Runs.Event>)
    requires w < |s.workers| && s.workers[w] == Runs.Launched(s.workers[w].session, s.workers[w].baseSHA)
    requires 0 < |attempts| <= |turns| && attempts[|attempts| - 1].input.Valid()
    requires Attempted(s, before, w, turns, attempts[..|attempts| - 1])
    ensures Attempted(s, es, w, turns, attempts)
  {
    hide Answer, StartOwnership, AttemptRan, AttemptStep, RecordedInput, AttemptEvents, Runs.IsRun, Runs.After;
    var n := |attempts| - 1;
    var t := Runs.After(s, before);
    var more := AttemptIsRun(t, w, attempts[n].input, turns[n].host);
    Runs.RunOn(s, before, more);
    OwnJoin(before, more, w);
    es := before + more;
    StepAnswer(t.m, s.workers[w].session, RecordedInput(attempts[n].input, s.workers[w].baseSHA), turns[n].host);
    TookMore(turns, n);
  }

  lemma TookMore(turns: seq<Turn>, n: nat)
    requires n < |turns|
    ensures SomeTook(turns, n + 1) <==> SomeTook(turns, n) || Answer(turns[n].host).tookLease
    ensures SomeRan(turns, n + 1)
       <==> SomeRan(turns, n) || (StartOwnership(turns[n].host) == Owned && AttemptRan(turns[n].host.wait))
  {
  }

  lemma CleanupIsRun(s: Runs.System, w: nat)
    requires w < |s.workers| && Between(s.workers[w])
    ensures (var es, k := [Runs.MarkDeleted(w), Runs.LeaseReleased(w)], s.workers[w];
             && Runs.IsRun(s, es) && Own(es, w) == es
             && Runs.After(s, es).m == s.m.(repairing := s.m.repairing - {k.session})
             && Runs.After(s, es).lease == if k.tookLease then s.lease - {k.session} else s.lease)
  {
    var d, r := Runs.MarkDeleted(w), Runs.LeaseReleased(w);
    OneEvent(s, d);
    OneEvent(Runs.Next(s, d), r);
    Runs.RunOn(s, [d], [r]);
    OwnJoin([d], [r], w);
    assert [d] + [r] == [d, r];
  }

  /** The loop is such a run, and leaves the monitor as the loop's own contract says:
      the lease is free after it if an attempt took it, and as it was if none did. */
  lemma SessionIsRun(s: Runs.System, w: nat, turns: seq<Turn>, initial: LoopInput) returns (es: seq<Runs.Event>)
    requires turns != [] && initial.Valid()
    requires w < |s.workers| && s.workers[w] == Runs.Launched(s.workers[w].session, s.workers[w].baseSHA)
    ensures (var made, k := SessionFrom(turns, Attempt(initial, "")), s.workers[w];
             && |made.attempts| <= |turns|
             && Runs.IsRun(s, es) && Own(es, w) == SessionEvents(w, turns, made.attempts)
             && (var t, m := Runs.After(s, es), AttemptsOn(s.m, k.session, k.baseSHA, turns, made.attempts);
                 && t.m == m.(repairing := m.repairing - {k.session})
                 && t.lease == if made.tookLease then s.lease - {k.session} else s.lease))
  {
    var first := Attempt(initial, "");
    NoIdleAttempt(turns, first);
    LeaseTaken(turns, first);
    var made := SessionFrom(turns, first);
    hide SessionFrom, Answer, AttemptsOn, AllAttempts;
    var before := AttemptsAreRun(s, w, turns, made.attempts);
    var t := Runs.After(s, before);
    var last := [Runs.MarkDeleted(w), Runs.LeaseReleased(w)];
    CleanupIsRun(t, w);
    Runs.RunOn(s, before, last);
    OwnJoin(before, last, w);
    es := before + last;
  }
}
