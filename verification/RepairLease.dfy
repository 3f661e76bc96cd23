/** The single-repairer lease over whole runs: when the host's view of it stays true. */
module RepairLease {
  import opened RepairModel
  import opened RepairMonitor
  import opened RepairRuns

  /** In every state of the run the host holds exactly the leases that are owed. */
  ghost predicate HeldThroughout(s: System, es: seq<Event>)
    requires IsRun(s, es)
    decreases es
  {
    LeaseHeld(s) && (es == [] || HeldThroughout(Next(s, es[0]), es[1..]))
  }

  /** Nobody else owes a lease that is given back. */
  predicate CleanRelease(s: System, e: Event)
    requires Enabled(s, e)
  {
    e.LeaseReleased? && s.workers[e.w].tookLease ==>
      forall v: nat | v < |s.workers| && v != e.w :: !Owes(s.workers[v], s.workers[e.w].session)
  }

  ghost predicate CleanReleases(s: System, es: seq<Event>)
    requires IsRun(s, es)
    decreases es
  {
    es == [] || (CleanRelease(s, es[0]) && CleanReleases(Next(s, es[0]), es[1..]))
  }

  /** The host's view stays true exactly while every release is clean. */
  lemma {:induction false} HeldIffClean(s: System, es: seq<Event>)
    requires IsRun(s, es) && LeaseHeld(s)
    ensures HeldThroughout(s, es) <==> CleanReleases(s, es)
    decreases es
  {
    hide LeaseHeld, Next;
    if es != [] {
      var e := es[0];
      if e.LeaseReleased? && s.workers[e.w].tookLease {
        ReleaseKeepsLease(s, e.w);
      } else {
        LeaseStep(s, e);
      }
      if LeaseHeld(Next(s, e)) {
        HeldIffClean(Next(s, e), es[1..]);
      }
    }
  }

  // ---- the same in terms of who starts when

  /** A repair session takes the lease while an earlier one has deleted its mark but
      has yet to give the same lease back. */
  predicate Rival(s: System, e: Event)
    requires Enabled(s, e)
  {
    && e.RunStarted? && e.leaseOk
    && exists v: nat :: v < |s.workers| && v != e.w && Owes(s.workers[v], s.workers[e.w].session)
        && s.workers[v].stage == Unmarked
  }

  ghost predicate NoRivals(s: System, es: seq<Event>)
    requires IsRun(s, es)
    decreases es
  {
    es == [] || (!Rival(s, es[0]) && NoRivals(Next(s, es[0]), es[1..]))
  }

  /** No lease is owed twice. */
  ghost predicate OwedOnce(s: System) {
    forall v: nat, w: nat, id | v < |s.workers| && w < |s.workers| && Owes(s.workers[v], id)
        && Owes(s.workers[w], id) :: v == w
  }

  ghost predicate NothingOwed(s: System) {
    forall w: nat, id | w < |s.workers| :: !Owes(s.workers[w], id)
  }

  /** What one step does to who owes what. */
  lemma OwesStep(s: System, e: Event)
    requires Enabled(s, e)
    ensures (var t := Next(s, e);
             && |s.workers| <= |t.workers|
             && (forall v: nat | v < |t.workers| :: v < |s.workers| || !t.workers[v].tookLease)
             && (forall v: nat, id | v < |s.workers| ::
                   Owes(t.workers[v], id) <==>
                   && (Owes(s.workers[v], id) || (e.RunStarted? && e.leaseOk && e.w == v && s.workers[v].session == id))
                   && !(e.LeaseReleased? && e.w == v)))
  {
    hide Decide, AfterBlock, AfterRelease, Refuse, RecordAttempt, ClearReleasedStartBlock;
  }

  lemma OwedOnceStep(s: System, e: Event)
    requires Enabled(s, e) && Exclusive(s) && OwedOnce(s)
    ensures CleanRelease(s, e)
    ensures OwedOnce(Next(s, e)) <==> !Rival(s, e)
  {
    OwesStep(s, e);
    var t := Next(s, e);
    hide Next, Enabled;
    if e.RunStarted? && e.leaseOk {
      var id := s.workers[e.w].session;
      assert RunsFor(s.workers[e.w], id) && Owes(t.workers[e.w], id);
      forall v: nat | v < |s.workers| && v != e.w && Owes(s.workers[v], id)
          ensures s.workers[v].stage == Unmarked && Owes(t.workers[v], id) {
        assert !RunsFor(s.workers[v], id);
      }
    }
  }

  lemma {:induction false} NoRivalsClean(s: System, es: seq<Event>)
    requires IsRun(s, es) && Exclusive(s) && OwedOnce(s) && NoRivals(s, es)
    ensures CleanReleases(s, es)
    decreases es
  {
    hide Exclusive, OwedOnce, Next, Enabled, Rival, CleanRelease;
    if es != [] {
      OwedOnceStep(s, es[0]);
      ExclusiveStep(s, es[0]);
      NoRivalsClean(Next(s, es[0]), es[1..]);
    }
  }

  /** Once two sessions owe one lease, the first of them to give it back takes it
      from the other. */
  lemma {:induction false} OwedTwiceBreaks(s: System, es: seq<Event>, v: nat, w: nat, id: string)
    requires IsRun(s, es) && v < |s.workers| && w < |s.workers| && v != w && Owes(s.workers[v], id)
    requires Owes(s.workers[w], id)
    requires NothingOwed(After(s, es))
    ensures !CleanReleases(s, es)
    decreases es
  {
    if es != [] {
      OwesStep(s, es[0]);
      hide Next, Enabled;
      if !(es[0].LeaseReleased? && (es[0].w == v || es[0].w == w)) {
        OwedTwiceBreaks(Next(s, es[0]), es[1..], v, w, id);
      }
    }
  }

  lemma {:induction false} RivalsBreak(s: System, es: seq<Event>)
    requires IsRun(s, es) && Exclusive(s) && OwedOnce(s) && !NoRivals(s, es) && NothingOwed(After(s, es))
    ensures !CleanReleases(s, es)
    decreases es
  {
    hide Exclusive, OwedOnce, NothingOwed, Next, Enabled, Rival, CleanRelease;
    OwedOnceStep(s, es[0]);
    ExclusiveStep(s, es[0]);
    if !Rival(s, es[0]) {
      RivalsBreak(Next(s, es[0]), es[1..]);
    } else {
      var v, w, id := Twice(Next(s, es[0]));
      OwedTwiceBreaks(Next(s, es[0]), es[1..], v, w, id);
    }
  }

  lemma Twice(s: System) returns (v: nat, w: nat, id: string)
    requires !OwedOnce(s)
    ensures v < |s.workers| && w < |s.workers| && v != w && Owes(s.workers[v], id) && Owes(s.workers[w], id)
  {
    v, w, id :| v < |s.workers| && w < |s.workers| && Owes(s.workers[v], id) && Owes(s.workers[w], id) && v != w;
  }

  lemma NothingAtFirst()
    ensures Exclusive(INITIAL) && LeaseHeld(INITIAL) && OwedOnce(INITIAL)
  {
    ReachedExclusive([]);
  }

  /** The host's view of the lease is true throughout a run without rivals, and in a
      run at whose end no lease is owed only then. */
  lemma HeldIffNoRivals(es: seq<Event>)
    requires IsRun(INITIAL, es)
    ensures NoRivals(INITIAL, es) ==> HeldThroughout(INITIAL, es)
    ensures NothingOwed(After(INITIAL, es)) ==> (HeldThroughout(INITIAL, es) <==> NoRivals(INITIAL, es))
  {
    hide *;
    NothingAtFirst();
    HeldIffClean(INITIAL, es);
    if NoRivals(INITIAL, es) {
      NoRivalsClean(INITIAL, es);
    } else if NothingOwed(After(INITIAL, es)) {
      RivalsBreak(INITIAL, es);
    }
  }

  // ---- the lease and the mark span a session

  lemma {:induction false} HeldAtEnd(s: System, es: seq<Event>)
    requires IsRun(s, es) && HeldThroughout(s, es)
    ensures LeaseHeld(After(s, es))
    decreases es
  {
    hide LeaseHeld, Next, Enabled;
    if es != [] {
      HeldAtEnd(Next(s, es[0]), es[1..]);
    }
  }

  /** A session that took the lease owes it until it gives it back, and runs until it
      deletes its mark. */
  lemma {:induction false} OwesFromStart(s: System, es: seq<Event>, w: nat)
    requires IsRun(s, es) && LeaseReleased(w) !in es
    requires w < |s.workers| ==> s.workers[w].stage != Done
    requires RunStarted(w, true) in es || (w < |s.workers| && s.workers[w].tookLease)
    ensures (var t := After(s, es); w < |t.workers| && Owes(t.workers[w], t.workers[w].session))
    decreases es
  {
    if es != [] {
      OwesStep(s, es[0]);
      StageStep(s, es[0], w);
      assert es == [es[0]] + es[1..];
      assert es[0] != LeaseReleased(w);
      hide Next, Enabled;
      if es[0] == RunStarted(w, true) {
        StartedExists(s, w);
        assert Owes(Next(s, es[0]).workers[w], s.workers[w].session);
      }
      OwesFromStart(Next(s, es[0]), es[1..], w);
    }
  }

  lemma StartedExists(s: System, w: nat)
    requires Enabled(s, RunStarted(w, true))
    ensures w < |s.workers| && s.workers[w].stage == Running
  {
  }

  lemma StageStep(s: System, e: Event, w: nat)
    requires Enabled(s, e)
    ensures (var t := Next(s, e);
             && (w < |s.workers| ==>
                   && w < |t.workers|
                   && t.workers[w].session == s.workers[w].session
                   && (s.workers[w].tookLease ==> t.workers[w].tookLease)
                   && (s.workers[w].stage != Done && e != LeaseReleased(w) ==> t.workers[w].stage != Done)
                   && (s.workers[w].stage == Running && e != MarkDeleted(w) ==> t.workers[w].stage == Running))
             && (|s.workers| <= w < |t.workers| ==> t.workers[w].stage == Running))
  {
    hide Decide, AfterBlock, AfterRelease, Refuse, RecordAttempt, ClearReleasedStartBlock;
  }

  lemma {:induction false} RunsFromLaunch(s: System, es: seq<Event>, w: nat)
    requires IsRun(s, es) && MarkDeleted(w) !in es
    requires w < |s.workers| ==> s.workers[w].stage == Running
    ensures w < |After(s, es).workers| ==> After(s, es).workers[w].stage == Running
    decreases es
  {
    if es != [] {
      StageStep(s, es[0], w);
      assert es == [es[0]] + es[1..];
      assert es[0] != MarkDeleted(w);
      hide Next, Enabled;
      RunsFromLaunch(Next(s, es[0]), es[1..], w);
    }
  }

  /** A session is marked as repairing from its launch until it deletes its own mark;
      and in a run without rivals the host holds its lease from the first attempt
      that takes it, through every later attempt and every wait, until the session
      gives it back. */
  lemma LeaseSpansSession(es: seq<Event>, w: nat)
    requires IsRun(INITIAL, es)
    ensures (var t := After(INITIAL, es);
             && (MarkDeleted(w) !in es && w < |t.workers| ==> t.workers[w].session in t.m.repairing)
             && (NoRivals(INITIAL, es) && RunStarted(w, true) in es && LeaseReleased(w) !in es ==>
                   w < |t.workers| && t.workers[w].session in t.lease))
  {
    var t := After(INITIAL, es);
    hide Next, Enabled, After, IsRun, NoRivals;
    ReachedExclusive(es);
    if MarkDeleted(w) !in es {
      RunsFromLaunch(INITIAL, es, w);
      if w < |t.workers| {
        assert RunsFor(t.workers[w], t.workers[w].session);
      }
    }
    if NoRivals(INITIAL, es) && RunStarted(w, true) in es && LeaseReleased(w) !in es {
      HeldIffNoRivals(es);
      HeldAtEnd(INITIAL, es);
      OwesFromStart(INITIAL, es, w);
    }
  }
}
