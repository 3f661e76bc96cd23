/** The cache in front of the capability inventory: one probe at a time for each
    identity, and a verified surface served for ten minutes. */
module CapabilityCache {
  import opened Wrappers
  import opened Calendar
  import opened CapabilityProfile

  const TTL := 10 * MINUTE

  // ---- identity

  datatype Config = Config(present: bool, contents: string)

  /** What reading a configuration file gives. */
  datatype FileRead = Absent | Read(contents: string) | Unreadable

  /** The fingerprint stands for its payload, one to one; the working directory is
      not part of it, only what its configuration holds. */
  datatype Key = Key(profile: int, home: string, model: string, effort: string, trust: string,
                     env: set<(string, string)>, configs: seq<Config>)

  /** `home` is None when it cannot be resolved. */
  datatype Target = Target(home: Option<string>, model: string, effort: string, workDir: string,
                           env: map<string, string>, trust: string)

  function ConfigOf(r: FileRead): Option<Config> {
    match r
    case Absent => Some(Config(false, ""))
    case Read(contents) => Some(Config(true, contents))
    case Unreadable => None
  }

  function Fingerprint(profile: int, t: Target, homeConfig: FileRead, repoConfig: FileRead): Option<Key> {
    var home :- t.home;
    var first :- ConfigOf(homeConfig);
    var second :- if t.workDir == "" then Some(Config(false, "")) else ConfigOf(repoConfig);
    Some(Key(profile, home, t.model, t.effort, t.trust, t.env.Items, [first, second]))
  }

  // ---- the two critical sections

  datatype Entry = Entry(surface: Surface, expires: Time)

  /** A probe's record: its end is written once, before its waiters are let go. A None
      result is the probe's error. */
  datatype End = End(result: Option<Surface>, at: Time)

  datatype Probe = Probe(key: Key, end: Option<End>)

  /** A pending record is named by its place among the probes started so far. */
  datatype State = State(entries: map<Key, Entry>, pending: map<Key, nat>, probes: seq<Probe>)

  datatype Step = Hit(surface: Surface) | WaitFor(probe: nat) | Run(probe: nat)

  function Live(entries: map<Key, Entry>, now: Time): map<Key, Entry> {
    map k | k in entries && now < entries[k].expires :: entries[k]
  }

  function Begin(s: State, key: Key, now: Time): (State, Step) {
    var t := s.(entries := Live(s.entries, now));
    if key in t.entries then (t, Hit(t.entries[key].surface))
    else if key in t.pending then (t, WaitFor(t.pending[key]))
    else
      var probe := |t.probes|;
      (t.(pending := t.pending[key := probe], probes := t.probes + [Probe(key, None)]), Run(probe))
  }

  predicate CanFinish(s: State, probe: nat) {
    probe < |s.probes| && s.probes[probe].end.None?
  }

  function Finish(s: State, probe: nat, result: Option<Surface>, now: Time): State
    requires CanFinish(s, probe)
  {
    var key := s.probes[probe].key;
    State(if result.Some? then s.entries[key := Entry(result.value, now + TTL)] else s.entries,
          s.pending - {key},
          s.probes[probe := Probe(key, Some(End(result, now)))])
  }

  class HeadlessCapabilityCache {
    var entries: map<Key, Entry>
    var pending: map<Key, nat>
    var probes: seq<Probe>

    function View(): State
      reads this
    {
      State(entries, pending, probes)
    }

    constructor ()
      ensures View() == State(map[], map[], [])
    {
      entries, pending, probes := map[], map[], [];
    }

    /** Up to the point where a caller answers from the cache, waits, or runs the probe itself. */
    method BeginProbe(key: Key, now: Time) returns (step: Step)
      modifies this
      ensures (View(), step) == Begin(old(View()), key, now)
    {
      var stale := entries.Keys;
      while stale != {}
        invariant stale <= old(entries).Keys
        invariant entries == map k | k in old(entries) && (k in stale || now < old(entries)[k].expires) ::
                    old(entries)[k]
        invariant pending == old(pending) && probes == old(probes)
        decreases stale
      {
        var k :| k in stale;
        if now >= entries[k].expires {
          entries := entries - {k};
        }
        stale := stale - {k};
      }
      assert entries == Live(old(entries), now);
      if key in entries {
        return Hit(entries[key].surface);
      }
      if key in pending {
        return WaitFor(pending[key]);
      }
      var probe := |probes|;
      probes := probes + [Probe(key, None)];
      pending := pending[key := probe];
      return Run(probe);
    }

    method FinishProbe(probe: nat, result: Option<Surface>, now: Time)
      requires CanFinish(View(), probe)
      modifies this
      ensures View() == Finish(old(View()), probe, result, now)
    {
      var key := probes[probe].key;
      probes := probes[probe := Probe(key, Some(End(result, now)))];
      if result.Some? {
        entries := entries[key := Entry(result.value, now + TTL)];
      }
      pending := pending - {key};
    }
  }

  // ---- runs of any callers

  /** `Ended` carries what the inventory gave: its surface, unless it failed. `Woken`
      is a waiter that reads the record of the probe it waited on. */
  datatype Event =
    | Called(key: Key, now: Time)
    | Ended(probe: nat, inventory: Option<Surface>, workDirSet: bool, now: Time)
    | Woken(probe: nat, now: Time)

  /** The probe's own verdict: a surface that does not meet the profile is an error. */
  function Verified(inventory: Option<Surface>, workDirSet: bool): Option<Surface> {
    if inventory.Some? && ProfileResponse(inventory.value, workDirSet).Ready? then inventory else None
  }

  predicate HasEnded(s: State, probe: nat) {
    probe < |s.probes| && s.probes[probe].end.Some?
  }

  /** What a woken waiter is handed: a surface, or the probe's error. */
  function Handed(s: State, probe: nat): Option<Surface>
    requires HasEnded(s, probe)
  {
    s.probes[probe].end.value.result
  }

  predicate Enabled(s: State, clock: Time, e: Event) {
    clock <= e.now && (e.Ended? ==> CanFinish(s, e.probe)) && (e.Woken? ==> HasEnded(s, e.probe))
  }

  function Next(s: State, e: Event): State
    requires e.Ended? ==> CanFinish(s, e.probe)
  {
    match e
    case Called(key, now) => Begin(s, key, now).0
    case Ended(probe, inventory, workDirSet, now) => Finish(s, probe, Verified(inventory, workDirSet), now)
    case Woken(_, _) => s
  }

  ghost predicate IsRun(s: State, clock: Time, es: seq<Event>)
    decreases es
  {
    es == [] || (Enabled(s, clock, es[0]) && IsRun(Next(s, es[0]), es[0].now, es[1..]))
  }

  function After(s: State, clock: Time, es: seq<Event>): State
    requires IsRun(s, clock, es)
    decreases es
  {
    if es == [] then s else After(Next(s, es[0]), es[0].now, es[1..])
  }

  const EMPTY := State(map[], map[], [])

  /** An entry is the verified surface of a probe of its key that ended TTL before it expires. */
  ghost predicate Backed(s: State, key: Key, clock: Time)
    requires key in s.entries
  {
    exists p: nat :: p < |s.probes|
        && EndedWith(s.probes[p], key, s.entries[key].surface, s.entries[key].expires - TTL, clock)
  }

  predicate EndedWith(p: Probe, key: Key, surface: Surface, at: Time, clock: Time) {
    p.key == key && p.end == Some(End(Some(surface), at)) && at <= clock
  }

  /** No key is both cached and pending, and the pending records are exactly the
      probes under way, one for each key. */
  ghost predicate OneEach(s: State) {
    && (forall k | k in s.entries :: k !in s.pending)
    && (forall k | k in s.pending :: CanFinish(s, s.pending[k]) && s.probes[s.pending[k]].key == k)
    && (forall p: nat | CanFinish(s, p) :: s.probes[p].key in s.pending && s.pending[s.probes[p].key] == p)
  }

  ghost predicate AllMet(probes: seq<Probe>) {
    forall p: nat | p < |probes| && probes[p].end.Some? && probes[p].end.value.result.Some? ::
      Met(probes[p].end.value.result.value)
  }

  /** What holds in every reachable state: every entry is also backed by a probe, and
      every surface a probe recorded meets the profile. */
  ghost predicate Coherent(s: State, clock: Time) {
    OneEach(s) && AllMet(s.probes) && forall k | k in s.entries :: Backed(s, k, clock)
  }

  lemma BackedOn(s: State, t: State, key: Key, clock: Time, later: Time)
    requires key in s.entries && key in t.entries && t.entries[key] == s.entries[key] && Backed(s, key, clock)
    requires clock <= later
    requires |s.probes| <= |t.probes| && forall p: nat | p < |s.probes| && s.probes[p].end.Some? ::
               t.probes[p] == s.probes[p]
    ensures Backed(t, key, later)
  {
    var p: nat :| p < |s.probes|
        && EndedWith(s.probes[p], key, s.entries[key].surface, s.entries[key].expires - TTL, clock);
    assert EndedWith(t.probes[p], key, t.entries[key].surface, t.entries[key].expires - TTL, later);
  }

  lemma CallOneEach(s: State, key: Key, now: Time)
    requires OneEach(s)
    ensures OneEach(Begin(s, key, now).0)
  {
    var t := Begin(s, key, now).0;
    forall p: nat | CanFinish(t, p) ensures t.probes[p].key in t.pending && t.pending[t.probes[p].key] == p {
      assert p < |s.probes| ==> CanFinish(s, p);
    }
  }

  lemma CallKeeps(s: State, key: Key, now: Time, k: Key)
    requires k in Begin(s, key, now).0.entries
    ensures (var t := Begin(s, key, now).0;
             && k in s.entries && t.entries[k] == s.entries[k] && |s.probes| <= |t.probes|
             && forall p: nat | p < |s.probes| :: t.probes[p] == s.probes[p])
  {
  }

  lemma CallMet(s: State, key: Key, now: Time)
    requires AllMet(s.probes)
    ensures AllMet(Begin(s, key, now).0.probes)
  {
    hide Met;
  }

  lemma CallCoherent(s: State, clock: Time, key: Key, now: Time)
    requires Coherent(s, clock) && clock <= now
    ensures Coherent(Begin(s, key, now).0, now)
  {
    var t := Begin(s, key, now).0;
    CallOneEach(s, key, now);
    hide OneEach;
    forall k | k in t.entries ensures Backed(t, k, now) {
      CallKeeps(s, key, now, k);
      BackedOn(s, t, k, clock, now);
    }
    hide Backed;
    CallMet(s, key, now);
  }

  lemma EndOneEach(s: State, probe: nat, result: Option<Surface>, now: Time)
    requires OneEach(s) && CanFinish(s, probe)
    ensures OneEach(Finish(s, probe, result, now))
  {
    var t := Finish(s, probe, result, now);
    forall p: nat | CanFinish(t, p)
        ensures CanFinish(s, p) && t.probes[p] == s.probes[p] && s.probes[p].key != s.probes[probe].key {
    }
  }

  lemma EndBacked(s: State, clock: Time, probe: nat, result: Option<Surface>, now: Time, k: Key)
    requires CanFinish(s, probe) && clock <= now && (k in s.entries ==> Backed(s, k, clock))
    requires k in Finish(s, probe, result, now).entries
    ensures Backed(Finish(s, probe, result, now), k, now)
  {
    var t := Finish(s, probe, result, now);
    if k == s.probes[probe].key && result.Some? {
      hide Backed;
      assert EndedWith(t.probes[probe], k, t.entries[k].surface, t.entries[k].expires - TTL, now);
      IsBacked(t, k, now, probe);
    } else {
      hide Backed;
      BackedOn(s, t, k, clock, now);
    }
  }

  lemma IsBacked(s: State, key: Key, clock: Time, p: nat)
    requires key in s.entries && p < |s.probes|
    requires EndedWith(s.probes[p], key, s.entries[key].surface, s.entries[key].expires - TTL, clock)
    ensures Backed(s, key, clock)
  {
  }

  lemma EndCoherent(s: State, clock: Time, e: Event)
    requires e.Ended? && Coherent(s, clock) && Enabled(s, clock, e)
    ensures Coherent(Next(s, e), e.now)
  {
    var t := Next(s, e);
    var result := Verified(e.inventory, e.workDirSet);
    EndOneEach(s, e.probe, result, e.now);
    if result.Some? {
      ReadyMeansMet(result.value, e.workDirSet);
    }
    hide Backed, Met, OneEach;
    forall k | k in t.entries ensures Backed(t, k, e.now) {
      EndBacked(s, clock, e.probe, result, e.now, k);
    }
  }

  lemma LaterCoherent(s: State, clock: Time, later: Time)
    requires Coherent(s, clock) && clock <= later
    ensures Coherent(s, later)
  {
    hide Backed, OneEach, AllMet;
    forall k | k in s.entries ensures Backed(s, k, later) {
      BackedOn(s, s, k, clock, later);
    }
  }

  lemma StepCoherent(s: State, clock: Time, e: Event)
    requires Coherent(s, clock) && Enabled(s, clock, e)
    ensures Coherent(Next(s, e), e.now)
  {
    match e
    case Called(key, now) => CallCoherent(s, clock, key, now);
    case Ended(_, _, _, _) => EndCoherent(s, clock, e);
    case Woken(_, _) => LaterCoherent(s, clock, e.now);
  }

  lemma {:induction false} AlwaysCoherent(s: State, clock: Time, es: seq<Event>)
    requires IsRun(s, clock, es) && Coherent(s, clock)
    ensures Coherent(After(s, clock, es), if es == [] then clock else es[|es| - 1].now)
    decreases es
  {
    hide Coherent, Next, CanFinish;
    if es != [] {
      StepCoherent(s, clock, es[0]);
      AlwaysCoherent(Next(s, es[0]), es[0].now, es[1..]);
    }
  }

  /** Every state that is reached is coherent. */
  lemma ReachedCoherent(clock: Time, es: seq<Event>)
    requires IsRun(EMPTY, clock, es)
    ensures Coherent(After(EMPTY, clock, es), if es == [] then clock else es[|es| - 1].now)
  {
    AlwaysCoherent(EMPTY, clock, es);
  }

  // ---- what a caller gets

  /** A probe is run only when no other probe of its key is under way and nothing
      live is cached for it; two probes under way are never for one key. */
  lemma SingleFlight(s: State, clock: Time, key: Key, now: Time)
    requires Coherent(s, clock) && Begin(s, key, now).1.Run?
    ensures forall p: nat | CanFinish(s, p) :: s.probes[p].key != key
    ensures key in s.entries ==> s.entries[key].expires <= now
    ensures forall p: nat, q: nat | CanFinish(s, p) && CanFinish(s, q) && s.probes[p].key == s.probes[q].key :: p == q
  {
  }

  /** A cached answer is what a probe of the same key found less than ten minutes ago. */
  lemma HitIsFresh(s: State, clock: Time, key: Key, now: Time) returns (p: nat)
    requires Coherent(s, clock) && clock <= now && Begin(s, key, now).1.Hit?
    ensures p < |s.probes| && s.probes[p].key == key && s.probes[p].end.Some?
    ensures s.probes[p].end.value.result == Some(Begin(s, key, now).1.surface)
    ensures s.probes[p].end.value.at <= now < s.probes[p].end.value.at + 10 * MINUTE
  {
    assert Backed(s, key, clock);
    p :| p < |s.probes| && EndedWith(s.probes[p], key, s.entries[key].surface, s.entries[key].expires - TTL, clock);
  }

  lemma WaitsForRunning(s: State, clock: Time, key: Key, now: Time)
    requires Coherent(s, clock) && Begin(s, key, now).1.WaitFor?
    ensures (var (t, step) := Begin(s, key, now);
             CanFinish(s, step.probe) && t.probes == s.probes && s.probes[step.probe].key == key)
  {
  }

  /** A probe's record is written once. */
  lemma {:induction false} EndStays(s: State, clock: Time, es: seq<Event>, p: nat)
    requires IsRun(s, clock, es) && HasEnded(s, p)
    ensures (var t := After(s, clock, es); HasEnded(t, p) && t.probes[p] == s.probes[p])
    decreases es
  {
    if es != [] {
      EndStays(Next(s, es[0]), es[0].now, es[1..], p);
    }
  }

  /** Who wrote it: the one step that ended the probe. */
  lemma {:induction false} EndedBy(s: State, clock: Time, es: seq<Event>, p: nat) returns (n: nat)
    requires IsRun(s, clock, es) && CanFinish(s, p) && HasEnded(After(s, clock, es), p)
    ensures n < |es| && es[n].Ended? && es[n].probe == p && clock <= es[n].now
    ensures After(s, clock, es).probes[p]
            == Probe(s.probes[p].key, Some(End(Verified(es[n].inventory, es[n].workDirSet), es[n].now)))
    decreases es
  {
    var t := Next(s, es[0]);
    hide Verified, Begin;
    StepProbe(s, clock, es[0], p);
    if es[0].Ended? && es[0].probe == p {
      n := 0;
      EndStays(t, es[0].now, es[1..], p);
    } else {
      n := EndedBy(t, es[0].now, es[1..], p);
      n := n + 1;
    }
  }

  lemma StepProbe(s: State, clock: Time, e: Event, p: nat)
    requires Enabled(s, clock, e) && CanFinish(s, p)
    ensures (var t := Next(s, e);
             && p < |t.probes|
             && t.probes[p]
                == if e.Ended? && e.probe == p then
                     Probe(s.probes[p].key, Some(End(Verified(e.inventory, e.workDirSet), e.now)))
                   else s.probes[p])
  {
    hide Verified;
  }

  /** Whenever a waiter is woken, it is handed what the probe it waited on found: a
      probe of its own key, begun before it asked and ended after. */
  lemma WaitIsFresh(s: State, clock: Time, key: Key, now: Time, es: seq<Event>) returns (n: nat)
    requires Coherent(s, clock) && clock <= now && Begin(s, key, now).1.WaitFor?
    requires IsRun(Begin(s, key, now).0, now, es)
    requires HasEnded(After(Begin(s, key, now).0, now, es), Begin(s, key, now).1.probe)
    ensures (var (t, step) := Begin(s, key, now);
             && CanFinish(s, step.probe) && s.probes[step.probe].key == key
             && n < |es| && es[n].Ended? && es[n].probe == step.probe && now <= es[n].now
             && Handed(After(t, now, es), step.probe) == Verified(es[n].inventory, es[n].workDirSet))
  {
    WaitsForRunning(s, clock, key, now);
    var (t, step) := Begin(s, key, now);
    hide Begin, Verified, Coherent, IsRun, After;
    n := EndedBy(t, now, es, step.probe);
  }

  /** An answer without an error, cached or found by a probe, lets the launch through:
      the response made from it afterwards succeeds for every target. */
  lemma AnswerLaunches(s: State, clock: Time, surface: Surface, workDirSet: bool)
    requires Coherent(s, clock)
    requires (exists key, now :: clock <= now && Begin(s, key, now).1 == Hit(surface))
          || (exists p: nat, at :: p < |s.probes| && s.probes[p].end == Some(End(Some(surface), at)))
    ensures ProfileResponse(surface, workDirSet).Ready?
  {
    ReadyMeansMet(surface, workDirSet);
    hide ProfileResponse, Met;
    if key, now :| clock <= now && Begin(s, key, now).1 == Hit(surface) {
      var p := HitIsFresh(s, clock, key, now);
    }
  }

  /** After a probe succeeds every caller with its key is answered from the cache
      until TTL has passed, whatever other keys are probed meanwhile. */
  lemma {:induction false} ServedUntilExpiry(s: State, clock: Time, es: seq<Event>, key: Key, surface: Surface,
                                             now: Time)
    requires IsRun(s, clock, es) && Coherent(s, clock)
    requires key in s.entries && s.entries[key].surface == surface && now < s.entries[key].expires
    requires clock <= now && (es != [] ==> es[|es| - 1].now <= now)
    ensures Begin(After(s, clock, es), key, now).1 == Hit(surface)
    decreases es
  {
    if es != [] {
      var e := es[0];
      var t := Next(s, e);
      TimesBelow(s, clock, es, now);
      StepCoherent(s, clock, e);
      assert es[1..] != [] ==> es[1..][|es[1..]| - 1] == es[|es| - 1];
      assert key in t.entries && t.entries[key] == s.entries[key] by { EntryStays(s, clock, e, key); }
      hide Coherent, Begin, Finish, Next;
      ServedUntilExpiry(t, e.now, es[1..], key, surface, now);
    }
  }

  lemma EntryStays(s: State, clock: Time, e: Event, key: Key)
    requires Coherent(s, clock) && Enabled(s, clock, e) && key in s.entries && e.now < s.entries[key].expires
    ensures key in Next(s, e).entries && Next(s, e).entries[key] == s.entries[key]
  {
    hide Backed, Met, Verified;
  }

  lemma {:induction false} TimesBelow(s: State, clock: Time, es: seq<Event>, now: Time)
    requires IsRun(s, clock, es) && es != [] && es[|es| - 1].now <= now
    ensures es[0].now <= now
    decreases es
  {
    hide Next, CanFinish;
    if |es| > 1 {
      TimesBelow(Next(s, es[0]), es[0].now, es[1..], now);
    }
  }

  /** The repository's configuration, of which there is none without a directory. */
  function RepoConfig(t: Target, r: FileRead): FileRead {
    if t.workDir == "" then Absent else r
  }

  lemma SameItems(a: map<string, string>, b: map<string, string>)
    ensures a.Items == b.Items <==> a == b
  {
    if a.Items == b.Items {
      forall k | k in a ensures k in b && b[k] == a[k] {
        assert (k, a[k]) in b.Items;
      }
      forall k | k in b ensures k in a {
        assert (k, b[k]) in a.Items;
      }
    }
  }

  /** Two callers share one identity exactly when all that a surface may depend on
      agrees: the directory itself does not count, only the configuration in it. */
  lemma SameIdentity(profile: int, t: Target, homeConfig: FileRead, repoConfig: FileRead,
                     profile': int, u: Target, homeConfig': FileRead, repoConfig': FileRead)
    requires Fingerprint(profile, t, homeConfig, repoConfig).Some?
    requires Fingerprint(profile', u, homeConfig', repoConfig').Some?
    ensures Fingerprint(profile, t, homeConfig, repoConfig) == Fingerprint(profile', u, homeConfig', repoConfig')
       <==> && profile == profile' && t.home == u.home && t.model == u.model && t.effort == u.effort
            && t.trust == u.trust && t.env == u.env
            && homeConfig == homeConfig' && RepoConfig(t, repoConfig) == RepoConfig(u, repoConfig')
  {
    SameItems(t.env, u.env);
  }
}
