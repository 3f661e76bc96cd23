/** What the settings hold after any sequence of hook writes and removals. */
module HookRuns {
  import opened Wrappers
  import opened Text
  import opened HookLists
  import opened HookConfig
  import opened HookURLs

  // ---- kinds of entries

  predicate IsFinalize(e: Entry) {
    HasMatcher(e, FINALIZE_MATCHER)
  }

  predicate IsTurn(e: Entry) {
    Posting(TURN_ENDED)(e)
  }

  predicate IsQuestion(e: Entry) {
    Posting(QUESTION)(e)
  }

  predicate IsPrompt(e: Entry) {
    Posting(PROMPT_SUBMITTED)(e)
  }

  predicate ForeignStop(e: Entry) {
    !IsRun(e) && !IsFinalize(e) && !IsTurn(e)
  }

  /** A written entry, for a chat. */
  datatype Owned = Owned(id: string, entry: Entry)

  /** No chat id is a prefix of another. */
  ghost predicate PrefixFree(ids: iset<string>) {
    forall a, b | a in ids && b in ids && a <= b :: a == b
  }

  /** It is the chat's: among these ids its URL matches that chat's alone. */
  ghost predicate Serves(o: Owned, path: string, ids: iset<string>) {
    && Posting(path)(o.entry)
    && (forall id | Hex(id) && id in ids :: Posting(path + id)(o.entry) <==> id == o.id)
  }

  lemma ServesOwn(o: Owned, path: string, tail: string, ids: iset<string>)
    requires PostsTo(o.entry, path, path + o.id, tail) && Hex(o.id) && o.id in ids && EndsID(tail) && PrefixFree(ids)
    ensures Serves(o, path, ids)
  {
    assert path <= path + o.id <= path + o.id + tail;
    forall id | Hex(id) && id in ids ensures Posting(path + id)(o.entry) <==> id == o.id {
      PostsToPrefixes(o.entry, path, o.id, tail, id);
    }
  }

  // ---- what bossd keeps, apart from everything else

  datatype Registry = Registry(run: Option<Owned>, finalize: Option<Entry>, question: Option<Owned>,
                               prompt: Option<Owned>, turns: seq<Owned>)

  const NOTHING := Registry(None, None, None, None, [])

  datatype Op = Write(session: string, agent: string, token: string, port: nat)
      | Submit(agent: string, port: nat, token: string) | Remove(agent: string)

  /** Calls that are not refused, with ids of the characters bossd uses and chat ids from `ids`. */
  predicate Plain(op: Op, ids: iset<string>) {
    match op
    case Write(session, agent, token, port) =>
      session != "" && Hex(session) && token != "" && port > 0 && (agent != "" ==> Hex(agent) && agent in ids)
    case Submit(agent, port, token) => agent != "" && Hex(agent) && agent in ids && port > 0 && TokenSafe(token)
    case Remove(agent) => agent != "" && Hex(agent) && agent in ids
  }

  /** Its token holds no URL that tells an entry of this kind. */
  predicate Free(op: Op, kind: string) {
    op.Remove? || !Contains(op.token, HOOKS + kind)
  }

  ghost predicate AllFree(ops: seq<Op>, kind: string) {
    forall i | 0 <= i < |ops| :: Free(ops[i], kind)
  }

  ghost predicate AllPlain(ops: seq<Op>, ids: iset<string>) {
    forall i | 0 <= i < |ops| :: Plain(ops[i], ids)
  }

  function Apply(h: Hooks, op: Op): Hooks {
    match op
    case Write(session, agent, token, port) => Upserted(h, session, agent, token, port)
    case Submit(agent, port, token) => Submitted(h, agent, port, token)
    case Remove(agent) => Removed(h, agent)
  }

  function Other(id: string): Owned -> bool {
    (o: Owned) => o.id != id
  }

  function Last(os: seq<Owned>, k: nat): seq<Owned> {
    if |os| > k then os[|os| - k..] else os
  }

  function Unless(o: Option<Owned>, id: string): Option<Owned> {
    if o.Some? && o.value.id == id then None else o
  }

  function TurnOf(agent: string, token: string, port: nat): Owned {
    Owned(agent, TurnEndedEntry(HOOKS + TURN_ENDED + agent, token, port))
  }

  /** The chats' turn-ended entries, the last written last, at most eight. */
  function Track(r: Registry, op: Op): Registry {
    match op
    case Write(session, agent, token, port) =>
      var entry := StopEntry(HookMatcher(agent), HookURL(session, agent), token, port);
      if agent == "" then r.(finalize := Some(entry))
      else r.(run := Some(Owned(agent, entry)),
              question := Some(Owned(agent, NotificationEntry(HOOKS + QUESTION + agent, token, port))))
    case Submit(agent, port, token) =>
      var prompt := Some(Owned(agent, PromptEntry(HOOKS + PROMPT_SUBMITTED + agent, token, port)));
      if token == "" then r.(prompt := prompt)
      else r.(prompt := prompt,
          turns := Last(Keep(r.turns, Other(agent)) + [TurnOf(agent, token, port)], MAX_TURN_ENDED))
    case Remove(agent) => r.(run := Unless(r.run, agent), question := Unless(r.question, agent),
        prompt := Unless(r.prompt, agent))
  }

  function Entries(os: seq<Owned>): (es: seq<Entry>)
    ensures |es| == |os|
  {
    if os == [] then [] else Entries(os[..|os| - 1]) + [os[|os| - 1].entry]
  }

  function One(o: Option<Owned>): seq<Entry> {
    if o.Some? then [o.value.entry] else []
  }

  // ---- the registry and the arrays say the same

  /** A stop array kind by kind. */
  datatype Views = Views(foreign: seq<Entry>, runs: seq<Entry>, finalizes: seq<Entry>, turns: seq<Entry>)

  function Kinds(stop: seq<Entry>): Views {
    Views(Keep(stop, ForeignStop), Keep(stop, IsRun), Keep(stop, IsFinalize), Keep(stop, IsTurn))
  }

  /** No entry is of two kinds. */
  predicate OneKind(e: Entry) {
    !(IsTurn(e) && (IsRun(e) || IsFinalize(e)))
  }

  ghost predicate Clear(stop: seq<Entry>) {
    forall e | e in stop :: OneKind(e)
  }

  /** The stop array holds the registry's entries, each kind on its own, and the
      foreign ones in their order. */
  ghost predicate StopHolds(stop: seq<Entry>, foreign: seq<Entry>, r: Registry, ids: iset<string>) {
    && Clear(stop)
    && Kinds(stop) == Views(foreign, One(r.run), if r.finalize.Some? then [r.finalize.value] else [], Entries(r.turns))
    && (r.run.Some? ==> HasMatcher(r.run.value.entry, RUN_PREFIX + r.run.value.id))
    && Shaped(r.turns, ids)
  }

  /** At most eight entries, each of another chat. */
  ghost predicate Shaped(turns: seq<Owned>, ids: iset<string>) {
    && |turns| <= MAX_TURN_ENDED
    && (forall i | 0 <= i < |turns| :: Serves(turns[i], TURN_ENDED, ids))
    && (forall i, j | 0 <= i < j < |turns| :: turns[i].id != turns[j].id)
  }

  /** So does an array with at most one entry of bossd's, told by its URL. */
  ghost predicate OneHolds(es: seq<Entry>, foreign: seq<Entry>, path: string, o: Option<Owned>, ids: iset<string>) {
    && Keep(es, Not(Posting(path))) == foreign
    && Keep(es, Posting(path)) == One(o)
    && (o.Some? ==> Serves(o.value, path, ids))
  }

  ghost predicate Holds(h: Hooks, foreign: Hooks, r: Registry, ids: iset<string>) {
    && StopHolds(h.stop, foreign.stop, r, ids)
    && OneHolds(h.notification, foreign.notification, QUESTION, r.question, ids)
    && OneHolds(h.prompt, foreign.prompt, PROMPT_SUBMITTED, r.prompt, ids)
  }

  // ---- arrays with one entry

  lemma PostingShorter(e: Entry, path: string, id: string)
    ensures Posting(path + id)(e) ==> Posting(path)(e)
  {
    if Posting(path + id)(e) {
      var k :| 0 <= k < |e.commands| && Contains(e.commands[k], HOOKS + (path + id));
      var c := e.commands[k];
      var i :| 0 <= i <= |c| && At(c, HOOKS + (path + id), i);
      FrontOfMatch(c, path, path + id, i);
    }
  }

  lemma WriteOne(es: seq<Entry>, foreign: seq<Entry>, path: string, was: Option<Owned>, o: Owned, ids: iset<string>)
    requires OneHolds(es, foreign, path, was, ids) && Serves(o, path, ids)
    ensures OneHolds(Keep(es, Not(Posting(path))) + [o.entry], foreign, path, Some(o), ids)
  {
    var p := Posting(path);
    var pruned := Keep(es, Not(p));
    KeepPruned(es, p, Not(p));
    KeepNone(es, p, p);
    KeepJoin(pruned, [o.entry], p);
    KeepJoin(pruned, [o.entry], Not(p));
    KeepOne(o.entry, p);
    KeepOne(o.entry, Not(p));
  }

  /** After the prune there is nothing left to replace. */
  lemma UpsertAppends(es: seq<Entry>, path: string, id: string, e: Entry)
    ensures (var pruned := Keep(es, Not(Posting(path))); Upsert(pruned, Posting(path + id), e) == pruned + [e])
  {
    var pruned := Keep(es, Not(Posting(path)));
    var k := First(pruned, Posting(path + id));
    hide Keep, First, Posting;
    if k < |pruned| {
      PostingShorter(pruned[k], path, id);
      KeepIs(es, Not(Posting(path)), pruned[k]);
    }
  }

  lemma RemoveOne(es: seq<Entry>, foreign: seq<Entry>, path: string, was: Option<Owned>, id: string, ids: iset<string>)
    requires OneHolds(es, foreign, path, was, ids) && Hex(id) && id in ids
    ensures OneHolds(Keep(es, Not(Posting(path + id))), foreign, path, Unless(was, id), ids)
  {
    var p, q := Posting(path + id), Posting(path);
    forall i | 0 <= i < |es| ensures p(es[i]) ==> q(es[i]) {
      PostingShorter(es[i], path, id);
    }
    KeepPruned(es, p, Not(q));
    KeepWithin(es, p, q);
    if was.Some? {
      KeepOne(was.value.entry, Not(p));
    }
  }

  // ---- the stop array

  lemma StopKinds(e: Entry)
    ensures !(IsRun(e) && IsFinalize(e))
  {
    assert RUN_PREFIX[6] != FINALIZE_MATCHER[6];
  }

  lemma AppendKinds(es: seq<Entry>, e: Entry)
    requires OneKind(e)
    ensures (var v := Kinds(es);
             Kinds(es + [e]) == if IsRun(e) then v.(runs := v.runs + [e])
                                else if IsFinalize(e) then v.(finalizes := v.finalizes + [e])
                                else if IsTurn(e) then v.(turns := v.turns + [e])
                                else v.(foreign := v.foreign + [e]))
  {
    AppendOne(es, e, ForeignStop);
    AppendOne(es, e, IsRun);
    AppendOne(es, e, IsFinalize);
    AppendOne(es, e, IsTurn);
    StopKinds(e);
    hide Keep, IsTurn, IsRun, IsFinalize;
  }

  lemma ClearPruned(stop: seq<Entry>, p: Entry -> bool)
    requires Clear(stop)
    ensures Clear(Keep(stop, p))
  {
    hide OneKind;
    forall e | e in Keep(stop, p) ensures OneKind(e) {
      KeepIs(stop, p, e);
    }
  }

  /** Pruning within the run entries touches no other kind. */
  lemma PruneRuns(stop: seq<Entry>, p: Entry -> bool)
    requires Clear(stop) && forall e | p(e) :: IsRun(e)
    ensures Kinds(Keep(stop, Not(p))) == Kinds(stop).(runs := Keep(Keep(stop, IsRun), Not(p)))
  {
    forall i | 0 <= i < |stop| ensures !(IsRun(stop[i]) && IsFinalize(stop[i])) && OneKind(stop[i]) {
      StopKinds(stop[i]);
    }
    hide IsTurn, IsRun, IsFinalize;
    KeepPruned(stop, p, ForeignStop);
    KeepPruned(stop, p, IsFinalize);
    KeepPruned(stop, p, IsTurn);
    KeepWithin(stop, p, IsRun);
    hide Keep;
  }

  /** So does pruning within the turn-ended ones. */
  lemma PruneTurns(stop: seq<Entry>, p: Entry -> bool)
    requires Clear(stop) && forall e | p(e) :: IsTurn(e)
    ensures Kinds(Keep(stop, Not(p))) == Kinds(stop).(turns := Keep(Keep(stop, IsTurn), Not(p)))
  {
    forall i | 0 <= i < |stop| ensures OneKind(stop[i]) {
    }
    hide IsTurn, IsRun, IsFinalize;
    KeepPruned(stop, p, ForeignStop);
    KeepPruned(stop, p, IsFinalize);
    KeepPruned(stop, p, IsRun);
    KeepWithin(stop, p, IsTurn);
    hide Keep;
  }

  /** After the prune no run entry is left to replace. */
  lemma UpsertRunAppends(stop: seq<Entry>, id: string, e: Entry)
    ensures (var pruned := Keep(stop, Not(IsRun)); Upsert(pruned, WithMatcher(RUN_PREFIX + id), e) == pruned + [e])
  {
    var pruned := Keep(stop, Not(IsRun));
    var k := First(pruned, WithMatcher(RUN_PREFIX + id));
    hide Keep, First;
    assert RUN_PREFIX <= RUN_PREFIX + id;
    if k < |pruned| {
      KeepIs(stop, Not(IsRun), pruned[k]);
    }
  }

  lemma NoRuns(stop: seq<Entry>)
    ensures Keep(Keep(stop, IsRun), Not(IsRun)) == []
  {
    KeepWithin(stop, IsRun, IsRun);
    KeepNone(stop, IsRun, IsRun);
  }

  lemma ClearAppend(es: seq<Entry>, e: Entry)
    requires Clear(es) && OneKind(e)
    ensures Clear(es + [e])
  {
    hide OneKind;
  }

  lemma WriteRun(stop: seq<Entry>, foreign: seq<Entry>, r: Registry, o: Owned, ids: iset<string>)
    requires StopHolds(stop, foreign, r, ids) && HasMatcher(o.entry, RUN_PREFIX + o.id) && !IsTurn(o.entry)
    ensures StopHolds(Upsert(Keep(stop, Not(IsRun)), WithMatcher(RUN_PREFIX + o.id), o.entry), foreign,
            r.(run := Some(o)), ids)
  {
    var pruned := Keep(stop, Not(IsRun));
    assert IsRun(o.entry) && OneKind(o.entry) && One(Some(o)) == [o.entry];
    PruneRuns(stop, IsRun);
    NoRuns(stop);
    AppendKinds(pruned, o.entry);
    UpsertRunAppends(stop, o.id, o.entry);
    ClearPruned(stop, Not(IsRun));
    ClearAppend(pruned, o.entry);
    RunsOf(stop);
    hide Clear, Shaped, Keep, Kinds, Upsert, IsTurn, IsRun, IsFinalize, OneKind, Serves, Entries, One, HasMatcher, Not;
    assert [] + [o.entry] == [o.entry];
  }

  lemma FinalizeKinds(stop: seq<Entry>, e: Entry)
    requires Clear(stop) && IsFinalize(e) && OneKind(e) && |Keep(stop, IsFinalize)| <= 1
    ensures Kinds(Upsert(stop, WithMatcher(FINALIZE_MATCHER), e)) == Kinds(stop).(finalizes := [e])
  {
    var p := WithMatcher(FINALIZE_MATCHER);
    forall i | 0 <= i < |stop| ensures !(IsRun(stop[i]) && IsFinalize(stop[i])) && OneKind(stop[i]) {
      StopKinds(stop[i]);
    }
    StopKinds(e);
    KeepSame(stop, p, IsFinalize);
    hide IsTurn, IsRun;
    UpsertElsewhere(stop, p, e, ForeignStop);
    UpsertElsewhere(stop, p, e, IsRun);
    UpsertElsewhere(stop, p, e, IsTurn);
    UpsertAlone(stop, p, e);
    KeepSame(Upsert(stop, p, e), p, IsFinalize);
    hide Keep, Upsert;
  }

  lemma WriteFinalize(stop: seq<Entry>, foreign: seq<Entry>, r: Registry, e: Entry, ids: iset<string>)
    requires StopHolds(stop, foreign, r, ids) && IsFinalize(e) && !IsTurn(e)
    ensures StopHolds(Upsert(stop, WithMatcher(FINALIZE_MATCHER), e), foreign, r.(finalize := Some(e)), ids)
  {
    FinalizeKinds(stop, e);
    var t := Upsert(stop, WithMatcher(FINALIZE_MATCHER), e);
    assert OneKind(e);
    hide Kinds, IsTurn, IsRun, IsFinalize, OneKind, Serves, Entries, Shaped;
    forall x | x in t ensures OneKind(x) {
      assert x == e || x in stop;
    }
  }

  lemma RunsOf(stop: seq<Entry>)
    ensures Kinds(stop).runs == Keep(stop, IsRun)
  {
  }

  lemma UnlessRun(run: Option<Owned>, id: string)
    requires run.Some? ==> HasMatcher(run.value.entry, RUN_PREFIX + run.value.id)
    ensures Keep(One(run), Not(WithMatcher(RUN_PREFIX + id))) == One(Unless(run, id))
  {
    var p := WithMatcher(RUN_PREFIX + id);
    if run.Some? {
      KeepOne(run.value.entry, Not(p));
      assert (RUN_PREFIX + run.value.id)[|RUN_PREFIX|..] == run.value.id && (RUN_PREFIX + id)[|RUN_PREFIX|..] == id;
    }
  }

  lemma RemoveRun(stop: seq<Entry>, foreign: seq<Entry>, r: Registry, id: string, ids: iset<string>)
    requires StopHolds(stop, foreign, r, ids)
    ensures StopHolds(Keep(stop, Not(WithMatcher(RUN_PREFIX + id))), foreign, r.(run := Unless(r.run, id)), ids)
  {
    var p := WithMatcher(RUN_PREFIX + id);
    assert RUN_PREFIX <= RUN_PREFIX + id;
    PruneRuns(stop, p);
    ClearPruned(stop, Not(p));
    UnlessRun(r.run, id);
    hide Shaped, Keep, Kinds, IsTurn, IsRun, IsFinalize, OneKind, Clear, Serves, Entries, One, HasMatcher,
        WithMatcher, Not;
    assert Kinds(stop).runs == Keep(stop, IsRun) by { RunsOf(stop); }
  }

  // ---- turn-ended entries

  lemma {:induction false} EntriesJoin(a: seq<Owned>, b: seq<Owned>)
    ensures Entries(a + b) == Entries(a) + Entries(b)
  {
    if b == [] {
      assert a + b == a;
    } else {
      EntriesJoin(a, b[..|b| - 1]);
      assert (a + b)[..|a + b| - 1] == a + b[..|b| - 1];
    }
  }

  /** Pruning a chat's entry is pruning the chat. */
  lemma {:induction false} KeepOthers(os: seq<Owned>, id: string, ids: iset<string>)
    requires Hex(id) && id in ids && forall i | 0 <= i < |os| :: Serves(os[i], TURN_ENDED, ids)
    ensures Keep(Entries(os), Not(Posting(TURN_ENDED + id))) == Entries(Keep(os, Other(id)))
  {
    if os != [] {
      var m := |os| - 1;
      KeepOthers(os[..m], id, ids);
      KeepLast(os, Other(id));
      KeepJoin(Entries(os[..m]), [os[m].entry], Not(Posting(TURN_ENDED + id)));
      KeepOne(os[m].entry, Not(Posting(TURN_ENDED + id)));
      EntriesJoin(Keep(os[..m], Other(id)), [os[m]]);
      assert [os[m]][..0] == [];
      assert Entries([os[m]]) == [os[m].entry];
    }
  }

  lemma LastEntries(os: seq<Owned>, k: nat)
    ensures Entries(Last(os, k)) == if |os| > k then Entries(os)[|os| - k..] else Entries(os)
  {
    if |os| > k {
      EntriesJoin(os[..|os| - k], os[|os| - k..]);
      assert os[..|os| - k] + os[|os| - k..] == os;
    }
  }

  lemma {:induction false} KeepDistinct(os: seq<Owned>, id: string)
    requires forall i, j | 0 <= i < j < |os| :: os[i].id != os[j].id
    ensures (var t := Keep(os, Other(id)); forall i, j | 0 <= i < j < |t| :: t[i].id != t[j].id)
  {
    if os != [] {
      var m := |os| - 1;
      KeepDistinct(os[..m], id);
      forall i | 0 <= i < |Keep(os[..m], Other(id))| ensures Keep(os[..m], Other(id))[i].id != os[m].id {
        KeepIs(os[..m], Other(id), Keep(os[..m], Other(id))[i]);
      }
    }
  }

  lemma SubmitTurn(stop: seq<Entry>, foreign: seq<Entry>, r: Registry, o: Owned, ids: iset<string>)
    requires StopHolds(stop, foreign, r, ids) && Serves(o, TURN_ENDED, ids) && Hex(o.id) && o.id in ids
    requires !IsRun(o.entry) && !IsFinalize(o.entry)
    ensures (var stops := Keep(stop, Not(Posting(TURN_ENDED + o.id))) + [o.entry];
             StopHolds(Cap(stops, Posting(TURN_ENDED), MAX_TURN_ENDED), foreign,
                       r.(turns := Last(Keep(r.turns, Other(o.id)) + [o], MAX_TURN_ENDED)), ids))
  {
    var pruned := Keep(stop, Not(Posting(TURN_ENDED + o.id)));
    var stops := pruned + [o.entry];
    var turns := Keep(r.turns, Other(o.id)) + [o];
    PrunedTurns(stop, r.turns, o.id, ids);
    ClearPruned(stop, Not(Posting(TURN_ENDED + o.id)));
    assert OneKind(o.entry) && IsTurn(o.entry);
    AppendKinds(pruned, o.entry);
    ClearAppend(pruned, o.entry);
    EntriesOne(Keep(r.turns, Other(o.id)), o);
    TurnsShaped(r.turns, o, ids);
    hide Keep, IsRun, IsFinalize, Serves, Entries, Posting, OneKind, Kinds, Clear, Shaped, IsTurn, HasMatcher, One;
    CapKinds(stops, turns);
    CapClear(stops);
    hide Cap;
  }

  lemma EntriesOne(os: seq<Owned>, o: Owned)
    ensures Entries(os + [o]) == Entries(os) + [o.entry]
  {
    assert (os + [o])[..|os|] == os;
  }

  lemma PrunedTurns(stop: seq<Entry>, turns: seq<Owned>, id: string, ids: iset<string>)
    requires Clear(stop) && Kinds(stop).turns == Entries(turns) && Hex(id) && id in ids && Shaped(turns, ids)
    ensures Kinds(Keep(stop, Not(Posting(TURN_ENDED + id)))) == Kinds(stop).(turns := Entries(Keep(turns, Other(id))))
  {
    var p := Posting(TURN_ENDED + id);
    forall e | p(e) ensures IsTurn(e) {
      PostingShorter(e, TURN_ENDED, id);
    }
    PruneTurns(stop, p);
    KeepOthers(turns, id, ids);
    hide Posting, IsTurn;
  }

  lemma LastShaped(turns: seq<Owned>, ids: iset<string>)
    requires forall i | 0 <= i < |turns| :: Serves(turns[i], TURN_ENDED, ids)
    requires forall i, j | 0 <= i < j < |turns| :: turns[i].id != turns[j].id
    ensures Shaped(Last(turns, MAX_TURN_ENDED), ids)
  {
    hide Serves;
    var drop := |turns| - MAX_TURN_ENDED;
    if drop > 0 {
      assert forall i | 0 <= i < MAX_TURN_ENDED :: turns[drop..][i] == turns[drop + i];
    }
  }

  lemma TurnsShaped(was: seq<Owned>, o: Owned, ids: iset<string>)
    requires Serves(o, TURN_ENDED, ids) && Shaped(was, ids)
    ensures Shaped(Last(Keep(was, Other(o.id)) + [o], MAX_TURN_ENDED), ids)
  {
    var kept := Keep(was, Other(o.id));
    KeepDistinct(was, o.id);
    hide Keep, Serves;
    forall i | 0 <= i < |kept| ensures Serves(kept[i], TURN_ENDED, ids) && kept[i].id != o.id {
      KeepIs(was, Other(o.id), kept[i]);
    }
    LastShaped(kept + [o], ids);
  }

  lemma TurnIsPosting()
    ensures forall e :: Posting(TURN_ENDED)(e) <==> IsTurn(e)
  {
  }

  lemma CapIs(es: seq<Entry>, p: Entry -> bool, limit: nat)
    ensures Cap(es, p, limit) == DropFirst(es, p, |Keep(es, p)| - limit)
  {
  }

  lemma CapTurns(stops: seq<Entry>, turns: seq<Owned>)
    requires Keep(stops, IsTurn) == Entries(turns)
    ensures Keep(Cap(stops, Posting(TURN_ENDED), MAX_TURN_ENDED), IsTurn) == Entries(Last(turns, MAX_TURN_ENDED))
  {
    hide Keep, Cap, DropFirst, Posting, IsTurn, Entries, Last;
    var p := Posting(TURN_ENDED);
    var drop := |turns| - MAX_TURN_ENDED;
    TurnIsPosting();
    KeepSame(stops, p, IsTurn);
    DropFirstOwn(stops, p, drop);
    LastEntries(turns, MAX_TURN_ENDED);
    KeepSame(DropFirst(stops, p, drop), p, IsTurn);
    CapIs(stops, p, MAX_TURN_ENDED);
  }

  lemma CapElsewhere(stops: seq<Entry>, q: Entry -> bool)
    requires forall e | e in stops && IsTurn(e) :: !q(e)
    ensures Keep(Cap(stops, Posting(TURN_ENDED), MAX_TURN_ENDED), q) == Keep(stops, q)
  {
    hide Keep, DropFirst, Posting, IsTurn;
    TurnIsPosting();
    DropFirstElsewhere(stops, Posting(TURN_ENDED), |Keep(stops, Posting(TURN_ENDED))| - MAX_TURN_ENDED, q);
  }

  lemma CapKinds(stops: seq<Entry>, turns: seq<Owned>)
    requires Clear(stops) && Kinds(stops).turns == Entries(turns)
    ensures Kinds(Cap(stops, Posting(TURN_ENDED), MAX_TURN_ENDED))
            == Kinds(stops).(turns := Entries(Last(turns, MAX_TURN_ENDED)))
  {
    assert forall e | e in stops && IsTurn(e) :: OneKind(e) && !ForeignStop(e);
    hide IsTurn, IsRun, IsFinalize, Keep, Cap, Posting, Entries, Last, ForeignStop;
    CapTurns(stops, turns);
    CapElsewhere(stops, ForeignStop);
    CapElsewhere(stops, IsRun);
    CapElsewhere(stops, IsFinalize);
  }

  lemma CapClear(stops: seq<Entry>)
    requires Clear(stops)
    ensures Clear(Cap(stops, Posting(TURN_ENDED), MAX_TURN_ENDED))
  {
    var p := Posting(TURN_ENDED);
    hide OneKind, Posting;
    forall e | e in Cap(stops, p, MAX_TURN_ENDED) ensures OneKind(e) {
      DropFirstFrom(stops, p, |Keep(stops, p)| - MAX_TURN_ENDED, e);
    }
  }

  // ---- the entries bossd writes serve their chats

  lemma StopEntryKind(session: string, agent: string, token: string, port: nat)
    requires Hex(session) && Hex(agent) && !Contains(token, HOOKS + TURN_ENDED)
    ensures !IsTurn(StopEntry(HookMatcher(agent), HookURL(session, agent), token, port))
  {
    ConstantsNoK();
    HexNoK(session);
    HexNoK(agent);
    var path := if agent == "" then FINALIZE + session else RUN_COMPLETE + agent;
    JoinNoK(FINALIZE, session);
    JoinNoK(RUN_COMPLETE, agent);
    Framed(STRICT, token, "");
    assert STRICT + Bearer(token) + "" == STRICT + Bearer(token);
    PostsThere(STRICT + BEARER, token, "\" " + "", port, path, "", HookMatcher(agent), TURN_ENDED);
    hide Posts, NoK, PostsTo;
    assert TURN_ENDED[0] != path[0];
    NotPosting(StopEntry(HookMatcher(agent), HookURL(session, agent), token, port), path, TURN_ENDED);
  }

  lemma NotPosting(e: Entry, path: string, other: string)
    requires PostsTo(e, other, path, "") && path != "" && other != "" && path[0] != other[0]
    ensures !Posting(other)(e)
  {
    assert (path + "")[0] == path[0];
  }

  lemma WrittenServes(a: string, token: string, c: string, port: nat, path: string, id: string, tail: string,
                      ids: iset<string>)
    requires Around(a, token, c) && Told(path) && !Contains(token, HOOKS + path)
    requires NoK(tail) && EndsID(tail) && Hex(id) && id in ids && PrefixFree(ids)
    ensures Serves(Owned(id, Posts(a + token + c, port, HOOKS + path + id, tail, "")), path, ids)
  {
    ConstantsNoK();
    HexNoK(id);
    JoinNoK(path, id);
    PostsThere(a, token, c, port, path + id, tail, "", path);
    assert HOOKS + path + id == HOOKS + (path + id);
    ServesOwn(Owned(id, Posts(a + token + c, port, HOOKS + path + id, tail, "")), path, tail, ids);
  }

  lemma QuestionServes(agent: string, token: string, port: nat, ids: iset<string>)
    requires Hex(agent) && agent in ids && PrefixFree(ids) && !Contains(token, HOOKS + QUESTION)
    ensures Serves(Owned(agent, NotificationEntry(HOOKS + QUESTION + agent, token, port)), QUESTION, ids)
  {
    ConstantsNoK();
    Framed(STRICT, token, JSON_BODY);
    hide NoK, Posts, Serves;
    WrittenServes(STRICT + BEARER, token, "\" " + JSON_BODY, port, QUESTION, agent, "", ids);
  }

  lemma PromptServes(agent: string, token: string, port: nat, ids: iset<string>)
    requires Hex(agent) && agent in ids && PrefixFree(ids) && !Contains(token, HOOKS + PROMPT_SUBMITTED)
    ensures Serves(Owned(agent, PromptEntry(HOOKS + PROMPT_SUBMITTED + agent, token, port)), PROMPT_SUBMITTED, ids)
  {
    ConstantsNoK();
    Framed(QUIET, token, JSON_BODY);
    hide NoK, Posts, Serves;
    if token == "" {
      WrittenServes(QUIET, token, JSON_BODY, port, PROMPT_SUBMITTED, agent, QUIETLY, ids);
    } else {
      WrittenServes(QUIET + BEARER, token, "\" " + JSON_BODY, port, PROMPT_SUBMITTED, agent, QUIETLY, ids);
    }
  }

  lemma TurnServes(agent: string, token: string, port: nat, ids: iset<string>)
    requires Hex(agent) && agent in ids && PrefixFree(ids) && !Contains(token, HOOKS + TURN_ENDED)
    ensures Serves(TurnOf(agent, token, port), TURN_ENDED, ids)
  {
    ConstantsNoK();
    Framed(QUIET, token, JSON_BODY);
    hide NoK, Posts, Serves;
    WrittenServes(QUIET + BEARER, token, "\" " + JSON_BODY, port, TURN_ENDED, agent, QUIETLY, ids);
  }

  // ---- every sequence of writes and removals

  lemma WriteStop(h: Hooks, foreign: Hooks, r: Registry, op: Op, ids: iset<string>)
    requires op.Write? && StopHolds(h.stop, foreign.stop, r, ids) && Plain(op, ids) && Free(op, TURN_ENDED)
    ensures StopHolds(Apply(h, op).stop, foreign.stop, Track(r, op), ids)
  {
    var entry := StopEntry(HookMatcher(op.agent), HookURL(op.session, op.agent), op.token, op.port);
    StopEntryKind(op.session, op.agent, op.token, op.port);
    assert HasMatcher(entry, HookMatcher(op.agent));
    hide IsTurn, StopEntry, StopHolds;
    if op.agent == "" {
      WriteFinalize(h.stop, foreign.stop, r, entry, ids);
      SameTurns(Upsert(h.stop, WithMatcher(FINALIZE_MATCHER), entry), foreign.stop, r.(finalize := Some(entry)),
          Track(r, op), ids);
    } else {
      var o := Owned(op.agent, entry);
      hide NotificationEntry;
      WriteRun(h.stop, foreign.stop, r, o, ids);
      SameTurns(Apply(h, op).stop, foreign.stop, r.(run := Some(o)), Track(r, op), ids);
    }
  }

  lemma WriteQuestion(h: Hooks, foreign: Hooks, r: Registry, op: Op, ids: iset<string>)
    requires op.Write? && OneHolds(h.notification, foreign.notification, QUESTION, r.question, ids)
    requires Plain(op, ids) && Free(op, QUESTION) && PrefixFree(ids)
    ensures OneHolds(Apply(h, op).notification, foreign.notification, QUESTION, Track(r, op).question, ids)
  {
    if op.agent != "" {
      QuestionServes(op.agent, op.token, op.port, ids);
      var q := Owned(op.agent, NotificationEntry(HOOKS + QUESTION + op.agent, op.token, op.port));
      hide OneHolds, Serves, NotificationEntry;
      UpsertAppends(h.notification, QUESTION, op.agent, q.entry);
      WriteOne(h.notification, foreign.notification, QUESTION, r.question, q, ids);
    }
  }

  /** The stop array depends on the registry's runs, finalize entry and turns alone. */
  lemma SameTurns(stop: seq<Entry>, foreign: seq<Entry>, r: Registry, t: Registry, ids: iset<string>)
    requires StopHolds(stop, foreign, r, ids) && t.run == r.run && t.finalize == r.finalize && t.turns == r.turns
    ensures StopHolds(stop, foreign, t, ids)
  {
  }

  lemma SubmitStop(h: Hooks, foreign: Hooks, r: Registry, op: Op, ids: iset<string>)
    requires op.Submit? && StopHolds(h.stop, foreign.stop, r, ids)
    requires Plain(op, ids) && Free(op, TURN_ENDED) && PrefixFree(ids)
    ensures StopHolds(Apply(h, op).stop, foreign.stop, Track(r, op), ids)
  {
    var o := TurnOf(op.agent, op.token, op.port);
    if op.token == "" {
      hide StopHolds;
      SameTurns(h.stop, foreign.stop, r, Track(r, op), ids);
    } else {
      TurnServes(op.agent, op.token, op.port, ids);
      assert !IsRun(o.entry) && !IsFinalize(o.entry);
      hide StopHolds, Serves, IsRun, IsFinalize, PromptEntry;
      SubmitTurn(h.stop, foreign.stop, r, o, ids);
      var turns := Last(Keep(r.turns, Other(op.agent)) + [o], MAX_TURN_ENDED);
      SameTurns(Apply(h, op).stop, foreign.stop, r.(turns := turns), Track(r, op), ids);
    }
  }

  lemma SubmitPrompt(h: Hooks, foreign: Hooks, r: Registry, op: Op, ids: iset<string>)
    requires op.Submit? && OneHolds(h.prompt, foreign.prompt, PROMPT_SUBMITTED, r.prompt, ids)
    requires Plain(op, ids) && Free(op, PROMPT_SUBMITTED) && PrefixFree(ids)
    ensures OneHolds(Apply(h, op).prompt, foreign.prompt, PROMPT_SUBMITTED, Track(r, op).prompt, ids)
  {
    PromptServes(op.agent, op.token, op.port, ids);
    var p := Owned(op.agent, PromptEntry(HOOKS + PROMPT_SUBMITTED + op.agent, op.token, op.port));
    hide OneHolds, Serves, PromptEntry;
    WriteOne(h.prompt, foreign.prompt, PROMPT_SUBMITTED, r.prompt, p, ids);
  }

  lemma RemoveStop(h: Hooks, foreign: Hooks, r: Registry, op: Op, ids: iset<string>)
    requires op.Remove? && StopHolds(h.stop, foreign.stop, r, ids)
    ensures StopHolds(Apply(h, op).stop, foreign.stop, Track(r, op), ids)
  {
    hide StopHolds;
    RemoveRun(h.stop, foreign.stop, r, op.agent, ids);
    SameTurns(Apply(h, op).stop, foreign.stop, r.(run := Unless(r.run, op.agent)), Track(r, op), ids);
  }

  /** One call keeps the stop array right. */
  lemma StepStop(h: Hooks, foreign: Hooks, r: Registry, op: Op, ids: iset<string>)
    requires PrefixFree(ids) && StopHolds(h.stop, foreign.stop, r, ids) && Plain(op, ids) && Free(op, TURN_ENDED)
    ensures StopHolds(Apply(h, op).stop, foreign.stop, Track(r, op), ids)
  {
    hide StopHolds, Plain, Free, Apply, Track;
    match op
    case Write(_, _, _, _) => WriteStop(h, foreign, r, op, ids);
    case Submit(_, _, _) => SubmitStop(h, foreign, r, op, ids);
    case Remove(_) => RemoveStop(h, foreign, r, op, ids);
  }

  /** And the two arrays with one entry. */
  lemma StepOnes(h: Hooks, foreign: Hooks, r: Registry, op: Op, ids: iset<string>)
    requires PrefixFree(ids) && Plain(op, ids) && Free(op, QUESTION) && Free(op, PROMPT_SUBMITTED)
    requires OneHolds(h.notification, foreign.notification, QUESTION, r.question, ids)
    requires OneHolds(h.prompt, foreign.prompt, PROMPT_SUBMITTED, r.prompt, ids)
    ensures OneHolds(Apply(h, op).notification, foreign.notification, QUESTION, Track(r, op).question, ids)
    ensures OneHolds(Apply(h, op).prompt, foreign.prompt, PROMPT_SUBMITTED, Track(r, op).prompt, ids)
  {
    hide OneHolds, Free, Upsert, Keep;
    match op
    case Write(_, _, _, _) => WriteQuestion(h, foreign, r, op, ids);
    case Submit(_, _, _) => SubmitPrompt(h, foreign, r, op, ids);
    case Remove(_) =>
      RemoveOne(h.notification, foreign.notification, QUESTION, r.question, op.agent, ids);
      RemoveOne(h.prompt, foreign.prompt, PROMPT_SUBMITTED, r.prompt, op.agent, ids);
  }

  function ApplyAll(h: Hooks, ops: seq<Op>): Hooks {
    if ops == [] then h else Apply(ApplyAll(h, ops[..|ops| - 1]), ops[|ops| - 1])
  }

  function TrackAll(ops: seq<Op>): Registry {
    if ops == [] then NOTHING else Track(TrackAll(ops[..|ops| - 1]), ops[|ops| - 1])
  }

  /** Nothing in the arrays is, or looks like, an entry of bossd's. */
  ghost predicate ForeignOnly(h: Hooks) {
    && (forall i | 0 <= i < |h.stop| :: ForeignStop(h.stop[i]))
    && (forall i | 0 <= i < |h.notification| :: !IsQuestion(h.notification[i]))
    && (forall i | 0 <= i < |h.prompt| :: !IsPrompt(h.prompt[i]))
  }

  lemma ForeignStops(stop: seq<Entry>, ids: iset<string>)
    requires forall i | 0 <= i < |stop| :: ForeignStop(stop[i])
    ensures StopHolds(stop, stop, NOTHING, ids)
  {
    hide IsTurn, IsRun, IsFinalize, Keep;
    forall i | 0 <= i < |stop| ensures !IsRun(stop[i]) && !IsFinalize(stop[i]) && !IsTurn(stop[i]) && OneKind(stop[i]) {
      assert ForeignStop(stop[i]);
    }
    KeepEvery(stop, ForeignStop);
    KeepEvery(stop, IsRun);
    KeepEvery(stop, IsFinalize);
    KeepEvery(stop, IsTurn);
    hide OneKind, ForeignStop;
  }

  lemma ForeignOne(es: seq<Entry>, path: string, ids: iset<string>)
    requires forall i | 0 <= i < |es| :: !Posting(path)(es[i])
    ensures OneHolds(es, es, path, None, ids)
  {
    hide Posting, Keep;
    KeepEvery(es, Posting(path));
    KeepEvery(es, Not(Posting(path)));
  }

  lemma ForeignOnes(h: Hooks, ids: iset<string>)
    requires ForeignOnly(h)
    ensures OneHolds(h.notification, h.notification, QUESTION, None, ids)
    ensures OneHolds(h.prompt, h.prompt, PROMPT_SUBMITTED, None, ids)
  {
    hide OneHolds, Posting, ForeignStop;
    forall i | 0 <= i < |h.notification| ensures !Posting(QUESTION)(h.notification[i]) {
      assert !IsQuestion(h.notification[i]);
    }
    ForeignOne(h.notification, QUESTION, ids);
    forall i | 0 <= i < |h.prompt| ensures !Posting(PROMPT_SUBMITTED)(h.prompt[i]) {
      assert !IsPrompt(h.prompt[i]);
    }
    ForeignOne(h.prompt, PROMPT_SUBMITTED, ids);
  }

  /** The stop array is right after any sequence of calls whose tokens hold no
      turn-ended URL. */
  lemma {:induction false} StopHold(h: Hooks, ops: seq<Op>, ids: iset<string>)
    requires PrefixFree(ids) && ForeignOnly(h) && AllPlain(ops, ids) && AllFree(ops, TURN_ENDED)
    ensures StopHolds(ApplyAll(h, ops).stop, h.stop, TrackAll(ops), ids)
  {
    hide StopHolds, Plain, Free, Apply, Track;
    if ops == [] {
      ForeignStops(h.stop, ids);
    } else {
      hide ForeignOnly;
      var op := ops[|ops| - 1];
      var before := ops[..|ops| - 1];
      StopHold(h, before, ids);
      StepStop(ApplyAll(h, before), h, TrackAll(before), op, ids);
    }
  }

  /** After any sequence of writes and removals, for chats of whose ids none is a
      prefix of another and with tokens that hold none of the URLs bossd looks for,
      on settings that held nothing of bossd's: what others put there stands in its
      order, and bossd's own entries are exactly the registry's, at most one of each
      kind and one for each of at most eight chats. */
  lemma {:induction false} HooksHold(h: Hooks, ops: seq<Op>, ids: iset<string>)
    requires PrefixFree(ids) && ForeignOnly(h) && AllPlain(ops, ids)
    requires AllFree(ops, TURN_ENDED) && AllFree(ops, QUESTION) && AllFree(ops, PROMPT_SUBMITTED)
    ensures Holds(ApplyAll(h, ops), h, TrackAll(ops), ids)
  {
    StopHold(h, ops, ids);
    hide StopHolds, OneHolds, Plain, Free, Apply, Track;
    if ops == [] {
      ForeignOnes(h, ids);
    } else {
      hide ForeignOnly;
      var op := ops[|ops| - 1];
      var before := ops[..|ops| - 1];
      HooksHold(h, before, ids);
      StepOnes(ApplyAll(h, before), h, TrackAll(before), op, ids);
    }
  }

  // ---- and only with such ids and tokens

  lemma TurnPosts(own: string, token: string, port: nat, id: string)
    requires Hex(own) && Hex(id) && !Contains(token, HOOKS + TURN_ENDED)
    ensures Posting(TURN_ENDED + id)(TurnOf(own, token, port).entry) <==> id <= own
    ensures IsTurn(TurnOf(own, token, port).entry)
  {
    ConstantsNoK();
    HexNoK(own);
    Framed(QUIET, token, JSON_BODY);
    hide NoK, Posts, PostsTo;
    JoinNoK(TURN_ENDED, own);
    assert HOOKS + TURN_ENDED + own == HOOKS + (TURN_ENDED + own);
    PostsThere(QUIET + BEARER, token, "\" " + JSON_BODY, port, TURN_ENDED + own, QUIETLY, "", TURN_ENDED);
    var e := TurnOf(own, token, port).entry;
    PostsToPrefixes(e, TURN_ENDED, own, QUIETLY, id);
    PostsToPrefixes(e, TURN_ENDED, own, QUIETLY, "");
    assert TURN_ENDED + "" == TURN_ENDED;
  }

  /** An entry holds every URL that its token holds. */
  lemma TokenPosts(head: string, token: string, body: string, port: nat, url: string, tail: string, matcher: string,
                   path: string)
    requires Contains(token, HOOKS + path)
    ensures Posting(path)(Posts(head + Bearer(token) + body, port, url, tail, matcher))
  {
    var e := Posts(head + Bearer(token) + body, port, url, tail, matcher);
    var after := "\" " + body + Host(port) + url + tail;
    ContainsWithin(head + BEARER, token, after, HOOKS + path);
    assert e.commands[0] == head + BEARER + token + after;
    hide Contains;
    assert Contains(e.commands[0], HOOKS + path);
  }

  const NO_HOOKS := Hooks([], [], [])

  function TwoSubmits(first: string, second: string, one: string, two: string, port: nat): seq<Op> {
    [Submit(first, port, one), Submit(second, port, two)]
  }

  lemma FirstTurn(id: string, token: string, port: nat)
    requires token != ""
    ensures ApplyAll(NO_HOOKS, [Submit(id, port, token)]).stop == [TurnOf(id, token, port).entry]
    ensures TrackAll([Submit(id, port, token)]).turns == [TurnOf(id, token, port)]
  {
    var op := Submit(id, port, token);
    var e := TurnOf(id, token, port).entry;
    assert [op][..0] == [];
    assert Keep([], Not(Posting(TURN_ENDED + id))) + [e] == [e];
    KeepOne(e, Posting(TURN_ENDED));
    hide Posting, TurnEndedEntry, PromptEntry;
    assert [] + [TurnOf(id, token, port)] == [TurnOf(id, token, port)];
  }

  /** A second submit deletes the first one's entry if that matches its URL. */
  lemma SecondDeletes(first: string, second: string, one: string, two: string, port: nat)
    requires one != "" && two != "" && first != second
    requires Posting(TURN_ENDED + second)(TurnOf(first, one, port).entry) && IsTurn(TurnOf(second, two, port).entry)
    ensures (var ops := TwoSubmits(first, second, one, two, port);
             && Keep(ApplyAll(NO_HOOKS, ops).stop, IsTurn) == [TurnOf(second, two, port).entry]
             && TrackAll(ops).turns == [TurnOf(first, one, port), TurnOf(second, two, port)])
  {
    var ops := TwoSubmits(first, second, one, two, port);
    var e, lost := TurnOf(second, two, port), TurnOf(first, one, port);
    FirstTurn(first, one, port);
    assert ops[..1] == [ops[0]];
    hide TurnEndedEntry, PromptEntry, Posting;
    KeepOne(lost.entry, Not(Posting(TURN_ENDED + second)));
    KeepOne(e.entry, Posting(TURN_ENDED));
    KeepOne(e.entry, IsTurn);
    KeepOne(lost, Other(second));
    assert [] + [e.entry] == [e.entry] && [lost] + [e] == [lost, e];
  }

  /** The run that goes wrong: a chat's turn-ended entry is written, and then that of
      a chat whose id is a prefix of the first one's, which deletes it. */
  lemma PrefixIDsCollide(longer: string, id: string, token: string, port: nat)
    requires Hex(longer) && token != "" && !Contains(token, HOOKS + TURN_ENDED) && id <= longer && id != longer
    ensures (var ops := TwoSubmits(longer, id, token, token, port);
             && Keep(ApplyAll(NO_HOOKS, ops).stop, IsTurn) == [TurnOf(id, token, port).entry]
             && TrackAll(ops).turns == [TurnOf(longer, token, port), TurnOf(id, token, port)])
  {
    assert Hex(id) by {
      assert forall i | 0 <= i < |id| :: id[i] == longer[i];
    }
    TurnPosts(longer, token, port, id);
    TurnPosts(id, token, port, id);
    SecondDeletes(longer, id, token, token, port);
  }

  /** Another: one chat's token holds another chat's URL, though neither chat's id
      need be a prefix of the other's. */
  lemma TokenCollides(own: string, id: string, token: string, other: string, port: nat)
    requires own != id && Hex(id) && token != "" && other != ""
    requires Contains(token, HOOKS + (TURN_ENDED + id)) && !Contains(other, HOOKS + TURN_ENDED)
    ensures (var ops := TwoSubmits(own, id, token, other, port);
             && Keep(ApplyAll(NO_HOOKS, ops).stop, IsTurn) == [TurnOf(id, other, port).entry]
             && TrackAll(ops).turns == [TurnOf(own, token, port), TurnOf(id, other, port)])
  {
    TokenPosts(QUIET, token, JSON_BODY, port, HOOKS + TURN_ENDED + own, QUIETLY, "", TURN_ENDED + id);
    TurnPosts(id, other, port, id);
    SecondDeletes(own, id, token, other, port);
  }

  /** Such a token may well be safe in the shell command. */
  lemma SafeTokenHoldsURL()
    ensures TokenSafe("/hooks/turn-ended/a") && Contains("/hooks/turn-ended/a", HOOKS + (TURN_ENDED + "a"))
  {
    var token := "/hooks/turn-ended/a";
    assert token == HOOKS + (TURN_ENDED + "a");
    assert At(token, HOOKS + (TURN_ENDED + "a"), 0);
  }

  /** And a third, with one call: a run's own stop entry reads as a turn-ended one if
      its token holds their URL. */
  lemma WrittenReadsAsTurn(session: string, token: string, port: nat)
    requires Contains(token, HOOKS + TURN_ENDED)
    ensures (var ops := [Write(session, "", token, port)];
             |Keep(ApplyAll(NO_HOOKS, ops).stop, IsTurn)| == 1 && TrackAll(ops).turns == [])
  {
    var op := Write(session, "", token, port);
    var e := StopEntry(FINALIZE_MATCHER, HookURL(session, ""), token, port);
    TokenPosts(STRICT, token, "", port, HookURL(session, ""), "", FINALIZE_MATCHER, TURN_ENDED);
    assert STRICT + Bearer(token) + "" == STRICT + Bearer(token);
    assert [op][..0] == [];
    KeepOne(e, IsTurn);
    hide StopEntry, IsTurn;
    assert [] + [e] == [e];
  }

  /** Calls with these chats and tokens that are not refused. */
  ghost predicate AllFrom(ops: seq<Op>, ids: iset<string>, tokens: iset<string>) {
    AllPlain(ops, ids) && forall i | 0 <= i < |ops| :: ops[i].Remove? || ops[i].token == "" || ops[i].token in tokens
  }

  ghost predicate TurnsRight(h: Hooks, ops: seq<Op>) {
    Keep(ApplyAll(h, ops).stop, IsTurn) == Entries(TrackAll(ops).turns)
  }

  /** The condition on ids and tokens is exact: no id is a prefix of another and no
      token holds a turn-ended URL if and only if, with these ids and tokens, every
      sequence of writes and removals leaves in the stop array the turn-ended entries
      that the chats' last writes call for. There is at least one token a chat's
      receipts may carry. */
  lemma TurnsExactly(ids: iset<string>, tokens: iset<string>, receipt: string)
    requires (forall id | id in ids :: Hex(id) && id != "") && "" !in tokens
    requires receipt in tokens && TokenSafe(receipt)
    ensures PrefixFree(ids) && (forall t | t in tokens :: !Contains(t, HOOKS + TURN_ENDED))
       <==> forall h, ops | ForeignOnly(h) && AllFrom(ops, ids, tokens) :: TurnsRight(h, ops)
  {
    Foreignless();
    hide TurnsRight, ForeignOnly;
    if t :| t in tokens && Contains(t, HOOKS + TURN_ENDED) {
      hide Contains;
      SomeTokenFails(t, ids, tokens);
    } else if PrefixFree(ids) {
      forall h, ops | ForeignOnly(h) && AllFrom(ops, ids, tokens) ensures TurnsRight(h, ops) {
        NoTurnURL(ops, ids, tokens);
        TurnsHeld(h, ops, ids);
      }
    } else {
      SomeIDsFail(receipt, ids, tokens);
    }
  }

  lemma NoTurnURL(ops: seq<Op>, ids: iset<string>, tokens: iset<string>)
    requires AllFrom(ops, ids, tokens) && forall t | t in tokens :: !Contains(t, HOOKS + TURN_ENDED)
    ensures AllFree(ops, TURN_ENDED)
  {
  }

  lemma TurnsHeld(h: Hooks, ops: seq<Op>, ids: iset<string>)
    requires PrefixFree(ids) && ForeignOnly(h) && AllPlain(ops, ids) && AllFree(ops, TURN_ENDED)
    ensures TurnsRight(h, ops)
  {
    StopHold(h, ops, ids);
  }

  lemma SomeTokenFails(token: string, ids: iset<string>, tokens: iset<string>)
    requires token in tokens && token != "" && Contains(token, HOOKS + TURN_ENDED)
    ensures exists ops :: AllFrom(ops, ids, tokens) && !TurnsRight(NO_HOOKS, ops)
  {
    var ops := [Write("a", "", token, 1)];
    WrittenReadsAsTurn("a", token, 1);
    assert AllFrom(ops, ids, tokens) && !TurnsRight(NO_HOOKS, ops);
  }

  lemma SubmitsFrom(first: string, second: string, token: string, ids: iset<string>, tokens: iset<string>)
    requires first in ids && second in ids && Hex(first) && Hex(second) && first != "" && second != ""
    requires token in tokens && TokenSafe(token)
    ensures AllFrom(TwoSubmits(first, second, token, token, 1), ids, tokens)
  {
    hide Hex, TokenSafe;
  }

  lemma SomeIDsFail(token: string, ids: iset<string>, tokens: iset<string>)
    requires (forall id | id in ids :: Hex(id) && id != "") && !PrefixFree(ids)
    requires token in tokens && token != "" && TokenSafe(token) && !Contains(token, HOOKS + TURN_ENDED)
    ensures exists ops :: AllFrom(ops, ids, tokens) && !TurnsRight(NO_HOOKS, ops)
  {
    var id, longer :| id in ids && longer in ids && id <= longer && id != longer;
    SubmitsFrom(longer, id, token, ids, tokens);
    hide Contains, TokenSafe, AllFrom, PrefixFree;
    PrefixIDsCollide(longer, id, token, 1);
    hide Keep, ApplyAll, TrackAll, IsTurn, Hex, Entries;
    assert |Entries(TrackAll(TwoSubmits(longer, id, token, token, 1)).turns)| == 2;
  }

  lemma Foreignless()
    ensures ForeignOnly(NO_HOOKS)
  {
  }

  // ---- which chats keep an entry

  /** Every chat whose turn-ended entry was ever written, by its last write. */
  function History(ops: seq<Op>): seq<Owned> {
    if ops == [] then []
    else
      var op := ops[|ops| - 1];
      var before := History(ops[..|ops| - 1]);
      if op.Submit? && op.token != "" then Keep(before, Other(op.agent)) + [TurnOf(op.agent, op.token, op.port)]
          else before
  }

  lemma {:induction false} KeepAllButOne(os: seq<Owned>, id: string)
    requires forall i, j | 0 <= i < j < |os| :: os[i].id != os[j].id
    ensures |Keep(os, Other(id))| >= |os| - 1
    ensures (forall i | 0 <= i < |os| :: os[i].id != id) ==> Keep(os, Other(id)) == os
  {
    if os != [] {
      KeepAllButOne(os[..|os| - 1], id);
    }
  }

  lemma LastJoin(a: seq<Owned>, b: seq<Owned>, k: nat)
    requires |b| >= k
    ensures Last(a + b, k) == Last(b, k)
  {
    assert (a + b)[|a| + |b| - k..] == b[|b| - k..];
  }

  lemma LastAll(hist: seq<Owned>, k: nat)
    requires |hist| <= k
    ensures Last(hist, k) == hist
  {
  }

  lemma SplitLast(hist: seq<Owned>, k: nat) returns (a: seq<Owned>, t: seq<Owned>)
    requires |hist| > k && forall i, j | 0 <= i < j < |hist| :: hist[i].id != hist[j].id
    ensures hist == a + t && |t| == k && Last(hist, k) == t
    ensures forall i, j | 0 <= i < j < |t| :: t[i].id != t[j].id
  {
    var d := |hist| - k;
    a, t := hist[..d], hist[d..];
    forall i, j | 0 <= i < j < |t| ensures t[i].id != t[j].id {
      assert t[i] == hist[d + i] && t[j] == hist[d + j];
    }
  }

  lemma LastKept(hist: seq<Owned>, o: Owned)
    requires forall i, j | 0 <= i < j < |hist| :: hist[i].id != hist[j].id
    ensures Last(Keep(Last(hist, MAX_TURN_ENDED), Other(o.id)) + [o], MAX_TURN_ENDED)
            == Last(Keep(hist, Other(o.id)) + [o], MAX_TURN_ENDED)
  {
    hide Keep, Last;
    if |hist| > MAX_TURN_ENDED {
      var a, t := SplitLast(hist, MAX_TURN_ENDED);
      KeepJoin(a, t, Other(o.id));
      KeepAllButOne(t, o.id);
      var front, kept := Keep(a, Other(o.id)), Keep(t, Other(o.id));
      LastJoin(front, kept + [o], MAX_TURN_ENDED);
      assert front + kept + [o] == front + (kept + [o]);
    } else {
      LastAll(hist, MAX_TURN_ENDED);
    }
  }

  lemma {:induction false} HistoryDistinct(ops: seq<Op>)
    ensures forall i, j | 0 <= i < j < |History(ops)| :: History(ops)[i].id != History(ops)[j].id
  {
    if ops != [] {
      var before := ops[..|ops| - 1];
      var op := ops[|ops| - 1];
      HistoryDistinct(before);
      if op.Submit? && op.token != "" {
        var kept := Keep(History(before), Other(op.agent));
        KeepDistinct(History(before), op.agent);
        forall i | 0 <= i < |kept| ensures kept[i].id != op.agent {
          KeepIs(History(before), Other(op.agent), kept[i]);
        }
      }
    }
  }

  /** The turn-ended entries are those of the last eight chats written, in the order
      of their last writes. */
  lemma {:induction false} TurnsAreLatest(ops: seq<Op>)
    ensures TrackAll(ops).turns == Last(History(ops), 8)
  {
    if ops != [] {
      var before := ops[..|ops| - 1];
      var op := ops[|ops| - 1];
      TurnsAreLatest(before);
      HistoryDistinct(before);
      if op.Submit? && op.token != "" {
        LastKept(History(before), TurnOf(op.agent, op.token, op.port));
      }
    }
  }
}
