/** Which rollout a chat is bound to when all that is known is when it started. */
module RolloutResolver {
  import opened Wrappers
  import opened Calendar
  import opened Newest
  import opened RolloutScan
  import Members = RolloutMembers

  datatype Resolution = NoMatch | Ambiguous | Bound(id: string, path: string)

  const LAUNCH_SLACK := 2 * SECOND
  const LEGACY_BEFORE := 5 * MINUTE
  const LEGACY_AFTER := 2 * MINUTE

  function LaunchWindow(launchedAfter: Time): Window {
    Window(launchedAfter - LAUNCH_SLACK, ZERO_TIME)
  }

  function LegacyWindow(createdAt: Time, now: Time): Window {
    Window(createdAt - LEGACY_BEFORE, if now > createdAt + LEGACY_AFTER then createdAt + LEGACY_AFTER else now)
  }

  /** What a resolution says of the candidates it was made from. */
  ghost predicate Resolves(r: Resolution, cs: seq<Candidate>) {
    match r
    case NoMatch => cs == []
    case Ambiguous => exists c, d :: c in cs && d in cs && c.id != d.id
    case Bound(id, path) => (exists c :: IsNewest(c, cs) && c.path == path) && forall c | c in cs :: c.id == id
  }

  /** The candidates leave no choice. */
  lemma ResolutionUnique(r: Resolution, s: Resolution, cs: seq<Candidate>)
    requires Resolves(r, cs) && Resolves(s, cs)
    ensures r == s
  {
    if r.Bound? && s.Bound? {
      var c :| IsNewest(c, cs) && c.path == r.path;
      var d :| IsNewest(d, cs) && d.path == s.path;
      NewestUnique(c, d, cs);
    }
  }

  method ResolveInteractiveSessionIDAt(root: Node, launchedAfter: Time) returns (r: Resolution)
    ensures Resolves(r, Scan(root, [], LaunchWindow(launchedAfter), true))
  {
    hide Scan;
    var found := WalkDir(root, [], LaunchWindow(launchedAfter));
    var candidates := SortNewestFirst(found);
    if |candidates| == 0 {
      assert |found| == |multiset(found)| == |multiset(candidates)|;
      return NoMatch;
    }
    assert candidates[0] in multiset(found);
    SortedHead(candidates, found);
    var newest := candidates[0];
    for i := 1 to |candidates|
      invariant forall j | 0 <= j < i :: candidates[j].id == newest.id
    {
      if candidates[i].id != newest.id {
        assert candidates[i] in multiset(found);
        return Ambiguous;
      }
    }
    forall c | c in found ensures c.id == newest.id {
      assert c in multiset(candidates);
    }
    return Bound(newest.id, newest.path);
  }

  /** The legacy window is narrow, so two candidates of even one session are too many. */
  method ResolveLegacyInteractiveSessionIDAt(root: Node, createdAt: Option<Time>, now: Time) returns (r: Resolution)
    ensures createdAt.None? ==> r == NoMatch
    ensures createdAt.Some? ==>
              (var cs := Scan(root, [], LegacyWindow(createdAt.value, now), true);
               r == if |cs| == 0 then NoMatch else if |cs| > 1 then Ambiguous else Bound(cs[0].id, cs[0].path))
  {
    if createdAt.None? {
      return NoMatch;
    }
    var candidates := WalkDir(root, [], LegacyWindow(createdAt.value, now));
    if |candidates| == 0 {
      return NoMatch;
    }
    if |candidates| > 1 {
      return Ambiguous;
    }
    return Bound(candidates[0].id, candidates[0].path);
  }

  /** With every file fitting, skipping shards and files changes neither resolution. */
  lemma PrunedResolvesPlain(root: Node, launchedAfter: Time, createdAt: Time, now: Time, r: Resolution)
    requires AllFit(root, [])
    ensures Resolves(r, Scan(root, [], LaunchWindow(launchedAfter), true))
       <==> Resolves(r, Scan(root, [], LaunchWindow(launchedAfter), false))
    ensures Scan(root, [], LegacyWindow(createdAt, now), true) == Scan(root, [], LegacyWindow(createdAt, now), false)
  {
    PrunedIsPlain(root);
    hide Scan, AllFit;
  }

  /** A launch is resolved among the files that started two seconds before it or later. */
  lemma LaunchSees(root: Node, launchedAfter: Time) returns (ps: seq<Members.Place>)
    ensures (var w := Window(launchedAfter - 2 * SECOND, ZERO_TIME);
             Members.Lists(root, [], w, true, 0, Scan(root, [], LaunchWindow(launchedAfter), true), ps))
  {
    ps := Members.ScanReturns(root, LaunchWindow(launchedAfter), true);
  }

  /** An old chat among those that started from five minutes before it was created to
      two minutes after, or to now if that is sooner. */
  lemma LegacySees(root: Node, createdAt: Time, now: Time) returns (ps: seq<Members.Place>)
    ensures (var w := Window(createdAt - 5 * MINUTE,
            if now < createdAt + 2 * MINUTE then now else createdAt + 2 * MINUTE);
             Members.Lists(root, [], w, true, 0, Scan(root, [], LegacyWindow(createdAt, now), true), ps))
  {
    ps := Members.ScanReturns(root, LegacyWindow(createdAt, now), true);
  }
}
