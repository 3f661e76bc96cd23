/** Binding a chat to the rollout its own process tree holds open. */
module Processes {
  import opened Wrappers
  import opened Calendar
  import opened Graph
  import opened Newest
  import opened Text

  // ---- the process tree

  /** One line of the process table. */
  datatype Row = Row(pid: int, ppid: int)

  function Edges(rows: seq<Row>): (int, int) -> bool {
    (a, b) => Row(b, a) in rows
  }

  function ChildrenOf(children: map<int, seq<int>>, pid: int): seq<int> {
    if pid in children then children[pid] else []
  }

  method ChildMap(rows: seq<Row>) returns (children: map<int, seq<int>>)
    ensures forall a, b :: b in ChildrenOf(children, a) <==> Edges(rows)(a, b)
  {
    children := map[];
    for i := 0 to |rows|
      invariant forall a, b :: b in ChildrenOf(children, a) <==> Edges(rows[..i])(a, b)
    {
      var r := rows[i];
      ghost var before := children;
      children := children[r.ppid := ChildrenOf(children, r.ppid) + [r.pid]];
      forall a, b ensures b in ChildrenOf(children, a) <==> Edges(rows[..i + 1])(a, b) {
        assert b in ChildrenOf(children, a) <==> b in ChildrenOf(before, a) || Row(b, a) == r;
        assert Row(b, a) in rows[..i + 1] <==> Row(b, a) in rows[..i] || Row(b, a) == r;
      }
    }
    assert rows[..|rows|] == rows;
  }

  predicate Distinct<T(==)>(s: seq<T>) {
    forall i, j | 0 <= i < j < |s| :: s[i] != s[j]
  }

  /** The process and its descendants, each exactly once, cyclic tables included. */
  method DescendantPIDs(rows: seq<Row>, pid: int) returns (result: seq<int>)
    ensures pid <= 0 ==> result == []
    ensures pid > 0 ==> result != [] && result[0] == pid && Distinct(result)
    ensures pid > 0 ==> forall q :: q in result <==> Reachable(Edges(rows), pid, q)
  {
    if pid <= 0 {
      return [];
    }
    var children := ChildMap(rows);
    ghost var edge := Edges(rows);
    ghost var all := {pid} + set r | r in rows :: r.pid;
    ReachesSelf(edge, pid);
    var visited: set<int> := {};
    result := [];
    var queue := [pid];
    while |queue| > 0
      invariant pid in visited || (queue == [pid] && result == [])
      invariant result != [] ==> result[0] == pid
      invariant Distinct(result) && forall q :: q in visited <==> q in result
      invariant forall q | q in queue || q in visited :: Reachable(edge, pid, q) && q in all
      invariant forall a, b | a in visited && edge(a, b) :: b in visited || b in queue
      invariant visited <= all
      decreases all - visited, |queue|
    {
      var cur := queue[0];
      ghost var before := queue;
      queue := queue[1..];
      assert before == [cur] + queue;
      if cur !in visited {
        visited := visited + {cur};
        result := result + [cur];
        var next := ChildrenOf(children, cur);
        forall q | q in next ensures Reachable(edge, pid, q) && q in all {
          assert Row(q, cur) in rows;
          ReachesOn(edge, pid, cur, q);
        }
        queue := queue + next;
      }
    }
    forall q | Reachable(edge, pid, q) ensures q in result {
      ClosedReaches(edge, visited, pid, q);
    }
  }

  // ---- the rollouts it holds open

  /** What can be read of an open file: whether it lies under the sessions root, the
      id in its name, its last write and its first record. */
  datatype OpenFile = OpenFile(underRoot: bool, nameID: Option<string>, mtime: Time, meta: Option<Meta>)

  datatype Meta = Meta(id: string, subagent: bool, interactive: bool, cwdMatch: bool, timestamp: Option<Time>)

  /** A readable root-thread rollout of an interactive session, recorded for this
      directory unless any will do, that has an id on record or in its name. */
  predicate MayBind(f: OpenFile, anyDir: bool) {
    && f.underRoot && f.nameID.Some? && f.meta.Some?
    && f.meta.value.interactive && !f.meta.value.subagent
    && (f.meta.value.cwdMatch || anyDir)
    && (f.meta.value.id == "" ==> f.nameID != Some(""))
  }

  function RecordedID(f: OpenFile): string
    requires f.nameID.Some? && f.meta.Some?
  {
    if f.meta.value.id == "" then f.nameID.value else f.meta.value.id
  }

  function StartedAt(f: OpenFile): Time
    requires f.meta.Some?
  {
    if f.meta.value.timestamp.None? then f.mtime else f.meta.value.timestamp.value
  }

  /** The candidate a file makes, when it may bind. */
  function RolloutCandidate(path: string, f: OpenFile, anyDir: bool): (c: Option<Candidate>)
    ensures c.Some? <==> MayBind(f, anyDir)
    ensures c.Some? ==> c.value == Candidate(RecordedID(f), path, StartedAt(f))
  {
    if !f.underRoot || f.nameID.None? || f.meta.None? then None
    else
      var m := f.meta.value;
      var id := if m.id != "" then m.id else f.nameID.value;
      if m.subagent || !m.interactive || id == "" || (!anyDir && !m.cwdMatch) then None
      else Some(Candidate(id, path, if m.timestamp.Some? then m.timestamp.value else f.mtime))
  }

  datatype Outcome = TreeNotVisible | ProbeFailed | NoRolloutOpen | Bound(id: string, path: string)

  /** What a probe of every process answers (None when it failed), and what each file holds. */
  datatype Inspector = Inspector(rows: Option<seq<Row>>, openFiles: int -> Option<seq<string>>,
                                 files: string -> OpenFile)

  /** A file some process of the tree was seen to hold open. */
  ghost predicate Open(insp: Inspector, pids: seq<int>, path: string) {
    exists pid :: pid in pids && HeldBy(insp, pid, path)
  }

  predicate HeldBy(insp: Inspector, pid: int, path: string) {
    insp.openFiles(pid).Some? && path in insp.openFiles(pid).value
  }

  predicate Eligible(insp: Inspector, path: string, anyDir: bool) {
    MayBind(insp.files(path), anyDir)
  }

  /** The candidates gathered are those of the eligible open files, each once. */
  ghost predicate Gathered(insp: Inspector, seen: set<string>, anyDir: bool, cs: seq<Candidate>) {
    && (forall c | c in cs :: c.path in seen && RolloutCandidate(c.path, insp.files(c.path), anyDir) == Some(c))
    && (forall f | f in seen && Eligible(insp, f, anyDir) :: RolloutCandidate(f, insp.files(f), anyDir).value in cs)
    && (forall i, j | 0 <= i < j < |cs| :: cs[i].path != cs[j].path)
  }

  method GatherFiles(insp: Inspector, files: seq<string>, anyDir: bool, seen0: set<string>, cs0: seq<Candidate>)
    returns (seen: set<string>, cs: seq<Candidate>)
    requires Gathered(insp, seen0, anyDir, cs0)
    ensures Gathered(insp, seen, anyDir, cs)
    ensures forall f :: f in seen <==> f in seen0 || f in files
  {
    seen, cs := seen0, cs0;
    for i := 0 to |files|
      invariant Gathered(insp, seen, anyDir, cs)
      invariant forall f :: f in seen <==> f in seen0 || f in files[..i]
    {
      var f := files[i];
      assert files[..i + 1] == files[..i] + [f];
      if f !in seen {
        seen := seen + {f};
        var c := RolloutCandidate(f, insp.files(f), anyDir);
        if c.Some? {
          cs := cs + [c.value];
        }
      }
    }
    assert files[..|files|] == files;
  }

  /** What the resolution says: bound to the newest eligible rollout held open in the
      tree; and "nothing open" only when every process of the tree was seen. */
  ghost predicate Resolves(o: Outcome, insp: Inspector, pids: seq<int>, anyDir: bool) {
    match o
    case TreeNotVisible => pids == []
    case ProbeFailed =>
      && (exists pid :: pid in pids && insp.openFiles(pid).None?)
      && (forall f | Open(insp, pids, f) :: !Eligible(insp, f, anyDir))
    case NoRolloutOpen =>
      && pids != [] && (forall pid | pid in pids :: insp.openFiles(pid).Some?)
      && (forall f | Open(insp, pids, f) :: !Eligible(insp, f, anyDir))
    case Bound(id, path) =>
      && Open(insp, pids, path) && Eligible(insp, path, anyDir) && id == RecordedID(insp.files(path))
      && forall f | Open(insp, pids, f) && Eligible(insp, f, anyDir) && f != path :: StartedBefore(insp, f, path)
  }

  /** Earlier, or at the same time and under a path that comes before it. */
  ghost predicate StartedBefore(insp: Inspector, f: string, path: string)
    requires insp.files(f).meta.Some? && insp.files(path).meta.Some?
  {
    var t, u := StartedAt(insp.files(f)), StartedAt(insp.files(path));
    t < u || (t == u && exists k :: DiffersAt(f, path, k))
  }

  lemma NotNewerStarted(insp: Inspector, f: string, path: string, anyDir: bool)
    requires Eligible(insp, f, anyDir) && Eligible(insp, path, anyDir) && f != path
    ensures StartedBefore(insp, f, path)
       <==> !Newer(RolloutCandidate(f, insp.files(f), anyDir).value,
            RolloutCandidate(path, insp.files(path), anyDir).value)
  {
    NotNewerMeans(RolloutCandidate(f, insp.files(f), anyDir).value,
                  RolloutCandidate(path, insp.files(path), anyDir).value);
    hide RolloutCandidate, Newer;
  }

  /** The outcomes exclude one another, and the bound rollout is the only one possible. */
  lemma OutcomeUnique(o: Outcome, p: Outcome, insp: Inspector, pids: seq<int>, anyDir: bool)
    requires Resolves(o, insp, pids, anyDir) && Resolves(p, insp, pids, anyDir)
    ensures o == p
  {
    hide StartedBefore, RecordedID;
    if o.Bound? && p.Bound? && o.path != p.path {
      assert StartedBefore(insp, o.path, p.path) && StartedBefore(insp, p.path, o.path);
      NotBoth(insp, o.path, p.path, anyDir);
      assert false;
    }
  }

  lemma NotBoth(insp: Inspector, f: string, g: string, anyDir: bool)
    requires Eligible(insp, f, anyDir) && Eligible(insp, g, anyDir) && f != g
    ensures !(StartedBefore(insp, f, g) && StartedBefore(insp, g, f))
  {
    LessMeans(f, g);
    LessMeans(g, f);
    LessTotal(f, g);
    hide Less, DiffersAt;
  }

  lemma BestBinds(insp: Inspector, pids: seq<int>, seen: set<string>, anyDir: bool, cs: seq<Candidate>, best: Candidate)
    requires Gathered(insp, seen, anyDir, cs) && IsNewest(best, cs)
    requires forall f :: f in seen <==> Open(insp, pids, f)
    ensures Resolves(Bound(best.id, best.path), insp, pids, anyDir)
  {
    hide Newer, StartedBefore, Open;
    forall f | Open(insp, pids, f) && Eligible(insp, f, anyDir) && f != best.path
      ensures StartedBefore(insp, f, best.path)
    {
      NotNewerStarted(insp, f, best.path, anyDir);
    }
  }

  method ResolveAmong(insp: Inspector, pids: seq<int>, anyDir: bool) returns (o: Outcome)
    ensures Resolves(o, insp, pids, anyDir)
  {
    if |pids| == 0 {
      return TreeNotVisible;
    }
    var probesFailed := 0;
    var seen: set<string> := {};
    var cs: seq<Candidate> := [];
    for i := 0 to |pids|
      invariant Gathered(insp, seen, anyDir, cs)
      invariant forall f :: f in seen <==> Open(insp, pids[..i], f)
      invariant probesFailed > 0 <==> exists pid :: pid in pids[..i] && insp.openFiles(pid).None?
      invariant probesFailed >= 0
    {
      var pid := pids[i];
      ghost var before := seen;
      var files := insp.openFiles(pid);
      if files.None? {
        probesFailed := probesFailed + 1;
      } else {
        seen, cs := GatherFiles(insp, files.value, anyDir, seen, cs);
      }
      forall f ensures f in seen <==> Open(insp, pids[..i + 1], f) {
        OpenMore(insp, pids, i, f);
      }
      assert pids[..i + 1] == pids[..i] + [pid];
    }
    assert pids[..|pids|] == pids;
    if |cs| == 0 {
      if probesFailed > 0 {
        return ProbeFailed;
      }
      return NoRolloutOpen;
    }
    var sorted := SortNewestFirst(cs);
    SortedHead(sorted, cs);
    var best := sorted[0];
    BestBinds(insp, pids, seen, anyDir, cs, best);
    return Bound(best.id, best.path);
  }

  lemma OpenMore(insp: Inspector, pids: seq<int>, i: nat, f: string)
    requires i < |pids|
    ensures Open(insp, pids[..i + 1], f) <==> Open(insp, pids[..i], f) || HeldBy(insp, pids[i], f)
  {
    assert pids[..i + 1] == pids[..i] + [pids[i]];
    if Open(insp, pids[..i], f) {
      var pid :| pid in pids[..i] && HeldBy(insp, pid, f);
      assert pid in pids[..i + 1];
    }
  }

  /** The whole resolution from a pane's process: over exactly the processes it reaches. */
  method ResolveInteractiveSessionIDByPIDAt(insp: Inspector, panePID: int, anyDir: bool)
    returns (o: Outcome, ghost pids: seq<int>)
    ensures Resolves(o, insp, pids, anyDir)
    ensures panePID <= 0 || insp.rows.None? ==> o == TreeNotVisible
    ensures panePID > 0 && insp.rows.Some? ==>
              && Distinct(pids) && o != TreeNotVisible
              && forall q :: q in pids <==> Reachable(Edges(insp.rows.value), panePID, q)
  {
    pids := [];
    if panePID <= 0 || insp.rows.None? {
      return TreeNotVisible, pids;
    }
    var descendants := DescendantPIDs(insp.rows.value, panePID);
    o := ResolveAmong(insp, descendants, anyDir);
    pids := descendants;
  }
}
