/** Which files a scan returns: each file of the tree that counts, told from the
    file and its place alone, exactly once. */
module RolloutMembers {
  import opened Wrappers
  import opened Calendar
  import opened Newest
  import opened RolloutScan

  /** A place in a tree: which child to take, from the root down. */
  type Place = seq<nat>

  function NodeAt(n: Node, p: Place): Option<Node> {
    if p == [] then Some(n)
    else if n.File? || p[0] >= |n.children| then None
    else NodeAt(n.children[p[0]], p[1..])
  }

  /** The names on the way down, the root's own left out. */
  function Names(n: Node, p: Place): seq<string>
    requires NodeAt(n, p).Some?
  {
    if p == [] then [] else [n.children[p[0]].name] + Names(n.children[p[0]], p[1..])
  }

  // ---- the files that count

  predicate StartsAt(f: Node, t: Time)
    requires f.File? && f.mtime.Some? && f.meta.Some?
  {
    match f.meta.value.timestamp
    case Some(recorded) => t == recorded
    case None => t == f.mtime.value
  }

  predicate Named(name: string) {
    "rollout-" <= name && exists stem | 0 <= stem <= |name| :: name[stem..] == ".jsonl"
  }

  /** An interactive session's own rollout, of this directory, started in the window. */
  predicate Counts(f: Node, w: Window, t: Time) {
    && f.File? && Named(f.name) && f.mtime.Some? && f.meta.Some? && StartsAt(f, t)
    && (var m := f.meta.value; m.id != "" && m.codexTui && !m.subagent && m.sameDir)
    && w.notBefore <= t && (w.notAfter == ZERO_TIME || t <= w.notAfter)
  }

  /** The scan is bound to look at it: no directory above is turned back from, and its
      last write is not before the lower bound's slack. */
  predicate Looked(root: Node, p: Place, path: seq<string>, f: Node, w: Window)
    requires NodeAt(root, p).Some? && f.File? && f.mtime.Some?
  {
    AllowsDown(path + Names(root, p), |path|, w)
        && (w.notBefore == ZERO_TIME || w.notBefore - MTIME_SLACK <= f.mtime.value)
  }

  /** None of the directories from the `from`-th down to the file's own is turned back from. */
  predicate AllowsDown(names: seq<string>, from: nat, w: Window) {
    forall k | from <= k < |names| :: !Pruned(names[..k], w)
  }

  /** The candidate for the file at a place. */
  ghost predicate Stands(root: Node, p: Place, path: seq<string>, w: Window, c: Candidate) {
    && NodeAt(root, p).Some?
    && (var f := NodeAt(root, p).value;
        Counts(f, w, c.time) && c.id == f.meta.value.id && c.path == JoinPath(path + Names(root, p)))
  }

  ghost predicate Wanted(root: Node, p: Place, path: seq<string>, w: Window, prune: bool) {
    exists c :: Stands(root, p, path, w, c) && (prune ==> Looked(root, p, path, NodeAt(root, p).value, w))
  }

  ghost predicate AllStand(n: Node, path: seq<string>, w: Window, cs: seq<Candidate>, ps: seq<Place>) {
    |ps| == |cs| && forall i | 0 <= i < |ps| :: Stands(n, ps[i], path, w, cs[i])
  }

  ghost predicate AllWanted(n: Node, path: seq<string>, w: Window, prune: bool, from: nat, ps: seq<Place>) {
    forall i | 0 <= i < |ps| :: From(ps[i], from) && Wanted(n, ps[i], path, w, prune)
  }

  ghost predicate AllThere(n: Node, path: seq<string>, w: Window, prune: bool, from: nat, ps: seq<Place>) {
    forall p | From(p, from) && Wanted(n, p, path, w, prune) :: p in ps
  }

  ghost predicate Different(ps: seq<Place>) {
    forall i, j | 0 <= i < j < |ps| :: ps[i] != ps[j]
  }

  /** Candidate by candidate, the places they stand for: all different, and every
      place that is wanted. `path` names the root, and only the root itself or
      children from `from` on are meant. */
  ghost predicate Lists(root: Node, path: seq<string>, w: Window, prune: bool, from: nat, cs: seq<Candidate>,
                        ps: seq<Place>) {
    && AllStand(root, path, w, cs, ps) && Different(ps)
    && AllWanted(root, path, w, prune, from, ps) && AllThere(root, path, w, prune, from, ps)
  }

  predicate From(p: Place, from: nat) {
    p == [] || from <= p[0]
  }

  // ---- one file

  lemma NamedIs(name: string)
    ensures Named(name) <==> IsRolloutName(name)
  {
    assert '.' !in "rollout-";
    if "rollout-" <= name {
      assert forall i | 0 <= i < 8 :: name[i] == "rollout-"[i];
    }
    if Named(name) {
      var stem :| 0 <= stem <= |name| && name[stem..] == ".jsonl";
      assert stem == |name| - 6;
      assert name[stem] == '.';
    }
  }

  lemma OneFile(f: Node, path: seq<string>, w: Window, prune: bool, c: Candidate)
    requires f.File?
    ensures FileCandidates(f, path, w, prune) == [c]
       <==> Stands(f, [], path, w, c) && (prune ==> Looked(f, [], path, f, w))
    ensures |FileCandidates(f, path, w, prune)| <= 1
  {
    NamedIs(f.name);
    assert path + Names(f, []) == path;
    hide Named, IsRolloutName;
  }

  lemma FilePlaces(f: Node, path: seq<string>, w: Window, prune: bool) returns (ps: seq<Place>)
    requires f.File?
    ensures Lists(f, path, w, prune, 0, FileCandidates(f, path, w, prune), ps)
  {
    var cs := FileCandidates(f, path, w, prune);
    forall c ensures cs == [c] <==> Stands(f, [], path, w, c) && (prune ==> Looked(f, [], path, f, w)) {
      OneFile(f, path, w, prune, c);
    }
    assert |cs| <= 1;
    hide FileCandidates, Stands, Looked;
    if cs == [] {
      ps := [];
    } else {
      ps := [[]];
      assert cs == [cs[0]];
    }
    OnlyRoot(f, path, w, prune);
  }

  lemma OnlyRoot(f: Node, path: seq<string>, w: Window, prune: bool)
    requires f.File?
    ensures forall p | Wanted(f, p, path, w, prune) :: p == []
  {
  }

  // ---- the tree

  lemma Down(n: Node, i: nat, p: Place, path: seq<string>, w: Window, prune: bool, c: Candidate)
    requires n.Dir? && i < |n.children|
    ensures Stands(n, [i] + p, path, w, c) <==> Stands(n.children[i], p, path + [n.children[i].name], w, c)
    ensures Stands(n, [i] + p, path, w, c) ==>
              (Looked(n, [i] + p, path, NodeAt(n, [i] + p).value, w)
               <==> && !Pruned(path, w)
                    && Looked(n.children[i], p, path + [n.children[i].name], NodeAt(n, [i] + p).value, w))
  {
    var k := n.children[i];
    assert ([i] + p)[1..] == p;
    if NodeAt(k, p).Some? {
      var names := path + Names(n, [i] + p);
      assert names == path + [k.name] + Names(k, p);
      assert names[..|path|] == path;
    }
    hide Pruned, Counts;
  }

  lemma DownWanted(n: Node, i: nat, p: Place, path: seq<string>, w: Window, prune: bool)
    requires n.Dir? && i < |n.children| && (prune ==> !Pruned(path, w))
    ensures Wanted(n, [i] + p, path, w, prune) <==> Wanted(n.children[i], p, path + [n.children[i].name], w, prune)
  {
    forall c ensures Stands(n, [i] + p, path, w, c) <==> Stands(n.children[i], p, path + [n.children[i].name], w, c) {
      Down(n, i, p, path, w, prune, c);
    }
    if c :| Stands(n, [i] + p, path, w, c) {
      Down(n, i, p, path, w, prune, c);
    }
    hide Stands, Looked, Pruned;
  }

  lemma NotItself(n: Node, path: seq<string>, w: Window, prune: bool)
    requires n.Dir?
    ensures !Wanted(n, [], path, w, prune)
  {
  }

  /** The places below one child, as places below its parent. */
  function Below(i: nat, ps: seq<Place>): (qs: seq<Place>)
    ensures |qs| == |ps| && forall k | 0 <= k < |ps| :: qs[k] == [i] + ps[k]
  {
    seq(|ps|, k requires 0 <= k < |ps| => [i] + ps[k])
  }

  lemma ScanPlaces(n: Node, path: seq<string>, w: Window, prune: bool) returns (ps: seq<Place>)
    ensures Lists(n, path, w, prune, 0, Scan(n, path, w, prune), ps)
    decreases n, if n.File? then 0 else |n.children| + 1
  {
    if n.File? {
      ps := FilePlaces(n, path, w, prune);
    } else if prune && Pruned(path, w) {
      ps := [];
      NothingLooked(n, path, w);
    } else {
      assert n.children[0..] == n.children;
      ps := ChildPlaces(n, path, w, prune, 0);
    }
  }

  lemma NothingLooked(n: Node, path: seq<string>, w: Window)
    requires n.Dir? && Pruned(path, w)
    ensures forall p :: !Wanted(n, p, path, w, true)
  {
    NotItself(n, path, w, true);
    forall p ensures !Wanted(n, p, path, w, true) {
      if c :| Stands(n, p, path, w, c) {
        if p != [] {
          Down(n, p[0], p[1..], path, w, true, c);
          assert [p[0]] + p[1..] == p;
        }
      }
    }
  }

  lemma ChildPlaces(n: Node, path: seq<string>, w: Window, prune: bool, from: nat) returns (ps: seq<Place>)
    requires n.Dir? && from <= |n.children| && (prune ==> !Pruned(path, w))
    ensures Lists(n, path, w, prune, from, ScanAll(n.children[from..], path, w, prune), ps)
    decreases n, |n.children| - from
  {
    NotItself(n, path, w, prune);
    if from == |n.children| {
      ps := [];
      NoMore(n, path, w, prune);
    } else {
      var k := n.children[from];
      var first := ScanPlaces(k, path + [k.name], w, prune);
      var rest := ChildPlaces(n, path, w, prune, from + 1);
      assert n.children[from..][0] == k && n.children[from..][1..] == n.children[from + 1..];
      var cs, ds := Scan(k, path + [k.name], w, prune), ScanAll(n.children[from + 1..], path, w, prune);
      ps := Below(from, first) + rest;
      BothList(n, path, w, prune, from, cs, first, ds, rest);
    }
  }

  lemma NoMore(n: Node, path: seq<string>, w: Window, prune: bool)
    requires n.Dir?
    ensures forall p | p != [] && |n.children| <= p[0] :: !Wanted(n, p, path, w, prune)
  {
  }

  lemma BothStand(n: Node, path: seq<string>, w: Window, from: nat, cs: seq<Candidate>, first: seq<Place>,
                  ds: seq<Candidate>, rest: seq<Place>)
    requires n.Dir? && from < |n.children|
    requires AllStand(n.children[from], path + [n.children[from].name], w, cs, first) && AllStand(n, path, w, ds, rest)
    ensures AllStand(n, path, w, cs + ds, Below(from, first) + rest)
  {
    var up := Below(from, first);
    forall i | 0 <= i < |cs| ensures Stands(n, up[i], path, w, cs[i]) {
      Down(n, from, first[i], path, w, false, cs[i]);
    }
    hide Stands;
  }

  lemma BelowWanted(n: Node, path: seq<string>, w: Window, prune: bool, from: nat, first: seq<Place>)
    requires n.Dir? && from < |n.children| && (prune ==> !Pruned(path, w))
    requires AllWanted(n.children[from], path + [n.children[from].name], w, prune, 0, first)
    ensures AllWanted(n, path, w, prune, from, Below(from, first))
  {
    var up := Below(from, first);
    hide Wanted, Pruned;
    forall i | 0 <= i < |up| ensures From(up[i], from) && Wanted(n, up[i], path, w, prune) {
      DownWanted(n, from, first[i], path, w, prune);
    }
  }

  lemma RestLater(n: Node, path: seq<string>, w: Window, prune: bool, from: nat, rest: seq<Place>)
    requires AllWanted(n, path, w, prune, from + 1, rest) && !Wanted(n, [], path, w, prune)
    ensures AllWanted(n, path, w, prune, from, rest)
    ensures forall i | 0 <= i < |rest| :: rest[i] != [] && from < rest[i][0]
  {
    hide Wanted;
    forall i | 0 <= i < |rest| ensures rest[i] != [] && from < rest[i][0] {
      assert From(rest[i], from + 1) && Wanted(n, rest[i], path, w, prune);
    }
  }

  lemma BothFrom(n: Node, path: seq<string>, w: Window, prune: bool, from: nat, first: seq<Place>, rest: seq<Place>)
    requires AllWanted(n, path, w, prune, from, Below(from, first)) && AllWanted(n, path, w, prune, from, rest)
    ensures AllWanted(n, path, w, prune, from, Below(from, first) + rest)
  {
    hide Wanted, Below, From;
  }

  lemma BothComplete(n: Node, path: seq<string>, w: Window, prune: bool, from: nat, first: seq<Place>, rest: seq<Place>)
    requires n.Dir? && from < |n.children| && (prune ==> !Pruned(path, w)) && !Wanted(n, [], path, w, prune)
    requires AllThere(n.children[from], path + [n.children[from].name], w, prune, 0, first)
    requires AllThere(n, path, w, prune, from + 1, rest)
    ensures AllThere(n, path, w, prune, from, Below(from, first) + rest)
  {
    hide Wanted, Pruned, Below;
    forall p | From(p, from) && Wanted(n, p, path, w, prune) ensures p in Below(from, first) + rest {
      if p[0] == from {
        assert p == [from] + p[1..];
        DownWanted(n, from, p[1..], path, w, prune);
        assert From(p[1..], 0);
        BelowHas(from, first, p[1..]);
      }
    }
  }

  lemma BothList(n: Node, path: seq<string>, w: Window, prune: bool, from: nat, cs: seq<Candidate>, first: seq<Place>,
                 ds: seq<Candidate>, rest: seq<Place>)
    requires n.Dir? && from < |n.children| && (prune ==> !Pruned(path, w)) && !Wanted(n, [], path, w, prune)
    requires Lists(n.children[from], path + [n.children[from].name], w, prune, 0, cs, first)
    requires Lists(n, path, w, prune, from + 1, ds, rest)
    ensures Lists(n, path, w, prune, from, cs + ds, Below(from, first) + rest)
  {
    var k := n.children[from];
    hide Stands, Wanted, Pruned, From, Below, AllStand, AllWanted, AllThere, Different;
    BothStand(n, path, w, from, cs, first, ds, rest);
    BelowWanted(n, path, w, prune, from, first);
    RestLater(n, path, w, prune, from, rest);
    AllDifferent(from, first, rest);
    BothComplete(n, path, w, prune, from, first, rest);
    BothFrom(n, path, w, prune, from, first, rest);
  }

  lemma BelowHas(i: nat, ps: seq<Place>, p: Place)
    requires p in ps
    ensures [i] + p in Below(i, ps)
  {
    var k :| 0 <= k < |ps| && ps[k] == p;
    assert Below(i, ps)[k] == [i] + p;
  }

  lemma AllDifferent(from: nat, first: seq<Place>, rest: seq<Place>)
    requires Different(first) && Different(rest) && forall i | 0 <= i < |rest| :: rest[i] != [] && from < rest[i][0]
    ensures Different(Below(from, first) + rest)
  {
    var up := Below(from, first);
    forall i, j | 0 <= i < j < |up| ensures up[i] != up[j] {
      assert up[i][1..] == first[i] && up[j][1..] == first[j];
    }
    assert forall i | 0 <= i < |up| :: up[i][0] == from;
  }

  // ---- what a scan returns

  lemma SkippedOnTheWay(names: seq<string>, w: Window)
    requires names != []
    ensures Skipped(names[..|names| - 1], w) <==> !AllowsDown(names, 0, w)
  {
    hide Pruned;
    var dirs := names[..|names| - 1];
    assert forall k | 0 <= k < |names| :: names[..k] == dirs[..k];
  }

  lemma LookedIsNotSkipped(root: Node, p: Place, w: Window)
    requires NodeAt(root, p).Some? && NodeAt(root, p).value.File? && NodeAt(root, p).value.mtime.Some? && p != []
    ensures (var f, names := NodeAt(root, p).value, Names(root, p);
             && names != []
             && (Looked(root, p, [], f, w)
                 <==> && !Skipped(names[..|names| - 1], w)
                      && (w.notBefore == ZERO_TIME || w.notBefore - MTIME_SLACK <= f.mtime.value)))
  {
    assert Names(root, p) != [] && [] + Names(root, p) == Names(root, p);
    hide Pruned, Skipped, AllowsDown, NodeAt, Names;
    SkippedOnTheWay(Names(root, p), w);
  }

  /** Every candidate of a scan stands for one file of the tree that counts, with that
      file's id, path and start; no two stand for the same file; and every file that
      counts is there, of the pruned scan every one that it looks at. */
  lemma ScanReturns(root: Node, w: Window, prune: bool) returns (ps: seq<Place>)
    ensures Lists(root, [], w, prune, 0, Scan(root, [], w, prune), ps)
  {
    ps := ScanPlaces(root, [], w, prune);
  }

  /** A file that counts and fits its directories is one that the pruned scan returns. */
  lemma FittingReturned(root: Node, p: Place, w: Window, t: Time) returns (ps: seq<Place>)
    requires NodeAt(root, p).Some? && p != [] && Counts(NodeAt(root, p).value, w, t)
    requires (var names := Names(root, p); names != [] && Fits(NodeAt(root, p).value, names[..|names| - 1]))
    ensures (var f, cs := NodeAt(root, p).value, Scan(root, [], w, true);
             && Lists(root, [], w, true, 0, cs, ps)
             && exists i | 0 <= i < |cs| :: ps[i] == p
                 && cs[i] == Candidate(f.meta.value.id, JoinPath(Names(root, p)), t))
  {
    ps := ScanReturns(root, w, true);
    var f, names := NodeAt(root, p).value, Names(root, p);
    var dirs := names[..|names| - 1];
    var c := Candidate(f.meta.value.id, JoinPath(names), t);
    assert [] + names == names;
    assert Stands(root, p, [], w, c);
    FitIsLooked(f, dirs, w, t);
    LookedIsNotSkipped(root, p, w);
    assert Wanted(root, p, [], w, true);
    hide Scan, Fits, Skipped, Looked, Wanted, Counts, Pruned;
    var i :| 0 <= i < |ps| && ps[i] == p;
    var d := Scan(root, [], w, true)[i];
    assert Stands(root, p, [], w, d);
    OneStart(f, w, c.time, d.time);
  }

  lemma OneStart(f: Node, w: Window, t: Time, u: Time)
    requires Counts(f, w, t) && Counts(f, w, u)
    ensures t == u
  {
  }

  lemma FitIsLooked(f: Node, dirs: seq<string>, w: Window, t: Time)
    requires f.File? && Counts(f, w, t) && Fits(f, dirs)
    ensures !Skipped(dirs, w) && (w.notBefore == ZERO_TIME || w.notBefore - MTIME_SLACK <= f.mtime.value)
  {
    NamedIs(f.name);
    hide Skipped, Range, Named, IsRolloutName;
    FitIsNotMissed(f, dirs, w);
  }
}
