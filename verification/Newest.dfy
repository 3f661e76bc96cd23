/** Rollout candidates in the order every resolver prefers them. */
module Newest {
  import opened Calendar
  import opened Text

  datatype Candidate = Candidate(id: string, path: string, time: Time)

  /** A later session time wins; between equal times the greater path. */
  predicate Newer(a: Candidate, b: Candidate) {
    a.time > b.time || (a.time == b.time && Less(b.path, a.path))
  }

  lemma NewerOrder(a: Candidate, b: Candidate, c: Candidate)
    ensures !(Newer(a, b) && Newer(b, a))
    ensures a.path != b.path ==> Newer(a, b) || Newer(b, a)
    ensures Newer(a, b) && Newer(b, c) ==> Newer(a, c)
    ensures !Newer(b, a) && !Newer(c, b) ==> !Newer(c, a)
  {
    LessTotal(a.path, b.path);
    LessTotal(b.path, c.path);
    LessTotal(a.path, c.path);
    if Less(c.path, b.path) && Less(b.path, a.path) {
      LessTransitive(c.path, b.path, a.path);
    }
    if Less(a.path, c.path) && Less(c.path, b.path) {
      LessTransitive(a.path, c.path, b.path);
    }
    if Less(b.path, a.path) && Less(a.path, c.path) {
      LessTransitive(b.path, a.path, c.path);
    }
  }

  /** Newest first. */
  predicate Sorted(cs: seq<Candidate>) {
    forall i, j | 0 <= i < j < |cs| :: !Newer(cs[j], cs[i])
  }

  /** Before the first older candidate, and so after every equal one. */
  function Insert(c: Candidate, cs: seq<Candidate>): seq<Candidate> {
    if cs == [] then [c]
    else if Newer(c, cs[0]) then [c] + cs
    else [cs[0]] + Insert(c, cs[1..])
  }

  lemma ConsSorted(c: Candidate, cs: seq<Candidate>)
    requires Sorted(cs) && forall d | d in cs :: !Newer(d, c)
    ensures Sorted([c] + cs)
  {
  }

  lemma {:induction false} InsertMembers(c: Candidate, cs: seq<Candidate>)
    ensures multiset(Insert(c, cs)) == multiset(cs) + multiset{c}
  {
    if cs != [] {
      assert cs == [cs[0]] + cs[1..];
      InsertMembers(c, cs[1..]);
    }
  }

  lemma {:induction false} InsertSorted(c: Candidate, cs: seq<Candidate>)
    requires Sorted(cs)
    ensures Sorted(Insert(c, cs))
  {
    hide Newer;
    if cs == [] {
    } else if Newer(c, cs[0]) {
      forall d | d in cs ensures !Newer(d, c) {
        NewerOrder(c, cs[0], d);
        NewerOrder(cs[0], c, d);
        NewerOrder(d, c, cs[0]);
      }
      ConsSorted(c, cs);
    } else {
      InsertSorted(c, cs[1..]);
      InsertMembers(c, cs[1..]);
      var rest := Insert(c, cs[1..]);
      forall d | d in rest ensures !Newer(d, cs[0]) {
        assert d in multiset(rest);
      }
      ConsSorted(cs[0], rest);
    }
  }

  method SortNewestFirst(cs: seq<Candidate>) returns (r: seq<Candidate>)
    ensures Sorted(r) && multiset(r) == multiset(cs)
  {
    r := [];
    for i := 0 to |cs|
      invariant Sorted(r) && multiset(r) == multiset(cs[..i])
    {
      InsertSorted(cs[i], r);
      InsertMembers(cs[i], r);
      assert cs[..i + 1] == cs[..i] + [cs[i]];
      r := Insert(cs[i], r);
    }
    assert cs[..|cs|] == cs;
  }

  /** Nothing among the candidates is newer. */
  ghost predicate IsNewest(c: Candidate, cs: seq<Candidate>) {
    c in cs && forall d | d in cs :: !Newer(d, c)
  }

  lemma SortedHead(r: seq<Candidate>, cs: seq<Candidate>)
    requires Sorted(r) && multiset(r) == multiset(cs) && cs != []
    ensures r != [] && IsNewest(r[0], cs)
  {
    assert cs[0] in multiset(r);
    assert r[0] in multiset(cs);
    forall d | d in cs ensures !Newer(d, r[0]) {
      assert d in multiset(r);
      NewerOrder(r[0], r[0], r[0]);
    }
  }

  lemma NotNewerMeans(d: Candidate, c: Candidate)
    ensures !Newer(d, c)
       <==> d.time < c.time || (d.time == c.time && (d.path == c.path || exists k :: DiffersAt(d.path, c.path, k)))
  {
    LessMeans(d.path, c.path);
    LessTotal(d.path, c.path);
    hide Less, DiffersAt;
  }

  /** The newest has the latest time, and between equal times no other path comes after its own. */
  lemma NewestMeans(c: Candidate, cs: seq<Candidate>)
    ensures IsNewest(c, cs)
       <==> c in cs && forall d: Candidate | d in cs ::
              d.time < c.time || (d.time == c.time && (d.path == c.path || exists k :: DiffersAt(d.path, c.path, k)))
  {
    forall d: Candidate
      ensures !Newer(d, c)
         <==> d.time < c.time || (d.time == c.time && (d.path == c.path || exists k :: DiffersAt(d.path, c.path, k)))
    {
      NotNewerMeans(d, c);
    }
    hide Newer, DiffersAt;
  }

  /** Among candidates with different paths the newest is the only one. */
  lemma NewestUnique(c: Candidate, d: Candidate, cs: seq<Candidate>)
    requires IsNewest(c, cs) && IsNewest(d, cs)
    ensures c.path == d.path && c.time == d.time
  {
    NewerOrder(c, d, c);
  }
}
