/** What the capability check answers, told connector by connector from the list the
    runtime loaded. */
module CapabilityAnswers {
  import opened Text
  import opened CapabilityProfile

  // ---- one connector

  /** The operation as listed, with white space around it and in any case. */
  predicate ListedAs(listed: string, operation: string, a: string, x: string, b: string) {
    listed == a + x + b && AllBlank(a) && AllBlank(b) && SameLetters(x, operation)
  }

  ghost predicate Offers(operations: seq<string>, operation: string) {
    exists i, a, x, b :: 0 <= i < |operations| && ListedAs(operations[i], operation, a, x, b)
  }

  predicate LinearAt(name: string, i: int) {
    0 <= i <= |name| - 6 && SameLetters(name[i..i + 6], "linear")
  }

  predicate NamedLinear(s: Server) {
    exists i | 0 <= i <= |s.name| :: LinearAt(s.name, i)
  }

  predicate LoggedIn(s: Server) {
    SameLetters(s.authStatus, "oauth") || SameLetters(s.authStatus, "bearertoken")
  }

  predicate Counts(s: Server) {
    NamedLinear(s) && LoggedIn(s)
  }

  /** The requirements it leaves open, by name. */
  ghost function Lacks(operations: seq<string>): set<string> {
    set k | 0 <= k < |CONTRACT| && !Offers(operations, CONTRACT[k].operation) :: CONTRACT[k].name
  }

  function AllNames(): set<string> {
    set k | 0 <= k < |CONTRACT| :: CONTRACT[k].name
  }

  // ---- the answer

  /** The names of the set, except the empty one, in order. */
  ghost predicate Lists(names: seq<string>, all: set<string>) {
    Ascending(names) && forall x :: x in names <==> x != "" && x in all
  }

  function Elements(values: seq<string>): set<string> {
    set x | x in values
  }

  /** The place of the first connector that counts and lacks nothing. */
  ghost predicate FirstWhole(servers: seq<Server>, i: int) {
    && 0 <= i < |servers| && Counts(servers[i]) && Lacks(servers[i].operations) == {}
    && forall j | 0 <= j < i && Counts(servers[j]) :: Lacks(servers[j].operations) != {}
  }

  /** The place of the first connector among those that lack fewest. */
  ghost predicate FirstClosest(servers: seq<Server>, i: int) {
    && 0 <= i < |servers| && Counts(servers[i])
    && (forall j | 0 <= j < |servers| && Counts(servers[j]) ::
          |Lacks(servers[i].operations)| <= |Lacks(servers[j].operations)|)
    && (forall j | 0 <= j < i && Counts(servers[j]) ::
          |Lacks(servers[i].operations)| < |Lacks(servers[j].operations)|)
  }

  /** No connector that counts exposes anything at all. */
  predicate NoneExposes(servers: seq<Server>) {
    forall i | 0 <= i < |servers| && Counts(servers[i]) :: servers[i].operations == []
  }

  function WhyNone(servers: seq<Server>): string {
    if forall i | 0 <= i < |servers| :: !NamedLinear(servers[i]) then "connector_plugin_disabled_or_missing"
    else if forall i | 0 <= i < |servers| :: !Counts(servers[i]) then "connector_authentication_unavailable"
    else "connector_declared_but_exposes_no_operations"
  }

  function Unset(workDirSet: bool): set<string> {
    if workDirSet then {} else {"preflight_work_dir_unset"}
  }

  /** Between them the connectors that count leave nothing open. */
  ghost predicate SplitAcross(servers: seq<Server>) {
    forall k | 0 <= k < |CONTRACT| ::
      exists i :: 0 <= i < |servers| && Counts(servers[i]) && Offers(servers[i].operations, CONTRACT[k].operation)
  }

  ghost predicate WritesNothing(operations: seq<string>) {
    operations != [] && forall w | w in WRITE_OPERATIONS :: !Offers(operations, w)
  }

  ghost function Markers(servers: seq<Server>, best: Server): set<string> {
    (if SplitAcross(servers) then {"connector_capabilities_split_across_runtime_surfaces"} else {})
    + if WritesNothing(best.operations) then {"connector_restricted_to_list_read_operations"} else {}
  }

  /** Ready, with the operations of the first connector that lacks nothing; or else what
      the first of the closest ones lacks and has, and why. */
  ghost predicate Answers(r: Response, surface: Surface, workDirSet: bool) {
    var servers := surface.servers;
    match r
    case Ready(source, provided) =>
      source == surface.source
      && exists i :: FirstWhole(servers, i) && Lists(provided, Elements(servers[i].operations))
    case Unavailable(d) =>
      (forall i :: !FirstWhole(servers, i)) &&
      if NoneExposes(servers) then
        && Lists(d.missing, AllNames()) && d.provided == []
        && Lists(d.source, Unset(workDirSet) + {WhyNone(servers), surface.source})
      else
        exists i ::
          && FirstClosest(servers, i)
          && Lists(d.missing, Lacks(servers[i].operations))
          && Lists(d.provided, (AllNames() - Lacks(servers[i].operations)) + Elements(servers[i].operations))
          && Lists(d.source, Unset(workDirSet) + {surface.source} + Markers(servers, servers[i]))
    case Nothing => false
  }

  // ---- one connector, step by step

  predicate Plain(operation: string) {
    operation != "" && !IsSpace(operation[0]) && !IsSpace(operation[|operation| - 1])
  }

  lemma SpaceLetter(c: char)
    ensures IsSpace(SmallLetter(c)) <==> IsSpace(c)
  {
  }

  lemma CanonicalIs(listed: string, operation: string)
    requires Plain(operation)
    ensures Canonical(listed) == operation <==> exists a, x, b :: ListedAs(listed, operation, a, x, b)
  {
    var x := TrimSpace(listed);
    SameLettersIs(x, operation);
    var a, b := TrimSpaceIs(listed);
    if Canonical(listed) == operation {
      assert ListedAs(listed, operation, a, x, b);
    }
    if a', x', b' :| ListedAs(listed, operation, a', x', b') {
      SpaceLetter(x'[0]);
      SpaceLetter(x'[|x'| - 1]);
      TrimSpaceOf(a', x', b');
    }
  }

  lemma OffersIs(operations: seq<string>, operation: string)
    requires Plain(operation)
    ensures Exposes(operations, operation) <==> Offers(operations, operation)
  {
    forall i | 0 <= i < |operations|
      ensures Canonical(operations[i]) == operation <==> exists a, x, b :: ListedAs(operations[i], operation, a, x, b)
    {
      CanonicalIs(operations[i], operation);
    }
    hide ListedAs, Canonical;
  }

  lemma PlainOperations()
    ensures forall w | w in WRITE_OPERATIONS :: Plain(w)
    ensures Plain("get_issue") && Plain("get_attachment") && Plain("prepare_attachment_upload")
    ensures Plain("create_attachment_from_upload") && Plain("save_issue")
  {
  }

  lemma PlainContract()
    ensures forall k | 0 <= k < |CONTRACT| :: Plain(CONTRACT[k].operation) && CONTRACT[k].name != ""
  {
    PlainOperations();
    hide Plain;
  }

  lemma LinearAtIs(name: string, i: int)
    ensures At(Lower(name), "linear", i) <==> LinearAt(name, i)
  {
    if 0 <= i <= |name| - 6 {
      LowerSlice(name, i, i + 6);
      SameLettersIs(name[i..i + 6], "linear");
    }
  }

  lemma LinearIs(s: Server)
    ensures Linear(s) <==> NamedLinear(s)
  {
    forall i ensures At(Lower(s.name), "linear", i) <==> LinearAt(s.name, i) {
      LinearAtIs(s.name, i);
    }
    hide Lower, LinearAt, At;
  }

  lemma LowerSlice(s: string, i: nat, j: nat)
    requires i <= j <= |s|
    ensures Lower(s)[i..j] == Lower(s[i..j])
  {
    hide Lower, SmallLetter;
    var a, b := Lower(s)[i..j], Lower(s[i..j]);
    forall k | 0 <= k < j - i ensures a[k] == b[k] {
      LowerAt(s, i + k);
      LowerAt(s[i..j], k);
    }
  }

  lemma CountsIs(s: Server)
    ensures Linear(s) && Authenticated(s) <==> Counts(s)
  {
    LinearIs(s);
    SameLettersIs(s.authStatus, "oauth");
    SameLettersIs(s.authStatus, "bearertoken");
    hide Linear, NamedLinear, SameLetters, Lower;
  }

  // ---- what it lacks

  lemma DistinctNames()
    ensures forall i, j | 0 <= i < j < |CONTRACT| :: CONTRACT[i].name != CONTRACT[j].name
  {
    assert |CONTRACT[0].name| == 23 && |CONTRACT[2].name| == 44 && |CONTRACT[3].name| == 45;
    assert |CONTRACT[4].name| == 35 && |CONTRACT[5].name| == 34 && |CONTRACT[6].name| == 37;
    assert CONTRACT[1].name[0] == 'p' && CONTRACT[5].name[0] == 't' && |CONTRACT[1].name| == 34;
  }

  /** The names left open by the leading `n` requirements. */
  ghost function Open(operations: seq<string>, n: nat): set<string>
    requires n <= |CONTRACT|
  {
    set k | 0 <= k < n && !Offers(operations, CONTRACT[k].operation) :: CONTRACT[k].name
  }

  lemma OpenMore(operations: seq<string>, n: nat)
    requires n < |CONTRACT|
    ensures Open(operations, n + 1)
         == Open(operations, n) + if Offers(operations, CONTRACT[n].operation) then {} else {CONTRACT[n].name}
    ensures CONTRACT[n].name !in Open(operations, n)
  {
    DistinctNames();
    hide Offers;
  }

  lemma {:induction false} OpenIs(operations: seq<string>, n: nat)
    requires n <= |CONTRACT|
    ensures |Names(operations, n, false)| == |Open(operations, n)|
    ensures forall x :: x in Names(operations, n, false) <==> x in Open(operations, n)
  {
    hide Open, Offers, Exposes, Plain, Names;
    NamesMore(operations, n, false);
    if n > 0 {
      OpenIs(operations, n - 1);
      OpenMore(operations, n - 1);
    } else {
      NothingOpen(operations);
    }
  }

  lemma NothingOpen(operations: seq<string>)
    ensures Open(operations, 0) == {}
  {
  }

  /** The names gathered, one requirement at a time. */
  lemma NamesMore(operations: seq<string>, n: nat, satisfied: bool)
    requires n <= |CONTRACT|
    ensures Names(operations, n, satisfied)
         == if n == 0 then []
            else Names(operations, n - 1, satisfied)
                 + if Offers(operations, CONTRACT[n - 1].operation) == satisfied then [CONTRACT[n - 1].name] else []
  {
    if n > 0 {
      PlainContract();
      OffersIs(operations, CONTRACT[n - 1].operation);
      hide Offers, Exposes, Plain;
    }
  }

  lemma {:induction false} ProvidedIs(operations: seq<string>, n: nat)
    requires n <= |CONTRACT|
    ensures forall x :: x in Names(operations, n, true) <==>
              x !in Open(operations, n) && exists k | 0 <= k < n :: CONTRACT[k].name == x
  {
    hide Open, Offers, Exposes, Plain, Names;
    NamesMore(operations, n, true);
    if n > 0 {
      ProvidedIs(operations, n - 1);
      OpenMore(operations, n - 1);
      OpenNamed(operations, n - 1);
      DistinctNames();
    }
  }

  lemma OpenNamed(operations: seq<string>, n: nat)
    requires n <= |CONTRACT|
    ensures forall x | x in Open(operations, n) :: exists k | 0 <= k < n :: CONTRACT[k].name == x
  {
  }

  lemma LacksIs(operations: seq<string>)
    ensures |Missing(operations)| == |Lacks(operations)|
    ensures Missing(operations) == [] <==> Lacks(operations) == {}
    ensures Elements(Missing(operations)) == Lacks(operations)
    ensures Elements(Provided(operations)) == AllNames() - Lacks(operations)
  {
    OpenIs(operations, |CONTRACT|);
    ProvidedIs(operations, |CONTRACT|);
    hide Names, Offers;
    assert Lacks(operations) == Open(operations, |CONTRACT|);
  }

  // ---- the first of the connectors that count

  predicate Kept(s: Server) {
    Linear(s) && Authenticated(s)
  }

  lemma WhereMore(servers: seq<Server>, keep: Server -> bool)
    requires servers != []
    ensures (var n := |servers| - 1;
             Where(servers, keep) == if keep(servers[n]) then Where(servers[..n], keep) + [servers[n]]
                                     else Where(servers[..n], keep))
  {
  }

  lemma WhereNone(servers: seq<Server>)
    ensures Where(servers, Kept) == [] <==> forall i | 0 <= i < |servers| :: !Kept(servers[i])
  {
    WhereIs(servers, Kept);
    hide Kept, Where;
    if Where(servers, Kept) != [] {
      var s := Where(servers, Kept)[0];
      assert s in Where(servers, Kept);
      var i :| 0 <= i < |servers| && servers[i] == s;
    } else {
      assert forall i | 0 <= i < |servers| :: servers[i] in servers;
    }
  }

  lemma {:induction false} WhereTwice(servers: seq<Server>)
    ensures Where(Where(servers, Linear), Authenticated) == Where(servers, Kept)
  {
    if servers != [] {
      var n := |servers| - 1;
      var s := servers[n];
      var inner := Where(servers[..n], Linear);
      WhereTwice(servers[..n]);
      WhereMore(servers, Linear);
      WhereMore(servers, Kept);
      WhereMore(inner + [s], Authenticated);
      assert (inner + [s])[..|inner|] == inner;
      hide Linear, Authenticated, Where;
    }
  }

  lemma MeetingMore(kept: seq<Server>, s: Server)
    ensures (var k := FirstMeeting(kept);
             FirstMeeting(kept + [s])
             == if k < |kept| then k else if Missing(s.operations) == [] then |kept| else |kept| + 1)
  {
    hide Missing;
    assert (kept + [s])[..|kept|] == kept;
  }

  lemma BestMore(kept: seq<Server>, s: Server)
    ensures kept == [] ==> Best(kept + [s]) == s
    ensures kept != [] ==>
              Best(kept + [s]) == if |Missing(s.operations)| < |Missing(Best(kept).operations)| then s else Best(kept)
  {
    hide Missing;
    assert (kept + [s])[..|kept|] == kept;
  }

  lemma {:induction false} FirstMeetingAt(servers: seq<Server>) returns (i: nat)
    ensures (var kept := Where(servers, Kept);
             && i <= |servers|
             && (FirstMeeting(kept) < |kept| <==> i < |servers|)
             && (i < |servers| ==> kept[FirstMeeting(kept)] == servers[i] && Kept(servers[i])
                                   && Missing(servers[i].operations) == [])
             && (forall j | 0 <= j < i && Kept(servers[j]) :: Missing(servers[j].operations) != []))
    decreases |servers|
  {
    hide Missing, Kept, Where, FirstMeeting;
    if servers == [] {
      i := 0;
      WhereNone(servers);
    } else {
      var n := |servers| - 1;
      var s, kept := servers[n], Where(servers[..n], Kept);
      i := FirstMeetingAt(servers[..n]);
      WhereMore(servers, Kept);
      MeetingMore(kept, s);
      if i == n && !(Kept(s) && Missing(s.operations) == []) {
        i := n + 1;
      }
      forall j | 0 <= j < i && Kept(servers[j]) ensures Missing(servers[j].operations) != [] {
        if j < n {
          assert servers[..n][j] == servers[j];
        }
      }
    }
  }

  lemma {:induction false} BestAt(servers: seq<Server>) returns (i: nat)
    requires Where(servers, Kept) != []
    ensures i < |servers| && Kept(servers[i]) && Best(Where(servers, Kept)) == servers[i]
    ensures forall j | 0 <= j < |servers| && Kept(servers[j]) ::
              |Missing(servers[i].operations)| <= |Missing(servers[j].operations)|
    ensures forall j | 0 <= j < i && Kept(servers[j]) ::
              |Missing(servers[i].operations)| < |Missing(servers[j].operations)|
    decreases |servers|
  {
    hide Missing, Kept, Where, Best;
    WhereNone(servers);
    if servers != [] {
      var n := |servers| - 1;
      var s, kept := servers[n], Where(servers[..n], Kept);
      WhereMore(servers, Kept);
      BestMore(kept, s);
      if kept == [] {
        WhereIs(servers[..n], Kept);
        assert forall j | 0 <= j < n :: servers[j] in servers[..n];
        i := n;
      } else {
        i := BestAt(servers[..n]);
        ghost var best := i;
        forall j | 0 <= j < n && Kept(servers[j])
          ensures |Missing(servers[best].operations)| <= |Missing(servers[j].operations)|
        {
          assert servers[..n][j] == servers[j];
        }
        forall j | 0 <= j < best && Kept(servers[j])
          ensures |Missing(servers[best].operations)| < |Missing(servers[j].operations)|
        {
          assert servers[..n][j] == servers[j];
        }
        if Kept(s) && |Missing(s.operations)| < |Missing(servers[i].operations)| {
          i := n;
        }
      }
    }
  }

  // ---- the answer, case by case

  lemma KeptIs(servers: seq<Server>)
    ensures forall i | 0 <= i < |servers| :: Kept(servers[i]) <==> Counts(servers[i])
  {
    forall i | 0 <= i < |servers| ensures Kept(servers[i]) <==> Counts(servers[i]) {
      CountsIs(servers[i]);
    }
    hide Counts, Linear, Authenticated;
  }

  lemma SortedLists(values: seq<string>, all: set<string>)
    requires Elements(values) - {""} == all - {""}
    ensures Lists(UniqueSorted(values), all)
  {
    UniqueSortedIs(values);
    hide UniqueSorted, Ascending;
    forall x ensures x in UniqueSorted(values) <==> x != "" && x in all {
      assert x in Elements(values) - {""} <==> x in all - {""};
    }
  }

  lemma {:induction false} SortedTwice(values: seq<string>, all: set<string>)
    requires Elements(values) - {""} == all - {""}
    ensures Lists(UniqueSorted(UniqueSorted(values)), all)
  {
    UniqueSortedIs(values);
    assert Elements(UniqueSorted(values)) == Elements(values) - {""};
    SortedLists(UniqueSorted(values), all);
  }

  lemma ElementsMore(values: seq<string>, x: string)
    ensures Elements(values + [x]) == Elements(values) + {x}
  {
  }

  lemma {:induction false} RequirementsAre(n: nat)
    requires n <= |CONTRACT|
    ensures Elements(Requirements(n)) == set k | 0 <= k < n :: CONTRACT[k].name
  {
    if n > 0 {
      RequirementsAre(n - 1);
      ElementsMore(Requirements(n - 1), CONTRACT[n - 1].name);
      hide Elements, Requirements;
      assert (set k | 0 <= k < n :: CONTRACT[k].name)
             == (set k | 0 <= k < n - 1 :: CONTRACT[k].name) + {CONTRACT[n - 1].name};
    } else {
      assert Requirements(n) == [];
    }
  }

  lemma AllRequired()
    ensures Lists(UniqueSorted(Requirements(|CONTRACT|)), AllNames())
  {
    RequirementsAre(|CONTRACT|);
    hide UniqueSorted, Requirements, Lists;
    assert Elements(Requirements(|CONTRACT|)) == AllNames();
    SortedLists(Requirements(|CONTRACT|), AllNames());
  }

  lemma SourcedIs(workDirSet: bool, markers: seq<string>)
    ensures Elements(Sourced(workDirSet, markers)) == Unset(workDirSet) + Elements(markers)
  {
    if !workDirSet {
      var first := "preflight_work_dir_unset";
      assert Elements([first] + markers) == {first} + Elements(markers);
    }
  }

  lemma TwoElements(a: string, b: string)
    ensures Elements([a, b]) == {a, b}
  {
  }

  lemma RejectedAnswers(surface: Surface, workDirSet: bool, marker: string)
    requires marker == WhyNone(surface.servers) && NoneExposes(surface.servers)
    requires forall i :: !FirstWhole(surface.servers, i)
    ensures Answers(Rejected(workDirSet, marker, surface.source), surface, workDirSet)
  {
    hide UniqueSorted, Requirements, Lists, WhyNone, NoneExposes, FirstWhole, Unset, Sourced, AllNames, Elements;
    AllRequired();
    SourcedIs(workDirSet, [marker, surface.source]);
    TwoElements(marker, surface.source);
    SortedLists(Sourced(workDirSet, [marker, surface.source]), Unset(workDirSet) + {marker, surface.source});
  }

  lemma OnlyReadsIs(operations: seq<string>)
    ensures OnlyReads(operations) <==> WritesNothing(operations)
  {
    PlainOperations();
    forall w | w in WRITE_OPERATIONS ensures Exposes(operations, w) <==> Offers(operations, w) {
      OffersIs(operations, w);
    }
    hide Offers, Canonical, Plain;
  }

  lemma {:induction false} AllOperationsOffer(servers: seq<Server>, operation: string)
    ensures Exposes(AllOperations(servers), operation)
       <==> exists i :: 0 <= i < |servers| && Exposes(servers[i].operations, operation)
  {
    hide Canonical;
    if servers != [] {
      var n := |servers| - 1;
      AllOperationsOffer(servers[..n], operation);
      ExposesJoin(AllOperations(servers[..n]), servers[n].operations, operation);
      hide Exposes;
      if i :| 0 <= i < n && Exposes(servers[i].operations, operation) {
        assert servers[..n][i] == servers[i];
      }
      if i :| 0 <= i < n && Exposes(servers[..n][i].operations, operation) {
        assert servers[..n][i] == servers[i];
      }
    }
  }

  lemma ExposesJoin(a: seq<string>, b: seq<string>, operation: string)
    ensures Exposes(a + b, operation) <==> Exposes(a, operation) || Exposes(b, operation)
  {
    hide Canonical;
    if i :| 0 <= i < |a + b| && Canonical((a + b)[i]) == operation {
      assert if i < |a| then (a + b)[i] == a[i] else (a + b)[i] == b[i - |a|];
    }
    if i :| 0 <= i < |a| && Canonical(a[i]) == operation {
      assert (a + b)[i] == a[i];
    }
    if i :| 0 <= i < |b| && Canonical(b[i]) == operation {
      assert (a + b)[|a| + i] == b[i];
    }
  }

  lemma FirstWholeIs(servers: seq<Server>) returns (i: nat)
    ensures (var kept := Where(servers, Kept);
             var k := FirstMeeting(kept);
             && (k < |kept| ==> FirstWhole(servers, i) && kept[k] == servers[i])
             && (k == |kept| ==> forall j :: !FirstWhole(servers, j)))
  {
    i := FirstMeetingAt(servers);
    KeptIs(servers);
    forall j | 0 <= j < |servers|
      ensures Missing(servers[j].operations) == [] <==> Lacks(servers[j].operations) == {}
    {
      LacksIs(servers[j].operations);
    }
    hide Missing, Lacks, Kept, Counts, Where, FirstMeeting;
  }

  lemma ClosestIs(servers: seq<Server>) returns (i: nat)
    requires Where(servers, Kept) != []
    ensures i < |servers| && FirstClosest(servers, i) && Best(Where(servers, Kept)) == servers[i]
  {
    i := BestAt(servers);
    KeptIs(servers);
    forall j | 0 <= j < |servers|
      ensures |Missing(servers[j].operations)| == |Lacks(servers[j].operations)|
    {
      LacksIs(servers[j].operations);
    }
    hide Missing, Lacks, Kept, Counts, Where, Best;
  }

  lemma ExposesNothing(servers: seq<Server>)
    ensures (var kept := Where(servers, Kept);
             NoneExposes(servers) <==> forall i | 0 <= i < |kept| :: kept[i].operations == [])
  {
    var kept := Where(servers, Kept);
    hide Kept, Counts, Where;
    if NoneExposes(servers) {
      forall i | 0 <= i < |kept| ensures kept[i].operations == [] {
        var j := KeptAt(servers, kept[i]);
        assert Counts(servers[j]);
      }
    } else {
      var j :| 0 <= j < |servers| && Counts(servers[j]) && servers[j].operations != [];
      var i := AtKept(servers, j);
      assert kept[i].operations != [];
    }
  }

  lemma KeptAt(servers: seq<Server>, s: Server) returns (j: nat)
    requires s in Where(servers, Kept)
    ensures j < |servers| && servers[j] == s && Counts(s)
  {
    WhereIs(servers, Kept);
    KeptIs(servers);
    hide Kept, Counts, Where;
    j :| 0 <= j < |servers| && servers[j] == s;
  }

  lemma AtKept(servers: seq<Server>, j: nat) returns (i: nat)
    requires j < |servers| && Counts(servers[j])
    ensures i < |Where(servers, Kept)| && Where(servers, Kept)[i] == servers[j]
  {
    WhereIs(servers, Kept);
    KeptIs(servers);
    hide Kept, Counts, Where;
    assert servers[j] in Where(servers, Kept);
    i :| 0 <= i < |Where(servers, Kept)| && Where(servers, Kept)[i] == servers[j];
  }

  lemma OneOffers(servers: seq<Server>, operation: string)
    requires Plain(operation)
    ensures Exposes(AllOperations(Where(servers, Kept)), operation)
       <==> exists i :: 0 <= i < |servers| && Counts(servers[i]) && Offers(servers[i].operations, operation)
  {
    var kept := Where(servers, Kept);
    AllOperationsOffer(kept, operation);
    hide Kept, Counts, Where, Offers, Exposes, AllOperations;
    if Exposes(AllOperations(kept), operation) {
      var i :| 0 <= i < |kept| && Exposes(kept[i].operations, operation);
      OffersIs(kept[i].operations, operation);
      var j := KeptAt(servers, kept[i]);
      assert Counts(servers[j]) && Offers(servers[j].operations, operation);
    }
    if j :| 0 <= j < |servers| && Counts(servers[j]) && Offers(servers[j].operations, operation) {
      OffersIs(servers[j].operations, operation);
      var i := AtKept(servers, j);
      assert Exposes(kept[i].operations, operation);
    }
  }

  lemma SplitIs(servers: seq<Server>)
    ensures Missing(AllOperations(Where(servers, Kept))) == [] <==> SplitAcross(servers)
  {
    MeetsIs(AllOperations(Where(servers, Kept)));
    PlainContract();
    forall k | 0 <= k < |CONTRACT|
      ensures Exposes(AllOperations(Where(servers, Kept)), CONTRACT[k].operation)
         <==> exists i ::
                0 <= i < |servers| && Counts(servers[i]) && Offers(servers[i].operations, CONTRACT[k].operation)
    {
      OneOffers(servers, CONTRACT[k].operation);
    }
    hide Missing, Where, Kept, Counts, Offers, Exposes, AllOperations, Plain;
  }

  lemma ElementsJoin(a: seq<string>, b: seq<string>)
    ensures Elements(a + b) == Elements(a) + Elements(b)
  {
  }

  lemma OneElement(a: string)
    ensures Elements([a]) == {a} && Elements([]) == {}
  {
  }

  lemma MissingLists(operations: seq<string>)
    ensures Lists(UniqueSorted(Missing(operations)), Lacks(operations))
    ensures Lists(UniqueSorted(UniqueSorted(Provided(operations) + operations)),
                  (AllNames() - Lacks(operations)) + Elements(operations))
  {
    hide Missing, Provided, Lacks, AllNames, Lists, UniqueSorted, Elements;
    LacksIs(operations);
    SortedLists(Missing(operations), Lacks(operations));
    ElementsJoin(Provided(operations), operations);
    SortedTwice(Provided(operations) + operations, (AllNames() - Lacks(operations)) + Elements(operations));
  }

  lemma UnmetSource(surface: Surface, best: Server, workDirSet: bool)
    ensures (var combined := AllOperations(Where(surface.servers, Kept));
             var split := if Missing(combined) == [] then ["connector_capabilities_split_across_runtime_surfaces"]
                 else [];
             var listing := if OnlyReads(best.operations) then ["connector_restricted_to_list_read_operations"] else [];
             Lists(UniqueSorted(UniqueSorted(Sourced(workDirSet, [surface.source]) + split + listing)),
                   Unset(workDirSet) + {surface.source} + Markers(surface.servers, best)))
  {
    hide Missing, Lists, UniqueSorted, Elements, AllOperations, Where, OnlyReads, WritesNothing, SplitAcross, Sourced,
         Unset;
    var split := if Missing(AllOperations(Where(surface.servers, Kept))) == []
        then ["connector_capabilities_split_across_runtime_surfaces"] else [];
    var listing := if OnlyReads(best.operations) then ["connector_restricted_to_list_read_operations"] else [];
    var sourced := Sourced(workDirSet, [surface.source]);
    SplitIs(surface.servers);
    OnlyReadsIs(best.operations);
    SourcedIs(workDirSet, [surface.source]);
    OneElement(surface.source);
    OneElement("connector_capabilities_split_across_runtime_surfaces");
    OneElement("connector_restricted_to_list_read_operations");
    ElementsJoin(sourced + split, listing);
    ElementsJoin(sourced, split);
    var all := Unset(workDirSet) + {surface.source} + Markers(surface.servers, best);
    assert Elements(sourced + split + listing) == all;
    SortedTwice(sourced + split + listing, all);
  }

  lemma UnmetIs(surface: Surface, servers: seq<Server>, workDirSet: bool)
    requires servers != [] && Missing(Best(servers).operations) != []
    ensures (var best := Best(servers);
             var split := if Missing(AllOperations(servers)) == []
                          then ["connector_capabilities_split_across_runtime_surfaces"] else [];
             var listing := if OnlyReads(best.operations) then ["connector_restricted_to_list_read_operations"] else [];
             Unmet(surface, servers, workDirSet)
             == Unavailable(Diagnostic(UniqueSorted(Missing(best.operations)),
                                       UniqueSorted(UniqueSorted(Provided(best.operations) + best.operations)),
                                       UniqueSorted(UniqueSorted(Sourced(workDirSet, [surface.source]) + split
                                           + listing)))))
  {
    hide Missing, Best, UniqueSorted, Provided, OnlyReads, AllOperations, Sourced;
  }

  lemma ClosestAnswers(surface: Surface, workDirSet: bool, i: nat, d: Diagnostic)
    requires FirstClosest(surface.servers, i) && !NoneExposes(surface.servers)
    requires forall j :: !FirstWhole(surface.servers, j)
    requires Lists(d.missing, Lacks(surface.servers[i].operations))
    requires Lists(d.provided,
             (AllNames() - Lacks(surface.servers[i].operations)) + Elements(surface.servers[i].operations))
    requires Lists(d.source, Unset(workDirSet) + {surface.source} + Markers(surface.servers, surface.servers[i]))
    ensures Answers(Unavailable(d), surface, workDirSet)
  {
    hide FirstClosest, FirstWhole, NoneExposes, Lists, Lacks, AllNames, Elements, Unset, Markers;
  }

  lemma UnmetAnswers(surface: Surface, workDirSet: bool)
    requires Where(surface.servers, Kept) != [] && !NoneExposes(surface.servers)
    requires forall i :: !FirstWhole(surface.servers, i)
    ensures Answers(Unmet(surface, Where(surface.servers, Kept), workDirSet), surface, workDirSet)
  {
    hide *;
    var servers := surface.servers;
    var kept := Where(servers, Kept);
    var i := ClosestIs(servers);
    ClosestLacks(servers, i);
    MissingLists(servers[i].operations);
    UnmetSource(surface, servers[i], workDirSet);
    UnmetIs(surface, kept, workDirSet);
    ClosestAnswers(surface, workDirSet, i, Unmet(surface, kept, workDirSet).diagnostic);
  }

  lemma ClosestLacks(servers: seq<Server>, i: nat)
    requires FirstClosest(servers, i) && forall j :: !FirstWhole(servers, j)
    ensures Missing(servers[i].operations) != []
  {
    var k := FirstWholeIs(servers);
    var j := FirstMeetingAt(servers);
    KeptIs(servers);
    hide Missing, Lacks, Where, FirstMeeting, Kept, Counts, FirstWhole;
  }

  lemma RejectedWhy(servers: seq<Server>)
    ensures (Where(servers, Linear) == [] <==> forall i | 0 <= i < |servers| :: !NamedLinear(servers[i]))
    ensures (Where(servers, Kept) == [] <==> forall i | 0 <= i < |servers| :: !Counts(servers[i]))
    ensures Where(servers, Linear) == [] ==> Where(servers, Kept) == []
  {
    WhereIs(servers, Linear);
    WhereNone(servers);
    KeptIs(servers);
    forall i | 0 <= i < |servers| ensures Linear(servers[i]) <==> NamedLinear(servers[i]) {
      LinearIs(servers[i]);
    }
    assert forall i | 0 <= i < |servers| :: Counts(servers[i]) ==> NamedLinear(servers[i]);
    hide Where, Linear, Kept, Counts, NamedLinear;
    if Where(servers, Linear) != [] {
      var s := Where(servers, Linear)[0];
      assert s in Where(servers, Linear);
      var i :| 0 <= i < |servers| && servers[i] == s;
    } else {
      assert forall i | 0 <= i < |servers| :: servers[i] in servers;
    }
  }

  /** Every answer is the one the runtime's list calls for. */
  lemma ResponseAnswers(surface: Surface, workDirSet: bool)
    ensures Answers(ProfileResponse(surface, workDirSet), surface, workDirSet)
  {
    var servers := surface.servers;
    var kept := Where(servers, Kept);
    WhereTwice(servers);
    RejectedWhy(servers);
    ExposesNothing(servers);
    var i := FirstWholeIs(servers);
    hide Where, Kept, Counts, NamedLinear, Lists, Rejected, Unmet, FirstMeeting, FirstWhole, UniqueSorted, FirstClosest;
    if kept == [] || NoneExposes(servers) {
      NoneWhole(servers);
      RejectedAnswers(surface, workDirSet, WhyNone(servers));
    } else if FirstMeeting(kept) < |kept| {
      WholeInRange(servers, i);
      SortedLists(servers[i].operations, Elements(servers[i].operations));
    } else {
      UnmetAnswers(surface, workDirSet);
    }
  }

  lemma WholeInRange(servers: seq<Server>, i: nat)
    requires FirstWhole(servers, i)
    ensures i < |servers|
  {
  }

  lemma LacksSomething()
    ensures Lacks([]) != {}
  {
    assert !Offers([], CONTRACT[0].operation);
    assert CONTRACT[0].name in Lacks([]);
  }

  lemma NoneWhole(servers: seq<Server>)
    requires NoneExposes(servers)
    ensures forall i :: !FirstWhole(servers, i)
  {
    LacksSomething();
    hide Lacks, Counts;
  }
}
