/** Whether the connectors a Codex runtime loaded can attach a plan to a ticket. */
module CapabilityProfile {
  import opened Text

  datatype Server = Server(name: string, authStatus: string, operations: seq<string>)

  datatype Surface = Surface(source: string, servers: seq<Server>)

  /** A workflow capability, and the one operation that satisfies it. */
  datatype Requirement = Requirement(name: string, operation: string)

  const CONTRACT: seq<Requirement> := [
    Requirement("ticket_read.named_issue", "get_issue"),
    Requirement("plan_retrieval.download_attachment", "get_attachment"),
    Requirement("plan_publication.prepare_markdown_attachment", "prepare_attachment_upload"),
    Requirement("plan_publication.finalize_markdown_attachment", "create_attachment_from_upload"),
    Requirement("ticket_mutation.update_issue_fields", "save_issue"),
    Requirement("ticket_mutation.update_issue_state", "save_issue"),
    Requirement("ticket_mutation.update_issue_metadata", "save_issue")]

  /** Operations that show a connector can do more than list and read. */
  const WRITE_OPERATIONS: seq<string> := [
    "prepare_attachment_upload", "upload_attachment", "create_attachment_from_upload", "finalize_attachment_upload",
    "save_issue", "update_issue"]

  datatype Diagnostic = Diagnostic(missing: seq<string>, provided: seq<string>, source: seq<string>)

  /** `Nothing` would be a response without an error and without a surface. */
  datatype Response = Ready(source: string, provided: seq<string>) | Unavailable(diagnostic: Diagnostic) | Nothing

  // ---- sorted sets of names

  function InsertName(name: string, names: seq<string>): seq<string> {
    if names == [] || Less(name, names[0]) then [name] + names
    else if name == names[0] then names
    else [names[0]] + InsertName(name, names[1..])
  }

  /** The non-empty names among the values, each once, in order. */
  function UniqueSorted(values: seq<string>): seq<string> {
    if values == [] then []
    else
      var n := |values| - 1;
      if values[n] == "" then UniqueSorted(values[..n]) else InsertName(values[n], UniqueSorted(values[..n]))
  }

  predicate Ascending(names: seq<string>) {
    forall i, j | 0 <= i < j < |names| :: Less(names[i], names[j])
  }

  lemma {:induction false} InsertAscending(name: string, names: seq<string>)
    requires Ascending(names)
    ensures Ascending(InsertName(name, names))
    ensures forall x :: x in InsertName(name, names) <==> x == name || x in names
  {
    if names != [] {
      LessTotal(name, names[0]);
      if Less(name, names[0]) {
        forall j | 0 <= j < |names| ensures Less(name, names[j]) {
          if j > 0 { LessTransitive(name, names[0], names[j]); }
        }
      } else if name != names[0] {
        InsertAscending(name, names[1..]);
        var rest := InsertName(name, names[1..]);
        forall j | 0 <= j < |rest| ensures Less(names[0], rest[j]) {
          assert rest[j] in rest;
          if rest[j] != name {
            var k :| 0 <= k < |names[1..]| && names[1..][k] == rest[j];
            assert names[k + 1] == rest[j];
          }
        }
        assert names == [names[0]] + names[1..];
      }
    }
  }

  lemma {:induction false} UniqueSortedIs(values: seq<string>)
    ensures Ascending(UniqueSorted(values))
    ensures forall x :: x in UniqueSorted(values) <==> x != "" && x in values
  {
    if values != [] {
      var n := |values| - 1;
      UniqueSortedIs(values[..n]);
      if values[n] != "" {
        InsertAscending(values[n], UniqueSorted(values[..n]));
      }
      assert values == values[..n] + [values[n]];
    }
  }

  method UniqueSortedNames(values: seq<string>) returns (names: seq<string>)
    ensures names == UniqueSorted(values)
  {
    names := [];
    for i := 0 to |values|
      invariant names == UniqueSorted(values[..i])
    {
      assert values[..i + 1][..i] == values[..i];
      if values[i] != "" {
        names := InsertName(values[i], names);
      }
    }
    assert values[..|values|] == values;
  }

  // ---- the matrix

  function Canonical(operation: string): string {
    Lower(TrimSpace(operation))
  }

  predicate Exposes(operations: seq<string>, operation: string) {
    exists i | 0 <= i < |operations| :: Canonical(operations[i]) == operation
  }

  /** The names of the leading `n` requirements that the operations satisfy, or do not. */
  function Names(operations: seq<string>, n: nat, satisfied: bool): seq<string>
    requires n <= |CONTRACT|
  {
    if n == 0 then []
    else
      Names(operations, n - 1, satisfied)
      + if Exposes(operations, CONTRACT[n - 1].operation) == satisfied then [CONTRACT[n - 1].name] else []
  }

  function Missing(operations: seq<string>): seq<string> {
    Names(operations, |CONTRACT|, false)
  }

  function Provided(operations: seq<string>): seq<string> {
    Names(operations, |CONTRACT|, true)
  }

  method TrackerPlanAttachmentMatrix(operations: seq<string>) returns (provided: seq<string>, missing: seq<string>)
    ensures provided == Provided(operations) && missing == Missing(operations)
  {
    var available: set<string> := {};
    for i := 0 to |operations|
      invariant forall x :: x in available <==> exists j | 0 <= j < i :: Canonical(operations[j]) == x
    {
      available := available + {Canonical(operations[i])};
    }
    provided, missing := [], [];
    for n := 0 to |CONTRACT|
      invariant provided == Names(operations, n, true) && missing == Names(operations, n, false)
    {
      if CONTRACT[n].operation in available {
        provided := provided + [CONTRACT[n].name];
      } else {
        missing := missing + [CONTRACT[n].name];
      }
    }
  }

  /** Every requirement has its operation. */
  predicate Meets(operations: seq<string>) {
    forall n | 0 <= n < |CONTRACT| :: Exposes(operations, CONTRACT[n].operation)
  }

  lemma {:induction false} MissingIs(operations: seq<string>, n: nat)
    requires n <= |CONTRACT|
    ensures Names(operations, n, false) == [] <==> forall k | 0 <= k < n :: Exposes(operations, CONTRACT[k].operation)
  {
    if n > 0 {
      MissingIs(operations, n - 1);
    }
  }

  // ---- the response

  predicate Linear(s: Server) {
    Contains(Lower(s.name), "linear")
  }

  predicate Authenticated(s: Server) {
    Lower(s.authStatus) in {"oauth", "bearertoken"}
  }

  function Where(servers: seq<Server>, keep: Server -> bool): seq<Server> {
    if servers == [] then []
    else
      var n := |servers| - 1;
      Where(servers[..n], keep) + if keep(servers[n]) then [servers[n]] else []
  }

  method LinearRuntimeServers(servers: seq<Server>) returns (r: seq<Server>)
    ensures r == Where(servers, Linear)
  {
    r := [];
    for i := 0 to |servers|
      invariant r == Where(servers[..i], Linear)
    {
      assert servers[..i + 1][..i] == servers[..i];
      if Linear(servers[i]) {
        r := r + [servers[i]];
      }
    }
    assert servers[..|servers|] == servers;
  }

  method AuthenticatedLinearRuntimeServers(servers: seq<Server>) returns (r: seq<Server>)
    ensures r == Where(servers, Authenticated)
  {
    r := [];
    for i := 0 to |servers|
      invariant r == Where(servers[..i], Authenticated)
    {
      assert servers[..i + 1][..i] == servers[..i];
      if Authenticated(servers[i]) {
        r := r + [servers[i]];
      }
    }
    assert servers[..|servers|] == servers;
  }

  lemma {:induction false} WhereIs(servers: seq<Server>, keep: Server -> bool)
    ensures forall s :: s in Where(servers, keep) <==> s in servers && keep(s)
  {
    if servers != [] {
      var n := |servers| - 1;
      WhereIs(servers[..n], keep);
      assert servers == servers[..n] + [servers[n]];
    }
  }

  function Usable(surface: Surface): seq<Server> {
    Where(Where(surface.servers, Linear), Authenticated)
  }

  function AllOperations(servers: seq<Server>): seq<string> {
    if servers == [] then []
    else AllOperations(servers[..|servers| - 1]) + servers[|servers| - 1].operations
  }

  predicate OnlyReads(operations: seq<string>) {
    operations != [] && forall i | 0 <= i < |operations| :: Canonical(operations[i]) !in WRITE_OPERATIONS
  }

  /** The first of the servers with the fewest requirements missing. */
  function Best(servers: seq<Server>): Server
    requires servers != []
  {
    var n := |servers| - 1;
    if n == 0 then servers[0]
    else
      var best := Best(servers[..n]);
      if |Missing(servers[n].operations)| < |Missing(best.operations)| then servers[n] else best
  }

  function Requirements(n: nat): seq<string>
    requires n <= |CONTRACT|
  {
    if n == 0 then [] else Requirements(n - 1) + [CONTRACT[n - 1].name]
  }

  function Sourced(workDirSet: bool, markers: seq<string>): seq<string> {
    if workDirSet then markers else ["preflight_work_dir_unset"] + markers
  }

  /** All requirements missing, for the reason the marker names. */
  function Rejected(workDirSet: bool, marker: string, source: string): Response {
    Unavailable(Diagnostic(UniqueSorted(Requirements(|CONTRACT|)), [],
        UniqueSorted(Sourced(workDirSet, [marker, source]))))
  }

  /** No single server meets the profile. */
  function Unmet(surface: Surface, servers: seq<Server>, workDirSet: bool): Response
    requires servers != []
  {
    var best := Best(servers);
    var split :=
      if Missing(AllOperations(servers)) == [] then ["connector_capabilities_split_across_runtime_surfaces"] else [];
    var listing := if OnlyReads(best.operations) then ["connector_restricted_to_list_read_operations"] else [];
    if Missing(best.operations) == [] then Nothing
    else
      Unavailable(Diagnostic(UniqueSorted(Missing(best.operations)),
                             UniqueSorted(UniqueSorted(Provided(best.operations) + best.operations)),
                             UniqueSorted(UniqueSorted(Sourced(workDirSet, [surface.source]) + split + listing))))
  }

  function FirstMeeting(servers: seq<Server>): (k: nat)
    ensures k <= |servers| && (k < |servers| ==> Missing(servers[k].operations) == [])
    ensures forall j | 0 <= j < k :: Missing(servers[j].operations) != []
  {
    if servers == [] then 0
    else
      var n := |servers| - 1;
      var k := FirstMeeting(servers[..n]);
      if k < n then k else if Missing(servers[n].operations) == [] then n else n + 1
  }

  function ProfileResponse(surface: Surface, workDirSet: bool): Response {
    var servers := Usable(surface);
    if Where(surface.servers, Linear) == [] then
      Rejected(workDirSet, "connector_plugin_disabled_or_missing", surface.source)
    else if servers == [] then Rejected(workDirSet, "connector_authentication_unavailable", surface.source)
    else if forall i | 0 <= i < |servers| :: servers[i].operations == [] then
      Rejected(workDirSet, "connector_declared_but_exposes_no_operations", surface.source)
    else if FirstMeeting(servers) < |servers| then
      Ready(surface.source, UniqueSorted(servers[FirstMeeting(servers)].operations))
    else Unmet(surface, servers, workDirSet)
  }

  method CapabilityProfileResponse(surface: Surface, workDirSet: bool) returns (r: Response)
    ensures r == ProfileResponse(surface, workDirSet)
  {
    hide Missing, Provided, UniqueSorted, Where, Requirements;
    var linear := LinearRuntimeServers(surface.servers);
    if |linear| == 0 {
      return Rejected(workDirSet, "connector_plugin_disabled_or_missing", surface.source);
    }
    var servers := AuthenticatedLinearRuntimeServers(linear);
    if |servers| == 0 {
      return Rejected(workDirSet, "connector_authentication_unavailable", surface.source);
    }
    if forall i | 0 <= i < |servers| :: servers[i].operations == [] {
      return Rejected(workDirSet, "connector_declared_but_exposes_no_operations", surface.source);
    }
    var best := servers[0];
    var bestProvided: seq<string>, bestMissing: seq<string> := [], [];
    var combined: seq<string> := [];
    for index := 0 to |servers|
      invariant FirstMeeting(servers[..index]) == index
      invariant index > 0 ==> best == Best(servers[..index])
      invariant index > 0 ==> bestProvided == Provided(best.operations) && bestMissing == Missing(best.operations)
      invariant combined == AllOperations(servers[..index])
    {
      var server := servers[index];
      assert servers[..index + 1][..index] == servers[..index];
      var provided, missing := TrackerPlanAttachmentMatrix(server.operations);
      if |missing| == 0 {
        FirstMeetingIs(servers, index);
        var names := UniqueSortedNames(server.operations);
        return Ready(surface.source, names);
      }
      if index == 0 || |missing| < |bestMissing| {
        best, bestProvided, bestMissing := server, provided, missing;
      }
      combined := combined + server.operations;
    }
    assert servers[..|servers|] == servers;
    r := Unmet(surface, servers, workDirSet);
  }

  lemma FirstMeetingIs(servers: seq<Server>, k: nat)
    requires k < |servers| && FirstMeeting(servers[..k]) == k && Missing(servers[k].operations) == []
    ensures FirstMeeting(servers) == k
  {
    hide Missing;
    assert forall j | 0 <= j < k :: servers[..k][j] == servers[j];
  }

  // ---- what a response means

  /** Some authenticated Linear connector exposes every required operation. */
  ghost predicate Met(surface: Surface) {
    exists s :: s in surface.servers && Linear(s) && Authenticated(s) && Meets(s.operations)
  }

  lemma UsableIs(surface: Surface)
    ensures forall s :: s in Usable(surface) <==> s in surface.servers && Linear(s) && Authenticated(s)
  {
    WhereIs(surface.servers, Linear);
    WhereIs(Where(surface.servers, Linear), Authenticated);
  }

  lemma MeetsIs(operations: seq<string>)
    ensures Missing(operations) == [] <==> Meets(operations)
  {
    MissingIs(operations, |CONTRACT|);
  }

  lemma MeetingHasOperations(operations: seq<string>)
    requires Meets(operations)
    ensures operations != []
  {
    assert Exposes(operations, CONTRACT[0].operation);
  }

  /** The runtime is ready exactly when the profile is met, whatever the target. */
  lemma ReadyMeansMet(surface: Surface, workDirSet: bool)
    ensures ProfileResponse(surface, workDirSet).Ready? <==> Met(surface)
  {
    var servers := Usable(surface);
    UsableIs(surface);
    var k := FirstMeeting(servers);
    hide Usable, Missing, Linear, Authenticated, Meets, UniqueSorted;
    NoneUsable(surface);
    if k < |servers| {
      MeetsIs(servers[k].operations);
      MeetingHasOperations(servers[k].operations);
      assert servers[k] in servers;
    }
    if s :| s in surface.servers && Linear(s) && Authenticated(s) && Meets(s.operations) {
      var j :| 0 <= j < |servers| && servers[j] == s;
      MeetsIs(s.operations);
    }
  }

  lemma NoneUsable(surface: Surface)
    ensures Where(surface.servers, Linear) == [] ==> Usable(surface) == []
  {
  }

  lemma {:induction false} BestFewest(servers: seq<Server>)
    requires servers != []
    ensures Best(servers) in servers
    ensures forall s | s in servers :: |Missing(Best(servers).operations)| <= |Missing(s.operations)|
  {
    var n := |servers| - 1;
    if n > 0 {
      BestFewest(servers[..n]);
    }
    assert servers == servers[..n] + [servers[n]];
  }

  lemma {:induction false} NamesOfContract(operations: seq<string>, n: nat, satisfied: bool, name: string)
    requires n <= |CONTRACT|
    ensures name in Names(operations, n, satisfied) <==>
            exists k | 0 <= k < n :: CONTRACT[k].name == name && Exposes(operations, CONTRACT[k].operation) == satisfied
  {
    if n > 0 {
      NamesOfContract(operations, n - 1, satisfied, name);
    }
  }

  lemma UnmetCase(surface: Surface, workDirSet: bool)
    requires !Met(surface)
    requires exists s :: s in Usable(surface) && s.operations != []
    ensures (var servers := Usable(surface);
             servers != [] && ProfileResponse(surface, workDirSet) == Unmet(surface, servers, workDirSet)
                 && Missing(Best(servers).operations) != [])
  {
    var servers := Usable(surface);
    ReadyMeansMet(surface, workDirSet);
    NoneUsable(surface);
    UsableIs(surface);
    BestFewest(servers);
    MeetsIs(Best(servers).operations);
    hide Best, UniqueSorted, Missing, Where, Usable, Linear, Authenticated, Meets, Unmet, Rejected;
    var s :| s in servers && s.operations != [];
    var i :| 0 <= i < |servers| && servers[i] == s;
  }

  lemma MissingNames(operations: seq<string>, name: string)
    ensures name in UniqueSorted(Missing(operations)) <==>
            exists k | 0 <= k < |CONTRACT| :: CONTRACT[k].name == name && !Exposes(operations, CONTRACT[k].operation)
    ensures Missing(operations) != [] ==> UniqueSorted(Missing(operations)) != []
  {
    var missing := Missing(operations);
    UniqueSortedIs(missing);
    NonEmptyNames();
    NamesOfContract(operations, |CONTRACT|, false, name);
    if missing != [] {
      NamesOfContract(operations, |CONTRACT|, false, missing[0]);
      assert missing[0] in missing && missing[0] in UniqueSorted(missing);
    }
  }

  /** A runtime that authenticated and exposes something, but is not ready, is told
      what the connector closest to the profile lacks: at least one requirement, and
      no more than any other connector lacks. */
  lemma UnmetNamesFewest(surface: Surface, workDirSet: bool, name: string)
    requires !Met(surface)
    requires exists s :: s in Usable(surface) && s.operations != []
    ensures (var best := Best(Usable(surface));
             && ProfileResponse(surface, workDirSet).Unavailable?
             && (var missing := ProfileResponse(surface, workDirSet).diagnostic.missing;
                 && missing != []
                 && (name in missing <==>
                       exists k | 0 <= k < |CONTRACT| :: CONTRACT[k].name == name
                           && !Exposes(best.operations, CONTRACT[k].operation))
                 && forall s | s in Usable(surface) :: |Missing(best.operations)| <= |Missing(s.operations)|))
  {
    UnmetCase(surface, workDirSet);
    var servers := Usable(surface);
    BestFewest(servers);
    MissingNames(Best(servers).operations, name);
    hide Best, UniqueSorted, Missing, Usable, Met, Exposes, ProfileResponse;
  }

  lemma NonEmptyNames()
    ensures forall k | 0 <= k < |CONTRACT| :: CONTRACT[k].name != ""
  {
  }
}
