/** The scan for a session's rollout: a walk over date-sharded directories that
    skips whole shards and unread files, and still finds exactly what a walk
    without any skipping finds. */
module RolloutScan {
  import opened Wrappers
  import opened Calendar
  import opened Newest

  datatype Meta = Meta(id: string, codexTui: bool, subagent: bool, sameDir: bool, timestamp: Option<Time>)

  /** A file's `mtime` is None when its info cannot be read, its `meta` when its
      first record cannot, and a `timestamp` when it is missing or unparseable. */
  datatype Node = File(name: string, mtime: Option<Time>, meta: Option<Meta>) | Dir(name: string, children: seq<Node>)

  /** A path below the sessions root, from its segments. */
  function JoinPath(segments: seq<string>): string {
    if segments == [] then ""
    else if |segments| == 1 then segments[0]
    else segments[0] + "/" + JoinPath(segments[1..])
  }

  /** Bounds on the session time; `ZERO_TIME` stands for no bound. */
  datatype Window = Window(notBefore: Time, notAfter: Time)

  const MTIME_SLACK := 24 * HOUR
  const SHARD_SLACK := 24 * HOUR

  // ---- shard directories

  predicate IsDigit(c: char) {
    '0' <= c <= '9'
  }

  function DecimalValue(s: string): (n: nat)
    requires forall i | 0 <= i < |s| :: IsDigit(s[i])
  {
    if s == [] then 0 else
      assert IsDigit(s[|s| - 1]);
      10 * DecimalValue(s[..|s| - 1]) + (s[|s| - 1] as int - '0' as int)
  }

  /** A zero-padded number of exactly `width` digits. */
  function ShardSegment(s: string, width: nat): Option<nat> {
    if |s| == width && forall i | 0 <= i < |s| :: IsDigit(s[i]) then Some(DecimalValue(s)) else None
  }

  method ParseShardSegment(segment: string, width: nat) returns (r: Option<nat>)
    ensures r == ShardSegment(segment, width)
  {
    if |segment| != width {
      return None;
    }
    var value := 0;
    var i := 0;
    while i < |segment|
      invariant i <= |segment|
      invariant forall j | 0 <= j < i :: IsDigit(segment[j])
      invariant value == DecimalValue(segment[..i])
    {
      var c := segment[i];
      if !IsDigit(c) {
        return None;
      }
      assert segment[..i + 1] == segment[..i] + [c];
      assert segment[..i + 1][..i] == segment[..i];
      value := value * 10 + (c as int - '0' as int);
      i := i + 1;
    }
    assert segment[..i] == segment;
    return Some(value);
  }

  function Year(dirs: seq<string>): Option<nat> {
    if |dirs| < 1 then None else ShardSegment(dirs[0], 4)
  }

  function Month(dirs: seq<string>): (r: Option<nat>)
    ensures r.Some? ==> 1 <= r.value <= 12
  {
    if |dirs| < 2 || Year(dirs).None? then None
    else
      var m :- ShardSegment(dirs[1], 2);
      if m < 1 || m > 12 then None else Some(m)
  }

  function MonthDay(dirs: seq<string>): (r: Option<nat>)
    ensures r.Some? ==> 1 <= r.value <= 31
  {
    if |dirs| < 3 || Month(dirs).None? then None
    else
      var d :- ShardSegment(dirs[2], 2);
      if d < 1 || d > 31 then None else Some(d)
  }

  /** Whether the directory's whole date range is older than the floor's day. */
  predicate ShardDirEndsBefore(dirs: seq<string>, floor: Time) {
    if |dirs| == 0 || |dirs| > 3 || Year(dirs).None? then false
    else
      var y := Year(dirs).value;
      var f := DateOf(DayOf(floor));
      if |dirs| == 1 then y < f.year
      else if Month(dirs).None? then false
      else
        var m := Month(dirs).value;
        if |dirs| == 2 then y < f.year || (y == f.year && m < f.month)
        else MonthDay(dirs).Some? && DateDay(y, m, MonthDay(dirs).value) < DateDay(f.year, f.month, f.day)
  }

  /** Whether the directory's whole date range is newer than the ceiling's day. */
  predicate ShardDirStartsAfter(dirs: seq<string>, ceiling: Time) {
    if |dirs| == 0 || |dirs| > 3 || Year(dirs).None? then false
    else
      var y := Year(dirs).value;
      var c := DateOf(DayOf(ceiling));
      if |dirs| == 1 then y > c.year
      else if Month(dirs).None? then false
      else
        var m := Month(dirs).value;
        if |dirs| == 2 then y > c.year || (y == c.year && m > c.month)
        else if MonthDay(dirs).None? then false
        else
          var d := MonthDay(dirs).value;
          DateOf(DateDay(y, m, d)) == Date(y, m, d) && DateDay(y, m, d) > DateDay(c.year, c.month, c.day)
  }

  predicate Pruned(dirs: seq<string>, w: Window) {
    || (w.notBefore != ZERO_TIME && ShardDirEndsBefore(dirs, w.notBefore - MTIME_SLACK - SHARD_SLACK))
    || (w.notAfter != ZERO_TIME && ShardDirStartsAfter(dirs, w.notAfter + SHARD_SLACK))
  }

  // ---- the walk

  const PREFIX := "rollout-"
  const SUFFIX := ".jsonl"

  predicate IsRolloutName(name: string) {
    |PREFIX| + |SUFFIX| <= |name| && PREFIX <= name && name[|name| - |SUFFIX|..] == SUFFIX
  }

  predicate Eligible(meta: Meta) {
    meta.id != "" && meta.codexTui && !meta.subagent && meta.sameDir
  }

  /** The start time a rollout records, or else its last write. */
  function SessionTime(mtime: Time, meta: Meta): Time {
    if meta.timestamp.Some? then meta.timestamp.value else mtime
  }

  predicate InWindow(t: Time, w: Window) {
    !(t < w.notBefore) && !(w.notAfter != ZERO_TIME && t > w.notAfter)
  }

  /** What one file contributes; with `prefilter`, too old an mtime rules it out unread. */
  function FileCandidates(f: Node, path: seq<string>, w: Window, prefilter: bool): seq<Candidate>
    requires f.File?
  {
    if !IsRolloutName(f.name) || f.mtime.None? then []
    else if prefilter && w.notBefore != ZERO_TIME && f.mtime.value < w.notBefore - MTIME_SLACK then []
    else if f.meta.None? || !Eligible(f.meta.value) then []
    else
      var t := SessionTime(f.mtime.value, f.meta.value);
      if InWindow(t, w) then [Candidate(f.meta.value.id, JoinPath(path), t)] else []
  }

  /** The candidates below a node, in walk order; only the pruned scan skips anything. */
  function Scan(n: Node, path: seq<string>, w: Window, prune: bool): seq<Candidate>
    decreases n, 1
  {
    if n.File? then FileCandidates(n, path, w, prune)
    else if prune && Pruned(path, w) then []
    else ScanAll(n.children, path, w, prune)
  }

  function ScanAll(ns: seq<Node>, path: seq<string>, w: Window, prune: bool): seq<Candidate>
    decreases ns, 0
  {
    if ns == [] then []
    else Scan(ns[0], path + [ns[0].name], w, prune) + ScanAll(ns[1..], path, w, prune)
  }

  method WalkDir(n: Node, path: seq<string>, w: Window) returns (candidates: seq<Candidate>)
    ensures candidates == Scan(n, path, w, true)
    decreases n
  {
    candidates := [];
    match n
    case File(name, mtime, meta) =>
      if !IsRolloutName(name) || mtime.None? {
        return;
      }
      if w.notBefore != ZERO_TIME && mtime.value < w.notBefore - MTIME_SLACK {
        return;
      }
      if meta.None? || !Eligible(meta.value) {
        return;
      }
      var t := SessionTime(mtime.value, meta.value);
      if t < w.notBefore {
        return;
      }
      if w.notAfter != ZERO_TIME && t > w.notAfter {
        return;
      }
      candidates := [Candidate(meta.value.id, JoinPath(path), t)];
    case Dir(_, children) =>
      if Pruned(path, w) {
        return;
      }
      var i := 0;
      assert children[0..] == children;
      while i < |children|
        invariant i <= |children|
        invariant ScanAll(children, path, w, true) == candidates + ScanAll(children[i..], path, w, true)
      {
        var found := WalkDir(children[i], path + [children[i].name], w);
        assert children[i..][1..] == children[i + 1..];
        assert candidates + (found + ScanAll(children[i + 1..], path, w, true))
               == (candidates + found) + ScanAll(children[i + 1..], path, w, true);
        candidates := candidates + found;
        i := i + 1;
      }
  }

  // ---- the dates a directory names

  datatype Days = Days(first: int, last: int)

  /** The days named by the recognised leading segments of a directory's path. */
  function Range(dirs: seq<string>): Option<Days> {
    if Year(dirs).None? then None
    else
      var y := Year(dirs).value;
      if Month(dirs).None? then Some(Days(DateDay(y, 1, 1), DateDay(y, 12, 31)))
      else
        var m := Month(dirs).value;
        if MonthDay(dirs).None? || !RealDate(y, m, MonthDay(dirs).value) then
          Some(Days(DateDay(y, m, 1), DateDay(y, m, MonthLen(y, m))))
        else
          var day := DateDay(y, m, MonthDay(dirs).value);
          Some(Days(day, day))
  }

  /** A deeper directory names no day outside its ancestor's. */
  lemma RangeShrinks(dirs: seq<string>, k: nat)
    requires k <= |dirs| && Range(dirs[..k]).Some?
    ensures Range(dirs).Some?
    ensures Range(dirs[..k]).value.first <= Range(dirs).value.first
    ensures Range(dirs).value.last <= Range(dirs[..k]).value.last
  {
    var y := Year(dirs).value;
    if Month(dirs).Some? {
      var m := Month(dirs).value;
      DateBounds(y, m, 1);
      if MonthDay(dirs).Some? && RealDate(y, m, MonthDay(dirs).value) {
        DateBounds(y, m, MonthDay(dirs).value);
      }
    }
  }

  lemma FloorDate(t: Time)
    ensures (var f := DateOf(DayOf(t));
             DateDay(f.year, f.month, f.day) == DayOf(t)
             && DateDay(f.year, 1, 1) <= DateDay(f.year, f.month, 1) <= DayOf(t)
             && DayOf(t) < DateDay(f.year, f.month, 1) + MonthLen(f.year, f.month)
             && DayOf(t) < DateDay(f.year, 1, 1) + YearLen(f.year)
             && DayOf(t) <= DateDay(f.year, 12, 31))
  {
    var f := DateOf(DayOf(t));
    DateBounds(f.year, f.month, f.day);
  }

  lemma YearBefore(y: int, z: int)
    requires y < z
    ensures DateDay(y, 12, 31) < DateDay(z, 1, 1)
  {
    YearOrder(y, z);
    MonthOrder(y, 12, 13);
  }

  lemma MonthBefore(y: int, m: int, n: int)
    requires 1 <= m < n <= 12
    ensures DateDay(y, m, MonthLen(y, m)) < DateDay(y, n, 1)
  {
    MonthOrder(y, m, n);
  }

  /** A directory is skipped as too old only if every day it names is. */
  lemma EndsBeforeRange(dirs: seq<string>, floor: Time)
    requires ShardDirEndsBefore(dirs, floor)
    ensures Range(dirs).Some? && Range(dirs).value.last < DayOf(floor)
  {
    hide YearStart, MonthStart, DateOf;
    FloorDate(floor);
    var y, f := Year(dirs).value, DateOf(DayOf(floor));
    if y < f.year {
      YearBefore(y, f.year);
    }
    if Month(dirs).Some? {
      var m := Month(dirs).value;
      DateBounds(y, m, 1);
      if y == f.year && m < f.month {
        MonthBefore(y, m, f.month);
      }
      LastOfMonth(y, m);
      if MonthDay(dirs).Some? {
        DayInMonth(y, m, MonthDay(dirs).value);
      }
    }
  }

  lemma LastOfMonth(y: int, m: int)
    requires 1 <= m <= 12
    ensures DateDay(y, m, MonthLen(y, m)) <= DateDay(y, 12, 31)
    ensures DateDay(y, 1, 1) <= DateDay(y, m, 1)
  {
    DateBounds(y, m, MonthLen(y, m));
  }

  lemma DayInMonth(y: int, m: int, d: int)
    requires 1 <= m <= 12 && d >= 1
    ensures !RealDate(y, m, d) ==> DateDay(y, m, MonthLen(y, m)) < DateDay(y, m, d)
    ensures DateDay(y, m, 1) <= DateDay(y, m, d)
  {
  }

  /** A directory is skipped as too new only if every day it names is. */
  lemma StartsAfterRange(dirs: seq<string>, ceiling: Time)
    requires ShardDirStartsAfter(dirs, ceiling)
    ensures Range(dirs).Some? && Range(dirs).value.first > DayOf(ceiling)
  {
    hide YearStart, MonthStart, DateOf;
    FloorDate(ceiling);
    var y, c := Year(dirs).value, DateOf(DayOf(ceiling));
    if c.year < y {
      YearBefore(c.year, y);
    }
    if Month(dirs).Some? {
      var m := Month(dirs).value;
      LastOfMonth(y, m);
      if y == c.year && c.month < m {
        LastDay(ceiling);
        MonthBefore(y, c.month, m);
      }
      if MonthDay(dirs).Some? {
        DayInMonth(y, m, MonthDay(dirs).value);
      }
    }
  }

  lemma LastDay(t: Time)
    ensures (var f := DateOf(DayOf(t)); DayOf(t) <= DateDay(f.year, f.month, MonthLen(f.year, f.month)))
  {
    var f := DateOf(DayOf(t));
    DateBounds(f.year, f.month, f.day);
  }

  // ---- pruning at every level, compared

  /** Skipping a year as too old is skipping exactly when every real day below it would be. */
  lemma YearTooOld(dirs: seq<string>, floor: Time)
    requires |dirs| == 1 && Year(dirs).Some?
    ensures ShardDirEndsBefore(dirs, floor)
       <==> forall m: int, d: int | RealDate(Year(dirs).value, m, d) :: DateDay(Year(dirs).value, m, d) < DayOf(floor)
  {
    hide YearStart, MonthStart, DateOf;
    FloorDate(floor);
    var y, f := Year(dirs).value, DateOf(DayOf(floor));
    if y < f.year {
      YearBefore(y, f.year);
      forall m: int, d: int | RealDate(y, m, d) ensures DateDay(y, m, d) < DayOf(floor) {
        DateBounds(y, m, d);
      }
    } else {
      December(y);
      assert RealDate(y, 12, 31);
      if f.year < y {
        YearBefore(f.year, y);
        DateBounds(y, 12, 31);
      }
    }
  }

  lemma December(y: int)
    ensures MonthLen(y, 12) == 31 && MonthLen(y, 1) == 31
  {
  }

  /** The same of a year skipped as too new. */
  lemma YearTooNew(dirs: seq<string>, ceiling: Time)
    requires |dirs| == 1 && Year(dirs).Some?
    ensures ShardDirStartsAfter(dirs, ceiling)
       <==> forall m: int, d: int | RealDate(Year(dirs).value, m, d) :: DateDay(Year(dirs).value, m, d) > DayOf(ceiling)
  {
    hide YearStart, MonthStart, DateOf;
    FloorDate(ceiling);
    var y, c := Year(dirs).value, DateOf(DayOf(ceiling));
    if c.year < y {
      YearBefore(c.year, y);
      forall m: int, d: int | RealDate(y, m, d) ensures DateDay(y, m, d) > DayOf(ceiling) {
        DateBounds(y, m, d);
      }
    } else {
      December(y);
      assert RealDate(y, 1, 1);
      if y < c.year {
        YearBefore(y, c.year);
        DateBounds(y, 1, 1);
      }
    }
  }

  predicate NamesMonth(dirs: seq<string>) {
    |dirs| == 2 && Month(dirs).Some?
  }

  /** The same of a month, on either side. */
  lemma MonthTooOld(dirs: seq<string>, floor: Time)
    requires NamesMonth(dirs)
    ensures ShardDirEndsBefore(dirs, floor)
       <==> forall d: int | RealDate(Year(dirs).value, Month(dirs).value, d) ::
         DateDay(Year(dirs).value, Month(dirs).value, d) < DayOf(floor)
  {
    hide YearStart, MonthStart, DateOf;
    FloorDate(floor);
    LastDay(floor);
    var y, m, f := Year(dirs).value, Month(dirs).value, DateOf(DayOf(floor));
    var n := MonthLen(y, m);
    assert RealDate(y, m, n);
    DateBounds(y, m, n);
    if y < f.year {
      YearBefore(y, f.year);
    } else if y == f.year && m < f.month {
      MonthBefore(y, m, f.month);
    } else if y == f.year && f.month < m {
      MonthBefore(y, f.month, m);
    } else if f.year < y {
      YearBefore(f.year, y);
    }
    forall d: int | RealDate(y, m, d) ensures DateDay(y, m, d) <= DateDay(y, m, n) {
      DateBounds(y, m, d);
    }
  }

  lemma MonthTooNew(dirs: seq<string>, ceiling: Time)
    requires NamesMonth(dirs)
    ensures ShardDirStartsAfter(dirs, ceiling)
       <==> forall d: int | RealDate(Year(dirs).value, Month(dirs).value, d) ::
         DateDay(Year(dirs).value, Month(dirs).value, d) > DayOf(ceiling)
  {
    hide YearStart, MonthStart, DateOf;
    FloorDate(ceiling);
    LastDay(ceiling);
    var y, m, c := Year(dirs).value, Month(dirs).value, DateOf(DayOf(ceiling));
    assert RealDate(y, m, 1);
    DateBounds(y, m, 1);
    if c.year < y {
      YearBefore(c.year, y);
    } else if y == c.year && c.month < m {
      MonthBefore(y, c.month, m);
    } else if y == c.year && m < c.month {
      MonthBefore(y, m, c.month);
    } else if y < c.year {
      YearBefore(y, c.year);
    }
    forall d: int | RealDate(y, m, d) ensures DateDay(y, m, 1) <= DateDay(y, m, d) {
      DateBounds(y, m, d);
    }
  }

  /** An impossible date is never what makes the scan skip: too new never holds of
      it, and too old only where its month is already skipped. */
  lemma ImpossibleDate(dirs: seq<string>, t: Time)
    requires |dirs| == 3 && MonthDay(dirs).Some? && !RealDate(Year(dirs).value, Month(dirs).value, MonthDay(dirs).value)
    ensures !ShardDirStartsAfter(dirs, t)
    ensures ShardDirEndsBefore(dirs, t) ==> ShardDirEndsBefore(dirs[..2], t)
  {
    hide YearStart, MonthStart, DateOf;
    var y, m, d := Year(dirs).value, Month(dirs).value, MonthDay(dirs).value;
    assert Year(dirs[..2]) == Year(dirs) && Month(dirs[..2]) == Month(dirs);
    MonthTooOld(dirs[..2], t);
    FloorDate(t);
    forall e: int | RealDate(y, m, e) ensures DateDay(y, m, e) < DateDay(y, m, d) {
      DayInMonth(y, m, d);
      DateBounds(y, m, e);
    }
  }

  // ---- which directories are skipped on the way to a file

  predicate SkippedOld(dirs: seq<string>, floor: Time) {
    exists k | 0 <= k <= |dirs| :: ShardDirEndsBefore(dirs[..k], floor)
  }

  predicate SkippedNew(dirs: seq<string>, ceiling: Time) {
    exists k | 0 <= k <= |dirs| :: ShardDirStartsAfter(dirs[..k], ceiling)
  }

  lemma SameSegments(dirs: seq<string>, k: nat)
    requires k <= |dirs|
    ensures k >= 1 ==> Year(dirs[..k]) == Year(dirs)
    ensures k >= 2 ==> Month(dirs[..k]) == Month(dirs)
    ensures k >= 3 ==> MonthDay(dirs[..k]) == MonthDay(dirs)
  {
  }

  /** A file's directory or one above it is skipped as too old exactly when all days
      the whole path names are. */
  lemma SkippedOldIs(dirs: seq<string>, floor: Time)
    ensures SkippedOld(dirs, floor) <==> Range(dirs).Some? && Range(dirs).value.last < DayOf(floor)
  {
    if SkippedOld(dirs, floor) {
      var k :| 0 <= k <= |dirs| && ShardDirEndsBefore(dirs[..k], floor);
      hide ShardDirEndsBefore, Range;
      EndsBeforeRange(dirs[..k], floor);
      RangeShrinks(dirs, k);
    } else if Range(dirs).Some? && Range(dirs).value.last < DayOf(floor) {
      OldIsSkipped(dirs, floor);
    }
  }

  lemma OldIsSkipped(dirs: seq<string>, floor: Time)
    requires Range(dirs).Some? && Range(dirs).value.last < DayOf(floor)
    ensures SkippedOld(dirs, floor)
  {
    hide YearStart, MonthStart, DateOf, DateDay, ShardSegment, DayOf;
    FloorDate(floor);
    LastDay(floor);
    var y, f := Year(dirs).value, DateOf(DayOf(floor));
    SameSegments(dirs, 1);
    if Month(dirs).None? {
      if f.year < y { YearBefore(f.year, y); YearSpan(y); }
      assert ShardDirEndsBefore(dirs[..1], floor);
    } else {
      var m := Month(dirs).value;
      SameSegments(dirs, 2);
      if MonthDay(dirs).Some? && RealDate(y, m, MonthDay(dirs).value) {
        SameSegments(dirs, 3);
        assert ShardDirEndsBefore(dirs[..3], floor);
      } else {
        LastOfMonth(y, m);
        FirstOfMonth(y, m);
        if f.year < y { YearBefore(f.year, y); }
        if f.year == y && f.month < m { MonthBefore(y, f.month, m); }
        assert ShardDirEndsBefore(dirs[..2], floor);
      }
    }
  }

  lemma YearSpan(y: int)
    ensures DateDay(y, 1, 1) <= DateDay(y, 12, 31)
  {
    December(y);
    DateBounds(y, 12, 31);
  }

  lemma FirstOfMonth(y: int, m: int)
    requires 1 <= m <= 12
    ensures DateDay(y, m, 1) <= DateDay(y, m, MonthLen(y, m))
  {
  }

  /** And as too new exactly when all of them are. */
  lemma SkippedNewIs(dirs: seq<string>, ceiling: Time)
    ensures SkippedNew(dirs, ceiling) <==> Range(dirs).Some? && Range(dirs).value.first > DayOf(ceiling)
  {
    if SkippedNew(dirs, ceiling) {
      var k :| 0 <= k <= |dirs| && ShardDirStartsAfter(dirs[..k], ceiling);
      hide ShardDirStartsAfter, Range;
      StartsAfterRange(dirs[..k], ceiling);
      RangeShrinks(dirs, k);
    } else if Range(dirs).Some? && Range(dirs).value.first > DayOf(ceiling) {
      NewIsSkipped(dirs, ceiling);
    }
  }

  lemma NewIsSkipped(dirs: seq<string>, ceiling: Time)
    requires Range(dirs).Some? && Range(dirs).value.first > DayOf(ceiling)
    ensures SkippedNew(dirs, ceiling)
  {
    hide YearStart, MonthStart, DateOf, DateDay, ShardSegment, DayOf;
    FloorDate(ceiling);
    LastDay(ceiling);
    var y, c := Year(dirs).value, DateOf(DayOf(ceiling));
    SameSegments(dirs, 1);
    if Month(dirs).None? {
      if y < c.year { YearBefore(y, c.year); YearSpan(y); }
      assert ShardDirStartsAfter(dirs[..1], ceiling);
    } else {
      var m := Month(dirs).value;
      SameSegments(dirs, 2);
      if MonthDay(dirs).Some? && RealDate(y, m, MonthDay(dirs).value) {
        SameSegments(dirs, 3);
        DateOfDay(y, m, MonthDay(dirs).value);
        assert ShardDirStartsAfter(dirs[..3], ceiling);
      } else {
        LastOfMonth(y, m);
        FirstOfMonth(y, m);
        if y < c.year { YearBefore(y, c.year); }
        if y == c.year && m < c.month { MonthBefore(y, m, c.month); }
        assert ShardDirStartsAfter(dirs[..2], ceiling);
      }
    }
  }

  /** The scan turns back somewhere on the way to a file. */
  predicate Skipped(dirs: seq<string>, w: Window) {
    exists k | 0 <= k <= |dirs| :: Pruned(dirs[..k], w)
  }

  lemma SkippedSides(dirs: seq<string>, w: Window)
    ensures Skipped(dirs, w) <==>
            || (w.notBefore != ZERO_TIME && SkippedOld(dirs, w.notBefore - MTIME_SLACK - SHARD_SLACK))
            || (w.notAfter != ZERO_TIME && SkippedNew(dirs, w.notAfter + SHARD_SLACK))
  {
    hide ShardDirEndsBefore, ShardDirStartsAfter;
    var floor, ceiling := w.notBefore - MTIME_SLACK - SHARD_SLACK, w.notAfter + SHARD_SLACK;
    if w.notBefore != ZERO_TIME && SkippedOld(dirs, floor) {
      var k :| 0 <= k <= |dirs| && ShardDirEndsBefore(dirs[..k], floor);
      assert Pruned(dirs[..k], w);
    }
    if w.notAfter != ZERO_TIME && SkippedNew(dirs, ceiling) {
      var k :| 0 <= k <= |dirs| && ShardDirStartsAfter(dirs[..k], ceiling);
      assert Pruned(dirs[..k], w);
    }
  }

  /** It does exactly when the path's days all lie more than two days before the
      lower bound's day, or more than one after the upper bound's. */
  lemma SkippedIs(dirs: seq<string>, w: Window)
    ensures Skipped(dirs, w) <==>
            && Range(dirs).Some?
            && (|| (w.notBefore != ZERO_TIME && Range(dirs).value.last < DayOf(w.notBefore) - 2)
                || (w.notAfter != ZERO_TIME && Range(dirs).value.first > DayOf(w.notAfter) + 1))
  {
    var floor, ceiling := w.notBefore - MTIME_SLACK - SHARD_SLACK, w.notAfter + SHARD_SLACK;
    SkippedSides(dirs, w);
    SkippedOldIs(dirs, floor);
    SkippedNewIs(dirs, ceiling);
    assert floor == w.notBefore + -2 * DAY && ceiling == w.notAfter + 1 * DAY;
    DayShift(w.notBefore, -2);
    DayShift(w.notAfter, 1);
    hide Skipped, SkippedOld, SkippedNew, Range, DayOf;
  }

  // ---- when a file is missed

  /** The latest lower bound, and the earliest upper bound, that let a time in: the
      zero time stands for no bound, so it is passed by. */
  function LatestFloor(t: Time): Time {
    if t == ZERO_TIME then t - 1 else t
  }

  function EarliestCeiling(t: Time): Time {
    if t == ZERO_TIME then t + 1 else t
  }

  /** What the scan relies on of one file, all of it on the file and its path: the
      session time lies from one day before the days its directories name to two
      days after them, and at most a day past the last write. */
  predicate Fits(f: Node, dirs: seq<string>)
    requires f.File?
  {
    IsRolloutName(f.name) && f.mtime.Some? && f.meta.Some? && Eligible(f.meta.value) ==>
      var t := SessionTime(f.mtime.value, f.meta.value);
      && LatestFloor(t) <= f.mtime.value + MTIME_SLACK
      && (Range(dirs).Some? ==>
            && Range(dirs).value.first - 1 <= DayOf(EarliestCeiling(t))
            && DayOf(LatestFloor(t)) <= Range(dirs).value.last + 2)
  }

  predicate AllFit(n: Node, dirs: seq<string>)
    decreases n, 1
  {
    if n.File? then Fits(n, dirs) else AllFitIn(n.children, dirs)
  }

  /** `dirs` is the path of the directory that holds these nodes. */
  predicate AllFitIn(ns: seq<Node>, dirs: seq<string>)
    decreases ns, 0
  {
    ns == [] || (AllFit(ns[0], Holding(ns[0], dirs)) && AllFitIn(ns[1..], dirs))
  }

  function Holding(n: Node, dirs: seq<string>): seq<string> {
    if n.File? then dirs else dirs + [n.name]
  }

  /** The plain scan counts a file that the pruned one skips over or leaves unread. */
  predicate Missed(f: Node, dirs: seq<string>, w: Window)
    requires f.File?
  {
    FileCandidates(f, [], w, false) != [] && (Skipped(dirs, w) || FileCandidates(f, [], w, true) == [])
  }

  lemma BoundsOrder(t: Time, w: Window)
    requires InWindow(t, w)
    ensures w.notBefore != ZERO_TIME ==> w.notBefore <= LatestFloor(t) && DayOf(w.notBefore) <= DayOf(LatestFloor(t))
    ensures w.notAfter != ZERO_TIME ==>
              EarliestCeiling(t) <= w.notAfter && DayOf(EarliestCeiling(t)) <= DayOf(w.notAfter)
  {
    DayOrder(w.notBefore, LatestFloor(t));
    DayOrder(EarliestCeiling(t), w.notAfter);
  }

  /** A file that fits is missed in no window. */
  lemma FitIsNotMissed(f: Node, dirs: seq<string>, w: Window)
    requires f.File? && Fits(f, dirs)
    ensures !Missed(f, dirs, w)
  {
    if FileCandidates(f, [], w, false) != [] {
      var t := SessionTime(f.mtime.value, f.meta.value);
      BoundsOrder(t, w);
      SkippedIs(dirs, w);
      hide Range, DayOf, Skipped;
    }
  }

  /** One that does not is missed in the narrowest window around its session time. */
  lemma UnfitIsMissed(f: Node, dirs: seq<string>) returns (w: Window)
    requires f.File? && !Fits(f, dirs)
    ensures Missed(f, dirs, w)
  {
    var t := SessionTime(f.mtime.value, f.meta.value);
    w := Window(LatestFloor(t), EarliestCeiling(t));
    SkippedIs(dirs, w);
    hide Range, DayOf, Skipped;
  }

  // ---- the pruned scan is the plain scan

  lemma PathIrrelevant(f: Node, path: seq<string>, w: Window, prefilter: bool)
    requires f.File?
    ensures FileCandidates(f, path, w, prefilter) == [] <==> FileCandidates(f, [], w, prefilter) == []
    ensures FileCandidates(f, path, w, true) != [] ==>
              FileCandidates(f, path, w, true) == FileCandidates(f, path, w, false)
    ensures |FileCandidates(f, path, w, prefilter)| <= 1
  {
  }

  /** Below a skipped directory the plain scan finds nothing. */
  lemma {:induction false} NothingBelow(n: Node, dirs: seq<string>, path: seq<string>, k: nat, w: Window)
    requires AllFit(n, dirs) && (n.Dir? ==> path == dirs) && k <= |dirs| && Pruned(dirs[..k], w)
    ensures Scan(n, path, w, false) == []
    decreases n, 1
  {
    hide Pruned, Fits, FileCandidates;
    if n.File? {
      FitIsNotMissed(n, dirs, w);
      PathIrrelevant(n, path, w, false);
      assert Skipped(dirs, w);
    } else {
      NothingIn(n.children, dirs, k, w);
    }
  }

  lemma {:induction false} NothingIn(ns: seq<Node>, dirs: seq<string>, k: nat, w: Window)
    requires AllFitIn(ns, dirs) && k <= |dirs| && Pruned(dirs[..k], w)
    ensures ScanAll(ns, dirs, w, false) == []
    decreases ns, 0
  {
    hide Pruned, Fits;
    if ns != [] {
      var n := ns[0];
      assert (dirs + [n.name])[..k] == dirs[..k];
      NothingBelow(n, Holding(n, dirs), dirs + [n.name], k, w);
      NothingIn(ns[1..], dirs, k, w);
    }
  }

  lemma {:induction false} FitScan(n: Node, dirs: seq<string>, path: seq<string>, w: Window)
    requires AllFit(n, dirs) && (n.Dir? ==> path == dirs)
    ensures Scan(n, path, w, true) == Scan(n, path, w, false)
    decreases n, 1
  {
    hide Pruned, Fits, FileCandidates;
    if n.File? {
      FitIsNotMissed(n, dirs, w);
      PathIrrelevant(n, path, w, false);
      PathIrrelevant(n, path, w, true);
    } else if Pruned(path, w) {
      assert dirs[..|dirs|] == dirs;
      NothingBelow(n, dirs, path, |dirs|, w);
    } else {
      FitScanIn(n.children, dirs, w);
    }
  }

  lemma {:induction false} FitScanIn(ns: seq<Node>, dirs: seq<string>, w: Window)
    requires AllFitIn(ns, dirs)
    ensures ScanAll(ns, dirs, w, true) == ScanAll(ns, dirs, w, false)
    decreases ns, 0
  {
    hide Pruned, Fits;
    if ns != [] {
      var n := ns[0];
      FitScan(n, Holding(n, dirs), dirs + [n.name], w);
      FitScanIn(ns[1..], dirs, w);
    }
  }

  predicate SomeMissed(n: Node, dirs: seq<string>, w: Window)
    decreases n, 1
  {
    if n.File? then Missed(n, dirs, w) else SomeMissedIn(n.children, dirs, w)
  }

  predicate SomeMissedIn(ns: seq<Node>, dirs: seq<string>, w: Window)
    decreases ns, 0
  {
    ns != [] && (SomeMissed(ns[0], Holding(ns[0], dirs), w) || SomeMissedIn(ns[1..], dirs, w))
  }

  lemma {:induction false} UnfitSomeMissed(n: Node, dirs: seq<string>) returns (w: Window)
    requires !AllFit(n, dirs)
    ensures SomeMissed(n, dirs, w)
    decreases n, 1
  {
    hide Fits, Missed;
    if n.File? {
      w := UnfitIsMissed(n, dirs);
    } else {
      w := UnfitSomeMissedIn(n.children, dirs);
    }
  }

  lemma {:induction false} UnfitSomeMissedIn(ns: seq<Node>, dirs: seq<string>) returns (w: Window)
    requires !AllFitIn(ns, dirs)
    ensures SomeMissedIn(ns, dirs, w)
    decreases ns, 0
  {
    hide Fits, Missed;
    if !AllFit(ns[0], Holding(ns[0], dirs)) {
      w := UnfitSomeMissed(ns[0], Holding(ns[0], dirs));
    } else {
      w := UnfitSomeMissedIn(ns[1..], dirs);
    }
  }

  /** The pruned scan never finds more, and with a missed file finds less, wherever
      it has not turned back before. */
  lemma {:induction false} MissedIsLost(n: Node, dirs: seq<string>, path: seq<string>, w: Window)
    requires n.Dir? ==> path == dirs
    ensures |Scan(n, path, w, true)| <= |Scan(n, path, w, false)|
    ensures SomeMissed(n, dirs, w) ==> Scan(n, path, w, false) != []
    ensures && SomeMissed(n, dirs, w)
            && (forall k | 0 <= k < |dirs| + (if n.File? then 1 else 0) :: !Pruned(dirs[..k], w)) ==>
              |Scan(n, path, w, true)| < |Scan(n, path, w, false)|
    decreases n, 1
  {
    hide Pruned, FileCandidates;
    if n.File? {
      PathIrrelevant(n, path, w, false);
      PathIrrelevant(n, path, w, true);
    } else {
      assert dirs[..|dirs|] == dirs;
      MissedIsLostIn(n.children, dirs, w);
    }
  }

  lemma {:induction false} MissedIsLostIn(ns: seq<Node>, dirs: seq<string>, w: Window)
    ensures |ScanAll(ns, dirs, w, true)| <= |ScanAll(ns, dirs, w, false)|
    ensures SomeMissedIn(ns, dirs, w) ==> ScanAll(ns, dirs, w, false) != []
    ensures SomeMissedIn(ns, dirs, w) && (forall k | 0 <= k <= |dirs| :: !Pruned(dirs[..k], w)) ==>
              |ScanAll(ns, dirs, w, true)| < |ScanAll(ns, dirs, w, false)|
    decreases ns, 0
  {
    hide Pruned, Missed;
    if ns != [] {
      var n := ns[0];
      assert forall k | 0 <= k <= |dirs| :: (dirs + [n.name])[..k] == dirs[..k];
      MissedIsLost(n, Holding(n, dirs), dirs + [n.name], w);
      MissedIsLostIn(ns[1..], dirs, w);
    }
  }

  /** The pruned scan returns the plain scan's candidates, in the same order and in
      every window, exactly when every file fits. */
  lemma PrunedIsPlain(root: Node)
    ensures (forall w :: Scan(root, [], w, true) == Scan(root, [], w, false)) <==> AllFit(root, [])
  {
    hide Scan, AllFit, SomeMissed;
    if AllFit(root, []) {
      forall w ensures Scan(root, [], w, true) == Scan(root, [], w, false) {
        FitScan(root, [], [], w);
      }
    } else {
      var w := UnfitSomeMissed(root, []);
      RootNotPruned(w);
      var top: seq<string> := [];
      assert top[..0] == top;
      MissedIsLost(root, top, top, w);
    }
  }

  lemma RootNotPruned(w: Window)
    ensures !Pruned([], w)
  {
  }

  // ---- what was measured, and what it leaves out

  /** Within one day of the dates the directory names. */
  predicate Near(dirs: seq<string>, day: int) {
    Range(dirs).Some? ==> Range(dirs).value.first - 1 <= day <= Range(dirs).value.last + 1
  }

  /** A session started near its directories' dates and no later than its last write. */
  predicate StartedNear(f: Node, dirs: seq<string>, start: Time) {
    f.File? && f.mtime.Some? && Near(dirs, DayOf(start)) && start <= f.mtime.value
  }

  /** With that start on record the file fits. */
  lemma OnRecordFits(f: Node, dirs: seq<string>, start: Time)
    requires StartedNear(f, dirs, start) && (f.meta.Some? ==> f.meta.value.timestamp == Some(start))
    ensures Fits(f, dirs)
  {
    DayOrder(LatestFloor(start), start);
    DayOrder(start, EarliestCeiling(start));
    hide Range, DayOf;
  }

  /** With no start on record it fits exactly if its last write is near enough too. */
  lemma UnrecordedFits(f: Node, dirs: seq<string>, start: Time)
    requires StartedNear(f, dirs, start) && IsRolloutName(f.name) && f.meta.Some? && Eligible(f.meta.value)
    requires f.meta.value.timestamp == None
    ensures Fits(f, dirs) <==> (Range(dirs).Some? ==> DayOf(LatestFloor(f.mtime.value)) <= Range(dirs).value.last + 2)
  {
    DayOrder(start, f.mtime.value);
    DayOrder(f.mtime.value, EarliestCeiling(f.mtime.value));
    hide Range, DayOf;
  }

  lemma January2020()
    ensures Year(["2020"]) == Some(2020) && Year(["2020", "01"]) == Some(2020) && Month(["2020", "01"]) == Some(1)
  {
    var y, m := "2020", "01";
    assert y[..3] == "202" && y[..3][..2] == "20" && y[..3][..2][..1] == "2";
    assert DecimalValue("2") == 2 && DecimalValue("20") == 20 && DecimalValue("202") == 202;
    assert m[..1] == "0" && DecimalValue("0") == 0;
  }

  /** Why the start must be on record: a session started in January 2020 without a
      readable timestamp, still written to a year later, is in the window by its
      last write, and the pruned scan never reaches it. */
  lemma UnreadableStartMissed()
    ensures (var t: Time := DateDay(2021, 1, 1) * DAY;
             var f := File("rollout-x.jsonl", Some(t), Some(Meta("x", true, false, true, None)));
             var n := Dir("", [Dir("2020", [Dir("01", [f])])]);
             var w := Window(t, ZERO_TIME);
             && StartedNear(f, ["2020", "01"], DateDay(2020, 1, 1) * DAY) && !AllFit(n, [])
             && Scan(n, [], w, false) == [Candidate("x", JoinPath(["2020", "01", "rollout-x.jsonl"]), t)]
             && Scan(n, [], w, true) == [])
  {
    var t: Time := DateDay(2021, 1, 1) * DAY;
    var f := File("rollout-x.jsonl", Some(t), Some(Meta("x", true, false, true, None)));
    var month := Dir("01", [f]);
    var year := Dir("2020", [month]);
    var w := Window(t, ZERO_TIME);
    StillWritten(f, t);
    JanuaryPruned(w);
    LastWriteInWindow(t, ["2020", "01", f.name]);
    assert ["2020"] + ["01"] == ["2020", "01"] && ["2020", "01"] + [f.name] == ["2020", "01", f.name]
           && [] + ["2020"] == ["2020"];
    hide *;
    OneChild("01", f, ["2020", "01"], w, false);
    OneChild("2020", month, ["2020"], w, false);
    OneChild("", year, [], w, false);
    OneChild("01", f, ["2020", "01"], w, true);
    OneChild("2020", month, ["2020"], w, true);
    OneChild("", year, [], w, true);
    LostIsUnfit(Dir("", [year]), w);
  }

  lemma LostIsUnfit(root: Node, w: Window)
    requires Scan(root, [], w, true) == [] != Scan(root, [], w, false)
    ensures !AllFit(root, [])
  {
    PrunedIsPlain(root);
  }

  /** A lower bound a year on skips the month, though not its year. */
  lemma JanuaryPruned(w: Window)
    requires w == Window(DateDay(2021, 1, 1) * DAY, ZERO_TIME)
    ensures w.notBefore != ZERO_TIME && Pruned(["2020", "01"], w) && !Pruned(["2020"], w) && !Pruned([], w)
  {
    var floor := w.notBefore - MTIME_SLACK - SHARD_SLACK;
    January2020();
    assert DayOf(floor) == DateDay(2020, 12, 30);
    DateOfDay(2020, 12, 30);
    hide DateOf, DateDay, Year, Month, MonthDay;
    assert ShardDirEndsBefore(["2020", "01"], floor) && !ShardDirEndsBefore(["2020"], floor)
           && !ShardDirEndsBefore([], floor);
  }

  lemma StillWritten(f: Node, t: Time)
    requires f.File? && f.mtime == Some(t) && t == DateDay(2021, 1, 1) * DAY
    ensures StartedNear(f, ["2020", "01"], DateDay(2020, 1, 1) * DAY)
  {
    var day := DateDay(2020, 1, 1);
    hide Near, DateDay, DayOf, YearStart;
    StartedInMonth();
    DayStart(day);
    YearAfter();
  }

  lemma YearAfter()
    ensures DateDay(2020, 1, 1) <= DateDay(2021, 1, 1)
  {
    YearOrder(2020, 2021);
  }

  lemma OneChild(name: string, n: Node, path: seq<string>, w: Window, prune: bool)
    ensures Scan(Dir(name, [n]), path, w, prune) == if prune && Pruned(path, w) then []
            else Scan(n, path + [n.name], w, prune)
  {
    hide Pruned;
    var c := Scan(n, path + [n.name], w, prune);
    assert [n][1..] == [];
    assert ScanAll([n], path, w, prune) == c + ScanAll([n][1..], path, w, prune) == c + [];
    assert c + [] == c;
    assert Dir(name, [n]).children == [n];
  }

  /** A rollout without a readable start counts by its last write. */
  lemma LastWriteInWindow(t: Time, path: seq<string>)
    ensures (var f := File("rollout-x.jsonl", Some(t), Some(Meta("x", true, false, true, None)));
             Scan(f, path, Window(t, ZERO_TIME), false) == [Candidate("x", JoinPath(path), t)])
  {
    assert "rollout-x.jsonl"[9..] == SUFFIX;
  }

  lemma StartedInMonth()
    ensures Near(["2020", "01"], DateDay(2020, 1, 1))
  {
    January2020();
  }
}
