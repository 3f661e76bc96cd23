/** The memo that spares re-reading a transcript whose size and time have not moved,
    with any number of probes at work on files that change meanwhile. */
module ProgressMemo {
  import opened Wrappers
  import opened Calendar
  import opened ProgressTail

  const CACHE_LIMIT: nat := 512

  datatype Entry = Entry(size: nat, modTime: Time, snap: Snapshot)

  /** A stat of a regular file with something in it; anything else reads as None. */
  datatype Stat = Stat(size: nat, modTime: Time)

  predicate Matches(e: Entry, st: Stat) {
    e.size == st.size && e.modTime == st.modTime
  }

  /** Exactly as many entries go as bring the memo below its limit. */
  predicate MakesRoom(cache: map<string, Entry>, dropped: set<string>) {
    dropped <= cache.Keys && |dropped| == if |cache| >= CACHE_LIMIT then |cache| - CACHE_LIMIT + 1 else 0
  }

  lemma Inhabited(cache: map<string, Entry>)
    requires |cache| > 0
    ensures exists path :: path in cache
  {
    assert |cache.Keys| == |cache|;
    var path :| path in cache.Keys;
  }

  lemma DropOne(cache: map<string, Entry>, dropped: set<string>, victim: string)
    requires victim in cache - dropped
    ensures cache - dropped - {victim} == cache - (dropped + {victim})
    ensures |cache - dropped - {victim}| == |cache - dropped| - 1 && |dropped + {victim}| == |dropped| + 1
  {
    RestSize(cache - dropped, {victim});
  }

  lemma StoredSize(cache: map<string, Entry>, path: string, entry: Entry)
    ensures |cache[path := entry]| <= |cache| + 1
  {
    assert cache[path := entry].Keys == cache.Keys + {path};
  }

  lemma RestSize(cache: map<string, Entry>, dropped: set<string>)
    requires dropped <= cache.Keys
    ensures |cache - dropped| == |cache| - |dropped|
  {
    assert (cache - dropped).Keys == cache.Keys - dropped;
    assert |cache.Keys - dropped| == |cache.Keys| - |dropped|;
  }

  class ProgressProbe {
    var cache: map<string, Entry>

    constructor ()
      ensures cache == map[]
    {
      cache := map[];
    }

    method Forget(path: string)
      modifies this
      ensures cache == old(cache) - {path}
    {
      cache := cache - {path};
    }

    /** Room is made by dropping arbitrary entries, one at a time. */
    method Store(path: string, st: Stat, snap: Snapshot) returns (ghost dropped: set<string>)
      modifies this
      ensures MakesRoom(old(cache), dropped)
      ensures cache == (old(cache) - dropped)[path := Entry(st.size, st.modTime, snap)]
      ensures |cache| <= CACHE_LIMIT
    {
      ghost var was := cache;
      dropped := {};
      assert was - {} == was;
      while |cache| >= CACHE_LIMIT
        invariant dropped <= was.Keys && cache == was - dropped && |cache| + |dropped| == |was|
        invariant dropped == {} || |cache| >= CACHE_LIMIT - 1
        decreases |cache|
      {
        Inhabited(cache);
        var victim :| victim in cache;
        DropOne(was, dropped, victim);
        cache := cache - {victim};
        dropped := dropped + {victim};
      }
      StoredSize(cache, path, Entry(st.size, st.modTime, snap));
      cache := cache[path := Entry(st.size, st.modTime, snap)];
    }

    /** One call, when nothing else touches the memo meanwhile. */
    method TakeSnapshot(path: string, st: Option<Stat>, reading: Reading, decode: Decoder) returns (snap: Snapshot)
      modifies this
      ensures st.None? ==> snap == UNKNOWN && cache == old(cache) - {path}
      ensures st.Some? && path in old(cache) && Matches(old(cache)[path], st.value) ==>
                snap == old(cache)[path].snap && cache == old(cache)
      ensures st.Some? && !(path in old(cache) && Matches(old(cache)[path], st.value)) ==>
                match ReadAnswer(reading, decode)
                case None => snap == UNKNOWN && cache == old(cache)
                case Some(a) => snap == a && path in cache && cache[path] == Entry(st.value.size, st.value.modTime, a)
      ensures |old(cache)| <= CACHE_LIMIT ==> |cache| <= CACHE_LIMIT
    {
      if st.None? {
        Forget(path);
        KeysShrink(old(cache), path);
        return UNKNOWN;
      }
      if path in cache && Matches(cache[path], st.value) {
        return cache[path].snap;
      }
      var ok;
      snap, ok := ReadProgressTail(reading, decode);
      if ok {
        ghost var dropped := Store(path, st.value, snap);
      }
    }
  }

  lemma KeysShrink(cache: map<string, Entry>, path: string)
    ensures |cache - {path}| <= |cache|
  {
    assert (cache - {path}).Keys == cache.Keys - {path};
    assert cache.Keys - {path} <= cache.Keys;
    SubsetSmaller(cache.Keys - {path}, cache.Keys);
  }

  lemma {:induction false} SubsetSmaller(a: set<string>, b: set<string>)
    requires a <= b
    ensures |a| <= |b|
  {
    if a != {} {
      var x :| x in a;
      SubsetSmaller(a - {x}, b - {x});
    }
  }

  // ---- many probes at once

  /** Where one probe stands: it has statted the file, opened it and learnt its size,
      or read it and got an answer it has yet to store. A file that was replaced or
      removed under its name is still `held` by whoever had it open. */
  datatype Prober =
    | Statted(path: string, st: Stat)
    | Opened(path: string, st: Stat, size: nat, held: Option<string>)
    | HasRead(path: string, st: Stat, answer: Snapshot)

  datatype File = File(contents: string, modTime: Time)

  datatype State = State(files: map<string, File>, cache: map<string, Entry>, probers: map<nat, Prober>)
  {
    function At(path: string): Option<File> {
      if path in files then Some(files[path]) else None
    }
  }

  /** A file is written in place, as when it grows, or another file or none is put
      under its name; every other step is one probe's. Storing drops whatever
      entries it makes room with, as many as it must. */
  datatype Event =
    | Written(path: string, file: File)
    | Swapped(path: string, next: Option<File>)
    | Missed(prober: nat, path: string)
    | Open(prober: nat)
    | Finish(prober: nat)
    | GiveUp(prober: nat)
    | Stored(prober: nat, dropped: set<string>)
    | Forgotten(path: string)

  function StatOf(f: File): Stat {
    Stat(|f.contents|, f.modTime)
  }

  /** A lookup that answers from the memo. */
  predicate Hits(s: State, path: string) {
    path in s.files && s.files[path].contents != "" && path in s.cache && Matches(s.cache[path], StatOf(s.files[path]))
  }

  predicate Enabled(s: State, e: Event) {
    match e
    case Missed(prober, path) => prober !in s.probers && path in s.files && s.files[path].contents != ""
        && !Hits(s, path)
    case Open(prober) =>
      && prober in s.probers && s.probers[prober].Statted?
      && s.probers[prober].path in s.files && s.files[s.probers[prober].path].contents != ""
    case Finish(prober) =>
      && prober in s.probers && s.probers[prober].Opened?
      && (s.probers[prober].held.Some? || s.probers[prober].path in s.files)
    case GiveUp(prober) => prober in s.probers
    case Stored(prober, dropped) => prober in s.probers && s.probers[prober].HasRead? && MakesRoom(s.cache, dropped)
    case _ => true
  }

  /** Whoever has the file open keeps it as it was when its name went to another. */
  function Hold(p: Prober, path: string, file: Option<File>): Prober {
    if p.Opened? && p.path == path && p.held.None? && file.Some? then p.(held := Some(file.value.contents)) else p
  }

  function Next(s: State, e: Event, decode: Decoder): State
    requires Enabled(s, e)
  {
    match e
    case Written(path, file) => s.(files := s.files[path := file])
    case Swapped(path, next) =>
      s.(files := if next.Some? then s.files[path := next.value] else s.files - {path},
         probers := map n | n in s.probers :: Hold(s.probers[n], path, s.At(path)))
    case Missed(prober, path) => s.(probers := s.probers[prober := Statted(path, StatOf(s.files[path]))])
    case Open(prober) =>
      var p := s.probers[prober];
      s.(probers := s.probers[prober := Opened(p.path, p.st, |s.files[p.path].contents|, None)])
    case Finish(prober) =>
      var p := s.probers[prober];
      var contents := if p.held.Some? then p.held.value else s.files[p.path].contents;
      s.(probers := s.probers[prober := HasRead(p.path, p.st, TailAnswer(contents, TailOffset(p.size), decode))])
    case GiveUp(prober) => s.(probers := s.probers - {prober})
    case Stored(prober, dropped) =>
      var p := s.probers[prober];
      s.(cache := (s.cache - dropped)[p.path := Entry(p.st.size, p.st.modTime, p.answer)],
          probers := s.probers - {prober})
    case Forgotten(path) => s.(cache := s.cache - {path})
  }

  ghost predicate IsRun(s: State, es: seq<Event>, decode: Decoder)
    decreases es
  {
    es == [] || (Enabled(s, es[0]) && IsRun(Next(s, es[0], decode), es[1..], decode))
  }

  function After(s: State, es: seq<Event>, decode: Decoder): State
    requires IsRun(s, es, decode)
    decreases es
  {
    if es == [] then s else After(Next(s, es[0], decode), es[1..], decode)
  }

  /** No step takes the memo past its limit. */
  lemma StepWithin(s: State, e: Event, decode: Decoder)
    requires Enabled(s, e) && |s.cache| <= CACHE_LIMIT
    ensures |Next(s, e, decode).cache| <= CACHE_LIMIT
  {
    hide TailAnswer, Hits;
    if e.Stored? {
      RestSize(s.cache, e.dropped);
      var rest, path := s.cache - e.dropped, s.probers[e.prober].path;
      StoredSize(rest, path, Next(s, e, decode).cache[path]);
    } else if e.Forgotten? {
      KeysShrink(s.cache, e.path);
    }
  }

  /** However the probes interleave, the memo never holds more than 512 entries. */
  lemma {:induction false} AlwaysWithin(s: State, es: seq<Event>, decode: Decoder)
    requires IsRun(s, es, decode) && |s.cache| <= 512
    ensures |After(s, es, decode).cache| <= 512
    decreases es
  {
    hide Next, Enabled;
    if es != [] {
      StepWithin(s, es[0], decode);
      AlwaysWithin(Next(s, es[0], decode), es[1..], decode);
    }
  }

  // ---- what became of one file

  predicate Changes(e: Event, path: string) {
    (e.Written? || e.Swapped?) && e.path == path
  }

  /** What each change of a path left there. */
  function Changed(s: State, es: seq<Event>, path: string, decode: Decoder): seq<Option<File>>
    requires IsRun(s, es, decode)
    decreases es
  {
    if es == [] then []
    else
      var t := Next(s, es[0], decode);
      (if Changes(es[0], path) then [t.At(path)] else []) + Changed(t, es[1..], path, decode)
  }

  /** Every version of a path in a run, the first included. */
  function Versions(s: State, es: seq<Event>, path: string, decode: Decoder): seq<Option<File>>
    requires IsRun(s, es, decode)
  {
    [s.At(path)] + Changed(s, es, path, decode)
  }

  /** What a read answers that learnt the size of one version and met another. */
  function AnswerOf(atOpen: File, met: File, decode: Decoder): Snapshot {
    TailAnswer(met.contents, TailOffset(|atOpen.contents|), decode)
  }

  /** Versions `i`, `a`, `b` and `j` of a file that one probe could have statted,
      opened and read before the last was looked up, and found with the stat of the first. */
  predicate Recurs(h: seq<Option<File>>, i: nat, a: nat, b: nat, j: nat) {
    && i <= a <= b <= j < |h| && h[i].Some? && h[a].Some? && h[b].Some? && h[j].Some?
    && h[i].value.contents != "" && h[a].value.contents != "" && StatOf(h[i].value) == StatOf(h[j].value)
  }

  /** Whatever was read between two versions of the same size and time answers for
      the later one. */
  ghost predicate Settled(h: seq<Option<File>>, decode: Decoder) {
    forall i: nat, a: nat, b: nat, j: nat | Recurs(h, i, a, b, j) ::
      AnswerOf(h[a].value, h[b].value, decode) == AnswerOf(h[j].value, h[j].value, decode)
  }

  // ---- where every entry and every probe comes from

  predicate StattedAt(h: seq<Option<File>>, i: nat, st: Stat) {
    i < |h| && h[i].Some? && h[i].value.contents != "" && StatOf(h[i].value) == st
  }

  predicate OpenedAt(h: seq<Option<File>>, i: nat, a: nat, st: Stat, size: nat) {
    StattedAt(h, i, st) && i <= a < |h| && h[a].Some? && h[a].value.contents != "" && |h[a].value.contents| == size
  }

  predicate HeldAt(h: seq<Option<File>>, i: nat, a: nat, b: nat, st: Stat, size: nat, contents: string) {
    OpenedAt(h, i, a, st, size) && a <= b < |h| && h[b].Some? && h[b].value.contents == contents
  }

  predicate ReadAt(h: seq<Option<File>>, i: nat, a: nat, b: nat, st: Stat, answer: Snapshot, decode: Decoder) {
    && StattedAt(h, i, st) && i <= a <= b < |h| && h[a].Some? && h[b].Some? && h[a].value.contents != ""
    && answer == AnswerOf(h[a].value, h[b].value, decode)
  }

  ghost predicate ProberTraced(h: seq<Option<File>>, p: Prober, decode: Decoder) {
    match p
    case Statted(_, st) => exists i: nat :: StattedAt(h, i, st)
    case Opened(_, st, size, held) =>
      if held.None? then exists i: nat, a: nat :: OpenedAt(h, i, a, st, size)
      else exists i: nat, a: nat, b: nat :: HeldAt(h, i, a, b, st, size, held.value)
    case HasRead(_, st, answer) => exists i: nat, a: nat, b: nat :: ReadAt(h, i, a, b, st, answer, decode)
  }

  ghost predicate EntryTraced(h: seq<Option<File>>, e: Entry, decode: Decoder) {
    exists i: nat, a: nat, b: nat :: ReadAt(h, i, a, b, Stat(e.size, e.modTime), e.snap, decode)
  }

  /** Every answer about a path was read from its versions in the order of the probe's steps. */
  ghost predicate Traced(s: State, h: seq<Option<File>>, path: string, decode: Decoder) {
    && h != [] && h[|h| - 1] == s.At(path)
    && (path in s.cache ==> EntryTraced(h, s.cache[path], decode))
    && (forall n | n in s.probers && s.probers[n].path == path :: ProberTraced(h, s.probers[n], decode))
  }

  lemma ProberLater(h: seq<Option<File>>, more: seq<Option<File>>, p: Prober, decode: Decoder)
    requires ProberTraced(h, p, decode)
    ensures ProberTraced(h + more, p, decode)
  {
    var g := h + more;
    match p
    case Statted(_, st) =>
      var i: nat :| StattedAt(h, i, st);
      assert StattedAt(g, i, st);
    case Opened(_, st, size, held) =>
      if held.None? {
        var i: nat, a: nat :| OpenedAt(h, i, a, st, size);
        assert OpenedAt(g, i, a, st, size);
      } else {
        var i: nat, a: nat, b: nat :| HeldAt(h, i, a, b, st, size, held.value);
        assert HeldAt(g, i, a, b, st, size, held.value);
      }
    case HasRead(_, st, answer) =>
      var i: nat, a: nat, b: nat :| ReadAt(h, i, a, b, st, answer, decode);
      assert ReadAt(g, i, a, b, st, answer, decode);
  }

  lemma EntryLater(h: seq<Option<File>>, more: seq<Option<File>>, e: Entry, decode: Decoder)
    requires EntryTraced(h, e, decode)
    ensures EntryTraced(h + more, e, decode)
  {
    var i: nat, a: nat, b: nat :| ReadAt(h, i, a, b, Stat(e.size, e.modTime), e.snap, decode);
    assert ReadAt(h + more, i, a, b, Stat(e.size, e.modTime), e.snap, decode);
  }

  lemma HoldTraced(h: seq<Option<File>>, p: Prober, path: string, decode: Decoder)
    requires h != [] && ProberTraced(h, p, decode)
    ensures ProberTraced(h, Hold(p, path, h[|h| - 1]), decode)
  {
    var last := h[|h| - 1];
    if Hold(p, path, last) != p {
      var i: nat, a: nat :| OpenedAt(h, i, a, p.st, p.size);
      assert HeldAt(h, i, a, |h| - 1, p.st, p.size, last.value.contents);
    }
  }

  /** A change of the file adds one version. */
  lemma ChangeTraced(s: State, h: seq<Option<File>>, e: Event, path: string, decode: Decoder)
    requires Changes(e, path) && Traced(s, h, path, decode)
    ensures Traced(Next(s, e, decode), h + [Next(s, e, decode).At(path)], path, decode)
  {
    var t := Next(s, e, decode);
    var more := [t.At(path)];
    hide EntryTraced, ProberTraced;
    if path in t.cache {
      EntryLater(h, more, s.cache[path], decode);
    }
    forall n | n in t.probers && t.probers[n].path == path ensures ProberTraced(h + more, t.probers[n], decode) {
      HoldTraced(h, s.probers[n], path, decode);
      ProberLater(h, more, t.probers[n], decode);
    }
  }

  lemma OpenTraced(h: seq<Option<File>>, p: Prober, file: File, decode: Decoder)
    requires p.Statted? && h != [] && h[|h| - 1] == Some(file) && file.contents != "" && ProberTraced(h, p, decode)
    ensures ProberTraced(h, Opened(p.path, p.st, |file.contents|, None), decode)
  {
    var i: nat :| StattedAt(h, i, p.st);
    assert OpenedAt(h, i, |h| - 1, p.st, |file.contents|);
  }

  lemma FinishTraced(h: seq<Option<File>>, p: Prober, file: Option<File>, decode: Decoder)
    requires p.Opened? && h != [] && h[|h| - 1] == file && (p.held.Some? || file.Some?) && ProberTraced(h, p, decode)
    ensures (var contents := if p.held.Some? then p.held.value else file.value.contents;
             ProberTraced(h, HasRead(p.path, p.st, TailAnswer(contents, TailOffset(p.size), decode)), decode))
  {
    hide TailAnswer, TailOffset;
    if p.held.Some? {
      var i: nat, a: nat, b: nat :| HeldAt(h, i, a, b, p.st, p.size, p.held.value);
      assert ReadAt(h, i, a, b, p.st, TailAnswer(p.held.value, TailOffset(p.size), decode), decode);
    } else {
      var i: nat, a: nat :| OpenedAt(h, i, a, p.st, p.size);
      assert ReadAt(h, i, a, |h| - 1, p.st, TailAnswer(file.value.contents, TailOffset(p.size), decode), decode);
    }
  }

  /** A prober's own step, seen from its path. */
  lemma ProbeTraced(s: State, h: seq<Option<File>>, e: Event, path: string, decode: Decoder)
    requires (e.Missed? || e.Open? || e.Finish?) && Enabled(s, e) && Traced(s, h, path, decode)
    ensures Traced(Next(s, e, decode), h, path, decode)
  {
    var t := Next(s, e, decode);
    var p := t.probers[e.prober];
    hide EntryTraced, TailAnswer, TailOffset;
    if p.path == path {
      if e.Missed? {
        assert StattedAt(h, |h| - 1, p.st);
      } else if e.Open? {
        OpenTraced(h, s.probers[e.prober], s.files[path], decode);
      } else {
        FinishTraced(h, s.probers[e.prober], s.At(path), decode);
      }
      assert ProberTraced(h, p, decode);
    }
    hide ProberTraced;
  }

  lemma StoreTraced(s: State, h: seq<Option<File>>, e: Event, path: string, decode: Decoder)
    requires (e.Stored? || e.GiveUp? || e.Forgotten?) && Enabled(s, e) && Traced(s, h, path, decode)
    ensures Traced(Next(s, e, decode), h, path, decode)
  {
    hide AnswerOf, StattedAt, MakesRoom, Hits;
    if e.Stored? && s.probers[e.prober].path == path {
      ReadToEntry(h, s.probers[e.prober], decode);
    }
    hide ProberTraced, EntryTraced;
  }

  lemma ReadToEntry(h: seq<Option<File>>, p: Prober, decode: Decoder)
    requires p.HasRead? && ProberTraced(h, p, decode)
    ensures EntryTraced(h, Entry(p.st.size, p.st.modTime, p.answer), decode)
  {
    assert Stat(p.st.size, p.st.modTime) == p.st;
  }

  lemma ElsewhereTraced(s: State, h: seq<Option<File>>, e: Event, path: string, decode: Decoder)
    requires (e.Written? || e.Swapped?) && e.path != path && Traced(s, h, path, decode)
    ensures Traced(Next(s, e, decode), h, path, decode)
  {
    hide EntryTraced, ProberTraced;
  }

  lemma StepTraced(s: State, h: seq<Option<File>>, e: Event, path: string, decode: Decoder)
    requires Enabled(s, e) && Traced(s, h, path, decode)
    ensures (var t := Next(s, e, decode); Traced(t, if Changes(e, path) then h + [t.At(path)] else h, path, decode))
  {
    hide Traced, Next, Enabled;
    if Changes(e, path) {
      ChangeTraced(s, h, e, path, decode);
    } else if e.Written? || e.Swapped? {
      ElsewhereTraced(s, h, e, path, decode);
    } else if e.Stored? || e.GiveUp? || e.Forgotten? {
      StoreTraced(s, h, e, path, decode);
    } else {
      ProbeTraced(s, h, e, path, decode);
    }
  }

  lemma {:induction false} RunTraced(s: State, h: seq<Option<File>>, es: seq<Event>, path: string, decode: Decoder)
    requires IsRun(s, es, decode) && Traced(s, h, path, decode)
    ensures Traced(After(s, es, decode), h + Changed(s, es, path, decode), path, decode)
    decreases es
  {
    hide Traced, Next, Enabled;
    if es == [] {
      assert h + [] == h;
    } else {
      var t := Next(s, es[0], decode);
      StepTraced(s, h, es[0], path, decode);
      var g := if Changes(es[0], path) then h + [t.At(path)] else h;
      RunTraced(t, g, es[1..], path, decode);
      assert g + Changed(t, es[1..], path, decode) == h + Changed(s, es, path, decode);
    }
  }

  /** In every run that starts with nothing remembered, each entry was earned: one
      probe statted, opened and read versions of the file in that order. */
  lemma AlwaysTraced(files: map<string, File>, es: seq<Event>, path: string, decode: Decoder)
    requires IsRun(State(files, map[], map[]), es, decode)
    ensures (var s := State(files, map[], map[]);
            Traced(After(s, es, decode), Versions(s, es, path, decode), path, decode))
  {
    var s := State(files, map[], map[]);
    RunTraced(s, [s.At(path)], es, path, decode);
  }

  // ---- when a hit answers for the file as it is

  /** The answer from the memo is the one that reading the file now would give, and
      so the whole transcript's or a fail-open one. */
  ghost predicate Current(s: State, path: string, decode: Decoder) {
    Hits(s, path) ==>
      var now := s.files[path].contents;
      && s.cache[path].snap == TailAnswer(now, TailOffset(|now|), decode)
      && s.cache[path].snap in {UNKNOWN, WholeAnswer(now, decode)}
  }

  /** However stats, reads, stores and changes interleave, a hit is current wherever
      the versions of the file are settled. */
  lemma HitIsCurrent(files: map<string, File>, es: seq<Event>, path: string, decode: Decoder)
    requires IsRun(State(files, map[], map[]), es, decode)
    requires Settled(Versions(State(files, map[], map[]), es, path, decode), decode)
    ensures Current(After(State(files, map[], map[]), es, decode), path, decode)
  {
    AlwaysTraced(files, es, path, decode);
    var s := State(files, map[], map[]);
    TracedCurrent(After(s, es, decode), Versions(s, es, path, decode), path, decode);
  }

  lemma TracedCurrent(s: State, h: seq<Option<File>>, path: string, decode: Decoder)
    requires Traced(s, h, path, decode) && Settled(h, decode)
    ensures Current(s, path, decode)
  {
    hide TailAnswer, TailOffset;
    if Hits(s, path) {
      var now := s.files[path].contents;
      var e := s.cache[path];
      var i: nat, a: nat, b: nat :| ReadAt(h, i, a, b, Stat(e.size, e.modTime), e.snap, decode);
      assert Recurs(h, i, a, b, |h| - 1);
      NowRefines(now, decode);
    }
  }

  lemma NowRefines(now: string, decode: Decoder)
    ensures TailAnswer(now, TailOffset(|now|), decode) in {UNKNOWN, WholeAnswer(now, decode)}
  {
    TailRefinesWhole(now, TailOffset(|now|), decode);
  }

  // ---- and only then

  function Present(files: seq<File>): seq<Option<File>> {
    seq(|files|, i requires 0 <= i < |files| => Some(files[i]))
  }

  lemma FirstChange(s: State, es: seq<Event>, path: string, decode: Decoder)
    requires es != [] && IsRun(s, es, decode)
    ensures (var t := Next(s, es[0], decode);
             Changed(s, es, path, decode)
                 == (if Changes(es[0], path) then [t.At(path)] else []) + Changed(t, es[1..], path, decode))
  {
  }

  lemma {:induction false} RunOn(s: State, a: seq<Event>, b: seq<Event>, decode: Decoder)
    requires IsRun(s, a, decode) && IsRun(After(s, a, decode), b, decode)
    ensures IsRun(s, a + b, decode) && After(s, a + b, decode) == After(After(s, a, decode), b, decode)
    decreases a
  {
    hide Next, Enabled;
    if a == [] {
      assert a + b == b;
    } else {
      RunOn(Next(s, a[0], decode), a[1..], b, decode);
      assert (a + b)[1..] == a[1..] + b;
    }
  }

  lemma NoChange(s: State, path: string, decode: Decoder)
    ensures IsRun(s, [], decode) && Changed(s, [], path, decode) == []
  {
  }

  lemma {:induction false} ChangedOn(s: State, a: seq<Event>, b: seq<Event>, path: string, decode: Decoder)
    requires IsRun(s, a, decode) && IsRun(After(s, a, decode), b, decode) && IsRun(s, a + b, decode)
    ensures Changed(s, a + b, path, decode)
            == Changed(s, a, path, decode) + Changed(After(s, a, decode), b, path, decode)
    decreases a
  {
    hide Next, Enabled, Changes, Changed;
    if a == [] {
      assert a + b == b;
      NoChange(s, path, decode);
    } else {
      assert (a + b)[1..] == a[1..] + b;
      FirstChange(s, a, path, decode);
      FirstChange(s, a + b, path, decode);
      ChangedOn(Next(s, a[0], decode), a[1..], b, path, decode);
    }
  }

  lemma One(s: State, e: Event, path: string, decode: Decoder)
    requires Enabled(s, e)
    ensures IsRun(s, [e], decode) && After(s, [e], decode) == Next(s, e, decode)
    ensures Changed(s, [e], path, decode) == if Changes(e, path) then [Next(s, e, decode).At(path)] else []
  {
    hide Next, Enabled;
    assert IsRun(Next(s, e, decode), [], decode);
  }

  /** The file is written over and over, while nothing else happens. */
  lemma {:induction false} WriteAll(s: State, path: string, files: seq<File>, decode: Decoder) returns (es: seq<Event>)
    requires path in s.files
    ensures IsRun(s, es, decode) && Changed(s, es, path, decode) == Present(files)
    ensures After(s, es, decode) == if files == [] then s else s.(files := s.files[path := files[|files| - 1]])
    decreases files
  {
    if files == [] {
      es := [];
    } else {
      var e := Written(path, files[0]);
      var t := Next(s, e, decode);
      var rest := WriteAll(t, path, files[1..], decode);
      One(s, e, path, decode);
      RunOn(s, [e], rest, decode);
      ChangedOn(s, [e], rest, path, decode);
      es := [e] + rest;
      assert Present(files) == [Some(files[0])] + Present(files[1..]);
    }
  }

  function Start(path: string, file: File): State {
    State(map[path := file], map[], map[])
  }

  lemma PresentJoin(files: seq<File>, i: nat, j: nat, k: nat)
    requires i <= j <= k <= |files|
    ensures Present(files[i..j]) + Present(files[j..k]) == Present(files[i..k])
  {
    assert files[i..j] + files[j..k] == files[i..k];
  }

  /** A run goes on with one more step that changes no file. */
  lemma StepOn(s0: State, es: seq<Event>, path: string, e: Event, decode: Decoder)
    requires IsRun(s0, es, decode) && Enabled(After(s0, es, decode), e) && !Changes(e, path)
    ensures IsRun(s0, es + [e], decode) && After(s0, es + [e], decode) == Next(After(s0, es, decode), e, decode)
    ensures Changed(s0, es + [e], path, decode) == Changed(s0, es, path, decode)
  {
    hide Next, Enabled, Changes;
    One(After(s0, es, decode), e, path, decode);
    RunOn(s0, es, [e], decode);
    hide IsRun, After;
    ChangedOn(s0, es, [e], path, decode);
  }

  /** Or with writes that take a path from version `from` to version `to`. */
  lemma WriteOn(s0: State, es: seq<Event>, path: string, files: seq<File>, from: nat, to: nat, decode: Decoder)
    returns (r: seq<Event>)
    requires from <= to < |files| && IsRun(s0, es, decode) && After(s0, es, decode).At(path) == Some(files[from])
    requires Changed(s0, es, path, decode) == Present(files[1..from + 1])
    ensures IsRun(s0, r, decode) && Changed(s0, r, path, decode) == Present(files[1..to + 1])
    ensures (var s := After(s0, es, decode); After(s0, r, decode) == s.(files := s.files[path := files[to]]))
  {
    hide Next, Enabled, Changes, Changed;
    var s := After(s0, es, decode);
    assert s.files[path := files[from]] == s.files;
    var writes := WriteAll(s, path, files[from + 1..to + 1], decode);
    RunOn(s0, es, writes, decode);
    hide IsRun, After;
    ChangedOn(s0, es, writes, path, decode);
    PresentJoin(files, 1, from + 1, to + 1);
    r := es + writes;
  }

  lemma Onward(s0: State, es: seq<Event>, path: string, files: seq<File>, from: nat, to: nat, e: Event,
               decode: Decoder) returns (r: seq<Event>)
    requires from <= to < |files| && !Changes(e, path) && IsRun(s0, es, decode)
    requires (var s := After(s0, es, decode);
              && s.At(path) == Some(files[from]) && Changed(s0, es, path, decode) == Present(files[1..from + 1])
              && Enabled(s.(files := s.files[path := files[to]]), e))
    ensures IsRun(s0, r, decode) && Changed(s0, r, path, decode) == Present(files[1..to + 1])
    ensures (var s := After(s0, es, decode);
             After(s0, r, decode) == Next(s.(files := s.files[path := files[to]]), e, decode))
  {
    hide Next, Enabled, Changes, Changed, IsRun, After;
    r := WriteOn(s0, es, path, files, from, to, decode);
    StepOn(s0, r, path, e, decode);
    r := r + [e];
  }

  lemma Rewrite(path: string, was: File, file: File)
    ensures map[path := was][path := file] == map[path := file]
  {
  }

  /** A run up to the point where a probe that statted version `i` has opened `a`. */
  lemma OpenRun(path: string, files: seq<File>, i: nat, a: nat, decode: Decoder) returns (es: seq<Event>)
    requires i <= a < |files| && files[i].contents != "" && files[a].contents != ""
    ensures (var s0 := Start(path, files[0]);
             && IsRun(s0, es, decode) && Changed(s0, es, path, decode) == Present(files[1..a + 1])
             && (var p := Opened(path, StatOf(files[i]), |files[a].contents|, None);
                 After(s0, es, decode) == State(map[path := files[a]], map[], map[0 := p])))
  {
    var s0 := Start(path, files[0]);
    es := [];
    NoChange(s0, path, decode);
    assert Present(files[1..1]) == [];
    Rewrite(path, files[0], files[i]);
    es := Onward(s0, es, path, files, 0, i, Missed(0, path), decode);
    hide IsRun, After, Changed;
    var s1 := State(map[path := files[i]], map[], map[0 := Statted(path, StatOf(files[i]))]);
    assert After(s0, es, decode) == s1;
    Rewrite(path, files[i], files[a]);
    es := Onward(s0, es, path, files, i, a, Open(0), decode);
  }

  lemma StoreInto(path: string, file: File, p: Prober, decode: Decoder)
    requires p.HasRead? && p.path == path && p.st == StatOf(file) && file.contents != ""
    ensures (var s := State(map[path := file], map[], map[0 := p]);
             && Enabled(s, Stored(0, {}))
             && (var t := Next(s, Stored(0, {}), decode);
                 Hits(t, path) && t.At(path) == Some(file) && t.cache[path].snap == p.answer))
  {
  }

  /** The run that goes wrong: a probe stats version `i`, opens `a` and reads `b`, and
      stores what it read once version `j` is in place. */
  lemma StaleRun(path: string, files: seq<File>, i: nat, a: nat, b: nat, j: nat, decode: Decoder)
    returns (es: seq<Event>)
    requires Recurs(Present(files), i, a, b, j)
    ensures IsRun(Start(path, files[0]), es, decode)
    ensures Versions(Start(path, files[0]), es, path, decode) == Present(files[..j + 1])
    ensures (var s := After(Start(path, files[0]), es, decode);
             && Hits(s, path) && s.At(path) == Some(files[j])
             && s.cache[path].snap == AnswerOf(files[a], files[b], decode))
  {
    hide TailAnswer, TailOffset, IsRun, After, Changed;
    var s0 := Start(path, files[0]);
    es := OpenRun(path, files, i, a, decode);
    Rewrite(path, files[a], files[b]);
    es := Onward(s0, es, path, files, a, b, Finish(0), decode);
    var read := HasRead(path, StatOf(files[i]), AnswerOf(files[a], files[b], decode));
    assert After(s0, es, decode) == State(map[path := files[b]], map[], map[0 := read]);
    Rewrite(path, files[b], files[j]);
    StoreInto(path, files[j], read, decode);
    es := Onward(s0, es, path, files, b, j, Stored(0, {}), decode);
    hide AnswerOf, StatOf, Next, Enabled;
    PresentJoin(files, 0, 1, j + 1);
    assert files[0..1] == [files[0]];
  }

  lemma {:induction false} SettledPrefix(g: seq<Option<File>>, h: seq<Option<File>>, decode: Decoder)
    requires g <= h && Settled(h, decode)
    ensures Settled(g, decode)
  {
    forall i: nat, a: nat, b: nat, j: nat | Recurs(g, i, a, b, j)
      ensures AnswerOf(g[a].value, g[b].value, decode) == AnswerOf(g[j].value, g[j].value, decode)
    {
      assert Recurs(h, i, a, b, j);
    }
  }

  /** For a file that is never missing the condition is exact: its versions are
      settled if and only if no run through them, or through the first of them,
      ever answers from the memo what the file does not say. */
  lemma CurrentIffSettled(path: string, files: seq<File>, decode: Decoder)
    requires files != []
    ensures Settled(Present(files), decode)
       <==> forall es | IsRun(Start(path, files[0]), es, decode)
           && Versions(Start(path, files[0]), es, path, decode) <= Present(files) ::
              Current(After(Start(path, files[0]), es, decode), path, decode)
  {
    var s0 := Start(path, files[0]);
    hide AnswerOf, TailAnswer, TailOffset, IsRun, After, Versions;
    if Settled(Present(files), decode) {
      forall es | IsRun(s0, es, decode) && Versions(s0, es, path, decode) <= Present(files)
        ensures Current(After(s0, es, decode), path, decode)
      {
        SettledPrefix(Versions(s0, es, path, decode), Present(files), decode);
        HitIsCurrent(s0.files, es, path, decode);
      }
    } else {
      var h := Present(files);
      var i: nat, a: nat, b: nat, j: nat :| Recurs(h, i, a, b, j)
          && AnswerOf(h[a].value, h[b].value, decode) != AnswerOf(h[j].value, h[j].value, decode);
      var es := StaleRun(path, files, i, a, b, j, decode);
      NotCurrent(After(s0, es, decode), path, files[a], files[b], decode);
      assert Versions(s0, es, path, decode) <= Present(files);
    }
  }

  lemma NotCurrent(s: State, path: string, atOpen: File, met: File, decode: Decoder)
    requires Hits(s, path)
    requires s.cache[path].snap == AnswerOf(atOpen, met, decode) != AnswerOf(s.files[path], s.files[path], decode)
    ensures !Current(s, path, decode)
  {
  }

  // ---- files that grow, and files that do not

  /** Each version goes on from the one before it. */
  predicate Grows(files: seq<File>) {
    forall k | 0 <= k < |files| - 1 :: files[k].contents <= files[k + 1].contents
  }

  lemma {:induction false} GrowsOn(files: seq<File>, i: nat, j: nat)
    requires Grows(files) && i <= j < |files|
    ensures files[i].contents <= files[j].contents
    decreases j
  {
    if i < j {
      GrowsOn(files, i, j - 1);
    }
  }

  /** A file that is missing for some time, or not at all, and from then on. */
  function Appearing(missing: nat, files: seq<File>): seq<Option<File>> {
    seq(missing, _ => None) + Present(files)
  }

  lemma RecursPresent(missing: nat, files: seq<File>, i: nat, a: nat, b: nat, j: nat)
    requires Recurs(Appearing(missing, files), i, a, b, j)
    ensures missing <= i && j - missing < |files| && |files[i - missing].contents| == |files[j - missing].contents|
    ensures forall k | i <= k <= j :: Appearing(missing, files)[k] == Some(files[k - missing])
  {
  }

  /** A file that only grows, once it is there, is settled, whatever times its writes
      leave: an answer stored for an earlier size is never taken for the present one. */
  lemma GrowingSettled(missing: nat, files: seq<File>, decode: Decoder)
    requires Grows(files)
    ensures Settled(Appearing(missing, files), decode)
  {
    var h := Appearing(missing, files);
    hide AnswerOf, Appearing, Present;
    forall i: nat, a: nat, b: nat, j: nat | Recurs(h, i, a, b, j)
      ensures AnswerOf(h[a].value, h[b].value, decode) == AnswerOf(h[j].value, h[j].value, decode)
    {
      RecursPresent(missing, files, i, a, b, j);
      GrownSame(files, i - missing, a - missing, b - missing, j - missing, decode);
    }
  }

  lemma GrownSame(files: seq<File>, i: nat, a: nat, b: nat, j: nat, decode: Decoder)
    requires Grows(files) && i <= a <= b <= j < |files| && |files[i].contents| == |files[j].contents|
    ensures AnswerOf(files[a], files[b], decode) == AnswerOf(files[j], files[j], decode)
  {
    GrowsOn(files, i, a);
    GrowsOn(files, a, b);
    GrowsOn(files, b, j);
    assert files[a].contents == files[j].contents == files[b].contents;
  }

  /** So is any file no two of whose versions share size and time while the contents
      changed from one to the other or in between. */
  lemma UnrecurringSettled(h: seq<Option<File>>, decode: Decoder)
    requires forall i, k, j | 0 <= i <= k <= j < |h| && h[i].Some? && h[j].Some?
             && StatOf(h[i].value) == StatOf(h[j].value) ::
               h[k].Some? && h[k].value.contents == h[i].value.contents
    ensures Settled(h, decode)
  {
  }

  /** A transcript replaced between the stat and the read, and put back with its old
      size and time, is answered from the memo with what the replacement said. */
  lemma ReplacedIsStale(path: string, was: File, replacement: File, back: File, decode: Decoder)
    returns (es: seq<Event>)
    requires was.contents != "" && replacement.contents != "" && StatOf(back) == StatOf(was)
    requires AnswerOf(replacement, replacement, decode) != AnswerOf(back, back, decode)
    ensures IsRun(Start(path, was), es, decode)
    ensures Versions(Start(path, was), es, path, decode) == Present([was, replacement, back])
    ensures (var s := After(Start(path, was), es, decode);
             Hits(s, path) && s.At(path) == Some(back)
                 && s.cache[path].snap == AnswerOf(replacement, replacement, decode) && !Current(s, path, decode))
  {
    var files := [was, replacement, back];
    assert Recurs(Present(files), 0, 1, 1, 2);
    assert files[..3] == files;
    es := StaleRun(path, files, 0, 1, 1, 2, decode);
    NotCurrent(After(Start(path, was), es, decode), path, replacement, replacement, decode);
  }
}
