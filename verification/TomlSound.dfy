/** Which statements TOML lets one document hold together, told from their kinds,
    paths and order alone. */
module TomlSound {
  import opened TomlGrammar
  import opened TomlDocument

  /** The table in force at an entry: the last header's before it. */
  function Section(es: seq<Entry>, j: nat): Path
    requires j <= |es|
  {
    if j == 0 then [] else if es[j - 1].kind != KeyValue then es[j - 1].path else Section(es, j - 1)
  }

  /** They belong to different elements of an array of tables: a header in between
      starts a new element of an array that both lie in. */
  predicate Separated(es: seq<Entry>, i: nat, j: nat)
    requires i < j < |es|
  {
    exists k | i < k < j :: es[k].kind == ArrayTable && es[k].path <= es[i].path && es[k].path <= es[j].path
  }

  /** A value is not a table: no other statement is at its path or below it. */
  predicate Overlap(es: seq<Entry>, i: nat, j: nat)
    requires i < |es| && j < |es|
  {
    es[i].kind == KeyValue && es[i].path <= es[j].path
  }

  /** A table has one header; only an array of tables has more. */
  predicate Reopened(es: seq<Entry>, i: nat, j: nat)
    requires i < |es| && j < |es|
  {
    && es[i].kind != KeyValue && es[j].kind != KeyValue && es[i].path == es[j].path
    && !(es[i].kind == ArrayTable && es[j].kind == ArrayTable)
  }

  /** A table that dotted keys define has no header: the pair's own key, below the
      table in force, goes through the headed table. */
  predicate HeadedAndDotted(es: seq<Entry>, h: nat, p: nat)
    requires h < |es| && p < |es|
  {
    && es[h].kind != KeyValue && es[p].kind == KeyValue
    && es[h].path < es[p].path && |Section(es, p)| < |es[h].path|
  }

  /** An array's first header comes before anything in it. */
  predicate LateArray(es: seq<Entry>, i: nat, j: nat)
    requires i < j < |es|
  {
    && es[j].kind == ArrayTable && es[j].path <= es[i].path
    && !exists k | 0 <= k <= i :: es[k].kind == ArrayTable && es[k].path == es[j].path && !Separated(es, k, j)
  }

  predicate Clash(es: seq<Entry>, i: nat, j: nat)
    requires i < j < |es|
  {
    && !Separated(es, i, j)
    && (|| Overlap(es, i, j) || Overlap(es, j, i) || Reopened(es, i, j)
        || HeadedAndDotted(es, i, j) || HeadedAndDotted(es, j, i) || LateArray(es, i, j))
  }

  /** The document is one that TOML allows. */
  predicate Sound(es: seq<Entry>) {
    forall i: nat, j: nat | i < j < |es| :: !Clash(es, i, j)
  }

  // ---- values do not matter

  predicate SameShape(es: seq<Entry>, fs: seq<Entry>) {
    |es| == |fs| && forall i | 0 <= i < |es| :: es[i].kind == fs[i].kind && es[i].path == fs[i].path
  }

  lemma {:induction false} SameSection(es: seq<Entry>, fs: seq<Entry>, j: nat)
    requires SameShape(es, fs) && j <= |es|
    ensures Section(es, j) == Section(fs, j)
  {
    if j > 0 {
      SameSection(es, fs, j - 1);
    }
  }

  lemma SameSeparated(es: seq<Entry>, fs: seq<Entry>, i: nat, j: nat)
    requires SameShape(es, fs) && i < j < |es|
    ensures Separated(es, i, j) == Separated(fs, i, j)
  {
    if k :| i < k < j && es[k].kind == ArrayTable && es[k].path <= es[i].path && es[k].path <= es[j].path {
      assert fs[k].kind == ArrayTable && fs[k].path <= fs[i].path && fs[k].path <= fs[j].path;
    }
    if k :| i < k < j && fs[k].kind == ArrayTable && fs[k].path <= fs[i].path && fs[k].path <= fs[j].path {
      assert es[k].kind == ArrayTable && es[k].path <= es[i].path && es[k].path <= es[j].path;
    }
  }

  lemma SameLate(es: seq<Entry>, fs: seq<Entry>, i: nat, j: nat)
    requires SameShape(es, fs) && i < j < |es|
    ensures LateArray(es, i, j) == LateArray(fs, i, j)
  {
    forall k: nat, l: nat | k < l < |es| ensures Separated(es, k, l) == Separated(fs, k, l) {
      SameSeparated(es, fs, k, l);
    }
    hide Separated;
    if k: nat :| k <= i && es[k].kind == ArrayTable && es[k].path == es[j].path && !Separated(es, k, j) {
      assert fs[k].kind == ArrayTable && fs[k].path == fs[j].path && !Separated(fs, k, j);
    }
    if k: nat :| k <= i && fs[k].kind == ArrayTable && fs[k].path == fs[j].path && !Separated(fs, k, j) {
      assert es[k].kind == ArrayTable && es[k].path == es[j].path && !Separated(es, k, j);
    }
  }

  lemma ShapeSound(es: seq<Entry>, fs: seq<Entry>)
    requires SameShape(es, fs) && Sound(es)
    ensures Sound(fs)
  {
    forall i: nat, j: nat | i < j < |fs| ensures !Clash(fs, i, j) {
      assert !Clash(es, i, j);
      SameSection(es, fs, i);
      SameSection(es, fs, j);
      SameSeparated(es, fs, i, j);
      SameLate(es, fs, i, j);
      hide Separated, Section, LateArray;
    }
  }

  // ---- one more pair, in the middle of a document

  /** Where an entry of the document with one more stands in the document without it. */
  function Old(m: nat, i: nat): nat
    requires i != m
  {
    if i < m then i else i - 1
  }

  function With(es: seq<Entry>, m: nat, e: Entry): seq<Entry>
    requires m <= |es|
  {
    es[..m] + [e] + es[m..]
  }

  lemma OldAt(es: seq<Entry>, m: nat, e: Entry, i: nat)
    requires m <= |es| && i < |es| + 1 && i != m
    ensures |With(es, m, e)| == |es| + 1 && With(es, m, e)[i] == es[Old(m, i)] && With(es, m, e)[m] == e
  {
  }

  lemma {:induction false} OldSection(es: seq<Entry>, m: nat, e: Entry, j: nat)
    requires m <= |es| && j <= |es| + 1 && e.kind == KeyValue
    ensures Section(With(es, m, e), j) == Section(es, if j <= m then j else j - 1)
  {
    if j > 0 {
      if j - 1 != m {
        OldAt(es, m, e, j - 1);
      } else {
        assert With(es, m, e)[m] == e;
      }
      OldSection(es, m, e, j - 1);
    }
  }

  /** `fs` is `es` with one pair more at `m`. */
  predicate Shifted(es: seq<Entry>, fs: seq<Entry>, m: nat) {
    && |fs| == |es| + 1 && m < |fs| && fs[m].kind == KeyValue
    && forall k | 0 <= k < |fs| && k != m :: fs[k] == es[Old(m, k)]
  }

  lemma WithShifted(es: seq<Entry>, m: nat, e: Entry)
    requires m <= |es| && e.kind == KeyValue
    ensures Shifted(es, With(es, m, e), m)
  {
  }

  lemma SeparatedDown(es: seq<Entry>, fs: seq<Entry>, m: nat, i: nat, j: nat)
    requires Shifted(es, fs, m) && i < j < |fs| && i != m && j != m && Separated(fs, i, j)
    ensures Separated(es, Old(m, i), Old(m, j))
  {
    var k :| i < k < j && fs[k].kind == ArrayTable && fs[k].path <= fs[i].path && fs[k].path <= fs[j].path;
    assert k != m && es[Old(m, k)] == fs[k];
  }

  lemma SeparatedUp(es: seq<Entry>, fs: seq<Entry>, m: nat, i: nat, j: nat)
    requires Shifted(es, fs, m) && i < j < |fs| && i != m && j != m && Separated(es, Old(m, i), Old(m, j))
    ensures Separated(fs, i, j)
  {
    var a, b := Old(m, i), Old(m, j);
    var k :| a < k < b && es[k].kind == ArrayTable && es[k].path <= es[a].path && es[k].path <= es[b].path;
    var l := if k < m then k else k + 1;
    assert Old(m, l) == k && fs[l] == es[k];
  }

  lemma OldSeparated(es: seq<Entry>, fs: seq<Entry>, m: nat, i: nat, j: nat)
    requires Shifted(es, fs, m) && i < j < |fs| && i != m && j != m
    ensures Old(m, i) < Old(m, j) < |es| && Separated(fs, i, j) == Separated(es, Old(m, i), Old(m, j))
  {
    assert Old(m, i) < Old(m, j) < |es|;
    hide Separated, Shifted, Old;
    if Separated(fs, i, j) {
      SeparatedDown(es, fs, m, i, j);
    }
    if Separated(es, Old(m, i), Old(m, j)) {
      SeparatedUp(es, fs, m, i, j);
    }
  }

  lemma OldLate(es: seq<Entry>, fs: seq<Entry>, m: nat, i: nat, j: nat)
    requires Shifted(es, fs, m) && i < j < |fs| && i != m && j != m
    ensures LateArray(fs, i, j) == LateArray(es, Old(m, i), Old(m, j))
  {
    var a, b := Old(m, i), Old(m, j);
    forall k: nat | k < j && k != m ensures Separated(fs, k, j) == Separated(es, Old(m, k), b) {
      OldSeparated(es, fs, m, k, j);
    }
    hide Separated;
    if k: nat :| k <= a && es[k].kind == ArrayTable && es[k].path == es[b].path && !Separated(es, k, b) {
      var l := if k < m then k else k + 1;
      assert Old(m, l) == k && fs[l] == es[k];
    }
    if k: nat :| k <= i && fs[k].kind == ArrayTable && fs[k].path == fs[j].path && !Separated(fs, k, j) {
      assert k != m && es[Old(m, k)] == fs[k];
    }
  }

  lemma OldClash(es: seq<Entry>, m: nat, e: Entry, i: nat, j: nat)
    requires m <= |es| && i < j < |es| + 1 && i != m && j != m && e.kind == KeyValue
    requires Clash(With(es, m, e), i, j)
    ensures Old(m, i) < Old(m, j) && Clash(es, Old(m, i), Old(m, j))
  {
    var fs, a, b := With(es, m, e), Old(m, i), Old(m, j);
    WithShifted(es, m, e);
    OldSection(es, m, e, i);
    OldSection(es, m, e, j);
    OldSeparated(es, fs, m, i, j);
    OldLate(es, fs, m, i, j);
    assert fs[i] == es[a] && fs[j] == es[b] && Section(fs, i) == Section(es, a) && Section(fs, j) == Section(es, b);
    hide Separated, Section, LateArray, With, Shifted, Old;
  }

  /** Nothing else is at the pair's path or below it, no value is above it, no array
      of tables is on the way to it, and its key is one segment below its table. */
  predicate Room(es: seq<Entry>, key: Path) {
    forall e <- es :: !(key <= e.path) && (e.kind == KeyValue || e.kind == ArrayTable ==> !(e.path <= key))
  }

  lemma NewApart(es: seq<Entry>, m: nat, e: Entry, i: nat)
    requires m <= |es| && e.kind == KeyValue && Room(es, e.path) && |e.path| == |Section(es, m)| + 1
    requires i < |es| + 1 && i != m
    ensures i < m ==> !Clash(With(es, m, e), i, m)
    ensures m < i ==> !Clash(With(es, m, e), m, i)
  {
    var fs := With(es, m, e);
    OldAt(es, m, e, i);
    OldSection(es, m, e, m);
    assert fs[i] in es;
    hide Separated, Section, With;
  }

  /** There is room for a pair in a sound document. */
  lemma PairSound(es: seq<Entry>, m: nat, e: Entry)
    requires Sound(es) && m <= |es| && e.kind == KeyValue && Room(es, e.path) && |e.path| == |Section(es, m)| + 1
    ensures Sound(With(es, m, e))
  {
    var fs := With(es, m, e);
    forall i: nat, j: nat | i < j < |fs| ensures !Clash(fs, i, j) {
      if i == m {
        NewApart(es, m, e, j);
      } else if j == m {
        NewApart(es, m, e, i);
      } else if Clash(fs, i, j) {
        OldClash(es, m, e, i, j);
      }
    }
  }

  // ---- one more header, at the end

  lemma {:induction false} FrontSection(es: seq<Entry>, e: Entry, j: nat)
    requires j <= |es|
    ensures Section(es + [e], j) == Section(es, j)
  {
    if j > 0 {
      FrontSection(es, e, j - 1);
    }
  }

  lemma FrontSeparated(es: seq<Entry>, e: Entry, i: nat, j: nat)
    requires i < j < |es|
    ensures Separated(es + [e], i, j) == Separated(es, i, j)
  {
    var fs := es + [e];
    assert forall k | 0 <= k < |es| :: fs[k] == es[k];
  }

  lemma FrontClash(es: seq<Entry>, e: Entry, i: nat, j: nat)
    requires i < j < |es|
    ensures Clash(es + [e], i, j) == Clash(es, i, j)
  {
    var fs := es + [e];
    assert forall k | 0 <= k < |es| :: fs[k] == es[k];
    FrontSection(es, e, i);
    FrontSection(es, e, j);
    forall k: nat, l: nat | k < l < |es| ensures Separated(fs, k, l) == Separated(es, k, l) {
      FrontSeparated(es, e, k, l);
    }
    hide Separated, Section;
    assert LateArray(fs, i, j) == LateArray(es, i, j) by {
      if k: nat :| k <= i && es[k].kind == ArrayTable && es[k].path == es[j].path && !Separated(es, k, j) {
        assert fs[k].kind == ArrayTable && fs[k].path == fs[j].path && !Separated(fs, k, j);
      }
      if k: nat :| k <= i && fs[k].kind == ArrayTable && fs[k].path == fs[j].path && !Separated(fs, k, j) {
        assert es[k].kind == ArrayTable && es[k].path == es[j].path && !Separated(es, k, j);
      }
    }
    hide LateArray;
  }

  /** No header is at the path, no value above it, and no dotted key goes through it. */
  predicate Free(es: seq<Entry>, path: Path) {
    forall e <- es ::
      (e.kind == KeyValue ==> !(e.path <= path) && !(path <= e.path)) && (e.kind != KeyValue ==> e.path != path)
  }

  lemma HeaderSound(es: seq<Entry>, e: Entry)
    requires Sound(es) && e.kind == Table && Free(es, e.path)
    ensures Sound(es + [e])
  {
    var fs := es + [e];
    forall i: nat, j: nat | i < j < |fs| ensures !Clash(fs, i, j) {
      if j < |es| {
        FrontClash(es, e, i, j);
      } else {
        assert fs[i] in es && fs[j] == e;
        hide Separated, Section;
      }
    }
  }

  // ---- what a clash with one entry rules out

  /** Next to a pair in a sound document no other statement is at its path or below it,
      unless an array of tables is on the way to it. */
  lemma {:induction false} AloneAt(es: seq<Entry>, y: nat, o: nat)
    requires Sound(es) && y < |es| && o < |es| && o != y && es[y].kind == KeyValue && es[y].path != []
    requires forall e <- es | e.kind == ArrayTable :: !(e.path <= es[y].path[..|es[y].path| - 1])
    ensures !(es[y].path <= es[o].path)
    decreases if o < y then y - o else o - y
  {
    if es[y].path <= es[o].path {
      var i, j := if o < y then o else y, if o < y then y else o;
      assert !Clash(es, i, j);
      assert Overlap(es, y, o);
      var k: nat :| i < k < j && es[k].kind == ArrayTable && es[k].path <= es[i].path && es[k].path <= es[j].path;
      assert es[k] in es;
      PrefixOrAll(es[k].path, es[y].path);
      AloneAt(es, y, k);
    }
  }

  lemma PrefixOrAll(p: Path, q: Path)
    requires p <= q && q != []
    ensures p == q || p <= q[..|q| - 1]
  {
    if |p| < |q| {
      assert q[..|q| - 1][..|p|] == q[..|p|];
    }
  }

  lemma NotSeparated(es: seq<Entry>, i: nat, j: nat, p: Path)
    requires i < j < |es| && (p == es[i].path || p == es[j].path)
    requires forall e <- es | e.kind == ArrayTable :: !(e.path <= p)
    ensures !Separated(es, i, j)
  {
    forall k | i < k < j && es[k].kind == ArrayTable ensures !(es[k].path <= es[i].path && es[k].path <= es[j].path) {
      assert es[k] in es;
    }
  }

  lemma PrefixOn(p: Path, q: Path, r: Path)
    requires q <= r
    ensures p <= q ==> p <= r
  {
    if p <= q {
      assert r[..|q|][..|p|] == r[..|p|];
    }
  }

  /** And no value is above it. */
  lemma NoneAbove(es: seq<Entry>, y: nat, o: nat)
    requires Sound(es) && y < |es| && o < |es| && o != y && es[o].kind == KeyValue && es[y].path != []
    requires forall e <- es | e.kind == ArrayTable :: !(e.path <= es[y].path[..|es[y].path| - 1])
    ensures !(es[o].path <= es[y].path[..|es[y].path| - 1])
  {
    if es[o].path <= es[y].path[..|es[y].path| - 1] {
      var i, j := if o < y then o else y, if o < y then y else o;
      assert !Clash(es, i, j);
      forall e <- es | e.kind == ArrayTable ensures !(e.path <= es[o].path) {
        PrefixOn(e.path, es[o].path, es[y].path[..|es[y].path| - 1]);
      }
      NotSeparated(es, i, j, es[o].path);
      PrefixOn(es[o].path, es[y].path[..|es[y].path| - 1], es[y].path);
    }
  }
}
