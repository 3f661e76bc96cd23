/** The trust editor keeps documents that TOML allows, and refuses only what it says
    it cannot edit. */
module TrustSound {
  import opened Wrappers
  import opened Utf8
  import opened TomlGrammar
  import opened TomlDocument
  import opened TomlRewrite
  import opened TomlSound
  import opened ProjectTrust
  import opened TrustText
  import opened TrustLaws
  import opened TrustGuarantees

  // ---- why a document may be left alone

  /** The projects table, or the project's, or the root, is an array of tables. */
  predicate InArray(es: seq<Entry>, path: Bytes) {
    exists e <- es :: e.kind == ArrayTable && e.path <= ["projects", path]
  }

  /** The project's table has no header and no trust level, but something in it is
      defined by other keys or in other tables. */
  predicate OnlyFromInside(es: seq<Entry>, path: Bytes) {
    && (forall e <- es :: e.kind == KeyValue ==> e.path != ["projects", path, "trust_level"])
    && (forall e <- es :: e.kind == Table ==> e.path != ["projects", path])
    && exists e <- es :: e.kind == KeyValue && ["projects", path] <= e.path
  }

  // ---- a successful edit

  lemma ProjectPrefix(path: Bytes)
    ensures TrustKey(path)[..2] == ProjectTable(path) && |TrustKey(path)| == 3
  {
  }

  /** Where no trust level is there yet, an editable document has room for one. */
  lemma TrustRoom(es: seq<Entry>, path: Bytes)
    requires FirstObjection(es, path).None? && !HasTrust(es, path)
    ensures Room(es, TrustKey(path))
  {
    ProjectPrefix(path);
    forall e <- es
        ensures !(TrustKey(path) <= e.path)
        ensures (e.kind == KeyValue || e.kind == ArrayTable ==> !(e.path <= TrustKey(path))) {
      NoObjection(es, path);
      assert !Trusts(e, path);
      if e.path <= TrustKey(path) {
        PrefixOrAll(e.path, TrustKey(path));
      }
    }
  }

  lemma {:induction false} HeaderNone(es: seq<Entry>, path: Bytes, e: Entry)
    requires HeaderIndex(es, path) == |es| && e in es
    ensures !Heads(e, path)
  {
    if es[0] != e {
      assert es == [es[0]] + es[1..];
      HeaderNone(es[1..], path, e);
    }
  }

  lemma TableFree(es: seq<Entry>, path: Bytes)
    requires FirstObjection(es, path).None? && HeaderIndex(es, path) == |es| && !HasDotted(es, path)
    ensures Free(es, ProjectTable(path))
  {
    forall e <- es ensures e.kind == KeyValue ==> !(e.path <= ProjectTable(path)) && !(ProjectTable(path) <= e.path) {
      NoObjection(es, path);
      ShortPath(e.path, path);
    }
    forall e <- es ensures e.kind != KeyValue ==> e.path != ProjectTable(path) {
      NoObjection(es, path);
      HeaderNone(es, path, e);
      ShortPath(e.path, path);
    }
  }

  lemma ShortPath(p: Path, path: Bytes)
    ensures p <= ProjectTable(path) ==> !(TrustKey(path) <= p) && p != TrustKey(path)
  {
  }

  lemma AfterShape(es: seq<Entry>, key: Path, q: Bytes)
    ensures SameShape(es, AllAtLevel(es, key, q))
  {
  }

  lemma InsertSound(es: seq<Entry>, h: nat, path: Bytes, level: Bytes)
    requires Sound(es) && h < |es| && Heads(es[h], path) && FirstObjection(es, path).None? && !HasTrust(es, path)
    ensures Sound(es[..h + 1] + [TrustEntry(path, level)] + es[h + 1..])
  {
    TrustRoom(es, path);
    assert Section(es, h + 1) == ProjectTable(path);
    assert With(es, h + 1, TrustEntry(path, level)) == es[..h + 1] + [TrustEntry(path, level)] + es[h + 1..];
    PairSound(es, h + 1, TrustEntry(path, level));
  }

  lemma RoomPast(es: seq<Entry>, e: Entry, key: Path)
    requires Room(es, key) && e.kind == Table && !(key <= e.path)
    ensures Room(es + [e], key)
  {
  }

  lemma AppendSound(es: seq<Entry>, path: Bytes, level: Bytes)
    requires Sound(es) && FirstObjection(es, path).None? && !HasTrust(es, path)
    requires HeaderIndex(es, path) == |es| && !HasDotted(es, path)
    ensures Sound(es + [Entry(Table, ProjectTable(path), [])] + [TrustEntry(path, level)])
  {
    var h, t := Entry(Table, ProjectTable(path), []), TrustEntry(path, level);
    TableFree(es, path);
    HeaderSound(es, h);
    TrustRoom(es, path);
    var fs := es + [h];
    RoomPast(es, h, TrustKey(path));
    assert Section(fs, |fs|) == ProjectTable(path);
    assert With(fs, |fs|, t) == fs + [t];
    PairSound(fs, |fs|, t);
  }

  lemma EditableIs(config: Bytes, path: Bytes, level: Bytes)
    requires Document(config).Some?
    ensures (var es := Document(config).value;
             SetTrust(config, path, level).Edited? <==>
             && FirstObjection(es, path).None?
             && (HasTrust(es, path) || HeaderIndex(es, path) < |es| || !HasDotted(es, path)))
  {
    hide Document, Rewritten, Appended, Inserted, LineEnd, FirstObjection, HeaderIndex, HasDotted, HasTrust;
  }

  /** What an edit leaves of a sound document it can reach is sound again. */
  lemma EditSound(config: Bytes, path: Bytes, level: Bytes)
    requires PlainLevel(level) && SetTrust(config, path, level).Edited?
    requires Document(config).Some? && Sound(Document(config).value) && Reaches(Document(config).value, path)
    ensures Document(SetTrust(config, path, level).config).Some?
    ensures Sound(Document(SetTrust(config, path, level).config).value)
  {
    EditedDocument(config, path, level);
    EditableIs(config, path, level);
    hide Document, SetTrust, Sound, FirstObjection, HeaderIndex, HasDotted, HasTrust, TrustEntry;
    AfterSound(Document(config).value, path, level);
  }

  lemma AfterSound(es: seq<Entry>, path: Bytes, level: Bytes)
    requires Sound(es) && Reaches(es, path) && FirstObjection(es, path).None?
    requires HasTrust(es, path) || HeaderIndex(es, path) < |es| || !HasDotted(es, path)
    ensures Sound(After(es, path, level))
  {
    var h := HeaderIndex(es, path);
    SanitizedIsIdentity(path);
    hide Sound, FirstObjection, HeaderIndex, HasDotted, HasTrust, Sanitized, ValidUtf8;
    if HasTrust(es, path) {
      AfterShape(es, TrustKey(path), Quoted(level));
      ShapeSound(es, After(es, path, level));
    } else if h < |es| {
      InsertSound(es, h, path, level);
    } else {
      AppendSound(es, path, level);
    }
  }

  // ---- and only what it says it cannot edit is refused

  lemma {:induction false} SomeObjection(es: seq<Entry>, path: Bytes) returns (o: nat)
    requires FirstObjection(es, path).Some?
    ensures o < |es| && Objection(es[o], path).Some?
  {
    if Objection(es[0], path).Some? {
      o := 0;
    } else {
      o := SomeObjection(es[1..], path);
      o := o + 1;
    }
  }

  /** Where the written value stands among the entries after an edit. */
  lemma WrittenAt(es: seq<Entry>, path: Bytes, level: Bytes) returns (y: nat)
    requires Reaches(es, path)
    ensures y < |After(es, path, level)| && Trusts(After(es, path, level)[y], path)
  {
    AfterGet(es, path, level);
    hide After;
    var e :| e in After(es, path, level) && Trusts(e, path);
    y :| 0 <= y < |After(es, path, level)| && After(es, path, level)[y] == e;
  }

  /** Every entry is still there after an edit, with its kind and path. */
  lemma StillThere(es: seq<Entry>, path: Bytes, level: Bytes, o: nat) returns (n: nat)
    requires o < |es|
    ensures n < |After(es, path, level)|
    ensures After(es, path, level)[n].kind == es[o].kind && After(es, path, level)[n].path == es[o].path
  {
    var h := HeaderIndex(es, path);
    hide HasTrust, HeaderIndex, Sanitized;
    n := if !HasTrust(es, path) && h < |es| && h < o then o + 1 else o;
  }

  lemma ArraysKept(es: seq<Entry>, path: Bytes, level: Bytes)
    requires !InArray(es, path)
    ensures forall e <- After(es, path, level) | e.kind == ArrayTable :: !(e.path <= ProjectTable(path))
  {
    forall e <- After(es, path, level) | e.kind == ArrayTable ensures !(e.path <= ProjectTable(path)) {
      AfterMember(es, path, level, e);
      hide After, Trusts, HasTrust, HeaderIndex, Sanitized;
    }
  }

  /** An objection that is not to an array is to a statement that cannot stand beside
      the written value. */
  lemma ObjectionUnsound(es: seq<Entry>, path: Bytes, level: Bytes)
    requires Reaches(es, path) && !InArray(es, path) && FirstObjection(es, path).Some?
    ensures !Sound(After(es, path, level))
  {
    var o := SomeObjection(es, path);
    assert es[o] in es;
    var y := WrittenAt(es, path, level);
    var n := StillThere(es, path, level, o);
    ArraysKept(es, path, level);
    ProjectPrefix(path);
    var out := After(es, path, level);
    hide After, Reaches, FirstObjection;
    if Sound(out) {
      if TrustKey(path) <= es[o].path {
        AloneAt(out, y, n);
      } else {
        NoneAbove(out, y, n);
      }
    }
  }

  lemma InsideIs(es: seq<Entry>, path: Bytes)
    ensures OnlyFromInside(es, path) <==> !HasTrust(es, path) && HeaderIndex(es, path) == |es| && HasDotted(es, path)
  {
    if HeaderIndex(es, path) == |es| {
      forall e <- es ensures !Heads(e, path) {
        HeaderNone(es, path, e);
      }
    } else {
      assert es[HeaderIndex(es, path)] in es;
    }
    hide HeaderIndex;
  }

  lemma InArrayObjects(es: seq<Entry>, path: Bytes)
    requires InArray(es, path)
    ensures FirstObjection(es, path).Some?
  {
    var e :| e in es && e.kind == ArrayTable && e.path <= ProjectTable(path);
    if FirstObjection(es, path).None? {
      NoObjection(es, path);
    }
  }

  /** An edit of a sound document in which the path can be reached succeeds exactly if
      the document with the value written in it is sound, no array of tables is on the
      way to the project's table, and that table is not only defined from inside. */
  lemma EditsExactly(config: Bytes, path: Bytes, level: Bytes)
    requires PlainLevel(level) && Document(config).Some?
    requires Sound(Document(config).value) && Reaches(Document(config).value, path)
    ensures (var es := Document(config).value;
             SetTrust(config, path, level).Edited? <==>
             Sound(After(es, path, level)) && !InArray(es, path) && !OnlyFromInside(es, path))
  {
    var es := Document(config).value;
    EditableIs(config, path, level);
    InsideIs(es, path);
    hide Document, SetTrust, Sound, After, FirstObjection, HasTrust, HasDotted, HeaderIndex, InArray, OnlyFromInside;
    if InArray(es, path) {
      InArrayObjects(es, path);
    } else if FirstObjection(es, path).Some? {
      ObjectionUnsound(es, path, level);
    } else if !OnlyFromInside(es, path) {
      AfterSound(es, path, level);
    }
  }

  /** The entries of a document whose project table has a subtable and nothing else. */
  function OnlySubtable(path: Bytes): seq<Entry> {
    [Entry(Table, ["projects", path, "sub"], []), Entry(KeyValue, ["projects", path, "sub", "x"], "1")]
  }

  /** The last reason is wider than it has to be: a table that only has a subtable
      could be given a header, and is refused. */
  lemma SubtableRefused(path: Bytes, level: Bytes)
    requires ValidUtf8(path)
    ensures (var es := OnlySubtable(path);
             Sound(es) && Sound(After(es, path, level)) && !InArray(es, path) && OnlyFromInside(es, path))
  {
    var es := OnlySubtable(path);
    SubtableSound(path);
    SubtableInside(path);
    SubtableAfter(es, path, level);
    SanitizedIsIdentity(path);
    InsideIs(es, path);
    hide Sanitized, ValidUtf8, Sound, InArray, OnlyFromInside, HasTrust, HeaderIndex, HasDotted;
  }

  lemma SubtableSound(path: Bytes)
    ensures Sound(OnlySubtable(path))
  {
    var es := OnlySubtable(path);
    assert Section(es, 1) == es[0].path;
    hide Section, Separated;
    forall i: nat, j: nat | i < j < |es| ensures !Clash(es, i, j) {
      assert i == 0 && j == 1;
    }
  }

  lemma SubtableInside(path: Bytes)
    ensures !InArray(OnlySubtable(path), path) && OnlyFromInside(OnlySubtable(path), path)
  {
    var es := OnlySubtable(path);
    assert es[1] in es && es[1].kind == KeyValue && es[1].path[..2] == ["projects", path];
    assert |es[0].path| == 3 && |es[1].path| == 4;
    assert es[0].path != TrustKey(path) by { assert es[0].path[2] != TrustKey(path)[2]; }
  }

  lemma SubtableAfter(es: seq<Entry>, path: Bytes, level: Bytes)
    requires es == [Entry(Table, ["projects", path, "sub"], []), Entry(KeyValue, ["projects", path, "sub", "x"], "1")]
    ensures Sound(es + [Entry(Table, ProjectTable(path), [])] + [TrustEntry(path, level)])
  {
    var h, t := Entry(Table, ProjectTable(path), []), TrustEntry(path, level);
    var out := es + [h] + [t];
    assert out == [es[0], es[1], h, t];
    assert Section(out, 0) == [] && Section(out, 1) == es[0].path && Section(out, 3) == h.path;
    assert Section(out, 2) == Section(out, 1);
    assert es[0].path[2] != t.path[2] && es[1].path[2] != t.path[2];
    hide Section, Separated;
    forall i: nat, j: nat | i < j < |out| ensures !Clash(out, i, j) {
      assert (i == 0 && j == 1) || (i == 0 && j == 2) || (i == 0 && j == 3) || (i == 1 && j == 2)
             || (i == 1 && j == 3) || (i == 2 && j == 3);
    }
  }

  // ---- the fold, and the path that cannot be written

  /** Recording a decision under every spelling that can be reached keeps a document sound. */
  lemma {:induction false} FoldSound(config: Bytes, paths: seq<Bytes>, level: Bytes)
    requires PlainLevel(level) && Document(config).Some? && Sound(Document(config).value)
    requires forall p <- paths :: Reaches(Document(config).value, p)
    requires SetTrustAll(config, paths, level).Edited?
    ensures Document(SetTrustAll(config, paths, level).config).Some?
    ensures Sound(Document(SetTrustAll(config, paths, level).config).value)
    decreases |paths|
  {
    hide Document, SetTrust, Sound, Reaches, After;
    if paths != [] {
      EditSound(config, paths[0], level);
      EditedDocument(config, paths[0], level);
      forall p <- paths[1..] ensures Reaches(Document(SetTrust(config, paths[0], level).config).value, p) {
        ReachesKept(Document(config).value, p, level, paths[0]);
      }
      FoldSound(SetTrust(config, paths[0], level).config, paths[1..], level);
    }
  }

  /** A path that cannot be reached breaks the document with the second edit: it heads
      the same table twice. */
  lemma UnreachedBreaks(config: Bytes, path: Bytes, level: Bytes, level': Bytes)
    requires PlainLevel(level) && PlainLevel(level') && SetTrust(config, path, level).Edited?
    requires Document(config).Some? && !Reaches(Document(config).value, path)
    ensures (var second := SetTrust(SetTrust(config, path, level).config, path, level');
             second.Edited? && Document(second.config).Some? && !Sound(Document(second.config).value))
  {
    var es, out := Document(config).value, SetTrust(config, path, level).config;
    hide Document, Sound, Rewritten, Appended, Inserted, LineEnd, Sanitized;
    EditedDocument(config, path, level);
    Unobjectionable(config, path, level);
    AfterEditable(es, path, level, path);
    AppendsAgain(es, path, level);
    EditableIs(out, path, level');
    EditedDocument(out, path, level');
    HeadedTwice(es, path, level, level');
  }

  lemma HeadedTwice(es: seq<Entry>, path: Bytes, level: Bytes, level': Bytes)
    requires !Reaches(es, path) && !Reaches(After(es, path, level), path)
    ensures !Sound(After(After(es, path, level), path, level'))
  {
    var n := |es|;
    var out := After(After(es, path, level), path, level');
    var h := Entry(Table, ProjectTable(Sanitized(path)), []);
    hide Sanitized, HasTrust, HeaderIndex;
    assert out == es + [h] + [TrustEntry(Sanitized(path), level)] + [h] + [TrustEntry(Sanitized(path), level')];
    assert out[n] == h && out[n + 1].kind == KeyValue && out[n + 2] == h;
    assert Clash(out, n, n + 2);
  }
}
