/** The blocking reason a refused start leaves, which is also where its head and base
    are read back from. */
module RepairReason {
  import opened Wrappers
  import opened RepairModel

  const STARTS := "automatic repair could not start "
  const TIMES := " times in a row over "
  const ON := " on "
  const BASE := " (base "
  const REFUSED := "; last refusal: "

  predicate Digits(s: string) {
    s != "" && forall i | 0 <= i < |s| :: '0' <= s[i] <= '9'
  }

  predicate OneWord(s: string) {
    s != "" && forall i | 0 <= i < |s| :: s[i] !in {' ', '\t', '\n', '\r', 12 as char}
  }

  predicate Without(s: string, c: char, d: char) {
    s != "" && c !in s && d !in s
  }

  function BasePart(base: Option<string>): string {
    if base.None? then "" else BASE + base.value + ")"
  }

  function Text(count: string, over: string, head: string, base: Option<string>, more: string): string {
    STARTS + (count + (TIMES + (over + (ON + (head + (BasePart(base) + (REFUSED + more)))))))
  }

  /** The reason as it is written; `more` is the refusal's first line and the advice. */
  function Reason(count: string, over: string, headSHA: string, baseSHA: string, more: string): string {
    Text(count, over, ShortSHA(headSHA), if baseSHA == "" then None else Some(ShortSHA(baseSHA)), more)
  }

  /** The pattern that is looked for at the start of a reason, with its groups. */
  predicate Reads(reason: string, count: string, over: string, head: string, base: Option<string>, more: string) {
    && Digits(count) && OneWord(over) && Without(head, ' ', ';') && (base.Some? ==> Without(base.value, ' ', ')'))
    && reason == Text(count, over, head, base, more)
  }

  function Groups(head: string, base: Option<string>): RepairStartBlock {
    RepairStartBlock(head, if base.Some? then base.value else "")
  }

  // ---- step by step

  lemma Inside(a: string, x: string, b: string, y: string)
    requires a + x == b + y && |a| < |b| && x != ""
    ensures x[0] in b
  {
    assert (a + x)[|a|] == (b + y)[|a|] == b[|a|];
  }

  /** Two words that end where the text goes on with a character neither holds. */
  lemma SameWord(a: string, x: string, b: string, y: string)
    requires a + x == b + y && x != "" && y != "" && x[0] !in b && y[0] !in a
    ensures a == b && x == y
  {
    if |a| < |b| {
      Inside(a, x, b, y);
    } else if |b| < |a| {
      Inside(b, y, a, x);
    } else {
      assert (a + x)[..|a|] == a && (b + y)[..|b|] == b;
      assert (a + x)[|a|..] == x && (b + y)[|b|..] == y;
    }
  }

  lemma SameFront(a: string, x: string, y: string)
    requires a + x == a + y
    ensures x == y
  {
    assert (a + x)[|a|..] == x && (a + y)[|a|..] == y;
  }

  /** One word is the front of the other, and what is left of the longer one leads the rest. */
  lemma Longer(a: string, x: string, b: string, y: string)
    requires a + x == b + y && |a| <= |b|
    ensures a == b[..|a|] && x == b[|a|..] + y
  {
    assert (a + x)[..|a|] == a && (b + y)[..|a|] == b[..|a|];
    assert (a + x)[|a|..] == x && (b + y)[|a|..] == b[|a|..] + y;
  }

  // ---- characters by place

  function Ch(s: string, i: int): char {
    if 0 <= i < |s| then s[i] else 0 as char
  }

  lemma ChJoin(a: string, b: string, i: int)
    ensures 0 <= i ==> Ch(a + b, i) == if i < |a| then Ch(a, i) else Ch(b, i - |a|)
  {
  }

  lemma ChIn(s: string, i: int, c: char)
    requires c !in s && c != 0 as char
    ensures Ch(s, i) != c
  {
  }

  lemma RefusedChars()
    ensures |REFUSED| == 16 && Ch(REFUSED, 0) == ';' && Ch(REFUSED, 1) == ' ' && Ch(REFUSED, 2) == 'l'
    ensures ')' !in REFUSED && '(' !in REFUSED
    ensures forall i | 1 <= i < 16 :: Ch(REFUSED, i) != ';'
  {
  }

  lemma BaseChars()
    ensures |BASE| == 7 && Ch(BASE, 0) == ' ' && Ch(BASE, 1) == '(' && Ch(BASE, 6) == ' '
    ensures ';' !in BASE && ')' !in BASE
    ensures forall i | 1 <= i < 6 :: Ch(BASE, i) != ' '
  {
  }

  // ---- the base

  lemma ParenFirst()
    ensures Ch(")", 0) == ')'
  {
  }

  /** A base is no longer than what was read as one: it would end within the next words. */
  lemma NoLongerBase(v: string, x: string, base: string, y: string)
    requires v + (")" + (REFUSED + x)) == base + (")" + (REFUSED + y)) && |base| <= 12
    ensures |base| <= |v|
  {
    RefusedChars();
    ParenFirst();
    hide Ch;
    var k := |base|;
    ChJoin(v, ")" + (REFUSED + x), k);
    ChJoin(")", REFUSED + x, k - |v|);
    ChJoin(REFUSED, x, k - |v| - 1);
    ChJoin(base, ")" + (REFUSED + y), k);
    ChJoin(")", REFUSED + y, 0);
    ChIn(REFUSED, k - |v| - 1, ')');
  }

  lemma BaseRead(v: string, x: string, base: string, y: string)
    requires Without(v, ' ', ')') && v + (")" + (REFUSED + x)) == base + (")" + (REFUSED + y))
    requires base != "" && |base| <= 12
    ensures v == base
  {
    var s, t := ")" + (REFUSED + x), ")" + (REFUSED + y);
    NoLongerBase(v, x, base, y);
    if |base| < |v| {
      Inside(base, t, v, s);
    } else {
      Longer(base, t, v, s);
    }
  }

  // ---- the head

  /** The text after the head: at its second character it tells whether a base follows. */
  lemma AfterHead(base: Option<string>, more: string)
    ensures (var z := BasePart(base) + (REFUSED + more);
             && z != ""
             && Ch(z, 0) == (if base.Some? then ' ' else ';') && Ch(z, 1) == (if base.Some? then '(' else ' ')
             && (base.Some? ==> Ch(z, 6) == ' ' && forall i | 1 <= i < 6 :: Ch(z, i) == Ch(BASE, i)))
  {
    RefusedChars();
    BaseChars();
    var z := BasePart(base) + (REFUSED + more);
    if base.Some? {
      assert z == BASE + (base.value + ")" + (REFUSED + more));
    } else {
      assert z == REFUSED + more;
    }
  }

  /** What is left of a head is not the start of the words after it. */
  lemma NotRefused(t: string, base: Option<string>, more: string, rest: string)
    requires 1 <= |t| <= 11
    ensures REFUSED + rest != t + (BasePart(base) + (REFUSED + more))
  {
    AfterHead(base, more);
    RefusedChars();
    hide Ch, BasePart;
    var z, n := BasePart(base) + (REFUSED + more), |t|;
    ChJoin(t, z, n);
    ChJoin(t, z, n + 1);
    ChJoin(REFUSED, rest, n);
    ChJoin(REFUSED, rest, n + 1);
    ChIn(REFUSED, n + 1, '(');
  }

  /** What is left of a head is a base, if it reads as one. */
  lemma IsBase(t: string, base: Option<string>, more: string, v: string, rest: string)
    requires 1 <= |t| <= 11 && Without(v, ' ', ')')
    requires BASE + (v + (")" + (REFUSED + rest))) == t + (BasePart(base) + (REFUSED + more))
    ensures base.None? && t == BASE + v + ")"
  {
    var z, n, m := BasePart(base) + (REFUSED + more), |t|, |v|;
    var x := BASE + (v + (")" + (REFUSED + rest)));
    AfterHead(base, more);
    assert base.None? && n == 8 + m by {
      RefusedChars();
      BaseChars();
      ParenFirst();
      hide Ch, BasePart;
      forall i ensures 0 <= i ==> Ch(x, i) == ChAfter(v, rest, i) {
        ChOf(v, rest, i);
      }
      ChJoin(t, z, n);
      ChJoin(t, z, n + 1);
      ChJoin(t, z, n + 6);
      forall i | 1 <= i < 6 ensures Ch(t + z, n + i) == Ch(z, i) {
        ChJoin(t, z, n + i);
      }
      PlaceOf(v, rest, base, n, Ch(z, 0), Ch(z, 1), Ch(z, 6));
    }
    assert x == (BASE + v + ")") + (REFUSED + rest);
    hide Ch, BasePart;
    Longer(BASE + v + ")", REFUSED + rest, t, z);
  }

  /** The text `BASE`, a base, its bracket and the words after it, character by character. */
  function ChAfter(v: string, rest: string, i: int): char {
    if i < 7 then Ch(BASE, i)
    else if i < 7 + |v| then Ch(v, i - 7)
    else if i == 7 + |v| then ')'
    else if i < 24 + |v| then Ch(REFUSED, i - 8 - |v|)
    else Ch(rest, i - 24 - |v|)
  }

  lemma ChOf(v: string, rest: string, i: int)
    ensures 0 <= i ==> Ch(BASE + (v + (")" + (REFUSED + rest))), i) == ChAfter(v, rest, i)
  {
    RefusedChars();
    BaseChars();
    ParenFirst();
    hide Ch;
    ChJoin(BASE, v + (")" + (REFUSED + rest)), i);
    ChJoin(v, ")" + (REFUSED + rest), i - 7);
    ChJoin(")", REFUSED + rest, i - 7 - |v|);
    ChJoin(REFUSED, rest, i - 8 - |v|);
  }

  /** Where the words after a head can stand in that text. */
  lemma PlaceOf(v: string, rest: string, base: Option<string>, n: nat, c: char, d: char, e: char)
    requires 1 <= n <= 11 && Without(v, ' ', ')')
    requires ChAfter(v, rest, n) == c && ChAfter(v, rest, n + 1) == d && ChAfter(v, rest, n + 6) == e
    requires if base.Some? then c == ' ' && d == '(' && e == ' ' else c == ';' && d == ' '
    requires base.Some? ==> forall i | 1 <= i < 6 :: ChAfter(v, rest, n + i) == Ch(BASE, i)
    ensures base.None? && n == 8 + |v|
  {
    RefusedChars();
    BaseChars();
    hide Ch;
    ChIn(v, n - 7, ' ');
    ChIn(v, n + 1 - 7, ' ');
    ChIn(v, n + 6 - 7, ' ');
    ChIn(BASE, n, ';');
    ChIn(BASE, |v| + 1, ')');
    assert base.Some? && n == 6 && |v| < 5 ==> ChAfter(v, rest, n + (|v| + 1)) == ')';
    ChIn(REFUSED, n + 1 - 8 - |v|, '(');
  }

  lemma {:induction false} UpToIs(a: string, b: string, c: char)
    requires c !in a && b != "" && b[0] == c
    ensures UpTo(a + b, c) == |a|
  {
    if a == "" {
      assert a + b == b;
    } else {
      assert (a + b)[1..] == a[1..] + b;
      UpToIs(a[1..], b, c);
    }
  }

  lemma PosedIs(h: string, v: string)
    requires Without(h, ' ', ';') && Without(v, ' ', ')')
    ensures Posed(h + BASE + v + ")") == Some(RepairStartBlock(h, v))
  {
    BaseChars();
    var head := h + BASE + v + ")";
    var n := |head| - 1;
    assert head[..|h|] == h && head[|h|..|h| + 7] == BASE && head[|h| + 7..n] == v && head[n] == ')';
    assert head == h + (BASE + v + ")");
    UpToIs(h, BASE + v + ")", ' ');
  }

  /** Whatever is read at the place of the head and the base is what the model says. */
  lemma HeadRead(h: string, b: Option<string>, rest: string, head: string, base: Option<string>, more: string)
    requires Without(h, ' ', ';') && (b.Some? ==> Without(b.value, ' ', ')'))
    requires |head| <= 12 && (base.Some? ==> base.value != "" && |base.value| <= 12)
    requires h + (BasePart(b) + (REFUSED + rest)) == head + (BasePart(base) + (REFUSED + more))
    ensures BlockOf(head, if base.Some? then base.value else "") == Some(Groups(h, b))
  {
    var x, z := BasePart(b) + (REFUSED + rest), BasePart(base) + (REFUSED + more);
    AfterHead(b, rest);
    AfterHead(base, more);
    hide BasePart, BlockOf, Posed;
    if |head| < |h| {
      Inside(head, z, h, x);
    } else {
      Longer(h, x, head, z);
      if |head| == |h| {
        assert head[|h|..] + z == z && head[..|h|] == head;
        BothRead(h, b, rest, base, more);
      } else {
        var t := head[|h|..];
        PosedRead(h, b, rest, t, base, more);
        assert head == h + t;
      }
    }
  }

  lemma PartIs(b: Option<string>, x: string)
    ensures b.None? ==> BasePart(b) + x == x
    ensures b.Some? ==> BasePart(b) + x == BASE + (b.value + (")" + x))
  {
    if b.Some? {
      Flat(BASE, b.value, ")", x);
    } else {
      assert "" + x == x;
    }
  }

  lemma Flat(a: string, b: string, c: string, d: string)
    ensures a + b + c + d == a + (b + (c + d))
  {
  }

  lemma BothRead(h: string, b: Option<string>, rest: string, base: Option<string>, more: string)
    requires Without(h, ' ', ';') && (b.Some? ==> Without(b.value, ' ', ')'))
    requires base.Some? ==> base.value != "" && |base.value| <= 12
    requires BasePart(b) + (REFUSED + rest) == BasePart(base) + (REFUSED + more)
    ensures BlockOf(h, if base.Some? then base.value else "") == Some(Groups(h, b))
  {
    hide Ch, BasePart, Posed;
    AfterHead(b, rest);
    AfterHead(base, more);
    PartIs(b, REFUSED + rest);
    PartIs(base, REFUSED + more);
    if b.Some? && base.Some? {
      var s, t := ")" + (REFUSED + rest), ")" + (REFUSED + more);
      SameFront(BASE, b.value + s, base.value + t);
      BaseRead(b.value, rest, base.value, more);
    }
  }

  lemma SpaceInside(h: string, t: string)
    requires t != "" && t[0] == ' '
    ensures ' ' in h + t
  {
    assert (h + t)[|h|] == t[0];
  }

  lemma PosedRead(h: string, b: Option<string>, rest: string, t: string, base: Option<string>, more: string)
    requires Without(h, ' ', ';') && (b.Some? ==> Without(b.value, ' ', ')')) && 1 <= |t| <= 11
    requires BasePart(b) + (REFUSED + rest) == t + (BasePart(base) + (REFUSED + more))
    ensures BlockOf(h + t, if base.Some? then base.value else "") == Some(Groups(h, b))
  {
    hide BasePart, Posed;
    PartIs(b, REFUSED + rest);
    if b.None? {
      NotRefused(t, base, more, rest);
    } else {
      IsBase(t, base, more, b.value, rest);
      PosedIs(h, b.value);
      Flat(h, BASE, b.value, ")");
      Assoc(BASE, b.value, ")");
      FirstOf(BASE, b.value + ")");
      SpaceInside(h, t);
    }
  }

  lemma Assoc(a: string, b: string, c: string)
    ensures a + b + c == a + (b + c)
  {
  }

  lemma FirstOf(a: string, b: string)
    requires a != ""
    ensures a + b != "" && (a + b)[0] == a[0]
  {
  }

  // ---- the whole reason

  lemma TextFronts(count: string, over: string, n: string, w: string, x: string, y: string)
    requires Digits(count) && OneWord(over) && Digits(n) && OneWord(w)
    requires STARTS + (count + (TIMES + (over + (ON + x)))) == STARTS + (n + (TIMES + (w + (ON + y))))
    ensures count == n && over == w && x == y
  {
    SameFront(STARTS, count + (TIMES + (over + (ON + x))), n + (TIMES + (w + (ON + y))));
    SameWord(count, TIMES + (over + (ON + x)), n, TIMES + (w + (ON + y)));
    SameFront(TIMES, over + (ON + x), w + (ON + y));
    SameWord(over, ON + x, w, ON + y);
    SameFront(ON, x, y);
  }

  lemma Shortened(sha: string)
    ensures |ShortSHA(sha)| <= 12 && (sha != "" <==> ShortSHA(sha) != "")
  {
  }

  lemma ReadBack(count: string, over: string, head: string, base: Option<string>, more: string,
                 n: string, w: string, h: string, b: Option<string>, rest: string)
    requires Digits(count) && OneWord(over) && Reads(Text(count, over, head, base, more), n, w, h, b, rest)
    requires |head| <= 12 && (base.Some? ==> base.value != "" && |base.value| <= 12)
    ensures BlockOf(head, if base.Some? then base.value else "") == Some(Groups(h, b))
  {
    hide BasePart, BlockOf, Digits, OneWord, Without;
    TextFronts(n, w, count, over, h + (BasePart(b) + (REFUSED + rest)), head + (BasePart(base) + (REFUSED + more)));
    HeadRead(h, b, rest, head, base, more);
  }

  /** Reading a blocking reason back finds a head and a base exactly if the model of the
      block does, and then the same. */
  lemma ReasonRead(count: string, over: string, headSHA: string, baseSHA: string, more: string, block: RepairStartBlock)
    requires Digits(count) && OneWord(over)
    ensures StartBlockOf(headSHA, baseSHA) == Some(block)
       <==> exists n, w, h, b, rest ::
              Reads(Reason(count, over, headSHA, baseSHA, more), n, w, h, b, rest) && Groups(h, b) == block
  {
    hide Text, Reads, BlockOf, Digits, OneWord, ShortSHA, Groups;
    var head := ShortSHA(headSHA);
    var base := if baseSHA == "" then None else Some(ShortSHA(baseSHA));
    Shortened(headSHA);
    Shortened(baseSHA);
    if StartBlockOf(headSHA, baseSHA) == Some(block) {
      ReasonWritten(count, over, head, base, more, block);
      var n, w, h, b, rest :| Reads(Text(count, over, head, base, more), n, w, h, b, rest) && Groups(h, b) == block;
      assert Reads(Reason(count, over, headSHA, baseSHA, more), n, w, h, b, rest);
    } else {
      forall n, w, h, b, rest | Reads(Reason(count, over, headSHA, baseSHA, more), n, w, h, b, rest)
        ensures Groups(h, b) != block
      {
        ReadBack(count, over, head, base, more, n, w, h, b, rest);
      }
    }
  }

  lemma SameText(count: string, over: string, head: string, base: Option<string>, more: string, h: string, v: string)
    requires head == h + BASE + v + ")" && base.None?
    ensures Text(count, over, head, base, more) == Text(count, over, h, Some(v), more)
  {
    var x := REFUSED + more;
    PartIs(base, x);
    PartIs(Some(v), x);
    Flat(h, BASE, v, ")");
    Flat(BASE, v, ")", x);
    Assoc(h, BASE + v + ")", x);
    Assoc(h, BASE + v, ")");
    Assoc(h, BASE, v);
    hide BasePart;
  }

  lemma ReasonWritten(count: string, over: string, head: string, base: Option<string>, more: string,
                      block: RepairStartBlock)
    requires Digits(count) && OneWord(over) && (base.Some? ==> base.value != "")
    requires BlockOf(head, if base.Some? then base.value else "") == Some(block)
    ensures exists n, w, h, b, rest ::
              Reads(Text(count, over, head, base, more), n, w, h, b, rest) && Groups(h, b) == block
  {
    hide Text, Posed, Digits, OneWord;
    if Without(head, ' ', ';') && (base.Some? ==> Without(base.value, ' ', ')')) {
      assert Reads(Text(count, over, head, base, more), count, over, head, base, more);
      assert Groups(head, base) == block;
    } else {
      var h, v := block.headSHA, block.baseSHA;
      PosedParts(head, block);
      SameText(count, over, head, base, more, h, v);
      assert Reads(Text(count, over, head, base, more), count, over, h, Some(v), more);
      assert Groups(h, Some(v)) == block;
    }
  }

  lemma PosedParts(head: string, block: RepairStartBlock)
    requires Posed(head) == Some(block)
    ensures Without(block.headSHA, ' ', ';') && Without(block.baseSHA, ' ', ')')
    ensures head == block.headSHA + BASE + block.baseSHA + ")"
  {
    var p, n := UpTo(head, ' '), |head| - 1;
    assert head == head[..p] + head[p..p + 7] + head[p + 7..n] + [head[n]];
  }
}
