/** What the components need of strings: order, letter case, white space, substrings. */
module Text {

  /** Strict lexicographic order, as the source compares strings. */
  predicate Less(a: string, b: string) {
    b != [] && (a == [] || a[0] < b[0] || (a[0] == b[0] && Less(a[1..], b[1..])))
  }

  lemma {:induction false} LessTotal(a: string, b: string)
    ensures a != b <==> Less(a, b) || Less(b, a)
    ensures !(Less(a, b) && Less(b, a))
  {
    if a != [] && b != [] {
      LessTotal(a[1..], b[1..]);
      assert a == [a[0]] + a[1..] && b == [b[0]] + b[1..];
    }
  }

  lemma {:induction false} LessTransitive(a: string, b: string, c: string)
    requires Less(a, b) && Less(b, c)
    ensures Less(a, c)
  {
    if a != [] && a[0] == b[0] == c[0] {
      LessTransitive(a[1..], b[1..], c[1..]);
    }
  }

  /** The strings first differ at `k`, where `a` ends or has the smaller character. */
  predicate DiffersAt(a: string, b: string, k: int) {
    0 <= k < |b| && k <= |a| && a[..k] == b[..k] && (k < |a| ==> a[k] < b[k])
  }

  lemma {:induction false} LessMeans(a: string, b: string)
    ensures Less(a, b) <==> exists k :: DiffersAt(a, b, k)
  {
    if a != [] && b != [] && a[0] == b[0] {
      LessMeans(a[1..], b[1..]);
      if k :| DiffersAt(a, b, k) {
        DiffersLater(a, b, k - 1);
      }
      if k :| DiffersAt(a[1..], b[1..], k) {
        DiffersLater(a, b, k);
      }
    } else if b != [] && (a == [] || a[0] < b[0]) {
      assert DiffersAt(a, b, 0);
    } else {
      forall k | k > 0 ensures !DiffersAt(a, b, k) {
        if DiffersAt(a, b, k) {
          SameFirst(a, b, k);
        }
      }
      assert !DiffersAt(a, b, 0);
    }
  }

  lemma SameFirst(a: string, b: string, k: int)
    requires DiffersAt(a, b, k) && k > 0
    ensures a != [] && b != [] && a[0] == b[0]
  {
    assert a[0] == a[..k][0] && b[0] == b[..k][0];
  }

  lemma DiffersLater(a: string, b: string, k: int)
    requires a != [] && b != [] && a[0] == b[0]
    ensures DiffersAt(a, b, k + 1) <==> k >= 0 && DiffersAt(a[1..], b[1..], k)
  {
    if k >= 0 && k + 1 <= |a| && k + 1 <= |b| {
      assert a[..k + 1] == [a[0]] + a[1..][..k];
      assert b[..k + 1] == [b[0]] + b[1..][..k];
    }
  }

  /** ASCII letters in lower case. */
  function Lower(s: string): (r: string)
    ensures |r| == |s|
  {
    if s == [] then []
    else
      var c := if 'A' <= s[0] <= 'Z' then s[0] + 32 as char else s[0];
      [c] + Lower(s[1..])
  }

  function SmallLetter(c: char): char {
    if 'A' <= c <= 'Z' then c + 32 as char else c
  }

  lemma {:induction false} LowerAt(s: string, i: nat)
    requires i < |s|
    ensures Lower(s)[i] == SmallLetter(s[i])
  {
    if i > 0 {
      LowerAt(s[1..], i - 1);
    }
  }

  /** The same letters, whichever case `a` writes them in; `b` is in lower case. */
  predicate SameLetters(a: string, b: string) {
    |a| == |b| && forall i | 0 <= i < |a| :: SmallLetter(a[i]) == b[i]
  }

  lemma SameLettersIs(a: string, b: string)
    ensures SameLetters(a, b) <==> Lower(a) == b
  {
    forall i | 0 <= i < |a| ensures Lower(a)[i] == SmallLetter(a[i]) {
      LowerAt(a, i);
    }
  }

  lemma {:induction false} LowerPrefix(s: string, k: nat)
    requires k <= |s|
    ensures Lower(s[..k]) == Lower(s)[..k]
  {
    if k > 0 {
      LowerPrefix(s[1..], k - 1);
      assert s[..k][1..] == s[1..][..k - 1];
    }
  }

  predicate IsSpace(c: char) {
    c in " \t\n\r" || c == 11 as char || c == 12 as char
  }

  function TrimLeft(s: string): string {
    if s != [] && IsSpace(s[0]) then TrimLeft(s[1..]) else s
  }

  function TrimSpace(s: string): string {
    if s != [] && IsSpace(s[|s| - 1]) then TrimSpace(s[..|s| - 1]) else TrimLeft(s)
  }

  predicate AllBlank(s: string) {
    forall i | 0 <= i < |s| :: IsSpace(s[i])
  }

  lemma {:induction false} TrimLeftIs(s: string) returns (a: string)
    ensures s == a + TrimLeft(s) && AllBlank(a)
    ensures TrimLeft(s) != "" ==> !IsSpace(TrimLeft(s)[0])
  {
    a := "";
    if s != [] && IsSpace(s[0]) {
      var rest := TrimLeftIs(s[1..]);
      a := [s[0]] + rest;
      assert s == [s[0]] + s[1..];
    }
  }

  /** Trimming takes off exactly the white space on both sides. */
  lemma {:induction false} TrimSpaceIs(s: string) returns (a: string, b: string)
    ensures s == a + TrimSpace(s) + b && AllBlank(a) && AllBlank(b)
    ensures TrimSpace(s) != "" ==> !IsSpace(TrimSpace(s)[0]) && !IsSpace(TrimSpace(s)[|TrimSpace(s)| - 1])
    decreases s
  {
    if s != [] && IsSpace(s[|s| - 1]) {
      var n := |s| - 1;
      var c;
      a, c := TrimSpaceIs(s[..n]);
      assert TrimSpace(s) == TrimSpace(s[..n]);
      hide TrimSpace, IsSpace;
      b := c + [s[n]];
      assert s == s[..n] + [s[n]] == a + TrimSpace(s) + (c + [s[n]]);
    } else {
      a := TrimLeftIs(s);
      b := "";
      assert TrimSpace(s) == TrimLeft(s);
      hide TrimSpace, TrimLeft, IsSpace;
      assert s == a + TrimLeft(s) + b;
      if TrimLeft(s) != "" {
        assert s[|s| - 1] == TrimLeft(s)[|TrimLeft(s)| - 1];
      }
    }
  }

  lemma {:induction false} TrimLeftOf(a: string, t: string)
    requires AllBlank(a) && (t == "" || !IsSpace(t[0]))
    ensures TrimLeft(a + t) == t
  {
    if a == "" {
      assert a + t == t;
    } else {
      assert (a + t)[1..] == a[1..] + t;
      TrimLeftOf(a[1..], t);
    }
  }

  lemma {:induction false} TrimSpaceOf(a: string, t: string, b: string)
    requires AllBlank(a) && AllBlank(b) && t != "" && !IsSpace(t[0]) && !IsSpace(t[|t| - 1])
    ensures TrimSpace(a + t + b) == t
    decreases b
  {
    var s := a + t + b;
    if b == "" {
      assert s == a + t;
      TrimLeftOf(a, t);
    } else {
      assert s[..|s| - 1] == a + t + b[..|b| - 1];
      TrimSpaceOf(a, t, b[..|b| - 1]);
    }
  }

  /** `sub` stands in `s` at `i`. */
  predicate At(s: string, sub: string, i: int) {
    0 <= i <= |s| - |sub| && s[i..i + |sub|] == sub
  }

  predicate Contains(s: string, sub: string) {
    exists i | 0 <= i <= |s| :: At(s, sub, i)
  }

  lemma ContainsWithin(a: string, s: string, c: string, sub: string)
    requires Contains(s, sub)
    ensures Contains(a + s + c, sub)
  {
    var i :| 0 <= i <= |s| && At(s, sub, i);
    assert (a + s + c)[|a| + i..|a| + i + |sub|] == s[i..i + |sub|];
    assert At(a + s + c, sub, |a| + i);
  }
}
