/** Which URLs the commands bossd writes post to, told as bossd tells them: by a
    substring of the command. */
module HookURLs {
  import opened Text
  import opened HookConfig

  /** The characters of the ids bossd makes. */
  predicate Hex(s: string) {
    forall i | 0 <= i < |s| :: '0' <= s[i] <= '9' || 'a' <= s[i] <= 'f' || s[i] == '-'
  }

  predicate NoK(s: string) {
    forall i | 0 <= i < |s| :: s[i] != 'k'
  }

  lemma {:induction false} DecimalNoK(n: nat)
    ensures NoK(Decimal(n))
  {
    if n >= 10 {
      DecimalNoK(n / 10);
    }
  }

  lemma JoinNoK(a: string, b: string)
    ensures NoK(a + b) <==> NoK(a) && NoK(b)
  {
    if !NoK(a) {
      var i :| 0 <= i < |a| && a[i] == 'k';
      assert (a + b)[i] == 'k';
    }
    if !NoK(b) {
      var i :| 0 <= i < |b| && b[i] == 'k';
      assert (a + b)[|a| + i] == 'k';
    }
  }

  lemma HexNoK(s: string)
    requires Hex(s)
    ensures NoK(s)
  {
  }

  // ---- where a URL can stand in a written command

  /** The paths below `/hooks/` by which bossd tells its own entries. */
  predicate Told(path: string) {
    path == QUESTION || path == PROMPT_SUBMITTED || path == TURN_ENDED
  }

  /** Fixed text before and after a token, set off from it by a space and a quote. */
  predicate Around(a: string, token: string, c: string) {
    NoK(a) && NoK(c) && (token == "" || (a != "" && a[|a| - 1] == ' ' && c != "" && c[0] == '"'))
  }

  function Command(a: string, token: string, c: string, rest: string): string {
    a + token + c + HOOKS + rest
  }

  lemma ToldChars(path: string)
    requires Told(path)
    ensures (HOOKS + path)[4] == 'k'
    ensures ' ' !in HOOKS + path && '"' !in HOOKS + path
  {
  }

  lemma CommandAt(a: string, token: string, c: string, rest: string, i: nat)
    requires i < |Command(a, token, c, rest)|
    ensures (var s, n := Command(a, token, c, rest)[i], |a + token + c|;
             && (i < |a| ==> s == a[i])
             && (|a + token| <= i < n ==> s == c[i - |a + token|])
             && (n <= i < n + 7 ==> s == HOOKS[i - n])
             && (n + 7 <= i ==> s == rest[i - n - 7]))
  {
  }

  lemma KPlaces(a: string, token: string, c: string, rest: string, i: nat)
    requires Around(a, token, c) && NoK(rest) && i < |Command(a, token, c, rest)|
    requires Command(a, token, c, rest)[i] == 'k'
    ensures i == |a + token + c| + 4 || |a| <= i < |a + token|
  {
    CommandAt(a, token, c, rest, i);
  }

  lemma MatchPlain(s: string, path: string, i: int)
    requires Told(path) && At(s, HOOKS + path, i)
    ensures forall j | i <= j < i + |HOOKS + path| :: s[j] != ' ' && s[j] != '"'
  {
    ToldChars(path);
    var url := HOOKS + path;
    forall j | i <= j < i + |url| ensures s[j] in url {
      assert s[j] == s[i..i + |url|][j - i];
    }
  }

  /** A match whose `k` is the token's lies in the token: it holds no space and no quote. */
  lemma InToken(a: string, token: string, c: string, rest: string, path: string, i: int)
    requires Around(a, token, c) && Told(path)
    requires At(Command(a, token, c, rest), HOOKS + path, i) && |a| <= i + 4 < |a + token|
    ensures Contains(token, HOOKS + path)
  {
    var cmd, url := Command(a, token, c, rest), HOOKS + path;
    CommandAt(a, token, c, rest, |a| - 1);
    CommandAt(a, token, c, rest, |a + token|);
    MatchPlain(cmd, path, i);
    if |a| <= i && i + |url| <= |a + token| {
      assert token[i - |a|..i - |a| + |url|] == cmd[i..i + |url|];
      assert At(token, url, i - |a|);
    }
  }

  lemma FrontOfMatch(s: string, path: string, sub: string, i: int)
    requires path <= sub && At(s, HOOKS + sub, i)
    ensures At(s, HOOKS + path, i)
  {
    var n, m := |HOOKS + sub|, |HOOKS + path|;
    SliceFront(s, i, m, n);
    assert (HOOKS + sub)[..m] == HOOKS + path;
  }

  lemma SliceFront(s: string, i: int, m: nat, n: nat)
    requires 0 <= i && m <= n && i + n <= |s|
    ensures s[i..i + m] == s[i..i + n][..m]
  {
  }

  lemma URLFits(a: string, token: string, c: string, rest: string, sub: string)
    ensures At(Command(a, token, c, rest), HOOKS + sub, |a + token + c|) <==> sub <= rest
  {
    var cmd, n := Command(a, token, c, rest), |a + token + c|;
    assert cmd[n..] == HOOKS + rest;
    if sub <= rest {
      assert cmd[n..n + 7 + |sub|] == HOOKS + sub;
    }
    if At(cmd, HOOKS + sub, n) {
      assert cmd[n + 7..n + 7 + |sub|] == cmd[n..n + 7 + |sub|][7..] == sub;
      assert cmd[n + 7..] == rest;
    }
  }

  /** Where the token holds none of them, a command bossd writes contains a URL of the
      paths bossd looks for exactly if that URL is a prefix of the one it posts to. */
  lemma OnlyURL(a: string, token: string, c: string, rest: string, path: string, sub: string)
    requires Around(a, token, c) && NoK(rest) && Told(path) && path <= sub && !Contains(token, HOOKS + path)
    ensures Contains(Command(a, token, c, rest), HOOKS + sub) <==> sub <= rest
  {
    var cmd := Command(a, token, c, rest);
    URLFits(a, token, c, rest, sub);
    hide Command, Around, Told;
    if i :| 0 <= i <= |cmd| && At(cmd, HOOKS + sub, i) {
      assert cmd[i..i + |HOOKS + sub|][4] == 'k';
      FrontOfMatch(cmd, path, sub, i);
      KPlaces(a, token, c, rest, i + 4);
      if |a| <= i + 4 < |a + token| {
        InToken(a, token, c, rest, path, i);
      }
    }
  }

  // ---- written entries

  /** An entry bossd wrote posts, of the URLs under `kind`, exactly to those that this
      path and tail start with. */
  ghost predicate PostsTo(e: Entry, kind: string, path: string, tail: string) {
    forall sub | kind <= sub :: CommandContains(e, HOOKS + sub) <==> sub <= path + tail
  }

  lemma HostNoK(port: nat)
    ensures NoK(Host(port)) && Host(port) != ""
  {
    DecimalNoK(port);
    JoinNoK("http://127.0.0.1:", Decimal(port));
  }

  lemma PostsCommand(a: string, token: string, c: string, port: nat, path: string, tail: string, matcher: string)
    ensures (var e := Posts(a + token + c, port, HOOKS + path, tail, matcher);
             e.Group? && e.commands == [Command(a, token, c + Host(port), path + tail)])
  {
    var e := Posts(a + token + c, port, HOOKS + path, tail, matcher);
    assert e.commands[0] == Command(a, token, c + Host(port), path + tail);
  }

  lemma OneCommand(e: Entry, sub: string)
    requires e.Group? && |e.commands| == 1
    ensures CommandContains(e, sub) <==> Contains(e.commands[0], sub)
  {
    hide Contains;
  }

  lemma PostsThere(a: string, token: string, c: string, port: nat, path: string, tail: string, matcher: string,
                   kind: string)
    requires Around(a, token, c) && NoK(path) && NoK(tail) && Told(kind) && !Contains(token, HOOKS + kind)
    ensures PostsTo(Posts(a + token + c, port, HOOKS + path, tail, matcher), kind, path, tail)
  {
    var e := Posts(a + token + c, port, HOOKS + path, tail, matcher);
    var after := c + Host(port);
    HostNoK(port);
    JoinNoK(c, Host(port));
    JoinNoK(path, tail);
    PostsCommand(a, token, c, port, path, tail, matcher);
    hide Posts, Host, Command, NoK, Told, Contains, CommandContains;
    forall sub | kind <= sub ensures CommandContains(e, HOOKS + sub) <==> sub <= path + tail {
      OneCommand(e, HOOKS + sub);
      OnlyURL(a, token, after, path + tail, kind, sub);
    }
  }

  /** What may follow the id in a written command. */
  predicate EndsID(tail: string) {
    tail == "" || tail[0] == ' '
  }

  lemma PrefixLonger(a: string, b: string, s: string)
    requires s <= a + b && |a| < |s|
    ensures b != "" && s[|a|] == b[0]
  {
    assert s[|a|] == (a + b)[|a|];
  }

  lemma PrefixAfter(p: string, s: string, t: string)
    ensures p + s <= p + t <==> s <= t
  {
    assert (p + s)[|p|..] == s && (p + t)[|p|..] == t;
    if p + s <= p + t {
      assert (p + t)[..|p| + |s|][|p|..] == t[..|s|];
    }
  }

  /** A written entry posts to the URLs of exactly the ids its own starts with. */
  lemma PostsToPrefixes(e: Entry, path: string, own: string, tail: string, id: string)
    requires PostsTo(e, path, path + own, tail) && Hex(own) && Hex(id) && EndsID(tail)
    ensures Posting(path + id)(e) <==> id <= own
  {
    assert path + own + tail == path + (own + tail);
    PrefixAfter(path, id, own + tail);
    if id <= own + tail && |own| < |id| {
      PrefixLonger(own, tail, id);
    }
  }

  // ---- the heads of the commands

  const STRICT := "curl -sf --max-time 5 -X POST "
  const QUIET := "curl -s --max-time 2 -X POST "
  const BEARER := "-H \"Authorization: Bearer "

  lemma ConstantsNoK()
    ensures NoK(STRICT) && NoK(QUIET) && NoK(BEARER) && NoK("\" ") && NoK("") && NoK(JSON_BODY) && NoK(QUIETLY)
    ensures NoK(TURN_ENDED) && NoK(QUESTION) && NoK(PROMPT_SUBMITTED) && NoK(RUN_COMPLETE) && NoK(FINALIZE)
  {
    var header, body := "-H \"Content-Type: application/json\" ", "--data-binary @- ";
    assert NoK(header) && NoK(body);
    JoinNoK(header, body);
  }

  /** A command with its token between what stands before and after it. */
  lemma Framed(head: string, token: string, body: string)
    requires NoK(head) && NoK(body)
    ensures Around(head + BEARER, token, "\" " + body)
    ensures head + Bearer(token) + body == head + BEARER + token + ("\" " + body)
  {
    ConstantsNoK();
    JoinNoK(head, BEARER);
    JoinNoK("\" ", body);
    assert (head + BEARER)[|head| + |BEARER| - 1] == BEARER[|BEARER| - 1];
    assert Bearer(token) == BEARER + token + "\" ";
  }
}
