/** The list surgery behind the hook arrays: prune, upsert and cap, and what each
    does to the entries of one kind. */
module HookLists {

  /** The elements that satisfy `p`, in order. */
  function Keep<T>(es: seq<T>, p: T -> bool): seq<T> {
    if es == [] then []
    else Keep(es[..|es| - 1], p) + if p(es[|es| - 1]) then [es[|es| - 1]] else []
  }

  function Not<T>(p: T -> bool): T -> bool {
    x => !p(x)
  }

  /** The place of the first element that satisfies `p`, or the length. */
  function First<T>(es: seq<T>, p: T -> bool): (k: nat)
    ensures k <= |es| && (k < |es| ==> p(es[k])) && forall j | 0 <= j < k :: !p(es[j])
  {
    if es == [] then 0
    else
      var n := |es| - 1;
      var k := First(es[..n], p);
      if k < n || p(es[n]) then k else n + 1
  }

  /** Replaces the first match in place, or appends. */
  function Upsert<T>(es: seq<T>, p: T -> bool, e: T): seq<T> {
    var k := First(es, p);
    if k < |es| then es[k := e] else es + [e]
  }

  /** Drops the first `drop` matches. */
  function DropFirst<T>(es: seq<T>, p: T -> bool, drop: int): seq<T> {
    if es == [] || drop <= 0 then es
    else if p(es[0]) then DropFirst(es[1..], p, drop - 1)
    else [es[0]] + DropFirst(es[1..], p, drop)
  }

  function Cap<T>(es: seq<T>, p: T -> bool, limit: nat): seq<T> {
    DropFirst(es, p, |Keep(es, p)| - limit)
  }

  // ---- the loops

  /** The source's prune loops. */
  method Prune<T>(es: seq<T>, p: T -> bool) returns (kept: seq<T>)
    ensures kept == Keep(es, Not(p))
  {
    kept := [];
    for i := 0 to |es|
      invariant kept == Keep(es[..i], Not(p))
    {
      assert es[..i + 1][..i] == es[..i];
      if !p(es[i]) {
        kept := kept + [es[i]];
      }
    }
    assert es[..|es|] == es;
  }

  method UpsertInto<T>(es: seq<T>, p: T -> bool, e: T) returns (out: seq<T>)
    ensures out == Upsert(es, p, e)
  {
    for i := 0 to |es|
      invariant forall j | 0 <= j < i :: !p(es[j])
    {
      if p(es[i]) {
        assert First(es, p) == i;
        return es[i := e];
      }
    }
    return es + [e];
  }

  method CountMatches<T>(es: seq<T>, p: T -> bool) returns (owned: nat)
    ensures owned == |Keep(es, p)|
  {
    owned := 0;
    for i := 0 to |es|
      invariant owned == |Keep(es[..i], p)|
    {
      assert es[..i + 1][..i] == es[..i];
      if p(es[i]) {
        owned := owned + 1;
      }
    }
    assert es[..|es|] == es;
  }

  lemma DropFirstStep<T>(es: seq<T>, i: nat, p: T -> bool, drop: int)
    requires i < |es|
    ensures DropFirst(es[i..], p, drop)
         == if drop > 0 && p(es[i]) then DropFirst(es[i + 1..], p, drop - 1)
             else [es[i]] + DropFirst(es[i + 1..], p, drop)
  {
    assert es[i..] == [es[i]] + es[i + 1..];
  }

  method CapAt<T>(es: seq<T>, p: T -> bool, limit: nat) returns (kept: seq<T>)
    ensures kept == Cap(es, p, limit)
  {
    var owned := CountMatches(es, p);
    var drop := owned - limit;
    hide Keep, DropFirst;
    kept := [];
    assert es[0..] == es;
    for i := 0 to |es|
      invariant kept + DropFirst(es[i..], p, drop) == Cap(es, p, limit)
    {
      DropFirstStep(es, i, p, drop);
      if drop > 0 && p(es[i]) {
        drop := drop - 1;
      } else {
        assert kept + ([es[i]] + DropFirst(es[i + 1..], p, drop)) == kept + [es[i]] + DropFirst(es[i + 1..], p, drop);
        kept := kept + [es[i]];
      }
    }
    DropFirstNone<T>(p, drop);
    assert es[|es|..] == [];
  }

  lemma DropFirstNone<T>(p: T -> bool, drop: int)
    ensures DropFirst([], p, drop) == []
  {
  }

  // ---- what they do to the elements of one kind

  lemma {:induction false} KeepJoin<T>(a: seq<T>, b: seq<T>, p: T -> bool)
    ensures Keep(a + b, p) == Keep(a, p) + Keep(b, p)
  {
    if b == [] {
      assert a + b == a;
    } else {
      var n := |b| - 1;
      KeepJoin(a, b[..n], p);
      assert (a + b)[..|a| + n] == a + b[..n];
    }
  }

  lemma KeepOne<T>(e: T, p: T -> bool)
    ensures Keep([e], p) == if p(e) then [e] else []
  {
    assert [e][..0] == [];
  }

  lemma {:induction false} KeepIs<T>(es: seq<T>, p: T -> bool, x: T)
    ensures x in Keep(es, p) <==> x in es && p(x)
  {
    if es != [] {
      KeepIs(es[..|es| - 1], p, x);
      assert es == es[..|es| - 1] + [es[|es| - 1]];
    }
  }

  lemma KeepLast<T>(es: seq<T>, p: T -> bool)
    requires es != []
    ensures (var n := |es| - 1; Keep(es, p) == if p(es[n]) then Keep(es[..n], p) + [es[n]] else Keep(es[..n], p))
  {
  }

  lemma KeepCons<T>(es: seq<T>, p: T -> bool)
    requires es != []
    ensures Keep(es, p) == if p(es[0]) then [es[0]] + Keep(es[1..], p) else Keep(es[1..], p)
  {
    assert es == [es[0]] + es[1..];
    KeepJoin([es[0]], es[1..], p);
    KeepOne(es[0], p);
  }

  /** Pruning one kind leaves a kind that excludes it alone. */
  lemma {:induction false} KeepPruned<T>(es: seq<T>, p: T -> bool, q: T -> bool)
    requires forall i | 0 <= i < |es| :: q(es[i]) ==> !p(es[i])
    ensures Keep(Keep(es, Not(p)), q) == Keep(es, q)
  {
    if es != [] {
      var n := |es| - 1;
      KeepPruned(es[..n], p, q);
      KeepLast(es, Not(p));
      KeepLast(es, q);
      KeepJoin(Keep(es[..n], Not(p)), [es[n]], q);
      KeepOne(es[n], q);
    }
  }

  /** Pruning a kind leaves none of a kind inside it. */
  lemma {:induction false} KeepNone<T>(es: seq<T>, p: T -> bool, q: T -> bool)
    requires forall i | 0 <= i < |es| :: q(es[i]) ==> p(es[i])
    ensures Keep(Keep(es, Not(p)), q) == []
  {
    if es != [] {
      var n := |es| - 1;
      KeepNone(es[..n], p, q);
      KeepLast(es, Not(p));
      KeepLast(es, q);
      KeepJoin(Keep(es[..n], Not(p)), [es[n]], q);
      KeepOne(es[n], q);
    }
  }

  /** Pruning only some of a kind is pruning within it. */
  lemma {:induction false} KeepWithin<T>(es: seq<T>, p: T -> bool, q: T -> bool)
    ensures Keep(Keep(es, Not(p)), q) == Keep(Keep(es, q), Not(p))
  {
    if es != [] {
      var n := |es| - 1;
      KeepWithin(es[..n], p, q);
      KeepLast(es, Not(p));
      KeepLast(es, q);
      KeepJoin(Keep(es[..n], Not(p)), [es[n]], q);
      KeepJoin(Keep(es[..n], q), [es[n]], Not(p));
      KeepOne(es[n], q);
      KeepOne(es[n], Not(p));
      hide Keep;
    }
  }

  lemma Splice<T>(es: seq<T>, k: nat, e: T, q: T -> bool)
    requires k < |es|
    ensures Keep(es, q) == Keep(es[..k], q) + Keep([es[k]], q) + Keep(es[k + 1..], q)
    ensures Keep(es[k := e], q) == Keep(es[..k], q) + Keep([e], q) + Keep(es[k + 1..], q)
  {
    assert es == es[..k] + [es[k]] + es[k + 1..];
    assert es[k := e] == es[..k] + [e] + es[k + 1..];
    KeepJoin(es[..k] + [es[k]], es[k + 1..], q);
    KeepJoin(es[..k], [es[k]], q);
    KeepJoin(es[..k] + [e], es[k + 1..], q);
    KeepJoin(es[..k], [e], q);
  }

  /** An upsert leaves alone a kind that neither its target nor its entry is of. */
  lemma UpsertElsewhere<T>(es: seq<T>, p: T -> bool, e: T, q: T -> bool)
    requires !q(e) && forall i | 0 <= i < |es| :: p(es[i]) ==> !q(es[i])
    ensures Keep(Upsert(es, p, e), q) == Keep(es, q)
  {
    var k := First(es, p);
    KeepOne(e, q);
    if k < |es| {
      Splice(es, k, e, q);
      KeepOne(es[k], q);
    } else {
      KeepJoin(es, [e], q);
    }
  }

  /** Of its own kind, of which there was at most one, it leaves just the entry. */
  lemma UpsertAlone<T>(es: seq<T>, p: T -> bool, e: T)
    requires p(e) && |Keep(es, p)| <= 1
    ensures Keep(Upsert(es, p, e), p) == [e]
  {
    var k := First(es, p);
    KeepOne(e, p);
    if k < |es| {
      Splice(es, k, e, p);
      KeepOne(es[k], p);
    } else {
      KeepJoin(es, [e], p);
      if Keep(es, p) != [] {
        KeepIs(es, p, Keep(es, p)[0]);
      }
    }
  }

  /** Capping drops the earliest of its kind. */
  lemma {:induction false} DropFirstOwn<T>(es: seq<T>, p: T -> bool, drop: int)
    requires drop <= |Keep(es, p)|
    ensures Keep(DropFirst(es, p, drop), p) == if drop <= 0 then Keep(es, p) else Keep(es, p)[drop..]
  {
    if es != [] && drop > 0 {
      KeepCons(es, p);
      hide Keep;
      var rest := Keep(es[1..], p);
      if p(es[0]) {
        DropFirstOwn(es[1..], p, drop - 1);
        assert ([es[0]] + rest)[drop..] == rest[drop - 1..];
      } else {
        DropFirstOwn(es[1..], p, drop);
        KeepCons([es[0]] + DropFirst(es[1..], p, drop), p);
      }
    }
  }

  lemma {:induction false} DropFirstElsewhere<T>(es: seq<T>, p: T -> bool, drop: int, q: T -> bool)
    requires forall i | 0 <= i < |es| :: p(es[i]) ==> !q(es[i])
    ensures Keep(DropFirst(es, p, drop), q) == Keep(es, q)
  {
    if es != [] && drop > 0 {
      KeepCons(es, q);
      if p(es[0]) {
        DropFirstElsewhere(es[1..], p, drop - 1, q);
      } else {
        DropFirstElsewhere(es[1..], p, drop, q);
        KeepCons([es[0]] + DropFirst(es[1..], p, drop), q);
      }
      hide Keep;
    }
  }

  lemma {:induction false} KeepSame<T>(es: seq<T>, p: T -> bool, q: T -> bool)
    requires forall i | 0 <= i < |es| :: p(es[i]) <==> q(es[i])
    ensures Keep(es, p) == Keep(es, q)
  {
    if es != [] {
      KeepSame(es[..|es| - 1], p, q);
    }
  }

  lemma {:induction false} KeepEvery<T>(es: seq<T>, p: T -> bool)
    ensures (forall i | 0 <= i < |es| :: p(es[i])) ==> Keep(es, p) == es
    ensures (forall i | 0 <= i < |es| :: !p(es[i])) ==> Keep(es, p) == []
  {
    if es != [] {
      KeepEvery(es[..|es| - 1], p);
    }
  }

  lemma AppendOne<T>(es: seq<T>, e: T, q: T -> bool)
    ensures Keep(es + [e], q) == if q(e) then Keep(es, q) + [e] else Keep(es, q)
  {
    KeepJoin(es, [e], q);
    KeepOne(e, q);
  }

  lemma {:induction false} DropFirstFrom<T>(es: seq<T>, p: T -> bool, drop: int, x: T)
    ensures x in DropFirst(es, p, drop) ==> x in es
  {
    if es != [] && drop > 0 {
      DropFirstFrom(es[1..], p, if p(es[0]) then drop - 1 else drop, x);
    }
  }

  lemma {:induction false} KeepLength<T>(es: seq<T>, p: T -> bool)
    ensures |Keep(es, p)| <= |es|
    ensures |Keep(es, p)| == |es| ==> Keep(es, p) == es
  {
    if es != [] {
      KeepLength(es[..|es| - 1], p);
    }
  }
}
