/** Which response messages contain a given message, however deep. */
module MessageGraph {
  import opened Wrappers
  import opened Graph

  /** The fields of every message, each with the message it holds, if it holds one. */
  type Schema = map<string, seq<Option<string>>>

  /** The message fields of every message not in `avoid`. */
  function Edges(schema: Schema, avoid: set<string>): (string, string) -> bool {
    (a, b) => a !in avoid && a in schema && Some(b) in schema[a]
  }

  ghost predicate Contains(schema: Schema, msg: string, carrier: string) {
    Reachable(Edges(schema, {}), msg, carrier)
  }

  /** The visited set that one search shares between all its calls. */
  class Search {
    const schema: Schema
    const carrier: string
    var seen: set<string>

    constructor (schema: Schema, carrier: string)
      ensures this.schema == schema && this.carrier == carrier && seen == {}
    {
      this.schema, this.carrier, seen := schema, carrier, {};
    }

    /** True exactly if the message leads to the carrier without passing through a
        message visited before; after false, everything visited since leads only
        to visited messages. */
    method MessageContainsCarrier(msg: Option<string>) returns (found: bool)
      requires carrier !in seen
      modifies `seen
      ensures old(seen) <= seen && carrier !in seen
      ensures found <==> msg.Some? && Reachable(Edges(schema, old(seen)), msg.value, carrier)
      ensures !found ==>
                && (msg.Some? ==> msg.value in seen)
                && forall n, m | n in seen && Edges(schema, old(seen))(n, m) :: m in seen
      decreases schema.Keys - seen
    {
      if msg.None? {
        return false;
      }
      ghost var edge := Edges(schema, old(seen));
      if msg.value == carrier {
        ReachesSelf(edge, carrier);
        return true;
      }
      if msg.value in seen {
        OnlySelf(edge, msg.value, carrier);
        return false;
      }
      seen := seen + {msg.value};
      if msg.value !in schema {
        OnlySelf(edge, msg.value, carrier);
        return false;
      }
      var fields := schema[msg.value];
      var i := 0;
      while i < |fields|
        invariant i <= |fields|
        invariant old(seen) + {msg.value} <= seen && carrier !in seen
        invariant forall j | 0 <= j < i && fields[j].Some? :: fields[j].value in seen
        invariant forall n, m | n in seen && n != msg.value && edge(n, m) :: m in seen
      {
        if fields[i].Some? {
          ghost var inner := Edges(schema, seen);
          found := MessageContainsCarrier(fields[i]);
          if found {
            assert edge(msg.value, fields[i].value);
            ReachesMore(inner, edge, fields[i].value, carrier);
            ReachesVia(edge, msg.value, fields[i].value, carrier);
            return true;
          }
        }
        i := i + 1;
      }
      if Reachable(edge, msg.value, carrier) {
        ClosedReaches(edge, seen, msg.value, carrier);
      }
      return false;
    }
  }

  /** A message without edges reaches itself alone. */
  lemma OnlySelf(edge: (string, string) -> bool, a: string, b: string)
    requires a != b && forall m :: !edge(a, m)
    ensures !Reachable(edge, a, b)
  {
    if Reachable(edge, a, b) {
      ClosedReaches(edge, {a}, a, b);
    }
  }

  /** One search from a fresh visited set decides containment, cycles and all. */
  method ContainsCarrier(schema: Schema, msg: Option<string>, carrier: string) returns (found: bool)
    ensures found <==> msg.Some? && Contains(schema, msg.value, carrier)
  {
    var search := new Search(schema, carrier);
    found := search.MessageContainsCarrier(msg);
  }

  datatype Method = Method(path: string, output: Option<string>, streaming: bool)

  /** The unary procedures whose response contains the carrier; the search starts
      afresh for each, so an earlier answer never hides a later one. */
  method ProceduresContainingCarrier(schema: Schema, methods: seq<Method>, carrier: string)
    returns (procedures: seq<string>)
    ensures forall p :: p in procedures <==>
              exists m :: m in methods && m.path == p && !m.streaming && m.output.Some?
                  && Contains(schema, m.output.value, carrier)
  {
    procedures := [];
    for i := 0 to |methods|
      invariant forall p :: p in procedures <==>
                  exists m :: m in methods[..i] && m.path == p && !m.streaming && m.output.Some?
                      && Contains(schema, m.output.value, carrier)
    {
      var m := methods[i];
      assert methods[..i + 1] == methods[..i] + [m];
      if !m.streaming {
        var found := ContainsCarrier(schema, m.output, carrier);
        if found {
          procedures := procedures + [m.path];
        }
      }
    }
    assert methods[..|methods|] == methods;
  }

  /** Why the search starts afresh: with a visited set left over, a message that
      contains the carrier through a visited one is missed. */
  lemma LeftOverHides(schema: Schema, msg: string, through: string, carrier: string)
    requires msg != carrier && msg != through && msg in schema && schema[msg] == [Some(through)]
    requires Contains(schema, through, carrier) && through != carrier
    ensures Contains(schema, msg, carrier) && !Reachable(Edges(schema, {through}), msg, carrier)
  {
    ReachesVia(Edges(schema, {}), msg, through, carrier);
    if Reachable(Edges(schema, {through}), msg, carrier) {
      ClosedReaches(Edges(schema, {through}), {msg, through}, msg, carrier);
    }
  }
}
