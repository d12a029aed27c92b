/** Schema transforms: the graph check of the macro and the loop it generates. */
module Transform {
  import opened Wrappers

  type Name(==, !new)
  type Payload(==, !new)
  type Fault(==, !new)

  const U32_MAX: nat := 0xFFFF_FFFF

  /** A schema of an event name. */
  datatype Node = Node(name: Name, schema: nat)

  /** One declared transform; it advances the schema by exactly one and may rename. */
  datatype Edge = Edge(event: Name, from: nat, rename: Option<Name>)

  datatype Morsel = Morsel(node: Node, payload: Payload)

  datatype GraphError = Duplicate(index: nat) | Gap(index: nat) | Stops(index: nat, node: Node)

  datatype TransformError = UnsupportedSchema(node: Node) | Failed(fault: Fault)

  function Source(e: Edge): Node {
    Node(e.event, e.from)
  }

  function Target(e: Edge): Node {
    Node(if e.rename.Some? then e.rename.value else e.event, e.from + 1)
  }

  /** What parsing an edge has established. */
  predicate Parsed(edges: seq<Edge>) {
    forall i :: 0 <= i < |edges| ==> 1 <= edges[i].from < U32_MAX
  }

  function Sources(edges: seq<Edge>): set<Node> {
    set i | 0 <= i < |edges| :: Source(edges[i])
  }

  function Targets(edges: seq<Edge>): set<Node> {
    set i | 0 <= i < |edges| :: Target(edges[i])
  }

  function Declared(edges: seq<Edge>): set<Node> {
    Sources(edges) + Targets(edges)
  }

  ghost predicate NoDuplicates(edges: seq<Edge>) {
    forall i, j :: 0 <= i < j < |edges| ==> Source(edges[i]) != Source(edges[j])
  }

  /** `latest` holds the names of the nodes, each with its largest schema. */
  ghost predicate Tops(nodes: set<Node>, latest: map<Name, nat>) {
    && (forall node :: node in nodes ==> node.name in latest && node.schema <= latest[node.name])
    && (forall name :: name in latest ==> Node(name, latest[name]) in nodes)
  }

  /** `latest` holds the declared names, each with its largest declared schema. */
  ghost predicate Ranks(edges: seq<Edge>, latest: map<Name, nat>) {
    Tops(Declared(edges), latest)
  }

  // ----- the graph as a whole ---------------------------------------------------------------

  /** The first edge leaving a node. */
  function Find(edges: seq<Edge>, node: Node): (k: nat)
    ensures k <= |edges|
    ensures k < |edges| ==> Source(edges[k]) == node
    ensures k < |edges| <==> node in Sources(edges)
  {
    if edges == [] then 0
    else
      var n := |edges| - 1;
      var k := Find(edges[..n], node);
      assert Sources(edges) == Sources(edges[..n]) + {Source(edges[n])};
      if k < n then k else if Source(edges[n]) == node then n else |edges|
  }

  /** A chain of transforms leads to the node from a node of schema 1. */
  ghost predicate Rooted(edges: seq<Edge>, node: Node)
    requires Parsed(edges)
    decreases node.schema
  {
    node.schema == 1 ||
    exists i :: 0 <= i < |edges| && Target(edges[i]) == node && Rooted(edges, Source(edges[i]))
  }

  /** Where following the transforms from a node ends. */
  function End(edges: seq<Edge>, node: Node): Node
    requires Parsed(edges)
    decreases if node.schema <= U32_MAX then U32_MAX - node.schema else 0
  {
    var k := Find(edges, node);
    if k < |edges| then End(edges, Target(edges[k])) else node
  }

  /** Dispatch is unambiguous, every transform can be reached from schema 1, and
      every declared schema leads to the latest schema of the name it ends at. */
  ghost predicate Sound(edges: seq<Edge>, latest: map<Name, nat>)
    requires Parsed(edges)
  {
    && NoDuplicates(edges)
    && (forall i :: 0 <= i < |edges| ==> Rooted(edges, Source(edges[i])))
    && (forall node :: node in Declared(edges) ==>
          && End(edges, node).name in latest
          && End(edges, node).schema == latest[End(edges, node).name])
  }

  // ----- what the macro checks ----------------------------------------------------------------

  /** Every transform starts at schema 1 or where another ends. */
  ghost predicate Fed(edges: seq<Edge>) {
    forall i :: 0 <= i < |edges| ==> edges[i].from == 1 || Source(edges[i]) in Targets(edges)
  }

  /** A declared schema below the latest of its name has a transform. */
  ghost predicate Continued(edges: seq<Edge>, latest: map<Name, nat>)
    requires Ranks(edges, latest)
  {
    forall node :: node in Declared(edges) && node.schema < latest[node.name] ==> node in Sources(edges)
  }

  lemma {:induction false} FedIsRooted(edges: seq<Edge>, i: nat)
    requires Parsed(edges) && Fed(edges) && i < |edges|
    ensures Rooted(edges, Source(edges[i]))
    decreases edges[i].from
  {
    if edges[i].from != 1 {
      var k :| 0 <= k < |edges| && Target(edges[k]) == Source(edges[i]);
      FedIsRooted(edges, k);
    }
  }

  lemma RootedIsFed(edges: seq<Edge>)
    requires Parsed(edges) && forall i :: 0 <= i < |edges| ==> Rooted(edges, Source(edges[i]))
    ensures Fed(edges)
  {
  }

  /** A chain ends at a declared node that no transform leaves. */
  lemma {:induction false} EndIsDeclared(edges: seq<Edge>, node: Node)
    requires Parsed(edges) && node in Declared(edges)
    ensures End(edges, node) in Declared(edges) && End(edges, node) !in Sources(edges)
    decreases if node.schema <= U32_MAX then U32_MAX - node.schema else 0
  {
    var k := Find(edges, node);
    if k < |edges| {
      assert Target(edges[k]) in Targets(edges);
      EndIsDeclared(edges, Target(edges[k]));
    }
  }

  lemma LocalGivesGlobal(edges: seq<Edge>, latest: map<Name, nat>)
    requires Parsed(edges) && Ranks(edges, latest)
    requires NoDuplicates(edges) && Fed(edges) && Continued(edges, latest)
    ensures Sound(edges, latest)
  {
    hide NoDuplicates, Rooted, Fed, End, Parsed;
    forall i | 0 <= i < |edges| {
      FedIsRooted(edges, i);
    }
    forall node | node in Declared(edges)
      ensures End(edges, node).name in latest && End(edges, node).schema == latest[End(edges, node).name]
    {
      EndIsDeclared(edges, node);
    }
  }

  lemma GlobalGivesLocal(edges: seq<Edge>, latest: map<Name, nat>)
    requires Parsed(edges) && Ranks(edges, latest) && Sound(edges, latest)
    ensures NoDuplicates(edges) && Fed(edges) && Continued(edges, latest)
  {
    hide NoDuplicates, Rooted, Fed;
    RootedIsFed(edges);
    forall node | node in Declared(edges) && node !in Sources(edges)
      ensures node.schema == latest[node.name]
    {
      assert End(edges, node) == node;
    }
  }

  /** The three local checks say exactly that the graph is sound. */
  lemma LocalIsGlobal(edges: seq<Edge>, latest: map<Name, nat>)
    requires Parsed(edges) && Ranks(edges, latest)
    ensures NoDuplicates(edges) && Fed(edges) && Continued(edges, latest) <==> Sound(edges, latest)
  {
    hide *;
    if NoDuplicates(edges) && Fed(edges) && Continued(edges, latest) {
      LocalGivesGlobal(edges, latest);
    }
    if Sound(edges, latest) {
      GlobalGivesLocal(edges, latest);
    }
  }

  // ----- the check --------------------------------------------------------------------------

  function Raised(latest: map<Name, nat>, node: Node): map<Name, nat> {
    latest[node.name := if node.name in latest && node.schema < latest[node.name] then latest[node.name] else node.schema]
  }

  lemma TopsGrow(nodes: set<Node>, latest: map<Name, nat>, node: Node)
    requires Tops(nodes, latest)
    ensures Tops(nodes + {node}, Raised(latest, node))
  {
  }

  lemma RanksGrow(edges: seq<Edge>, latest: map<Name, nat>, e: Edge)
    requires Ranks(edges, latest)
    ensures Ranks(edges + [e], Raised(Raised(latest, Source(e)), Target(e)))
  {
    hide Tops, Raised, Sources, Targets;
    Grown(edges, e);
    TopsGrow(Declared(edges), latest, Source(e));
    TopsGrow(Declared(edges) + {Source(e)}, Raised(latest, Source(e)), Target(e));
    assert Declared(edges + [e]) == Declared(edges) + {Source(e)} + {Target(e)};
  }

  lemma Grown(edges: seq<Edge>, e: Edge)
    ensures Sources(edges + [e]) == Sources(edges) + {Source(e)}
    ensures Targets(edges + [e]) == Targets(edges) + {Target(e)}
  {
    var more := edges + [e];
    assert more[|edges|] == e;
    forall i | 0 <= i < |edges|
      ensures Source(edges[i]) in Sources(more) && Target(edges[i]) in Targets(more)
    {
      assert more[i] == edges[i];
    }
  }

  /** Collect the sources and the latest schemas, refusing a second transform of
      one source. */
  method Collect(edges: seq<Edge>) returns (error: Option<GraphError>, sources: set<Node>, latest: map<Name, nat>)
    ensures error.None? <==> NoDuplicates(edges)
    ensures error.None? ==> sources == Sources(edges) && Ranks(edges, latest)
  {
    sources, latest := {}, map[];
    for i := 0 to |edges|
      invariant NoDuplicates(edges[..i]) && sources == Sources(edges[..i]) && Ranks(edges[..i], latest)
    {
      var e := edges[i];
      assert edges[..i + 1] == edges[..i] + [e];
      if Source(e) in sources {
        return Some(Duplicate(i)), sources, latest;
      }
      Grown(edges[..i], e);
      RanksGrow(edges[..i], latest, e);
      sources := sources + {Source(e)};
      latest := Raised(Raised(latest, Source(e)), Target(e));
    }
    assert edges[..|edges|] == edges;
    error := None;
  }

  method CheckFed(edges: seq<Edge>, targets: set<Node>) returns (error: Option<GraphError>)
    requires targets == Targets(edges)
    ensures error.None? <==> Fed(edges)
  {
    for i := 0 to |edges|
      invariant forall k :: 0 <= k < i ==> edges[k].from == 1 || Source(edges[k]) in targets
    {
      if edges[i].from != 1 && Source(edges[i]) !in targets {
        return Some(Gap(i));
      }
    }
    error := None;
  }

  ghost predicate Leads(sources: set<Node>, latest: map<Name, nat>, node: Node) {
    node.name in latest && node.schema < latest[node.name] ==> node in sources
  }

  ghost predicate AllLead(edges: seq<Edge>, sources: set<Node>, latest: map<Name, nat>, n: nat)
    requires n <= |edges|
  {
    forall k :: 0 <= k < n ==> Leads(sources, latest, Source(edges[k])) && Leads(sources, latest, Target(edges[k]))
  }

  lemma AllLeadIsContinued(edges: seq<Edge>, latest: map<Name, nat>)
    requires Ranks(edges, latest) && AllLead(edges, Sources(edges), latest, |edges|)
    ensures Continued(edges, latest)
  {
  }

  lemma EdgeIsDeclared(edges: seq<Edge>, i: nat)
    requires i < |edges|
    ensures Source(edges[i]) in Declared(edges) && Target(edges[i]) in Declared(edges)
  {
  }

  method CheckContinued(edges: seq<Edge>, sources: set<Node>, latest: map<Name, nat>)
    returns (error: Option<GraphError>)
    requires sources == Sources(edges) && Ranks(edges, latest)
    ensures error.None? <==> Continued(edges, latest)
  {
    hide Sources, Targets, Declared, Tops, Source, Target;
    for i := 0 to |edges|
      invariant AllLead(edges, sources, latest, i)
    {
      EdgeIsDeclared(edges, i);
      var nodes := [Source(edges[i]), Target(edges[i])];
      for j := 0 to 2
        invariant forall k :: 0 <= k < j ==> Leads(sources, latest, nodes[k])
      {
        if nodes[j].name in latest && nodes[j].schema < latest[nodes[j].name] && nodes[j] !in sources {
          assert nodes[j] in Declared(edges);
          return Some(Stops(i, nodes[j]));
        }
      }
      assert Leads(sources, latest, nodes[0]) && Leads(sources, latest, nodes[1]);
    }
    AllLeadIsContinued(edges, latest);
    error := None;
  }

  /** Accepts exactly the sound graphs, and returns the latest schema of every
      declared name. */
  method ValidateGraph(edges: seq<Edge>) returns (r: Result<map<Name, nat>, GraphError>)
    requires Parsed(edges)
    ensures r.Ok? ==> Ranks(edges, r.value) && Sound(edges, r.value)
    ensures r.Err? ==> forall latest :: Ranks(edges, latest) ==> !Sound(edges, latest)
  {
    hide *;
    var duplicate, sources, latest := Collect(edges);
    if duplicate.Some? {
      NotSound(edges);
      return Err(duplicate.value);
    }
    LocalIsGlobal(edges, latest);
    RanksAgree(edges, latest);
    var gap := CheckFed(edges, Targets(edges));
    if gap.Some? {
      return Err(gap.value);
    }
    var stop := CheckContinued(edges, sources, latest);
    if stop.Some? {
      return Err(stop.value);
    }
    r := Ok(latest);
  }

  lemma NotSound(edges: seq<Edge>)
    requires Parsed(edges) && !NoDuplicates(edges)
    ensures forall latest :: Ranks(edges, latest) ==> !Sound(edges, latest)
  {
  }

  /** The latest schemas of a graph are unique. */
  lemma RanksAgree(edges: seq<Edge>, latest: map<Name, nat>)
    requires Ranks(edges, latest)
    ensures forall other :: Ranks(edges, other) ==> other == latest
  {
  }

  // ----- the generated loop -------------------------------------------------------------------

  /** The user's functions, by the transform they belong to. */
  type Steps = (nat, Payload) -> Result<Payload, Fault>

  /** Following the declared chain, without any guard. */
  function Follow(edges: seq<Edge>, steps: Steps, m: Morsel): Result<Morsel, Fault>
    requires Parsed(edges)
    decreases if m.node.schema <= U32_MAX then U32_MAX - m.node.schema else 0
  {
    var k := Find(edges, m.node);
    if k == |edges| then Ok(m)
    else
      var payload := steps(k, m.payload);
      if payload.Err? then Err(payload.error) else Follow(edges, steps, Morsel(Target(edges[k]), payload.value))
  }

  function CurrentVersion(latest: map<Name, nat>, name: Name): Option<nat> {
    if name in latest then Some(latest[name]) else None
  }

  /** The guards as generated: the loop rejects a known name at a schema other than
      its latest once no transform matches. */
  function Guarded(latest: map<Name, nat>, m: Morsel): Result<Morsel, TransformError> {
    if m.node.name in latest && m.node.schema != latest[m.node.name] then Err(UnsupportedSchema(m.node)) else Ok(m)
  }

  /** The chain followed to its end, then the guard. */
  function Upcasted(edges: seq<Edge>, latest: map<Name, nat>, steps: Steps, m: Morsel): Result<Morsel, TransformError>
    requires Parsed(edges)
  {
    var followed := Follow(edges, steps, m);
    if followed.Err? then Err(Failed(followed.error)) else Guarded(latest, followed.value)
  }

  /** The loop. It ends on every input: the schema grows with every turn. */
  method Upcast(edges: seq<Edge>, latest: map<Name, nat>, steps: Steps, start: Morsel)
    returns (r: Result<Morsel, TransformError>)
    requires Parsed(edges) && start.node.schema <= U32_MAX
    ensures r == Upcasted(edges, latest, steps, start)
  {
    var m := start;
    while true
      invariant m.node.schema <= U32_MAX && Follow(edges, steps, m) == Follow(edges, steps, start)
      decreases U32_MAX - m.node.schema
    {
      var k := Find(edges, m.node);
      if k < |edges| {
        var payload := steps(k, m.payload);
        if payload.Err? {
          return Err(Failed(payload.error));
        }
        m := Morsel(Target(edges[k]), payload.value);
      } else if m.node.name in latest {
        if m.node.schema == latest[m.node.name] {
          break;
        }
        return Err(UnsupportedSchema(m.node));
      } else {
        break;
      }
    }
    r := Ok(m);
  }

  /** Following steps ends where the graph's chain ends. */
  lemma {:induction false} FollowEnds(edges: seq<Edge>, steps: Steps, m: Morsel)
    requires Parsed(edges)
    ensures Follow(edges, steps, m).Ok? ==> Follow(edges, steps, m).value.node == End(edges, m.node)
    decreases if m.node.schema <= U32_MAX then U32_MAX - m.node.schema else 0
  {
    var k := Find(edges, m.node);
    if k < |edges| && steps(k, m.payload).Ok? {
      FollowEnds(edges, steps, Morsel(Target(edges[k]), steps(k, m.payload).value));
    }
  }

  // ----- the transforms of a chain, one after another -------------------------------------------

  /** Transforms that follow one another from a node. */
  ghost predicate Chain(edges: seq<Edge>, node: Node, path: seq<nat>) {
    && (forall i :: 0 <= i < |path| ==> path[i] < |edges|)
    && (path != [] ==> Source(edges[path[0]]) == node)
    && (forall i :: 0 < i < |path| ==> Source(edges[path[i]]) == Target(edges[path[i - 1]]))
  }

  ghost function Arrival(edges: seq<Edge>, node: Node, path: seq<nat>): Node
    requires Chain(edges, node, path)
  {
    if path == [] then node else Target(edges[path[|path| - 1]])
  }

  /** A chain that no transform continues. */
  ghost predicate Whole(edges: seq<Edge>, node: Node, path: seq<nat>) {
    Chain(edges, node, path) && Arrival(edges, node, path) !in Sources(edges)
  }

  /** Every transform of a chain raises the schema by one. */
  lemma {:induction false} ChainClimbs(edges: seq<Edge>, node: Node, path: seq<nat>)
    requires Chain(edges, node, path)
    ensures Arrival(edges, node, path).schema == node.schema + |path|
    decreases |path|
  {
    if path != [] {
      var n := |path| - 1;
      ChainClimbs(edges, node, path[..n]);
      assert n > 0 ==> path[..n][n - 1] == path[n - 1];
    }
  }

  /** The user's functions of a path applied in its order. */
  ghost function Through(steps: Steps, path: seq<nat>, payload: Payload): Result<Payload, Fault> {
    if path == [] then Ok(payload)
    else
      var n := |path| - 1;
      var before := Through(steps, path[..n], payload);
      if before.Err? then before else steps(path[n], before.value)
  }

  lemma {:induction false} ThroughFirst(steps: Steps, path: seq<nat>, payload: Payload)
    requires path != []
    ensures Through(steps, path, payload) ==
            var first := steps(path[0], payload);
            if first.Err? then first else Through(steps, path[1..], first.value)
    decreases |path|
  {
    var n := |path| - 1;
    if n == 0 {
      assert path[..0] == [] && path[1..] == [];
    } else {
      ThroughFirst(steps, path[..n], payload);
      assert path[..n][1..] == path[1..][..n - 1];
    }
  }

  /** The error of a path is the fault of the first of its functions that fails, on what
      the ones before it made of the payload. */
  lemma {:induction false} FirstFault(steps: Steps, path: seq<nat>, payload: Payload) returns (i: nat)
    requires Through(steps, path, payload).Err?
    ensures i < |path| && Through(steps, path[..i], payload).Ok?
    ensures steps(path[i], Through(steps, path[..i], payload).value) == Through(steps, path, payload)
    decreases |path|
  {
    var n := |path| - 1;
    if Through(steps, path[..n], payload).Err? {
      i := FirstFault(steps, path[..n], payload);
      assert path[..n][..i] == path[..i];
    } else {
      i := n;
    }
  }

  /** Where transforms are unambiguous, there is one whole chain from a node. */
  lemma {:induction false} WholeIsUnique(edges: seq<Edge>, node: Node, a: seq<nat>, b: seq<nat>)
    requires NoDuplicates(edges) && Whole(edges, node, a) && Whole(edges, node, b)
    ensures a == b
    decreases |a|
  {
    if a != [] && b != [] {
      assert a[0] == b[0];
      WholeRest(edges, node, a);
      WholeRest(edges, node, b);
      WholeIsUnique(edges, Target(edges[a[0]]), a[1..], b[1..]);
      assert a == [a[0]] + a[1..] && b == [b[0]] + b[1..];
    }
  }

  lemma WholeRest(edges: seq<Edge>, node: Node, path: seq<nat>)
    requires Whole(edges, node, path) && path != []
    ensures Whole(edges, Target(edges[path[0]]), path[1..])
    ensures Arrival(edges, Target(edges[path[0]]), path[1..]) == Arrival(edges, node, path)
  {
  }

  /** There always is one. */
  lemma {:induction false} WholeExists(edges: seq<Edge>, node: Node) returns (path: seq<nat>)
    requires Parsed(edges)
    ensures Whole(edges, node, path)
    decreases if node.schema <= U32_MAX then U32_MAX - node.schema else 0
  {
    var k := Find(edges, node);
    if k == |edges| {
      path := [];
    } else {
      var rest := WholeExists(edges, Target(edges[k]));
      path := [k] + rest;
      WholeFrom(edges, node, k, rest);
    }
  }

  lemma WholeFrom(edges: seq<Edge>, node: Node, k: nat, rest: seq<nat>)
    requires k < |edges| && Source(edges[k]) == node && Whole(edges, Target(edges[k]), rest)
    ensures Whole(edges, node, [k] + rest)
  {
    var path := [k] + rest;
    assert forall i :: 0 < i < |path| ==> path[i] == rest[i - 1];
  }

  /** Following is going through the whole chain: its functions composed in order on the
      payload, under the node it arrives at. */
  lemma {:induction false} FollowIsThrough(edges: seq<Edge>, steps: Steps, m: Morsel, path: seq<nat>)
    requires Parsed(edges) && NoDuplicates(edges) && Whole(edges, m.node, path)
    ensures var through := Through(steps, path, m.payload);
            Follow(edges, steps, m) ==
            if through.Err? then Err(through.error) else Ok(Morsel(Arrival(edges, m.node, path), through.value))
    decreases |path|
  {
    hide Sources;
    var k := Find(edges, m.node);
    if path != [] {
      SourceAt(edges, path[0]);
      assert k == path[0];
      ThroughFirst(steps, path, m.payload);
      WholeRest(edges, m.node, path);
      var payload := steps(k, m.payload);
      if payload.Ok? {
        FollowIsThrough(edges, steps, Morsel(Target(edges[k]), payload.value), path[1..]);
      }
    }
  }

  lemma SourceAt(edges: seq<Edge>, k: nat)
    requires k < |edges|
    ensures Source(edges[k]) in Sources(edges)
  {
  }

  /** On a sound graph a declared schema is upcast to what the functions of its chain,
      composed in order, make of its payload, at the end of the chain; where one fails,
      to the fault of the first that does. */
  lemma UpcastComposes(edges: seq<Edge>, latest: map<Name, nat>, steps: Steps, m: Morsel, path: seq<nat>)
    requires Parsed(edges) && Ranks(edges, latest) && Sound(edges, latest)
    requires m.node in Declared(edges) && Whole(edges, m.node, path)
    ensures var through := Through(steps, path, m.payload);
            Upcasted(edges, latest, steps, m) ==
            if through.Err? then Err(Failed(through.error)) else Ok(Morsel(Arrival(edges, m.node, path), through.value))
  {
    hide Follow, End, Parsed, Declared, Rooted, Through, Whole, Ranks, NoDuplicates;
    UpcastDeclared(edges, latest, steps, m);
    FollowIsThrough(edges, steps, m, path);
  }

  /** On a sound graph: a schema is rejected exactly when its name is known and it is
      not declared; unknown names pass unchanged; otherwise the result is the chain's,
      at the current version of the name it ends with. */
  lemma UpcastMeets(edges: seq<Edge>, latest: map<Name, nat>, steps: Steps, m: Morsel)
    requires Parsed(edges) && Ranks(edges, latest) && Sound(edges, latest)
    ensures var r := Upcasted(edges, latest, steps, m);
            && (r.Err? && r.error.UnsupportedSchema? <==> m.node.name in latest && m.node !in Declared(edges))
            && (r.Err? && r.error.UnsupportedSchema? ==> r.error.node == m.node)
            && (m.node.name !in latest ==> r == Ok(m))
            && (r.Ok? && m.node.name in latest ==>
                  && Follow(edges, steps, m) == Ok(r.value)
                  && r.value.node == End(edges, m.node)
                  && CurrentVersion(latest, r.value.node.name) == Some(r.value.node.schema))
  {
    hide Sound, Ranks, Parsed, Follow, End, Declared, Upcasted;
    if m.node in Declared(edges) {
      UpcastDeclared(edges, latest, steps, m);
    } else {
      UpcastUndeclared(edges, latest, steps, m);
    }
  }

  lemma UpcastDeclared(edges: seq<Edge>, latest: map<Name, nat>, steps: Steps, m: Morsel)
    requires Parsed(edges) && Ranks(edges, latest) && Sound(edges, latest) && m.node in Declared(edges)
    ensures var r := Upcasted(edges, latest, steps, m);
            && m.node.name in latest
            && (r.Err? ==> r.error.Failed?)
            && (r.Ok? ==>
                  && Follow(edges, steps, m) == Ok(r.value)
                  && r.value.node == End(edges, m.node)
                  && CurrentVersion(latest, r.value.node.name) == Some(r.value.node.schema))
  {
    hide Follow, End, Parsed, Declared, NoDuplicates, Rooted;
    FollowEnds(edges, steps, m);
  }

  lemma UpcastUndeclared(edges: seq<Edge>, latest: map<Name, nat>, steps: Steps, m: Morsel)
    requires Parsed(edges) && Ranks(edges, latest) && m.node !in Declared(edges)
    ensures Upcasted(edges, latest, steps, m) == if m.node.name in latest then Err(UnsupportedSchema(m.node)) else Ok(m)
  {
    hide Ranks;
    assert m.node !in Sources(edges);
    NotLatest(edges, latest, m.node);
  }

  lemma NotLatest(edges: seq<Edge>, latest: map<Name, nat>, node: Node)
    requires Ranks(edges, latest) && node !in Declared(edges)
    ensures node.name in latest ==> latest[node.name] != node.schema
  {
  }

  /** Upcasting twice is upcasting once. */
  lemma UpcastIsIdempotent(edges: seq<Edge>, latest: map<Name, nat>, steps: Steps, m: Morsel)
    requires Parsed(edges) && Ranks(edges, latest) && Sound(edges, latest)
    requires Upcasted(edges, latest, steps, m).Ok?
    ensures Upcasted(edges, latest, steps, Upcasted(edges, latest, steps, m).value) == Upcasted(edges, latest, steps, m)
  {
    UpcastMeets(edges, latest, steps, m);
    var end := Upcasted(edges, latest, steps, m).value;
    if m.node.name in latest {
      EndIsDeclared(edges, m.node);
    }
  }
}
