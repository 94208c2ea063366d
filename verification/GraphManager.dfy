/** `GraphManager::init`: the nodes and edges of one graph, built from its configuration entries in whatever order
    the configuration library visits them. */
module GraphManager {
  import opened Bfs
  import opened Digraph
  import opened Graph
  import opened GraphConfig
  import opened Options
  import opened Text

  // ------------------------------------------------------------------ edges by id

  /** Adding a node without edges changes no in-degree. */
  lemma AddNodeInEdges(g: Digraph)
    requires WellFormed(g)
    ensures WellFormed(g + [[]])
    ensures forall m: nat :: InEdges(g + [[]], m) == InEdges(g, m)
    ensures InDegree(g + [[]], |g|) == 0
  {
    forall m: nat ensures InEdges(g + [[]], m) == InEdges(g, m) {
    }
    assert InEdges(g, |g|) == {};
  }

  /** Adding an edge adds one to the in-degree of its head. */
  lemma AddEdgeInEdges(g: Digraph, u: nat, v: nat)
    requires WellFormed(g) && u < |g| && v < |g|
    ensures WellFormed(g[u := g[u] + [v]])
    ensures forall m: nat :: InDegree(g[u := g[u] + [v]], m) == InDegree(g, m) + if m == v then 1 else 0
  {
    var h := g[u := g[u] + [v]];
    assert InEdges(h, v) == InEdges(g, v) + {(u, |g[u]|)};
    forall m: nat | m != v ensures InEdges(h, m) == InEdges(g, m) {
    }
  }

  // ------------------------------------------------------------------ the network, by value

  ghost predicate DistinctNames(names: seq<string>) {
    forall i, j :: 0 <= i < j < |names| ==> names[i] != names[j]
  }

  /** Ids are positions in `names`; no out-node is listed twice; `inputs` are the in-degrees; and the edges, read by
      name, are `edges`. */
  ghost predicate NetOk(names: seq<string>, g: Digraph, inputs: seq<int>, edges: set<(string, string)>) {
    && |names| == |g| == |inputs|
    && DistinctNames(names)
    && WellFormed(g)
    && (forall u :: 0 <= u < |g| ==> Distinct(g[u]))
    && (forall m: nat {:trigger InDegree(g, m)} :: m < |g| ==> inputs[m] == InDegree(g, m))
    && (forall u: nat, v: nat {:trigger HasEdge(g, u, v)} :: u < |g| && v < |g| ==> (HasEdge(g, u, v) <==> (names[u], names[v]) in edges))
    && (forall p :: p in edges ==> p.0 in names && p.1 in names)
  }

  lemma NetAddNode(names: seq<string>, g: Digraph, inputs: seq<int>, edges: set<(string, string)>, name: string)
    requires NetOk(names, g, inputs, edges) && name !in names
    ensures NetOk(names + [name], g + [[]], inputs + [0], edges)
  {
    AddNodeInEdges(g);
    var h := g + [[]];
    forall u: nat, v: nat | u < |h| && v < |h| ensures HasEdge(h, u, v) <==> ((names + [name])[u], (names + [name])[v]) in edges {
      if u < |g| && v < |g| {
        assert HasEdge(h, u, v) <==> HasEdge(g, u, v);
      }
    }
    forall m: nat | m < |h| ensures (inputs + [0])[m] == InDegree(h, m) {
      if m < |g| {
        assert inputs[m] == InDegree(g, m);
      }
    }
  }

  lemma NetAddEdge(names: seq<string>, g: Digraph, inputs: seq<int>, edges: set<(string, string)>, u: nat, v: nat)
    requires NetOk(names, g, inputs, edges) && u < |g| && v < |g| && !HasEdge(g, u, v)
    ensures NetOk(names, g[u := g[u] + [v]], inputs[v := inputs[v] + 1], edges + {(names[u], names[v])})
  {
    AddEdgeInEdges(g, u, v);
    var h := g[u := g[u] + [v]];
    forall a: nat, b: nat | a < |h| && b < |h|
      ensures HasEdge(h, a, b) <==> (names[a], names[b]) in edges + {(names[u], names[v])}
    {
      assert HasEdge(h, a, b) <==> HasEdge(g, a, b) || (a == u && b == v);
    }
    forall m: nat | m < |h| ensures inputs[v := inputs[v] + 1][m] == InDegree(h, m) {
      assert inputs[m] == InDegree(g, m);
    }
  }

  /** The ways a network grows; an edge is only added where there is none. */
  datatype Change = NewNode(name: string) | NewEdge(u: nat, v: nat)

  datatype Net = Net(names: seq<string>, g: Digraph, inputs: seq<int>, edges: set<(string, string)>)

  function Changed(net: Net, c: Change): Option<Net> {
    match c
    case NewNode(name) =>
      if name in net.names then None else Some(Net(net.names + [name], net.g + [[]], net.inputs + [0], net.edges))
    case NewEdge(u, v) =>
      if u < |net.g| && u < |net.names| && v < |net.inputs| && v < |net.names| && v !in net.g[u] then
        Some(Net(net.names, net.g[u := net.g[u] + [v]], net.inputs[v := net.inputs[v] + 1], net.edges + {(net.names[u], net.names[v])}))
      else None
  }

  function Replay(log: seq<Change>): Option<Net> {
    if log == [] then Some(Net([], [], [], {}))
    else
      match Replay(log[..|log| - 1])
      case None => None
      case Some(net) => Changed(net, log[|log| - 1])
  }

  /** However it was grown, a network has no repeated edge and the right in-degrees, and its edges are those added. */
  lemma {:induction false} ReplayOk(log: seq<Change>)
    requires Replay(log).Some?
    ensures var net := Replay(log).value; NetOk(net.names, net.g, net.inputs, net.edges)
  {
    if log != [] {
      ReplayOk(log[..|log| - 1]);
      var net := Replay(log[..|log| - 1]).value;
      match log[|log| - 1]
      case NewNode(name) => NetAddNode(net.names, net.g, net.inputs, net.edges, name);
      case NewEdge(u, v) => NetAddEdge(net.names, net.g, net.inputs, net.edges, u, v);
    }
  }

  lemma ReplayMore(log: seq<Change>, c: Change)
    requires Replay(log).Some?
    ensures Replay(log + [c]) == Changed(Replay(log).value, c)
  {
    assert (log + [c])[..|log|] == log;
  }

  lemma EdgeAlreadyThere(log: seq<Change>, u: nat, v: nat)
    requires Replay(log).Some?
    requires var net := Replay(log).value; u < |net.g| && v < |net.g| && HasEdge(net.g, u, v)
    ensures var net := Replay(log).value; u < |net.names| && v < |net.names| && net.edges + {(net.names[u], net.names[v])} == net.edges
  {
    ReplayOk(log);
  }

  // ------------------------------------------------------------------ building the objects

  /** A node reads as its entry in the network: out-nodes by id, and both input counters. */
  ghost predicate NodeMirrors(created: seq<Node>, net: Net, i: nat)
    requires i < |created| == |net.g| == |net.inputs|
    reads created[i]
  {
    && AllCreated(created, created[i].outNodes) && IdsOf(created[i].outNodes) == net.g[i]
    && created[i].inputNum == created[i].inputNumForCheck == net.inputs[i]
  }

  ghost predicate Mirrors(created: seq<Node>, net: Net)
    reads (set n | n in created)
  {
    && |created| == |net.g| == |net.inputs| == |net.names|
    && (forall i :: 0 <= i < |created| ==> created[i].id == i && created[i].name == net.names[i])
    && (forall i: nat {:trigger NodeMirrors(created, net, i)} :: i < |created| ==> NodeMirrors(created, net, i))
  }

  lemma MirrorsIsUniverse(created: seq<Node>, net: Net)
    requires Mirrors(created, net)
    ensures Universe(created) && Topology(created) == net.g
    ensures forall i :: 0 <= i < |created| ==> created[i].inputNum == created[i].inputNumForCheck == net.inputs[i]
  {
    forall i: nat | i < |created|
      ensures AllCreated(created, created[i].outNodes)
      ensures created[i].inputNum == created[i].inputNumForCheck == net.inputs[i]
    {
      assert NodeMirrors(created, net, i);
    }
    var g := Topology(created);
    forall i: nat | i < |created| ensures g[i] == net.g[i] {
      assert NodeMirrors(created, net, i);
    }
  }

  lemma MirrorsMore(created: seq<Node>, net: Net, node: Node)
    requires Mirrors(created, net)
    requires node.id == |created| && node.outNodes == [] && node.inputNum == 0 && node.inputNumForCheck == 0
    ensures Mirrors(created + [node], Net(net.names + [node.name], net.g + [[]], net.inputs + [0], net.edges))
  {
    var net2 := Net(net.names + [node.name], net.g + [[]], net.inputs + [0], net.edges);
    forall i: nat | i <= |created| ensures NodeMirrors(created + [node], net2, i) {
      if i < |created| {
        assert NodeMirrors(created, net, i);
      }
    }
  }

  lemma ObjectsMore(created: seq<Node>, objects: set<Node>, node: Node)
    requires objects == set n | n in created
    ensures objects + {node} == set n | n in created + [node]
  {
  }

  method Connect(ghost created: seq<Node>, ghost net: Net, a: Node, b: Node)
    requires Mirrors(created, net) && IsCreated(created, a) && IsCreated(created, b)
    requires Changed(net, NewEdge(a.id, b.id)).Some?
    modifies a`outNodes, b`inputNum, b`inputNumForCheck
    ensures Mirrors(created, Changed(net, NewEdge(a.id, b.id)).value)
  {
    ghost var outs := a.outNodes;
    ghost var net2 := Changed(net, NewEdge(a.id, b.id)).value;
    a.AddOutput(b);
    assert IdsOf(a.outNodes) == IdsOf(outs) + [b.id];
    forall i: nat | i < |created| ensures NodeMirrors(created, net2, i) {
      assert old(NodeMirrors(created, net, i));
    }
  }

  class Builder {
    var nodesMap: map<string, Node>
    var nextId: nat
    var nodeNames: seq<string>
    ghost var created: seq<Node>
    ghost var objects: set<Node>
    ghost var net: Net
    ghost var log: seq<Change>

    constructor ()
      ensures Valid() && created == [] && objects == {} && net == Net([], [], [], {}) && nodesMap == map[]
    {
      nodesMap, nextId, nodeNames := map[], 0, [];
      created, objects, net, log := [], {}, Net([], [], [], {}), [];
    }

    /** The map and the ids name the created nodes. */
    ghost predicate Registered()
      reads this
    {
      && nextId == |created| && nodeNames == net.names && |net.names| == |created|
      && (forall i :: 0 <= i < |created| ==> nodeNames[i] in nodesMap && nodesMap[nodeNames[i]] == created[i])
      && (forall n :: n in nodesMap ==> n in nodeNames)
    }

    /** The objects are the network that the recorded changes grow. */
    ghost predicate Valid()
      reads this, objects
    {
      objects == (set n | n in created) && Registered() && Mirrors(created, net) && Replay(log) == Some(net)
    }

    /** The node of a name, created with the next id when there is none yet; null when the name has no class. */
    method CreateIfNotExist(name: string, known: set<string>) returns (node: Node?)
      requires Valid()
      modifies this
      ensures Valid() && old(created) <= created && net.edges == old(net.edges)
      ensures old(objects) <= objects && forall o :: o in objects ==> o in old(objects) || fresh(o)
      ensures node == null <==> name !in old(nodesMap) && name !in known
      ensures node == null ==> nodesMap == old(nodesMap) && created == old(created)
      ensures node != null ==> node in created && IsCreated(created, node)
      ensures node != null ==> node.name == name && nodesMap.Keys == old(nodesMap.Keys) + {name}
    {
      if name in nodesMap {
        node := nodesMap[name];
        return;
      }
      if name !in known {
        return null;
      }
      node := Create(name);
    }

    method Create(name: string) returns (node: Node)
      requires Valid() && name !in nodesMap
      modifies this
      ensures Valid() && created == old(created) + [node] && net.edges == old(net.edges) && fresh(node)
      ensures objects == old(objects) + {node}
      ensures IsCreated(created, node) && node.name == name && nodesMap.Keys == old(nodesMap.Keys) + {name}
    {
      ReplayMore(log, NewNode(name));
      node := new Node(name, nextId);
      MirrorsMore(created, net, node);
      ObjectsMore(created, objects, node);
      ghost var made, grown := created + [node], Net(net.names + [name], net.g + [[]], net.inputs + [0], net.edges);
      assert Mirrors(made, grown);
      Register(node);
      assert Mirrors(made, grown);
    }

    method Register(node: Node)
      requires Registered() && node.id == nextId && node.name !in nodesMap
      modifies this
      ensures Registered() && created == old(created) + [node] && IsCreated(created, node)
      ensures objects == old(objects) + {node}
      ensures nodesMap.Keys == old(nodesMap.Keys) + {node.name}
      ensures net == Net(old(net.names) + [node.name], old(net.g) + [[]], old(net.inputs) + [0], old(net.edges))
      ensures log == old(log) + [NewNode(node.name)]
    {
      nextId := nextId + 1;
      nodesMap := nodesMap[node.name := node];
      nodeNames := nodeNames + [node.name];
      created, objects := created + [node], objects + {node};
      net, log := Net(net.names + [node.name], net.g + [[]], net.inputs + [0], net.edges), log + [NewNode(node.name)];
    }

    /** Adds the edge from a to b unless it is there already. */
    method Link(a: Node, b: Node)
      requires Valid() && IsCreated(created, a) && IsCreated(created, b)
      modifies this`net, this`log, a`outNodes, b`inputNum, b`inputNumForCheck
      ensures Valid() && net.edges == old(net.edges) + {(a.name, b.name)} && net.names == old(net.names)
    {
      assert NodeMirrors(created, net, a.id);
      SameOutNode(created, a, b);
      if b !in a.outNodes {
        ReplayMore(log, NewEdge(a.id, b.id));
        Connect(created, net, a, b);
        net, log := Changed(net, NewEdge(a.id, b.id)).value, log + [NewEdge(a.id, b.id)];
      } else {
        EdgeAlreadyThere(log, a.id, b.id);
      }
    }

    /** Makes sure the named node exists, if the name has a class, and links it as a child or as a parent. */
    method LinkNamed(service: Node, name: string, asChild: bool, known: set<string>)
      requires Valid() && service in created && IsCreated(created, service)
      modifies this, objects
      ensures Valid() && old(created) <= created
      ensures old(objects) <= objects && forall o :: o in objects ==> o in old(objects) || fresh(o)
      ensures var ok := name in known + old(nodesMap.Keys);
              && net.edges == Linked(old(net.edges), service.name, name, asChild, ok)
              && nodesMap.Keys == Named(old(nodesMap.Keys), name, ok)
    {
      var other := CreateIfNotExist(name, known);
      StillCreated(old(created), created, service);
      if other == null {
        return;
      }
      if asChild {
        Link(service, other);
      } else {
        Link(other, service);
      }
    }

    /** The nodes and edges after the first i pieces of `children`. */
    ghost predicate ChildrenDone(a: string, pieces: seq<string>, i: nat, known: set<string>, keys: set<string>, edges: set<(string, string)>)
      requires i <= |pieces|
      reads this
    {
      && net.edges == edges + EdgesFrom(a, ChildNames(pieces[..i], known + keys))
      && nodesMap.Keys == keys + ChildNames(pieces[..i], known + keys)
    }

    method AddChild(service: Node, pieces: seq<string>, i: nat, known: set<string>, ghost keys: set<string>, ghost edges: set<(string, string)>)
      requires Valid() && service in created && IsCreated(created, service)
      requires i < |pieces| && ChildrenDone(service.name, pieces, i, known, keys, edges)
      modifies this, objects
      ensures Valid() && old(created) <= created
      ensures old(objects) <= objects && forall o :: o in objects ==> o in old(objects) || fresh(o)
      ensures ChildrenDone(service.name, pieces, i + 1, known, keys, edges)
    {
      ChildrenStep(pieces, i, known, keys, edges, service.name);
      if pieces[i] != "" {
        LinkNamed(service, Trim(pieces[i]), true, known);
      }
    }

    method AddChildren(service: Node, pieces: seq<string>, known: set<string>)
      requires Valid() && service in created && IsCreated(created, service)
      modifies this, objects
      ensures Valid() && old(created) <= created
      ensures old(objects) <= objects && forall o :: o in objects ==> o in old(objects) || fresh(o)
      ensures net.edges == old(net.edges) + EdgesFrom(service.name, ChildNames(pieces, known + old(nodesMap.Keys)))
      ensures nodesMap.Keys == old(nodesMap.Keys) + ChildNames(pieces, known + old(nodesMap.Keys))
    {
      ghost var keys, edges := nodesMap.Keys, net.edges;
      for i := 0 to |pieces|
        invariant Valid() && old(created) <= created
        invariant old(objects) <= objects && forall o :: o in objects ==> o in old(objects) || fresh(o)
        invariant ChildrenDone(service.name, pieces, i, known, keys, edges)
      {
        StillCreated(old(created), created, service);
        AddChild(service, pieces, i, known, keys, edges);
      }
      assert pieces[..|pieces|] == pieces;
    }

    ghost predicate ParentsDone(b: string, pieces: seq<string>, i: nat, known: set<string>, keys: set<string>, edges: set<(string, string)>)
      requires i <= |pieces|
      reads this
    {
      && net.edges == edges + EdgesTo(b, ParentNames(pieces[..i], known + keys))
      && nodesMap.Keys == keys + ParentNames(pieces[..i], known + keys)
    }

    method AddParent(service: Node, pieces: seq<string>, i: nat, known: set<string>, ghost keys: set<string>, ghost edges: set<(string, string)>)
      requires Valid() && service in created && IsCreated(created, service)
      requires i < |pieces| && ParentsDone(service.name, pieces, i, known, keys, edges)
      modifies this, objects
      ensures Valid() && old(created) <= created
      ensures old(objects) <= objects && forall o :: o in objects ==> o in old(objects) || fresh(o)
      ensures ParentsDone(service.name, pieces, i + 1, known, keys, edges)
    {
      ParentsStep(pieces, i, known, keys, edges, service.name);
      LinkNamed(service, Trim(pieces[i]), false, known);
    }

    method AddParents(service: Node, pieces: seq<string>, known: set<string>)
      requires Valid() && service in created && IsCreated(created, service)
      modifies this, objects
      ensures Valid() && old(created) <= created
      ensures old(objects) <= objects && forall o :: o in objects ==> o in old(objects) || fresh(o)
      ensures net.edges == old(net.edges) + EdgesTo(service.name, ParentNames(pieces, known + old(nodesMap.Keys)))
      ensures nodesMap.Keys == old(nodesMap.Keys) + ParentNames(pieces, known + old(nodesMap.Keys))
    {
      ghost var keys, edges := nodesMap.Keys, net.edges;
      for i := 0 to |pieces|
        invariant Valid() && old(created) <= created
        invariant old(objects) <= objects && forall o :: o in objects ==> o in old(objects) || fresh(o)
        invariant ParentsDone(service.name, pieces, i, known, keys, edges)
      {
        StillCreated(old(created), created, service);
        AddParent(service, pieces, i, known, keys, edges);
      }
      assert pieces[..|pieces|] == pieces;
    }

    /** One configuration entry: its node, its children and its parents.  Null when its name has no class. */
    method AddEntry(e: Entry, known: set<string>) returns (service: Node?, ghost newEdges: set<(string, string)>, ghost newNames: set<string>)
      requires Valid() && nodesMap.Keys <= known
      modifies this, objects
      ensures Valid() && old(created) <= created && nodesMap.Keys <= known
      ensures old(objects) <= objects && forall o :: o in objects ==> o in old(objects) || fresh(o)
      ensures service == null <==> e.name !in known
      ensures service != null ==> service in created && IsCreated(created, service) && service.name == e.name
      ensures service == null ==> net.edges == old(net.edges) && nodesMap.Keys == old(nodesMap.Keys)
      ensures service != null ==> net.edges == old(net.edges) + newEdges && nodesMap.Keys == old(nodesMap.Keys) + newNames
      ensures service != null ==> EntryGives(newEdges, newNames, e, known)
    {
      ghost var keys := nodesMap.Keys;
      service := CreateIfNotExist(e.name, known);
      if service == null {
        newEdges, newNames := {}, {};
        return;
      }
      newEdges, newNames := AddLinks(service, e, known, keys);
    }

    method AddLinks(service: Node, e: Entry, known: set<string>, ghost keys: set<string>)
      returns (ghost newEdges: set<(string, string)>, ghost newNames: set<string>)
      requires Valid() && service in created && IsCreated(created, service) && nodesMap.Keys <= known
      requires service.name == e.name && nodesMap.Keys == keys + {e.name}
      modifies this, objects
      ensures Valid() && old(created) <= created && service in created && IsCreated(created, service) && nodesMap.Keys <= known
      ensures old(objects) <= objects && forall o :: o in objects ==> o in old(objects) || fresh(o)
      ensures net.edges == old(net.edges) + newEdges && nodesMap.Keys == keys + newNames
      ensures EntryGives(newEdges, newNames, e, known)
    {
      ghost var heads, tails := ChildNames(e.children, known), ParentNames(e.parents, known);
      newEdges, newNames := EdgesFrom(e.name, heads) + EdgesTo(e.name, tails), {e.name} + heads + tails;
      FamilyGives(e, known, heads, tails);
      AddFamily(service, e.children, e.parents, known);
    }

    method AddFamily(service: Node, children: seq<string>, parents: seq<string>, known: set<string>)
      requires Valid() && service in created && IsCreated(created, service) && nodesMap.Keys <= known
      requires ChildNames(children, known) <= known
      modifies this, objects
      ensures Valid() && old(created) <= created && service in created && IsCreated(created, service)
      ensures old(objects) <= objects && forall o :: o in objects ==> o in old(objects) || fresh(o)
      ensures net.edges == old(net.edges) + EdgesFrom(service.name, ChildNames(children, known)) + EdgesTo(service.name, ParentNames(parents, known))
      ensures nodesMap.Keys == old(nodesMap.Keys) + ChildNames(children, known) + ParentNames(parents, known)
    {
      ghost var c0 := created;
      Absorbed(known, nodesMap.Keys);
      AddChildren(service, children, known);
      StillCreated(c0, created, service);
      Absorbed(known, nodesMap.Keys);
      ghost var c1 := created;
      AddParents(service, parents, known);
      StillCreated(c1, created, service);
    }

    /** Visits the entries in the given order, up to the first whose own name has no class.  The root is the last
        entry visited that is marked so. */
    method Build(conf: seq<Entry>, known: set<string>)
      returns (root: Node?, ghost n: nat, ghost edges: seq<set<(string, string)>>, ghost names: seq<set<string>>)
      requires Valid() && nodesMap == map[] && net == Net([], [], [], {}) && objects == {}
      modifies this
      ensures Valid() && n <= |conf| && net.edges == Union(edges) && nodesMap.Keys == Union(names)
      ensures Given(edges, names, conf, n, known)
      ensures fresh(objects)
      ensures AllKnown(conf, n, known) && (n < |conf| ==> conf[n].name !in known)
      ensures RootIs(conf, n, root) && (root != null ==> IsCreated(created, root))
    {
      root, n, edges, names := null, 0, [], [];
      for i := 0 to |conf|
        invariant Valid() && nodesMap.Keys <= known && n == i && net.edges == Union(edges) && nodesMap.Keys == Union(names)
        invariant Given(edges, names, conf, i, known)
        invariant fresh(objects)
        invariant AllKnown(conf, i, known)
        invariant RootIs(conf, i, root) && (root != null ==> root in created && IsCreated(created, root))
      {
        ghost var c := created;
        var service, newEdges, newNames := AddEntry(conf[i], known);
        if service == null {
          break;
        }
        if root != null {
          StillCreated(c, created, root);
        }
        RootStep(conf, i, root, service);
        GivenStep(edges, names, newEdges, newNames, conf, i, known);
        if conf[i].root {
          root := service;
        }
        n, edges, names := i + 1, edges + [newEdges], names + [newNames];
      }
    }
  }

  lemma Absorbed(known: set<string>, keys: set<string>)
    requires keys <= known
    ensures known + keys == known
  {
  }

  ghost function Union<T>(sets: seq<set<T>>): set<T> {
    if sets == [] then {} else Union(sets[..|sets| - 1]) + sets[|sets| - 1]
  }

  lemma {:induction false} UnionMeaning<T>(sets: seq<set<T>>, x: T)
    ensures x in Union(sets) <==> exists j :: 0 <= j < |sets| && x in sets[j]
  {
    if sets != [] {
      var before := sets[..|sets| - 1];
      UnionMeaning(before, x);
      if j :| 0 <= j < |before| && x in before[j] {
        assert x in sets[j];
      }
      assert forall j :: 0 <= j < |before| ==> before[j] == sets[j];
    }
  }

  /** What one entry adds: the edges it declares and the names it mentions. */
  ghost predicate EntryGives(edges: set<(string, string)>, names: set<string>, e: Entry, known: set<string>) {
    && (forall a, b {:trigger Declares(e, known, a, b)} :: (a, b) in edges <==> Declares(e, known, a, b))
    && (forall a {:trigger Mentions(e, known, a)} :: a in names <==> Mentions(e, known, a))
  }

  lemma FamilyGives(e: Entry, known: set<string>, heads: set<string>, tails: set<string>)
    requires heads == ChildNames(e.children, known) && tails == ParentNames(e.parents, known)
    ensures heads <= known && tails <= known
    ensures EntryGives(EdgesFrom(e.name, heads) + EdgesTo(e.name, tails), {e.name} + heads + tails, e, known)
  {
  }

  ghost predicate Given(edges: seq<set<(string, string)>>, names: seq<set<string>>, conf: seq<Entry>, n: nat, known: set<string>)
    requires n <= |conf|
  {
    && |edges| == n && |names| == n
    && (forall j {:trigger edges[j]} {:trigger names[j]} :: 0 <= j < n ==> EntryGives(edges[j], names[j], conf[j], known))
  }

  /** One more entry has been visited. */
  lemma GivenStep(edges: seq<set<(string, string)>>, names: seq<set<string>>, newEdges: set<(string, string)>, newNames: set<string>,
                  conf: seq<Entry>, n: nat, known: set<string>)
    requires n < |conf| && Given(edges, names, conf, n, known) && EntryGives(newEdges, newNames, conf[n], known)
    requires AllKnown(conf, n, known) && conf[n].name in known
    ensures Given(edges + [newEdges], names + [newNames], conf, n + 1, known)
    ensures Union(edges + [newEdges]) == Union(edges) + newEdges && Union(names + [newNames]) == Union(names) + newNames
    ensures AllKnown(conf, n + 1, known)
  {
    assert (edges + [newEdges])[..n] == edges && (names + [newNames])[..n] == names;
  }

  /** The last of the first n entries marked as root has this name. */
  ghost predicate RootName(conf: seq<Entry>, n: nat, name: string)
    requires n <= |conf|
  {
    exists j: nat :: j < n && conf[j].root && conf[j].name == name && forall k :: j < k < n ==> !conf[k].root
  }

  ghost predicate AllKnown(conf: seq<Entry>, n: nat, known: set<string>)
    requires n <= |conf|
  {
    forall j :: 0 <= j < n ==> conf[j].name in known
  }

  ghost predicate RootIs(conf: seq<Entry>, n: nat, root: Node?)
    requires n <= |conf|
  {
    if root == null then forall j :: 0 <= j < n ==> !conf[j].root else RootName(conf, n, root.name)
  }

  lemma RootStep(conf: seq<Entry>, n: nat, root: Node?, service: Node)
    requires n < |conf| && RootIs(conf, n, root) && service.name == conf[n].name
    ensures RootIs(conf, n + 1, if conf[n].root then service else root)
  {
    if !conf[n].root && root != null {
      var j: nat :| j < n && conf[j].root && conf[j].name == root.name && forall k :: j < k < n ==> !conf[k].root;
      assert forall k :: j < k < n + 1 ==> !conf[k].root;
    }
  }

  lemma StillCreated(before: seq<Node>, after: seq<Node>, n: Node)
    requires before <= after && n in before && IsCreated(before, n)
    ensures n in after && IsCreated(after, n)
  {
    assert after[n.id] == before[n.id];
  }

  ghost function Linked(edges: set<(string, string)>, a: string, b: string, asChild: bool, ok: bool): set<(string, string)> {
    if !ok then edges else if asChild then edges + {(a, b)} else edges + {(b, a)}
  }

  ghost function Named(keys: set<string>, name: string, ok: bool): set<string> {
    if ok then keys + {name} else keys
  }

  /** One more piece of `children`: its name, if it has a class or a node, is one more head. */
  lemma ChildrenStep(pieces: seq<string>, i: nat, known: set<string>, keys: set<string>, edges: set<(string, string)>, a: string)
    requires i < |pieces|
    ensures var all := known + keys;
            var before, after := ChildNames(pieces[..i], all), ChildNames(pieces[..i + 1], all);
            var name := Trim(pieces[i]);
            var ok := name in known + (keys + before);
            if pieces[i] == "" then after == before
            else
              && edges + EdgesFrom(a, after) == Linked(edges + EdgesFrom(a, before), a, name, true, ok)
              && keys + after == Named(keys + before, name, ok)
  {
    ChildNamesStep(pieces, i, known + keys);
  }

  lemma ParentsStep(pieces: seq<string>, i: nat, known: set<string>, keys: set<string>, edges: set<(string, string)>, b: string)
    requires i < |pieces|
    ensures var all := known + keys;
            var before, after := ParentNames(pieces[..i], all), ParentNames(pieces[..i + 1], all);
            var name := Trim(pieces[i]);
            var ok := name in known + (keys + before);
            && edges + EdgesTo(b, after) == Linked(edges + EdgesTo(b, before), b, name, false, ok)
            && keys + after == Named(keys + before, name, ok)
  {
    ParentNamesStep(pieces, i, known + keys);
  }

  lemma ParentNamesStep(pieces: seq<string>, i: nat, known: set<string>)
    requires i < |pieces|
    ensures ParentNames(pieces[..i + 1], known) ==
              ParentNames(pieces[..i], known) + if Trim(pieces[i]) in known then {Trim(pieces[i])} else {}
    ensures ParentNames(pieces[..i + 1], known) <= known
  {
    var p, q := pieces[..i], pieces[..i + 1];
    assert q == p + [pieces[i]];
    forall x | x in ParentNames(p, known) ensures x in ParentNames(q, known) {
      var j :| 0 <= j < |p| && Trim(p[j]) == x;
      assert q[j] == p[j];
    }
    if Trim(pieces[i]) in known {
      assert q[i] == pieces[i];
    }
  }

  lemma ChildNamesStep(pieces: seq<string>, i: nat, known: set<string>)
    requires i < |pieces|
    ensures ChildNames(pieces[..i + 1], known) ==
              ChildNames(pieces[..i], known) + if pieces[i] != "" && Trim(pieces[i]) in known then {Trim(pieces[i])} else {}
    ensures ChildNames(pieces[..i + 1], known) <= known
  {
    var p, q := pieces[..i], pieces[..i + 1];
    assert q == p + [pieces[i]];
    forall x | x in ChildNames(p, known) ensures x in ChildNames(q, known) {
      var j :| 0 <= j < |p| && p[j] != "" && Trim(p[j]) == x;
      assert q[j] == p[j];
    }
    if pieces[i] != "" && Trim(pieces[i]) in known {
      assert q[i] == pieces[i];
    }
  }

  lemma SameOutNode(created: seq<Node>, a: Node, b: Node)
    requires IsCreated(created, a) && IsCreated(created, b) && AllCreated(created, a.outNodes)
    ensures b in a.outNodes <==> b.id in IdsOf(a.outNodes)
  {
    if b.id in IdsOf(a.outNodes) {
      var k :| 0 <= k < |a.outNodes| && a.outNodes[k].id == b.id;
      assert a.outNodes[k] in a.outNodes;
    }
    if b in a.outNodes {
      var k :| 0 <= k < |a.outNodes| && a.outNodes[k] == b;
      assert IdsOf(a.outNodes)[k] == b.id;
    }
  }

  /** What a built graph is like: one node for each name mentioned, ids numbering them from 0, an edge for each
      declared pair and no edge twice, and on each node the number of its inputs. */
  ghost predicate Described(builder: Builder, conf: seq<Entry>, known: set<string>)
    reads builder, (set n | n in builder.created)`outNodes, (set n | n in builder.created)`inputNum
  {
    && NamesDeclared(builder.nodesMap.Keys, conf, known)
    && BijectiveIds(builder.nodesMap, builder.nodeNames, builder.created)
    && DeclaredTopology(Topology(builder.created), builder.nodeNames, conf, known)
    && (forall i :: 0 <= i < |builder.created| ==> builder.created[i].inputNum == InDegree(Topology(builder.created), i))
  }

  /** Some entry is marked as root, and its name and those of the entries before it have classes. */
  ghost predicate RootVisited(conf: seq<Entry>, known: set<string>) {
    exists j :: 0 <= j < |conf| && conf[j].root && AllKnown(conf, j + 1, known)
  }

  /** Where the visit of the entries ends: behind the last one, or at the first whose name has no class. */
  ghost predicate StopsAt(conf: seq<Entry>, n: nat, known: set<string>) {
    n <= |conf| && AllKnown(conf, n, known) && (n < |conf| ==> conf[n].name !in known)
  }

  /** Builds a graph from its configuration.  What is built is what the first n entries describe, up to the first whose
      name has no class; it passes the start-up check exactly when it is acceptable. */
  method InitGraph(attributes: seq<Attributes>, known: set<string>) returns (ok: bool, graph: Graph, builder: Builder, ghost n: nat)
    requires RootVisited(EntriesOf(attributes), known)
    ensures var conf := EntriesOf(attributes);
            && StopsAt(conf, n, known)
            && Universe(builder.created) && Described(builder, conf[..n], known)
            && graph.root != null && graph.Collected(builder.created) && RootName(conf, n, graph.root.name)
    ensures ok <==> Accepted(Topology(builder.created), graph.root.id)
  {
    var conf := EntriesOf(attributes);
    var root: Node;
    builder, root, n := BuildGraph(conf, known);
    graph := new Graph();
    assert forall n :: n in builder.created ==> n in builder.objects;
    ok := Start(graph, root, builder, conf[..n], known);
  }

  method BuildGraph(conf: seq<Entry>, known: set<string>) returns (builder: Builder, root: Node, ghost n: nat)
    requires RootVisited(conf, known)
    ensures StopsAt(conf, n, known)
    ensures fresh(builder) && fresh(builder.objects) && builder.objects == set n | n in builder.created
    ensures Universe(builder.created) && Described(builder, conf[..n], known)
    ensures forall i :: 0 <= i < |builder.created| ==> builder.created[i].inputNumForCheck == InDegree(Topology(builder.created), i)
    ensures IsCreated(builder.created, root) && RootName(conf, n, root.name)
  {
    builder := new Builder();
    var node, k, edges, names := builder.Build(conf, known);
    n := k;
    GivenPrefix(edges, names, conf, n, known);
    Summary(builder, edges, names, conf[..n], known);
    root := node;
  }

  lemma GivenPrefix(edges: seq<set<(string, string)>>, names: seq<set<string>>, conf: seq<Entry>, n: nat, known: set<string>)
    requires n <= |conf| && Given(edges, names, conf, n, known)
    ensures Given(edges, names, conf[..n], n, known)
  {
  }

  /** The start-up of a graph leaves everything about the built graph alone except the counters that it uses up. */
  method Start(graph: Graph, root: Node, builder: Builder, ghost conf: seq<Entry>, ghost known: set<string>) returns (ok: bool)
    requires Universe(builder.created) && IsCreated(builder.created, root) && Described(builder, conf, known)
    requires forall i :: 0 <= i < |builder.created| ==> builder.created[i].inputNumForCheck == InDegree(Topology(builder.created), i)
    modifies graph, (set n | n in builder.created)`inputNumForCheck
    ensures graph.root == root && graph.Collected(builder.created)
    ensures Universe(builder.created) && Described(builder, conf, known)
    ensures ok <==> Accepted(Topology(builder.created), root.id)
  {
    var ret := graph.Init(root, builder.created);
    ok := ret == 0;
  }

  /** The recorded edges and names are the declared ones. */
  lemma DeclaredMeaning(edges: seq<set<(string, string)>>, names: seq<set<string>>, conf: seq<Entry>, known: set<string>)
    requires Given(edges, names, conf, |conf|, known)
    ensures forall a, b {:trigger DeclaredEdge(conf, known, a, b)} :: (a, b) in Union(edges) <==> DeclaredEdge(conf, known, a, b)
    ensures NamesDeclared(Union(names), conf, known)
  {
    forall a, b ensures (a, b) in Union(edges) <==> DeclaredEdge(conf, known, a, b) {
      UnionMeaning(edges, (a, b));
      assert forall j {:trigger edges[j]} :: 0 <= j < |conf| ==> ((a, b) in edges[j] <==> Declares(conf[j], known, a, b));
      if DeclaredEdge(conf, known, a, b) {
        var e :| e in conf && Declares(e, known, a, b);
        var j :| 0 <= j < |conf| && conf[j] == e;
        assert (a, b) in edges[j];
      }
    }
    forall a ensures a in Union(names) <==> DeclaredName(conf, known, a) {
      UnionMeaning(names, a);
      assert forall j {:trigger names[j]} :: 0 <= j < |conf| ==> (a in names[j] <==> Mentions(conf[j], known, a));
      if DeclaredName(conf, known, a) {
        var e :| e in conf && Mentions(e, known, a);
        var j :| 0 <= j < |conf| && conf[j] == e;
        assert a in names[j];
      }
    }
  }

  /** What the builder's invariant says about the objects. */
  lemma Summary(builder: Builder, edges: seq<set<(string, string)>>, names: seq<set<string>>, conf: seq<Entry>, known: set<string>)
    requires builder.Valid() && Given(edges, names, conf, |conf|, known)
    requires builder.net.edges == Union(edges) && builder.nodesMap.Keys == Union(names)
    ensures Universe(builder.created) && Described(builder, conf, known)
    ensures forall i :: 0 <= i < |builder.created| ==> builder.created[i].inputNumForCheck == InDegree(Topology(builder.created), i)
  {
    var created, net := builder.created, builder.net;
    MirrorsIsUniverse(created, net);
    ReplayOk(builder.log);
    forall i | 0 <= i < |created| ensures created[i].inputNumForCheck == InDegree(Topology(created), i) {
      assert net.inputs[i] == InDegree(net.g, i);
    }
    DeclaredMeaning(edges, names, conf, known);
    forall i: nat, j: nat | i < |net.g| && j < |net.g| ensures HasEdge(net.g, i, j) <==> DeclaredEdge(conf, known, net.names[i], net.names[j]) {
      assert HasEdge(net.g, i, j) <==> (net.names[i], net.names[j]) in net.edges;
    }
  }

  ghost predicate NamesDeclared(names: set<string>, conf: seq<Entry>, known: set<string>) {
    forall a {:trigger DeclaredName(conf, known, a)} :: a in names <==> DeclaredName(conf, known, a)
  }

  /** Every name has its own id, and the ids are 0, 1, ... up to the number of names. */
  ghost predicate BijectiveIds(nodesMap: map<string, Node>, names: seq<string>, created: seq<Node>) {
    && |names| == |created|
    && (forall i :: 0 <= i < |created| ==>
          created[i].id == i && created[i].name == names[i] && names[i] in nodesMap && nodesMap[names[i]] == created[i])
    && (forall a :: a in nodesMap ==> nodesMap[a].id < |created| && names[nodesMap[a].id] == a)
  }

  /** There is an edge exactly for each declared pair of names, and none is listed twice. */
  ghost predicate DeclaredTopology(g: Digraph, names: seq<string>, conf: seq<Entry>, known: set<string>) {
    && |g| == |names|
    && (forall i: nat, j: nat {:trigger HasEdge(g, i, j)} :: i < |g| && j < |g| ==>
          (HasEdge(g, i, j) <==> DeclaredEdge(conf, known, names[i], names[j])))
    && (forall i :: 0 <= i < |g| ==> Distinct(g[i]))
  }
}
