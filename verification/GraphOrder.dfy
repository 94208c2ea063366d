/** The configuration library visits the entries of a graph in no particular order. */
module GraphOrder {
  import opened Digraph
  import opened Graph
  import opened GraphConfig
  import opened GraphManager
  import opened Isomorphism

  // ------------------------------------------------------------------ two numberings of the same names

  /** A graph over named nodes that has exactly the declared names and edges. */
  ghost predicate Declared(names: seq<string>, g: Digraph, conf: seq<Entry>, known: set<string>) {
    && DistinctNames(names) && WellFormed(g) && DeclaredTopology(g, names, conf, known)
    && (forall a {:trigger DeclaredName(conf, known, a)} :: a in names <==> DeclaredName(conf, known, a))
  }

  ghost function Position(names: seq<string>, a: string): (i: nat)
    requires a in names
    ensures i < |names| && names[i] == a
  {
    var i :| 0 <= i < |names| && names[i] == a;
    i
  }

  /** The positions in names2 of the names of names1. */
  ghost function Renumbering(names1: seq<string>, names2: seq<string>): (f: seq<nat>)
    requires forall a :: a in names1 ==> a in names2
    ensures |f| == |names1| && forall i :: 0 <= i < |f| ==> f[i] < |names2| && names2[f[i]] == names1[i]
  {
    seq(|names1|, i requires 0 <= i < |names1| => Position(names2, names1[i]))
  }

  lemma RenumberingRenames(names1: seq<string>, g1: Digraph, names2: seq<string>, g2: Digraph, conf: seq<Entry>, known: set<string>)
    requires Declared(names1, g1, conf, known) && Declared(names2, g2, conf, known)
    requires forall a :: a in names1 ==> a in names2
    ensures Renames(g1, g2, Renumbering(names1, names2))
  {
    var f := Renumbering(names1, names2);
    forall u: nat, v: nat | v < |g1| && HasEdge(g1, u, v) ensures HasEdge(g2, f[u], f[v]) {
      assert DeclaredEdge(conf, known, names1[u], names1[v]);
    }
  }

  lemma RenumberingUndoes(names1: seq<string>, names2: seq<string>)
    requires DistinctNames(names1) && forall a :: a in names1 <==> a in names2
    ensures Undoes(Renumbering(names1, names2), Renumbering(names2, names1))
  {
  }

  lemma RenumberingIsomorphic(names1: seq<string>, g1: Digraph, names2: seq<string>, g2: Digraph, conf: seq<Entry>, known: set<string>)
    requires Declared(names1, g1, conf, known) && Declared(names2, g2, conf, known)
    ensures forall a :: a in names1 <==> a in names2
    ensures Isomorphic(g1, g2, Renumbering(names1, names2), Renumbering(names2, names1))
  {
    forall a ensures a in names1 <==> a in names2 {
      assert DeclaredName(conf, known, a) <==> a in names1;
    }
    RenumberingRenames(names1, g1, names2, g2, conf, known);
    RenumberingRenames(names2, g2, names1, g1, conf, known);
    RenumberingUndoes(names1, names2);
    RenumberingUndoes(names2, names1);
  }

  /** Declared by a permutation of the entries. */
  lemma DeclaredByOther(names: seq<string>, g: Digraph, conf1: seq<Entry>, conf2: seq<Entry>, known: set<string>)
    requires Declared(names, g, conf1, known) && multiset(conf1) == multiset(conf2)
    ensures Declared(names, g, conf2, known)
  {
    DeclaredAlike(conf1, conf2, known);
    forall i: nat, j: nat | i < |g| && j < |g| ensures HasEdge(g, i, j) <==> DeclaredEdge(conf2, known, names[i], names[j]) {
      assert DeclaredEdge(conf1, known, names[i], names[j]) <==> DeclaredEdge(conf2, known, names[i], names[j]);
    }
    forall a ensures a in names <==> DeclaredName(conf2, known, a) {
      assert DeclaredName(conf1, known, a) <==> DeclaredName(conf2, known, a);
    }
  }

  // ------------------------------------------------------------------ the graphs that are built

  /** There is an edge between the nodes of these names. */
  ghost predicate NamedEdge(builder: Builder, a: string, b: string)
    reads builder, (set n | n in builder.created)`outNodes
  {
    a in builder.nodesMap && b in builder.nodesMap
    && HasEdge(Topology(builder.created), builder.nodesMap[a].id, builder.nodesMap[b].id)
  }

  lemma BuiltIsDeclared(builder: Builder, conf: seq<Entry>, known: set<string>)
    requires Universe(builder.created) && Described(builder, conf, known)
    ensures Declared(builder.nodeNames, Topology(builder.created), conf, known)
    ensures forall a :: a in builder.nodesMap <==> a in builder.nodeNames
  {
    UniverseIsWellFormed(builder.created);
    forall a ensures a in builder.nodesMap <==> a in builder.nodeNames {
      assert a in builder.nodesMap.Keys <==> DeclaredName(conf, known, a);
    }
  }

  lemma NamedEdgeIsDeclared(builder: Builder, conf: seq<Entry>, known: set<string>, a: string, b: string)
    requires Universe(builder.created) && Described(builder, conf, known)
    ensures NamedEdge(builder, a, b) <==> DeclaredEdge(conf, known, a, b)
  {
    if DeclaredEdge(conf, known, a, b) {
      var e :| e in conf && Declares(e, known, a, b);
      assert Mentions(e, known, a) && Mentions(e, known, b);
      assert DeclaredName(conf, known, a) && DeclaredName(conf, known, b);
      assert a in builder.nodesMap.Keys && b in builder.nodesMap.Keys;
    }
  }

  /** All entries marked as root have the same name. */
  ghost predicate OneRoot(conf: seq<Entry>) {
    forall e, f :: e in conf && f in conf && e.root && f.root ==> e.name == f.name
  }

  lemma WholeVisit(conf: seq<Entry>, n: nat, known: set<string>)
    requires StopsAt(conf, n, known) && forall e :: e in conf ==> e.name in known
    ensures n == |conf| && conf[..n] == conf
  {
  }

  lemma SameMembers(conf1: seq<Entry>, conf2: seq<Entry>)
    requires multiset(conf1) == multiset(conf2)
    ensures forall e :: e in conf1 <==> e in conf2
  {
    assert forall e :: e in conf1 <==> e in multiset(conf1);
    assert forall e :: e in conf2 <==> e in multiset(conf2);
  }

  lemma SameRoot(conf1: seq<Entry>, n1: nat, conf2: seq<Entry>, n2: nat, name1: string, name2: string)
    requires multiset(conf1) == multiset(conf2) && OneRoot(conf1) && n1 <= |conf1| && n2 <= |conf2|
    requires RootName(conf1, n1, name1) && RootName(conf2, n2, name2)
    ensures name1 == name2
  {
    SameMembers(conf1, conf2);
    var i: nat :| i < n1 && conf1[i].root && conf1[i].name == name1;
    var j: nat :| j < n2 && conf2[j].root && conf2[j].name == name2;
    assert conf1[i] in conf1 && conf2[j] in conf1;
  }

  /** Whatever the order in which the entries are visited, when all their names have classes and one of them is the root,
      the same graph is built, up to the numbering of its nodes: the names, the edges between them and the root are the
      same, and so is the verdict of the start-up check. */
  lemma OrderDoesNotMatter(conf1: seq<Entry>, conf2: seq<Entry>, known: set<string>, n1: nat, n2: nat,
                           b1: Builder, b2: Builder, root1: Node, root2: Node)
    requires multiset(conf1) == multiset(conf2) && OneRoot(conf1) && forall e :: e in conf1 ==> e.name in known
    requires StopsAt(conf1, n1, known) && Universe(b1.created) && Described(b1, conf1[..n1], known)
    requires StopsAt(conf2, n2, known) && Universe(b2.created) && Described(b2, conf2[..n2], known)
    requires IsCreated(b1.created, root1) && RootName(conf1, n1, root1.name)
    requires IsCreated(b2.created, root2) && RootName(conf2, n2, root2.name)
    ensures b1.nodesMap.Keys == b2.nodesMap.Keys && root1.name == root2.name
    ensures forall a, b :: NamedEdge(b1, a, b) <==> NamedEdge(b2, a, b)
    ensures Accepted(Topology(b1.created), root1.id) <==> Accepted(Topology(b2.created), root2.id)
  {
    SameMembers(conf1, conf2);
    WholeVisit(conf1, n1, known);
    WholeVisit(conf2, n2, known);
    SameRoot(conf1, n1, conf2, n2, root1.name, root2.name);
    SameEdges(conf1, conf2, known, b1, b2);
    SameVerdict(conf1, conf2, known, b1, b2, root1, root2);
  }

  lemma SameEdges(conf1: seq<Entry>, conf2: seq<Entry>, known: set<string>, b1: Builder, b2: Builder)
    requires multiset(conf1) == multiset(conf2)
    requires Universe(b1.created) && Described(b1, conf1, known) && Universe(b2.created) && Described(b2, conf2, known)
    ensures forall a, b :: NamedEdge(b1, a, b) <==> NamedEdge(b2, a, b)
  {
    DeclaredAlike(conf1, conf2, known);
    forall a, b ensures NamedEdge(b1, a, b) <==> NamedEdge(b2, a, b) {
      NamedEdgeIsDeclared(b1, conf1, known, a, b);
      NamedEdgeIsDeclared(b2, conf2, known, a, b);
    }
  }

  lemma SameVerdict(conf1: seq<Entry>, conf2: seq<Entry>, known: set<string>, b1: Builder, b2: Builder, root1: Node, root2: Node)
    requires multiset(conf1) == multiset(conf2)
    requires Universe(b1.created) && Described(b1, conf1, known) && Universe(b2.created) && Described(b2, conf2, known)
    requires IsCreated(b1.created, root1) && IsCreated(b2.created, root2) && root1.name == root2.name
    ensures b1.nodesMap.Keys == b2.nodesMap.Keys
    ensures Accepted(Topology(b1.created), root1.id) <==> Accepted(Topology(b2.created), root2.id)
  {
    BuiltIsDeclared(b1, conf1, known);
    BuiltIsDeclared(b2, conf2, known);
    var g1, g2, names1, names2 := Topology(b1.created), Topology(b2.created), b1.nodeNames, b2.nodeNames;
    assert names1[root1.id] == root1.name && names2[root2.id] == root2.name;
    DeclaredByOther(names1, g1, conf1, conf2, known);
    SameVerdictByName(names1, g1, names2, g2, conf2, known, root1.id, root2.id);
  }

  lemma SameVerdictByName(names1: seq<string>, g1: Digraph, names2: seq<string>, g2: Digraph, conf: seq<Entry>, known: set<string>,
                          root1: nat, root2: nat)
    requires Declared(names1, g1, conf, known) && Declared(names2, g2, conf, known)
    requires root1 < |g1| && root2 < |g2| && names1[root1] == names2[root2]
    ensures forall a :: a in names1 <==> a in names2
    ensures Accepted(g1, root1) <==> Accepted(g2, root2)
  {
    RenumberingIsomorphic(names1, g1, names2, g2, conf, known);
    var f := Renumbering(names1, names2);
    SamePosition(names2, f[root1], root2);
    AcceptedAlike(g1, g2, f, Renumbering(names2, names1), root1);
  }

  lemma SamePosition(names: seq<string>, i: nat, j: nat)
    requires DistinctNames(names) && i < |names| && j < |names| && names[i] == names[j]
    ensures i == j
  {
  }

  /** Otherwise the order matters: of two entries marked as root the one visited last becomes the root, and an entry
      whose name has no class hides those visited after it. */
  lemma OrderMatters()
    ensures var a, b := Entry("a", [], [], true), Entry("b", [], [], true);
            && RootName([a, b], 2, "b") && RootName([b, a], 2, "a")
            && StopsAt([a, b], 1, {"a"}) && StopsAt([b, a], 0, {"a"})
  {
    var a, b := Entry("a", [], [], true), Entry("b", [], [], true);
    assert [a, b][1] == b && [b, a][1] == a;
  }
}
