/** The same-instance graph of a prepared schema, and the whole preparation. */
module PreparedCost {
  import opened Common
  import opened Documents
  import opened Pointers
  import opened SchemaGraph
  import SchemaCost

  function CostNode(n: Node): SchemaCost.Node {
    SchemaCost.Node(n.ref, n.same, n.branches, n.value.Obj? && "if" in n.value.members)
  }

  function CostGraph(nodes: Nodes): (g: SchemaCost.Graph)
    ensures |g| == |nodes| && forall i :: 0 <= i < |g| ==> g[i] == CostNode(nodes[i])
  {
    seq(|nodes|, i requires 0 <= i < |nodes| => CostNode(nodes[i]))
  }

  /** Every edge of the cost graph stays inside it. */
  lemma CostGraphClosed(root: Json, nodes: Nodes)
    requires Prepared(root, nodes)
    ensures SchemaCost.Closed(CostGraph(nodes))
  {
    var g := CostGraph(nodes);
    forall n | 0 <= n < |g|
      ensures SchemaCost.Within(g, SchemaCost.Always(g[n])) && SchemaCost.Within(g, SchemaCost.Alternatives(g[n]))
    {
      assert Inspected(nodes, nodes[n]);
      assert InRange(nodes, nodes[n].same) && InRange(nodes, nodes[n].branches);
    }
  }

  /** The child sees the same instance value, always or as the branch of an `if`. */
  predicate SeesSameInstance(v: Json, c: Child) {
    c.role == Same || (c.role == Branch && v.Obj? && "if" in v.members)
  }

  lemma {:induction false} OfRoleElements(cs: seq<Child>, role: Role, c: Child)
    ensures c in OfRole(cs, role) <==> c in cs && c.role == role
  {
    if cs != [] {
      OfRoleElements(cs[..|cs| - 1], role, c);
      assert cs == cs[..|cs| - 1] + [cs[|cs| - 1]];
    }
  }

  /** Edges that cover children lead to a node exactly when a child is there. */
  lemma CoveredExactly(root: Json, nodes: Nodes, base: Tokens, ids: seq<nat>, cs: seq<Child>, b: nat)
    requires LocationsOk(root, nodes) && Covers(nodes, base, ids, cs) && b < |nodes|
    ensures b in ids <==> exists c :: c in cs && nodes[b].tokens == base + c.suffix
  {
    if b in ids {
      var i :| 0 <= i < |ids| && ids[i] == b;
      assert nodes[b].tokens in Targets(nodes, ids);
      var k :| 0 <= k < |cs| && nodes[b].tokens == base + cs[k].suffix;
      assert cs[k] in cs;
    }
    if exists c :: c in cs && nodes[b].tokens == base + c.suffix {
      var c :| c in cs && nodes[b].tokens == base + c.suffix;
      var k :| 0 <= k < |cs| && cs[k] == c;
      assert nodes[b].tokens in Places(base, cs);
      var i :| 0 <= i < |ids| && nodes[ids[i]].tokens == nodes[b].tokens;
      assert ids[i] == b;
    }
  }

  /** The cost graph has an edge exactly from a reference to its target, and
      from any other schema to the subschemas that see the same instance. */
  lemma CostEdgesExactly(root: Json, nodes: Nodes, a: nat, b: nat)
    requires Prepared(root, nodes) && a < |nodes| && b < |nodes|
    ensures GrammarChildren(nodes[a].value).Some?
    ensures SchemaCost.Edge(CostGraph(nodes), a, b) <==>
      if nodes[a].ref.Some? then nodes[a].ref == Some(b)
      else exists c :: c in GrammarChildren(nodes[a].value).value && SeesSameInstance(nodes[a].value, c)
                       && nodes[b].tokens == nodes[a].tokens + c.suffix
  {
    var n := nodes[a];
    assert Inspected(nodes, n);
    if n.ref.None? { RolesExactly(root, nodes, n, GrammarChildren(n.value).value, b); }
  }

  lemma RolesExactly(root: Json, nodes: Nodes, n: Node, cs: seq<Child>, b: nat)
    requires LocationsOk(root, nodes) && Linking(nodes, n, cs) && b < |nodes| && n.ref.None?
    ensures b in SchemaCost.Always(CostNode(n)) || b in SchemaCost.Alternatives(CostNode(n)) <==>
      exists c :: c in cs && SeesSameInstance(n.value, c) && nodes[b].tokens == n.tokens + c.suffix
  {
    CoveredExactly(root, nodes, n.tokens, n.same, OfRole(cs, Same), b);
    CoveredExactly(root, nodes, n.tokens, n.branches, OfRole(cs, Branch), b);
    forall c ensures (c in OfRole(cs, Same) <==> c in cs && c.role == Same) && (c in OfRole(cs, Branch) <==> c in cs && c.role == Branch) {
      OfRoleElements(cs, Same, c);
      OfRoleElements(cs, Branch, c);
    }
    EdgeByRole(nodes, n, cs, b);
  }

  lemma EdgeByRole(nodes: Nodes, n: Node, cs: seq<Child>, b: nat)
    requires b < |nodes| && n.ref.None?
    requires b in n.same <==> exists c :: c in OfRole(cs, Same) && nodes[b].tokens == n.tokens + c.suffix
    requires b in n.branches <==> exists c :: c in OfRole(cs, Branch) && nodes[b].tokens == n.tokens + c.suffix
    requires forall c :: (c in OfRole(cs, Same) <==> c in cs && c.role == Same) && (c in OfRole(cs, Branch) <==> c in cs && c.role == Branch)
    ensures b in SchemaCost.Always(CostNode(n)) || b in SchemaCost.Alternatives(CostNode(n)) <==>
      exists c :: c in cs && SeesSameInstance(n.value, c) && nodes[b].tokens == n.tokens + c.suffix
  {
    if c :| c in cs && SeesSameInstance(n.value, c) && nodes[b].tokens == n.tokens + c.suffix {
      if c.role == Same { assert c in OfRole(cs, Same); } else { assert c in OfRole(cs, Branch); }
    }
  }

  // ---------- All graphs of a document agree ----------

  lemma LeadsInside(all: Nodes, n: Node, t: Tokens)
    requires Inspected(all, n) && Leads(n.value, n.tokens, t)
    ensures InGraph(all, t)
  {
    if t in Places(n.tokens, GrammarChildren(n.value).value) {
      assert t in Targets(all, n.grammar);
      var i :| 0 <= i < |n.grammar| && all[n.grammar[i]].tokens == t;
      assert NodeAt(all, n.grammar[i], t);
    } else {
      assert NodeAt(all, n.ref.value, t);
    }
  }

  lemma NextInside(root: Json, nodes: Nodes, all: Nodes, p: nat, t: Tokens)
    requires p < |nodes| && Located(root, nodes, p) && Closed(root, all) && InGraph(all, nodes[p].tokens)
    requires Leads(nodes[p].value, nodes[p].tokens, t)
    ensures InGraph(all, t)
  {
    var q: nat :| NodeAt(all, q, nodes[p].tokens);
    assert Located(root, all, q) && Inspected(all, all[q]);
    LeadsInside(all, all[q], t);
  }

  /** A graded graph holds only locations that every closed graph has. */
  lemma {:induction false} ReachedInside(root: Json, nodes: Nodes, all: Nodes, maxDepth: nat, i: nat)
    requires LocationsOk(root, nodes) && nodes != [] && nodes[0].tokens == [] && Graded(nodes, maxDepth)
    requires Closed(root, all) && i < |nodes|
    ensures InGraph(all, nodes[i].tokens)
    decreases nodes[i].depth
  {
    if i == 0 {
      assert NodeAt(all, 0, []);
    } else {
      assert Discovered(nodes, i);
      var p: nat :| Discovers(nodes, p, i);
      ReachedInside(root, nodes, all, maxDepth, p);
      assert Located(root, nodes, p);
      NextInside(root, nodes, all, p, nodes[i].tokens);
    }
  }

  ghost function IndexAt(all: Nodes, tokens: Tokens): (j: nat)
    requires InGraph(all, tokens)
    ensures NodeAt(all, j, tokens)
  {
    var j :| NodeAt(all, j, tokens); j
  }

  /** Every node with the node of the same location in another graph. */
  ghost predicate Twins(nodes: Nodes, all: Nodes, f: seq<nat>) {
    |f| == |nodes| && forall i :: 0 <= i < |nodes| ==> NodeAt(all, f[i], nodes[i].tokens)
  }

  lemma TwinIds(nodes: Nodes, all: Nodes, f: seq<nat>, a: seq<nat>, b: seq<nat>)
    requires Twins(nodes, all, f) && DistinctTokens(all) && InRange(nodes, a) && InRange(all, b) && Sites(nodes, a) == Sites(all, b)
    ensures SchemaCost.Sent(a, b, f)
  {
    assert |a| == |Sites(nodes, a)| && |b| == |Sites(all, b)|;
    forall i | 0 <= i < |a| ensures a[i] < |f| && b[i] == f[a[i]] {
      assert Sites(nodes, a)[i] == nodes[a[i]].tokens && Sites(all, b)[i] == all[b[i]].tokens;
      assert NodeAt(all, f[a[i]], nodes[a[i]].tokens);
    }
  }

  /** What the edges of a node are, without the graph they are in. */
  lemma EdgeSites(nodes: Nodes, n: Node, cs: seq<Child>)
    requires Inspected(nodes, n) && GrammarChildren(n.value) == Some(cs)
    ensures InRange(nodes, n.same) && Sites(nodes, n.same) == Distinct(n.tokens, OfRole(cs, Same))
    ensures InRange(nodes, n.branches) && Sites(nodes, n.branches) == Distinct(n.tokens, OfRole(cs, Branch))
  {
  }

  lemma TwinTargets(nodes: Nodes, all: Nodes, f: seq<nat>, n: Node, m: Node)
    requires Twins(nodes, all, f) && DistinctTokens(all) && RefOk(nodes, n) && RefOk(all, m) && n.value == m.value
    ensures n.ref.Some? <==> m.ref.Some?
    ensures n.ref.Some? ==> n.ref.value < |f| && m.ref.value == f[n.ref.value]
  {
    if n.ref.Some? { assert NodeAt(all, f[n.ref.value], nodes[n.ref.value].tokens); }
  }

  lemma TwinNodes(nodes: Nodes, all: Nodes, f: seq<nat>, n: Node, m: Node)
    requires Twins(nodes, all, f) && DistinctTokens(all) && Inspected(nodes, n) && Inspected(all, m)
    requires n.tokens == m.tokens && n.value == m.value
    ensures SchemaCost.SentNode(CostNode(n), CostNode(m), f)
  {
    TwinTargets(nodes, all, f, n, m);
    var cs := GrammarChildren(n.value).value;
    EdgeSites(nodes, n, cs);
    EdgeSites(all, m, cs);
    TwinIds(nodes, all, f, n.same, m.same);
    TwinIds(nodes, all, f, n.branches, m.branches);
  }

  /** So the cost graph of a graded graph can be renamed into that of any closed
      graph of the same document. */
  lemma TwinsRename(root: Json, nodes: Nodes, all: Nodes, maxDepth: nat) returns (f: seq<nat>)
    requires Closed(root, nodes) && Graded(nodes, maxDepth) && Closed(root, all)
    ensures SchemaCost.Renames(CostGraph(nodes), CostGraph(all), f)
  {
    forall i | 0 <= i < |nodes| ensures InGraph(all, nodes[i].tokens) { ReachedInside(root, nodes, all, maxDepth, i); }
    f := seq(|nodes|, i requires 0 <= i < |nodes| => IndexAt(all, nodes[i].tokens));
    assert Twins(nodes, all, f);
    forall i | 0 <= i < |nodes| ensures SchemaCost.RenamedAt(CostGraph(nodes), CostGraph(all), f, i) {
      assert NodeAt(all, f[i], nodes[i].tokens);
      assert Located(root, nodes, i) && Located(root, all, f[i]);
      assert Inspected(nodes, nodes[i]) && Inspected(all, all[f[i]]);
      TwinNodes(nodes, all, f, nodes[i], all[f[i]]);
    }
  }

  /** A closed graph that the limits permit, visits included. */
  ghost predicate Affordable(root: Json, nodes: Nodes, maxNodes: nat, maxDepth: nat, maxVisits: nat) {
    Permitted(root, nodes, maxNodes, maxDepth) && SchemaCost.Bounded(CostGraph(nodes), maxVisits)
  }

  /** The bound on visits does not depend on which graph is looked at. */
  lemma CostsAgree(root: Json, nodes: Nodes, all: Nodes, maxNodes: nat, maxDepth: nat, maxVisits: nat)
    requires Permitted(root, nodes, maxNodes, maxDepth) && Permitted(root, all, maxNodes, maxDepth)
    ensures SchemaCost.Bounded(CostGraph(nodes), maxVisits) <==> SchemaCost.Bounded(CostGraph(all), maxVisits)
  {
    var f := TwinsRename(root, nodes, all, maxDepth);
    var back := TwinsRename(root, all, nodes, maxDepth);
    if SchemaCost.Bounded(CostGraph(all), maxVisits) {
      SchemaCost.RenamedIsBounded(CostGraph(nodes), CostGraph(all), f, maxVisits);
    }
    if SchemaCost.Bounded(CostGraph(nodes), maxVisits) {
      SchemaCost.RenamedIsBounded(CostGraph(all), CostGraph(nodes), back, maxVisits);
    }
  }

  ghost predicate HasAffordable(root: Json, maxNodes: nat, maxDepth: nat, maxVisits: nat) {
    exists g :: Affordable(root, g, maxNodes, maxDepth, maxVisits)
  }

  lemma AffordableExactly(root: Json, nodes: Nodes, maxNodes: nat, maxDepth: nat, maxVisits: nat)
    requires Permitted(root, nodes, maxNodes, maxDepth)
    ensures HasAffordable(root, maxNodes, maxDepth, maxVisits) <==> SchemaCost.Bounded(CostGraph(nodes), maxVisits)
  {
    if g :| Affordable(root, g, maxNodes, maxDepth, maxVisits) { CostsAgree(root, nodes, g, maxNodes, maxDepth, maxVisits); }
    if SchemaCost.Bounded(CostGraph(nodes), maxVisits) { assert Affordable(root, nodes, maxNodes, maxDepth, maxVisits); }
  }

  lemma AffordableIsAcceptable(root: Json, maxNodes: nat, maxDepth: nat, maxVisits: nat)
    requires HasAffordable(root, maxNodes, maxDepth, maxVisits)
    ensures Acceptable(root, maxNodes, maxDepth)
  {
    var g :| Affordable(root, g, maxNodes, maxDepth, maxVisits);
    assert Permitted(root, g, maxNodes, maxDepth);
  }

  /** The whole preparation: a document is accepted exactly when it has a closed
      graph that the limits permit and in which no value can visit more schemas
      than permitted without progress. */
  method PrepareWithLimits(root: Json, maxNodes: nat, maxDepth: nat, maxVisits: nat) returns (r: Option<Nodes>)
    ensures r.Some? <==> HasAffordable(root, maxNodes, maxDepth, maxVisits)
    ensures r.Some? ==> Prepared(root, r.value) && Affordable(root, r.value, maxNodes, maxDepth, maxVisits)
  {
    r := Prepare(root, maxNodes, maxDepth);
    if r.None? {
      if HasAffordable(root, maxNodes, maxDepth, maxVisits) { AffordableIsAcceptable(root, maxNodes, maxDepth, maxVisits); }
      return;
    }
    CostGraphClosed(root, r.value);
    AffordableExactly(root, r.value, maxNodes, maxDepth, maxVisits);
    var ok := SchemaCost.CheckSameInstanceExpansion(CostGraph(r.value), maxVisits);
    if !ok { return None; }
  }
}
