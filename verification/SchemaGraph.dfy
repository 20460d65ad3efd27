/** The closure of a schema document under grammar children and local
    references, built by a worklist. */
module SchemaGraph {
  import opened Sequences
  import opened Common
  import opened Documents
  import opened Pointers
  import D = Decimals

  predicate IsSchema(v: Json) { v.Obj? || v.Bool? }

  /** The value at a token path. */
  function At(v: Json, tokens: Tokens): Option<Json>
    decreases |tokens|
  {
    if tokens == [] then Some(v)
    else
      match v
      case Obj(members) => if tokens[0] in members then At(members[tokens[0]], tokens[1..]) else None
      case Arr(items) =>
        (match ParseArrayIndex(tokens[0], |items|)
         case None => None
         case Some(i) => At(items[i], tokens[1..]))
      case _ => None
  }

  lemma {:induction false} AtConcat(v: Json, p: Tokens, q: Tokens)
    ensures At(v, p + q) == match At(v, p) case None => None case Some(w) => At(w, q)
    decreases |p|
  {
    if p == [] {
      assert p + q == q;
    } else {
      assert (p + q)[0] == p[0] && (p + q)[1..] == p[1..] + q;
      match v
      case Obj(members) => if p[0] in members { AtConcat(members[p[0]], p[1..], q); }
      case Arr(items) =>
        var i := ParseArrayIndex(p[0], |items|);
        if i.Some? { AtConcat(items[i.value], p[1..], q); }
      case _ =>
    }
  }

  // ---------- Grammar children of a schema object ----------

  datatype Role = Plain | Same | Branch

  datatype Child = Child(suffix: Tokens, value: Json, role: Role)

  predicate ChildOk(v: Json, c: Child) {
    c.suffix != [] && At(v, c.suffix) == Some(c.value) && IsSchema(c.value)
  }

  predicate ChildrenOk(v: Json, cs: seq<Child>) {
    forall i :: 0 <= i < |cs| ==> ChildOk(v, cs[i])
  }

  type Found = Option<seq<Child>>

  function Both(a: Found, b: Found): Found {
    if a.Some? && b.Some? then Some(a.value + b.value) else None
  }

  function SingleRole(keyword: string): Role {
    if keyword == "not" || keyword == "if" then Same
    else if keyword == "then" || keyword == "else" then Branch
    else Plain
  }

  lemma StepIntoMember(m: map<string, Json>, k: string, rest: Tokens)
    requires k in m
    ensures At(Obj(m), [k] + rest) == At(m[k], rest)
  {
    assert ([k] + rest)[1..] == rest;
  }

  function One(m: map<string, Json>, keyword: string, role: Role): (r: Found)
    requires keyword in m
    ensures r.Some? ==> ChildrenOk(Obj(m), r.value)
  {
    StepIntoMember(m, keyword, []);
    assert [keyword] == [keyword] + [];
    if IsSchema(m[keyword]) then Some([Child([keyword], m[keyword], role)]) else None
  }

  function Singles(m: map<string, Json>, keywords: seq<string>): (r: Found)
    ensures r.Some? ==> ChildrenOk(Obj(m), r.value)
  {
    if keywords == [] then Some([])
    else
      var first := if keywords[0] in m then One(m, keywords[0], SingleRole(keywords[0])) else Some([]);
      Both(first, Singles(m, keywords[1..]))
  }

  /** Elements `from..` of the array member `keyword`. */
  function Elements(m: map<string, Json>, keyword: string, from: nat, role: Role): (r: Found)
    requires keyword in m && m[keyword].Arr? && from <= |m[keyword].items|
    ensures r.Some? ==> ChildrenOk(Obj(m), r.value)
    decreases |m[keyword].items| - from
  {
    var items := m[keyword].items;
    if from == |items| then Some([])
    else if !IsSchema(items[from]) then None
    else
      var index := D.Natural(from);
      ArrayIndexRoundTrip(from, |items|);
      StepIntoMember(m, keyword, [index]);
      assert [keyword, index] == [keyword] + [index];
      Both(Some([Child([keyword, index], items[from], role)]), Elements(m, keyword, from + 1, role))
  }

  function Lists(m: map<string, Json>, keywords: seq<string>): (r: Found)
    ensures r.Some? ==> ChildrenOk(Obj(m), r.value)
  {
    if keywords == [] then Some([])
    else
      var k := keywords[0];
      var first :=
        if k !in m then Some([])
        else if !m[k].Arr? || m[k].items == [] then None
        else Elements(m, k, 0, Same);
      Both(first, Lists(m, keywords[1..]))
  }

  function Items(m: map<string, Json>): (r: Found)
    ensures r.Some? ==> ChildrenOk(Obj(m), r.value)
  {
    if "items" !in m then Some([])
    else if m["items"].Arr? then (if m["items"].items == [] then None else Elements(m, "items", 0, Plain))
    else One(m, "items", Plain)
  }

  /** Members `names` of the object member `keyword`; where `lenient`, a member
      that is an array of names is not a schema. */
  function Members(m: map<string, Json>, keyword: string, names: seq<string>, lenient: bool): (r: Found)
    requires keyword in m && m[keyword].Obj? && forall k :: k in names ==> k in m[keyword].members
    ensures r.Some? ==> ChildrenOk(Obj(m), r.value)
    decreases |names|
  {
    if names == [] then Some([])
    else
      var k, members := names[0], m[keyword].members;
      StepIntoMember(m, keyword, [k]);
      StepIntoMember(members, k, []);
      assert [keyword, k] == [keyword] + [k] && [k] == [k] + [];
      var first :=
        if IsSchema(members[k]) then Some([Child([keyword, k], members[k], if lenient then Same else Plain)])
        else if lenient && members[k].Arr? then Some([])
        else None;
      Both(first, Members(m, keyword, names[1..], lenient))
  }

  function Maps(m: map<string, Json>, keywords: seq<string>, lenient: bool): (r: Found)
    ensures r.Some? ==> ChildrenOk(Obj(m), r.value)
  {
    if keywords == [] then Some([])
    else
      var k := keywords[0];
      var first :=
        if k !in m then Some([])
        else if !m[k].Obj? then None
        else Members(m, k, SortedNames(m[k].members.Keys), lenient);
      Both(first, Maps(m, keywords[1..], lenient))
  }

  const SINGLE_KEYWORDS: seq<string> :=
    ["additionalItems", "additionalProperties", "contains", "else", "if", "not", "propertyNames", "then"]
  const LIST_KEYWORDS: seq<string> := ["allOf", "anyOf", "oneOf"]
  const MAP_KEYWORDS: seq<string> := ["definitions", "properties", "patternProperties"]
  const DEPENDENCY_KEYWORDS: seq<string> := ["dependencies"]

  /** All subschemas of an object, by the keyword grammar of Draft 7. */
  function GrammarChildren(v: Json): (r: Found)
    ensures r.Some? ==> ChildrenOk(v, r.value)
  {
    if v.Obj? then ChildrenUnder(v.members, SINGLE_KEYWORDS, LIST_KEYWORDS, MAP_KEYWORDS, DEPENDENCY_KEYWORDS) else Some([])
  }

  function ChildrenUnder(m: map<string, Json>, singles: seq<string>, lists: seq<string>, maps: seq<string>,
                         dependencies: seq<string>): (r: Found)
    ensures r.Some? ==> ChildrenOk(Obj(m), r.value)
  {
    Both(Singles(m, singles), Both(Lists(m, lists), Both(Items(m), Both(Maps(m, maps, false), Maps(m, dependencies, true)))))
  }

  // ---------- Graphs ----------

  datatype Node = Node(tokens: Tokens, value: Json, depth: nat, ref: Option<nat>, grammar: seq<nat>, primary: bool,
                       same: seq<nat>, branches: seq<nat>)

  type Nodes = seq<Node>

  predicate Located(root: Json, nodes: Nodes, i: nat)
    requires i < |nodes|
  {
    At(root, nodes[i].tokens) == Some(nodes[i].value) && IsSchema(nodes[i].value)
  }

  predicate DistinctTokens(nodes: Nodes) {
    forall i, j :: 0 <= i < |nodes| && 0 <= j < |nodes| && nodes[i].tokens == nodes[j].tokens ==> i == j
  }

  /** Every location is a schema in the document, recorded once. */
  predicate LocationsOk(root: Json, nodes: Nodes) {
    && (forall i :: 0 <= i < |nodes| ==> Located(root, nodes, i))
    && DistinctTokens(nodes)
  }

  /** A reference edge leads to the node that the reference text names. */
  predicate RefOk(nodes: Nodes, n: Node) {
    if n.value.Obj? && "$ref" in n.value.members then
      && n.value.members["$ref"].Str?
      && n.ref.Some? && n.ref.value < |nodes|
      && ParseLocalPointer(n.value.members["$ref"].s) == Some(nodes[n.ref.value].tokens)
    else n.ref.None?
  }

  predicate NodeAt(nodes: Nodes, id: nat, tokens: Tokens) {
    id < |nodes| && nodes[id].tokens == tokens
  }

  predicate InRange(nodes: Nodes, ids: seq<nat>) {
    forall i :: 0 <= i < |ids| ==> ids[i] < |nodes|
  }

  ghost function Targets(nodes: Nodes, ids: seq<nat>): set<Tokens>
    requires InRange(nodes, ids)
  {
    set i | 0 <= i < |ids| :: nodes[ids[i]].tokens
  }

  ghost function Places(base: Tokens, cs: seq<Child>): set<Tokens> {
    set i | 0 <= i < |cs| :: base + cs[i].suffix
  }

  function Sites(nodes: Nodes, ids: seq<nat>): seq<Tokens>
    requires InRange(nodes, ids)
  {
    seq(|ids|, i requires 0 <= i < |ids| => nodes[ids[i]].tokens)
  }

  /** The places of the children in order, each once. */
  function Distinct(base: Tokens, cs: seq<Child>): seq<Tokens> {
    if cs == [] then []
    else
      var front, place := Distinct(base, cs[..|cs| - 1]), base + cs[|cs| - 1].suffix;
      if place in front then front else front + [place]
  }

  /** The edges `ids` lead to exactly the children `cs` of the schema at `base`,
      in order and to each place once. */
  ghost predicate Covers(nodes: Nodes, base: Tokens, ids: seq<nat>, cs: seq<Child>) {
    InRange(nodes, ids) && Targets(nodes, ids) == Places(base, cs) && Sites(nodes, ids) == Distinct(base, cs)
  }

  /** The children of one role, in order. */
  function OfRole(cs: seq<Child>, role: Role): seq<Child> {
    if cs == [] then []
    else
      var front, last := OfRole(cs[..|cs| - 1], role), cs[|cs| - 1];
      if last.role == role then front + [last] else front
  }

  lemma OfRoleMore(cs: seq<Child>, c: Child, role: Role)
    ensures OfRole(cs + [c], role) == if c.role == role then OfRole(cs, role) + [c] else OfRole(cs, role)
  {
    assert (cs + [c])[..|cs|] == cs;
  }

  /** The edges of a node lead to exactly the children `cs`: all of them, those
      that see the same instance, and those that are conditional branches. */
  ghost predicate Linking(nodes: Nodes, n: Node, cs: seq<Child>) {
    && Covers(nodes, n.tokens, n.grammar, cs)
    && Covers(nodes, n.tokens, n.same, OfRole(cs, Same))
    && Covers(nodes, n.tokens, n.branches, OfRole(cs, Branch))
  }

  ghost predicate GrammarOk(nodes: Nodes, n: Node) {
    GrammarChildren(n.value).Some? && Linking(nodes, n, GrammarChildren(n.value).value)
  }

  ghost predicate Inspected(nodes: Nodes, n: Node) {
    RefOk(nodes, n) && GrammarOk(nodes, n)
  }

  /** Schema identifiers are refused and a declared dialect is text. */
  predicate HeaderOk(v: Json) {
    v.Obj? ==> "id" !in v.members && "$id" !in v.members && ("$schema" in v.members ==> v.members["$schema"].Str?)
  }

  /** Grammar paths from the root. */
  predicate GrammarPath(nodes: Nodes, path: seq<nat>) {
    && path != [] && path[0] == 0
    && (forall i :: 0 <= i < |path| ==> path[i] < |nodes|)
    && (forall i {:trigger path[i + 1]} :: 0 <= i < |path| - 1 ==> path[i + 1] in nodes[path[i]].grammar)
  }

  ghost predicate Structural(nodes: Nodes, id: nat) {
    exists path :: GrammarPath(nodes, path) && path[|path| - 1] == id
  }

  ghost predicate Closed(root: Json, nodes: Nodes) {
    && nodes != [] && nodes[0].tokens == [] && LocationsOk(root, nodes)
    && (forall i :: 0 <= i < |nodes| ==> Inspected(nodes, nodes[i]) && HeaderOk(nodes[i].value))
  }

  /** A closed graph in which exactly the structural locations are primary. */
  ghost predicate Prepared(root: Json, nodes: Nodes) {
    && Closed(root, nodes)
    && (forall i :: 0 <= i < |nodes| ==> (nodes[i].primary <==> Structural(nodes, i)))
  }

  // ---------- Nesting depth ----------

  /** The schema `v` at `base` has a subschema at `t` or refers to it. */
  ghost predicate Leads(v: Json, base: Tokens, t: Tokens) {
    || (GrammarChildren(v).Some? && t in Places(base, GrammarChildren(v).value))
    || (v.Obj? && "$ref" in v.members && v.members["$ref"].Str? && ParseLocalPointer(v.members["$ref"].s) == Some(t))
  }

  ghost predicate Discovers(nodes: Nodes, p: nat, i: nat)
    requires i < |nodes|
  {
    p < |nodes| && Leads(nodes[p].value, nodes[p].tokens, nodes[i].tokens) && nodes[i].depth == nodes[p].depth + 1
  }

  ghost predicate Discovered(nodes: Nodes, i: nat)
    requires i < |nodes|
  {
    exists p :: Discovers(nodes, p, i)
  }

  /** A schema that leads anywhere leaves room for one more level. */
  ghost predicate Roomy(n: Node, maxDepth: nat) {
    forall t :: Leads(n.value, n.tokens, t) ==> n.depth < maxDepth
  }

  /** Depths are lengths of chains of subschemas and references from the root,
      and no step goes beyond the limit. */
  ghost predicate Graded(nodes: Nodes, maxDepth: nat) {
    && nodes != [] && nodes[0].depth == 1 <= maxDepth
    && (forall i :: 0 < i < |nodes| ==> Discovered(nodes, i))
    && (forall i :: 0 <= i < |nodes| ==> Roomy(nodes[i], maxDepth))
  }

  // ---------- Building the graph ----------

  function AppendUnique(ids: seq<nat>, id: nat): (r: seq<nat>)
    ensures forall x :: x in r <==> x in ids || x == id
  {
    if id in ids then ids else ids + [id]
  }

  /** More nodes, and the old ones where they were. */
  predicate Extends(before: Nodes, after: Nodes) {
    |before| <= |after| && forall i :: 0 <= i < |before| ==> after[i].tokens == before[i].tokens
  }

  predicate Unlinked(n: Node) { n.grammar == [] && n.same == [] && n.branches == [] }

  predicate Blank(n: Node) { n.ref.None? && !n.primary && Unlinked(n) }

  lemma NothingLinked(nodes: Nodes, n: Node, cs: seq<Child>)
    requires Unlinked(n)
    ensures Linking(nodes, n, cs[..0])
  {
    assert cs[..0] == [];
  }

  /** Only node `id` and nodes beyond the old ones may differ. */
  predicate Touches(before: Nodes, after: Nodes, id: nat) {
    && |before| <= |after|
    && (forall i :: 0 <= i < |before| && i != id ==> after[i] == before[i])
    && (id < |before| ==> after[id].tokens == before[id].tokens && after[id].value == before[id].value
                          && after[id].depth == before[id].depth && after[id].primary == before[id].primary)
    && (forall i :: |before| <= i < |after| ==> Blank(after[i]))
  }

  lemma CoversKept(before: Nodes, after: Nodes, base: Tokens, ids: seq<nat>, cs: seq<Child>)
    requires Extends(before, after) && Covers(before, base, ids, cs)
    ensures Covers(after, base, ids, cs)
  {
    assert Targets(after, ids) == Targets(before, ids);
    assert Sites(after, ids) == Sites(before, ids);
  }

  lemma InspectedKept(before: Nodes, after: Nodes, n: Node)
    requires Extends(before, after) && Inspected(before, n)
    ensures Inspected(after, n)
  {
    LinkingKept(before, after, n, GrammarChildren(n.value).value);
  }

  lemma LinkingKept(before: Nodes, after: Nodes, n: Node, cs: seq<Child>)
    requires Extends(before, after) && Linking(before, n, cs)
    ensures Linking(after, n, cs)
  {
    CoversKept(before, after, n.tokens, n.grammar, cs);
    CoversKept(before, after, n.tokens, n.same, OfRole(cs, Same));
    CoversKept(before, after, n.tokens, n.branches, OfRole(cs, Branch));
  }

  lemma LinkingMore(nodes: Nodes, n: Node, cs: seq<Child>, child: nat, c: Child)
    requires Linking(nodes, n, cs) && NodeAt(nodes, child, n.tokens + c.suffix) && DistinctTokens(nodes)
    ensures Linking(nodes, Linked(n, child, c.role), cs + [c])
  {
    CoversMore(nodes, n.tokens, n.grammar, cs, child, c);
    OfRoleMore(cs, c, Same);
    OfRoleMore(cs, c, Branch);
    if c.role == Same { CoversMore(nodes, n.tokens, n.same, OfRole(cs, Same), child, c); }
    if c.role == Branch { CoversMore(nodes, n.tokens, n.branches, OfRole(cs, Branch), child, c); }
  }

  lemma CoversMore(nodes: Nodes, base: Tokens, ids: seq<nat>, cs: seq<Child>, id: nat, c: Child)
    requires Covers(nodes, base, ids, cs) && NodeAt(nodes, id, base + c.suffix) && DistinctTokens(nodes)
    ensures Covers(nodes, base, AppendUnique(ids, id), cs + [c])
  {
    SitesMore(nodes, base, ids, cs, id, c);
    PlacesMore(base, cs, c);
    TargetsMore(nodes, ids, id);
  }

  lemma PlacesMore(base: Tokens, cs: seq<Child>, c: Child)
    ensures Places(base, cs + [c]) == Places(base, cs) + {base + c.suffix}
  {
    var more := cs + [c];
    assert forall i :: 0 <= i < |cs| ==> more[i] == cs[i];
    assert more[|cs|] == c;
  }

  lemma TargetsMore(nodes: Nodes, ids: seq<nat>, id: nat)
    requires InRange(nodes, ids) && id < |nodes|
    ensures InRange(nodes, AppendUnique(ids, id)) && Targets(nodes, AppendUnique(ids, id)) == Targets(nodes, ids) + {nodes[id].tokens}
  {
    if id in ids {
      var k :| 0 <= k < |ids| && ids[k] == id;
      assert nodes[ids[k]].tokens in Targets(nodes, ids);
    } else {
      var more := ids + [id];
      assert forall i :: 0 <= i < |ids| ==> more[i] == ids[i];
      assert more[|ids|] == id;
    }
  }

  lemma SiteOf(nodes: Nodes, ids: seq<nat>, id: nat)
    requires InRange(nodes, ids) && id < |nodes| && DistinctTokens(nodes)
    ensures id in ids <==> nodes[id].tokens in Sites(nodes, ids)
  {
    if id in ids {
      var k :| 0 <= k < |ids| && ids[k] == id;
      assert Sites(nodes, ids)[k] == nodes[id].tokens;
    }
  }

  lemma SitesMore(nodes: Nodes, base: Tokens, ids: seq<nat>, cs: seq<Child>, id: nat, c: Child)
    requires InRange(nodes, ids) && Sites(nodes, ids) == Distinct(base, cs)
    requires NodeAt(nodes, id, base + c.suffix) && DistinctTokens(nodes)
    ensures InRange(nodes, AppendUnique(ids, id)) && Sites(nodes, AppendUnique(ids, id)) == Distinct(base, cs + [c])
  {
    assert (cs + [c])[..|cs|] == cs;
    SiteOf(nodes, ids, id);
    if id !in ids { assert Sites(nodes, ids + [id]) == Sites(nodes, ids) + [nodes[id].tokens]; }
  }

  /** The pointer index holds every location, and nothing else. */
  predicate TableOk(root: Json, nodes: Nodes, byPointer: map<string, nat>) {
    && LocationsOk(root, nodes)
    && (forall i :: 0 <= i < |nodes| ==> PointerKey(nodes[i].tokens) in byPointer)
    && (forall key :: key in byPointer ==> byPointer[key] < |nodes| && PointerKey(nodes[byPointer[key]].tokens) == key)
  }

  lemma TableExtended(root: Json, nodes: Nodes, byPointer: map<string, nat>, n: Node)
    requires TableOk(root, nodes, byPointer) && PointerKey(n.tokens) !in byPointer
    requires At(root, n.tokens) == Some(n.value) && IsSchema(n.value)
    ensures TableOk(root, nodes + [n], byPointer[PointerKey(n.tokens) := |nodes|])
  {
    var after := nodes + [n];
    forall i | 0 <= i < |nodes| ensures nodes[i].tokens != n.tokens { assert PointerKey(nodes[i].tokens) in byPointer; }
    forall i | 0 <= i < |after| ensures Located(root, after, i) { assert i < |nodes| ==> Located(root, nodes, i); }
  }

  lemma TableUpdated(root: Json, nodes: Nodes, byPointer: map<string, nat>, id: nat, n: Node)
    requires TableOk(root, nodes, byPointer) && id < |nodes|
    requires n.tokens == nodes[id].tokens && n.value == nodes[id].value
    ensures TableOk(root, nodes[id := n], byPointer)
  {
    var after := nodes[id := n];
    forall i | 0 <= i < |after| ensures Located(root, after, i) { assert Located(root, nodes, i); }
  }

  lemma ChildAdded(before: Nodes, middle: Nodes, id: nat, earlier: seq<Child>, child: nat, c: Child)
    requires id < |before| && Touches(before, middle, |before|)
    requires Linking(before, before[id], earlier)
    requires NodeAt(middle, child, before[id].tokens + c.suffix) && DistinctTokens(middle)
    ensures var after := middle[id := Linked(middle[id], child, c.role)];
            && Touches(before, after, id) && after[id].ref == before[id].ref
            && Linking(after, after[id], earlier + [c])
  {
    var n := before[id];
    var after := middle[id := Linked(n, child, c.role)];
    LinkingKept(before, middle, n, earlier);
    LinkingMore(middle, n, earlier, child, c);
    LinkingKept(middle, after, after[id], earlier + [c]);
  }

  // ---------- A document that has a closed graph ----------

  ghost predicate InGraph(all: Nodes, tokens: Tokens) {
    exists j :: NodeAt(all, j, tokens)
  }

  ghost predicate Inside(nodes: Nodes, all: Nodes) {
    forall i :: 0 <= i < |nodes| ==> InGraph(all, nodes[i].tokens)
  }

  ghost function TokenSet(nodes: Nodes): set<Tokens> {
    set i | 0 <= i < |nodes| :: nodes[i].tokens
  }

  lemma {:induction false} TokenCount(nodes: Nodes)
    requires DistinctTokens(nodes)
    ensures |TokenSet(nodes)| == |nodes|
  {
    if nodes != [] {
      var front, last := nodes[..|nodes| - 1], nodes[|nodes| - 1];
      TokenCount(front);
      assert TokenSet(nodes) == TokenSet(front) + {last.tokens} by {
        assert forall i :: 0 <= i < |front| ==> front[i] == nodes[i];
      }
      assert last.tokens !in TokenSet(front);
    }
  }

  /** Locations inside a closed graph are at most as many as its nodes, and
      fewer while one of its nodes is missing. */
  lemma InsideIsSmaller(root: Json, nodes: Nodes, all: Nodes, tokens: Tokens)
    requires LocationsOk(root, nodes) && LocationsOk(root, all) && Inside(nodes, all) && InGraph(all, tokens)
    ensures |nodes| <= |all|
    ensures (forall i :: 0 <= i < |nodes| ==> nodes[i].tokens != tokens) ==> |nodes| < |all|
  {
    TokenCount(nodes);
    TokenCount(all);
    forall t | t in TokenSet(nodes) ensures t in TokenSet(all) {
      var i :| 0 <= i < |nodes| && nodes[i].tokens == t;
      assert InGraph(all, nodes[i].tokens);
    }
    SubsetSize(TokenSet(nodes), TokenSet(all));
    if forall i :: 0 <= i < |nodes| ==> nodes[i].tokens != tokens {
      assert tokens in TokenSet(all) && tokens !in TokenSet(nodes);
      SubsetSize(TokenSet(nodes) + {tokens}, TokenSet(all));
    }
  }

  ghost predicate Hosted(root: Json, nodes: Nodes, all: Nodes, maxNodes: nat) {
    Closed(root, all) && |all| <= maxNodes && Inside(nodes, all)
  }

  lemma Twin(root: Json, nodes: Nodes, all: Nodes, i: nat) returns (j: nat)
    requires LocationsOk(root, nodes) && Closed(root, all) && Inside(nodes, all) && i < |nodes|
    ensures NodeAt(all, j, nodes[i].tokens) && all[j].value == nodes[i].value
    ensures HeaderOk(nodes[i].value) && GrammarOk(all, all[j]) && RefOk(all, all[j])
  {
    assert InGraph(all, nodes[i].tokens);
    j :| NodeAt(all, j, nodes[i].tokens);
    assert Located(root, nodes, i) && Located(root, all, j);
    assert Inspected(all, all[j]) && HeaderOk(all[j].value);
  }

  lemma ChildInside(root: Json, nodes: Nodes, all: Nodes, i: nat, cs: seq<Child>, k: nat)
    requires LocationsOk(root, nodes) && Closed(root, all) && Inside(nodes, all) && i < |nodes|
    requires GrammarChildren(nodes[i].value) == Some(cs) && k < |cs|
    ensures InGraph(all, nodes[i].tokens + cs[k].suffix)
  {
    var j := Twin(root, nodes, all, i);
    assert nodes[i].tokens + cs[k].suffix in Places(all[j].tokens, cs);
    assert nodes[i].tokens + cs[k].suffix in Targets(all, all[j].grammar);
    var n :| 0 <= n < |all[j].grammar| && all[all[j].grammar[n]].tokens == nodes[i].tokens + cs[k].suffix;
    assert NodeAt(all, all[j].grammar[n], nodes[i].tokens + cs[k].suffix);
  }

  /** The reference names a location of the document that is in the graph. */
  ghost predicate NamesInside(root: Json, all: Nodes, reference: string) {
    && ParseLocalPointer(reference).Some?
    && InGraph(all, ParseLocalPointer(reference).value) && At(root, ParseLocalPointer(reference).value).Some?
  }

  lemma ReferenceInside(root: Json, nodes: Nodes, all: Nodes, i: nat)
    requires LocationsOk(root, nodes) && Closed(root, all) && Inside(nodes, all) && i < |nodes|
    ensures var v := nodes[i].value;
            v.Obj? && "$ref" in v.members ==> v.members["$ref"].Str? && NamesInside(root, all, v.members["$ref"].s)
  {
    var j := Twin(root, nodes, all, i);
    var v := nodes[i].value;
    if v.Obj? && "$ref" in v.members {
      var target := all[j].ref.value;
      assert NodeAt(all, target, all[target].tokens) && Located(root, all, target);
    }
  }

  lemma Admits(root: Json, nodes: Nodes, all: Nodes, maxNodes: nat, value: Json, tokens: Tokens)
    requires LocationsOk(root, nodes) && Hosted(root, nodes, all, maxNodes)
    requires InGraph(all, tokens) && At(root, tokens) == Some(value)
    ensures IsSchema(value)
    ensures (forall i :: 0 <= i < |nodes| ==> nodes[i].tokens != tokens) ==> |nodes| < maxNodes
    ensures forall n: Node :: n.tokens == tokens ==> Inside(nodes + [n], all)
  {
    var j :| NodeAt(all, j, tokens);
    assert Located(root, all, j);
    InsideIsSmaller(root, nodes, all, tokens);
  }

  /** New nodes are one level below `id`, which leads to them. */
  ghost predicate Grown(before: Nodes, after: Nodes, id: nat)
    requires id < |before|
  {
    forall i :: |before| <= i < |after| ==>
      after[i].depth == before[id].depth + 1 && Leads(before[id].value, before[id].tokens, after[i].tokens)
  }

  predicate HasReference(v: Json) { v.Obj? && "$ref" in v.members }

  predicate NamesSomething(v: Json) {
    HasReference(v) && v.members["$ref"].Str? && ParseLocalPointer(v.members["$ref"].s).Some?
  }

  lemma GrownTrans(a: Nodes, b: Nodes, c: Nodes, id: nat)
    requires id < |a| && Touches(a, b, id) && Grown(a, b, id) && Touches(b, c, id) && Grown(b, c, id)
    ensures Touches(a, c, id) && Grown(a, c, id)
  {
    forall i | |a| <= i < |c|
      ensures c[i].depth == a[id].depth + 1 && Leads(a[id].value, a[id].tokens, c[i].tokens)
    {
      if i < |b| { assert c[i] == b[i]; }
    }
  }

  lemma GrownUpdate(before: Nodes, middle: Nodes, id: nat, n: Node)
    requires id < |before| <= |middle| && Grown(before, middle, id)
    ensures Grown(before, middle[id := n], id)
  {
  }

  lemma LeadsToChild(n: Node, cs: seq<Child>, k: nat)
    requires GrammarChildren(n.value) == Some(cs) && k < |cs|
    ensures Leads(n.value, n.tokens, n.tokens + cs[k].suffix)
  {
  }

  /** A schema leads somewhere exactly when it has a reference or subschemas. */
  lemma RoomyExactly(n: Node, cs: seq<Child>, maxDepth: nat)
    requires GrammarChildren(n.value) == Some(cs)
    ensures Roomy(n, maxDepth) && cs != [] ==> n.depth < maxDepth
    ensures Roomy(n, maxDepth) && NamesSomething(n.value) ==> n.depth < maxDepth
    ensures (cs != [] || HasReference(n.value) ==> n.depth < maxDepth) ==> Roomy(n, maxDepth)
  {
    if cs != [] { LeadsToChild(n, cs, 0); }
    if NamesSomething(n.value) {
      assert Leads(n.value, n.tokens, ParseLocalPointer(n.value.members["$ref"].s).value);
    }
  }

  class Builder {
    const root: Json
    const maxNodes: nat
    const maxDepth: nat
    var nodes: Nodes
    var byPointer: map<string, nat>

    ghost predicate Valid()
      reads this
    {
      |nodes| <= maxNodes && TableOk(root, nodes, byPointer)
    }

    constructor (root: Json, maxNodes: nat, maxDepth: nat)
      ensures Valid() && nodes == [] && this.root == root && this.maxNodes == maxNodes && this.maxDepth == maxDepth
    {
      this.root, this.maxNodes, this.maxDepth := root, maxNodes, maxDepth;
      nodes, byPointer := [], map[];
    }

    /** The locations so far lie inside the closed graph `all`, which is small
        enough for the limits. */
    ghost predicate HostedBy(all: Nodes)
      reads this
    {
      Hosted(root, nodes, all, maxNodes)
    }

    method AddNode(value: Json, tokens: Tokens, depth: nat, ghost all: Nodes) returns (id: Option<nat>)
      requires Valid() && At(root, tokens) == Some(value)
      modifies this
      ensures Valid() && Touches(old(nodes), nodes, |old(nodes)|) && |nodes| <= |old(nodes)| + 1
      ensures forall i :: |old(nodes)| <= i < |nodes| ==> nodes[i].tokens == tokens && nodes[i].depth == depth
      ensures id.Some? ==> NodeAt(nodes, id.value, tokens) && depth <= maxDepth
      ensures old(HostedBy(all)) && InGraph(all, tokens) && depth <= maxDepth ==> id.Some? && HostedBy(all)
    {
      if HostedBy(all) && InGraph(all, tokens) { Admits(root, nodes, all, maxNodes, value, tokens); }
      if !IsSchema(value) || depth > maxDepth { return None; }
      var pointer := PointerKey(tokens);
      if pointer in byPointer {
        PointerKeyInjective(nodes[byPointer[pointer]].tokens, tokens);
        return Some(byPointer[pointer]);
      }
      if |nodes| >= maxNodes { return None; }
      id := Some(|nodes|);
      var n := Node(tokens, value, depth, None, [], false, [], []);
      TableExtended(root, nodes, byPointer, n);
      byPointer := byPointer[pointer := |nodes|];
      nodes := nodes + [n];
    }

    /** Replace a node without moving it. */
    method Update(id: nat, n: Node, ghost all: Nodes)
      requires Valid() && id < |nodes| && n.tokens == nodes[id].tokens && n.value == nodes[id].value && n.depth == nodes[id].depth
      modifies this`nodes
      ensures Valid() && nodes == old(nodes)[id := n] && (old(HostedBy(all)) ==> HostedBy(all))
    {
      TableUpdated(root, nodes, byPointer, id, n);
      nodes := nodes[id := n];
    }

    method CollectGrammarChildren(id: nat, cs: seq<Child>, ghost all: Nodes) returns (ok: bool)
      requires Valid() && id < |nodes| && Unlinked(nodes[id])
      requires GrammarChildren(nodes[id].value) == Some(cs)
      modifies this
      ensures Valid() && Touches(old(nodes), nodes, id) && nodes[id].ref == old(nodes)[id].ref
      ensures Grown(old(nodes), nodes, id)
      ensures ok ==> Linking(nodes, nodes[id], cs) && (cs != [] ==> nodes[id].depth < maxDepth)
      ensures old(HostedBy(all)) && (cs != [] ==> old(nodes)[id].depth < maxDepth) ==> ok && HostedBy(all)
    {
      ghost var before, hosted := nodes, HostedBy(all) && (cs != [] ==> nodes[id].depth < maxDepth);
      NothingLinked(nodes, nodes[id], cs);
      for k := 0 to |cs|
        invariant Valid() && Touches(before, nodes, id) && nodes[id].ref == before[id].ref && Grown(before, nodes, id)
        invariant Linking(nodes, nodes[id], cs[..k]) && (k > 0 ==> nodes[id].depth < maxDepth)
        invariant hosted ==> HostedBy(all)
      {
        ghost var middle := nodes;
        if hosted { ChildInside(root, nodes, all, id, cs, k); }
        LeadsToChild(nodes[id], cs, k);
        ok := AddGrammarChild(id, cs[..k], cs[k], all);
        GrownTrans(before, middle, nodes, id);
        if !ok { return; }
        TakeOneMore(cs, k);
      }
      assert cs == cs[..|cs|];
      ok := true;
    }

    method AddGrammarChild(id: nat, ghost earlier: seq<Child>, c: Child, ghost all: Nodes) returns (ok: bool)
      requires Valid() && id < |nodes| && ChildOk(nodes[id].value, c)
      requires Linking(nodes, nodes[id], earlier) && Leads(nodes[id].value, nodes[id].tokens, nodes[id].tokens + c.suffix)
      modifies this
      ensures Valid() && Touches(old(nodes), nodes, id) && nodes[id].ref == old(nodes)[id].ref
      ensures Grown(old(nodes), nodes, id)
      ensures ok ==> Linking(nodes, nodes[id], earlier + [c]) && nodes[id].depth < maxDepth
      ensures old(HostedBy(all)) && InGraph(all, old(nodes[id].tokens) + c.suffix) && old(nodes)[id].depth < maxDepth ==>
        ok && HostedBy(all)
    {
      ghost var before := nodes;
      var child := AddChildNode(id, c, all);
      if child.None? { return false; }
      ChildAdded(before, nodes, id, earlier, child.value, c);
      GrownUpdate(before, nodes, id, Linked(nodes[id], child.value, c.role));
      Update(id, Linked(nodes[id], child.value, c.role), all);
      return true;
    }

    method AddChildNode(id: nat, c: Child, ghost all: Nodes) returns (child: Option<nat>)
      requires Valid() && id < |nodes| && ChildOk(nodes[id].value, c)
      requires Leads(nodes[id].value, nodes[id].tokens, nodes[id].tokens + c.suffix)
      modifies this
      ensures Valid() && Touches(old(nodes), nodes, |old(nodes)|) && Grown(old(nodes), nodes, id)
      ensures child.Some? ==> NodeAt(nodes, child.value, old(nodes[id].tokens) + c.suffix) && nodes[id].depth < maxDepth
      ensures old(HostedBy(all)) && InGraph(all, old(nodes[id].tokens) + c.suffix) && old(nodes)[id].depth < maxDepth ==>
        child.Some? && HostedBy(all)
    {
      assert Located(root, nodes, id);
      AtConcat(root, nodes[id].tokens, c.suffix);
      child := AddNode(c.value, nodes[id].tokens + c.suffix, nodes[id].depth + 1, all);
    }

    /** Resolve the node's reference and admit its grammar children. */
    method InspectNode(id: nat, ghost all: Nodes) returns (ok: bool)
      requires Valid() && id < |nodes| && Blank(nodes[id])
      modifies this
      ensures Valid() && Touches(old(nodes), nodes, id) && Grown(old(nodes), nodes, id)
      ensures ok ==> Inspected(nodes, nodes[id]) && HeaderOk(nodes[id].value) && Roomy(nodes[id], maxDepth)
      ensures old(HostedBy(all)) && Roomy(old(nodes)[id], maxDepth) ==> ok && HostedBy(all)
    {
      var value := nodes[id].value;
      if HostedBy(all) { ghost var j := Twin(root, nodes, all, id); }
      if !HeaderOk(value) || GrammarChildren(value).None? { return false; }
      var cs := GrammarChildren(value).value;
      RoomyExactly(nodes[id], cs, maxDepth);
      ok := ResolveReference(id, all);
      if !ok { return false; }
      ghost var before, middle := old(nodes), nodes;
      ok := CollectGrammarChildren(id, cs, all);
      GrownTrans(before, middle, nodes, id);
      if ok {
        RefKept(middle, nodes, id);
        RoomyExactly(nodes[id], cs, maxDepth);
      }
    }

    method ResolveReference(id: nat, ghost all: Nodes) returns (ok: bool)
      requires Valid() && id < |nodes| && Blank(nodes[id])
      modifies this
      ensures Valid() && Touches(old(nodes), nodes, id) && Unlinked(nodes[id]) && Grown(old(nodes), nodes, id)
      ensures ok ==> RefOk(nodes, nodes[id]) && (HasReference(nodes[id].value) ==> nodes[id].depth < maxDepth)
      ensures old(HostedBy(all)) && (HasReference(old(nodes)[id].value) ==> old(nodes)[id].depth < maxDepth) ==> ok && HostedBy(all)
    {
      var value := nodes[id].value;
      if !value.Obj? || "$ref" !in value.members { return true; }
      if HostedBy(all) { ReferenceInside(root, nodes, all, id); }
      if !value.members["$ref"].Str? { return false; }
      ghost var before := nodes;
      var ref := AddTarget(id, value.members["$ref"].s, all);
      if ref.None? { return false; }
      RefAdded(before, nodes, id, ref.value);
      GrownUpdate(before, nodes, id, nodes[id].(ref := ref));
      Update(id, nodes[id].(ref := ref), all);
      return true;
    }

    /** Admit the location that a reference names. */
    method AddTarget(id: nat, reference: string, ghost all: Nodes) returns (ref: Option<nat>)
      requires Valid() && id < |nodes|
      requires nodes[id].value.Obj? && "$ref" in nodes[id].value.members && nodes[id].value.members["$ref"] == Str(reference)
      modifies this
      ensures Valid() && Touches(old(nodes), nodes, |old(nodes)|) && Grown(old(nodes), nodes, id)
      ensures ref.Some? ==> ParseLocalPointer(reference).Some? && NodeAt(nodes, ref.value, ParseLocalPointer(reference).value)
      ensures ref.Some? ==> nodes[id].depth < maxDepth
      ensures old(HostedBy(all)) && NamesInside(root, all, reference) && old(nodes)[id].depth < maxDepth ==> ref.Some? && HostedBy(all)
    {
      var tokens := ParseLocalPointer(reference);
      if tokens.None? { return None; }
      var target := At(root, tokens.value);
      if target.None? { return None; }
      ref := AddNode(target.value, tokens.value, nodes[id].depth + 1, all);
    }
  }

  lemma RefAdded(before: Nodes, middle: Nodes, id: nat, ref: nat)
    requires id < |before| && Touches(before, middle, |before|) && Blank(before[id])
    requires before[id].value.Obj? && "$ref" in before[id].value.members && before[id].value.members["$ref"].Str?
    requires ParseLocalPointer(before[id].value.members["$ref"].s).Some?
    requires NodeAt(middle, ref, ParseLocalPointer(before[id].value.members["$ref"].s).value)
    ensures var after := middle[id := middle[id].(ref := Some(ref))];
            Touches(before, after, id) && Unlinked(after[id]) && RefOk(after, after[id])
  {
  }

  function Linked(n: Node, child: nat, role: Role): Node {
    n.(grammar := AppendUnique(n.grammar, child),
       same := if role == Same then AppendUnique(n.same, child) else n.same,
       branches := if role == Branch then AppendUnique(n.branches, child) else n.branches)
  }

  lemma RefKept(before: Nodes, after: Nodes, id: nat)
    requires id < |before| && Touches(before, after, id) && after[id].ref == before[id].ref && RefOk(before, before[id])
    ensures RefOk(after, after[id])
  {
  }

  // ---------- Structural locations ----------

  lemma StructuralStep(nodes: Nodes, a: nat, b: nat)
    requires Structural(nodes, a) && a < |nodes| && b in nodes[a].grammar && b < |nodes|
    ensures Structural(nodes, b)
  {
    var path :| GrammarPath(nodes, path) && path[|path| - 1] == a;
    var longer := path + [b];
    forall i {:trigger longer[i + 1]} | 0 <= i < |longer| - 1 ensures longer[i + 1] in nodes[longer[i]].grammar {
      if i < |path| - 1 { assert path[i + 1] in nodes[path[i]].grammar; }
    }
    assert GrammarPath(nodes, longer) && longer[|longer| - 1] == b;
  }

  /** The root and, with any location, the subschemas of its edges. */
  predicate ClosedSet(nodes: Nodes, s: set<nat>) {
    0 in s && forall i, c :: i in s && i < |nodes| && c in nodes[i].grammar && c < |nodes| ==> c in s
  }

  lemma {:induction false} PathStays(nodes: Nodes, path: seq<nat>, s: set<nat>, n: nat)
    requires GrammarPath(nodes, path) && ClosedSet(nodes, s) && n < |path|
    ensures path[n] in s
    decreases n
  {
    if n > 0 {
      PathStays(nodes, path, s, n - 1);
      var k := n - 1;
      assert path[k + 1] in nodes[path[k]].grammar;
    }
  }

  lemma StructuralStays(nodes: Nodes, s: set<nat>, i: nat)
    requires Structural(nodes, i) && ClosedSet(nodes, s)
    ensures i in s
  {
    var path :| GrammarPath(nodes, path) && path[|path| - 1] == i;
    PathStays(nodes, path, s, |path| - 1);
  }

  ghost predicate Marking(nodes: Nodes, marks: seq<bool>, pending: seq<nat>) {
    && |marks| == |nodes|
    && (forall i :: 0 <= i < |marks| && marks[i] ==> Structural(nodes, i))
    && (forall k :: 0 <= k < |pending| ==> pending[k] < |nodes| && Structural(nodes, pending[k]))
    && (0 in pending || (marks != [] && marks[0]))
    && (forall i, c :: 0 <= i < |marks| && marks[i] && c in nodes[i].grammar ==> Settled(marks, pending, c))
  }

  predicate Settled(marks: seq<bool>, pending: seq<nat>, c: nat) {
    c in pending || (c < |marks| && marks[c])
  }

  ghost predicate Ranged(nodes: Nodes) {
    forall i :: 0 <= i < |nodes| ==> InRange(nodes, nodes[i].grammar)
  }

  lemma {:induction false} PathMarked(nodes: Nodes, marks: seq<bool>, path: seq<nat>)
    requires Marking(nodes, marks, []) && GrammarPath(nodes, path)
    ensures marks[path[|path| - 1]]
    decreases |path|
  {
    if |path| > 1 {
      var shorter := path[..|path| - 1];
      assert GrammarPath(nodes, shorter) by {
        assert forall i {:trigger shorter[i + 1]} :: 0 <= i < |shorter| - 1 ==> shorter[i + 1] == path[i + 1];
      }
      PathMarked(nodes, marks, shorter);
      var k := |path| - 2;
      assert path[k + 1] in nodes[path[k]].grammar;
      assert Settled(marks, [], path[|path| - 1]);
    }
  }

  lemma MarkOne(nodes: Nodes, marks: seq<bool>, pending: seq<nat>)
    requires Ranged(nodes) && Marking(nodes, marks, pending) && pending != []
    ensures var rest, id := pending[..|pending| - 1], pending[|pending| - 1];
            if marks[id] then Marking(nodes, marks, rest)
            else Marking(nodes, marks[id := true], rest + nodes[id].grammar)
  {
    var rest, id := pending[..|pending| - 1], pending[|pending| - 1];
    assert pending == rest + [id];
    assert InRange(nodes, nodes[id].grammar);
    forall c | c in nodes[id].grammar ensures c < |nodes| && Structural(nodes, c) { StructuralStep(nodes, id, c); }
    var marks', more := if marks[id] then marks else marks[id := true], if marks[id] then rest else rest + nodes[id].grammar;
    forall i, c | 0 <= i < |marks'| && marks'[i] && c in nodes[i].grammar ensures Settled(marks', more, c) {
      if marks[i] { assert Settled(marks, pending, c); }
    }
  }

  ghost function Unmarked(marks: seq<bool>): set<nat> {
    set i: nat | i < |marks| && !marks[i]
  }

  /** Depth-first marking with an explicit stack finds exactly the locations
      that the grammar reaches from the root. */
  method MarkPrimaryNodes(nodes: Nodes) returns (marks: seq<bool>)
    requires nodes != [] && Ranged(nodes)
    ensures |marks| == |nodes| && forall i :: 0 <= i < |nodes| ==> (marks[i] <==> Structural(nodes, i))
  {
    marks := seq(|nodes|, i => false);
    var stack: seq<nat> := [0];
    assert GrammarPath(nodes, [0]) && [0][|[0]| - 1] == 0;
    while stack != []
      invariant Marking(nodes, marks, stack)
      decreases Unmarked(marks), |stack|
    {
      MarkOne(nodes, marks, stack);
      var id := stack[|stack| - 1];
      stack := stack[..|stack| - 1];
      if !marks[id] {
        ghost var before := marks;
        marks := marks[id := true];
        assert id in Unmarked(before) && id !in Unmarked(marks);
        stack := stack + nodes[id].grammar;
      }
    }
    forall i | 0 <= i < |nodes| && Structural(nodes, i) ensures marks[i] {
      var path :| GrammarPath(nodes, path) && path[|path| - 1] == i;
      PathMarked(nodes, marks, path);
    }
  }

  lemma PathSame(a: Nodes, b: Nodes, path: seq<nat>)
    requires |a| == |b| && forall i :: 0 <= i < |a| ==> b[i].grammar == a[i].grammar
    requires GrammarPath(a, path)
    ensures GrammarPath(b, path)
  {
  }

  lemma StructuralSame(a: Nodes, b: Nodes, id: nat)
    requires |a| == |b| && forall i :: 0 <= i < |a| ==> b[i].grammar == a[i].grammar
    requires Structural(a, id)
    ensures Structural(b, id)
  {
    var path :| GrammarPath(a, path) && path[|path| - 1] == id;
    PathSame(a, b, path);
  }

  lemma InspectedLocal(nodes: Nodes, n: Node, n': Node)
    requires Inspected(nodes, n) && n' == n.(primary := n'.primary)
    ensures Inspected(nodes, n')
  {
  }

  function Marked(nodes: Nodes, marks: seq<bool>): (r: Nodes)
    requires |marks| == |nodes|
    ensures |r| == |nodes| && forall i :: 0 <= i < |r| ==> r[i] == nodes[i].(primary := marks[i])
  {
    seq(|nodes|, i requires 0 <= i < |nodes| => nodes[i].(primary := marks[i]))
  }

  lemma MarkedIsClosed(root: Json, nodes: Nodes, marks: seq<bool>)
    requires Closed(root, nodes) && |marks| == |nodes|
    ensures Closed(root, Marked(nodes, marks))
  {
    var after := Marked(nodes, marks);
    forall i | 0 <= i < |nodes| ensures Inspected(after, after[i]) {
      InspectedKept(nodes, after, nodes[i]);
      InspectedLocal(after, nodes[i], after[i]);
    }
    forall i | 0 <= i < |nodes| ensures Located(root, after, i) { assert Located(root, nodes, i); }
  }

  lemma MarkedIsPrepared(root: Json, nodes: Nodes, marks: seq<bool>)
    requires Closed(root, nodes) && |marks| == |nodes|
    requires forall i :: 0 <= i < |nodes| ==> (marks[i] <==> Structural(nodes, i))
    ensures Prepared(root, Marked(nodes, marks))
  {
    var after := Marked(nodes, marks);
    MarkedIsClosed(root, nodes, marks);
    forall i | 0 <= i < |nodes| ensures marks[i] <==> Structural(after, i) {
      if Structural(nodes, i) { StructuralSame(nodes, after, i); }
      if Structural(after, i) { StructuralSame(after, nodes, i); }
    }
  }

  ghost predicate InspectedUpTo(nodes: Nodes, k: nat) {
    && k <= |nodes|
    && (forall i :: 0 <= i < k ==> Inspected(nodes, nodes[i]) && HeaderOk(nodes[i].value))
    && (forall i :: k <= i < |nodes| ==> Blank(nodes[i]))
  }

  lemma InspectedOneMore(before: Nodes, after: Nodes, k: nat)
    requires InspectedUpTo(before, k) && k < |before| && Touches(before, after, k)
    requires Inspected(after, after[k]) && HeaderOk(after[k].value)
    ensures InspectedUpTo(after, k + 1)
  {
    forall i | 0 <= i < k ensures Inspected(after, after[i]) { InspectedKept(before, after, before[i]); }
  }

  // ---------- Breadth-first discovery ----------

  /** `t` is recorded, at most one level below `n`. */
  ghost predicate Recorded(nodes: Nodes, n: Node, t: Tokens) {
    exists c: nat :: NodeAt(nodes, c, t) && nodes[c].depth <= n.depth + 1
  }

  ghost predicate AllRecorded(nodes: Nodes, n: Node) {
    forall t :: Leads(n.value, n.tokens, t) ==> Recorded(nodes, n, t)
  }

  predicate Sorted(nodes: Nodes) {
    forall i, j :: 0 <= i <= j < |nodes| ==> nodes[i].depth <= nodes[j].depth
  }

  /** The first `k` nodes have been inspected, the queue holds at most two levels. */
  ghost predicate Layered(nodes: Nodes, k: nat, maxDepth: nat) {
    && nodes != [] && nodes[0].depth == 1 <= maxDepth && nodes[0].tokens == [] && k <= |nodes|
    && Sorted(nodes) && (k < |nodes| ==> nodes[|nodes| - 1].depth <= nodes[k].depth + 1)
    && (forall i :: 0 <= i < k ==> AllRecorded(nodes, nodes[i]) && Roomy(nodes[i], maxDepth))
    && (forall i :: 0 < i < |nodes| ==> Discovered(nodes, i))
  }

  lemma RecordedKept(before: Nodes, after: Nodes, k: nat, n: Node)
    requires k < |before| && Touches(before, after, k) && AllRecorded(before, n)
    ensures AllRecorded(after, n)
  {
    forall t | Leads(n.value, n.tokens, t) ensures Recorded(after, n, t) {
      assert Recorded(before, n, t);
      var c: nat :| NodeAt(before, c, t) && before[c].depth <= n.depth + 1;
      assert NodeAt(after, c, t);
    }
  }

  lemma InspectedRecords(nodes: Nodes, n: Node)
    requires Inspected(nodes, n) && forall i :: 0 <= i < |nodes| ==> nodes[i].depth <= n.depth + 1
    ensures AllRecorded(nodes, n)
  {
    forall t | Leads(n.value, n.tokens, t) ensures Recorded(nodes, n, t) {
      if t in Places(n.tokens, GrammarChildren(n.value).value) {
        assert t in Targets(nodes, n.grammar);
        var i :| 0 <= i < |n.grammar| && nodes[n.grammar[i]].tokens == t;
        assert NodeAt(nodes, n.grammar[i], t);
      } else {
        assert NodeAt(nodes, n.ref.value, t);
      }
    }
  }

  lemma SortedStep(before: Nodes, after: Nodes, k: nat)
    requires k < |before| && Touches(before, after, k) && Grown(before, after, k)
    requires Sorted(before) && before[|before| - 1].depth <= before[k].depth + 1
    ensures Sorted(after) && forall i :: 0 <= i < |after| ==> after[i].depth <= after[k].depth + 1
  {
    forall i | 0 <= i < |before| ensures after[i].depth == before[i].depth <= before[k].depth + 1 {}
  }

  lemma DiscoveredStep(before: Nodes, after: Nodes, k: nat, i: nat)
    requires k < |before| && Touches(before, after, k) && Grown(before, after, k) && i < |after|
    requires i < |before| ==> Discovered(before, i)
    ensures Discovered(after, i)
  {
    if i < |before| {
      var p :| Discovers(before, p, i);
      assert Discovers(after, p, i);
    } else {
      assert Discovers(after, k, i);
    }
  }

  lemma LayeredStep(before: Nodes, after: Nodes, k: nat, maxDepth: nat)
    requires Layered(before, k, maxDepth) && k < |before| && Touches(before, after, k) && Grown(before, after, k)
    requires Inspected(after, after[k]) && Roomy(after[k], maxDepth)
    ensures Layered(after, k + 1, maxDepth)
  {
    SortedStep(before, after, k);
    forall i | 0 <= i < k + 1 ensures AllRecorded(after, after[i]) && Roomy(after[i], maxDepth) {
      if i < k { RecordedKept(before, after, k, before[i]); } else { InspectedRecords(after, after[k]); }
    }
    forall i | 0 < i < |after| ensures Discovered(after, i) { DiscoveredStep(before, after, k, i); }
  }

  /** The queue finds every location no later than any chain of subschemas and
      references does. */
  lemma {:induction false} Shortest(root: Json, nodes: Nodes, k: nat, all: Nodes, j: nat, maxDepth: nat) returns (i: nat)
    requires LocationsOk(root, nodes) && Layered(nodes, k, maxDepth) && k < |nodes|
    requires Closed(root, all) && Graded(all, maxDepth) && j < |all| && all[j].depth <= nodes[k].depth
    ensures NodeAt(nodes, i, all[j].tokens) && nodes[i].depth <= all[j].depth
    decreases all[j].depth
  {
    if j == 0 {
      i := 0;
    } else {
      assert Discovered(all, j);
      var p :| Discovers(all, p, j);
      var q := Shortest(root, nodes, k, all, p, maxDepth);
      assert q < k;
      assert Located(root, nodes, q) && Located(root, all, p);
      assert AllRecorded(nodes, nodes[q]);
      assert Recorded(nodes, nodes[q], all[j].tokens);
      i :| NodeAt(nodes, i, all[j].tokens) && nodes[i].depth <= nodes[q].depth + 1;
    }
  }

  lemma RoomyTwin(root: Json, nodes: Nodes, k: nat, all: Nodes, maxDepth: nat)
    requires LocationsOk(root, nodes) && Layered(nodes, k, maxDepth) && k < |nodes|
    requires Closed(root, all) && Graded(all, maxDepth) && Inside(nodes, all)
    ensures Roomy(nodes[k], maxDepth)
  {
    var j := Twin(root, nodes, all, k);
    if all[j].depth < nodes[k].depth {
      var i := Shortest(root, nodes, k, all, j, maxDepth);
    }
    assert Roomy(all[j], maxDepth);
  }

  lemma MarkedIsGraded(nodes: Nodes, marks: seq<bool>, maxDepth: nat)
    requires Layered(nodes, |nodes|, maxDepth) && |marks| == |nodes|
    ensures Graded(Marked(nodes, marks), maxDepth)
  {
    var after := Marked(nodes, marks);
    forall i | 0 < i < |after| ensures Discovered(after, i) {
      assert Discovered(nodes, i);
      var p :| Discovers(nodes, p, i);
      assert Discovers(after, p, i);
    }
    forall i | 0 <= i < |after| ensures Roomy(after[i], maxDepth) { assert Roomy(nodes[i], maxDepth); }
  }

  /** A closed graph that the limits permit. */
  ghost predicate Permitted(root: Json, all: Nodes, maxNodes: nat, maxDepth: nat) {
    Closed(root, all) && |all| <= maxNodes && Graded(all, maxDepth)
  }

  /** The first `k` nodes have been inspected, and a permitted graph holds all
      nodes so far. */
  ghost predicate Exploring(root: Json, nodes: Nodes, k: nat, maxNodes: nat, maxDepth: nat, all: Nodes) {
    && InspectedUpTo(nodes, k) && Layered(nodes, k, maxDepth) && LocationsOk(root, nodes)
    && (Permitted(root, all, maxNodes, maxDepth) ==> Hosted(root, nodes, all, maxNodes))
  }

  lemma ExploreStart(root: Json, nodes: Nodes, maxNodes: nat, maxDepth: nat, all: Nodes)
    requires |nodes| == 1 && Blank(nodes[0]) && nodes[0].depth == 1 <= maxDepth && nodes[0].tokens == [] && LocationsOk(root, nodes)
    requires Permitted(root, all, maxNodes, maxDepth) ==> Hosted(root, nodes, all, maxNodes)
    ensures Exploring(root, nodes, 0, maxNodes, maxDepth, all)
  {
  }

  lemma ExploreStep(root: Json, before: Nodes, after: Nodes, k: nat, maxNodes: nat, maxDepth: nat, all: Nodes)
    requires Exploring(root, before, k, maxNodes, maxDepth, all) && k < |before| && LocationsOk(root, after)
    requires Touches(before, after, k) && Grown(before, after, k)
    requires Inspected(after, after[k]) && HeaderOk(after[k].value) && Roomy(after[k], maxDepth)
    requires Permitted(root, all, maxNodes, maxDepth) ==> Hosted(root, after, all, maxNodes)
    ensures Exploring(root, after, k + 1, maxNodes, maxDepth, all)
  {
    InspectedOneMore(before, after, k);
    LayeredStep(before, after, k, maxDepth);
  }

  lemma ExploreRoom(root: Json, nodes: Nodes, k: nat, maxNodes: nat, maxDepth: nat, all: Nodes)
    requires Exploring(root, nodes, k, maxNodes, maxDepth, all) && k < |nodes| && Permitted(root, all, maxNodes, maxDepth)
    ensures Roomy(nodes[k], maxDepth) && Hosted(root, nodes, all, maxNodes)
  {
    RoomyTwin(root, nodes, k, all, maxDepth);
  }

  lemma RootInside(root: Json, all: Nodes)
    requires Closed(root, all)
    ensures InGraph(all, []) && IsSchema(root)
  {
    assert Located(root, all, 0) && NodeAt(all, 0, []);
  }

  /** The queue loop; `all` is any graph that the limits permit. */
  method Explore(root: Json, maxNodes: nat, maxDepth: nat, ghost all: Nodes) returns (r: Option<Nodes>)
    ensures r.Some? ==> Closed(root, r.value) && |r.value| <= maxNodes && Layered(r.value, |r.value|, maxDepth)
    ensures Permitted(root, all, maxNodes, maxDepth) ==> r.Some?
  {
    if Permitted(root, all, maxNodes, maxDepth) { RootInside(root, all); }
    if !IsSchema(root) { return None; }
    var b := new Builder(root, maxNodes, maxDepth);
    var first := b.AddNode(root, [], 1, all);
    if first.None? { return None; }
    ExploreStart(root, b.nodes, maxNodes, maxDepth, all);
    var index := 0;
    while index < |b.nodes|
      invariant b.Valid() && b.root == root && b.maxNodes == maxNodes && b.maxDepth == maxDepth
      invariant index <= |b.nodes| && Exploring(root, b.nodes, index, maxNodes, maxDepth, all)
      decreases maxNodes - index
    {
      ghost var before := b.nodes;
      if Permitted(root, all, maxNodes, maxDepth) { ExploreRoom(root, b.nodes, index, maxNodes, maxDepth, all); }
      var ok := b.InspectNode(index, all);
      if !ok { return None; }
      ExploreStep(root, before, b.nodes, index, maxNodes, maxDepth, all);
      index := index + 1;
    }
    return Some(b.nodes);
  }

  ghost predicate Acceptable(root: Json, maxNodes: nat, maxDepth: nat) {
    exists all :: Permitted(root, all, maxNodes, maxDepth)
  }

  lemma PermittedGraph(root: Json, maxNodes: nat, maxDepth: nat) returns (all: Nodes)
    ensures Acceptable(root, maxNodes, maxDepth) <==> Permitted(root, all, maxNodes, maxDepth)
  {
    all := [];
    if g :| Permitted(root, g, maxNodes, maxDepth) { all := g; }
  }

  lemma ClosedIsRanged(root: Json, nodes: Nodes)
    requires Closed(root, nodes)
    ensures Ranged(nodes)
  {
    forall i | 0 <= i < |nodes| ensures InRange(nodes, nodes[i].grammar) { assert Inspected(nodes, nodes[i]); }
  }

  lemma MarkedIsAccepted(root: Json, nodes: Nodes, marks: seq<bool>, maxNodes: nat, maxDepth: nat)
    requires Closed(root, nodes) && |nodes| <= maxNodes && Layered(nodes, |nodes|, maxDepth) && |marks| == |nodes|
    requires forall i :: 0 <= i < |nodes| ==> (marks[i] <==> Structural(nodes, i))
    ensures Prepared(root, Marked(nodes, marks)) && Permitted(root, Marked(nodes, marks), maxNodes, maxDepth)
    ensures Acceptable(root, maxNodes, maxDepth)
  {
    MarkedIsPrepared(root, nodes, marks);
    MarkedIsGraded(nodes, marks, maxDepth);
    assert Permitted(root, Marked(nodes, marks), maxNodes, maxDepth);
  }

  /** The prepared graph of a document, which is accepted exactly when it has a
      closed graph that the limits permit. */
  method Prepare(root: Json, maxNodes: nat, maxDepth: nat) returns (r: Option<Nodes>)
    ensures r.Some? <==> Acceptable(root, maxNodes, maxDepth)
    ensures r.Some? ==> Prepared(root, r.value) && Permitted(root, r.value, maxNodes, maxDepth)
  {
    ghost var all := PermittedGraph(root, maxNodes, maxDepth);
    var found := Explore(root, maxNodes, maxDepth, all);
    if found.None? { return None; }
    ClosedIsRanged(root, found.value);
    var marks := MarkPrimaryNodes(found.value);
    MarkedIsAccepted(root, found.value, marks, maxNodes, maxDepth);
    return Some(Marked(found.value, marks));
  }
}
