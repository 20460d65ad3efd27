/** Resolution of Module capabilities to a dependency graph and a startup order. */
module ModuleGraph {
  import opened Common
  import opened Ordering

  /** `wellFormed` stands for the syntactic manifest checks (schema, identifier,
      version and capability patterns). */
  datatype Manifest = Manifest(id: string, needs: seq<string>, offers: seq<string>, wellFormed: bool)

  /** An edge is the key [from, to, capability]. */
  type Edge = Key

  datatype Graph = Graph(modules: seq<string>, edges: seq<Edge>, order: seq<string>, providers: map<string, string>)

  datatype Verified = Rejected | Cyclic(path: seq<string>) | Resolved(graph: Graph)

  // ---------- Depth-first search over a closed dependency relation ----------

  /** Dependencies of every module, in visiting order. */
  type Deps = map<string, seq<string>>

  predicate Closed(g: Deps) {
    forall n, i :: n in g && 0 <= i < |g[n]| ==> g[n][i] in g
  }

  datatype Search = Found(order: seq<string>) | CycleAt(path: seq<string>)

  ghost function Fresh(g: Deps, stack: seq<string>): set<string> {
    g.Keys - (set x | x in stack)
  }

  function IndexOf(stack: seq<string>, id: string): (i: nat)
    requires id in stack
    ensures i < |stack| && stack[i] == id && id !in stack[..i]
  {
    if stack[0] == id then 0 else 1 + IndexOf(stack[1..], id)
  }

  function Visit(g: Deps, stack: seq<string>, order: seq<string>, id: string): Search
    requires Closed(g) && id in g
    decreases Fresh(g, stack), 1, 0
  {
    if id in stack then CycleAt(stack[IndexOf(stack, id)..] + [id])
    else if id in order then Found(order)
    else
      assert id in Fresh(g, stack) && id !in Fresh(g, stack + [id]);
      match VisitAll(g, stack + [id], order, g[id])
      case CycleAt(path) => CycleAt(path)
      case Found(order') => Found(order' + [id])
  }

  function VisitAll(g: Deps, stack: seq<string>, order: seq<string>, ids: seq<string>): Search
    requires Closed(g) && forall i :: 0 <= i < |ids| ==> ids[i] in g
    decreases Fresh(g, stack), 2, |ids|
  {
    if ids == [] then Found(order)
    else
      match Visit(g, stack, order, ids[0])
      case CycleAt(path) => CycleAt(path)
      case Found(order') => VisitAll(g, stack, order', ids[1..])
  }

  // ---------- What the search establishes ----------

  predicate Depends(g: Deps, a: string, b: string) {
    a in g && b in g[a]
  }

  predicate IsPath(g: Deps, path: seq<string>) {
    forall i :: 0 <= i < |path| - 1 ==> Depends(g, path[i], path[i + 1])
  }

  predicate IsCycle(g: Deps, path: seq<string>) {
    |path| >= 2 && path[0] == path[|path| - 1] && IsPath(g, path)
  }

  ghost predicate Acyclic(g: Deps) {
    forall path :: !IsCycle(g, path)
  }

  /** Duplicate-free, and every module comes after all its dependencies. */
  predicate Topological(g: Deps, order: seq<string>) {
    && NoDup(order)
    && (forall i :: 0 <= i < |order| ==> order[i] in g)
    && (forall i, d :: 0 <= i < |order| && d in g[order[i]] ==> d in order[..i])
  }

  predicate Disjoint(stack: seq<string>, order: seq<string>) {
    forall x :: x in stack ==> x !in order
  }

  /** What a search from `order` may return. */
  predicate SearchOk(g: Deps, stack: seq<string>, order: seq<string>, r: Search) {
    match r
    case CycleAt(path) => IsCycle(g, path)
    case Found(order') => order <= order' && Topological(g, order') && Disjoint(stack, order')
  }

  lemma {:induction false} VisitOk(g: Deps, stack: seq<string>, order: seq<string>, id: string)
    requires Closed(g) && id in g && Topological(g, order) && Disjoint(stack, order)
    requires IsPath(g, stack + [id])
    ensures SearchOk(g, stack, order, Visit(g, stack, order, id))
    ensures Visit(g, stack, order, id).Found? ==> id in Visit(g, stack, order, id).order
    decreases Fresh(g, stack), 1, 0
  {
    var path := stack + [id];
    if id in stack {
      var i := IndexOf(stack, id);
      assert stack[i..] + [id] == path[i..];
      forall j | 0 <= j < |path[i..]| - 1 ensures Depends(g, path[i..][j], path[i..][j + 1]) {
        assert Depends(g, path[i + j], path[i + j + 1]);
      }
    } else if id !in order {
      assert id in Fresh(g, stack) && id !in Fresh(g, path);
      forall d | d in g[id] ensures IsPath(g, path + [d]) {
        ExtendPath(g, path, d);
      }
      VisitAllOk(g, path, order, g[id]);
      var r := VisitAll(g, path, order, g[id]);
      if r.Found? {
        AppendTopological(g, r.order, id);
        assert id in path;
        assert (r.order + [id])[|r.order|] == id;
      }
    }
  }

  lemma ExtendPath(g: Deps, path: seq<string>, d: string)
    requires IsPath(g, path) && |path| > 0 && Depends(g, path[|path| - 1], d)
    ensures IsPath(g, path + [d])
  {
    forall i | 0 <= i < |path + [d]| - 1 ensures Depends(g, (path + [d])[i], (path + [d])[i + 1]) {
      if i < |path| - 1 { assert Depends(g, path[i], path[i + 1]); }
    }
  }

  lemma AppendTopological(g: Deps, order: seq<string>, id: string)
    requires Topological(g, order) && id in g && id !in order && forall d :: d in g[id] ==> d in order
    ensures Topological(g, order + [id])
  {
    var more := order + [id];
    forall i, d | 0 <= i < |more| && d in g[more[i]] ensures d in more[..i] {
      if i < |order| { assert more[..i] == order[..i]; } else { assert more[..i] == order; }
    }
  }

  lemma {:induction false} VisitAllOk(g: Deps, stack: seq<string>, order: seq<string>, ids: seq<string>)
    requires Closed(g) && Topological(g, order) && Disjoint(stack, order)
    requires forall i :: 0 <= i < |ids| ==> ids[i] in g && IsPath(g, stack + [ids[i]])
    ensures SearchOk(g, stack, order, VisitAll(g, stack, order, ids))
    ensures var r := VisitAll(g, stack, order, ids);
            r.Found? ==> forall d :: d in ids ==> d in r.order
    decreases Fresh(g, stack), 2, |ids|
  {
    if ids != [] {
      VisitOk(g, stack, order, ids[0]);
      var r := Visit(g, stack, order, ids[0]);
      if r.Found? {
        VisitAllOk(g, stack, r.order, ids[1..]);
        var last := VisitAll(g, stack, r.order, ids[1..]);
        if last.Found? {
          forall d | d in ids ensures d in last.order { assert d == ids[0] || d in ids[1..]; }
        }
      }
    }
  }

  /** A topological order of every module excludes cycles. */
  lemma OrderExcludesCycles(g: Deps, order: seq<string>, path: seq<string>)
    requires Topological(g, order) && (forall n :: n in g ==> n in order)
    ensures !IsCycle(g, path)
  {
    if |path| >= 2 && IsPath(g, path) { DescendingPath(g, order, path, |path| - 1); }
  }

  /** Along a path positions in the order strictly decrease. */
  lemma {:induction false} DescendingPath(g: Deps, order: seq<string>, path: seq<string>, k: nat)
    requires Topological(g, order) && (forall n :: n in g ==> n in order)
    requires 1 <= k < |path| && IsPath(g, path)
    ensures path[0] in order && path[k] in order && IndexOf(order, path[k]) < IndexOf(order, path[0])
  {
    if k > 1 { DescendingPath(g, order, path, k - 1); }
    assert Depends(g, path[k - 1], path[k]);
    var i := IndexOf(order, path[k - 1]);
    assert path[k] in order[..i];
    var j :| 0 <= j < i && order[j] == path[k];
    assert IndexOf(order, path[k]) == j;
  }

  /** The search succeeds exactly on acyclic graphs, with a topological order of
      all modules; otherwise the path it reports is a real cycle. */
  lemma SearchExactly(g: Deps, roots: seq<string>)
    requires Closed(g) && forall n :: n in roots <==> n in g
    ensures var r := VisitAll(g, [], [], roots);
            && (r.Found? <==> Acyclic(g))
            && (r.Found? ==> Topological(g, r.order) && forall n :: n in r.order <==> n in g)
            && (r.CycleAt? ==> IsCycle(g, r.path))
  {
    VisitAllOk(g, [], [], roots);
    var r := VisitAll(g, [], [], roots);
    if r.Found? {
      forall path ensures !IsCycle(g, path) {
        OrderExcludesCycles(g, r.order, path);
      }
    }
  }

  // ---------- The search as the program runs it ----------

  datatype Mark = Active | Done

  /** Where the cycle begins on the stack. */
  method CycleStart(stack: seq<string>, id: string) returns (start: nat)
    requires id in stack
    ensures start == IndexOf(stack, id)
  {
    start := 0;
    for i := 0 to |stack|
      invariant id !in stack[..i]
    {
      if stack[i] == id {
        start := i;
        return;
      }
      assert stack[..i + 1] == stack[..i] + [stack[i]];
    }
  }

  /** The search with its mutable marks, stack and order. */
  class Dfs {
    const deps: Deps
    var marks: map<string, Mark>
    var stack: seq<string>
    var order: seq<string>

    /** A module is marked active exactly on the stack, done exactly in the order. */
    ghost predicate Valid()
      reads this
    {
      && Closed(deps)
      && (forall x :: x in stack <==> x in marks && marks[x] == Active)
      && (forall x :: x in order <==> x in marks && marks[x] == Done)
    }

    constructor (deps: Deps)
      requires Closed(deps)
      ensures this.deps == deps && stack == [] && order == [] && Valid()
    {
      this.deps := deps;
      marks, stack, order := map[], [], [];
    }

    method VisitModule(id: string) returns (cycle: Option<seq<string>>)
      requires Valid() && id in deps
      modifies this
      ensures var r := Visit(deps, old(stack), old(order), id);
              match r
              case CycleAt(path) => cycle == Some(path)
              case Found(order') => cycle.None? && order == order' && stack == old(stack) && Valid()
      decreases Fresh(deps, stack), 1, 0
    {
      if id in marks && marks[id] == Active {
        var start := CycleStart(stack, id);
        return Some(stack[start..] + [id]);
      }
      if id in marks { return None; }
      assert id in Fresh(deps, stack) && id !in Fresh(deps, stack + [id]);
      marks := marks[id := Active];
      stack := stack + [id];
      cycle := VisitModules(deps[id]);
      if cycle.Some? { return; }
      stack := stack[..|stack| - 1];
      assert stack == old(stack);
      assert Disjoint(stack + [id], order);
      marks := marks[id := Done];
      order := order + [id];
    }

    method VisitModules(ids: seq<string>) returns (cycle: Option<seq<string>>)
      requires Valid() && forall i :: 0 <= i < |ids| ==> ids[i] in deps
      modifies this
      ensures var r := VisitAll(deps, old(stack), old(order), ids);
              match r
              case CycleAt(path) => cycle == Some(path)
              case Found(order') => cycle.None? && order == order' && stack == old(stack) && Valid()
      decreases Fresh(deps, stack), 2, |ids|
    {
      if ids == [] { return None; }
      cycle := VisitModule(ids[0]);
      if cycle.None? { cycle := VisitModules(ids[1..]); }
    }
  }

  // ---------- Manifests ----------

  predicate Unambiguous(ms: seq<Manifest>) {
    && (forall i :: 0 <= i < |ms| ==> ms[i].wellFormed && NoDup(ms[i].needs) && NoDup(ms[i].offers))
    && (forall i, j :: 0 <= i < j < |ms| ==> ms[i].id != ms[j].id)
    && (forall i, j, c :: 0 <= i < j < |ms| && c in ms[i].offers ==> c !in ms[j].offers)
  }

  function OffersOf(m: Manifest): map<string, string> {
    map c | c in m.offers :: m.id
  }

  function Providers(ms: seq<Manifest>): map<string, string> {
    if ms == [] then map[] else Providers(ms[..|ms| - 1]) + OffersOf(ms[|ms| - 1])
  }

  predicate Satisfied(ms: seq<Manifest>, p: map<string, string>) {
    forall i, c :: 0 <= i < |ms| && c in ms[i].needs ==> c in p
  }

  /** The checks that come before the search. */
  predicate StaticOk(ms: seq<Manifest>) {
    Unambiguous(ms) && Satisfied(ms, Providers(ms))
  }

  function EdgesOf(m: Manifest, p: map<string, string>): (r: seq<Edge>)
    requires forall c :: c in m.needs ==> c in p
    ensures |r| == |m.needs|
    ensures forall i :: 0 <= i < |r| ==> r[i] == [m.id, p[m.needs[i]], m.needs[i]]
  {
    seq(|m.needs|, i requires 0 <= i < |m.needs| => [m.id, p[m.needs[i]], m.needs[i]])
  }

  function Edges(ms: seq<Manifest>, p: map<string, string>): seq<Edge>
    requires Satisfied(ms, p)
  {
    if ms == [] then [] else Edges(ms[..|ms| - 1], p) + EdgesOf(ms[|ms| - 1], p)
  }

  function Targets(edges: seq<Edge>): (r: seq<string>)
    requires forall i :: 0 <= i < |edges| ==> |edges[i]| == 3
    ensures |r| == |edges| && forall i :: 0 <= i < |r| ==> r[i] == edges[i][1]
  {
    seq(|edges|, i requires 0 <= i < |edges| => edges[i][1])
  }

  /** The dependencies of one module in visiting order. */
  function DepsOf(m: Manifest, p: map<string, string>): seq<string>
    requires forall c :: c in m.needs ==> c in p
  {
    SortUniform(EdgesOf(m, p), 3);
    Targets(Sort(EdgesOf(m, p)))
  }

  function DepsMap(ms: seq<Manifest>, p: map<string, string>): Deps
    requires Satisfied(ms, p)
  {
    if ms == [] then map[]
    else DepsMap(ms[..|ms| - 1], p)[ms[|ms| - 1].id := DepsOf(ms[|ms| - 1], p)]
  }

  function Singletons(ms: seq<Manifest>): (r: seq<Key>)
    ensures |r| == |ms| && forall i :: 0 <= i < |r| ==> r[i] == [ms[i].id]
  {
    seq(|ms|, i requires 0 <= i < |ms| => [ms[i].id])
  }

  function SortedIds(ms: seq<Manifest>): (r: seq<string>)
  {
    SortUniform(Singletons(ms), 1);
    var keys := Sort(Singletons(ms));
    seq(|keys|, i requires 0 <= i < |keys| => keys[i][0])
  }

  /** Verify, as a function of the manifests. */
  function VerifySpec(ms: seq<Manifest>): Verified {
    if !StaticOk(ms) then Rejected
    else
      var p := Providers(ms);
      DepsClosed(ms);
      match VisitAll(DepsMap(ms, p), [], [], SortedIds(ms))
      case CycleAt(path) => Cyclic(path)
      case Found(order) => Resolved(Graph(SortedIds(ms), Sort(Edges(ms, p)), order, p))
  }

  // ---------- Elements of the derived maps ----------

  lemma {:induction false} ProvidersElements(ms: seq<Manifest>, c: string)
    requires Unambiguous(ms)
    ensures c in Providers(ms) <==> exists i :: 0 <= i < |ms| && c in ms[i].offers
    ensures forall i :: 0 <= i < |ms| && c in ms[i].offers ==> c in Providers(ms) && Providers(ms)[c] == ms[i].id
  {
    if ms != [] {
      var front := ms[..|ms| - 1];
      ProvidersElements(front, c);
      if c in Providers(front) {
        var i :| 0 <= i < |front| && c in front[i].offers;
        assert c in ms[i].offers;
      }
      if c in ms[|ms| - 1].offers { assert c in Providers(ms); }
      forall i | 0 <= i < |ms| && c in ms[i].offers ensures c in Providers(ms) && Providers(ms)[c] == ms[i].id {
        if i < |front| { assert front[i] == ms[i]; assert c !in ms[|ms| - 1].offers; }
      }
    }
  }

  lemma {:induction false} DepsMapElements(ms: seq<Manifest>, p: map<string, string>)
    requires Unambiguous(ms) && Satisfied(ms, p)
    ensures forall n :: n in DepsMap(ms, p) <==> exists i :: 0 <= i < |ms| && ms[i].id == n
    ensures forall i :: 0 <= i < |ms| ==> ms[i].id in DepsMap(ms, p) && DepsMap(ms, p)[ms[i].id] == DepsOf(ms[i], p)
  {
    if ms != [] {
      var front := ms[..|ms| - 1];
      assert Unambiguous(front) && Satisfied(front, p) by {
        assert forall i :: 0 <= i < |front| ==> front[i] == ms[i];
      }
      DepsMapElements(front, p);
      DepsMapStep(ms, front, DepsMap(front, p), p);
    }
  }

  lemma DepsMapStep(ms: seq<Manifest>, front: seq<Manifest>, deps: Deps, p: map<string, string>)
    requires ms != [] && front == ms[..|ms| - 1] && Unambiguous(ms) && Satisfied(ms, p)
    requires forall n :: n in deps <==> exists i :: 0 <= i < |front| && front[i].id == n
    requires forall i :: 0 <= i < |front| ==> front[i].id in deps && deps[front[i].id] == DepsOf(front[i], p)
    ensures var more := deps[ms[|ms| - 1].id := DepsOf(ms[|ms| - 1], p)];
            && (forall n :: n in more <==> exists i :: 0 <= i < |ms| && ms[i].id == n)
            && (forall i :: 0 <= i < |ms| ==> ms[i].id in more && more[ms[i].id] == DepsOf(ms[i], p))
  {
    var more := deps[ms[|ms| - 1].id := DepsOf(ms[|ms| - 1], p)];
    forall n | n in more ensures exists i :: 0 <= i < |ms| && ms[i].id == n {
      if n != ms[|ms| - 1].id {
        var i :| 0 <= i < |front| && front[i].id == n;
        assert ms[i].id == n;
      }
    }
    forall i | 0 <= i < |ms| ensures ms[i].id in more && more[ms[i].id] == DepsOf(ms[i], p) {
      if i < |front| { assert front[i] == ms[i]; }
    }
  }

  lemma SortedIdsElements(ms: seq<Manifest>)
    ensures forall n :: n in SortedIds(ms) <==> exists i :: 0 <= i < |ms| && ms[i].id == n
  {
    var keys := Sort(Singletons(ms));
    SortElements(Singletons(ms));
    SortUniform(Singletons(ms), 1);
    forall n | n in SortedIds(ms) ensures exists i :: 0 <= i < |ms| && ms[i].id == n {
      var k :| 0 <= k < |keys| && keys[k][0] == n;
      assert keys[k] in Singletons(ms);
      var i :| 0 <= i < |ms| && Singletons(ms)[i] == keys[k];
    }
    forall i | 0 <= i < |ms| ensures ms[i].id in SortedIds(ms) {
      assert Singletons(ms)[i] in keys;
      var k :| 0 <= k < |keys| && keys[k] == Singletons(ms)[i];
      assert SortedIds(ms)[k] == ms[i].id;
    }
  }

  /** Every resolved dependency is itself a module, and all are searched. */
  lemma DepsClosed(ms: seq<Manifest>)
    requires StaticOk(ms)
    ensures var g := DepsMap(ms, Providers(ms)); Closed(g) && forall n :: n in SortedIds(ms) <==> n in g
  {
    var p := Providers(ms);
    var g := DepsMap(ms, p);
    DepsMapElements(ms, p);
    SortedIdsElements(ms);
    forall n, k | n in g && 0 <= k < |g[n]| ensures g[n][k] in g {
      var i :| 0 <= i < |ms| && ms[i].id == n;
      DepsOfElements(ms[i], p, g[n][k]);
      var c :| c in ms[i].needs && p[c] == g[n][k];
      ProvidersElements(ms, c);
      var j :| 0 <= j < |ms| && c in ms[j].offers;
      assert ms[j].id == g[n][k];
    }
  }

  lemma DepsOfElements(m: Manifest, p: map<string, string>, d: string)
    requires forall c :: c in m.needs ==> c in p
    ensures d in DepsOf(m, p) <==> exists c :: c in m.needs && p[c] == d
  {
    var es := EdgesOf(m, p);
    SortElements(es);
    SortUniform(es, 3);
    if d in DepsOf(m, p) {
      var k :| 0 <= k < |Sort(es)| && Sort(es)[k][1] == d;
      assert Sort(es)[k] in es;
      var i :| 0 <= i < |es| && es[i] == Sort(es)[k];
      assert m.needs[i] in m.needs;
    }
    if c :| c in m.needs && p[c] == d {
      var i :| 0 <= i < |m.needs| && m.needs[i] == c;
      assert es[i] in Sort(es);
      var k :| 0 <= k < |Sort(es)| && Sort(es)[k] == es[i];
      assert DepsOf(m, p)[k] == d;
    }
  }

  // ---------- Main results ----------

  /** `a` requires a capability that `b` provides. */
  ghost predicate Requires(ms: seq<Manifest>, a: string, b: string) {
    exists i, j, c :: 0 <= i < |ms| && 0 <= j < |ms| && ms[i].id == a && ms[j].id == b && c in ms[i].needs && c in ms[j].offers
  }

  lemma RequiresIsDepends(ms: seq<Manifest>, a: string, b: string)
    requires StaticOk(ms)
    ensures Requires(ms, a, b) <==> Depends(DepsMap(ms, Providers(ms)), a, b)
  {
    var p := Providers(ms);
    DepsMapElements(ms, p);
    if Requires(ms, a, b) {
      var i, j, c :| 0 <= i < |ms| && 0 <= j < |ms| && ms[i].id == a && ms[j].id == b && c in ms[i].needs && c in ms[j].offers;
      ProvidersElements(ms, c);
      DepsOfElements(ms[i], p, b);
    }
    if Depends(DepsMap(ms, p), a, b) {
      var i :| 0 <= i < |ms| && ms[i].id == a;
      DepsOfElements(ms[i], p, b);
      var c :| c in ms[i].needs && p[c] == b;
      ProvidersElements(ms, c);
      var j :| 0 <= j < |ms| && c in ms[j].offers;
    }
  }

  /** A cycle among the modules' capability requirements. */
  ghost predicate RequirementCycle(ms: seq<Manifest>, path: seq<string>) {
    && |path| >= 2 && path[0] == path[|path| - 1]
    && forall i :: 0 <= i < |path| - 1 ==> Requires(ms, path[i], path[i + 1])
  }

  /** On manifests that pass the static checks, Verify succeeds exactly when the
      capability requirements are acyclic. Its order then lists every module
      once, providers before their requirers; a cycle it reports is real. */
  lemma VerifyExactly(ms: seq<Manifest>)
    requires StaticOk(ms)
    ensures var r := VerifySpec(ms);
            && !r.Rejected?
            && (r.Resolved? <==> forall path :: !RequirementCycle(ms, path))
            && (r.Cyclic? ==> RequirementCycle(ms, r.path))
            && (r.Resolved? ==>
                  var order := r.graph.order;
                  && NoDup(order) && (forall n :: n in order <==> exists i :: 0 <= i < |ms| && ms[i].id == n)
                  && (forall i, d :: 0 <= i < |order| && Requires(ms, order[i], d) ==> d in order[..i]))
  {
    var g := DepsMap(ms, Providers(ms));
    DepsClosed(ms);
    DepsMapElements(ms, Providers(ms));
    SearchExactly(g, SortedIds(ms));
    forall a, b ensures Requires(ms, a, b) <==> Depends(g, a, b) { RequiresIsDepends(ms, a, b); }
    forall path ensures RequirementCycle(ms, path) <==> IsCycle(g, path) {}
  }

  // ---------- Verify as the program runs it ----------

  method AddOffers(p: map<string, string>, m: Manifest) returns (ok: bool, r: map<string, string>)
    requires NoDup(m.offers)
    ensures ok <==> forall c :: c in m.offers ==> c !in p
    ensures ok ==> r == p + OffersOf(m)
  {
    r := p;
    for k := 0 to |m.offers|
      invariant forall i :: 0 <= i < k ==> m.offers[i] !in p
      invariant forall c :: c in r <==> c in p || c in m.offers[..k]
      invariant forall c :: c in p ==> r[c] == p[c]
      invariant forall i :: 0 <= i < k ==> m.offers[i] in r && r[m.offers[i]] == m.id
    {
      if m.offers[k] in r {
        assert m.offers[k] in p;
        return false, r;
      }
      r := r[m.offers[k] := m.id];
      assert m.offers[..k + 1] == m.offers[..k] + [m.offers[k]];
    }
    assert m.offers[..|m.offers|] == m.offers;
    ok := true;
  }

  /** When the next manifest collides with an earlier one, the list is ambiguous. */
  lemma ProviderTaken(ms: seq<Manifest>, n: nat, c: string)
    requires n < |ms| && Unambiguous(ms[..n]) && c in ms[n].offers && c in Providers(ms[..n])
    ensures !Unambiguous(ms)
  {
    ProvidersElements(ms[..n], c);
    var i :| 0 <= i < n && c in ms[..n][i].offers;
    assert c in ms[i].offers;
  }

  lemma ExtendUnambiguous(ms: seq<Manifest>, n: nat)
    requires n < |ms| && Unambiguous(ms[..n])
    requires ms[n].wellFormed && NoDup(ms[n].needs) && NoDup(ms[n].offers)
    requires forall i :: 0 <= i < n ==> ms[i].id != ms[n].id
    requires forall c :: c in ms[n].offers ==> c !in Providers(ms[..n])
    ensures Unambiguous(ms[..n + 1])
  {
    var more := ms[..n + 1];
    forall i, j, c | 0 <= i < j < |more| && c in more[i].offers ensures c !in more[j].offers {
      if j == n { ProvidersElements(ms[..n], c); assert c in ms[..n][i].offers; }
      else { assert more[i] == ms[..n][i] && more[j] == ms[..n][j]; }
    }
    forall i, j | 0 <= i < j < |more| ensures more[i].id != more[j].id {
      if j < n { assert more[i] == ms[..n][i] && more[j] == ms[..n][j]; }
    }
    forall i | 0 <= i < |more| ensures more[i].wellFormed && NoDup(more[i].needs) && NoDup(more[i].offers) {
      if i < n { assert more[i] == ms[..n][i]; }
    }
  }

  method CollectProviders(ms: seq<Manifest>) returns (ok: bool, p: map<string, string>)
    ensures ok == Unambiguous(ms)
    ensures ok ==> p == Providers(ms)
  {
    p := map[];
    var ids: set<string> := {};
    for n := 0 to |ms|
      invariant Unambiguous(ms[..n]) && p == Providers(ms[..n])
      invariant forall i :: 0 <= i < n ==> ms[i].id in ids
      invariant forall x :: x in ids ==> exists i :: 0 <= i < n && ms[i].id == x
    {
      var m := ms[n];
      if !m.wellFormed || !NoDup(m.needs) || !NoDup(m.offers) || m.id in ids { return false, p; }
      ids := ids + {m.id};
      var unique, more := AddOffers(p, m);
      if !unique {
        ghost var c :| c in m.offers && c in p;
        ProviderTaken(ms, n, c);
        return false, p;
      }
      ExtendUnambiguous(ms, n);
      p := more;
      assert ms[..n + 1][..n] == ms[..n];
    }
    assert ms[..|ms|] == ms;
    ok := true;
  }

  method OwnEdges(m: Manifest, p: map<string, string>) returns (ok: bool, own: seq<Edge>)
    ensures ok <==> forall c :: c in m.needs ==> c in p
    ensures ok ==> own == EdgesOf(m, p)
  {
    own := [];
    for k := 0 to |m.needs|
      invariant forall i :: 0 <= i < k ==> m.needs[i] in p
      invariant |own| == k && forall i :: 0 <= i < k ==> own[i] == [m.id, p[m.needs[i]], m.needs[i]]
    {
      if m.needs[k] !in p { return false, own; }
      own := own + [[m.id, p[m.needs[k]], m.needs[k]]];
    }
    ok := true;
  }

  method CollectEdges(ms: seq<Manifest>, p: map<string, string>) returns (ok: bool, edges: seq<Edge>, deps: Deps)
    ensures ok == Satisfied(ms, p)
    ensures ok ==> edges == Edges(ms, p) && deps == DepsMap(ms, p)
  {
    edges, deps := [], map[];
    for n := 0 to |ms|
      invariant Satisfied(ms[..n], p)
      invariant edges == Edges(ms[..n], p) && deps == DepsMap(ms[..n], p)
    {
      var m := ms[n];
      var own;
      ok, own := OwnEdges(m, p);
      if !ok { return false, edges, deps; }
      SortUniform(own, 3);
      deps := deps[m.id := Targets(Sort(own))];
      edges := edges + own;
      assert ms[..n + 1][..n] == ms[..n];
    }
    assert ms[..|ms|] == ms;
    ok := true;
  }

  method Verify(ms: seq<Manifest>) returns (r: Verified)
    ensures r == VerifySpec(ms)
  {
    var unambiguous, p := CollectProviders(ms);
    if !unambiguous { return Rejected; }
    var satisfied, edges, deps := CollectEdges(ms, p);
    if !satisfied { return Rejected; }
    DepsClosed(ms);
    var dfs := new Dfs(deps);
    var modules := SortedIds(ms);
    var cycle := dfs.VisitModules(modules);
    if cycle.Some? { return Cyclic(cycle.value); }
    r := Resolved(Graph(modules, Sort(edges), dfs.order, p));
  }

  // ---------- Arrangement does not matter ----------

  ghost predicate SameManifest(a: Manifest, b: Manifest) {
    && a.id == b.id && a.wellFormed == b.wellFormed
    && (forall c :: c in a.needs <==> c in b.needs) && (forall c :: c in a.offers <==> c in b.offers)
  }

  ghost predicate Matched(m: Manifest, b: seq<Manifest>) {
    exists j :: 0 <= j < |b| && SameManifest(m, b[j])
  }

  ghost predicate Covers(a: seq<Manifest>, b: seq<Manifest>) {
    forall i {:trigger Matched(a[i], b)} :: 0 <= i < |a| ==> Matched(a[i], b)
  }

  /** The same manifests in any order, with their lists in any order. */
  ghost predicate Rearranged(a: seq<Manifest>, b: seq<Manifest>) {
    Covers(a, b) && Covers(b, a)
  }

  lemma ProvidersCovered(a: seq<Manifest>, b: seq<Manifest>, c: string)
    requires Unambiguous(a) && Unambiguous(b) && Covers(a, b) && c in Providers(a)
    ensures c in Providers(b) && Providers(b)[c] == Providers(a)[c]
  {
    ProvidersElements(a, c);
    var i :| 0 <= i < |a| && c in a[i].offers;
    assert Matched(a[i], b);
    var j :| 0 <= j < |b| && SameManifest(a[i], b[j]);
    ProvidersElements(b, c);
  }

  lemma SameProviders(a: seq<Manifest>, b: seq<Manifest>)
    requires Unambiguous(a) && Unambiguous(b) && Covers(a, b) && Covers(b, a)
    ensures Providers(a) == Providers(b)
  {
    forall c | c in Providers(a) ensures c in Providers(b) && Providers(b)[c] == Providers(a)[c] {
      ProvidersCovered(a, b, c);
    }
    forall c | c in Providers(b) ensures c in Providers(a) {
      ProvidersCovered(b, a, c);
    }
  }

  lemma SameDeps(m: Manifest, n: Manifest, p: map<string, string>)
    requires SameManifest(m, n) && NoDup(m.needs) && NoDup(n.needs) && forall c :: c in m.needs ==> c in p
    ensures DepsOf(m, p) == DepsOf(n, p)
  {
    var es, fs := EdgesOf(m, p), EdgesOf(n, p);
    assert NoDup(es) && NoDup(fs) by {
      assert forall i :: 0 <= i < |es| ==> es[i][2] == m.needs[i];
      assert forall i :: 0 <= i < |fs| ==> fs[i][2] == n.needs[i];
    }
    forall x ensures x in es <==> x in fs {
      EdgesOfElements(m, p, x);
      EdgesOfElements(n, p, x);
    }
    SortDetermined(es, fs);
  }

  lemma EdgesOfElements(m: Manifest, p: map<string, string>, x: Edge)
    requires forall c :: c in m.needs ==> c in p
    ensures x in EdgesOf(m, p) <==> |x| == 3 && x[0] == m.id && x[2] in m.needs && x[1] == p[x[2]]
  {
    if |x| == 3 && x[0] == m.id && x[2] in m.needs && x[1] == p[x[2]] {
      var i :| 0 <= i < |m.needs| && m.needs[i] == x[2];
      assert EdgesOf(m, p)[i] == x;
    }
  }

  lemma {:induction false} EdgesElements(ms: seq<Manifest>, p: map<string, string>)
    requires Unambiguous(ms) && Satisfied(ms, p)
    ensures NoDup(Edges(ms, p))
    ensures forall x :: x in Edges(ms, p) <==> exists i :: 0 <= i < |ms| && x in EdgesOf(ms[i], p)
  {
    if ms != [] {
      var front, last := ms[..|ms| - 1], ms[|ms| - 1];
      EdgesElements(front, p);
      var prior, added := Edges(front, p), EdgesOf(last, p);
      forall x | x in prior ensures x !in added {
        var i :| 0 <= i < |front| && x in EdgesOf(front[i], p);
        EdgesOfElements(front[i], p, x);
        EdgesOfElements(last, p, x);
        assert front[i].id != last.id;
      }
      AppendNoDup(prior, added) by {
        assert forall i :: 0 <= i < |added| ==> added[i][2] == last.needs[i];
      }
      forall x ensures x in Edges(ms, p) <==> exists i :: 0 <= i < |ms| && x in EdgesOf(ms[i], p) {
        if i :| 0 <= i < |ms| && x in EdgesOf(ms[i], p) {
          if i < |front| { assert x in EdgesOf(front[i], p); }
        }
        if x in prior {
          var i :| 0 <= i < |front| && x in EdgesOf(front[i], p);
          assert x in EdgesOf(ms[i], p);
        }
      }
    }
  }

  lemma AppendNoDup<T>(a: seq<T>, b: seq<T>)
    requires NoDup(a) && NoDup(b) && forall x :: x in a ==> x !in b
    ensures NoDup(a + b)
  {
    forall i, j | 0 <= i < j < |a + b| ensures (a + b)[i] != (a + b)[j] {
      if i < |a| <= j { assert a[i] in a && b[j - |a|] in b; }
    }
  }

  lemma EdgesCovered(a: seq<Manifest>, b: seq<Manifest>, p: map<string, string>, x: Edge)
    requires Unambiguous(a) && Unambiguous(b) && Covers(a, b) && Satisfied(a, p) && Satisfied(b, p)
    requires x in Edges(a, p)
    ensures x in Edges(b, p)
  {
    EdgesElements(a, p);
    EdgesElements(b, p);
    var i :| 0 <= i < |a| && x in EdgesOf(a[i], p);
    assert Matched(a[i], b);
    var j :| 0 <= j < |b| && SameManifest(a[i], b[j]);
    EdgesOfElements(a[i], p, x);
    EdgesOfElements(b[j], p, x);
  }

  lemma SameEdges(a: seq<Manifest>, b: seq<Manifest>, p: map<string, string>)
    requires Unambiguous(a) && Unambiguous(b) && Covers(a, b) && Covers(b, a) && Satisfied(a, p) && Satisfied(b, p)
    ensures Sort(Edges(a, p)) == Sort(Edges(b, p))
  {
    EdgesElements(a, p);
    EdgesElements(b, p);
    forall x | x in Edges(a, p) ensures x in Edges(b, p) { EdgesCovered(a, b, p, x); }
    forall x | x in Edges(b, p) ensures x in Edges(a, p) { EdgesCovered(b, a, p, x); }
    SortDetermined(Edges(a, p), Edges(b, p));
  }

  lemma IdsCovered(a: seq<Manifest>, b: seq<Manifest>, k: Key)
    requires Covers(a, b) && k in Singletons(a)
    ensures k in Singletons(b)
  {
    var i :| 0 <= i < |a| && Singletons(a)[i] == k;
    assert Matched(a[i], b);
    var j :| 0 <= j < |b| && SameManifest(a[i], b[j]);
    assert Singletons(b)[j] == k;
  }

  lemma SameIds(a: seq<Manifest>, b: seq<Manifest>)
    requires Unambiguous(a) && Unambiguous(b) && Covers(a, b) && Covers(b, a)
    ensures SortedIds(a) == SortedIds(b)
  {
    var x, y := Singletons(a), Singletons(b);
    forall k | k in x ensures k in y { IdsCovered(a, b, k); }
    forall k | k in y ensures k in x { IdsCovered(b, a, k); }
    SortDetermined(x, y);
  }

  lemma DepsCovered(a: seq<Manifest>, b: seq<Manifest>, p: map<string, string>, n: string)
    requires Unambiguous(a) && Unambiguous(b) && Covers(a, b) && Satisfied(a, p) && Satisfied(b, p)
    requires n in DepsMap(a, p)
    ensures n in DepsMap(b, p) && DepsMap(a, p)[n] == DepsMap(b, p)[n]
  {
    DepsMapElements(a, p);
    DepsMapElements(b, p);
    var i :| 0 <= i < |a| && a[i].id == n;
    assert Matched(a[i], b);
    var j :| 0 <= j < |b| && SameManifest(a[i], b[j]);
    SameDeps(a[i], b[j], p);
  }

  lemma SameDepsMap(a: seq<Manifest>, b: seq<Manifest>, p: map<string, string>)
    requires Unambiguous(a) && Unambiguous(b) && Covers(a, b) && Covers(b, a) && Satisfied(a, p) && Satisfied(b, p)
    ensures DepsMap(a, p) == DepsMap(b, p)
  {
    var g, h := DepsMap(a, p), DepsMap(b, p);
    forall n | n in g ensures n in h && g[n] == h[n] { DepsCovered(a, b, p, n); }
    forall n | n in h ensures n in g { DepsCovered(b, a, p, n); }
  }

  /** The resolved graph, or the reported cycle, does not depend on the order of
      the manifests nor of their capability lists. */
  lemma VerifyIgnoresArrangement(a: seq<Manifest>, b: seq<Manifest>)
    requires StaticOk(a) && StaticOk(b) && Rearranged(a, b)
    ensures VerifySpec(a) == VerifySpec(b)
  {
    SameProviders(a, b);
    SameEdges(a, b, Providers(a));
    SameIds(a, b);
    SameDepsMap(a, b, Providers(a));
  }
}
