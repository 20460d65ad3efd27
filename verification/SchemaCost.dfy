/** The static bound on how many schemas one instance value can visit without
    making progress through `$ref`, `allOf`, `if` and their like. */
module SchemaCost {
  import opened Common

  /** A schema location: a reference replaces everything else; otherwise the
      same-instance subschemas, and the branches that count only under `if`. */
  datatype Node = Node(ref: Option<nat>, same: seq<nat>, branches: seq<nat>, conditional: bool)

  type Graph = seq<Node>

  predicate Within(g: Graph, ids: seq<nat>) {
    forall i :: 0 <= i < |ids| ==> ids[i] < |g|
  }

  predicate Closed(g: Graph) {
    forall n :: 0 <= n < |g| ==> Within(g, Always(g[n])) && Within(g, Alternatives(g[n]))
  }

  /** Subschemas that all apply, and alternatives of which one applies. */
  function Always(n: Node): seq<nat> {
    if n.ref.Some? then [n.ref.value] else n.same
  }

  function Alternatives(n: Node): seq<nat> {
    if n.ref.None? && n.conditional then n.branches else []
  }

  predicate Edge(g: Graph, a: nat, b: nat) {
    a < |g| && (b in Always(g[a]) || b in Alternatives(g[a]))
  }

  predicate Linked(g: Graph, path: seq<nat>, i: nat)
    requires i + 1 < |path|
  {
    Edge(g, path[i], path[i + 1])
  }

  predicate IsPath(g: Graph, path: seq<nat>) {
    forall i :: 0 <= i < |path| - 1 ==> Linked(g, path, i)
  }

  predicate IsCycle(g: Graph, path: seq<nat>) {
    |path| >= 2 && path[0] == path[|path| - 1] && IsPath(g, path)
  }

  ghost predicate Acyclic(g: Graph) {
    forall path :: !IsCycle(g, path)
  }

  // ---------- Full unfoldings ----------

  /** The schema visits of one instance value, without sharing. */
  datatype Tree = Tree(id: nat, always: seq<Tree>, alternatives: seq<Tree>)

  ghost predicate IsUnfolding(g: Graph, t: Tree)
    decreases t
  {
    && t.id < |g|
    && |t.always| == |Always(g[t.id])| && |t.alternatives| == |Alternatives(g[t.id])|
    && (forall i :: 0 <= i < |t.always| ==> t.always[i].id == Always(g[t.id])[i] && IsUnfolding(g, t.always[i]))
    && (forall i :: 0 <= i < |t.alternatives| ==>
          t.alternatives[i].id == Alternatives(g[t.id])[i] && IsUnfolding(g, t.alternatives[i]))
  }

  function Max(a: nat, b: nat): nat { if a > b then a else b }

  function Visits(t: Tree): nat
    decreases t, 1
  {
    1 + Total(t.always) + Largest(t.alternatives)
  }

  function Total(ts: seq<Tree>): nat
    decreases ts, 0
  {
    if ts == [] then 0 else Visits(ts[0]) + Total(ts[1..])
  }

  function Largest(ts: seq<Tree>): nat
    decreases ts, 0
  {
    if ts == [] then 0 else Max(Visits(ts[0]), Largest(ts[1..]))
  }

  lemma {:induction false} UnfoldingUnique(g: Graph, s: Tree, t: Tree)
    requires IsUnfolding(g, s) && IsUnfolding(g, t) && s.id == t.id
    ensures s == t
    decreases s
  {
    forall i | 0 <= i < |s.always| ensures s.always[i] == t.always[i] { UnfoldingUnique(g, s.always[i], t.always[i]); }
    forall i | 0 <= i < |s.alternatives| ensures s.alternatives[i] == t.alternatives[i] {
      UnfoldingUnique(g, s.alternatives[i], t.alternatives[i]);
    }
    assert s.always == t.always && s.alternatives == t.alternatives;
  }

  ghost predicate Unfolds(g: Graph, id: nat, t: Tree) {
    t.id == id && IsUnfolding(g, t)
  }

  /** Following a path down an unfolding reaches a subtree inside it. */
  lemma {:induction false} Descend(g: Graph, t: Tree, path: seq<nat>) returns (s: Tree)
    requires IsUnfolding(g, t) && |path| >= 1 && path[0] == t.id && IsPath(g, path)
    ensures Unfolds(g, path[|path| - 1], s) && (|path| >= 2 ==> Height(s) < Height(t)) && (|path| == 1 ==> s == t)
    decreases |path|
  {
    if |path| == 1 {
      s := t;
    } else {
      PathFrom(g, path, 1);
      assert Linked(g, path, 0);
      var child := Child(g, t, path[1]);
      s := Descend(g, child, path[1..]);
    }
  }

  function Height(t: Tree): nat
    decreases t, 1
  {
    1 + HeightOfAll(t.always) + HeightOfAll(t.alternatives)
  }

  function HeightOfAll(ts: seq<Tree>): nat
    decreases ts, 0
  {
    if ts == [] then 0 else Height(ts[0]) + HeightOfAll(ts[1..])
  }

  lemma {:induction false} HeightOfMember(ts: seq<Tree>, i: nat)
    requires i < |ts|
    ensures Height(ts[i]) <= HeightOfAll(ts)
  {
    if i > 0 { HeightOfMember(ts[1..], i - 1); }
  }

  lemma Child(g: Graph, t: Tree, b: nat) returns (s: Tree)
    requires IsUnfolding(g, t) && Edge(g, t.id, b)
    ensures Unfolds(g, b, s) && Height(s) < Height(t)
  {
    var n := g[t.id];
    if b in Always(n) {
      var i :| 0 <= i < |Always(n)| && Always(n)[i] == b;
      s := t.always[i];
      HeightOfMember(t.always, i);
    } else {
      var i :| 0 <= i < |Alternatives(n)| && Alternatives(n)[i] == b;
      s := t.alternatives[i];
      HeightOfMember(t.alternatives, i);
    }
  }

  /** A location on a cycle has no finite unfolding. */
  lemma CycleHasNoUnfolding(g: Graph, path: seq<nat>, t: Tree)
    requires IsCycle(g, path)
    ensures !Unfolds(g, path[0], t)
  {
    if Unfolds(g, path[0], t) {
      var s := Descend(g, t, path);
      UnfoldingUnique(g, s, t);
    }
  }

  // ---------- The analysis ----------

  function BoundedAdd(left: nat, right: nat, limit: nat): nat {
    if left > limit || right > limit - left then limit + 1 else left + right
  }

  function Capped(n: nat, limit: nat): nat {
    if n > limit then limit + 1 else n
  }

  /** Saturating addition of numbers within the limit tells exactly whether the
      true sum is within it. */
  lemma BoundedAddIsCapped(sum: nat, n: nat, limit: nat)
    requires n <= limit
    ensures BoundedAdd(Capped(sum, limit), n, limit) == Capped(sum + n, limit)
  {
  }

  type Memo = map<nat, nat>

  datatype Outcome = Priced(cost: nat, memo: Memo) | Cyclic(path: seq<nat>) | TooCostly(id: nat)

  ghost predicate IsLocation(g: Graph, i: nat) { i < |g| }

  ghost function Fresh(g: Graph, stack: seq<nat>): set<nat> {
    (set i: nat | i < |g| && IsLocation(g, i)) - (set x | x in stack)
  }

  lemma FreshShrinks(g: Graph, stack: seq<nat>, id: nat)
    requires id < |g| && id !in stack
    ensures Fresh(g, stack + [id]) < Fresh(g, stack)
  {
    assert IsLocation(g, id);
    assert id in Fresh(g, stack) && id !in Fresh(g, stack + [id]);
  }

  function IndexOf(stack: seq<nat>, id: nat): (i: nat)
    requires id in stack
    ensures i < |stack| && stack[i] == id
  {
    if stack[0] == id then 0 else 1 + IndexOf(stack[1..], id)
  }

  /** The cost of a location; `stack` holds the locations in progress. */
  function Cost(g: Graph, limit: nat, stack: seq<nat>, memo: Memo, id: nat): Outcome
    requires Closed(g) && id < |g|
    decreases Fresh(g, stack), 1, 0
  {
    if id in stack then Cyclic(stack[IndexOf(stack, id)..] + [id])
    else if id in memo then Priced(memo[id], memo)
    else
      FreshShrinks(g, stack, id);
      var sum := SumOf(g, limit, stack + [id], memo, Always(g[id]), 1);
      if !sum.Priced? then sum
      else Combine(limit, id, sum, LargestOf(g, limit, stack + [id], sum.memo, Alternatives(g[id]), 0))
  }

  function Combine(limit: nat, id: nat, sum: Outcome, largest: Outcome): Outcome {
    if !sum.Priced? then sum
    else if !largest.Priced? then largest
    else
      var total := BoundedAdd(sum.cost, largest.cost, limit);
      if total > limit then TooCostly(id) else Priced(total, largest.memo[id := total])
  }

  function SumOf(g: Graph, limit: nat, stack: seq<nat>, memo: Memo, ids: seq<nat>, total: nat): Outcome
    requires Closed(g) && Within(g, ids)
    decreases Fresh(g, stack), 2, |ids|
  {
    if ids == [] then Priced(total, memo)
    else
      var first := Cost(g, limit, stack, memo, ids[0]);
      if !first.Priced? then first
      else SumOf(g, limit, stack, first.memo, ids[1..], BoundedAdd(total, first.cost, limit))
  }

  function LargestOf(g: Graph, limit: nat, stack: seq<nat>, memo: Memo, ids: seq<nat>, largest: nat): Outcome
    requires Closed(g) && Within(g, ids)
    decreases Fresh(g, stack), 2, |ids|
  {
    if ids == [] then Priced(largest, memo)
    else
      var first := Cost(g, limit, stack, memo, ids[0]);
      if !first.Priced? then first
      else LargestOf(g, limit, stack, first.memo, ids[1..], Max(first.cost, largest))
  }

  // ---------- What the analysis computes ----------

  ghost predicate HasCost(g: Graph, id: nat, cost: nat) {
    exists t :: Unfolds(g, id, t) && Visits(t) == cost
  }

  ghost predicate AllCost(g: Graph, ids: seq<nat>, costs: seq<nat>) {
    |costs| == |ids| && forall i :: 0 <= i < |ids| ==> HasCost(g, ids[i], costs[i])
  }

  function SumN(costs: seq<nat>): nat {
    if costs == [] then 0 else costs[0] + SumN(costs[1..])
  }

  function MaxN(costs: seq<nat>): nat {
    if costs == [] then 0 else Max(costs[0], MaxN(costs[1..]))
  }

  ghost predicate UnfoldAll(g: Graph, ids: seq<nat>, ts: seq<Tree>) {
    |ts| == |ids| && forall i :: 0 <= i < |ts| ==> Unfolds(g, ids[i], ts[i])
  }

  lemma {:induction false} ChooseTrees(g: Graph, ids: seq<nat>, costs: seq<nat>) returns (ts: seq<Tree>)
    requires AllCost(g, ids, costs)
    ensures UnfoldAll(g, ids, ts) && Total(ts) == SumN(costs) && Largest(ts) == MaxN(costs)
  {
    if ids == [] {
      ts := [];
    } else {
      var t :| Unfolds(g, ids[0], t) && Visits(t) == costs[0];
      var rest := ChooseTrees(g, ids[1..], costs[1..]);
      ts := [t] + rest;
      assert ts[1..] == rest;
    }
  }

  lemma Assemble(g: Graph, id: nat, always: seq<nat>, alternatives: seq<nat>)
    requires id < |g| && AllCost(g, Always(g[id]), always) && AllCost(g, Alternatives(g[id]), alternatives)
    ensures HasCost(g, id, 1 + SumN(always) + MaxN(alternatives))
  {
    var ts := ChooseTrees(g, Always(g[id]), always);
    var us := ChooseTrees(g, Alternatives(g[id]), alternatives);
    var t := Tree(id, ts, us);
    assert Unfolds(g, id, t) && Visits(t) == 1 + SumN(always) + MaxN(alternatives);
  }

  lemma FirstCost(g: Graph, ids: seq<nat>, cost: nat, rest: seq<nat>)
    requires ids != [] && HasCost(g, ids[0], cost) && AllCost(g, ids[1..], rest)
    ensures AllCost(g, ids, [cost] + rest)
    ensures SumN([cost] + rest) == cost + SumN(rest) && MaxN([cost] + rest) == Max(cost, MaxN(rest))
  {
    var costs := [cost] + rest;
    assert costs[1..] == rest;
    forall i | 0 <= i < |ids| ensures HasCost(g, ids[i], costs[i]) {
      if i > 0 { assert HasCost(g, ids[1..][i - 1], rest[i - 1]); }
    }
  }

  lemma CostUnique(g: Graph, id: nat, c: nat, d: nat)
    requires HasCost(g, id, c) && HasCost(g, id, d)
    ensures c == d
  {
    var s :| Unfolds(g, id, s) && Visits(s) == c;
    var t :| Unfolds(g, id, t) && Visits(t) == d;
    UnfoldingUnique(g, s, t);
  }

  ghost predicate MemoOk(g: Graph, limit: nat, memo: Memo) {
    forall id :: id in memo ==> HasCost(g, id, memo[id]) && memo[id] <= limit
  }

  ghost predicate Exceeds(g: Graph, limit: nat, id: nat) {
    exists c: nat :: HasCost(g, id, c) && c > limit
  }

  /** What an outcome promises apart from the cost itself. */
  ghost predicate OutcomeOk(g: Graph, limit: nat, r: Outcome) {
    match r
    case Priced(_, memo) => MemoOk(g, limit, memo)
    case Cyclic(path) => IsCycle(g, path)
    case TooCostly(id) => id < |g| && Exceeds(g, limit, id)
  }

  /** Each of `ids` is a location that continues the path `stack`. */
  ghost predicate Continue(g: Graph, stack: seq<nat>, ids: seq<nat>) {
    Within(g, ids) && forall i :: 0 <= i < |ids| ==> IsPath(g, stack + [ids[i]])
  }

  lemma ExtendPath(g: Graph, path: seq<nat>, b: nat)
    requires IsPath(g, path) && path != [] && Edge(g, path[|path| - 1], b)
    ensures IsPath(g, path + [b])
  {
    var more := path + [b];
    forall i | 0 <= i < |more| - 1 ensures Linked(g, more, i) {
      if i < |path| - 1 { assert Linked(g, path, i); }
    }
  }

  lemma ChildrenContinue(g: Graph, stack: seq<nat>, id: nat)
    requires Closed(g) && id < |g| && IsPath(g, stack + [id])
    ensures Continue(g, stack + [id], Always(g[id])) && Continue(g, stack + [id], Alternatives(g[id]))
  {
    forall b | Edge(g, id, b) ensures IsPath(g, stack + [id] + [b]) { ExtendPath(g, stack + [id], b); }
  }

  lemma PathFrom(g: Graph, path: seq<nat>, i: nat)
    requires IsPath(g, path) && i <= |path|
    ensures IsPath(g, path[i..])
  {
    var rest := path[i..];
    forall j | 0 <= j < |rest| - 1 ensures Linked(g, rest, j) {
      assert Linked(g, path, i + j);
    }
  }

  lemma CycleOnStack(g: Graph, stack: seq<nat>, id: nat)
    requires IsPath(g, stack + [id]) && id in stack
    ensures IsCycle(g, stack[IndexOf(stack, id)..] + [id])
  {
    var i := IndexOf(stack, id);
    PathFrom(g, stack + [id], i);
    assert stack[i..] + [id] == (stack + [id])[i..];
  }

  lemma Price(g: Graph, limit: nat, id: nat, always: seq<nat>, alternatives: seq<nat>, sum: Outcome, largest: Outcome)
    requires id < |g| && OutcomeOk(g, limit, sum) && OutcomeOk(g, limit, largest)
    requires sum.Priced? ==> AllCost(g, Always(g[id]), always) && sum.cost == Capped(1 + SumN(always), limit)
    requires sum.Priced? && largest.Priced? ==>
      AllCost(g, Alternatives(g[id]), alternatives) && largest.cost == MaxN(alternatives) <= limit
    ensures PriceOk(g, limit, id, Combine(limit, id, sum, largest))
  {
    if sum.Priced? && largest.Priced? {
      BoundedAddIsCapped(1 + SumN(always), MaxN(alternatives), limit);
      Assemble(g, id, always, alternatives);
    }
  }

  ghost predicate PriceOk(g: Graph, limit: nat, id: nat, r: Outcome) {
    OutcomeOk(g, limit, r) && (r.Priced? ==> HasCost(g, id, r.cost) && r.cost <= limit)
  }

  lemma {:induction false} CostOk(g: Graph, limit: nat, stack: seq<nat>, memo: Memo, id: nat)
    requires Closed(g) && id < |g| && MemoOk(g, limit, memo) && IsPath(g, stack + [id])
    ensures PriceOk(g, limit, id, Cost(g, limit, stack, memo, id))
    decreases Fresh(g, stack), 1, 0
  {
    if id in stack {
      CycleOnStack(g, stack, id);
    } else if id !in memo {
      ExpandOk(g, limit, stack, memo, id);
    }
  }

  lemma {:induction false} ExpandOk(g: Graph, limit: nat, stack: seq<nat>, memo: Memo, id: nat)
    requires Closed(g) && id < |g| && id !in stack && id !in memo && MemoOk(g, limit, memo) && IsPath(g, stack + [id])
    ensures PriceOk(g, limit, id, Cost(g, limit, stack, memo, id))
    decreases Fresh(g, stack), 0, 0
  {
    FreshShrinks(g, stack, id);
    var path := stack + [id];
    ChildrenContinue(g, stack, id);
    var always := SumOk(g, limit, path, memo, Always(g[id]), 1, 1);
    var sum := SumOf(g, limit, path, memo, Always(g[id]), 1);
    var largest, alternatives := sum, [];
    if sum.Priced? {
      alternatives := LargestOk(g, limit, path, sum.memo, Alternatives(g[id]), 0);
      largest := LargestOf(g, limit, path, sum.memo, Alternatives(g[id]), 0);
    }
    assert Cost(g, limit, stack, memo, id) == Combine(limit, id, sum, largest);
    Price(g, limit, id, always, alternatives, sum, largest);
  }

  ghost predicate SumResult(g: Graph, limit: nat, ids: seq<nat>, before: nat, costs: seq<nat>, r: Outcome) {
    OutcomeOk(g, limit, r) && (r.Priced? ==> AllCost(g, ids, costs) && r.cost == Capped(before + SumN(costs), limit))
  }

  ghost predicate LargestResult(g: Graph, limit: nat, ids: seq<nat>, before: nat, costs: seq<nat>, r: Outcome) {
    OutcomeOk(g, limit, r) && (r.Priced? ==> AllCost(g, ids, costs) && r.cost == Max(before, MaxN(costs)) <= limit)
  }

  lemma SumStep(g: Graph, limit: nat, ids: seq<nat>, before: nat, cost: nat, rest: seq<nat>, r: Outcome)
    requires ids != [] && HasCost(g, ids[0], cost) && SumResult(g, limit, ids[1..], before + cost, rest, r)
    ensures SumResult(g, limit, ids, before, [cost] + rest, r)
  {
    if r.Priced? { FirstCost(g, ids, cost, rest); }
  }

  lemma LargestStep(g: Graph, limit: nat, ids: seq<nat>, before: nat, cost: nat, rest: seq<nat>, r: Outcome)
    requires ids != [] && HasCost(g, ids[0], cost) && LargestResult(g, limit, ids[1..], Max(cost, before), rest, r)
    ensures LargestResult(g, limit, ids, before, [cost] + rest, r)
  {
    if r.Priced? { FirstCost(g, ids, cost, rest); }
  }

  lemma {:induction false} SumOk(g: Graph, limit: nat, stack: seq<nat>, memo: Memo, ids: seq<nat>, total: nat, before: nat)
    returns (costs: seq<nat>)
    requires Closed(g) && MemoOk(g, limit, memo) && Continue(g, stack, ids) && total == Capped(before, limit)
    ensures SumResult(g, limit, ids, before, costs, SumOf(g, limit, stack, memo, ids, total))
    decreases Fresh(g, stack), 2, |ids|
  {
    costs := [];
    if ids != [] {
      CostOk(g, limit, stack, memo, ids[0]);
      var first := Cost(g, limit, stack, memo, ids[0]);
      if first.Priced? {
        var next := BoundedAdd(total, first.cost, limit);
        BoundedAddIsCapped(before, first.cost, limit);
        var rest := SumOk(g, limit, stack, first.memo, ids[1..], next, before + first.cost);
        SumStep(g, limit, ids, before, first.cost, rest, SumOf(g, limit, stack, first.memo, ids[1..], next));
        costs := [first.cost] + rest;
      }
    }
  }

  lemma {:induction false} LargestOk(g: Graph, limit: nat, stack: seq<nat>, memo: Memo, ids: seq<nat>, before: nat)
    returns (costs: seq<nat>)
    requires Closed(g) && MemoOk(g, limit, memo) && Continue(g, stack, ids) && before <= limit
    ensures LargestResult(g, limit, ids, before, costs, LargestOf(g, limit, stack, memo, ids, before))
    decreases Fresh(g, stack), 2, |ids|
  {
    costs := [];
    if ids != [] {
      CostOk(g, limit, stack, memo, ids[0]);
      var first := Cost(g, limit, stack, memo, ids[0]);
      if first.Priced? {
        var next := Max(first.cost, before);
        var rest := LargestOk(g, limit, stack, first.memo, ids[1..], next);
        LargestStep(g, limit, ids, before, first.cost, rest, LargestOf(g, limit, stack, first.memo, ids[1..], next));
        costs := [first.cost] + rest;
      }
    }
  }

  // ---------- Acyclic graphs unfold ----------

  lemma {:induction false} AcyclicUnfolds(g: Graph, stack: seq<nat>, id: nat) returns (t: Tree)
    requires Closed(g) && Acyclic(g) && id < |g| && IsPath(g, stack + [id])
    ensures Unfolds(g, id, t)
    decreases Fresh(g, stack), 1, 0
  {
    if id in stack { CycleOnStack(g, stack, id); }
    var path := stack + [id];
    FreshShrinks(g, stack, id);
    ChildrenContinue(g, stack, id);
    var always := AcyclicUnfoldsAll(g, path, Always(g[id]));
    var alternatives := AcyclicUnfoldsAll(g, path, Alternatives(g[id]));
    t := Tree(id, always, alternatives);
  }

  lemma {:induction false} AcyclicUnfoldsAll(g: Graph, stack: seq<nat>, ids: seq<nat>) returns (ts: seq<Tree>)
    requires Closed(g) && Acyclic(g) && Continue(g, stack, ids)
    ensures UnfoldAll(g, ids, ts)
    decreases Fresh(g, stack), 2, |ids|
  {
    if ids == [] {
      ts := [];
    } else {
      var t := AcyclicUnfolds(g, stack, ids[0]);
      var rest := AcyclicUnfoldsAll(g, stack, ids[1..]);
      ts := [t] + rest;
    }
  }

  // ---------- Main result ----------

  /** Every location's full unfolding is finite and within the limit. */
  ghost predicate Bounded(g: Graph, limit: nat) {
    && Acyclic(g)
    && forall id, t :: 0 <= id < |g| && Unfolds(g, id, t) ==> Visits(t) <= limit
  }

  /** The whole analysis: locations in order, sharing one memo. */
  function CheckAll(g: Graph, limit: nat): Outcome
    requires Closed(g)
  {
    LargestOf(g, limit, [], map[], seq(|g|, i => i), 0)
  }

  /** The analysis accepts exactly when the same-instance graph is acyclic and
      every location's fully unfolded visit count is within the limit, although
      it shares work and adds with saturation. */
  lemma CheckExactly(g: Graph, limit: nat)
    requires Closed(g)
    ensures CheckAll(g, limit).Priced? <==> Bounded(g, limit)
  {
    var ids := seq(|g|, i => i);
    var costs := LargestOk(g, limit, [], map[], ids, 0);
    match CheckAll(g, limit)
    case Cyclic(path) =>
    case TooCostly(id) =>
      var c: nat :| HasCost(g, id, c) && c > limit;
      var t :| Unfolds(g, id, t) && Visits(t) == c;
    case Priced(_, _) => AcceptedIsBounded(g, limit, costs);
  }

  lemma AcceptedIsBounded(g: Graph, limit: nat, costs: seq<nat>)
    requires AllCost(g, seq(|g|, i => i), costs) && MaxN(costs) <= limit
    ensures Bounded(g, limit)
  {
    var ids := seq(|g|, i => i);
    forall path ensures !IsCycle(g, path) {
      if IsCycle(g, path) {
        assert Linked(g, path, 0);
        assert HasCost(g, ids[path[0]], costs[path[0]]);
        var t :| Unfolds(g, path[0], t);
        CycleHasNoUnfolding(g, path, t);
      }
    }
    forall id, t | 0 <= id < |g| && Unfolds(g, id, t) ensures Visits(t) <= limit {
      assert HasCost(g, ids[id], costs[id]);
      CostUnique(g, id, costs[id], Visits(t));
      LargestMember(costs, id);
    }
  }

  lemma {:induction false} LargestMember(costs: seq<nat>, i: nat)
    requires i < |costs|
    ensures costs[i] <= MaxN(costs)
  {
    if i > 0 { LargestMember(costs[1..], i - 1); }
  }

  /** Acyclic graphs do have the unfoldings that the bound speaks about. */
  lemma EveryLocationUnfolds(g: Graph, id: nat) returns (t: Tree)
    requires Closed(g) && Acyclic(g) && id < |g|
    ensures Unfolds(g, id, t)
  {
    assert IsPath(g, [] + [id]);
    t := AcyclicUnfolds(g, [], id);
  }

  // ---------- Renamed graphs ----------

  predicate Sent(a: seq<nat>, b: seq<nat>, f: seq<nat>) {
    |a| == |b| && forall i :: 0 <= i < |a| ==> a[i] < |f| && b[i] == f[a[i]]
  }

  predicate SentNode(n: Node, m: Node, f: seq<nat>) {
    Sent(Always(n), Always(m), f) && Sent(Alternatives(n), Alternatives(m), f)
  }

  predicate RenamedAt(g: Graph, h: Graph, f: seq<nat>, i: nat) {
    i < |f| == |g| && f[i] < |h| && SentNode(g[i], h[f[i]], f)
  }

  /** `f` sends every location of `g` to one of `h` with the same edges. */
  predicate Renames(g: Graph, h: Graph, f: seq<nat>) {
    |f| == |g| && forall i :: 0 <= i < |g| ==> RenamedAt(g, h, f, i)
  }

  lemma {:induction false} SendTree(g: Graph, h: Graph, f: seq<nat>, t: Tree) returns (u: Tree)
    requires Renames(g, h, f) && IsUnfolding(g, t)
    ensures t.id < |f| && IsUnfolding(h, u) && u.id == f[t.id] && Visits(u) == Visits(t)
    decreases t, 1
  {
    var n := g[t.id];
    assert RenamedAt(g, h, f, t.id);
    var always := SendTrees(g, h, f, Always(n), Always(h[f[t.id]]), t.always);
    var alternatives := SendTrees(g, h, f, Alternatives(n), Alternatives(h[f[t.id]]), t.alternatives);
    u := Tree(f[t.id], always, alternatives);
  }

  lemma {:induction false} SendTrees(g: Graph, h: Graph, f: seq<nat>, a: seq<nat>, b: seq<nat>, ts: seq<Tree>) returns (us: seq<Tree>)
    requires Renames(g, h, f) && Sent(a, b, f) && UnfoldAll(g, a, ts)
    ensures UnfoldAll(h, b, us) && Total(us) == Total(ts) && Largest(us) == Largest(ts)
    decreases ts, 0
  {
    if ts == [] {
      us := [];
    } else {
      var u := SendTree(g, h, f, ts[0]);
      var rest := SendTrees(g, h, f, a[1..], b[1..], ts[1..]);
      us := [u] + rest;
      assert us[1..] == rest;
    }
  }

  lemma OnPath(g: Graph, h: Graph, f: seq<nat>, path: seq<nat>, i: nat)
    requires Renames(g, h, f) && |path| >= 2 && IsPath(g, path) && i < |path|
    ensures path[i] < |f|
  {
    var k := if i == 0 then 0 else i - 1;
    assert Linked(g, path, k);
    SendEdge(g, h, f, path[k], path[k + 1]);
  }

  lemma SendLink(g: Graph, h: Graph, f: seq<nat>, path: seq<nat>, sent: seq<nat>, i: nat)
    requires Renames(g, h, f) && i + 1 < |path| == |sent| && Linked(g, path, i)
    requires path[i] < |f| && path[i + 1] < |f| && sent[i] == f[path[i]] && sent[i + 1] == f[path[i + 1]]
    ensures Linked(h, sent, i)
  {
    SendEdge(g, h, f, path[i], path[i + 1]);
  }

  lemma SendCycle(g: Graph, h: Graph, f: seq<nat>, path: seq<nat>)
    requires Renames(g, h, f) && IsCycle(g, path)
    ensures !Acyclic(h)
  {
    forall i | 0 <= i < |path| ensures path[i] < |f| { OnPath(g, h, f, path, i); }
    var sent := seq(|path|, i requires 0 <= i < |path| => f[path[i]]);
    forall i | 0 <= i < |sent| - 1 ensures Linked(h, sent, i) {
      assert Linked(g, path, i);
      SendLink(g, h, f, path, sent, i);
    }
    assert IsCycle(h, sent);
  }

  lemma SendEdge(g: Graph, h: Graph, f: seq<nat>, a: nat, b: nat)
    requires Renames(g, h, f) && Edge(g, a, b)
    ensures a < |f| && b < |f| && Edge(h, f[a], f[b])
  {
    assert RenamedAt(g, h, f, a);
    var n, m := g[a], h[f[a]];
    if b in Always(n) {
      var i :| 0 <= i < |Always(n)| && Always(n)[i] == b;
      assert Always(m)[i] == f[b];
    } else {
      var i :| 0 <= i < |Alternatives(n)| && Alternatives(n)[i] == b;
      assert Alternatives(m)[i] == f[b];
    }
  }

  /** A graph is bounded if it can be renamed into a bounded one. */
  lemma RenamedIsBounded(g: Graph, h: Graph, f: seq<nat>, limit: nat)
    requires Renames(g, h, f) && Bounded(h, limit)
    ensures Bounded(g, limit)
  {
    forall path ensures !IsCycle(g, path) { if IsCycle(g, path) { SendCycle(g, h, f, path); } }
    forall id, t | 0 <= id < |g| && Unfolds(g, id, t) ensures Visits(t) <= limit {
      var u := SendTree(g, h, f, t);
      assert Unfolds(h, f[id], u);
    }
  }

  // ---------- The analysis as the program runs it ----------

  datatype Mark = Unvisited | Active | Done

  class Analysis {
    const g: Graph
    const limit: nat
    var state: seq<Mark>
    var memo: seq<nat>
    ghost var stack: seq<nat>
    ghost var costs: Memo

    /** Active locations are on the stack, finished ones in the memo. */
    ghost predicate Valid()
      reads this
    {
      && Closed(g) && |state| == |memo| == |g|
      && (forall id :: 0 <= id < |g| ==> (state[id] == Active <==> id in stack))
      && (forall id :: 0 <= id < |g| ==> (state[id] == Done <==> id in costs))
      && (forall id :: id in costs ==> id < |g| && costs[id] == memo[id])
    }

    constructor (g: Graph, limit: nat)
      requires Closed(g)
      ensures Valid() && this.g == g && this.limit == limit && stack == [] && costs == map[]
    {
      this.g, this.limit := g, limit;
      state := seq(|g|, i => Unvisited);
      memo := seq(|g|, i => 0);
      stack, costs := [], map[];
    }

    /** The object agrees with the functional outcome `r` of the same call. */
    ghost predicate Agrees(r: Outcome, ok: bool, cost: nat, path: seq<nat>)
      reads this
    {
      ok == r.Priced? && (ok ==> Valid() && cost == r.cost && costs == r.memo && stack == path)
    }

    method CostOf(id: nat) returns (ok: bool, cost: nat)
      requires Valid() && id < |g|
      modifies this
      ensures Agrees(Cost(g, limit, old(stack), old(costs), id), ok, cost, old(stack))
      decreases Fresh(g, stack), 1, 0
    {
      if state[id] == Active { return false, 0; }
      if state[id] == Done { return true, memo[id]; }
      FreshShrinks(g, stack, id);
      ghost var path := stack;
      state := state[id := Active];
      stack := stack + [id];
      var total, largest;
      ok, total := Sum(Always(g[id]), 1);
      if !ok { return false, 0; }
      ok, largest := LargestCost(Alternatives(g[id]), 0);
      if !ok { return false, 0; }
      total := BoundedAdd(total, largest, limit);
      if total > limit { return false, 0; }
      state := state[id := Done];
      memo := memo[id := total];
      stack, costs := path, costs[id := total];
      cost := total;
    }

    method Sum(ids: seq<nat>, start: nat) returns (ok: bool, total: nat)
      requires Valid() && Within(g, ids)
      modifies this
      ensures Agrees(SumOf(g, limit, old(stack), old(costs), ids, start), ok, total, old(stack))
      decreases Fresh(g, stack), 2, |ids|
    {
      total := start;
      ghost var whole := SumOf(g, limit, stack, costs, ids, start);
      for i := 0 to |ids|
        invariant Valid() && stack == old(stack)
        invariant whole == SumOf(g, limit, stack, costs, ids[i..], total)
      {
        assert ids[i..][0] == ids[i] && ids[i..][1..] == ids[i + 1..];
        var cost;
        ok, cost := CostOf(ids[i]);
        if !ok { return false, 0; }
        total := BoundedAdd(total, cost, limit);
      }
      ok := true;
    }

    method LargestCost(ids: seq<nat>, start: nat) returns (ok: bool, largest: nat)
      requires Valid() && Within(g, ids)
      modifies this
      ensures Agrees(LargestOf(g, limit, old(stack), old(costs), ids, start), ok, largest, old(stack))
      decreases Fresh(g, stack), 2, |ids|
    {
      largest := start;
      ghost var whole := LargestOf(g, limit, stack, costs, ids, start);
      for i := 0 to |ids|
        invariant Valid() && stack == old(stack)
        invariant whole == LargestOf(g, limit, stack, costs, ids[i..], largest)
      {
        assert ids[i..][0] == ids[i] && ids[i..][1..] == ids[i + 1..];
        var cost;
        ok, cost := CostOf(ids[i]);
        if !ok { return false, 0; }
        if cost > largest { largest := cost; }
      }
      ok := true;
    }
  }

  /** The check that a schema must pass before it is compiled. */
  method CheckSameInstanceExpansion(g: Graph, limit: nat) returns (ok: bool)
    requires Closed(g)
    ensures ok <==> Bounded(g, limit)
  {
    var analysis := new Analysis(g, limit);
    var largest;
    ok, largest := analysis.LargestCost(seq(|g|, i => i), 0);
    CheckExactly(g, limit);
  }
}
