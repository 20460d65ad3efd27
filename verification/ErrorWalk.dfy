/** The bounded traversal of an error graph. Errors are nodes; a graph may be
    cyclic, and an unwrapped list may hold nil errors. */
module ErrorWalk {
  import opened Common

  type Node = nat

  type Graph = map<Node, seq<Option<Node>>>

  const MAX_NODES := 64

  function Children(g: Graph, n: Option<Node>): seq<Option<Node>> {
    if n.Some? && n.value in g then g[n.value] else []
  }

  function Take<T>(s: seq<T>, n: nat): (r: seq<T>)
    ensures |r| == if n <= |s| then n else |s|
    ensures r <= s
  {
    if n <= |s| then s[..n] else s
  }

  /** The unfolding of a forest in preorder, each tree cut at the given depth. */
  function Unfold(g: Graph, forest: seq<Option<Node>>, depth: nat): seq<Option<Node>>
    decreases depth, |forest|
  {
    if forest == [] || depth == 0 then []
    else [forest[0]] + Unfold(g, Children(g, forest[0]), depth - 1) + Unfold(g, forest[1..], depth)
  }

  /** The first `n` positions of the preorder unfolding, by a worklist. */
  function Preorder(g: Graph, work: seq<Option<Node>>, n: nat): (r: seq<Option<Node>>)
    ensures |r| <= n
    decreases n
  {
    if n == 0 || work == [] then []
    else [work[0]] + Preorder(g, Children(g, work[0]) + work[1..], n - 1)
  }

  // ---------- The worklist follows the unfolding ----------

  lemma TakeOfConcat<T>(a: seq<T>, a': seq<T>, b: seq<T>, b': seq<T>, n: nat)
    requires Take(a, n) == Take(a', n) && Take(b, n) == Take(b', n)
    ensures Take(a + b, n) == Take(a' + b', n)
  {
    assert forall i :: 0 <= i < n && i < |a| ==> Take(a, n)[i] == a[i];
    assert forall i :: 0 <= i < n && i < |a'| ==> Take(a', n)[i] == a'[i];
    assert forall i :: 0 <= i < n && i < |b| ==> Take(b, n)[i] == b[i];
    assert forall i :: 0 <= i < n && i < |b'| ==> Take(b', n)[i] == b'[i];
  }

  lemma TakeOfCons<T>(x: T, s: seq<T>, n: nat)
    requires n > 0
    ensures Take([x] + s, n) == [x] + Take(s, n - 1)
  {
  }

  /** Two trees with the same root agree up to `n` when their parts do. */
  lemma TakeOfTree<T>(x: T, a: seq<T>, a': seq<T>, b: seq<T>, b': seq<T>, n: nat)
    requires n > 0 && Take(a, n - 1) == Take(a', n - 1) && Take(b, n - 1) == Take(b', n - 1)
    ensures Take([x] + a + b, n) == Take([x] + a' + b', n) == [x] + Take(a' + b', n - 1)
  {
    TakeOfConcat(a, a', b, b', n - 1);
    TakeOfCons(x, a + b, n);
    TakeOfCons(x, a' + b', n);
    assert [x] + a + b == [x] + (a + b) && [x] + a' + b' == [x] + (a' + b');
  }

  /** Positions before `n` do not depend on where at depth `n` or below the
      unfolding is cut. */
  lemma {:induction false} DepthIrrelevant(g: Graph, forest: seq<Option<Node>>, d: nat, e: nat, n: nat)
    requires n <= d && n <= e
    ensures Take(Unfold(g, forest, d), n) == Take(Unfold(g, forest, e), n)
    decreases n, |forest|
  {
    if n > 0 && forest != [] {
      var kids, rest := Children(g, forest[0]), forest[1..];
      DepthIrrelevant(g, kids, d - 1, e - 1, n - 1);
      DepthIrrelevant(g, rest, d, e, n - 1);
      TakeOfTree(forest[0], Unfold(g, kids, d - 1), Unfold(g, kids, e - 1), Unfold(g, rest, d), Unfold(g, rest, e), n);
    }
  }

  lemma {:induction false} UnfoldConcat(g: Graph, a: seq<Option<Node>>, b: seq<Option<Node>>, d: nat)
    ensures Unfold(g, a + b, d) == Unfold(g, a, d) + Unfold(g, b, d)
    decreases |a|
  {
    if a == [] {
      assert a + b == b;
    } else {
      UnfoldConcat(g, a[1..], b, d);
      assert (a + b)[1..] == a[1..] + b;
    }
  }

  /** The worklist visits the unfolding in order. */
  lemma {:induction false} PreorderIsUnfolding(g: Graph, work: seq<Option<Node>>, n: nat, depth: nat)
    requires n <= depth
    ensures Preorder(g, work, n) == Take(Unfold(g, work, depth), n)
    decreases n
  {
    if n > 0 && work != [] {
      var kids, rest := Children(g, work[0]), work[1..];
      PreorderIsUnfolding(g, kids + rest, n - 1, depth);
      UnfoldConcat(g, kids, rest, depth);
      DepthIrrelevant(g, kids, depth - 1, depth, n - 1);
      var under := Unfold(g, rest, depth);
      TakeOfTree(work[0], Unfold(g, kids, depth - 1), Unfold(g, kids, depth), under, under, n);
    }
  }

  /** Only the first `n` entries of a worklist can be reached in `n` visits. */
  lemma {:induction false} CutIsInvisible(g: Graph, a: seq<Option<Node>>, b: seq<Option<Node>>, n: nat)
    requires Take(a, n) == Take(b, n)
    ensures Preorder(g, a, n) == Preorder(g, b, n)
    decreases n
  {
    if n > 0 && a != [] {
      assert b != [] && a[0] == Take(a, n)[0] == Take(b, n)[0] == b[0];
      assert a == [a[0]] + a[1..] && b == [b[0]] + b[1..];
      TakeOfCons(a[0], a[1..], n);
      TakeOfCons(b[0], b[1..], n);
      assert Take(a[1..], n - 1) == Take(a, n)[1..] == Take(b[1..], n - 1);
      var kids := Children(g, a[0]);
      TakeOfConcat(kids, kids, a[1..], b[1..], n - 1);
      CutIsInvisible(g, kids + a[1..], kids + b[1..], n - 1);
    }
  }

  // ---------- Walk ----------

  function Reversed<T>(s: seq<T>): (r: seq<T>)
    ensures |r| == |s| && forall i :: 0 <= i < |s| ==> r[i] == s[|s| - 1 - i]
  {
    if s == [] then [] else [s[|s| - 1]] + Reversed(s[..|s| - 1])
  }

  predicate Hits(matches: set<Node>, visits: seq<Option<Node>>) {
    exists i :: 0 <= i < |visits| && visits[i].Some? && visits[i].value in matches
  }

  /** Pushes children so that the first is popped first. */
  method Push(stack: seq<Option<Node>>, children: seq<Option<Node>>) returns (r: seq<Option<Node>>)
    ensures Reversed(r) == children + Reversed(stack)
  {
    r := stack;
    var index := |children|;
    while index > 0
      invariant 0 <= index <= |children|
      invariant Reversed(r) == children[index..] + Reversed(stack)
    {
      index := index - 1;
      r := r + [children[index]];
      assert children[index..] == [children[index]] + children[index + 1..];
      assert r[..|r| - 1] + [children[index]] == r;
    }
  }

  /** The children of an error, cut by unwrapping and to the remaining budget. */
  method Unwrapped(g: Graph, current: Option<Node>, limit: nat, remaining: nat) returns (children: seq<Option<Node>>)
    requires remaining <= limit
    ensures Take(children, remaining) == Take(Children(g, current), remaining)
    ensures current.None? ==> children == []
  {
    children := Children(g, current);
    if |children| > limit { children := children[..limit]; }
    if |children| > remaining { children := children[..remaining]; }
  }

  /** Visits positions until a match, and returns what it visited. */
  method WalkBounded(g: Graph, root: Option<Node>, matches: set<Node>, limit: nat)
    returns (found: bool, visits: seq<Option<Node>>)
    ensures root.None? ==> !found && visits == []
    ensures root.Some? ==> Visited(Preorder(g, [root], limit), matches, found, visits)
  {
    found, visits := false, [];
    if root.None? { return; }
    var stack := [root];
    var visited := 0;
    ghost var all, work := Preorder(g, [root], limit), [root];
    while |stack| > 0 && visited < limit
      invariant 0 <= visited <= limit && work == Reversed(stack)
      invariant visited <= |all| && visits == all[..visited] && all[visited..] == Preorder(g, work, limit - visited)
      invariant !Hits(matches, visits)
      decreases limit - visited
    {
      var last := |stack| - 1;
      var current := stack[last];
      assert stack == stack[..last] + [current];
      stack := stack[..last];
      ghost var rest := Reversed(stack);
      PopReversed(stack, current);
      var remaining := limit - visited - 1;
      var children := Unwrapped(g, current, limit, remaining);
      AfterVisit(g, all, visited, current, rest, children, remaining);
      HitsAppend(matches, visits, current);
      visits := visits + [current];
      if current.Some? {
        if current.value in matches {
          FirstHit(matches, visits, all[visited + 1..]);
          found := true;
          return;
        }
        stack := Push(stack, children);
      }
      visited, work := visited + 1, children + rest;
    }
    Exhausted(g, all, visited, work, limit - visited);
  }

  lemma PopReversed(stack: seq<Option<Node>>, current: Option<Node>)
    ensures Reversed(stack + [current]) == [current] + Reversed(stack)
  {
    assert (stack + [current])[..|stack|] == stack;
  }

  lemma Exhausted(g: Graph, all: seq<Option<Node>>, visited: nat, work: seq<Option<Node>>, n: nat)
    requires visited <= |all| && all[visited..] == Preorder(g, work, n) && (work == [] || n == 0)
    ensures all[..visited] == all
  {
    assert all == all[..visited] + all[visited..];
  }

  /** After a visit come the children, even cut to the budget, and then the rest. */
  lemma AfterVisit(g: Graph, all: seq<Option<Node>>, visited: nat, current: Option<Node>, rest: seq<Option<Node>>,
                   children: seq<Option<Node>>, n: nat)
    requires Take(children, n) == Take(Children(g, current), n)
    requires visited <= |all| && all[visited..] == Preorder(g, [current] + rest, n + 1)
    ensures visited < |all| && all[visited] == current && all[..visited + 1] == all[..visited] + [current]
    ensures all[visited + 1..] == Preorder(g, children + rest, n)
    ensures all == all[..visited + 1] + all[visited + 1..]
  {
    assert Preorder(g, children + rest, n) == Preorder(g, Children(g, current) + rest, n) by {
      TakeOfConcat(children, Children(g, current), rest, rest, n);
      CutIsInvisible(g, children + rest, Children(g, current) + rest, n);
    }
    assert ([current] + rest)[1..] == rest;
    NextVisit(all, visited, current, Preorder(g, children + rest, n));
  }

  lemma NextVisit(all: seq<Option<Node>>, visited: nat, current: Option<Node>, later: seq<Option<Node>>)
    requires visited <= |all| && all[visited..] == [current] + later
    ensures visited < |all| && all[visited] == current && all[..visited + 1] == all[..visited] + [current]
    ensures all[visited + 1..] == later && all == all[..visited + 1] + all[visited + 1..]
  {
    assert |all[visited..]| >= 1;
    assert all[visited..][0] == current;
    assert all[visited + 1..] == all[visited..][1..];
  }

  lemma HitsAppend(matches: set<Node>, visits: seq<Option<Node>>, n: Option<Node>)
    ensures Hits(matches, visits + [n]) == (Hits(matches, visits) || (n.Some? && n.value in matches))
  {
    var more := visits + [n];
    if Hits(matches, visits) {
      var i :| 0 <= i < |visits| && visits[i].Some? && visits[i].value in matches;
      assert more[i] == visits[i];
    }
    assert more[|visits|] == n;
  }

  lemma FirstHit(matches: set<Node>, visits: seq<Option<Node>>, todo: seq<Option<Node>>)
    requires |visits| > 0 && !Hits(matches, visits[..|visits| - 1])
    requires visits[|visits| - 1].Some? && visits[|visits| - 1].value in matches
    ensures Visited(visits + todo, matches, true, visits)
  {
    assert (visits + todo)[|visits| - 1] == visits[|visits| - 1];
  }

  /** `visits` is `all` up to its first match, or all of it without one. */
  predicate Visited(all: seq<Option<Node>>, matches: set<Node>, found: bool, visits: seq<Option<Node>>) {
    && visits <= all && found == Hits(matches, all)
    && (!found ==> visits == all)
    && (found ==> |visits| > 0 && Hits(matches, visits) && !Hits(matches, visits[..|visits| - 1]))
  }

  /** The traversal of the framework, with its budget of 64 positions. */
  method Walk(g: Graph, root: Option<Node>, matches: set<Node>) returns (found: bool, visits: seq<Option<Node>>)
    ensures root.None? ==> !found && visits == []
    ensures root.Some? ==> Visited(Take(Unfold(g, [root], MAX_NODES), MAX_NODES), matches, found, visits)
  {
    found, visits := WalkBounded(g, root, matches, MAX_NODES);
    PreorderIsUnfolding(g, [root], MAX_NODES, MAX_NODES);
  }

  /** The target occurs among the first 64 positions of the unfolding. */
  predicate Contains(g: Graph, root: Option<Node>, target: Node) {
    root.Some? && Some(target) in Take(Unfold(g, [root], MAX_NODES), MAX_NODES)
  }

  method Is(g: Graph, root: Option<Node>, target: Option<Node>) returns (r: bool)
    ensures target.None? ==> r == root.None?
    ensures target.Some? ==> r == Contains(g, root, target.value)
  {
    if target.None? { return root.None?; }
    var visits;
    r, visits := Walk(g, root, {target.value});
  }
}
