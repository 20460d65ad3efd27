/** Hidden schema locations grouped under disjoint owners, and a free name to
    hold their copies. */
module HiddenTargets {
  import opened Sequences
  import opened Common
  import opened Documents
  import opened Ordering
  import opened Pointers
  import opened SchemaGraph
  import D = Decimals

  // ---------- Sorting locations ----------

  function InsertId(x: nat, s: seq<nat>, le: (nat, nat) -> bool): seq<nat> {
    if s == [] || le(x, s[0]) then [x] + s else [s[0]] + InsertId(x, s[1..], le)
  }

  function SortIds(s: seq<nat>, le: (nat, nat) -> bool): seq<nat> {
    if s == [] then [] else InsertId(s[0], SortIds(s[1..], le), le)
  }

  predicate Ascending(s: seq<nat>, rank: nat -> nat) {
    forall i, j :: 0 <= i < j < |s| ==> rank(s[i]) <= rank(s[j])
  }

  ghost predicate Respects(le: (nat, nat) -> bool, rank: nat -> nat) {
    forall a, b :: if le(a, b) then rank(a) <= rank(b) else rank(b) <= rank(a)
  }

  lemma {:induction false} InsertIdKeeps(x: nat, s: seq<nat>, le: (nat, nat) -> bool)
    ensures multiset(InsertId(x, s, le)) == multiset(s) + multiset{x}
  {
    if s != [] && !le(x, s[0]) {
      InsertIdKeeps(x, s[1..], le);
      assert s == [s[0]] + s[1..];
    }
  }

  lemma {:induction false} InsertIdOk(x: nat, s: seq<nat>, le: (nat, nat) -> bool, rank: nat -> nat)
    requires Respects(le, rank) && Ascending(s, rank)
    ensures Ascending(InsertId(x, s, le), rank)
  {
    if s != [] && !le(x, s[0]) {
      InsertIdOk(x, s[1..], le, rank);
      InsertIdKeeps(x, s[1..], le);
      var r := InsertId(x, s[1..], le);
      forall j | 0 <= j < |r| ensures rank(s[0]) <= rank(r[j]) {
        assert r[j] in multiset(r);
        assert r[j] == x || r[j] in multiset(s[1..]);
      }
    }
  }

  lemma {:induction false} SortIdsOk(s: seq<nat>, le: (nat, nat) -> bool, rank: nat -> nat)
    ensures multiset(SortIds(s, le)) == multiset(s)
    ensures Respects(le, rank) ==> Ascending(SortIds(s, le), rank)
  {
    if s != [] {
      SortIdsOk(s[1..], le, rank);
      InsertIdKeeps(s[0], SortIds(s[1..], le), le);
      if Respects(le, rank) { InsertIdOk(s[0], SortIds(s[1..], le), le, rank); }
      assert s == [s[0]] + s[1..];
    }
  }

  lemma SortKeepsIds(s: seq<nat>, le: (nat, nat) -> bool)
    requires NoDup(s)
    ensures NoDup(SortIds(s, le)) && forall x :: x in SortIds(s, le) <==> x in s
  {
    SortIdsOk(s, le, x => 0);
    var r := SortIds(s, le);
    forall x ensures x in r <==> x in s { assert x in multiset(r) <==> x in multiset(s); }
    forall x | x in r ensures multiset(r)[x] == 1 { NoDupCounts(s, x); }
    CountsNoDup(r);
  }

  function Depth(nodes: Nodes, id: nat): nat {
    if id < |nodes| then |nodes[id].tokens| else 0
  }

  function PointerOf(nodes: Nodes, id: nat): string {
    if id < |nodes| then PointerKey(nodes[id].tokens) else ""
  }

  predicate Shallower(nodes: Nodes, a: nat, b: nat) {
    if Depth(nodes, a) != Depth(nodes, b) then Depth(nodes, a) < Depth(nodes, b) else Le(PointerOf(nodes, a), PointerOf(nodes, b))
  }

  // ---------- Owners ----------

  predicate Hidden(nodes: Nodes, id: nat) { id < |nodes| && !nodes[id].primary }

  predicate Below(nodes: Nodes, id: nat, owner: nat) {
    id < |nodes| && owner < |nodes| && nodes[owner].tokens <= nodes[id].tokens
  }

  /** No root lies below another. */
  predicate Apart(nodes: Nodes, roots: seq<nat>) {
    forall a, b :: a in roots && b in roots && a != b ==> !Below(nodes, a, b)
  }

  predicate Owned(nodes: Nodes, owners: map<nat, nat>, roots: seq<nat>, id: nat) {
    id in owners && owners[id] in roots && Below(nodes, id, owners[id])
  }

  /** Every hidden location has exactly one owner above it, and the owners'
      subtrees are disjoint. */
  ghost predicate OwnersOk(nodes: Nodes, owners: map<nat, nat>, roots: seq<nat>) {
    && NoDup(roots) && Apart(nodes, roots)
    && (forall id :: id in roots ==> Hidden(nodes, id))
    && (forall id :: id in owners ==> Hidden(nodes, id))
    && (forall id :: Hidden(nodes, id) ==> Owned(nodes, owners, roots, id))
  }

  /** State of the grouping loop after the hidden locations `done`. */
  predicate Grouping(nodes: Nodes, owners: map<nat, nat>, roots: seq<nat>, done: seq<nat>) {
    && NoDup(roots) && Apart(nodes, roots)
    && (forall id :: id in roots ==> id in done)
    && (forall id :: id in owners ==> id in done)
    && (forall id :: id in done ==> Hidden(nodes, id) && Owned(nodes, owners, roots, id))
  }

  /** A location that no root covers becomes a root: nothing shallower is left. */
  lemma NewRoot(nodes: Nodes, owners: map<nat, nat>, roots: seq<nat>, done: seq<nat>, id: nat)
    requires DistinctTokens(nodes) && Grouping(nodes, owners, roots, done) && Hidden(nodes, id) && id !in done
    requires forall x :: x in done ==> Depth(nodes, x) <= Depth(nodes, id)
    requires forall r :: r in roots ==> !Below(nodes, id, r)
    ensures Grouping(nodes, owners[id := id], roots + [id], done + [id])
  {
    forall r | r in roots ensures !Below(nodes, r, id) { assert Depth(nodes, r) <= Depth(nodes, id); }
    forall x | x in done ensures Owned(nodes, owners[id := id], roots + [id], x) {
      assert Owned(nodes, owners, roots, x);
    }
  }

  lemma OldRoot(nodes: Nodes, owners: map<nat, nat>, roots: seq<nat>, done: seq<nat>, id: nat, owner: nat)
    requires Grouping(nodes, owners, roots, done) && Hidden(nodes, id) && id !in done
    requires owner in roots && Below(nodes, id, owner)
    ensures Grouping(nodes, owners[id := owner], roots, done + [id])
  {
    forall x | x in done ensures Owned(nodes, owners[id := owner], roots, x) { assert Owned(nodes, owners, roots, x); }
  }

  method FindOwner(nodes: Nodes, roots: seq<nat>, id: nat) returns (owner: Option<nat>)
    ensures owner.Some? ==> owner.value in roots && Below(nodes, id, owner.value)
    ensures owner.None? ==> forall r :: r in roots ==> !Below(nodes, id, r)
  {
    for k := 0 to |roots|
      invariant forall r :: r in roots[..k] ==> !Below(nodes, id, r)
    {
      if Below(nodes, id, roots[k]) { return Some(roots[k]); }
    }
    return None;
  }

  method HiddenNodes(nodes: Nodes) returns (hidden: seq<nat>)
    ensures NoDup(hidden) && forall id :: id in hidden <==> Hidden(nodes, id)
  {
    hidden := [];
    for id := 0 to |nodes|
      invariant forall k :: 0 <= k < |hidden| ==> hidden[k] < id
      invariant NoDup(hidden) && forall x: nat :: x in hidden <==> x < id && Hidden(nodes, x)
    {
      if !nodes[id].primary { hidden := hidden + [id]; }
    }
  }

  /** Group the hidden locations under their shallowest members. */
  method HiddenOwners(nodes: Nodes) returns (owners: map<nat, nat>, roots: seq<nat>)
    requires DistinctTokens(nodes)
    ensures OwnersOk(nodes, owners, roots)
  {
    var unsorted := HiddenNodes(nodes);
    var le := (a: nat, b: nat) => Shallower(nodes, a, b);
    var hidden := SortIds(unsorted, le);
    ghost var rank := (id: nat) => Depth(nodes, id);
    SortIdsOk(unsorted, le, rank);
    assert Respects(le, rank);
    SortKeepsIds(unsorted, le);
    owners, roots := map[], [];
    for k := 0 to |hidden|
      invariant Grouping(nodes, owners, roots, hidden[..k])
    {
      var id := hidden[k];
      assert id in hidden;
      TakeOneMore(hidden, k);
      assert forall x :: x in hidden[..k] ==> rank(x) <= rank(id);
      var owner := FindOwner(nodes, roots, id);
      if owner.None? {
        NewRoot(nodes, owners, roots, hidden[..k], id);
        roots := roots + [id];
        owners := owners[id := id];
      } else {
        OldRoot(nodes, owners, roots, hidden[..k], id, owner.value);
        owners := owners[id := owner.value];
      }
    }
    assert hidden[..|hidden|] == hidden;
    var byPointer := (a: nat, b: nat) => Le(PointerOf(nodes, a), PointerOf(nodes, b));
    SortKeepsIds(roots, byPointer);
    ghost var grouped := roots;
    roots := SortIds(roots, byPointer);
    Regrouped(nodes, owners, grouped, roots, hidden);
  }

  lemma Regrouped(nodes: Nodes, owners: map<nat, nat>, grouped: seq<nat>, roots: seq<nat>, hidden: seq<nat>)
    requires Grouping(nodes, owners, grouped, hidden) && NoDup(roots) && forall x :: x in roots <==> x in grouped
    requires forall id :: id in hidden <==> Hidden(nodes, id)
    ensures OwnersOk(nodes, owners, roots)
  {
    forall id | Hidden(nodes, id) ensures Owned(nodes, owners, roots, id) { assert Owned(nodes, owners, grouped, id); }
  }

  /** The owner is the only root above a location, and the shallowest hidden
      location above it. */
  lemma OwnerIsShallowest(nodes: Nodes, owners: map<nat, nat>, roots: seq<nat>, id: nat, other: nat)
    requires OwnersOk(nodes, owners, roots) && Hidden(nodes, id) && Hidden(nodes, other) && Below(nodes, id, other)
    ensures owners[other] == owners[id] && Below(nodes, other, owners[id])
  {
    assert Owned(nodes, owners, roots, id) && Owned(nodes, owners, roots, other);
    var a, b := owners[id], owners[other];
    assert Below(nodes, id, b);
    if |nodes[a].tokens| <= |nodes[b].tokens| {
      assert Below(nodes, b, a);
    } else {
      assert Below(nodes, a, b);
    }
  }

  // ---------- A free annotation name ----------

  function Candidate(prefix: string, suffix: nat): string {
    prefix + "-" + D.Natural(suffix)
  }

  lemma CandidateInjective(prefix: string, i: nat, j: nat)
    requires Candidate(prefix, i) == Candidate(prefix, j)
    ensures i == j
  {
    var n := |prefix| + 1;
    assert Candidate(prefix, i)[n..] == D.Natural(i) && Candidate(prefix, j)[n..] == D.Natural(j);
  }

  predicate FirstFree(members: map<string, Json>, prefix: string, k: nat) {
    k >= 1 && Candidate(prefix, k) !in members && forall j :: 1 <= j < k ==> Candidate(prefix, j) in members
  }

  method CollisionFreeName(members: map<string, Json>, prefix: string) returns (name: string)
    ensures name !in members && (prefix !in members ==> name == prefix)
    ensures prefix in members ==> exists k :: FirstFree(members, prefix, k) && name == Candidate(prefix, k)
  {
    if prefix !in members { return prefix; }
    var suffix := 1;
    while Candidate(prefix, suffix) in members
      invariant suffix >= 1 && forall j :: 1 <= j < suffix ==> Candidate(prefix, j) in members
      decreases |members.Keys| + 1 - suffix
    {
      TriedFit(members, prefix, suffix);
      suffix := suffix + 1;
    }
    assert FirstFree(members, prefix, suffix);
    return Candidate(prefix, suffix);
  }

  function Tried(prefix: string, n: nat): set<string> {
    set j | 1 <= j < n :: Candidate(prefix, j)
  }

  lemma {:induction false} TriedSize(prefix: string, n: nat)
    requires n >= 1
    ensures |Tried(prefix, n)| == n - 1
  {
    if n == 1 {
      assert Tried(prefix, n) == {};
    } else {
      TriedSize(prefix, n - 1);
      var c := Candidate(prefix, n - 1);
      assert Tried(prefix, n) == Tried(prefix, n - 1) + {c};
      if c in Tried(prefix, n - 1) {
        var j :| 1 <= j < n - 1 && c == Candidate(prefix, j);
        CandidateInjective(prefix, n - 1, j);
      }
    }
  }

  /** Names already tried are all taken, so there are no more of them than members. */
  lemma TriedFit(members: map<string, Json>, prefix: string, suffix: nat)
    requires suffix >= 1 && forall j :: 1 <= j < suffix ==> Candidate(prefix, j) in members
    ensures suffix - 1 <= |members.Keys|
  {
    TriedSize(prefix, suffix);
    SubsetSize(Tried(prefix, suffix), members.Keys);
  }

}
