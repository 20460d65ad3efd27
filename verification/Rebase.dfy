/** Embedding a prepared schema into another document: references are rewritten
    so that they still lead to copies of their targets. */
module Rebase {
  import opened Sequences
  import opened Common
  import opened Documents
  import opened Pointers
  import opened SchemaGraph
  import opened ReferenceWriting
  import opened HiddenTargets
  import D = Decimals

  /** Where the schema goes: below `base`, hidden copies under `name`. */
  datatype Embedding = Embedding(base: Tokens, name: string, owners: map<nat, nat>, roots: seq<nat>)

  function EntryName(k: nat): string { "n" + D.Natural(k) }

  function EntryIndex(roots: seq<nat>, owner: nat): (k: nat)
    requires owner in roots
    ensures k < |roots| && roots[k] == owner
  {
    if roots[0] == owner then 0 else 1 + EntryIndex(roots[1..], owner)
  }

  /** Where a location goes, relative to the embedded root. */
  function Placed(nodes: Nodes, e: Embedding, id: nat): Tokens
    requires id < |nodes| && (Hidden(nodes, id) ==> Owned(nodes, e.owners, e.roots, id))
  {
    if nodes[id].primary then nodes[id].tokens
    else
      var owner := e.owners[id];
      [e.name, EntryName(EntryIndex(e.roots, owner))] + nodes[id].tokens[|nodes[owner].tokens|..]
  }

  function Location(nodes: Nodes, e: Embedding, id: nat): Tokens
    requires id < |nodes| && (Hidden(nodes, id) ==> Owned(nodes, e.owners, e.roots, id))
  {
    e.base + Placed(nodes, e, id)
  }

  function WithoutDialect(v: Json): Json {
    if v.Obj? then Obj(v.members - {"$schema"}) else v
  }

  /** The value of a location as it is embedded: the root loses its dialect. */
  function Published(n: Node): Json {
    if n.tokens == [] then WithoutDialect(n.value) else n.value
  }

  // ---------- One copy ----------

  /** A copy of `original`, which lies at `prefix`, and the locations that are
      rewritten inside it. */
  datatype Copy = Copy(original: Json, prefix: Tokens, members: set<nat>)

  ghost predicate CopyOk(nodes: Nodes, c: Copy) {
    forall i :: i in c.members ==> Within(nodes, c, i)
  }

  ghost predicate Within(nodes: Nodes, c: Copy, i: nat) {
    && i < |nodes| && c.prefix <= nodes[i].tokens
    && At(c.original, nodes[i].tokens[|c.prefix|..]) == Some(Published(nodes[i]))
  }

  function Relative(nodes: Nodes, c: Copy, i: nat): Tokens
    requires i < |nodes| && c.prefix <= nodes[i].tokens
  {
    nodes[i].tokens[|c.prefix|..]
  }

  ghost function Place(nodes: Nodes, c: Copy, i: nat): Path
    requires Within(nodes, c, i)
  {
    Locate(c.original, Relative(nodes, c, i))
  }

  /** Embeddings under which every location has a place. */
  ghost predicate Sound(nodes: Nodes, e: Embedding) {
    OwnersOk(nodes, e.owners, e.roots)
  }

  /** The new reference text of a location that has a reference. */
  function NewRef(nodes: Nodes, e: Embedding, i: nat): string
    requires i < |nodes| && RefOk(nodes, nodes[i]) && nodes[i].ref.Some? && Sound(nodes, e)
  {
    FragmentReference(Location(nodes, e, nodes[i].ref.value))
  }

  ghost predicate Rewrites(nodes: Nodes, e: Embedding, c: Copy, i: nat, t: Table)
    requires Resolved(nodes) && Sound(nodes, e) && Within(nodes, c, i)
  {
    nodes[i].ref.Some? ==> Place(nodes, c, i) in t && t[Place(nodes, c, i)] == NewRef(nodes, e, i)
  }

  /** What the rewriting relies on: references are resolved, locations distinct. */
  ghost predicate Resolved(nodes: Nodes) {
    && DistinctTokens(nodes)
    && (forall i :: 0 <= i < |nodes| ==> RefOk(nodes, nodes[i]))
  }

  ghost predicate IsSite(nodes: Nodes, c: Copy, limit: nat, i: nat, p: Path)
    requires CopyOk(nodes, c)
  {
    i in c.members && i < limit && nodes[i].ref.Some? && Place(nodes, c, i) == p
  }

  ghost predicate HasSite(nodes: Nodes, c: Copy, limit: nat, p: Path)
    requires CopyOk(nodes, c)
  {
    exists i :: IsSite(nodes, c, limit, i, p)
  }

  /** The table holds the new reference of every member below `limit`, and
      nothing else. */
  ghost predicate TableFor(nodes: Nodes, e: Embedding, c: Copy, limit: nat, t: Table)
    requires Resolved(nodes) && Sound(nodes, e) && CopyOk(nodes, c)
  {
    && (forall i :: i in c.members && i < limit ==> Rewrites(nodes, e, c, i, t))
    && (forall p :: p in t ==> HasSite(nodes, c, limit, p))
  }

  lemma PublishedRef(nodes: Nodes, i: nat)
    requires Resolved(nodes) && i < |nodes|
    ensures nodes[i].ref.Some? <==> HasRef(Some(Published(nodes[i])))
    ensures nodes[i].ref.Some? ==> Published(nodes[i]).members["$ref"] == nodes[i].value.members["$ref"]
  {
    assert RefOk(nodes, nodes[i]);
  }

  /** Two spellings of one place carry one reference. */
  lemma SamePlaceSameRef(nodes: Nodes, c: Copy, i: nat, j: nat)
    requires Resolved(nodes) && Within(nodes, c, i) && Within(nodes, c, j)
    requires Place(nodes, c, i) == Place(nodes, c, j)
    ensures nodes[i].ref == nodes[j].ref
  {
    FollowLocate(c.original, Relative(nodes, c, i));
    FollowLocate(c.original, Relative(nodes, c, j));
    PublishedRef(nodes, i);
    PublishedRef(nodes, j);
    assert RefOk(nodes, nodes[i]) && RefOk(nodes, nodes[j]);
    assert Published(nodes[i]) == Published(nodes[j]);
  }

  lemma TableSites(nodes: Nodes, e: Embedding, c: Copy, limit: nat, t: Table)
    requires Resolved(nodes) && Sound(nodes, e) && CopyOk(nodes, c) && TableFor(nodes, e, c, limit, t)
    ensures SitesOk(c.original, [], t)
  {
    forall p | p in t ensures HasRef(Follow(c.original, p[0..])) {
      assert HasSite(nodes, c, limit, p);
      var i :| IsSite(nodes, c, limit, i, p);
      assert p[0..] == p;
      FollowLocate(c.original, Relative(nodes, c, i));
      PublishedRef(nodes, i);
    }
  }

  lemma MoreSites(nodes: Nodes, c: Copy, a: nat, b: nat, p: Path)
    requires CopyOk(nodes, c) && HasSite(nodes, c, a, p) && a <= b
    ensures HasSite(nodes, c, b, p)
  {
    var i :| IsSite(nodes, c, a, i, p);
    assert IsSite(nodes, c, b, i, p);
  }

  lemma StillRewrites(nodes: Nodes, e: Embedding, c: Copy, i: nat, j: nat, t: Table)
    requires Resolved(nodes) && Sound(nodes, e) && Within(nodes, c, i) && Within(nodes, c, j) && nodes[i].ref.Some?
    requires Rewrites(nodes, e, c, j, t)
    ensures Rewrites(nodes, e, c, j, t[Place(nodes, c, i) := NewRef(nodes, e, i)])
  {
    if Place(nodes, c, j) == Place(nodes, c, i) { SamePlaceSameRef(nodes, c, i, j); }
  }

  lemma TableStep(nodes: Nodes, e: Embedding, c: Copy, i: nat, next: nat, t: Table, t': Table)
    requires Resolved(nodes) && Sound(nodes, e) && CopyOk(nodes, c) && TableFor(nodes, e, c, i, t)
    requires i in c.members && nodes[i].ref.Some? && next == i + 1
    requires t' == t[Place(nodes, c, i) := NewRef(nodes, e, i)]
    ensures TableFor(nodes, e, c, next, t')
  {
    assert Within(nodes, c, i);
    forall j | j in c.members && j < next ensures Rewrites(nodes, e, c, j, t') {
      assert Within(nodes, c, j);
      if j < i {
        assert Rewrites(nodes, e, c, j, t);
        StillRewrites(nodes, e, c, i, j, t);
      }
    }
    assert IsSite(nodes, c, next, i, Place(nodes, c, i));
    forall q | q in t' ensures HasSite(nodes, c, next, q) {
      if q != Place(nodes, c, i) { MoreSites(nodes, c, i, next, q); }
    }
  }

  lemma TableSkip(nodes: Nodes, e: Embedding, c: Copy, i: nat, next: nat, t: Table)
    requires Resolved(nodes) && Sound(nodes, e) && CopyOk(nodes, c) && TableFor(nodes, e, c, i, t)
    requires i !in c.members || nodes[i].ref.None?
    requires next == i + 1
    ensures TableFor(nodes, e, c, next, t)
  {
    forall j | j in c.members && j < next ensures Rewrites(nodes, e, c, j, t) { assert Within(nodes, c, j); }
    forall q | q in t ensures HasSite(nodes, c, next, q) { MoreSites(nodes, c, i, next, q); }
  }

  /** Write one member's reference. */
  lemma WriteOne(nodes: Nodes, e: Embedding, c: Copy, i: nat, t: Table, t': Table)
    requires Resolved(nodes) && Sound(nodes, e) && CopyOk(nodes, c) && TableFor(nodes, e, c, i, t)
    requires i in c.members && nodes[i].ref.Some?
    requires Within(nodes, c, i) && t' == t[Place(nodes, c, i) := NewRef(nodes, e, i)]
    ensures PutRef(Rewritten(c.original, [], t), Relative(nodes, c, i), NewRef(nodes, e, i)) == Some(Rewritten(c.original, [], t'))
    ensures TableFor(nodes, e, c, i + 1, t')
  {
    TableSites(nodes, e, c, i, t);
    PublishedRef(nodes, i);
    PutIsRewrite(c.original, [], t, Relative(nodes, c, i), NewRef(nodes, e, i));
    FromNothing(Place(nodes, c, i));
    TableStep(nodes, e, c, i, i + 1, t, t');
  }

  /** The copy with exactly its members' references replaced. */
  ghost predicate IsCopy(nodes: Nodes, e: Embedding, c: Copy, copy: Json) {
    && Resolved(nodes) && Sound(nodes, e) && CopyOk(nodes, c)
    && exists t :: TableFor(nodes, e, c, |nodes|, t) && copy == Rewritten(c.original, [], t)
  }

  /** The rewriting loop over one copy; it never fails on a prepared graph. */
  method RewriteReferences(nodes: Nodes, e: Embedding, c: Copy) returns (r: Json)
    requires Resolved(nodes) && Sound(nodes, e) && CopyOk(nodes, c)
    ensures IsCopy(nodes, e, c, r)
  {
    r := c.original;
    ghost var t: Table := map[];
    RewriteNothing(c.original, []);
    for id := 0 to |nodes|
      invariant r == Rewritten(c.original, [], t) && TableFor(nodes, e, c, id, t)
    {
      if id in c.members && nodes[id].ref.Some? {
        assert Within(nodes, c, id);
        assert RefOk(nodes, nodes[id]);
        ghost var more := t[Place(nodes, c, id) := NewRef(nodes, e, id)];
        WriteOne(nodes, e, c, id, t, more);
        var next := PutRef(r, Relative(nodes, c, id), NewRef(nodes, e, id));
        t, r := more, next.value;
      } else {
        TableSkip(nodes, e, c, id, id + 1, t);
      }
    }
  }

  // ---------- The copies of an embedding ----------

  ghost function PrimaryCopy(root: Json, nodes: Nodes): Copy {
    Copy(WithoutDialect(root), [], set i: nat | i < |nodes| && nodes[i].primary)
  }

  function HiddenCopy(nodes: Nodes, e: Embedding, owner: nat): Copy
    requires owner < |nodes|
  {
    Copy(nodes[owner].value, nodes[owner].tokens, set i | i in e.owners && e.owners[i] == owner)
  }

  lemma RootIsPrimary(root: Json, nodes: Nodes, i: nat)
    requires Prepared(root, nodes) && i < |nodes|
    ensures nodes[0].primary && nodes[0].value == root && (nodes[i].tokens == [] <==> i == 0)
  {
    assert GrammarPath(nodes, [0]) && [0][|[0]| - 1] == 0;
    assert Structural(nodes, 0);
    assert Located(root, nodes, 0);
  }

  lemma AtWithoutDialect(v: Json, tokens: Tokens)
    requires IsSchema(v) && HeaderOk(v) && tokens != [] && At(v, tokens).Some? && IsSchema(At(v, tokens).value)
    ensures At(WithoutDialect(v), tokens) == At(v, tokens)
  {
  }

  lemma AtBelow(v: Json, p: Tokens, q: Tokens)
    requires p <= q && At(v, p).Some?
    ensures At(At(v, p).value, q[|p|..]) == At(v, q)
  {
    AtConcat(v, p, q[|p|..]);
    assert p + q[|p|..] == q;
  }

  /** No location passes through the dialect declaration. */
  lemma DialectIsOutside(root: Json, nodes: Nodes, i: nat)
    requires Prepared(root, nodes) && i < |nodes|
    ensures At(WithoutDialect(root), nodes[i].tokens) == Some(Published(nodes[i]))
  {
    RootIsPrimary(root, nodes, i);
    assert Located(root, nodes, i) && Located(root, nodes, 0) && HeaderOk(nodes[0].value);
    if nodes[i].tokens != [] { AtWithoutDialect(root, nodes[i].tokens); }
  }

  lemma PrimaryCopyOk(root: Json, nodes: Nodes)
    requires Prepared(root, nodes)
    ensures CopyOk(nodes, PrimaryCopy(root, nodes))
  {
    var c := PrimaryCopy(root, nodes);
    forall i | i in c.members ensures Within(nodes, c, i) { DialectIsOutside(root, nodes, i); }
  }

  lemma HiddenCopyOk(root: Json, nodes: Nodes, e: Embedding, owner: nat)
    requires Prepared(root, nodes) && Sound(nodes, e) && owner in e.roots
    ensures CopyOk(nodes, HiddenCopy(nodes, e, owner))
  {
    var c := HiddenCopy(nodes, e, owner);
    forall i | i in c.members ensures Within(nodes, c, i) {
      assert Owned(nodes, e.owners, e.roots, i);
      RootIsPrimary(root, nodes, i);
      assert Located(root, nodes, i) && Located(root, nodes, owner);
      AtBelow(root, nodes[owner].tokens, nodes[i].tokens);
    }
  }

  lemma PreparedIsResolved(root: Json, nodes: Nodes)
    requires Prepared(root, nodes)
    ensures Resolved(nodes)
  {
    forall i | 0 <= i < |nodes| ensures RefOk(nodes, nodes[i]) { assert Inspected(nodes, nodes[i]); }
  }

  /** The embedded schema without the hidden copies. */
  function Body(doc: Json, name: string): Json {
    if doc.Obj? then Obj(doc.members - {name}) else doc
  }

  function Names(count: nat): set<string> {
    set k | 0 <= k < count :: EntryName(k)
  }

  ghost predicate HoldsEntry(nodes: Nodes, e: Embedding, entries: map<string, Json>, k: nat)
    requires k < |e.roots|
  {
    EntryName(k) in entries && e.roots[k] < |nodes| && IsCopy(nodes, e, HiddenCopy(nodes, e, e.roots[k]), entries[EntryName(k)])
  }

  ghost predicate HoldsEntries(nodes: Nodes, e: Embedding, v: Json) {
    v.Obj? && v.members.Keys == Names(|e.roots|) && forall k :: 0 <= k < |e.roots| ==> HoldsEntry(nodes, e, v.members, k)
  }

  /** `doc` is the schema with its references rewritten, plus one copy of every
      hidden owner under a member that was free, and nothing else. */
  ghost predicate Embedded(root: Json, nodes: Nodes, e: Embedding, doc: Json) {
    && Sound(nodes, e)
    && IsCopy(nodes, e, PrimaryCopy(root, nodes), Body(doc, e.name))
    && (root.Obj? ==> e.name !in WithoutDialect(root).members)
    && (doc.Obj? && e.name in doc.members <==> e.roots != [])
    && (e.roots != [] ==> HoldsEntries(nodes, e, doc.members[e.name]))
  }

  lemma EntryNameInjective(i: nat, j: nat)
    requires EntryName(i) == EntryName(j)
    ensures i == j
  {
    assert EntryName(i)[1..] == D.Natural(i) && EntryName(j)[1..] == D.Natural(j);
  }

  /** The first `done` entries are in place. */
  ghost predicate EntriesUpTo(nodes: Nodes, e: Embedding, entries: map<string, Json>, done: nat) {
    done <= |e.roots| && entries.Keys == Names(done) && forall k :: 0 <= k < done ==> HoldsEntry(nodes, e, entries, k)
  }

  lemma AddEntry(nodes: Nodes, e: Embedding, entries: map<string, Json>, k: nat, copy: Json)
    requires k < |e.roots| && EntriesUpTo(nodes, e, entries, k) && e.roots[k] < |nodes|
    requires IsCopy(nodes, e, HiddenCopy(nodes, e, e.roots[k]), copy)
    ensures EntriesUpTo(nodes, e, entries[EntryName(k) := copy], k + 1)
  {
    var after := entries[EntryName(k) := copy];
    assert Names(k + 1) == Names(k) + {EntryName(k)};
    forall j | 0 <= j < k + 1 ensures HoldsEntry(nodes, e, after, j) {
      if j < k {
        assert HoldsEntry(nodes, e, entries, j);
        if EntryName(j) == EntryName(k) { EntryNameInjective(j, k); }
      }
    }
  }

  method HiddenEntries(root: Json, nodes: Nodes, e: Embedding) returns (entries: map<string, Json>)
    requires Prepared(root, nodes) && Sound(nodes, e)
    ensures HoldsEntries(nodes, e, Obj(entries))
  {
    PreparedIsResolved(root, nodes);
    entries := map[];
    for k := 0 to |e.roots|
      invariant EntriesUpTo(nodes, e, entries, k)
    {
      var owner := e.roots[k];
      assert owner in e.roots;
      HiddenCopyOk(root, nodes, e, owner);
      var copy := RewriteReferences(nodes, e, HiddenCopy(nodes, e, owner));
      AddEntry(nodes, e, entries, k, copy);
      entries := entries[EntryName(k) := copy];
    }
  }

  lemma ScalarHasRootOnly(root: Json, nodes: Nodes, i: nat)
    requires Prepared(root, nodes) && !root.Obj? && i < |nodes|
    ensures i == 0 && nodes[i].primary && nodes[i].ref.None? && root.Bool?
  {
    RootIsPrimary(root, nodes, i);
    assert Located(root, nodes, i) && Located(root, nodes, 0) && Inspected(nodes, nodes[0]);
  }

  lemma ScalarRoot(root: Json, nodes: Nodes, e: Embedding)
    requires Prepared(root, nodes) && !root.Obj? && e.owners == map[] && e.roots == []
    ensures Embedded(root, nodes, e, root)
  {
    PreparedIsResolved(root, nodes);
    PrimaryCopyOk(root, nodes);
    forall i: nat | i < |nodes| ensures nodes[i].primary && nodes[i].ref.None? { ScalarHasRootOnly(root, nodes, i); }
    assert Sound(nodes, e);
    RewriteNothing(root, []);
    assert TableFor(nodes, e, PrimaryCopy(root, nodes), |nodes|, map[]);
  }

  lemma CopyKeepsKeys(nodes: Nodes, e: Embedding, c: Copy, body: Json)
    requires IsCopy(nodes, e, c, body) && c.original.Obj?
    ensures body.Obj? && body.members.Keys == c.original.members.Keys
  {
  }

  lemma Assembled(root: Json, nodes: Nodes, e: Embedding, body: Json, doc: Json, entries: map<string, Json>)
    requires Prepared(root, nodes) && root.Obj? && Sound(nodes, e) && e.name !in WithoutDialect(root).members
    requires IsCopy(nodes, e, PrimaryCopy(root, nodes), body) && body.Obj?
    requires HoldsEntries(nodes, e, Obj(entries))
    requires doc == if e.roots == [] then body else Obj(body.members[e.name := Obj(entries)])
    ensures Embedded(root, nodes, e, doc)
  {
    CopyKeepsKeys(nodes, e, PrimaryCopy(root, nodes), body);
    assert Body(doc, e.name) == body by { assert Body(doc, e.name).members == body.members; }
  }

  /** Embed the prepared schema at `pointer`. */
  method Rebase(root: Json, nodes: Nodes, pointer: string, annotation: string) returns (r: Option<Json>, ghost e: Embedding)
    requires Prepared(root, nodes)
    ensures r.Some? <==> ParseLocalPointer(pointer).Some? && annotation != ""
    ensures r.Some? ==> e.base == ParseLocalPointer(pointer).value && Embedded(root, nodes, e, r.value)
  {
    var base := ParseLocalPointer(pointer);
    e := Embedding([], annotation, map[], []);
    if base.None? || annotation == "" { return None, e; }
    if !root.Obj? {
      e := Embedding(base.value, annotation, map[], []);
      ScalarRoot(root, nodes, e);
      return Some(root), e;
    }
    PreparedIsResolved(root, nodes);
    PrimaryCopyOk(root, nodes);
    var clone := WithoutDialect(root);
    var owners, roots := HiddenOwners(nodes);
    var name := CollisionFreeName(clone.members, annotation);
    var plan := Embedding(base.value, name, owners, roots);
    e := plan;
    var primary := set i: nat | i < |nodes| && nodes[i].primary;
    var body := RewriteReferences(nodes, plan, Copy(clone, [], primary));
    CopyKeepsKeys(nodes, plan, PrimaryCopy(root, nodes), body);
    var entries := HiddenEntries(root, nodes, plan);
    var doc := if roots == [] then body else Obj(body.members[name := Obj(entries)]);
    Assembled(root, nodes, plan, body, doc, entries);
    return Some(doc), e;
  }

  // ---------- What an embedding means ----------

  /** The copy that a location goes to. */
  ghost function Home(root: Json, nodes: Nodes, e: Embedding, i: nat): Copy
    requires i < |nodes| && Sound(nodes, e)
  {
    if nodes[i].primary then PrimaryCopy(root, nodes)
    else
      assert Owned(nodes, e.owners, e.roots, i);
      HiddenCopy(nodes, e, e.owners[i])
  }

  /** `v` is the value of location `i` in which exactly the references of
      locations of its copy are replaced by their new texts. */
  ghost predicate CopyOfNode(root: Json, nodes: Nodes, e: Embedding, i: nat, v: Json) {
    && i < |nodes| && Resolved(nodes) && Sound(nodes, e)
    && var c := Home(root, nodes, e, i);
       CopyOk(nodes, c) && i in c.members &&
       exists t :: TableFor(nodes, e, c, |nodes|, t) && v == Rewritten(Published(nodes[i]), Place(nodes, c, i), t)
  }

  lemma InCopy(root: Json, nodes: Nodes, e: Embedding, i: nat, copy: Json)
    requires i < |nodes| && Sound(nodes, e) && Resolved(nodes)
    requires IsCopy(nodes, e, Home(root, nodes, e, i), copy) && i in Home(root, nodes, e, i).members
    requires IsSchema(nodes[i].value)
    ensures At(copy, Relative(nodes, Home(root, nodes, e, i), i)).Some?
    ensures CopyOfNode(root, nodes, e, i, At(copy, Relative(nodes, Home(root, nodes, e, i), i)).value)
  {
    var c := Home(root, nodes, e, i);
    var t :| TableFor(nodes, e, c, |nodes|, t) && copy == Rewritten(c.original, [], t);
    TableSites(nodes, e, c, |nodes|, t);
    AtRewritten(c.original, [], t, Relative(nodes, c, i));
    FromNothing(Place(nodes, c, i));
  }

  /** The value at a location's new place, without the hidden copies. */
  function Stripped(nodes: Nodes, e: Embedding, i: nat, v: Json): Json
    requires i < |nodes|
  {
    if nodes[i].tokens == [] then Body(v, e.name) else v
  }

  lemma PrimaryPlaced(root: Json, nodes: Nodes, e: Embedding, doc: Json, i: nat)
    requires Prepared(root, nodes) && Embedded(root, nodes, e, doc) && i < |nodes| && nodes[i].primary
    ensures At(doc, nodes[i].tokens).Some?
    ensures CopyOfNode(root, nodes, e, i, Stripped(nodes, e, i, At(doc, nodes[i].tokens).value))
  {
    assert Located(root, nodes, i);
    var body := Body(doc, e.name);
    InCopy(root, nodes, e, i, body);
    assert nodes[i].tokens[0..] == nodes[i].tokens;
    if nodes[i].tokens != [] { AtBody(doc, e.name, nodes[i].tokens); }
  }

  lemma AtBody(doc: Json, name: string, tokens: Tokens)
    requires tokens != [] && At(Body(doc, name), tokens).Some?
    ensures At(doc, tokens) == At(Body(doc, name), tokens)
  {
  }

  lemma HiddenPlaced(root: Json, nodes: Nodes, e: Embedding, doc: Json, i: nat)
    requires Prepared(root, nodes) && Embedded(root, nodes, e, doc) && Hidden(nodes, i) && Owned(nodes, e.owners, e.roots, i)
    ensures At(doc, Placed(nodes, e, i)).Some?
    ensures CopyOfNode(root, nodes, e, i, At(doc, Placed(nodes, e, i)).value)
  {
    assert Located(root, nodes, i);
    var k := EntryIndex(e.roots, e.owners[i]);
    var entries := doc.members[e.name].members;
    assert HoldsEntry(nodes, e, entries, k);
    var rest := Relative(nodes, Home(root, nodes, e, i), i);
    InCopy(root, nodes, e, i, entries[EntryName(k)]);
    AtEntry(doc, e.name, EntryName(k), rest);
  }

  lemma AtEntry(doc: Json, name: string, entry: string, rest: Tokens)
    requires doc.Obj? && name in doc.members && doc.members[name].Obj? && entry in doc.members[name].members
    ensures At(doc, [name, entry] + rest) == At(doc.members[name].members[entry], rest)
  {
    assert ([name, entry] + rest)[1..] == [entry] + rest && ([entry] + rest)[1..] == rest;
  }

  /** In any document that holds the result at the embedding pointer, every
      location's new place holds its copy. */
  lemma LocationHoldsCopy(root: Json, nodes: Nodes, e: Embedding, doc: Json, outer: Json, i: nat)
    requires Prepared(root, nodes) && Embedded(root, nodes, e, doc) && At(outer, e.base) == Some(doc) && i < |nodes|
    ensures Hidden(nodes, i) ==> Owned(nodes, e.owners, e.roots, i)
    ensures At(outer, Location(nodes, e, i)).Some?
    ensures CopyOfNode(root, nodes, e, i, Stripped(nodes, e, i, At(outer, Location(nodes, e, i)).value))
  {
    assert Hidden(nodes, i) ==> Owned(nodes, e.owners, e.roots, i);
    AtConcat(outer, e.base, Placed(nodes, e, i));
    if nodes[i].primary {
      PrimaryPlaced(root, nodes, e, doc, i);
    } else {
      RootIsPrimary(root, nodes, i);
      HiddenPlaced(root, nodes, e, doc, i);
    }
  }

  /** Its reference, read back from the new text, leads to the new place of the
      original target. */
  lemma ReferenceLeadsToCopy(root: Json, nodes: Nodes, e: Embedding, doc: Json, outer: Json, i: nat)
    requires Prepared(root, nodes) && Embedded(root, nodes, e, doc) && At(outer, e.base) == Some(doc)
    requires i < |nodes| && nodes[i].ref.Some?
    ensures Resolved(nodes) && (Hidden(nodes, i) ==> Owned(nodes, e.owners, e.roots, i)) && RefOk(nodes, nodes[i])
    ensures HasRef(At(outer, Location(nodes, e, i)))
    ensures ParseLocalPointer(At(outer, Location(nodes, e, i)).value.members["$ref"].s)
         == Some(Location(nodes, e, nodes[i].ref.value))
  {
    LocationHoldsCopy(root, nodes, e, doc, outer, i);
    var v := At(outer, Location(nodes, e, i)).value;
    CopyHasNewRef(root, nodes, e, i, Stripped(nodes, e, i, v));
    ReferenceRoundTrip(Location(nodes, e, nodes[i].ref.value));
  }

  lemma CopyHasNewRef(root: Json, nodes: Nodes, e: Embedding, i: nat, v: Json)
    requires CopyOfNode(root, nodes, e, i, v) && nodes[i].ref.Some? && RefOk(nodes, nodes[i])
    ensures HasRef(Some(v)) && v.members["$ref"].s == NewRef(nodes, e, i)
  {
    var c := Home(root, nodes, e, i);
    var t :| TableFor(nodes, e, c, |nodes|, t) && v == Rewritten(Published(nodes[i]), Place(nodes, c, i), t);
    PublishedRef(nodes, i);
    assert Rewrites(nodes, e, c, i, t);
    RewrittenRef(Published(nodes[i]), Place(nodes, c, i), t);
  }

  lemma GrammarIsBelow(root: Json, nodes: Nodes, i: nat, c: nat)
    requires Prepared(root, nodes) && i < |nodes| && c in nodes[i].grammar
    ensures Below(nodes, c, i) && nodes[c].tokens != [] && (nodes[i].primary ==> nodes[c].primary)
  {
    assert Inspected(nodes, nodes[i]);
    var cs := GrammarChildren(nodes[i].value).value;
    var n :| 0 <= n < |nodes[i].grammar| && nodes[i].grammar[n] == c;
    assert nodes[c].tokens in Targets(nodes, nodes[i].grammar);
    var k :| 0 <= k < |cs| && nodes[c].tokens == nodes[i].tokens + cs[k].suffix;
    assert ChildOk(nodes[i].value, cs[k]);
    if nodes[i].primary { StructuralStep(nodes, i, c); }
  }

  /** A structural location never lands among the hidden copies. */
  lemma PrimaryOutside(root: Json, nodes: Nodes, e: Embedding, doc: Json, i: nat)
    requires Prepared(root, nodes) && Embedded(root, nodes, e, doc) && i < |nodes|
    requires nodes[i].tokens != []
    ensures nodes[i].tokens[0] != e.name
  {
    RootIsPrimary(root, nodes, i);
    DialectIsOutside(root, nodes, i);
    assert Located(root, nodes, 0);
  }

  lemma RestOfRest(a: Tokens, b: Tokens, c: Tokens)
    requires a <= b <= c
    ensures b[|a|..] + c[|b|..] == c[|a|..] && b + c[|b|..] == c
  {
    assert c == b + c[|b|..];
  }

  /** A subschema of an embedded schema is where the copy has it, unless the
      schema is hidden and the subschema is structural: then the copy keeps a
      second, unrewritten one. */
  lemma GrammarFollows(root: Json, nodes: Nodes, e: Embedding, doc: Json, i: nat, c: nat)
    requires Prepared(root, nodes) && Embedded(root, nodes, e, doc) && i < |nodes| && c in nodes[i].grammar
    ensures Below(nodes, c, i)
    ensures (Hidden(nodes, i) ==> Owned(nodes, e.owners, e.roots, i)) && (Hidden(nodes, c) ==> Owned(nodes, e.owners, e.roots, c))
    ensures Location(nodes, e, c) == Location(nodes, e, i) + nodes[c].tokens[|nodes[i].tokens|..]
       <==> !(Hidden(nodes, i) && nodes[c].primary)
  {
    GrammarIsBelow(root, nodes, i, c);
    var rest := nodes[c].tokens[|nodes[i].tokens|..];
    assert Hidden(nodes, i) ==> Owned(nodes, e.owners, e.roots, i);
    assert Hidden(nodes, c) ==> Owned(nodes, e.owners, e.roots, c);
    if nodes[i].primary {
      RestOfRest([], nodes[i].tokens, nodes[c].tokens);
      Regroup(e.base, nodes[i].tokens, rest);
    } else {
      var owner := e.owners[i];
      var entry := [e.name, EntryName(EntryIndex(e.roots, owner))];
      RestOfRest(nodes[owner].tokens, nodes[i].tokens, nodes[c].tokens);
      var inner := nodes[i].tokens[|nodes[owner].tokens|..];
      Regroup(e.base, entry + inner, rest);
      Regroup(entry, inner, rest);
      if nodes[c].primary {
        PrimaryOutside(root, nodes, e, doc, c);
        assert Location(nodes, e, c)[|e.base|] == nodes[c].tokens[0];
        assert (Location(nodes, e, i) + rest)[|e.base|] == e.name;
      } else {
        OwnerIsShallowest(nodes, e.owners, e.roots, c, i);
      }
    }
  }

  /** A location of the owner's copy has that very place. */
  ghost predicate Claims(nodes: Nodes, e: Embedding, owner: nat, spot: Path, n: nat)
    requires owner < |nodes| && CopyOk(nodes, HiddenCopy(nodes, e, owner))
  {
    var c := HiddenCopy(nodes, e, owner);
    n in c.members && Place(nodes, c, n) == spot
  }

  ghost predicate Claimed(nodes: Nodes, e: Embedding, owner: nat, spot: Path)
    requires owner < |nodes| && CopyOk(nodes, HiddenCopy(nodes, e, owner))
  {
    exists n :: Claims(nodes, e, owner, spot, n)
  }

  /** The tokens of a location from its owner on. */
  function FromOwner(nodes: Nodes, owner: nat, c: nat): Tokens
    requires Below(nodes, c, owner)
  {
    nodes[c].tokens[|nodes[owner].tokens|..]
  }

  /** A subschema of a hidden schema lies inside its owner. */
  lemma SubschemaInOwner(root: Json, nodes: Nodes, e: Embedding, i: nat, c: nat)
    requires Prepared(root, nodes) && Sound(nodes, e) && Hidden(nodes, i) && Owned(nodes, e.owners, e.roots, i)
    requires c in nodes[i].grammar
    ensures Below(nodes, c, i) && Below(nodes, c, e.owners[i]) && nodes[c].tokens != []
    ensures CopyOk(nodes, HiddenCopy(nodes, e, e.owners[i]))
    ensures At(nodes[e.owners[i]].value, FromOwner(nodes, e.owners[i], c)) == Some(nodes[c].value)
  {
    GrammarIsBelow(root, nodes, i, c);
    var owner := e.owners[i];
    assert owner in e.roots;
    HiddenCopyOk(root, nodes, e, owner);
    assert Located(root, nodes, owner) && Located(root, nodes, c);
    AtBelow(root, nodes[owner].tokens, nodes[c].tokens);
  }

  /** The text of a subschema's reference inside a hidden copy is the new one if
      a location of that copy has its place, and the old one otherwise. */
  lemma ReferenceInHiddenCopy(root: Json, nodes: Nodes, e: Embedding, doc: Json, outer: Json, i: nat, c: nat)
    requires Prepared(root, nodes) && Embedded(root, nodes, e, doc) && At(outer, e.base) == Some(doc)
    requires Hidden(nodes, i) && Owned(nodes, e.owners, e.roots, i) && c in nodes[i].grammar
    requires c < |nodes| && nodes[c].ref.Some? && RefOk(nodes, nodes[c])
    ensures Below(nodes, c, i) && Below(nodes, c, e.owners[i]) && CopyOk(nodes, HiddenCopy(nodes, e, e.owners[i]))
    ensures At(nodes[e.owners[i]].value, FromOwner(nodes, e.owners[i], c)).Some?
    ensures var v := At(outer, Location(nodes, e, i) + nodes[c].tokens[|nodes[i].tokens|..]);
            var spot := Locate(nodes[e.owners[i]].value, FromOwner(nodes, e.owners[i], c));
            && HasRef(v)
            && v.value.members["$ref"].s ==
                 if Claimed(nodes, e, e.owners[i], spot) then NewRef(nodes, e, c) else nodes[c].value.members["$ref"].s
  {
    SubschemaInOwner(root, nodes, e, i, c);
    var copy := HiddenEntryOf(root, nodes, e, doc, outer, i, c);
    CopiedReference(root, nodes, e, e.owners[i], c, FromOwner(nodes, e.owners[i], c), copy);
  }

  /** So a subschema's reference inside a hidden copy leads to the new place of
      its target exactly when a location of the copy has its place, or embedding
      does not move the target. */
  lemma ReferenceInHiddenCopyExactly(root: Json, nodes: Nodes, e: Embedding, doc: Json, outer: Json, i: nat, c: nat)
    requires Prepared(root, nodes) && Embedded(root, nodes, e, doc) && At(outer, e.base) == Some(doc)
    requires Hidden(nodes, i) && Owned(nodes, e.owners, e.roots, i) && c in nodes[i].grammar
    requires c < |nodes| && nodes[c].ref.Some? && RefOk(nodes, nodes[c])
    ensures Below(nodes, c, i) && Below(nodes, c, e.owners[i]) && CopyOk(nodes, HiddenCopy(nodes, e, e.owners[i]))
    ensures At(nodes[e.owners[i]].value, FromOwner(nodes, e.owners[i], c)).Some?
    ensures var v := At(outer, Location(nodes, e, i) + nodes[c].tokens[|nodes[i].tokens|..]);
            var spot := Locate(nodes[e.owners[i]].value, FromOwner(nodes, e.owners[i], c));
            var target := nodes[c].ref.value;
            && HasRef(v)
            && (ParseLocalPointer(v.value.members["$ref"].s) == Some(Location(nodes, e, target)) <==>
                  Claimed(nodes, e, e.owners[i], spot) || nodes[target].tokens == Location(nodes, e, target))
  {
    ReferenceInHiddenCopy(root, nodes, e, doc, outer, i, c);
    ReferenceRoundTrip(Location(nodes, e, nodes[c].ref.value));
  }

  /** The copy of the owner, and where the subschema is in it. */
  lemma HiddenEntryOf(root: Json, nodes: Nodes, e: Embedding, doc: Json, outer: Json, i: nat, c: nat) returns (copy: Json)
    requires Prepared(root, nodes) && Embedded(root, nodes, e, doc) && At(outer, e.base) == Some(doc)
    requires Hidden(nodes, i) && Owned(nodes, e.owners, e.roots, i) && Below(nodes, c, i)
    ensures IsCopy(nodes, e, HiddenCopy(nodes, e, e.owners[i]), copy)
    ensures At(outer, Location(nodes, e, i) + nodes[c].tokens[|nodes[i].tokens|..])
         == At(copy, nodes[c].tokens[|nodes[e.owners[i]].tokens|..])
  {
    var owner := e.owners[i];
    var k := EntryIndex(e.roots, owner);
    var entries := doc.members[e.name].members;
    assert HoldsEntry(nodes, e, entries, k);
    copy := entries[EntryName(k)];
    var entry := [e.name, EntryName(k)];
    var inner, rest := nodes[i].tokens[|nodes[owner].tokens|..], nodes[c].tokens[|nodes[i].tokens|..];
    RestOfRest(nodes[owner].tokens, nodes[i].tokens, nodes[c].tokens);
    Regroup(e.base, entry + inner, rest);
    Regroup(entry, inner, rest);
    AtConcat(outer, e.base, entry + (inner + rest));
    AtEntry(doc, e.name, EntryName(k), inner + rest);
  }

  /** A reference at a place of a hidden copy. */
  lemma CopiedReference(root: Json, nodes: Nodes, e: Embedding, owner: nat, c: nat, q: Tokens, copy: Json)
    requires Prepared(root, nodes) && owner in e.roots && owner < |nodes| && c < |nodes|
    requires IsCopy(nodes, e, HiddenCopy(nodes, e, owner), copy)
    requires nodes[c].tokens != [] && nodes[c].ref.Some? && RefOk(nodes, nodes[c])
    requires At(nodes[owner].value, q) == Some(nodes[c].value)
    ensures HasRef(At(copy, q))
    ensures var spot := Locate(nodes[owner].value, q);
            At(copy, q).value.members["$ref"].s ==
              if Claimed(nodes, e, owner, spot) then NewRef(nodes, e, c)
              else nodes[c].value.members["$ref"].s
  {
    var h := HiddenCopy(nodes, e, owner);
    var t :| TableFor(nodes, e, h, |nodes|, t) && copy == Rewritten(h.original, [], t);
    TableSites(nodes, e, h, |nodes|, t);
    AtRewritten(h.original, [], t, q);
    var spot := Locate(h.original, q);
    FromNothing(spot);
    if Claimed(nodes, e, owner, spot) {
      var n :| Claims(nodes, e, owner, spot, n);
      assert Within(nodes, h, n);
      SamePlaceAs(nodes, h, n, c, q);
      assert Rewrites(nodes, e, h, n, t);
      RewrittenRef(nodes[c].value, spot, t);
    } else {
      if spot in t {
        assert HasSite(nodes, h, |nodes|, spot);
        var n :| IsSite(nodes, h, |nodes|, n, spot);
        assert Claims(nodes, e, owner, spot, n);
      }
      UnrewrittenRef(nodes[c].value, spot, t);
    }
  }

  lemma SamePlaceAs(nodes: Nodes, h: Copy, n: nat, c: nat, q: Tokens)
    requires Resolved(nodes) && Within(nodes, h, n) && c < |nodes| && nodes[c].tokens != [] && nodes[c].ref.Some?
    requires At(h.original, q) == Some(nodes[c].value) && Place(nodes, h, n) == Locate(h.original, q)
    ensures nodes[n].ref == nodes[c].ref
  {
    FollowLocate(h.original, q);
    FollowLocate(h.original, Relative(nodes, h, n));
    PublishedRef(nodes, n);
    PublishedRef(nodes, c);
    assert RefOk(nodes, nodes[n]) && RefOk(nodes, nodes[c]);
  }

  ghost predicate NoPrimaryBelowHidden(nodes: Nodes) {
    forall h: nat, p: nat :: Hidden(nodes, h) && p < |nodes| && nodes[p].primary ==> !Below(nodes, p, h)
  }

  /** Without structural locations below hidden ones, all subschemas follow. */
  lemma SubschemasFollow(root: Json, nodes: Nodes, e: Embedding, doc: Json, i: nat, c: nat)
    requires Prepared(root, nodes) && Embedded(root, nodes, e, doc) && NoPrimaryBelowHidden(nodes)
    requires i < |nodes| && c in nodes[i].grammar
    ensures Below(nodes, c, i)
    ensures (Hidden(nodes, i) ==> Owned(nodes, e.owners, e.roots, i)) && (Hidden(nodes, c) ==> Owned(nodes, e.owners, e.roots, c))
    ensures Location(nodes, e, c) == Location(nodes, e, i) + nodes[c].tokens[|nodes[i].tokens|..]
  {
    GrammarFollows(root, nodes, e, doc, i, c);
  }

  /** Locations under different owners are disjoint, before and after. */
  lemma HiddenCopiesDisjoint(nodes: Nodes, e: Embedding, i: nat, j: nat)
    requires Sound(nodes, e) && Hidden(nodes, i) && Hidden(nodes, j)
    requires Owned(nodes, e.owners, e.roots, i) && Owned(nodes, e.owners, e.roots, j) && e.owners[i] != e.owners[j]
    ensures !Below(nodes, i, j) && !Below(nodes, i, e.owners[j]) && !(Location(nodes, e, i) <= Location(nodes, e, j))
  {
    if Below(nodes, i, j) { OwnerIsShallowest(nodes, e.owners, e.roots, i, j); }
    var b := e.owners[j];
    assert b in e.roots;
    assert Owned(nodes, e.owners, e.roots, b);
    if Below(nodes, i, b) {
      OwnerIsShallowest(nodes, e.owners, e.roots, i, b);
      OwnerIsShallowest(nodes, e.owners, e.roots, j, b);
    }
    var k, l := EntryIndex(e.roots, e.owners[i]), EntryIndex(e.roots, e.owners[j]);
    if EntryName(k) == EntryName(l) { EntryNameInjective(k, l); }
    var n := |e.base| + 1;
    assert Location(nodes, e, i)[n] == EntryName(k) && Location(nodes, e, j)[n] == EntryName(l);
  }
}
