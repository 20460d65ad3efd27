/** Embedding and evaluation: when an embedded schema means what it meant. */
module EmbeddedMeaning {
  import opened Common
  import opened Documents
  import opened Pointers
  import opened SchemaGraph
  import opened ReferenceWriting
  import opened HiddenTargets
  import opened Rebase
  import opened SchemaMeaning
  import opened GrammarPlaces

  // ---------- References inside values ----------

  lemma FollowBelow(v: Json, p: Path, q: Path)
    requires p <= q && Follow(v, p).Some?
    ensures Follow(Follow(v, p).value, q[|p|..]) == Follow(v, q)
  {
    FollowConcat(v, p, q[|p|..]);
    assert p + q[|p|..] == q;
  }

  lemma SitesDown(v: Json, t: Table, p: Path)
    requires SitesOk(v, [], t) && Follow(v, p).Some?
    ensures SitesOk(Follow(v, p).value, p, t)
  {
    forall q | q in t && p <= q ensures HasRef(Follow(Follow(v, p).value, q[|p|..])) {
      FollowBelow(v, p, q);
      assert q[0..] == q;
    }
  }

  /** Location `j` has a reference, inside what location `i` of the same copy
      holds beside its subschemas and its own reference. */
  ghost predicate Quotes(nodes: Nodes, c: Copy, i: nat, j: nat)
    requires CopyOk(nodes, c)
  {
    && i in c.members && j in c.members && nodes[j].ref.Some? && Place(nodes, c, i) <= Place(nodes, c, j)
    && InValue(Published(nodes[i]), Place(nodes, c, j)[|Place(nodes, c, i)|..])
  }

  /** The new reference text of a location is its old one. */
  ghost predicate Unmoved(nodes: Nodes, e: Embedding, j: nat)
    requires Resolved(nodes) && Sound(nodes, e) && j < |nodes| && nodes[j].ref.Some?
  {
    assert RefOk(nodes, nodes[j]);
    nodes[j].value.members["$ref"].s == NewRef(nodes, e, j)
  }

  ghost predicate QuotationsKeep(nodes: Nodes, e: Embedding, c: Copy, i: nat)
    requires Resolved(nodes) && Sound(nodes, e) && CopyOk(nodes, c)
  {
    forall j: nat :: Quotes(nodes, c, i, j) ==> j < |nodes| && Unmoved(nodes, e, j)
  }

  lemma SiteText(nodes: Nodes, e: Embedding, c: Copy, i: nat, j: nat, t: Table)
    requires Resolved(nodes) && Sound(nodes, e) && Within(nodes, c, i) && Within(nodes, c, j) && nodes[j].ref.Some?
    requires Place(nodes, c, i) <= Place(nodes, c, j) && Rewrites(nodes, e, c, j, t)
    ensures TextAt(Published(nodes[i]), Place(nodes, c, i), t, Place(nodes, c, j)) <==> Unmoved(nodes, e, j)
  {
    FollowLocate(c.original, Relative(nodes, c, i));
    FollowLocate(c.original, Relative(nodes, c, j));
    FollowBelow(c.original, Place(nodes, c, i), Place(nodes, c, j));
    PublishedRef(nodes, j);
  }

  lemma QuotedTexts(nodes: Nodes, e: Embedding, c: Copy, i: nat, t: Table)
    requires Resolved(nodes) && Sound(nodes, e) && CopyOk(nodes, c) && TableFor(nodes, e, c, |nodes|, t) && i in c.members
    requires Within(nodes, c, i)
    ensures InnerTexts(Published(nodes[i]), Place(nodes, c, i), t) <==> QuotationsKeep(nodes, e, c, i)
  {
    var v, here := Published(nodes[i]), Place(nodes, c, i);
    if InnerTexts(v, here, t) {
      forall j: nat | Quotes(nodes, c, i, j) ensures j < |nodes| && Unmoved(nodes, e, j) {
        assert Within(nodes, c, j) && Rewrites(nodes, e, c, j, t);
        SiteText(nodes, e, c, i, j, t);
      }
    }
    if QuotationsKeep(nodes, e, c, i) {
      forall p | p in t && here <= p && InValue(v, p[|here|..]) ensures TextAt(v, here, t, p) {
        assert HasSite(nodes, c, |nodes|, p);
        var j :| IsSite(nodes, c, |nodes|, j, p);
        assert Within(nodes, c, j) && Rewrites(nodes, e, c, j, t);
        assert Quotes(nodes, c, i, j);
        SiteText(nodes, e, c, i, j, t);
      }
    }
  }

  /** The table behind a location's copy. */
  lemma CopyTable(root: Json, nodes: Nodes, e: Embedding, i: nat, v: Json) returns (t: Table)
    requires CopyOfNode(root, nodes, e, i, v)
    ensures Within(nodes, Home(root, nodes, e, i), i) && TableFor(nodes, e, Home(root, nodes, e, i), |nodes|, t)
    ensures var here := Place(nodes, Home(root, nodes, e, i), i);
            v == Rewritten(Published(nodes[i]), here, t) && SitesOk(Published(nodes[i]), here, t)
  {
    var c := Home(root, nodes, e, i);
    t :| TableFor(nodes, e, c, |nodes|, t) && v == Rewritten(Published(nodes[i]), Place(nodes, c, i), t);
    assert Within(nodes, c, i);
    TableSites(nodes, e, c, |nodes|, t);
    FollowLocate(c.original, Relative(nodes, c, i));
    SitesDown(c.original, t, Place(nodes, c, i));
  }

  lemma CopySubschemas(root: Json, nodes: Nodes, e: Embedding, i: nat, v: Json)
    requires CopyOfNode(root, nodes, e, i, v) && Published(nodes[i]).Obj?
    ensures v.Obj? && v.members.Keys == Published(nodes[i]).members.Keys
    ensures SameSuffixes(GrammarChildren(Published(nodes[i])), GrammarChildren(v))
  {
    var t := CopyTable(root, nodes, e, i, v);
    RewritingKeepsSubschemas(Published(nodes[i]), Place(nodes, Home(root, nodes, e, i), i), t);
  }

  /** A location's copy holds the same beside its subschemas and its reference
      exactly when every reference in there keeps its text. */
  lemma CopyBareExactly(root: Json, nodes: Nodes, e: Embedding, i: nat, v: Json)
    requires CopyOfNode(root, nodes, e, i, v) && Published(nodes[i]).Obj? && v.Obj?
    ensures Bare(v.members) == Bare(Published(nodes[i]).members) <==> QuotationsKeep(nodes, e, Home(root, nodes, e, i), i)
  {
    var c := Home(root, nodes, e, i);
    var t := CopyTable(root, nodes, e, i, v);
    BareExactly(Published(nodes[i]), Place(nodes, c, i), t);
    QuotedTexts(nodes, e, c, i, t);
  }

  /** No reference of the schema itself is rewritten inside a value. */
  lemma StructuralNeverQuoted(root: Json, nodes: Nodes, i: nat, j: nat)
    requires Prepared(root, nodes) && i < |nodes| && nodes[i].primary && CopyOk(nodes, PrimaryCopy(root, nodes))
    ensures !Quotes(nodes, PrimaryCopy(root, nodes), i, j)
  {
    if Quotes(nodes, PrimaryCopy(root, nodes), i, j) {
      assert nodes[i].tokens[0..] == nodes[i].tokens && nodes[j].tokens[0..] == nodes[j].tokens;
      StructuralOutside(root, nodes, i, j);
    }
  }

  /** So embedding keeps what structural locations hold beside their subschemas
      and references. */
  lemma StructuralValuesKept(root: Json, nodes: Nodes, e: Embedding, i: nat, v: Json)
    requires Prepared(root, nodes) && CopyOfNode(root, nodes, e, i, v) && nodes[i].primary && Published(nodes[i]).Obj?
    ensures v.Obj? && Bare(v.members) == Bare(Published(nodes[i]).members)
  {
    CopySubschemas(root, nodes, e, i, v);
    CopyBareExactly(root, nodes, e, i, v);
    StructuralKeeps(root, nodes, e, i);
  }

  lemma StructuralKeeps(root: Json, nodes: Nodes, e: Embedding, i: nat)
    requires Prepared(root, nodes) && i < |nodes| && nodes[i].primary && CopyOk(nodes, PrimaryCopy(root, nodes))
    requires Resolved(nodes) && Sound(nodes, e)
    ensures QuotationsKeep(nodes, e, PrimaryCopy(root, nodes), i)
  {
    forall j: nat ensures !Quotes(nodes, PrimaryCopy(root, nodes), i, j) { StructuralNeverQuoted(root, nodes, i, j); }
  }

  // ---------- The two readings ----------

  /** Location `i` reads the same, `n` levels deep, in the original and where it
      has been embedded. */
  ghost predicate MeansTheSame(root: Json, nodes: Nodes, e: Embedding, outer: Json, i: nat, n: nat)
    requires i < |nodes| && Sound(nodes, e)
  {
    assert Hidden(nodes, i) ==> Owned(nodes, e.owners, e.roots, i);
    Unfold(outer, e.base, e.name, Location(nodes, e, i), n) == Unfold(WithoutDialect(root), [], e.name, nodes[i].tokens, n)
  }

  ghost predicate AllMeanTheSame(root: Json, nodes: Nodes, e: Embedding, outer: Json, n: nat)
    requires Sound(nodes, e)
  {
    forall c: nat :: c < |nodes| ==> MeansTheSame(root, nodes, e, outer, c, n)
  }

  lemma BodyWithout(v: Json, name: string)
    requires v.Obj? ==> name !in v.members
    ensures Body(v, name) == v
  {
    if v.Obj? { assert v.members - {name} == v.members; }
  }

  lemma OriginalView(root: Json, nodes: Nodes, e: Embedding, doc: Json, i: nat)
    requires Prepared(root, nodes) && Embedded(root, nodes, e, doc) && i < |nodes|
    ensures View(WithoutDialect(root), [], e.name, nodes[i].tokens) == Some(Published(nodes[i]))
  {
    DialectIsOutside(root, nodes, i);
    BodyWithout(WithoutDialect(root), e.name);
  }

  lemma EmbeddedView(root: Json, nodes: Nodes, e: Embedding, doc: Json, outer: Json, i: nat) returns (v: Json)
    requires Prepared(root, nodes) && Embedded(root, nodes, e, doc) && At(outer, e.base) == Some(doc) && i < |nodes|
    ensures Hidden(nodes, i) ==> Owned(nodes, e.owners, e.roots, i)
    ensures View(outer, e.base, e.name, Location(nodes, e, i)) == Some(v) && CopyOfNode(root, nodes, e, i, v)
  {
    LocationHoldsCopy(root, nodes, e, doc, outer, i);
    RootIsPrimary(root, nodes, i);
    v := Stripped(nodes, e, i, At(outer, Location(nodes, e, i)).value);
    AtBase(e.base, Placed(nodes, e, i));
  }

  lemma AtBase(base: Tokens, rest: Tokens)
    ensures base + rest == base <==> rest == []
  {
    if base + rest == base { assert |base + rest| == |base| + |rest|; }
  }

  lemma ScalarCopy(root: Json, nodes: Nodes, e: Embedding, i: nat, v: Json)
    requires CopyOfNode(root, nodes, e, i, v) && Published(nodes[i]).Bool?
    ensures v == Published(nodes[i])
  {
  }

  // ---------- One level ----------

  /** The location of a subschema, and where both documents have it. */
  lemma PartSame(root: Json, nodes: Nodes, e: Embedding, doc: Json, outer: Json, i: nat, s: Tokens, n: nat)
    requires Prepared(root, nodes) && Embedded(root, nodes, e, doc) && NoPrimaryBelowHidden(nodes) && i < |nodes|
    requires nodes[i].tokens + s in Places(nodes[i].tokens, GrammarChildren(nodes[i].value).value)
    requires AllMeanTheSame(root, nodes, e, outer, n)
    ensures Hidden(nodes, i) ==> Owned(nodes, e.owners, e.roots, i)
    ensures Unfold(outer, e.base, e.name, Location(nodes, e, i) + s, n)
         == Unfold(WithoutDialect(root), [], e.name, nodes[i].tokens + s, n)
  {
    var c := ChildAt(root, nodes, i, nodes[i].tokens + s);
    SubschemasFollow(root, nodes, e, doc, i, c);
    assert (nodes[i].tokens + s)[|nodes[i].tokens|..] == s;
    assert MeansTheSame(root, nodes, e, outer, c, n);
  }

  lemma ChildAt(root: Json, nodes: Nodes, i: nat, p: Tokens) returns (c: nat)
    requires Prepared(root, nodes) && i < |nodes| && p in Places(nodes[i].tokens, GrammarChildren(nodes[i].value).value)
    ensures c in nodes[i].grammar && c < |nodes| && nodes[c].tokens == p
  {
    assert Inspected(nodes, nodes[i]);
    assert p in Targets(nodes, nodes[i].grammar);
    var k :| 0 <= k < |nodes[i].grammar| && nodes[nodes[i].grammar[k]].tokens == p;
    c := nodes[i].grammar[k];
  }

  /** What a location refers to, in both documents. */
  lemma TargetsSame(root: Json, nodes: Nodes, e: Embedding, i: nat, v: Json)
    requires Prepared(root, nodes) && CopyOfNode(root, nodes, e, i, v) && Published(nodes[i]).Obj?
    requires v.Obj? && v.members.Keys == Published(nodes[i]).members.Keys
    ensures nodes[i].ref.None? ==> Refers(v.members).None? && Refers(Published(nodes[i]).members).None?
    ensures nodes[i].ref.Some? ==>
      && nodes[i].ref.value < |nodes| && Refers(Published(nodes[i]).members) == Some(nodes[nodes[i].ref.value].tokens)
      && Refers(v.members) == Some(Location(nodes, e, nodes[i].ref.value))
  {
    PublishedRef(nodes, i);
    assert RefOk(nodes, nodes[i]);
    if nodes[i].ref.Some? {
      CopyHasNewRef(root, nodes, e, i, v);
      ReferenceRoundTrip(Location(nodes, e, nodes[i].ref.value));
    }
  }

  lemma Listed(base: Tokens, cs: seq<Child>, ds: seq<Child>)
    requires SameSuffixes(Some(cs), Some(ds))
    ensures forall k :: 0 <= k < |ds| ==> base + ds[k].suffix in Places(base, cs)
  {
    forall k | 0 <= k < |ds| ensures base + ds[k].suffix in Places(base, cs) { assert ds[k].suffix == cs[k].suffix; }
  }

  lemma SuffixesTrans(a: Found, b: Found, c: Found)
    requires SameSuffixes(a, b) && SameSuffixes(b, c)
    ensures SameSuffixes(a, c)
  {
  }

  /** The subschemas of a location, as both documents list them. */
  lemma SuffixesSame(root: Json, nodes: Nodes, e: Embedding, i: nat, v: Json)
    requires Prepared(root, nodes) && CopyOfNode(root, nodes, e, i, v) && Published(nodes[i]).Obj? && v.Obj?
    ensures GrammarChildren(v).Some? && GrammarChildren(Published(nodes[i])).Some?
    ensures SameSuffixes(GrammarChildren(Published(nodes[i])), GrammarChildren(v))
    ensures forall k :: 0 <= k < |GrammarChildren(v).value| ==>
      nodes[i].tokens + GrammarChildren(v).value[k].suffix in Places(nodes[i].tokens, GrammarChildren(nodes[i].value).value)
  {
    assert Inspected(nodes, nodes[i]);
    CopySubschemas(root, nodes, e, i, v);
    PublishedSubschemas(nodes[i]);
    SuffixesTrans(GrammarChildren(nodes[i].value), GrammarChildren(Published(nodes[i])), GrammarChildren(v));
    Listed(nodes[i].tokens, GrammarChildren(nodes[i].value).value, GrammarChildren(v).value);
  }

  // ---------- All levels ----------

  lemma PartsSame(a: Json, aBase: Tokens, here: Tokens, cs: seq<Child>, b: Json, bBase: Tokens, there: Tokens, ds: seq<Child>,
                  name: string, n: nat)
    requires SameSuffixes(Some(cs), Some(ds))
    requires forall k :: 0 <= k < |cs| ==>
      Unfold(a, aBase, name, here + cs[k].suffix, n) == Unfold(b, bBase, name, there + cs[k].suffix, n)
    ensures Parts(a, aBase, name, here, cs, n) == Parts(b, bBase, name, there, ds, n)
  {
  }

  lemma ListedMeanTheSame(root: Json, nodes: Nodes, e: Embedding, doc: Json, outer: Json, i: nat, cs: seq<Child>, ds: seq<Child>, n: nat)
    requires Prepared(root, nodes) && Embedded(root, nodes, e, doc) && NoPrimaryBelowHidden(nodes) && i < |nodes|
    requires AllMeanTheSame(root, nodes, e, outer, n) && SameSuffixes(Some(cs), Some(ds))
    requires forall k :: 0 <= k < |cs| ==>
      nodes[i].tokens + cs[k].suffix in Places(nodes[i].tokens, GrammarChildren(nodes[i].value).value)
    requires Hidden(nodes, i) ==> Owned(nodes, e.owners, e.roots, i)
    ensures Parts(outer, e.base, e.name, Location(nodes, e, i), cs, n) == Parts(WithoutDialect(root), [], e.name, nodes[i].tokens, ds, n)
  {
    var here := Location(nodes, e, i);
    forall k | 0 <= k < |cs|
      ensures Unfold(outer, e.base, e.name, here + cs[k].suffix, n)
           == Unfold(WithoutDialect(root), [], e.name, nodes[i].tokens + cs[k].suffix, n)
    {
      PartSame(root, nodes, e, doc, outer, i, cs[k].suffix, n);
    }
    PartsSame(outer, e.base, here, cs, WithoutDialect(root), [], nodes[i].tokens, ds, e.name, n);
  }

  lemma TargetMeansTheSame(root: Json, nodes: Nodes, e: Embedding, outer: Json, i: nat, v: Json, n: nat)
    requires Prepared(root, nodes) && CopyOfNode(root, nodes, e, i, v) && Published(nodes[i]).Obj?
    requires v.Obj? && v.members.Keys == Published(nodes[i]).members.Keys
    requires AllMeanTheSame(root, nodes, e, outer, n)
    ensures Target(outer, e.base, e.name, Refers(v.members), n)
         == Target(WithoutDialect(root), [], e.name, Refers(Published(nodes[i]).members), n)
  {
    TargetsSame(root, nodes, e, i, v);
    if nodes[i].ref.Some? { assert MeansTheSame(root, nodes, e, outer, nodes[i].ref.value, n); }
  }

  lemma Opened(doc: Json, base: Tokens, name: string, here: Tokens, m: map<string, Json>, cs: seq<Child>, n: nat)
    requires View(doc, base, name, here) == Some(Obj(m)) && GrammarChildren(Obj(m)) == Some(cs)
    ensures Unfold(doc, base, name, here, n + 1)
         == Schema(Bare(m), Parts(doc, base, name, here, cs, n), Target(doc, base, name, Refers(m), n))
  {
  }

  lemma ObjectSame(root: Json, nodes: Nodes, e: Embedding, doc: Json, outer: Json, i: nat, v: Json, n: nat)
    requires Prepared(root, nodes) && Embedded(root, nodes, e, doc) && CopyOfNode(root, nodes, e, i, v)
    requires NoPrimaryBelowHidden(nodes) && Published(nodes[i]).Obj?
    requires QuotationsKeep(nodes, e, Home(root, nodes, e, i), i) && AllMeanTheSame(root, nodes, e, outer, n)
    requires Hidden(nodes, i) ==> Owned(nodes, e.owners, e.roots, i)
    requires View(outer, e.base, e.name, Location(nodes, e, i)) == Some(v)
    requires View(WithoutDialect(root), [], e.name, nodes[i].tokens) == Some(Published(nodes[i]))
    ensures MeansTheSame(root, nodes, e, outer, i, n + 1)
  {
    var w := Published(nodes[i]);
    CopySubschemas(root, nodes, e, i, v);
    SuffixesSame(root, nodes, e, i, v);
    var cs, ds := GrammarChildren(v).value, GrammarChildren(w).value;
    Opened(outer, e.base, e.name, Location(nodes, e, i), v.members, cs, n);
    Opened(WithoutDialect(root), [], e.name, nodes[i].tokens, w.members, ds, n);
    CopyBareExactly(root, nodes, e, i, v);
    ListedMeanTheSame(root, nodes, e, doc, outer, i, cs, ds, n);
    TargetMeansTheSame(root, nodes, e, outer, i, v, n);
  }

  lemma ConstantSame(root: Json, nodes: Nodes, e: Embedding, outer: Json, i: nat, v: Json, n: nat)
    requires CopyOfNode(root, nodes, e, i, v) && Published(nodes[i]).Bool?
    requires Hidden(nodes, i) ==> Owned(nodes, e.owners, e.roots, i)
    requires View(outer, e.base, e.name, Location(nodes, e, i)) == Some(v)
    requires View(WithoutDialect(root), [], e.name, nodes[i].tokens) == Some(Published(nodes[i]))
    ensures MeansTheSame(root, nodes, e, outer, i, n + 1)
  {
    ScalarCopy(root, nodes, e, i, v);
  }

  lemma PublishedIsSchema(root: Json, nodes: Nodes, i: nat)
    requires Prepared(root, nodes) && i < |nodes|
    ensures IsSchema(Published(nodes[i]))
  {
    assert Located(root, nodes, i);
  }

  lemma LevelSame(root: Json, nodes: Nodes, e: Embedding, doc: Json, outer: Json, i: nat, n: nat)
    requires Prepared(root, nodes) && Embedded(root, nodes, e, doc) && At(outer, e.base) == Some(doc) && i < |nodes|
    requires NoPrimaryBelowHidden(nodes) && CopyOk(nodes, Home(root, nodes, e, i)) && Resolved(nodes)
    requires QuotationsKeep(nodes, e, Home(root, nodes, e, i), i) && AllMeanTheSame(root, nodes, e, outer, n)
    ensures MeansTheSame(root, nodes, e, outer, i, n + 1)
  {
    OriginalView(root, nodes, e, doc, i);
    var v := EmbeddedView(root, nodes, e, doc, outer, i);
    PublishedIsSchema(root, nodes, i);
    if Published(nodes[i]).Bool? {
      ConstantSame(root, nodes, e, outer, i, v, n);
    } else {
      ObjectSame(root, nodes, e, doc, outer, i, v, n);
    }
  }

  // ---------- Exactly when embedding keeps the meaning ----------

  ghost predicate AllQuotationsKeep(root: Json, nodes: Nodes, e: Embedding)
    requires Resolved(nodes) && Sound(nodes, e)
  {
    forall i: nat :: i < |nodes| ==>
      CopyOk(nodes, Home(root, nodes, e, i)) && QuotationsKeep(nodes, e, Home(root, nodes, e, i), i)
  }

  lemma HomeOk(root: Json, nodes: Nodes, e: Embedding, i: nat)
    requires Prepared(root, nodes) && Sound(nodes, e) && i < |nodes|
    ensures CopyOk(nodes, Home(root, nodes, e, i))
  {
    if nodes[i].primary {
      PrimaryCopyOk(root, nodes);
    } else {
      assert Owned(nodes, e.owners, e.roots, i);
      HiddenCopyOk(root, nodes, e, e.owners[i]);
    }
  }

  lemma NothingRead(root: Json, nodes: Nodes, e: Embedding, outer: Json, n: nat)
    requires Sound(nodes, e) && n == 0
    ensures AllMeanTheSame(root, nodes, e, outer, n)
  {
    forall i: nat | i < |nodes| ensures MeansTheSame(root, nodes, e, outer, i, n) {}
  }

  /** The embedded schema, and no reference rewritten inside a value. */
  ghost predicate Faithful(root: Json, nodes: Nodes, e: Embedding, doc: Json, outer: Json) {
    && Prepared(root, nodes) && Embedded(root, nodes, e, doc) && At(outer, e.base) == Some(doc) && NoPrimaryBelowHidden(nodes)
    && Resolved(nodes) && AllQuotationsKeep(root, nodes, e)
  }

  lemma NextLevel(root: Json, nodes: Nodes, e: Embedding, doc: Json, outer: Json, n: nat, next: nat)
    requires Faithful(root, nodes, e, doc, outer) && AllMeanTheSame(root, nodes, e, outer, n) && next == n + 1
    ensures AllMeanTheSame(root, nodes, e, outer, next)
  {
    forall i: nat | i < |nodes| ensures MeansTheSame(root, nodes, e, outer, i, next) {
      LevelSame(root, nodes, e, doc, outer, i, n);
    }
  }

  lemma {:induction false} Climb(p: nat -> bool, n: nat)
    requires p(0) && forall k: nat, next: nat :: next == k + 1 && p(k) ==> p(next)
    ensures p(n)
  {
    if n > 0 { Climb(p, n - 1); }
  }

  lemma KeptMeaning(root: Json, nodes: Nodes, e: Embedding, doc: Json, outer: Json, n: nat)
    requires Faithful(root, nodes, e, doc, outer)
    ensures AllMeanTheSame(root, nodes, e, outer, n)
  {
    var p := (k: nat) => AllMeanTheSame(root, nodes, e, outer, k);
    NothingRead(root, nodes, e, outer, 0);
    forall k: nat, next: nat | next == k + 1 && p(k) ensures p(next) { NextLevel(root, nodes, e, doc, outer, k, next); }
    Climb(p, n);
    assert p(n);
  }

  lemma SameBare(a: Json, aBase: Tokens, here: Tokens, v: map<string, Json>, b: Json, bBase: Tokens, there: Tokens, w: map<string, Json>,
                 name: string, n: nat)
    requires View(a, aBase, name, here) == Some(Obj(v)) && View(b, bBase, name, there) == Some(Obj(w))
    requires GrammarChildren(Obj(v)).Some? && GrammarChildren(Obj(w)).Some?
    requires Unfold(a, aBase, name, here, n + 1) == Unfold(b, bBase, name, there, n + 1)
    ensures Bare(v) == Bare(w)
  {
    Opened(a, aBase, name, here, v, GrammarChildren(Obj(v)).value, n);
    Opened(b, bBase, name, there, w, GrammarChildren(Obj(w)).value, n);
  }

  lemma ObjectTells(root: Json, nodes: Nodes, e: Embedding, outer: Json, i: nat, v: Json, n: nat)
    requires Prepared(root, nodes) && CopyOfNode(root, nodes, e, i, v) && Published(nodes[i]).Obj?
    requires Hidden(nodes, i) ==> Owned(nodes, e.owners, e.roots, i)
    requires View(outer, e.base, e.name, Location(nodes, e, i)) == Some(v)
    requires View(WithoutDialect(root), [], e.name, nodes[i].tokens) == Some(Published(nodes[i]))
    requires MeansTheSame(root, nodes, e, outer, i, n + 1)
    ensures QuotationsKeep(nodes, e, Home(root, nodes, e, i), i)
  {
    var w := Published(nodes[i]);
    CopySubschemas(root, nodes, e, i, v);
    SuffixesSame(root, nodes, e, i, v);
    SameBare(outer, e.base, Location(nodes, e, i), v.members, WithoutDialect(root), [], nodes[i].tokens, w.members, e.name, n);
    CopyBareExactly(root, nodes, e, i, v);
  }

  lemma MeaningTells(root: Json, nodes: Nodes, e: Embedding, doc: Json, outer: Json, i: nat, n: nat)
    requires Prepared(root, nodes) && Embedded(root, nodes, e, doc) && At(outer, e.base) == Some(doc) && i < |nodes|
    requires Resolved(nodes) && CopyOk(nodes, Home(root, nodes, e, i)) && Published(nodes[i]).Obj?
    requires MeansTheSame(root, nodes, e, outer, i, n + 1)
    ensures QuotationsKeep(nodes, e, Home(root, nodes, e, i), i)
  {
    OriginalView(root, nodes, e, doc, i);
    var v := EmbeddedView(root, nodes, e, doc, outer, i);
    ObjectTells(root, nodes, e, outer, i, v, n);
  }

  lemma AllTell(root: Json, nodes: Nodes, e: Embedding, doc: Json, outer: Json, n: nat, next: nat)
    requires Prepared(root, nodes) && Embedded(root, nodes, e, doc) && At(outer, e.base) == Some(doc) && Resolved(nodes)
    requires AllMeanTheSame(root, nodes, e, outer, next) && next == n + 1
    ensures AllQuotationsKeep(root, nodes, e)
  {
    forall i: nat | i < |nodes|
      ensures CopyOk(nodes, Home(root, nodes, e, i)) && QuotationsKeep(nodes, e, Home(root, nodes, e, i), i)
    {
      HomeOk(root, nodes, e, i);
      assert MeansTheSame(root, nodes, e, outer, i, next);
      if Published(nodes[i]).Obj? { MeaningTells(root, nodes, e, doc, outer, i, n); }
    }
  }

  /** The reference of hidden location `j` is inside a value of hidden location
      `i`, in the copy of their common owner, and does not keep its text. */
  ghost predicate Misquoted(root: Json, nodes: Nodes, e: Embedding, i: nat, j: nat)
    requires Resolved(nodes) && Sound(nodes, e)
  {
    && Hidden(nodes, i) && CopyOk(nodes, Home(root, nodes, e, i)) && Quotes(nodes, Home(root, nodes, e, i), i, j)
    && j < |nodes| && !Unmoved(nodes, e, j)
  }

  lemma NotMisquoted(root: Json, nodes: Nodes, e: Embedding, i: nat)
    requires Prepared(root, nodes) && Resolved(nodes) && Sound(nodes, e) && i < |nodes| && CopyOk(nodes, Home(root, nodes, e, i))
    requires forall j: nat :: !Misquoted(root, nodes, e, i, j)
    ensures QuotationsKeep(nodes, e, Home(root, nodes, e, i), i)
  {
    if nodes[i].primary {
      StructuralKeeps(root, nodes, e, i);
    } else {
      forall j: nat | Quotes(nodes, Home(root, nodes, e, i), i, j) ensures j < |nodes| && Unmoved(nodes, e, j) {
        assert !Misquoted(root, nodes, e, i, j);
      }
    }
  }

  lemma KeptOrMisquoted(root: Json, nodes: Nodes, e: Embedding)
    requires Prepared(root, nodes) && Resolved(nodes) && Sound(nodes, e)
    ensures AllQuotationsKeep(root, nodes, e) <==> forall i: nat, j: nat :: !Misquoted(root, nodes, e, i, j)
  {
    if forall i: nat, j: nat :: !Misquoted(root, nodes, e, i, j) {
      forall i: nat | i < |nodes|
        ensures CopyOk(nodes, Home(root, nodes, e, i)) && QuotationsKeep(nodes, e, Home(root, nodes, e, i), i)
      {
        HomeOk(root, nodes, e, i);
        NotMisquoted(root, nodes, e, i);
      }
    }
  }

  /** Without structural locations below hidden ones, every location reads the
      same to every depth exactly when embedding changes no reference inside a
      value of a hidden location. */
  lemma MeaningKeptExactly(root: Json, nodes: Nodes, e: Embedding, doc: Json, outer: Json)
    requires Prepared(root, nodes) && Embedded(root, nodes, e, doc) && At(outer, e.base) == Some(doc) && NoPrimaryBelowHidden(nodes)
    ensures Resolved(nodes)
    ensures (forall n :: AllMeanTheSame(root, nodes, e, outer, n)) <==> forall i: nat, j: nat :: !Misquoted(root, nodes, e, i, j)
  {
    PreparedIsResolved(root, nodes);
    KeptOrMisquoted(root, nodes, e);
    if AllQuotationsKeep(root, nodes, e) {
      forall n ensures AllMeanTheSame(root, nodes, e, outer, n) { KeptMeaning(root, nodes, e, doc, outer, n); }
    }
    if forall n :: AllMeanTheSame(root, nodes, e, outer, n) { AllTell(root, nodes, e, doc, outer, 0, 1); }
  }
}
