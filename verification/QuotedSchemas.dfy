/** A prepared schema with a reference inside a constant, which embedding
    rewrites together with the hidden schema that holds the constant. */
module QuotedSchemas {
  import opened Common
  import opened Documents
  import opened Pointers
  import opened SchemaGraph
  import opened HiddenTargets
  import opened ReferenceWriting
  import opened Rebase
  import opened TangledSchemas
  import opened SchemaMeaning
  import opened GrammarPlaces
  import opened EmbeddedMeaning

  function Referring(text: string): Json { Obj(map["$ref" := Str(text)]) }

  /** The constant is an object that looks like a reference. */
  function Holder(text: string): Json { Obj(map["const" := Referring(text)]) }

  /** Items refer into the constant, and the constant to its holder. */
  function Quoting(a: string, b: string): Json { Obj(map["items" := Referring(a), "x" := Holder(b)]) }

  function QuotingNodes(a: string, b: string): Nodes {
    [Node([], Quoting(a, b), 1, None, [1], true, [], []),
     Node(["items"], Referring(a), 2, Some(2), [], true, [], []),
     Node(["x", "const"], Referring(b), 3, Some(3), [], false, [], []),
     Node(["x"], Holder(b), 4, None, [], false, [], [])]
  }

  ghost predicate Texts(a: string, b: string) {
    ParseLocalPointer(a) == Some(["x", "const"]) && ParseLocalPointer(b) == Some(["x"])
  }

  // ---------- It is prepared ----------

  lemma NoKeywordAt(m: map<string, Json>, ks: seq<string>)
    requires forall k :: k in m ==> k !in ks
    ensures Absent(m, ks)
  {
    forall i | 0 <= i < |ks| ensures ks[i] !in m { assert ks[i] in ks; }
  }

  predicate Ungrammatical(k: string) {
    k !in SINGLE_KEYWORDS && k !in LIST_KEYWORDS && k !in MAP_KEYWORDS && k !in DEPENDENCY_KEYWORDS
  }

  lemma OnlyItemsHere(m: map<string, Json>)
    requires forall k :: k in m ==> Ungrammatical(k)
    ensures GrammarChildren(Obj(m)) == Items(m)
  {
    NoKeywordAt(m, SINGLE_KEYWORDS);
    NoKeywordAt(m, LIST_KEYWORDS);
    NoKeywordAt(m, MAP_KEYWORDS);
    NoKeywordAt(m, DEPENDENCY_KEYWORDS);
    OnlyItems(m, SINGLE_KEYWORDS, LIST_KEYWORDS, MAP_KEYWORDS, DEPENDENCY_KEYWORDS);
  }

  lemma QuotingKeywords()
    ensures Ungrammatical("x") && Ungrammatical("const") && Ungrammatical("items") && Ungrammatical("$ref")
    ensures ClassOf("const").Value?
  {
    KeywordLengths("x");
    KeywordLengths("const");
    assert LIST_KEYWORDS[0][0] == 'a' && LIST_KEYWORDS[1][0] == 'a' && LIST_KEYWORDS[2][0] == 'o';
    assert "const"[0] == 'c' && "items"[0] == 'i' && "$ref"[0] == '$';
    NoSingleKeyword();
    NoOtherKeyword();
  }

  lemma QuotingChildren(a: string, b: string)
    ensures GrammarChildren(Quoting(a, b)) == Some([Child(["items"], Referring(a), Plain)])
    ensures GrammarChildren(Holder(b)) == Some([])
    ensures forall text: string :: GrammarChildren(Referring(text)) == Some([])
  {
    QuotingKeywords();
    assert "items"[0] == 'i' && "const"[0] == 'c' && "$ref"[0] == '$';
    OnlyItemsHere(Quoting(a, b).members);
    OnlyItemsHere(Holder(b).members);
    forall text: string ensures GrammarChildren(Referring(text)) == Some([]) { OnlyItemsHere(Referring(text).members); }
  }

  lemma QuotingLocations(a: string, b: string)
    ensures LocationsOk(Quoting(a, b), QuotingNodes(a, b))
  {
    var root, nodes := Quoting(a, b), QuotingNodes(a, b);
    StepIntoMember(root.members, "items", []);
    StepIntoMember(root.members, "x", []);
    StepIntoMember(root.members, "x", ["const"]);
    StepIntoMember(Holder(b).members, "const", []);
    assert ["items"] + [] == ["items"] && ["x"] + [] == ["x"] && ["const"] + [] == ["const"] && ["x"] + ["const"] == ["x", "const"];
    assert Located(root, nodes, 0) && Located(root, nodes, 1) && Located(root, nodes, 2) && Located(root, nodes, 3);
    assert "items" != "x";
  }

  lemma QuotingHeaders(a: string, b: string)
    ensures HeaderOk(Quoting(a, b)) && HeaderOk(Holder(b)) && forall text: string :: HeaderOk(Referring(text))
    ensures "$ref" !in Quoting(a, b).members && "$ref" !in Holder(b).members
  {
    assert |"items"| == 5 && |"x"| == 1 && |"const"| == 5 && |"$schema"| == 7 && |"$ref"| == 4 && |"$id"| == 3 && |"id"| == 2;
  }

  lemma QuotingReferences(a: string, b: string)
    requires Texts(a, b)
    ensures forall i :: 0 <= i < 4 ==> RefOk(QuotingNodes(a, b), QuotingNodes(a, b)[i])
  {
    QuotingHeaders(a, b);
    var nodes := QuotingNodes(a, b);
    assert RefOk(nodes, nodes[0]) && RefOk(nodes, nodes[1]) && RefOk(nodes, nodes[2]) && RefOk(nodes, nodes[3]);
  }

  lemma QuotingRoot(a: string, b: string)
    ensures GrammarOk(QuotingNodes(a, b), QuotingNodes(a, b)[0])
  {
    var nodes, c := QuotingNodes(a, b), Child(["items"], Referring(a), Plain);
    QuotingChildren(a, b);
    PlainChild(c);
    assert [] + ["items"] == ["items"];
    OneEdge(nodes, [], 1, c);
  }

  lemma QuotingLeaf(a: string, b: string, i: nat)
    requires 1 <= i < 4
    ensures GrammarOk(QuotingNodes(a, b), QuotingNodes(a, b)[i])
  {
    QuotingChildren(a, b);
  }

  lemma QuotingInspected(a: string, b: string)
    requires Texts(a, b)
    ensures forall i :: 0 <= i < 4 ==> Inspected(QuotingNodes(a, b), QuotingNodes(a, b)[i]) && HeaderOk(QuotingNodes(a, b)[i].value)
  {
    QuotingReferences(a, b);
    QuotingHeaders(a, b);
    QuotingRoot(a, b);
    forall i | 1 <= i < 4 ensures GrammarOk(QuotingNodes(a, b), QuotingNodes(a, b)[i]) { QuotingLeaf(a, b, i); }
  }

  lemma QuotingStructural(a: string, b: string)
    ensures forall i: nat :: Structural(QuotingNodes(a, b), i) <==> i < 2
  {
    var nodes := QuotingNodes(a, b);
    assert GrammarPath(nodes, [0]) && [0][|[0]| - 1] == 0;
    StructuralStep(nodes, 0, 1);
    assert ClosedSet(nodes, {0, 1});
    forall i: nat | Structural(nodes, i) ensures i < 2 { StructuralStays(nodes, {0, 1}, i); }
  }

  lemma QuotingIsClosed(a: string, b: string)
    requires Texts(a, b)
    ensures Closed(Quoting(a, b), QuotingNodes(a, b))
  {
    QuotingLocations(a, b);
    QuotingInspected(a, b);
  }

  lemma QuotingIsPrepared(a: string, b: string)
    requires Texts(a, b)
    ensures Prepared(Quoting(a, b), QuotingNodes(a, b)) && NoPrimaryBelowHidden(QuotingNodes(a, b))
  {
    QuotingIsClosed(a, b);
    QuotingStructural(a, b);
    NothingBelow(a, b);
  }

  lemma NothingBelow(a: string, b: string)
    ensures NoPrimaryBelowHidden(QuotingNodes(a, b))
  {
    var nodes := QuotingNodes(a, b);
    assert "items"[0] != "x"[0];
    forall h: nat, p: nat | Hidden(nodes, h) && p < |nodes| && nodes[p].primary ensures !Below(nodes, p, h) {
      assert nodes[h].tokens[0] == "x";
      assert nodes[p].tokens == [] || nodes[p].tokens[0] == "items";
    }
  }

  // ---------- What embedding does to it ----------

  lemma QuotingOwners(a: string, b: string, e: Embedding)
    requires Sound(QuotingNodes(a, b), e)
    ensures Owned(QuotingNodes(a, b), e.owners, e.roots, 2) && e.owners[2] == 3
    ensures Owned(QuotingNodes(a, b), e.owners, e.roots, 3) && e.owners[3] == 3
  {
    var nodes := QuotingNodes(a, b);
    assert Hidden(nodes, 2) && Hidden(nodes, 3);
    assert Owned(nodes, e.owners, e.roots, 2) && Owned(nodes, e.owners, e.roots, 3);
    OwnerIsShallowest(nodes, e.owners, e.roots, 2, 3);
    assert Hidden(nodes, e.owners[3]) && Below(nodes, 3, e.owners[3]);
  }

  lemma QuotingQuotes(a: string, b: string, e: Embedding)
    requires Sound(QuotingNodes(a, b), e) && CopyOk(QuotingNodes(a, b), HiddenCopy(QuotingNodes(a, b), e, 3))
    ensures Quotes(QuotingNodes(a, b), HiddenCopy(QuotingNodes(a, b), e, 3), 3, 2)
  {
    var nodes := QuotingNodes(a, b);
    var c := HiddenCopy(nodes, e, 3);
    QuotingOwners(a, b, e);
    QuotingKeywords();
    assert Within(nodes, c, 2) && Within(nodes, c, 3);
    assert Relative(nodes, c, 3) == [] && Relative(nodes, c, 2) == ["const"];
    assert Locate(Holder(b), ["const"]) == [Key("const")] by { assert ["const"][1..] == []; }
    assert "const" != "$ref";
  }

  /** The new text inside the constant differs from the old one. */
  lemma QuotingMoves(a: string, b: string, e: Embedding)
    requires Texts(a, b) && Sound(QuotingNodes(a, b), e) && Resolved(QuotingNodes(a, b))
    ensures !Unmoved(QuotingNodes(a, b), e, 2)
  {
    var nodes := QuotingNodes(a, b);
    QuotingOwners(a, b, e);
    assert RefOk(nodes, nodes[2]);
    ReferenceRoundTrip(Location(nodes, e, 3));
    assert |Location(nodes, e, 3)| >= 2;
  }

  /** Wherever the schema is embedded, its meaning changes, although no
      structural location is below a hidden one. */
  lemma QuotingIsMisread(a: string, b: string, e: Embedding, doc: Json, outer: Json)
    requires Texts(a, b) && Embedded(Quoting(a, b), QuotingNodes(a, b), e, doc) && At(outer, e.base) == Some(doc)
    ensures Prepared(Quoting(a, b), QuotingNodes(a, b)) && NoPrimaryBelowHidden(QuotingNodes(a, b))
    ensures exists n :: !AllMeanTheSame(Quoting(a, b), QuotingNodes(a, b), e, outer, n)
  {
    var root, nodes := Quoting(a, b), QuotingNodes(a, b);
    QuotingIsPrepared(a, b);
    QuotingIsMisquoted(a, b, e);
    MeaningKeptExactly(root, nodes, e, doc, outer);
  }

  /** What is left of the holder: a constant with another reference in it, so
      that the original constant is no longer accepted. */
  lemma QuotingConstant(a: string, b: string, e: Embedding, doc: Json, outer: Json)
    requires Texts(a, b) && Embedded(Quoting(a, b), QuotingNodes(a, b), e, doc) && At(outer, e.base) == Some(doc)
    ensures Owned(QuotingNodes(a, b), e.owners, e.roots, 3)
    ensures var text := FragmentReference(Location(QuotingNodes(a, b), e, 3));
            At(outer, Location(QuotingNodes(a, b), e, 3)) == Some(Holder(text)) && Referring(text) != Referring(b)
  {
    var root, nodes := Quoting(a, b), QuotingNodes(a, b);
    QuotingIsPrepared(a, b);
    QuotingIsMisquoted(a, b, e);
    QuotingOwners(a, b, e);
    LocationHoldsCopy(root, nodes, e, doc, outer, 3);
    var t := CopyTable(root, nodes, e, 3, At(outer, Location(nodes, e, 3)).value);
    QuotingTable(a, b, e, t);
    RewrittenHolder(b, t);
  }

  lemma QuotingTable(a: string, b: string, e: Embedding, t: Table)
    requires Sound(QuotingNodes(a, b), e) && Resolved(QuotingNodes(a, b))
    requires CopyOk(QuotingNodes(a, b), HiddenCopy(QuotingNodes(a, b), e, 3))
    requires TableFor(QuotingNodes(a, b), e, HiddenCopy(QuotingNodes(a, b), e, 3), 4, t)
    ensures Owned(QuotingNodes(a, b), e.owners, e.roots, 3) && Place(QuotingNodes(a, b), HiddenCopy(QuotingNodes(a, b), e, 3), 3) == []
    ensures [Key("const")] in t && t[[Key("const")]] == FragmentReference(Location(QuotingNodes(a, b), e, 3))
  {
    var nodes := QuotingNodes(a, b);
    var c := HiddenCopy(nodes, e, 3);
    QuotingOwners(a, b, e);
    assert Within(nodes, c, 2) && Within(nodes, c, 3);
    assert Relative(nodes, c, 3) == [] && Relative(nodes, c, 2) == ["const"];
    assert Locate(Holder(b), ["const"]) == [Key("const")] by { assert ["const"][1..] == []; }
    assert Rewrites(nodes, e, c, 2, t);
  }

  lemma RewrittenHolder(b: string, t: Table)
    requires [Key("const")] in t
    ensures Rewritten(Holder(b), [], t) == Holder(t[[Key("const")]])
  {
    var here, m, n := [Key("const")], Holder(b).members, Referring(b).members;
    assert "const" != "$ref" && [] + here == here;
    assert RewrittenMember("$ref", n["$ref"], here, t) == Str(t[here]);
    var inner := Rewritten(Referring(b), here, t).members;
    assert inner.Keys == {"$ref"} && inner == map["$ref" := Str(t[here])];
    assert RewrittenMember("const", m["const"], [], t) == Rewritten(Referring(b), here, t);
    var outer := Rewritten(Holder(b), [], t).members;
    assert outer.Keys == {"const"} && outer == map["const" := Referring(t[here])];
  }

  lemma QuotingIsMisquoted(a: string, b: string, e: Embedding)
    requires Texts(a, b) && Sound(QuotingNodes(a, b), e) && Prepared(Quoting(a, b), QuotingNodes(a, b))
    ensures Resolved(QuotingNodes(a, b)) && Misquoted(Quoting(a, b), QuotingNodes(a, b), e, 3, 2)
  {
    var root, nodes := Quoting(a, b), QuotingNodes(a, b);
    PreparedIsResolved(root, nodes);
    QuotingOwners(a, b, e);
    HomeOk(root, nodes, e, 3);
    QuotingQuotes(a, b, e);
    QuotingMoves(a, b, e);
  }

  /** Such embeddings exist for every pointer and name that embedding accepts. */
  method EmbedQuoting(pointer: string, annotation: string) returns (a: string, b: string, doc: Json, ghost e: Embedding)
    requires ParseLocalPointer(pointer).Some? && annotation != ""
    ensures Texts(a, b) && e.base == ParseLocalPointer(pointer).value
    ensures Embedded(Quoting(a, b), QuotingNodes(a, b), e, doc)
  {
    a, b := FragmentReference(["x", "const"]), FragmentReference(["x"]);
    ReferenceRoundTrip(["x", "const"]);
    ReferenceRoundTrip(["x"]);
    QuotingIsPrepared(a, b);
    var r;
    r, e := Rebase.Rebase(Quoting(a, b), QuotingNodes(a, b), pointer, annotation);
    doc := r.value;
  }
}
