/** A prepared schema in which a structural location is also a subschema of a
    hidden one, so that embedding leaves one reference unrewritten. */
module TangledSchemas {
  import opened Common
  import opened Documents
  import opened Pointers
  import opened SchemaGraph
  import opened HiddenTargets
  import opened ReferenceWriting
  import opened Rebase

  function Inner(text: string): Json { Obj(map["$ref" := Str(text)]) }

  function PropertyMap(text: string): Json { Obj(map["items" := Inner(text)]) }

  function Outer(text: string): Json { Obj(map["properties" := PropertyMap(text)]) }

  /** A schema whose property `items` refers to the property map itself. */
  function Tangled(text: string): Nodes {
    [Node([], Outer(text), 1, None, [1], true, [], []),
     Node(["properties", "items"], Inner(text), 2, Some(2), [], true, [], []),
     Node(["properties"], PropertyMap(text), 3, None, [1], false, [], [])]
  }

  lemma OneName(k: string)
    ensures SortedNames({k}) == [k]
  {
    var s := SortedNames({k});
    assert s[0] in {k};
  }

  lemma BothEmpty(a: Found)
    ensures Both(Some([]), a) == a && Both(a, Some([])) == a
  {
    if a.Some? { assert [] + a.value == a.value && a.value + [] == a.value; }
  }

  predicate Absent(m: map<string, Json>, ks: seq<string>) {
    forall i :: 0 <= i < |ks| ==> ks[i] !in m
  }

  lemma {:induction false} NoKeywords(m: map<string, Json>, ks: seq<string>, lenient: bool)
    requires Absent(m, ks)
    ensures Singles(m, ks) == Lists(m, ks) == Maps(m, ks, lenient) == Some([])
  {
    if ks != [] {
      NoKeywords(m, ks[1..], lenient);
      BothEmpty(Some([]));
    }
  }

  lemma {:induction false} OneMap(m: map<string, Json>, ks: seq<string>, i: nat, k: string, c: Child)
    requires i < |ks| && Absent(m, ks[..i]) && Absent(m, ks[i + 1..])
    requires ks[i] in m && m[ks[i]].Obj? && m[ks[i]].members.Keys == {k}
    requires IsSchema(m[ks[i]].members[k]) && c == Child([ks[i], k], m[ks[i]].members[k], Plain)
    ensures Maps(m, ks, false) == Some([c])
  {
    if i > 0 {
      assert ks[..i][0] !in m;
      assert ks[1..][..i - 1] == ks[..i][1..] && ks[1..][i..] == ks[i + 1..];
      OneMap(m, ks[1..], i - 1, k, c);
      BothEmpty(Some([c]));
    } else {
      OneName(k);
      NoKeywords(m, ks[1..], false);
      assert [k][1..] == [];
      BothEmpty(Some([c]));
      assert Members(m, ks[0], [k], false) == Some([c]);
    }
  }

  lemma OnlyItems(m: map<string, Json>, a: seq<string>, b: seq<string>, c: seq<string>, d: seq<string>)
    requires Absent(m, a) && Absent(m, b) && Absent(m, c) && Absent(m, d)
    ensures ChildrenUnder(m, a, b, c, d) == Items(m)
  {
    NoKeywords(m, a, false);
    NoKeywords(m, b, false);
    NoKeywords(m, c, false);
    NoKeywords(m, d, true);
    BothEmpty(Items(m));
    BothEmpty(Some([]));
  }

  lemma OnlyMap(m: map<string, Json>, a: seq<string>, b: seq<string>, ks: seq<string>, d: seq<string>, i: nat, k: string, c: Child)
    requires Absent(m, a) && Absent(m, b) && Absent(m, d) && "items" !in m
    requires i < |ks| && Absent(m, ks[..i]) && Absent(m, ks[i + 1..])
    requires ks[i] in m && m[ks[i]].Obj? && m[ks[i]].members.Keys == {k}
    requires IsSchema(m[ks[i]].members[k]) && c == Child([ks[i], k], m[ks[i]].members[k], Plain)
    ensures ChildrenUnder(m, a, b, ks, d) == Some([c])
  {
    NoKeywords(m, a, false);
    NoKeywords(m, b, false);
    NoKeywords(m, d, true);
    OneMap(m, ks, i, k, c);
    BothEmpty(Some([c]));
  }

  predicate NotIn(k: string, ks: seq<string>) {
    forall i :: 0 <= i < |ks| ==> ks[i] != k
  }

  lemma NoSingleKeyword()
    ensures NotIn("$ref", SINGLE_KEYWORDS) && NotIn("items", SINGLE_KEYWORDS) && NotIn("properties", SINGLE_KEYWORDS)
  {
    var ks := SINGLE_KEYWORDS;
    assert ks[0][0] == 'a' && ks[1][0] == 'a' && ks[2][0] == 'c' && ks[3][0] == 'e' && ks[4][1] == 'f' && ks[5][0] == 'n'
        && |ks[6]| == 13 && ks[7][0] == 't';
    assert "$ref"[0] == '$' && "items"[0] == 'i' && "items"[1] == 't' && "properties"[0] == 'p' && |"properties"| == 10;
  }

  lemma NoOtherKeyword()
    ensures NotIn("$ref", LIST_KEYWORDS) && NotIn("items", LIST_KEYWORDS) && NotIn("properties", LIST_KEYWORDS)
    ensures NotIn("$ref", DEPENDENCY_KEYWORDS) && NotIn("items", DEPENDENCY_KEYWORDS) && NotIn("properties", DEPENDENCY_KEYWORDS)
    ensures NotIn("$ref", MAP_KEYWORDS) && NotIn("items", MAP_KEYWORDS)
    ensures MAP_KEYWORDS[1] == "properties" && NotIn("properties", MAP_KEYWORDS[..1]) && NotIn("properties", MAP_KEYWORDS[2..])
  {
    var ks, ls := LIST_KEYWORDS, MAP_KEYWORDS;
    assert ks[0][0] == 'a' && ks[1][0] == 'a' && ks[2][0] == 'o' && DEPENDENCY_KEYWORDS[0][0] == 'd';
    assert ls[0][0] == 'd' && |ls[1]| == 10 && |ls[2]| == 17;
    assert "$ref"[0] == '$' && "items"[0] == 'i' && "properties"[0] == 'p';
  }

  lemma OneMember(k: string, v: Json, ks: seq<string>)
    requires NotIn(k, ks)
    ensures Absent(map[k := v], ks)
  {
  }

  lemma ItemsOnly(k: string, v: Json)
    requires k == "$ref" || k == "items"
    ensures GrammarChildren(Obj(map[k := v])) == Items(map[k := v])
  {
    NoSingleKeyword();
    NoOtherKeyword();
    OneMember(k, v, SINGLE_KEYWORDS);
    OneMember(k, v, LIST_KEYWORDS);
    OneMember(k, v, MAP_KEYWORDS);
    OneMember(k, v, DEPENDENCY_KEYWORDS);
    OnlyItems(map[k := v], SINGLE_KEYWORDS, LIST_KEYWORDS, MAP_KEYWORDS, DEPENDENCY_KEYWORDS);
  }

  lemma PropertiesOnly(v: Json, k: string)
    requires v.Obj? && v.members.Keys == {k} && IsSchema(v.members[k])
    ensures GrammarChildren(Obj(map["properties" := v])) == Some([Child(["properties", k], v.members[k], Plain)])
  {
    NoSingleKeyword();
    NoOtherKeyword();
    var p := "properties";
    OneMember(p, v, SINGLE_KEYWORDS);
    OneMember(p, v, LIST_KEYWORDS);
    OneMember(p, v, MAP_KEYWORDS[..1]);
    OneMember(p, v, MAP_KEYWORDS[2..]);
    OneMember(p, v, DEPENDENCY_KEYWORDS);
    assert "items"[0] != p[0];
    OnlyMap(map[p := v], SINGLE_KEYWORDS, LIST_KEYWORDS, MAP_KEYWORDS, DEPENDENCY_KEYWORDS, 1, k, Child([p, k], v.members[k], Plain));
  }

  lemma TangledChildren(text: string)
    ensures GrammarChildren(Inner(text)) == Some([])
    ensures GrammarChildren(PropertyMap(text)) == Some([Child(["items"], Inner(text), Plain)])
    ensures GrammarChildren(Outer(text)) == Some([Child(["properties", "items"], Inner(text), Plain)])
  {
    ItemsOnly("$ref", Str(text));
    assert "$ref"[0] != "items"[0];
    ItemsOnly("items", Inner(text));
    PropertiesOnly(PropertyMap(text), "items");
  }

  lemma TangledLocations(text: string)
    ensures LocationsOk(Outer(text), Tangled(text))
  {
    var root, nodes := Outer(text), Tangled(text);
    StepIntoMember(root.members, "properties", []);
    StepIntoMember(root.members, "properties", ["items"]);
    StepIntoMember(PropertyMap(text).members, "items", []);
    assert ["properties"] + [] == ["properties"] && ["items"] + [] == ["items"];
    assert ["properties"] + ["items"] == ["properties", "items"];
    assert Located(root, nodes, 0) && Located(root, nodes, 1) && Located(root, nodes, 2);
  }

  lemma OneEdge(nodes: Nodes, base: Tokens, id: nat, c: Child)
    requires NodeAt(nodes, id, base + c.suffix)
    ensures Covers(nodes, base, [id], [c])
  {
    assert Targets(nodes, [id]) == {base + c.suffix} by { assert [id][0] == id; }
    assert Places(base, [c]) == {base + c.suffix} by { assert [c][0] == c; }
    assert Distinct(base, [c]) == [base + c.suffix] by { assert [c][..0] == []; }
  }

  lemma TangledCovers(text: string, i: nat, c: Child)
    requires (i == 0 && c.suffix == ["properties", "items"]) || (i == 2 && c.suffix == ["items"])
    ensures Covers(Tangled(text), Tangled(text)[i].tokens, [1], [c])
  {
    assert ["properties"] + ["items"] == ["properties", "items"] && [] + ["properties", "items"] == ["properties", "items"];
    OneEdge(Tangled(text), Tangled(text)[i].tokens, 1, c);
  }

  lemma PlainChild(c: Child)
    requires c.role == Plain
    ensures OfRole([c], Same) == [] && OfRole([c], Branch) == []
    ensures forall nodes: Nodes, base: Tokens :: Covers(nodes, base, [], [])
  {
    assert [c][..0] == [];
  }

  lemma TangledHeaders(text: string)
    ensures HeaderOk(Outer(text)) && HeaderOk(Inner(text)) && HeaderOk(PropertyMap(text))
    ensures "$ref" !in Outer(text).members && "$ref" !in PropertyMap(text).members
  {
    assert |"items"| == 5 && |"properties"| == 10 && |"$schema"| == 7 && |"$ref"| == 4 && |"$id"| == 3 && |"id"| == 2;
  }

  lemma TangledGrammar(text: string, i: nat)
    requires i < 3
    ensures GrammarOk(Tangled(text), Tangled(text)[i])
  {
    TangledChildren(text);
    if i == 0 {
      TangledCovers(text, 0, Child(["properties", "items"], Inner(text), Plain));
      PlainChild(Child(["properties", "items"], Inner(text), Plain));
    } else if i == 2 {
      TangledCovers(text, 2, Child(["items"], Inner(text), Plain));
      PlainChild(Child(["items"], Inner(text), Plain));
    }
  }

  lemma TangledReferences(text: string)
    requires ParseLocalPointer(text) == Some(["properties"])
    ensures forall i :: 0 <= i < 3 ==> RefOk(Tangled(text), Tangled(text)[i])
  {
    TangledHeaders(text);
  }

  lemma TangledInspected(text: string)
    requires ParseLocalPointer(text) == Some(["properties"])
    ensures forall i :: 0 <= i < 3 ==> Inspected(Tangled(text), Tangled(text)[i]) && HeaderOk(Tangled(text)[i].value)
  {
    TangledHeaders(text);
    TangledReferences(text);
    forall i | 0 <= i < 3 ensures GrammarOk(Tangled(text), Tangled(text)[i]) { TangledGrammar(text, i); }
  }

  lemma TangledStructural(text: string)
    ensures forall i: nat :: Structural(Tangled(text), i) <==> i < 2
  {
    var nodes := Tangled(text);
    assert GrammarPath(nodes, [0]) && [0][|[0]| - 1] == 0;
    StructuralStep(nodes, 0, 1);
    assert ClosedSet(nodes, {0, 1});
    forall i: nat | Structural(nodes, i) ensures i < 2 { StructuralStays(nodes, {0, 1}, i); }
  }

  /** The exception does occur: a prepared schema in which a structural
      location is a subschema of a hidden one. */
  lemma StructuralBelowHidden() returns (root: Json, nodes: Nodes)
    ensures Prepared(root, nodes) && |nodes| == 3 && Hidden(nodes, 2) && 1 in nodes[2].grammar && nodes[1].primary
  {
    var text := FragmentReference(["properties"]);
    ReferenceRoundTrip(["properties"]);
    root, nodes := TangledIsPrepared(text);
  }

  lemma TangledIsPrepared(text: string) returns (root: Json, nodes: Nodes)
    requires ParseLocalPointer(text) == Some(["properties"])
    ensures root == Outer(text) && nodes == Tangled(text)
    ensures Prepared(root, nodes) && |nodes| == 3 && Hidden(nodes, 2) && 1 in nodes[2].grammar && nodes[1].primary
  {
    TangledLocations(text);
    TangledInspected(text);
    TangledStructural(text);
    root, nodes := Outer(text), Tangled(text);
  }

  // ---------- What embedding does to it ----------

  /** Under any embedding the property map is the only hidden location, so
      nothing in its copy claims the place of `items`. */
  lemma TangledUnclaimed(text: string, e: Embedding)
    requires Sound(Tangled(text), e) && CopyOk(Tangled(text), HiddenCopy(Tangled(text), e, 2))
    requires At(PropertyMap(text), ["items"]).Some?
    ensures !Claimed(Tangled(text), e, 2, Locate(PropertyMap(text), ["items"]))
  {
    var nodes, c := Tangled(text), HiddenCopy(Tangled(text), e, 2);
    forall n ensures !Claims(nodes, e, 2, Locate(PropertyMap(text), ["items"]), n) {
      if n in c.members {
        assert Hidden(nodes, n);
        assert n == 2;
        assert Relative(nodes, c, 2) == [];
      }
    }
  }

  lemma TangledOwner(text: string, e: Embedding)
    requires Sound(Tangled(text), e)
    ensures Owned(Tangled(text), e.owners, e.roots, 2) && e.owners[2] == 2
  {
    var nodes := Tangled(text);
    assert Hidden(nodes, 2);
    assert Owned(nodes, e.owners, e.roots, 2);
    assert Hidden(nodes, e.owners[2]);
  }

  /** Every embedding of the tangled schema, wherever it is put, leaves the old
      reference in the hidden copy, and it does not lead to the new place of its
      target. */
  lemma TangledIsStale(text: string, e: Embedding, doc: Json, outer: Json)
    requires ParseLocalPointer(text) == Some(["properties"])
    requires Embedded(Outer(text), Tangled(text), e, doc) && At(outer, e.base) == Some(doc)
    ensures var nodes := Tangled(text);
            && Hidden(nodes, 2) && Owned(nodes, e.owners, e.roots, 2) && nodes[1].ref == Some(2)
            && var v := At(outer, Location(nodes, e, 2) + ["items"]);
            && HasRef(v) && v.value.members["$ref"].s == text
            && ParseLocalPointer(text) != Some(Location(nodes, e, 2))
  {
    var nodes := Tangled(text);
    TangledText(text, e, doc, outer);
    assert nodes[1].tokens[|nodes[2].tokens|..] == ["items"];
    assert |Location(nodes, e, 2)| >= 2;
  }

  lemma TangledText(text: string, e: Embedding, doc: Json, outer: Json)
    requires ParseLocalPointer(text) == Some(["properties"])
    requires Embedded(Outer(text), Tangled(text), e, doc) && At(outer, e.base) == Some(doc)
    ensures var nodes := Tangled(text);
            && Hidden(nodes, 2) && Owned(nodes, e.owners, e.roots, 2) && Below(nodes, 1, 2) && nodes[1].ref == Some(2)
            && var v := At(outer, Location(nodes, e, 2) + nodes[1].tokens[|nodes[2].tokens|..]);
            && HasRef(v) && v.value.members["$ref"].s == text
  {
    var root, nodes := TangledIsPrepared(text);
    TangledOwner(text, e);
    TangledReference(text);
    ReferenceInHiddenCopy(root, nodes, e, doc, outer, 2, 1);
    assert nodes[1].tokens[|nodes[2].tokens|..] == ["items"];
    TangledUnclaimed(text, e);
  }

  lemma TangledReference(text: string)
    requires ParseLocalPointer(text) == Some(["properties"])
    ensures RefOk(Tangled(text), Tangled(text)[1]) && Tangled(text)[1].ref == Some(2)
  {
    TangledInspected(text);
    assert Inspected(Tangled(text), Tangled(text)[1]);
  }

  /** Such embeddings exist for every pointer and name that embedding accepts. */
  method EmbedTangled(pointer: string, annotation: string) returns (text: string, doc: Json, ghost e: Embedding)
    requires ParseLocalPointer(pointer).Some? && annotation != ""
    ensures ParseLocalPointer(text) == Some(["properties"]) && e.base == ParseLocalPointer(pointer).value
    ensures Embedded(Outer(text), Tangled(text), e, doc)
  {
    text := FragmentReference(["properties"]);
    ReferenceRoundTrip(["properties"]);
    ghost var root, nodes := TangledIsPrepared(text);
    var r;
    r, e := Rebase.Rebase(Outer(text), Tangled(text), pointer, annotation);
    doc := r.value;
  }
}
