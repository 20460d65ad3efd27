/** Where structural locations can be: on paths of subschemas from the root, and
    so never inside what a schema holds beside its subschemas. */
module GrammarPlaces {
  import opened Sequences
  import opened Common
  import opened Documents
  import opened Pointers
  import opened SchemaGraph
  import opened ReferenceWriting
  import opened Rebase
  import opened SchemaMeaning
  import D = Decimals

  // ---------- Paths of subschemas ----------

  /** How many steps lead to a subschema under a keyword. */
  function Stride(m: map<string, Json>, k: string): nat
    requires k in m
  {
    if ClassOf(k).OneSchema? || (ClassOf(k).SchemaList? && !m[k].Arr?) then 1 else 2
  }

  predicate StartsSubschema(v: Json, path: Path) {
    && v.Obj? && path != [] && path[0].Key? && path[0].name in v.members && !ClassOf(path[0].name).Value?
    && Stride(v.members, path[0].name) <= |path|
    && var x := Follow(v, path[..Stride(v.members, path[0].name)]);
       x.Some? && IsSchema(x.value)
  }

  /** The path passes from subschema to subschema. */
  predicate GrammarSteps(v: Json, path: Path)
    decreases |path|
  {
    path == [] || (StartsSubschema(v, path) &&
      var n := Stride(v.members, path[0].name); GrammarSteps(Follow(v, path[..n]).value, path[n..]))
  }

  lemma TakeOfConcat(p: Path, q: Path, n: nat)
    requires n <= |p|
    ensures (p + q)[..n] == p[..n] && (p + q)[n..] == p[n..] + q
  {
  }

  lemma {:induction false} StepsFollow(v: Json, p: Path, n: nat)
    requires n <= |p| && Follow(v, p[..n]).Some?
    ensures Follow(v, p) == Follow(Follow(v, p[..n]).value, p[n..])
  {
    FollowConcat(v, p[..n], p[n..]);
    assert p[..n] + p[n..] == p;
  }

  /** A path of subschemas that continues another continues it from its end. */
  lemma {:induction false} StepsSplit(v: Json, p: Path, q: Path)
    requires GrammarSteps(v, p) && GrammarSteps(v, p + q)
    ensures Follow(v, p).Some? && GrammarSteps(Follow(v, p).value, q)
    decreases |p|
  {
    if p == [] {
      assert p + q == q;
    } else {
      assert (p + q)[0] == p[0];
      var n := Stride(v.members, p[0].name);
      TakeOfConcat(p, q, n);
      StepsFollow(v, p, n);
      StepsSplit(Follow(v, p[..n]).value, p[n..], q);
    }
  }

  lemma {:induction false} StepsConcat(v: Json, p: Path, q: Path)
    requires GrammarSteps(v, p) && Follow(v, p).Some? && GrammarSteps(Follow(v, p).value, q)
    ensures GrammarSteps(v, p + q)
    decreases |p|
  {
    if p == [] {
      assert p + q == q;
    } else {
      assert (p + q)[0] == p[0];
      var n := Stride(v.members, p[0].name);
      TakeOfConcat(p, q, n);
      StepsFollow(v, p, n);
      StepsConcat(Follow(v, p[..n]).value, p[n..], q);
    }
  }

  /** Such a path never enters a value. */
  lemma StepsOutside(v: Json, q: Path)
    requires StartsSubschema(v, q)
    ensures !InValue(v, q)
  {
    var k := q[0].name;
    if ClassOf(k).SchemaMap? {
      var x := v.members[k];
      assert q[..2] == [q[0]] + [q[1]];
      FollowConcat(v, [q[0]], [q[1]]);
      FollowOne(v, q[0]);
      FollowOne(x, q[1]);
    }
  }

  // ---------- Subschemas are such paths ----------

  predicate Shaped(m: map<string, Json>, s: Tokens) {
    s != [] && s[0] in m && !ClassOf(s[0]).Value? && |s| == Stride(m, s[0])
  }

  predicate AllShaped(m: map<string, Json>, f: Found) {
    f.Some? ==> forall k :: 0 <= k < |f.value| ==> Shaped(m, f.value[k].suffix)
  }

  predicate OfClass(ks: seq<string>, c: Class) { forall i :: 0 <= i < |ks| ==> ClassOf(ks[i]) == c }

  lemma BothShaped(m: map<string, Json>, a: Found, b: Found)
    requires AllShaped(m, a) && AllShaped(m, b)
    ensures AllShaped(m, Both(a, b))
  {
  }

  lemma {:induction false} SinglesShaped(m: map<string, Json>, ks: seq<string>)
    requires OfClass(ks, OneSchema)
    ensures AllShaped(m, Singles(m, ks))
  {
    if ks != [] {
      SinglesShaped(m, ks[1..]);
      BothShaped(m, if ks[0] in m then One(m, ks[0], SingleRole(ks[0])) else Some([]), Singles(m, ks[1..]));
    }
  }

  lemma {:induction false} ElementsShaped(m: map<string, Json>, k: string, from: nat, role: Role)
    requires k in m && m[k].Arr? && from <= |m[k].items| && ClassOf(k).SchemaList?
    ensures AllShaped(m, Elements(m, k, from, role))
    decreases |m[k].items| - from
  {
    if from < |m[k].items| {
      ElementsShaped(m, k, from + 1, role);
      BothShaped(m, Some([Child([k, D.Natural(from)], m[k].items[from], role)]), Elements(m, k, from + 1, role));
    }
  }

  lemma {:induction false} ListsShaped(m: map<string, Json>, ks: seq<string>)
    requires OfClass(ks, SchemaList)
    ensures AllShaped(m, Lists(m, ks))
  {
    if ks != [] {
      ListsShaped(m, ks[1..]);
      if ks[0] in m && m[ks[0]].Arr? && m[ks[0]].items != [] {
        ElementsShaped(m, ks[0], 0, Same);
        BothShaped(m, Elements(m, ks[0], 0, Same), Lists(m, ks[1..]));
      }
    }
  }

  lemma ItemsShaped(m: map<string, Json>)
    requires ClassOf("items").SchemaList?
    ensures AllShaped(m, Items(m))
  {
    if "items" in m && m["items"].Arr? { ElementsShaped(m, "items", 0, Plain); }
  }

  lemma {:induction false} MembersShaped(m: map<string, Json>, k: string, names: seq<string>, lenient: bool)
    requires k in m && m[k].Obj? && (forall n :: n in names ==> n in m[k].members) && ClassOf(k).SchemaMap?
    ensures AllShaped(m, Members(m, k, names, lenient))
    decreases |names|
  {
    if names != [] {
      MembersShaped(m, k, names[1..], lenient);
      BothShaped(m, FirstMember(k, names[0], m[k].members[names[0]], lenient), Members(m, k, names[1..], lenient));
    }
  }

  lemma {:induction false} MapsShaped(m: map<string, Json>, ks: seq<string>, lenient: bool)
    requires OfClass(ks, SchemaMap)
    ensures AllShaped(m, Maps(m, ks, lenient))
  {
    if ks != [] {
      MapsShaped(m, ks[1..], lenient);
      if ks[0] in m && m[ks[0]].Obj? {
        var names := SortedNames(m[ks[0]].members.Keys);
        MembersShaped(m, ks[0], names, lenient);
        BothShaped(m, Members(m, ks[0], names, lenient), Maps(m, ks[1..], lenient));
      }
    }
  }

  lemma ChildrenShaped(m: map<string, Json>, singles: seq<string>, lists: seq<string>, maps: seq<string>, dependencies: seq<string>)
    requires OfClass(singles, OneSchema) && OfClass(lists, SchemaList) && OfClass(maps, SchemaMap) && OfClass(dependencies, SchemaMap)
    requires ClassOf("items").SchemaList?
    ensures AllShaped(m, ChildrenUnder(m, singles, lists, maps, dependencies))
  {
    SinglesShaped(m, singles);
    ListsShaped(m, lists);
    ItemsShaped(m);
    MapsShaped(m, maps, false);
    MapsShaped(m, dependencies, true);
    var a := Both(Maps(m, maps, false), Maps(m, dependencies, true));
    BothShaped(m, Maps(m, maps, false), Maps(m, dependencies, true));
    BothShaped(m, Items(m), a);
    BothShaped(m, Lists(m, lists), Both(Items(m), a));
    BothShaped(m, Singles(m, singles), Both(Lists(m, lists), Both(Items(m), a)));
  }

  /** The keywords of different classes differ in length. */
  lemma KeywordLengths(k: string)
    ensures k in SINGLE_KEYWORDS ==> |k| in {2, 3, 4, 8, 13, 15, 20}
    ensures k in LIST_KEYWORDS || k == "items" ==> |k| == 5
    ensures k in MAP_KEYWORDS || k in DEPENDENCY_KEYWORDS ==> |k| in {10, 11, 12, 17}
  {
    var ks := SINGLE_KEYWORDS;
    assert |ks[0]| == 15 && |ks[1]| == 20 && |ks[2]| == 8 && |ks[3]| == 4 && |ks[4]| == 2 && |ks[5]| == 3 && |ks[6]| == 13 && |ks[7]| == 4;
  }

  /** So no keyword is listed under two classes. */
  lemma KeywordClasses()
    ensures OfClass(SINGLE_KEYWORDS, OneSchema) && OfClass(LIST_KEYWORDS, SchemaList)
    ensures OfClass(MAP_KEYWORDS, SchemaMap) && OfClass(DEPENDENCY_KEYWORDS, SchemaMap) && ClassOf("items").SchemaList?
  {
    forall k ensures k in LIST_KEYWORDS || k == "items" ==> ClassOf(k).SchemaList? { KeywordLengths(k); }
    forall k ensures k in MAP_KEYWORDS || k in DEPENDENCY_KEYWORDS ==> ClassOf(k).SchemaMap? { KeywordLengths(k); }
  }

  lemma ChildSteps(v: Json, c: Child)
    requires v.Obj? && Shaped(v.members, c.suffix) && ChildOk(v, c)
    ensures GrammarSteps(v, Locate(v, c.suffix))
  {
    var path := Locate(v, c.suffix);
    FollowLocate(v, c.suffix);
    LocateLength(v, c.suffix);
    assert path[..|path|] == path && path[|path|..] == [];
  }

  lemma {:induction false} LocateLength(v: Json, tokens: Tokens)
    requires At(v, tokens).Some?
    ensures |Locate(v, tokens)| == |tokens|
    decreases |tokens|
  {
    if tokens != [] {
      if v.Obj? {
        LocateLength(v.members[tokens[0]], tokens[1..]);
      } else {
        LocateLength(v.items[ParseArrayIndex(tokens[0], |v.items|).value], tokens[1..]);
      }
    }
  }

  lemma SubschemaSteps(v: Json, k: nat)
    requires v.Obj? && GrammarChildren(v).Some? && k < |GrammarChildren(v).value|
    ensures At(v, GrammarChildren(v).value[k].suffix).Some? && GrammarSteps(v, Locate(v, GrammarChildren(v).value[k].suffix))
  {
    KeywordClasses();
    ChildrenShaped(v.members, SINGLE_KEYWORDS, LIST_KEYWORDS, MAP_KEYWORDS, DEPENDENCY_KEYWORDS);
    ChildSteps(v, GrammarChildren(v).value[k]);
  }

  /** The value one token further. */
  function Into(v: Json, token: string): Json
    requires At(v, [token]).Some?
  {
    At(v, [token]).value
  }

  lemma LocateStep(v: Json, tokens: Tokens)
    requires tokens != [] && At(v, tokens).Some?
    ensures At(v, [tokens[0]]).Some? && At(Into(v, tokens[0]), tokens[1..]) == At(v, tokens)
    ensures Locate(v, tokens) == Locate(v, [tokens[0]]) + Locate(Into(v, tokens[0]), tokens[1..])
  {
    assert [tokens[0]][1..] == [];
  }

  lemma {:induction false} LocateConcat(v: Json, p: Tokens, q: Tokens)
    requires At(v, p).Some? && At(At(v, p).value, q).Some?
    ensures At(v, p + q).Some? && Locate(v, p + q) == Locate(v, p) + Locate(At(v, p).value, q)
    decreases |p|
  {
    AtConcat(v, p, q);
    if p == [] {
      assert p + q == q;
    } else {
      assert (p + q)[0] == p[0] && (p + q)[1..] == p[1..] + q;
      LocateStep(v, p);
      LocateStep(v, p + q);
      LocateConcat(Into(v, p[0]), p[1..], q);
      Regroup(Locate(v, [p[0]]), Locate(Into(v, p[0]), p[1..]), Locate(At(v, p).value, q));
    }
  }

  // ---------- Structural locations ----------

  /** Where a location is in the schema that is embedded. */
  ghost function Spot(root: Json, nodes: Nodes, i: nat): Path
    requires Prepared(root, nodes) && i < |nodes|
  {
    DialectIsOutside(root, nodes, i);
    Locate(WithoutDialect(root), nodes[i].tokens)
  }

  lemma ChildSpot(root: Json, nodes: Nodes, i: nat, c: nat)
    requires Prepared(root, nodes) && i < |nodes| && c in nodes[i].grammar && c < |nodes|
    requires GrammarSteps(WithoutDialect(root), Spot(root, nodes, i))
    ensures GrammarSteps(WithoutDialect(root), Spot(root, nodes, c))
  {
    var v, w := WithoutDialect(root), Published(nodes[i]);
    DialectIsOutside(root, nodes, i);
    DialectIsOutside(root, nodes, c);
    var k := ChildNumber(root, nodes, i, c);
    var s := GrammarChildren(w).value[k].suffix;
    SubschemaSteps(w, k);
    FollowLocate(v, nodes[i].tokens);
    LocateConcat(v, nodes[i].tokens, s);
    StepsConcat(v, Spot(root, nodes, i), Locate(w, s));
  }

  lemma ChildNumber(root: Json, nodes: Nodes, i: nat, c: nat) returns (k: nat)
    requires Prepared(root, nodes) && i < |nodes| && c in nodes[i].grammar && c < |nodes|
    ensures Published(nodes[i]).Obj? && GrammarChildren(Published(nodes[i])).Some?
    ensures k < |GrammarChildren(Published(nodes[i])).value|
    ensures nodes[c].tokens == nodes[i].tokens + GrammarChildren(Published(nodes[i])).value[k].suffix
  {
    assert Inspected(nodes, nodes[i]);
    var cs := GrammarChildren(nodes[i].value).value;
    var n :| 0 <= n < |nodes[i].grammar| && nodes[i].grammar[n] == c;
    assert nodes[c].tokens in Targets(nodes, nodes[i].grammar);
    k :| 0 <= k < |cs| && nodes[c].tokens == nodes[i].tokens + cs[k].suffix;
    PublishedSubschemas(nodes[i]);
  }

  lemma RootSpot(root: Json, nodes: Nodes)
    requires Prepared(root, nodes)
    ensures GrammarSteps(WithoutDialect(root), Spot(root, nodes, 0))
  {
  }

  /** The locations on paths of subschemas from the root. */
  ghost function OnPaths(root: Json, nodes: Nodes): set<nat>
    requires Prepared(root, nodes)
  {
    set i: nat | i < |nodes| && GrammarSteps(WithoutDialect(root), Spot(root, nodes, i))
  }

  lemma PathsClosed(root: Json, nodes: Nodes)
    requires Prepared(root, nodes)
    ensures ClosedSet(nodes, OnPaths(root, nodes))
  {
    RootSpot(root, nodes);
    var s := OnPaths(root, nodes);
    forall i, c | i in s && i < |nodes| && c in nodes[i].grammar && c < |nodes| ensures c in s { ChildSpot(root, nodes, i, c); }
  }

  /** No structural location is inside what another holds beside its subschemas. */
  lemma StructuralOutside(root: Json, nodes: Nodes, i: nat, j: nat)
    requires Prepared(root, nodes) && i < |nodes| && j < |nodes| && nodes[i].primary && nodes[j].primary
    requires Spot(root, nodes, i) <= Spot(root, nodes, j)
    ensures !InValue(Published(nodes[i]), Spot(root, nodes, j)[|Spot(root, nodes, i)|..])
  {
    var v, p, q := WithoutDialect(root), Spot(root, nodes, i), Spot(root, nodes, j);
    StructuralSpot(root, nodes, i);
    StructuralSpot(root, nodes, j);
    assert p + q[|p|..] == q;
    StepsSplit(v, p, q[|p|..]);
    DialectIsOutside(root, nodes, i);
    FollowLocate(v, nodes[i].tokens);
    if q[|p|..] != [] { StepsOutside(Published(nodes[i]), q[|p|..]); }
  }

  lemma StructuralSpot(root: Json, nodes: Nodes, i: nat)
    requires Prepared(root, nodes) && i < |nodes| && nodes[i].primary
    ensures GrammarSteps(WithoutDialect(root), Spot(root, nodes, i))
  {
    PathsClosed(root, nodes);
    StructuralStays(nodes, OnPaths(root, nodes), i);
  }
}
