/** What an evaluator can read of a schema, and when embedding keeps it. */
module SchemaMeaning {
  import opened Common
  import opened Documents
  import opened Pointers
  import opened SchemaGraph
  import opened ReferenceWriting
  import opened Rebase
  import D = Decimals

  // ---------- Reading a schema ----------

  datatype Part = Part(suffix: Tokens, meaning: Meaning)

  /** A schema as far as it has been read: its members outside subschemas, the
      meanings of its subschemas, and the meaning of what it refers to. */
  datatype Meaning =
    | Unread | Stuck | Constant(b: bool) | Schema(bare: map<string, Json>, parts: seq<Part>, target: Option<Meaning>)

  datatype Class = OneSchema | SchemaList | SchemaMap | Value

  /** What a keyword's value is made of. */
  function ClassOf(k: string): Class {
    if k in SINGLE_KEYWORDS then OneSchema
    else if k in LIST_KEYWORDS || k == "items" then SchemaList
    else if k in MAP_KEYWORDS || k in DEPENDENCY_KEYWORDS then SchemaMap
    else Value
  }

  function Blanks(n: nat): Json { Arr(seq(n, _ => Null)) }

  function BareEntry(v: Json): Json { if IsSchema(v) then Null else v }

  /** A member with its subschemas left out. */
  function BareMember(k: string, v: Json): Json {
    match ClassOf(k)
    case OneSchema => Null
    case SchemaList => if v.Arr? then Blanks(|v.items|) else Null
    case SchemaMap => if v.Obj? then Obj(map n | n in v.members :: BareEntry(v.members[n])) else Null
    case Value => v
  }

  function Bare(m: map<string, Json>): map<string, Json> {
    map k | k in m && k != "$ref" :: BareMember(k, m[k])
  }

  /** The value at `here`, where the member `name` of the value at `base` is not read. */
  function View(doc: Json, base: Tokens, name: string, here: Tokens): Option<Json> {
    match At(doc, here)
    case None => None
    case Some(v) => Some(if here == base then Body(v, name) else v)
  }

  function Refers(m: map<string, Json>): Option<Tokens> {
    if "$ref" in m && m["$ref"].Str? then ParseLocalPointer(m["$ref"].s) else None
  }

  /** The schema at `here`, read `n` levels of subschemas and references deep. */
  function Unfold(doc: Json, base: Tokens, name: string, here: Tokens, n: nat): Meaning
    decreases n, 0
  {
    if n == 0 then Unread
    else
      match View(doc, base, name, here)
      case Some(Bool(b)) => Constant(b)
      case Some(Obj(m)) =>
        (match GrammarChildren(Obj(m))
         case None => Stuck
         case Some(cs) => Schema(Bare(m), Parts(doc, base, name, here, cs, n - 1), Target(doc, base, name, Refers(m), n - 1)))
      case _ => Stuck
  }

  function Parts(doc: Json, base: Tokens, name: string, here: Tokens, cs: seq<Child>, n: nat): seq<Part>
    decreases n, 1
  {
    seq(|cs|, k requires 0 <= k < |cs| => Part(cs[k].suffix, Unfold(doc, base, name, here + cs[k].suffix, n)))
  }

  function Target(doc: Json, base: Tokens, name: string, ref: Option<Tokens>, n: nat): Option<Meaning>
    decreases n, 1
  {
    match ref
    case None => None
    case Some(p) => Some(Unfold(doc, base, name, p, n))
  }

  // ---------- Rewriting keeps the subschemas in place ----------

  predicate SameKind(a: Json, b: Json) { (a.Obj? <==> b.Obj?) && (a.Arr? <==> b.Arr?) && (a.Bool? <==> b.Bool?) }

  /** Alike as far as the keyword grammar looks. */
  predicate Alike(a: Json, b: Json) {
    && SameKind(a, b)
    && (a.Arr? ==> |a.items| == |b.items| && forall i :: 0 <= i < |a.items| ==> SameKind(a.items[i], b.items[i]))
    && (a.Obj? ==> a.members.Keys == b.members.Keys && forall k :: k in a.members ==> SameKind(a.members[k], b.members[k]))
  }

  predicate AlikeAt(m: map<string, Json>, w: map<string, Json>, k: string) {
    (k in m <==> k in w) && (k in m ==> Alike(m[k], w[k]))
  }

  /** Members alike under every keyword that holds subschemas. */
  ghost predicate AlikeMembers(m: map<string, Json>, w: map<string, Json>) {
    forall k :: !ClassOf(k).Value? ==> AlikeAt(m, w, k)
  }

  predicate Grammatical(ks: seq<string>) {
    forall i :: 0 <= i < |ks| ==> !ClassOf(ks[i]).Value?
  }

  lemma RewrittenKind(k: string, v: Json, here: Path, t: Table)
    requires k == "$ref" && here in t ==> v.Str?
    ensures SameKind(v, RewrittenMember(k, v, here, t))
  {
  }

  lemma RewrittenAlike(v: Json, here: Path, t: Table)
    requires SitesOk(v, here, t)
    ensures Alike(v, Rewritten(v, here, t))
  {
    if v.Obj? {
      if here in t { HereIsSite(v, here, t); }
      forall k | k in v.members ensures SameKind(v.members[k], Rewritten(v, here, t).members[k]) {
        RewrittenKind(k, v.members[k], here, t);
      }
    }
  }

  lemma MembersAlike(v: Json, here: Path, t: Table)
    requires v.Obj? && SitesOk(v, here, t)
    ensures AlikeMembers(v.members, Rewritten(v, here, t).members)
  {
    if here in t { HereIsSite(v, here, t); }
    forall k | k in v.members ensures AlikeAt(v.members, Rewritten(v, here, t).members, k) {
      FollowOne(v, Key(k));
      SitesInside(v, here, t, Key(k));
      RewrittenAlike(v.members[k], here + [Key(k)], t);
    }
  }

  predicate SameSuffixes(a: Found, b: Found) {
    && (a.Some? <==> b.Some?)
    && (a.Some? ==> |a.value| == |b.value| && forall k :: 0 <= k < |a.value| ==> a.value[k].suffix == b.value[k].suffix)
  }

  lemma BothSame(a: Found, b: Found, c: Found, d: Found)
    requires SameSuffixes(a, b) && SameSuffixes(c, d)
    ensures SameSuffixes(Both(a, c), Both(b, d))
  {
  }

  lemma {:induction false} SinglesSame(m: map<string, Json>, w: map<string, Json>, ks: seq<string>)
    requires AlikeMembers(m, w) && Grammatical(ks)
    ensures SameSuffixes(Singles(m, ks), Singles(w, ks))
  {
    if ks != [] {
      SinglesSame(m, w, ks[1..]);
      var k := ks[0];
      assert AlikeAt(m, w, k);
      if k in m {
        BothSame(One(m, k, SingleRole(k)), One(w, k, SingleRole(k)), Singles(m, ks[1..]), Singles(w, ks[1..]));
      } else {
        BothSame(Some([]), Some([]), Singles(m, ks[1..]), Singles(w, ks[1..]));
      }
    }
  }

  lemma {:induction false} ElementsSame(m: map<string, Json>, w: map<string, Json>, k: string, from: nat, role: Role)
    requires AlikeAt(m, w, k) && k in m && m[k].Arr? && from <= |m[k].items|
    ensures w[k].Arr? && |w[k].items| == |m[k].items|
    ensures SameSuffixes(Elements(m, k, from, role), Elements(w, k, from, role))
    decreases |m[k].items| - from
  {
    assert Alike(m[k], w[k]);
    if from < |m[k].items| {
      ElementsSame(m, w, k, from + 1, role);
      var a, b := m[k].items[from], w[k].items[from];
      assert SameKind(a, b);
      var s := [k, D.Natural(from)];
      BothSame(Some([Child(s, a, role)]), Some([Child(s, b, role)]), Elements(m, k, from + 1, role), Elements(w, k, from + 1, role));
    }
  }

  lemma {:induction false} ListsSame(m: map<string, Json>, w: map<string, Json>, ks: seq<string>)
    requires AlikeMembers(m, w) && Grammatical(ks)
    ensures SameSuffixes(Lists(m, ks), Lists(w, ks))
  {
    if ks != [] {
      ListsSame(m, w, ks[1..]);
      var k := ks[0];
      assert AlikeAt(m, w, k);
      if k in m && m[k].Arr? && m[k].items != [] {
        ElementsSame(m, w, k, 0, Same);
        BothSame(Elements(m, k, 0, Same), Elements(w, k, 0, Same), Lists(m, ks[1..]), Lists(w, ks[1..]));
      } else {
        var first: Found := if k in m then None else Some([]);
        assert k in m ==> Alike(m[k], w[k]);
        BothSame(first, first, Lists(m, ks[1..]), Lists(w, ks[1..]));
      }
    }
  }

  lemma ItemsSame(m: map<string, Json>, w: map<string, Json>)
    requires AlikeMembers(m, w)
    ensures SameSuffixes(Items(m), Items(w))
  {
    assert AlikeAt(m, w, "items");
    if "items" in m {
      assert Alike(m["items"], w["items"]);
      if m["items"].Arr? { ElementsSame(m, w, "items", 0, Plain); }
    }
  }

  lemma {:induction false} MembersSame(m: map<string, Json>, w: map<string, Json>, k: string, names: seq<string>, lenient: bool)
    requires AlikeAt(m, w, k) && k in m && m[k].Obj? && forall n :: n in names ==> n in m[k].members
    ensures w[k].Obj? && forall n :: n in names ==> n in w[k].members
    ensures SameSuffixes(Members(m, k, names, lenient), Members(w, k, names, lenient))
    decreases |names|
  {
    assert Alike(m[k], w[k]);
    if names != [] {
      var n := names[0];
      MembersSame(m, w, k, names[1..], lenient);
      assert n in names;
      var a, b := m[k].members[n], w[k].members[n];
      assert SameKind(a, b);
      BothSame(FirstMember(k, n, a, lenient), FirstMember(k, n, b, lenient),
               Members(m, k, names[1..], lenient), Members(w, k, names[1..], lenient));
    }
  }

  function FirstMember(k: string, n: string, v: Json, lenient: bool): Found {
    if IsSchema(v) then Some([Child([k, n], v, if lenient then Same else Plain)])
    else if lenient && v.Arr? then Some([])
    else None
  }

  lemma {:induction false} MapsSame(m: map<string, Json>, w: map<string, Json>, ks: seq<string>, lenient: bool)
    requires AlikeMembers(m, w) && Grammatical(ks)
    ensures SameSuffixes(Maps(m, ks, lenient), Maps(w, ks, lenient))
  {
    if ks != [] {
      MapsSame(m, w, ks[1..], lenient);
      var k := ks[0];
      assert AlikeAt(m, w, k);
      if k in m && m[k].Obj? {
        assert Alike(m[k], w[k]);
        var names := SortedNames(m[k].members.Keys);
        MembersSame(m, w, k, names, lenient);
        BothSame(Members(m, k, names, lenient), Members(w, k, names, lenient), Maps(m, ks[1..], lenient), Maps(w, ks[1..], lenient));
      } else {
        var first: Found := if k in m then None else Some([]);
        assert k in m ==> Alike(m[k], w[k]);
        BothSame(first, first, Maps(m, ks[1..], lenient), Maps(w, ks[1..], lenient));
      }
    }
  }

  lemma ChildrenSame(m: map<string, Json>, w: map<string, Json>, singles: seq<string>, lists: seq<string>, maps: seq<string>,
                     dependencies: seq<string>)
    requires AlikeMembers(m, w) && Grammatical(singles) && Grammatical(lists) && Grammatical(maps) && Grammatical(dependencies)
    ensures SameSuffixes(ChildrenUnder(m, singles, lists, maps, dependencies), ChildrenUnder(w, singles, lists, maps, dependencies))
  {
    SinglesSame(m, w, singles);
    ListsSame(m, w, lists);
    ItemsSame(m, w);
    MapsSame(m, w, maps, false);
    MapsSame(m, w, dependencies, true);
    var a, b := Both(Maps(m, maps, false), Maps(m, dependencies, true)), Both(Maps(w, maps, false), Maps(w, dependencies, true));
    BothSame(Maps(m, maps, false), Maps(w, maps, false), Maps(m, dependencies, true), Maps(w, dependencies, true));
    BothSame(Items(m), Items(w), a, b);
    BothSame(Lists(m, lists), Lists(w, lists), Both(Items(m), a), Both(Items(w), b));
    BothSame(Singles(m, singles), Singles(w, singles), Both(Lists(m, lists), Both(Items(m), a)), Both(Lists(w, lists), Both(Items(w), b)));
  }

  lemma SubschemasSame(m: map<string, Json>, w: map<string, Json>)
    requires AlikeMembers(m, w)
    ensures SameSuffixes(GrammarChildren(Obj(m)), GrammarChildren(Obj(w)))
  {
    ChildrenSame(m, w, SINGLE_KEYWORDS, LIST_KEYWORDS, MAP_KEYWORDS, DEPENDENCY_KEYWORDS);
  }

  /** Rewriting moves no subschema. */
  lemma RewritingKeepsSubschemas(v: Json, here: Path, t: Table)
    requires v.Obj? && SitesOk(v, here, t)
    ensures Rewritten(v, here, t).Obj? && Rewritten(v, here, t).members.Keys == v.members.Keys
    ensures SameSuffixes(GrammarChildren(v), GrammarChildren(Rewritten(v, here, t)))
  {
    MembersAlike(v, here, t);
    SubschemasSame(v.members, Rewritten(v, here, t).members);
  }

  /** The dialect declaration is no subschema. */
  lemma DialectIsNoSubschema(v: Json)
    requires v.Obj?
    ensures SameSuffixes(GrammarChildren(v), GrammarChildren(WithoutDialect(v)))
  {
    var w := WithoutDialect(v);
    DialectIsValue();
    forall k | !ClassOf(k).Value? ensures AlikeAt(v.members, w.members, k) { assert k != "$schema"; }
    SubschemasSame(v.members, w.members);
  }

  lemma PublishedSubschemas(n: Node)
    ensures SameSuffixes(GrammarChildren(n.value), GrammarChildren(Published(n)))
  {
    if n.tokens == [] && n.value.Obj? { DialectIsNoSubschema(n.value); }
  }

  lemma DialectIsValue()
    ensures ClassOf("$schema").Value?
  {
    var k := "$schema";
    assert forall i :: 0 <= i < |SINGLE_KEYWORDS| ==> SINGLE_KEYWORDS[i][0] != k[0];
    assert forall i :: 0 <= i < |LIST_KEYWORDS| ==> LIST_KEYWORDS[i][0] != k[0];
    assert forall i :: 0 <= i < |MAP_KEYWORDS| ==> MAP_KEYWORDS[i][0] != k[0];
    assert DEPENDENCY_KEYWORDS[0][0] != k[0] && "items"[0] != k[0];
  }

  // ---------- Rewriting and the members outside subschemas ----------

  /** The text at a tabled place is already the new one. */
  predicate TextAt(v: Json, here: Path, t: Table, p: Path)
    requires p in t && here <= p
  {
    var x := Follow(v, p[|here|..]);
    HasRef(x) && x.value.members["$ref"].s == t[p]
  }

  predicate TextsKept(v: Json, here: Path, t: Table) {
    forall p :: p in t && here <= p ==> TextAt(v, here, t, p)
  }

  lemma TextInside(v: Json, here: Path, t: Table, s: Step, p: Path)
    requires p in t && here + [s] <= p && Follow(v, [s]).Some?
    ensures here <= p && (TextAt(v, here, t, p) <==> TextAt(Follow(v, [s]).value, here + [s], t, p))
  {
    Deeper(here, s, p);
    var q := p[|here|..];
    assert q[0] == s && q[1..] == p[|here + [s]|..];
  }

  /** The tabled places that a member holds. */
  predicate Covered(k: string, here: Path, p: Path) {
    (p == here && k == "$ref") || here + [Key(k)] <= p
  }

  lemma {:induction false} RewriteKeeps(v: Json, here: Path, t: Table)
    requires TextsKept(v, here, t)
    ensures Rewritten(v, here, t) == v
    decreases v, 0
  {
    match v
    case Obj(members) =>
      forall k | k in members ensures RewrittenMember(k, members[k], here, t) == members[k] {
        forall p | p in t && Covered(k, here, p) ensures here <= p && TextAt(v, here, t, p) { Deeper(here, Key(k), p); }
        MemberKeeps(v, here, t, k);
      }
      assert Rewritten(v, here, t).members == members;
    case Arr(items) =>
      forall i | 0 <= i < |items| ensures Rewritten(items[i], here + [Index(i)], t) == items[i] {
        FollowOne(v, Index(i));
        forall p | p in t && here + [Index(i)] <= p ensures TextAt(items[i], here + [Index(i)], t, p) {
          TextInside(v, here, t, Index(i), p);
        }
        RewriteKeeps(items[i], here + [Index(i)], t);
      }
      assert Rewritten(v, here, t).items == items;
    case _ =>
  }

  lemma {:induction false} MemberKeeps(v: Json, here: Path, t: Table, k: string)
    requires v.Obj? && k in v.members
    requires forall p :: p in t && Covered(k, here, p) ==> here <= p && TextAt(v, here, t, p)
    ensures RewrittenMember(k, v.members[k], here, t) == v.members[k]
    decreases v.members[k], 1
  {
    if k == "$ref" && here in t {
      assert Covered(k, here, here) && here[|here|..] == [];
    } else {
      FollowOne(v, Key(k));
      forall p | p in t && here + [Key(k)] <= p ensures TextAt(v.members[k], here + [Key(k)], t, p) {
        assert Covered(k, here, p);
        TextInside(v, here, t, Key(k), p);
      }
      RewriteKeeps(v.members[k], here + [Key(k)], t);
    }
  }

  lemma {:induction false} RewriteTells(v: Json, here: Path, t: Table, p: Path)
    requires SitesOk(v, here, t) && Rewritten(v, here, t) == v && p in t && here <= p
    ensures TextAt(v, here, t, p)
    decreases |p| - |here|, 0
  {
    var q := p[|here|..];
    assert HasRef(Follow(v, q));
    if q == [] {
      assert p == here;
      RewrittenRef(v, here, t);
    } else {
      assert here + [q[0]] <= p by { assert p == here + q; }
      FollowOne(v, q[0]);
      if v.Obj? {
        MemberTells(v, here, t, q[0].name, p);
      } else {
        SitesInside(v, here, t, q[0]);
        assert v.items[q[0].i] == Rewritten(v, here, t).items[q[0].i];
        RewriteTells(v.items[q[0].i], here + [q[0]], t, p);
        TextInside(v, here, t, q[0], p);
      }
    }
  }

  lemma {:induction false} MemberTells(v: Json, here: Path, t: Table, k: string, p: Path)
    requires SitesOk(v, here, t) && v.Obj? && k in v.members && RewrittenMember(k, v.members[k], here, t) == v.members[k]
    requires p in t && Covered(k, here, p)
    ensures here <= p && TextAt(v, here, t, p)
    decreases |p| - |here|, if p == here then 0 else -1
  {
    Deeper(here, Key(k), p);
    if here in t { HereIsSite(v, here, t); }
    FollowOne(v, Key(k));
    if p == here {
      assert here[|here|..] == [];
    } else {
      SitesInside(v, here, t, Key(k));
      assert HasRef(Follow(v.members[k], p[|here + [Key(k)]|..]));
      RewriteTells(v.members[k], here + [Key(k)], t, p);
      TextInside(v, here, t, Key(k), p);
    }
  }

  /** A place inside what a schema holds beside its subschemas and its reference. */
  predicate InValue(v: Json, rest: Path) {
    && v.Obj? && rest != [] && rest[0].Key? && rest[0].name != "$ref" && rest[0].name in v.members
    && var x := v.members[rest[0].name];
       match ClassOf(rest[0].name)
       case Value => true
       case SchemaMap => |rest| == 1 || (x.Obj? && rest[1].Key? && rest[1].name in x.members && !IsSchema(x.members[rest[1].name]))
       case _ => false
  }

  /** The texts inside one member are the new ones. */
  predicate MemberTexts(v: Json, here: Path, t: Table, k: string) {
    forall p :: p in t && here + [Key(k)] <= p && here <= p && InValue(v, p[|here|..]) ==> TextAt(v, here, t, p)
  }

  lemma PathBelow(here: Path, s: Step, p: Path)
    requires here + [s] <= p
    ensures here <= p && p[|here|..] != [] && p[|here|..][0] == s
    ensures |p[|here|..]| > 1 ==> here + [s] + [p[|here|..][1]] <= p
  {
    Deeper(here, s, p);
    var q := p[|here|..];
    assert p == here + q;
    if |q| > 1 { assert here + [s] + [q[1]] == p[..|here| + 2]; }
  }

  lemma ValueExactly(v: Json, here: Path, t: Table, k: string)
    requires v.Obj? && SitesOk(v, here, t) && k in v.members && k != "$ref" && ClassOf(k).Value?
    ensures Rewritten(v.members[k], here + [Key(k)], t) == v.members[k] <==> MemberTexts(v, here, t, k)
  {
    FollowOne(v, Key(k));
    SitesInside(v, here, t, Key(k));
    var x, below := v.members[k], here + [Key(k)];
    forall p | p in t && below <= p
      ensures here <= p && InValue(v, p[|here|..]) && (TextAt(v, here, t, p) <==> TextAt(x, below, t, p))
    {
      PathBelow(here, Key(k), p);
      TextInside(v, here, t, Key(k), p);
    }
    if MemberTexts(v, here, t, k) { RewriteKeeps(x, below, t); }
    if Rewritten(x, below, t) == x {
      forall p | p in t && below <= p ensures TextAt(v, here, t, p) { RewriteTells(x, below, t, p); }
    }
  }

  /** Two maps with the same entries outside subschemas. */
  lemma EntriesExactly(a: Json, b: Json)
    requires a.Obj? && Alike(a, b)
    ensures (map n | n in a.members :: BareEntry(a.members[n])) == (map n | n in b.members :: BareEntry(b.members[n])) <==>
      forall n :: n in a.members && !IsSchema(a.members[n]) ==> a.members[n] == b.members[n]
  {
    var c, d := map n | n in a.members :: BareEntry(a.members[n]), map n | n in b.members :: BareEntry(b.members[n]);
    if forall n :: n in a.members && !IsSchema(a.members[n]) ==> a.members[n] == b.members[n] {
      forall n | n in c ensures n in d && c[n] == d[n] { assert SameKind(a.members[n], b.members[n]); }
      assert c == d;
    }
    if c == d {
      forall n | n in a.members && !IsSchema(a.members[n]) ensures a.members[n] == b.members[n] {
        assert SameKind(a.members[n], b.members[n]);
        assert c[n] == d[n];
      }
    }
  }

  lemma EntryKeeps(v: Json, here: Path, t: Table, k: string, n: string)
    requires v.Obj? && k in v.members && k != "$ref" && ClassOf(k).SchemaMap? && MemberTexts(v, here, t, k)
    requires v.members[k].Obj? && n in v.members[k].members && !IsSchema(v.members[k].members[n])
    ensures RewrittenMember(n, v.members[k].members[n], here + [Key(k)], t) == v.members[k].members[n]
  {
    var x, below := v.members[k], here + [Key(k)];
    FollowOne(v, Key(k));
    forall p | p in t && Covered(n, below, p) ensures below <= p && TextAt(x, below, t, p) {
      Deeper(below, Key(n), p);
      PathBelow(here, Key(k), p);
      var rest := p[|here|..];
      if p != below { assert rest[1] == Key(n); }
      TextInside(v, here, t, Key(k), p);
    }
    MemberKeeps(x, below, t, n);
  }

  lemma EntryTells(v: Json, here: Path, t: Table, k: string, p: Path)
    requires v.Obj? && SitesOk(v, here, t) && k in v.members && k != "$ref" && ClassOf(k).SchemaMap?
    requires p in t && here + [Key(k)] <= p && here <= p && InValue(v, p[|here|..])
    requires v.members[k].Obj?
    requires forall n :: n in v.members[k].members && !IsSchema(v.members[k].members[n]) ==>
      RewrittenMember(n, v.members[k].members[n], here + [Key(k)], t) == v.members[k].members[n]
    ensures TextAt(v, here, t, p)
  {
    var x, below, rest := v.members[k], here + [Key(k)], p[|here|..];
    PathBelow(here, Key(k), p);
    FollowOne(v, Key(k));
    SitesInside(v, here, t, Key(k));
    if |rest| == 1 {
      assert p == below;
      HereIsSite(x, below, t);
      MemberTells(x, below, t, "$ref", p);
    } else {
      MemberTells(x, below, t, rest[1].name, p);
    }
    TextInside(v, here, t, Key(k), p);
  }

  lemma MapExactly(v: Json, here: Path, t: Table, k: string)
    requires v.Obj? && SitesOk(v, here, t) && k in v.members && k != "$ref" && ClassOf(k).SchemaMap?
    ensures BareMember(k, Rewritten(v.members[k], here + [Key(k)], t)) == BareMember(k, v.members[k]) <==> MemberTexts(v, here, t, k)
  {
    var x, below := v.members[k], here + [Key(k)];
    FollowOne(v, Key(k));
    SitesInside(v, here, t, Key(k));
    RewrittenAlike(x, below, t);
    if x.Obj? {
      var w := Rewritten(x, below, t);
      EntriesExactly(x, w);
      if MemberTexts(v, here, t, k) {
        forall n | n in x.members && !IsSchema(x.members[n]) ensures x.members[n] == w.members[n] { EntryKeeps(v, here, t, k, n); }
      }
      if forall n :: n in x.members && !IsSchema(x.members[n]) ==> x.members[n] == w.members[n] {
        forall p | p in t && below <= p && here <= p && InValue(v, p[|here|..]) ensures TextAt(v, here, t, p) { EntryTells(v, here, t, k, p); }
      }
    } else {
      forall p | p in t && below <= p ensures here <= p && !InValue(v, p[|here|..]) {
        PathBelow(here, Key(k), p);
        if p == below { HereIsSite(x, below, t); }
      }
    }
  }

  lemma MemberExactly(v: Json, here: Path, t: Table, k: string)
    requires v.Obj? && SitesOk(v, here, t) && k in v.members && k != "$ref"
    ensures BareMember(k, Rewritten(v.members[k], here + [Key(k)], t)) == BareMember(k, v.members[k]) <==> MemberTexts(v, here, t, k)
  {
    match ClassOf(k)
    case Value => ValueExactly(v, here, t, k);
    case SchemaMap => MapExactly(v, here, t, k);
    case _ =>
      forall p | p in t && here + [Key(k)] <= p ensures here <= p && !InValue(v, p[|here|..]) { PathBelow(here, Key(k), p); }
  }

  predicate InnerTexts(v: Json, here: Path, t: Table) {
    forall p :: p in t && here <= p && InValue(v, p[|here|..]) ==> TextAt(v, here, t, p)
  }

  lemma InnerTextsExactly(v: Json, here: Path, t: Table)
    requires v.Obj?
    ensures InnerTexts(v, here, t) <==> forall k :: k in v.members && k != "$ref" ==> MemberTexts(v, here, t, k)
  {
    if forall k :: k in v.members && k != "$ref" ==> MemberTexts(v, here, t, k) {
      forall p | p in t && here <= p && InValue(v, p[|here|..]) ensures TextAt(v, here, t, p) {
        var rest := p[|here|..];
        assert p == here + rest;
        assert here + [rest[0]] == p[..|here| + 1];
        assert MemberTexts(v, here, t, rest[0].name);
      }
    }
  }

  lemma BareMemberExactly(v: Json, here: Path, t: Table, k: string)
    requires v.Obj? && SitesOk(v, here, t) && k in v.members && k != "$ref"
    ensures Bare(v.members)[k] == Bare(Rewritten(v, here, t).members)[k] <==> MemberTexts(v, here, t, k)
  {
    MemberExactly(v, here, t, k);
    assert Rewritten(v, here, t).members[k] == RewrittenMember(k, v.members[k], here, t);
  }

  /** Rewriting keeps what a schema holds beside its subschemas and its reference
      exactly when every reference rewritten there keeps its text. */
  lemma BareExactly(v: Json, here: Path, t: Table)
    requires v.Obj? && SitesOk(v, here, t)
    ensures Bare(Rewritten(v, here, t).members) == Bare(v.members) <==> InnerTexts(v, here, t)
  {
    var a, b := Bare(v.members), Bare(Rewritten(v, here, t).members);
    InnerTextsExactly(v, here, t);
    forall k | k in a ensures a[k] == b[k] <==> MemberTexts(v, here, t, k) { BareMemberExactly(v, here, t, k); }
    if InnerTexts(v, here, t) { assert a == b; }
    if a == b {
      forall k | k in v.members && k != "$ref" ensures MemberTexts(v, here, t, k) { assert a[k] == b[k]; }
    }
  }
}
