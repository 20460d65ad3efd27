/** Compilation of JSON Schemas to TypeScript types, and its soundness: a valid
    value inhabits the type. */
module TypeScript {
  import opened Common
  import opened Numbers
  import opened Documents
  import D = Decimals

  // ---------- Types and their values ----------

  datatype Type =
    | Unknown | Never | StringType | NumberType | BooleanType | NullType
    | StringLit(s: string) | NumberLit(text: string) | BooleanLit(b: bool)
    | Union(choices: seq<Type>)
    | ArrayOf(element: Type)
    | Tuple(elements: seq<Type>)
    | RecordOf(value: Type)
    | Shape(names: seq<string>, types: seq<Type>, optional: seq<bool>, open: bool)

  /** The values of a type; a closed object type admits no further members. */
  ghost predicate Inhabits(v: Json, t: Type)
    decreases t
  {
    match t
    case Unknown => true
    case Never => false
    case StringType => v.Str?
    case NumberType => v.Num?
    case BooleanType => v.Bool?
    case NullType => v.Null?
    case StringLit(s) => v == Str(s)
    case NumberLit(text) => v.Num? && SameNumber(v.text, text)
    case BooleanLit(b) => v == Bool(b)
    case Union(choices) => exists i :: 0 <= i < |choices| && Inhabits(v, choices[i])
    case ArrayOf(element) => v.Arr? && forall i :: 0 <= i < |v.items| ==> Inhabits(v.items[i], element)
    case Tuple(elements) =>
      v.Arr? && |v.items| == |elements| && forall i :: 0 <= i < |elements| ==> Inhabits(v.items[i], elements[i])
    case RecordOf(value) => v.Obj? && forall k :: k in v.members ==> Inhabits(v.members[k], value)
    case Shape(names, types, optional, open) =>
      && v.Obj? && |names| == |types| == |optional|
      && (open || forall k :: k in v.members ==> k in names)
      && forall i :: 0 <= i < |types| ==>
           if names[i] in v.members then Inhabits(v.members[names[i]], types[i]) else optional[i]
  }

  ghost predicate SameNumber(a: string, b: string) {
    IsNumber(a) && IsNumber(b) && D.Equal(Denotes(ReadNumber(a)), Denotes(ReadNumber(b)))
  }

  ghost predicate Equals(v: Json, w: Json) {
    NumbersValid(v) && NumbersValid(w) && SameJson(v, w)
  }

  // ---------- The compiler ----------

  /** Every number literal can be written exactly as a JavaScript number. */
  predicate LiteralOk(v: Json, exact: string -> bool)
    decreases v
  {
    match v
    case Num(text) => Normalize(text).Ok? && exact(Normalize(text).text)
    case Arr(items) => forall i :: 0 <= i < |items| ==> LiteralOk(items[i], exact)
    case Obj(members) => forall k :: k in members ==> LiteralOk(members[k], exact)
    case _ => true
  }

  /** Canonical JSON read as a type: tuples and closed object types. */
  function LiteralType(v: Json, exact: string -> bool): Type
    requires LiteralOk(v, exact)
    decreases v
  {
    match v
    case Null => NullType
    case Bool(b) => BooleanLit(b)
    case Str(s) => StringLit(s)
    case Num(text) => NumberLit(Normalize(text).text)
    case Arr(items) => Tuple(seq(|items|, i requires 0 <= i < |items| => LiteralType(items[i], exact)))
    case Obj(members) =>
      var names := SortedNames(members.Keys);
      Shape(names, seq(|names|, i requires 0 <= i < |names| => LiteralType(members[names[i]], exact)),
            seq(|names|, i => false), false)
  }

  function Literal(v: Json, exact: string -> bool): Option<Type> {
    if LiteralOk(v, exact) then Some(LiteralType(v, exact)) else None
  }

  predicate IsArray(m: map<string, Json>, k: string) { k in m && m[k].Arr? }

  function MembersOf(m: map<string, Json>, k: string): map<string, Json> {
    if k in m && m[k].Obj? then m[k].members else map[]
  }

  predicate Required(m: map<string, Json>, name: string) {
    IsArray(m, "required") && Str(name) in m["required"].items
  }

  predicate AllowsAdditional(m: map<string, Json>) {
    "additionalProperties" in m && m["additionalProperties"].Bool? ==> m["additionalProperties"].b
  }

  function Compile(v: Json, exact: string -> bool): Option<Type>
    decreases v, 3
  {
    if !v.Obj? then Some(Unknown)
    else
      var m := v.members;
      if "const" in m then Literal(m["const"], exact)
      else if IsArray(m, "enum") then MakeUnion(Literals(m["enum"].items, exact))
      else if IsArray(m, "oneOf") then MakeUnion(CompileAll(m["oneOf"].items, exact))
      else if "type" in m && m["type"].Str? then CompileTyped(v, m["type"].s, exact)
      else Some(Unknown)
  }

  function CompileTyped(v: Json, name: string, exact: string -> bool): Option<Type>
    requires v.Obj?
    decreases v, 2
  {
    if name == "string" then Some(StringType)
    else if name == "integer" || name == "number" then Some(NumberType)
    else if name == "boolean" then Some(BooleanType)
    else if name == "array" then
      var element := if "items" in v.members then Compile(v.members["items"], exact) else Some(Unknown);
      if element.None? then None else Some(ArrayOf(element.value))
    else if name == "object" then CompileObject(v, exact)
    else Some(Unknown)
  }

  predicate Open(m: map<string, Json>) {
    MembersOf(m, "patternProperties") != map[] || AllowsAdditional(m)
  }

  function CompileObject(v: Json, exact: string -> bool): (r: Option<Type>)
    requires v.Obj?
    ensures r.Some? ==> r.value.Shape? || r.value.RecordOf?
    decreases v, 1
  {
    var m := v.members;
    if MembersOf(m, "properties") != map[] then
      var names := SortedNames(m["properties"].members.Keys);
      var types := CompileMembers(m["properties"], names, exact);
      if types.None? then None
      else Some(Shape(names, types.value, seq(|names|, i requires 0 <= i < |names| => !Required(m, names[i])), Open(m)))
    else if MembersOf(m, "patternProperties") != map[] then Some(RecordOf(Unknown))
    else if "additionalProperties" !in m then Some(RecordOf(Unknown))
    else
      match m["additionalProperties"]
      case Bool(b) => Some(RecordOf(if b then Unknown else Never))
      case Obj(_) =>
        var value := Compile(m["additionalProperties"], exact);
        if value.None? then None else Some(RecordOf(value.value))
      case _ => Some(RecordOf(Unknown))
  }

  function CompileMembers(v: Json, names: seq<string>, exact: string -> bool): (r: Option<seq<Type>>)
    requires v.Obj? && forall i :: 0 <= i < |names| ==> names[i] in v.members
    ensures r.Some? ==> |r.value| == |names|
    decreases v, 0, |names|
  {
    if names == [] then Some([])
    else
      var first, rest := Compile(v.members[names[0]], exact), CompileMembers(v, names[1..], exact);
      if first.None? || rest.None? then None else Some([first.value] + rest.value)
  }

  function CompileAll(vs: seq<Json>, exact: string -> bool): (r: Option<seq<Type>>)
    ensures r.Some? ==> |r.value| == |vs|
    decreases vs, 0
  {
    if vs == [] then Some([])
    else
      var first, rest := Compile(vs[0], exact), CompileAll(vs[1..], exact);
      if first.None? || rest.None? then None else Some([first.value] + rest.value)
  }

  function Literals(vs: seq<Json>, exact: string -> bool): (r: Option<seq<Type>>)
    ensures r.Some? ==> |r.value| == |vs|
  {
    if vs == [] then Some([])
    else
      var first, rest := Literal(vs[0], exact), Literals(vs[1..], exact);
      if first.None? || rest.None? then None else Some([first.value] + rest.value)
  }

  function MakeUnion(types: Option<seq<Type>>): Option<Type> {
    if types.None? then None else Some(Union(types.value))
  }

  // ---------- Validity ----------

  /** What validation depends on besides the keywords below: reference targets,
      all other keywords, and pattern matching. Any behaviour is allowed. */
  datatype Engine = Engine(target: (Json, Json) -> bool, other: (Json, Json) -> bool, matches: (string, string) -> bool)

  predicate HasType(v: Json, name: string) {
    && (name == "string" ==> v.Str?)
    && (name == "integer" || name == "number" ==> v.Num?)
    && (name == "boolean" ==> v.Bool?)
    && (name == "null" ==> v.Null?)
    && (name == "array" ==> v.Arr?)
    && (name == "object" ==> v.Obj?)
  }

  predicate Additional(g: Engine, m: map<string, Json>, k: string) {
    && k !in MembersOf(m, "properties")
    && forall p :: p in MembersOf(m, "patternProperties") ==> !g.matches(p, k)
  }

  /** Draft 7 validity: a reference replaces its siblings. */
  ghost predicate Valid(g: Engine, s: Json, v: Json)
    decreases s, 1
  {
    match s
    case Bool(b) => b
    case Obj(m) =>
      if "$ref" in m then g.target(s, v)
      else ValidScalar(m, v) && ValidNested(g, s, v) && g.other(s, v)
    case _ => g.other(s, v)
  }

  ghost predicate ValidScalar(m: map<string, Json>, v: Json) {
    && ("const" in m ==> Equals(v, m["const"]))
    && (IsArray(m, "enum") ==> exists i :: 0 <= i < |m["enum"].items| && Equals(v, m["enum"].items[i]))
    && ("type" in m && m["type"].Str? ==> HasType(v, m["type"].s))
    && (v.Obj? ==> forall k :: Required(m, k) ==> k in v.members)
  }

  ghost predicate ValidNested(g: Engine, s: Json, v: Json)
    requires s.Obj?
    decreases s, 0
  {
    var m := s.members;
    && (IsArray(m, "oneOf") ==>
          exists i ::
            && 0 <= i < |m["oneOf"].items| && Valid(g, m["oneOf"].items[i], v)
            && forall j :: 0 <= j < |m["oneOf"].items| && j != i ==> !Valid(g, m["oneOf"].items[j], v))
    && ("items" in m && !m["items"].Arr? && v.Arr? ==> forall i :: 0 <= i < |v.items| ==> Valid(g, m["items"], v.items[i]))
    && ("properties" in m && m["properties"].Obj? && v.Obj? ==>
          forall k :: k in m["properties"].members && k in v.members ==> Valid(g, m["properties"].members[k], v.members[k]))
    && ("additionalProperties" in m && v.Obj? ==>
          forall k :: k in v.members && Additional(g, m, k) ==> Valid(g, m["additionalProperties"], v.members[k]))
  }

  // ---------- Soundness ----------

  /** The type names that the compiler reads. */
  predicate CompiledType(name: string) {
    name == "string" || name == "integer" || name == "number" || name == "boolean" || name == "array" || name == "object"
  }

  /** None of the keywords that the compiler reads is present. */
  predicate Loose(m: map<string, Json>) {
    && "const" !in m && !IsArray(m, "enum") && !IsArray(m, "oneOf")
    && !("type" in m && m["type"].Str? && CompiledType(m["type"].s))
  }

  /** The compiler reads `oneOf`, and its branches together admit every value. */
  ghost predicate OpenChoice(m: map<string, Json>, exact: string -> bool) {
    && "const" !in m && !IsArray(m, "enum") && IsArray(m, "oneOf")
    && forall v :: AdmittedBySome(m["oneOf"].items, v, exact)
  }

  ghost predicate AdmittedBySome(branches: seq<Json>, v: Json, exact: string -> bool) {
    exists i :: 0 <= i < |branches| && Compile(branches[i], exact).Some? && Inhabits(v, Compile(branches[i], exact).value)
  }

  /** References, where the compiler meets them, stand beside nothing that it
      reads, or beside a choice that admits every value. */
  ghost predicate RefsLoose(v: Json, exact: string -> bool)
    decreases v
  {
    v.Obj? ==>
      var m := v.members;
      && ("$ref" in m ==> Loose(m) || OpenChoice(m, exact))
      && (IsArray(m, "oneOf") ==> forall i :: 0 <= i < |m["oneOf"].items| ==> RefsLoose(m["oneOf"].items[i], exact))
      && ("items" in m ==> RefsLoose(m["items"], exact))
      && ("properties" in m && m["properties"].Obj? ==>
            forall k :: k in m["properties"].members ==> RefsLoose(m["properties"].members[k], exact))
      && ("additionalProperties" in m ==> RefsLoose(m["additionalProperties"], exact))
  }

  lemma NumberLiteral(text: string, v: Json)
    requires IsNumber(text) && v.Num? && Normalize(text).Ok?
    ensures Inhabits(v, NumberLit(Normalize(text).text)) <==> SameNumber(v.text, text)
  {
    var p := ReadNumber(text);
    var q := NormalizeIsExact(p);
    PrintInjective(q, ReadNumber(Normalize(text).text));
    if IsNumber(v.text) {
      var w := Denotes(ReadNumber(v.text));
      D.EqualSymmetric(Denotes(p), Denotes(q));
      if D.Equal(w, Denotes(p)) { D.EqualTransitive(w, Denotes(p), Denotes(q)); }
      if D.Equal(w, Denotes(q)) { D.EqualTransitive(w, Denotes(q), Denotes(p)); }
    }
  }

  lemma ArrayEquals(items: seq<Json>, v: Json)
    ensures Equals(v, Arr(items)) <==> v.Arr? && |v.items| == |items| && forall i :: 0 <= i < |items| ==> Equals(v.items[i], items[i])
  {
  }

  lemma ObjectEquals(members: map<string, Json>, v: Json)
    ensures Equals(v, Obj(members)) <==>
      v.Obj? && v.members.Keys == members.Keys && forall k :: k in members ==> Equals(v.members[k], members[k])
  {
  }

  lemma LiteralField(members: map<string, Json>, exact: string -> bool, i: nat)
    requires LiteralOk(Obj(members), exact)
    ensures var t := LiteralType(Obj(members), exact);
            && t.Shape? && !t.open && |t.names| == |t.types| == |t.optional| && (forall k :: k in t.names <==> k in members)
            && (i < |t.names| ==>
                  t.names[i] in members && t.types[i] == LiteralType(members[t.names[i]], exact) && !t.optional[i])
  {
    var names := SortedNames(members.Keys);
    if i < |names| { assert names[i] in names; }
  }

  lemma ObjectLiteral(members: map<string, Json>, v: Json, exact: string -> bool)
    requires v.Obj? && LiteralOk(Obj(members), exact)
    ensures Inhabits(v, LiteralType(Obj(members), exact)) <==>
      v.members.Keys == members.Keys && forall k :: k in members ==> Inhabits(v.members[k], LiteralType(members[k], exact))
  {
    var t := LiteralType(Obj(members), exact);
    LiteralField(members, exact, 0);
    forall i | 0 <= i < |t.names|
      ensures t.names[i] in members && t.types[i] == LiteralType(members[t.names[i]], exact) && !t.optional[i]
    {
      LiteralField(members, exact, i);
    }
    ShapeOfMembers(members, v, t, exact);
  }

  lemma ShapeOfMembers(members: map<string, Json>, v: Json, t: Type, exact: string -> bool)
    requires v.Obj? && LiteralOk(Obj(members), exact)
    requires t.Shape? && !t.open && |t.names| == |t.types| == |t.optional| && (forall k :: k in t.names <==> k in members)
    requires forall i :: 0 <= i < |t.names| ==>
      t.names[i] in members && t.types[i] == LiteralType(members[t.names[i]], exact) && !t.optional[i]
    ensures Inhabits(v, t) <==>
      v.members.Keys == members.Keys && forall k :: k in members ==> Inhabits(v.members[k], LiteralType(members[k], exact))
  {
    if Inhabits(v, t) {
      forall k | k in members ensures k in v.members && Inhabits(v.members[k], LiteralType(members[k], exact)) {
        var i :| 0 <= i < |t.names| && t.names[i] == k;
        assert t.types[i] == LiteralType(members[k], exact);
      }
      assert v.members.Keys == members.Keys;
    } else if v.members.Keys == members.Keys {
      assert forall k :: k in v.members ==> k in t.names;
    }
  }

  lemma TupleLiteral(items: seq<Json>, v: Json, exact: string -> bool)
    requires LiteralOk(Arr(items), exact)
    ensures Inhabits(v, LiteralType(Arr(items), exact)) <==>
      v.Arr? && |v.items| == |items| && forall i :: 0 <= i < |items| ==> Inhabits(v.items[i], LiteralType(items[i], exact))
  {
  }

  /** A literal's type holds exactly the values equal to the literal. */
  lemma {:induction false} LiteralExactly(c: Json, v: Json, exact: string -> bool)
    requires NumbersValid(c) && LiteralOk(c, exact)
    ensures Inhabits(v, LiteralType(c, exact)) <==> Equals(v, c)
    decreases c, 1
  {
    match c
    case Num(text) => if v.Num? { NumberLiteral(text, v); }
    case Arr(items) => ArrayLiteralExactly(items, v, exact);
    case Obj(members) => ObjectLiteralExactly(members, v, exact);
    case _ =>
  }

  lemma {:induction false} ArrayLiteralExactly(items: seq<Json>, v: Json, exact: string -> bool)
    requires NumbersValid(Arr(items)) && LiteralOk(Arr(items), exact)
    ensures Inhabits(v, LiteralType(Arr(items), exact)) <==> Equals(v, Arr(items))
    decreases Arr(items), 0
  {
    ArrayEquals(items, v);
    TupleLiteral(items, v, exact);
    if v.Arr? && |v.items| == |items| {
      forall i | 0 <= i < |items| ensures Inhabits(v.items[i], LiteralType(items[i], exact)) <==> Equals(v.items[i], items[i]) {
        LiteralExactly(items[i], v.items[i], exact);
      }
    }
  }

  lemma {:induction false} ObjectLiteralExactly(members: map<string, Json>, v: Json, exact: string -> bool)
    requires NumbersValid(Obj(members)) && LiteralOk(Obj(members), exact)
    ensures Inhabits(v, LiteralType(Obj(members), exact)) <==> Equals(v, Obj(members))
    decreases Obj(members), 0
  {
    ObjectEquals(members, v);
    if v.Obj? {
      ObjectLiteral(members, v, exact);
      forall k | k in members && k in v.members
        ensures Inhabits(v.members[k], LiteralType(members[k], exact)) <==> Equals(v.members[k], members[k])
      {
        LiteralExactly(members[k], v.members[k], exact);
      }
    } else {
      LiteralField(members, exact, 0);
    }
  }

  lemma {:induction false} LiteralsAt(vs: seq<Json>, exact: string -> bool, i: nat)
    requires Literals(vs, exact).Some? && i < |vs|
    ensures LiteralOk(vs[i], exact) && Literals(vs, exact).value[i] == LiteralType(vs[i], exact)
  {
    if i > 0 { LiteralsAt(vs[1..], exact, i - 1); }
  }

  lemma {:induction false} CompiledAt(vs: seq<Json>, exact: string -> bool, i: nat)
    requires CompileAll(vs, exact).Some? && i < |vs|
    ensures Compile(vs[i], exact) == Some(CompileAll(vs, exact).value[i])
  {
    if i > 0 { CompiledAt(vs[1..], exact, i - 1); }
  }

  lemma {:induction false} MemberCompiledAt(v: Json, names: seq<string>, exact: string -> bool, i: nat)
    requires v.Obj? && forall j :: 0 <= j < |names| ==> names[j] in v.members
    requires CompileMembers(v, names, exact).Some? && i < |names|
    ensures Compile(v.members[names[i]], exact) == Some(CompileMembers(v, names, exact).value[i])
  {
    if i > 0 { MemberCompiledAt(v, names[1..], exact, i - 1); }
  }

  /** Every value that is valid under the schema inhabits the compiled type,
      whatever references lead to and other keywords demand. */
  lemma {:induction false} CompileIsSound(g: Engine, s: Json, v: Json, exact: string -> bool)
    requires RefsLoose(s, exact)
    requires Compile(s, exact).Some? && Valid(g, s, v)
    ensures Inhabits(v, Compile(s, exact).value)
    decreases s, 1
  {
    if s.Obj? && "$ref" in s.members {
      LooseIsUniversal(s, v, exact);
    } else if s.Obj? {
      var m := s.members;
      if "const" in m {
        LiteralExactly(m["const"], v, exact);
      } else if IsArray(m, "enum") {
        EnumIsSound(m["enum"].items, v, exact);
      } else if IsArray(m, "oneOf") {
        var i :| 0 <= i < |m["oneOf"].items| && Valid(g, m["oneOf"].items[i], v);
        CompiledAt(m["oneOf"].items, exact, i);
        CompileIsSound(g, m["oneOf"].items[i], v, exact);
      } else if "type" in m && m["type"].Str? {
        TypedIsSound(g, s, v, exact);
      }
    }
  }

  lemma EnumIsSound(choices: seq<Json>, v: Json, exact: string -> bool)
    requires Literals(choices, exact).Some?
    requires exists i :: 0 <= i < |choices| && Equals(v, choices[i])
    ensures Inhabits(v, Union(Literals(choices, exact).value))
  {
    var i :| 0 <= i < |choices| && Equals(v, choices[i]);
    LiteralsAt(choices, exact, i);
    LiteralExactly(choices[i], v, exact);
  }

  lemma {:induction false} TypedIsSound(g: Engine, s: Json, v: Json, exact: string -> bool)
    requires RefsLoose(s, exact)
    requires s.Obj? && "$ref" !in s.members && "type" in s.members && s.members["type"].Str?
    requires CompileTyped(s, s.members["type"].s, exact).Some? && Valid(g, s, v)
    ensures Inhabits(v, CompileTyped(s, s.members["type"].s, exact).value)
    decreases s, 0
  {
    var m := s.members;
    assert HasType(v, m["type"].s);
    if m["type"].s == "array" {
      if "items" in m && !m["items"].Arr? {
        forall i | 0 <= i < |v.items| ensures Inhabits(v.items[i], Compile(m["items"], exact).value) {
          CompileIsSound(g, m["items"], v.items[i], exact);
        }
      }
    } else if m["type"].s == "object" {
      if MembersOf(m, "properties") != map[] {
        forall k | k in m["properties"].members && k in v.members && Compile(m["properties"].members[k], exact).Some?
          ensures Inhabits(v.members[k], Compile(m["properties"].members[k], exact).value)
        {
          CompileIsSound(g, m["properties"].members[k], v.members[k], exact);
        }
        ShapeIsSound(g, s, v, exact);
      } else {
        forall k | k in v.members && Restricts(m) && m["additionalProperties"].Obj?
          ensures Inhabits(v.members[k], Compile(m["additionalProperties"], exact).value)
        {
          AdditionalIsValid(g, s, v, k);
          CompileIsSound(g, m["additionalProperties"], v.members[k], exact);
        }
        RecordIsSound(g, s, v, exact);
      }
    }
  }

  predicate Restricts(m: map<string, Json>) {
    MembersOf(m, "properties") == map[] && MembersOf(m, "patternProperties") == map[] && "additionalProperties" in m
  }

  lemma AdditionalIsValid(g: Engine, s: Json, v: Json, k: string)
    requires s.Obj? && v.Obj? && "$ref" !in s.members && Valid(g, s, v) && Restricts(s.members) && k in v.members
    ensures Valid(g, s.members["additionalProperties"], v.members[k])
  {
    assert ValidNested(g, s, v);
    assert Additional(g, s.members, k);
  }

  lemma RecordIsSound(g: Engine, s: Json, v: Json, exact: string -> bool)
    requires s.Obj? && v.Obj? && "$ref" !in s.members && Valid(g, s, v)
    requires MembersOf(s.members, "properties") == map[] && CompileObject(s, exact).Some?
    requires Restricts(s.members) && s.members["additionalProperties"].Obj? ==>
      forall k :: k in v.members ==> Inhabits(v.members[k], Compile(s.members["additionalProperties"], exact).value)
    ensures Inhabits(v, CompileObject(s, exact).value)
  {
    if Restricts(s.members) && s.members["additionalProperties"].Bool? {
      forall k | k in v.members ensures s.members["additionalProperties"].b { AdditionalIsValid(g, s, v, k); }
    }
  }

  lemma ShapeField(g: Engine, s: Json, v: Json, exact: string -> bool, i: nat)
    requires s.Obj? && v.Obj? && "$ref" !in s.members && Valid(g, s, v)
    requires MembersOf(s.members, "properties") != map[] && CompileObject(s, exact).Some?
    requires forall k :: k in s.members["properties"].members && k in v.members && Compile(s.members["properties"].members[k], exact).Some? ==>
      Inhabits(v.members[k], Compile(s.members["properties"].members[k], exact).value)
    ensures var t := CompileObject(s, exact).value;
            && t.Shape? && |t.names| == |t.types| == |t.optional|
            && (i < |t.names| ==> if t.names[i] in v.members then Inhabits(v.members[t.names[i]], t.types[i]) else t.optional[i])
  {
    var t := CompileObject(s, exact).value;
    assert ValidScalar(s.members, v);
    if i < |t.names| {
      MemberCompiledAt(s.members["properties"], t.names, exact, i);
      assert t.names[i] in t.names;
    }
  }

  lemma ClosedShape(g: Engine, s: Json, v: Json, k: string)
    requires s.Obj? && v.Obj? && "$ref" !in s.members && Valid(g, s, v) && !Open(s.members) && k in v.members
    ensures k in MembersOf(s.members, "properties")
  {
    assert ValidNested(g, s, v);
    if k !in MembersOf(s.members, "properties") {
      assert Additional(g, s.members, k);
    }
  }

  lemma ShapeIsSound(g: Engine, s: Json, v: Json, exact: string -> bool)
    requires s.Obj? && v.Obj? && "$ref" !in s.members && Valid(g, s, v)
    requires MembersOf(s.members, "properties") != map[] && CompileObject(s, exact).Some?
    requires forall k :: k in s.members["properties"].members && k in v.members && Compile(s.members["properties"].members[k], exact).Some? ==>
      Inhabits(v.members[k], Compile(s.members["properties"].members[k], exact).value)
    ensures Inhabits(v, CompileObject(s, exact).value)
  {
    var t := CompileObject(s, exact).value;
    ShapeField(g, s, v, exact, 0);
    forall i | 0 <= i < |t.names|
      ensures if t.names[i] in v.members then Inhabits(v.members[t.names[i]], t.types[i]) else t.optional[i]
    {
      ShapeField(g, s, v, exact, i);
    }
    if !t.open {
      forall k | k in v.members ensures k in t.names { ClosedShape(g, s, v, k); }
    }
  }

  /** Wherever the compiler meets a reference, it stands alone. */
  predicate RefsAlone(v: Json)
    decreases v
  {
    v.Obj? ==>
      var m := v.members;
      && ("$ref" in m ==> m.Keys == {"$ref"})
      && (IsArray(m, "oneOf") ==> forall i :: 0 <= i < |m["oneOf"].items| ==> RefsAlone(m["oneOf"].items[i]))
      && ("items" in m ==> RefsAlone(m["items"]))
      && ("properties" in m && m["properties"].Obj? ==> forall k :: k in m["properties"].members ==> RefsAlone(m["properties"].members[k]))
      && ("additionalProperties" in m ==> RefsAlone(m["additionalProperties"]))
  }

  lemma {:induction false} AloneIsLoose(v: Json, exact: string -> bool)
    requires RefsAlone(v)
    ensures RefsLoose(v, exact)
    decreases v
  {
    if v.Obj? {
      var m := v.members;
      if "$ref" in m {
        assert m.Keys == {"$ref"};
        assert "const" !in m.Keys && "enum" !in m.Keys && "oneOf" !in m.Keys && "type" !in m.Keys;
        assert Loose(m);
      }
      if IsArray(m, "oneOf") {
        forall i | 0 <= i < |m["oneOf"].items| ensures RefsLoose(m["oneOf"].items[i], exact) {
          AloneIsLoose(m["oneOf"].items[i], exact);
        }
      }
      if "items" in m { AloneIsLoose(m["items"], exact); }
      if "properties" in m && m["properties"].Obj? {
        forall k | k in m["properties"].members ensures RefsLoose(m["properties"].members[k], exact) {
          AloneIsLoose(m["properties"].members[k], exact);
        }
      }
      if "additionalProperties" in m { AloneIsLoose(m["additionalProperties"], exact); }
    }
  }

  /** Soundness for schemas in which no reference has siblings. */
  lemma SoundWithoutSiblings(g: Engine, s: Json, v: Json, exact: string -> bool)
    requires RefsAlone(s) && Compile(s, exact).Some? && Valid(g, s, v)
    ensures Inhabits(v, Compile(s, exact).value)
  {
    AloneIsLoose(s, exact);
    CompileIsSound(g, s, v, exact);
  }

  lemma ChoiceAdmits(branches: seq<Json>, v: Json, exact: string -> bool)
    requires CompileAll(branches, exact).Some?
    ensures Inhabits(v, Union(CompileAll(branches, exact).value)) <==> AdmittedBySome(branches, v, exact)
  {
    var types := CompileAll(branches, exact).value;
    forall i | 0 <= i < |branches| ensures Compile(branches[i], exact) == Some(types[i]) { CompiledAt(branches, exact, i); }
    if Inhabits(v, Union(types)) {
      var i :| 0 <= i < |types| && Inhabits(v, types[i]);
      assert Compile(branches[i], exact).Some?;
    }
    if AdmittedBySome(branches, v, exact) {
      var i :| 0 <= i < |branches| && Compile(branches[i], exact).Some? && Inhabits(v, Compile(branches[i], exact).value);
      assert Inhabits(v, types[i]);
    }
  }

  /** Beside nothing that is read, or an open choice, every value inhabits the type. */
  lemma LooseIsUniversal(s: Json, v: Json, exact: string -> bool)
    requires s.Obj? && (Loose(s.members) || OpenChoice(s.members, exact)) && Compile(s, exact).Some?
    ensures Inhabits(v, Compile(s, exact).value)
  {
    if OpenChoice(s.members, exact) {
      assert AdmittedBySome(s.members["oneOf"].items, v, exact);
      ChoiceAdmits(s.members["oneOf"].items, v, exact);
    }
  }

  function Longest(choices: seq<Json>): nat {
    if choices == [] then 0
    else
      var rest, n := Longest(choices[1..]), if choices[0].Str? then |choices[0].s| else 0;
      if n > rest then n else rest
  }

  lemma {:induction false} LongestBounds(choices: seq<Json>, i: nat)
    requires i < |choices| && choices[i].Str?
    ensures |choices[i].s| <= Longest(choices)
  {
    if i > 0 { LongestBounds(choices[1..], i - 1); }
  }

  /** No finite choice of literals admits every value. */
  lemma LiteralsAreNarrow(choices: seq<Json>, exact: string -> bool) returns (v: Json)
    requires Literals(choices, exact).Some?
    ensures !Inhabits(v, Union(Literals(choices, exact).value))
  {
    v := Str(seq(Longest(choices) + 1, i => 'a'));
    forall i | 0 <= i < |choices| ensures !Inhabits(v, Literals(choices, exact).value[i]) {
      LiteralsAt(choices, exact, i);
      if choices[i].Str? { LongestBounds(choices, i); }
    }
  }

  /** A reference beside something that the compiler reads, other than an open
      choice, is compiled to a type that misses some value. */
  lemma TightIsNarrow(s: Json, exact: string -> bool) returns (v: Json)
    requires s.Obj? && !Loose(s.members) && !OpenChoice(s.members, exact) && Compile(s, exact).Some?
    ensures !Inhabits(v, Compile(s, exact).value)
  {
    var m := s.members;
    if "const" in m {
      v := if m["const"].Null? then Bool(true) else Null;
    } else if IsArray(m, "enum") {
      v := LiteralsAreNarrow(m["enum"].items, exact);
    } else if IsArray(m, "oneOf") {
      v :| !AdmittedBySome(m["oneOf"].items, v, exact);
      ChoiceAdmits(m["oneOf"].items, v, exact);
    } else {
      v := Null;
      TypedRefusesNull(s, m["type"].s, exact);
    }
  }

  lemma ObjectTypeRefusesNull(t: Type)
    requires t.Shape? || t.RecordOf?
    ensures !Inhabits(Null, t)
  {
  }

  lemma TypedRefusesNull(s: Json, name: string, exact: string -> bool)
    requires s.Obj? && CompiledType(name) && CompileTyped(s, name, exact).Some?
    ensures !Inhabits(Null, CompileTyped(s, name, exact).value)
  {
    if name == "object" { ObjectTypeRefusesNull(CompileObject(s, exact).value); }
  }

  /** A reference is compiled soundly, for every target it may have, exactly when
      no keyword that the compiler reads stands beside it, or only a `oneOf`
      whose branches admit every value. */
  lemma RefSiblingsExactly(s: Json, exact: string -> bool)
    requires s.Obj? && "$ref" in s.members && Compile(s, exact).Some?
    ensures SoundFor(s, Compile(s, exact).value) <==> Loose(s.members) || OpenChoice(s.members, exact)
  {
    var t := Compile(s, exact).value;
    if Loose(s.members) || OpenChoice(s.members, exact) {
      forall v ensures Inhabits(v, t) { LooseIsUniversal(s, v, exact); }
    } else {
      var v := TightIsNarrow(s, exact);
      var g := Engine((x, y) => true, (x, y) => true, (x, y) => true);
      assert !(Valid(g, s, v) ==> Inhabits(v, t));
    }
  }

  /** Under every engine, valid values inhabit the type. */
  ghost predicate SoundFor(s: Json, t: Type) {
    forall g: Engine, v: Json :: Valid(g, s, v) ==> Inhabits(v, t)
  }

  /** For instance, a reference beside `type: string` refuses `null`. */
  lemma SiblingsAreUnsound(exact: string -> bool)
    ensures var s := Obj(map["$ref" := Str("#"), "type" := Str("string")]);
            && Compile(s, exact) == Some(StringType)
            && exists g :: Valid(g, s, Null) && !Inhabits(Null, StringType)
  {
    var s := Obj(map["$ref" := Str("#"), "type" := Str("string")]);
    var g := Engine((x, y) => true, (x, y) => true, (x, y) => true);
    assert |"$ref"| == 4 && |"const"| == 5 && |"oneOf"| == 5 && "enum"[0] == 'e' && "type"[0] == 't' && "$ref"[0] == '$';
    assert Valid(g, s, Null) && !Inhabits(Null, StringType);
  }

  // ---------- The compiler as the program runs it ----------

  method SchemaNodeTypeScript(v: Json, exact: string -> bool) returns (r: Option<Type>)
    ensures r == Compile(v, exact)
    decreases v, 1
  {
    if !v.Obj? { return Some(Unknown); }
    var m := v.members;
    if "const" in m { return Literal(m["const"], exact); }
    if IsArray(m, "enum") {
      var choices, parts := m["enum"].items, [];
      WholeRest(choices, Literals(choices, exact));
      for i := 0 to |choices|
        invariant |parts| == i && Prefixed(parts, Literals(choices[i..], exact)) == Literals(choices, exact)
      {
        var literal := Literal(choices[i], exact);
        Rest(choices, i);
        if literal.None? { return None; }
        PrefixStep(parts, literal.value, Literals(choices[i + 1..], exact));
        parts := parts + [literal.value];
      }
      EmptyRest(choices, parts);
      return Some(Union(parts));
    }
    if IsArray(m, "oneOf") {
      var choices, parts := m["oneOf"].items, [];
      WholeRest(choices, CompileAll(choices, exact));
      for i := 0 to |choices|
        invariant |parts| == i && Prefixed(parts, CompileAll(choices[i..], exact)) == CompileAll(choices, exact)
      {
        var converted := SchemaNodeTypeScript(choices[i], exact);
        Rest(choices, i);
        if converted.None? { return None; }
        PrefixStep(parts, converted.value, CompileAll(choices[i + 1..], exact));
        parts := parts + [converted.value];
      }
      EmptyRest(choices, parts);
      return Some(Union(parts));
    }
    if "type" !in m || !m["type"].Str? { return Some(Unknown); }
    if m["type"].s == "object" {
      r := ObjectTypeScript(v, exact);
      return;
    }
    if m["type"].s == "array" && "items" in m {
      var item := SchemaNodeTypeScript(m["items"], exact);
      return if item.None? then None else Some(ArrayOf(item.value));
    }
    return CompileTyped(v, m["type"].s, exact);
  }

  method ObjectTypeScript(v: Json, exact: string -> bool) returns (r: Option<Type>)
    requires v.Obj?
    ensures r == CompileObject(v, exact)
    decreases v, 0
  {
    var m := v.members;
    if MembersOf(m, "properties") == map[] {
      if MembersOf(m, "patternProperties") != map[] || "additionalProperties" !in m { return Some(RecordOf(Unknown)); }
      match m["additionalProperties"] {
        case Bool(b) => return Some(RecordOf(if b then Unknown else Never));
        case Obj(_) =>
          var value := SchemaNodeTypeScript(m["additionalProperties"], exact);
          return if value.None? then None else Some(RecordOf(value.value));
        case _ => return Some(RecordOf(Unknown));
      }
    }
    var names := SortedNames(m["properties"].members.Keys);
    var types := PropertyTypes(m["properties"], names, exact);
    if types.None? { return None; }
    return Some(Shape(names, types.value, seq(|names|, i requires 0 <= i < |names| => !Required(m, names[i])), Open(m)));
  }

  method PropertyTypes(props: Json, names: seq<string>, exact: string -> bool) returns (r: Option<seq<Type>>)
    requires props.Obj? && forall i :: 0 <= i < |names| ==> names[i] in props.members
    ensures r == CompileMembers(props, names, exact)
    decreases props, 2
  {
    var types := [];
    WholeRest(names, CompileMembers(props, names, exact));
    for i := 0 to |names|
      invariant |types| == i && Prefixed(types, CompileMembers(props, names[i..], exact)) == CompileMembers(props, names, exact)
    {
      var converted := SchemaNodeTypeScript(props.members[names[i]], exact);
      Rest(names, i);
      if converted.None? { return None; }
      PrefixStep(types, converted.value, CompileMembers(props, names[i + 1..], exact));
      types := types + [converted.value];
    }
    EmptyRest(names, types);
    return Some(types);
  }

  ghost function Prefixed(done: seq<Type>, rest: Option<seq<Type>>): Option<seq<Type>> {
    if rest.None? then None else Some(done + rest.value)
  }

  lemma Rest<T>(s: seq<T>, i: nat)
    requires i < |s|
    ensures s[i..] != [] && s[i..][0] == s[i] && s[i..][1..] == s[i + 1..]
  {
  }

  lemma PrefixStep(done: seq<Type>, t: Type, rest: Option<seq<Type>>)
    ensures rest.Some? ==> Prefixed(done, Some([t] + rest.value)) == Prefixed(done + [t], rest)
  {
    if rest.Some? { assert done + ([t] + rest.value) == done + [t] + rest.value; }
  }

  lemma EmptyRest<T>(s: seq<T>, done: seq<Type>)
    ensures s[|s|..] == [] && Prefixed(done, Some([])) == Some(done)
  {
    assert done + [] == done;
  }

  lemma WholeRest<T>(s: seq<T>, rest: Option<seq<Type>>)
    ensures s[0..] == s && Prefixed([], rest) == rest
  {
    if rest.Some? { assert [] + rest.value == rest.value; }
  }
}
