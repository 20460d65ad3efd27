/** Bounded decoding and canonicalization of JSON documents, over the token
    stream of a JSON reader. */
module Documents {
  import opened Sequences
  import opened Common
  import opened Ordering
  import opened Numbers
  import D = Decimals

  datatype Token =
    | NullT | BoolT(b: bool) | StringT(s: string) | NumberT(text: string)
    | OpenObject | CloseObject | OpenArray | CloseArray

  /** A decoded value: objects are maps, numbers keep their text. */
  datatype Json =
    | Null | Bool(b: bool) | Str(s: string) | Num(text: string)
    | Arr(items: seq<Json>) | Obj(members: map<string, Json>)

  /** A syntax tree: objects keep the order of their members. */
  datatype Doc = Scalar(t: Token) | DArr(values: seq<Doc>) | DObj(names: seq<string>, values: seq<Doc>)

  datatype Limits = Limits(maxDepth: nat, maxNodes: nat, maxNumber: nat)

  predicate IsScalar(t: Token) {
    t.NullT? || t.BoolT? || t.StringT? || t.NumberT?
  }

  function ScalarValue(t: Token): Json
    requires IsScalar(t)
  {
    match t
    case NullT => Null
    case BoolT(b) => Bool(b)
    case StringT(s) => Str(s)
    case NumberT(text) => Num(text)
  }

  // ---------- Syntax trees ----------

  /** Well-formed, without duplicate members, numbers within the limit, and at
      most `depth` nested containers. */
  predicate Fits(d: Doc, lim: Limits, depth: nat)
    decreases d
  {
    match d
    case Scalar(t) => IsScalar(t) && (t.NumberT? ==> |t.text| <= lim.maxNumber)
    case DArr(values) =>
      depth < lim.maxDepth && forall i :: 0 <= i < |values| ==> Fits(values[i], lim, depth + 1)
    case DObj(names, values) =>
      && depth < lim.maxDepth && |names| == |values| && NoDup(names)
      && forall i :: 0 <= i < |values| ==> Fits(values[i], lim, depth + 1)
  }

  function Nodes(d: Doc): nat
    decreases d, 1
  {
    match d
    case Scalar(_) => 1
    case DArr(values) => 1 + NodesOfAll(values)
    case DObj(_, values) => 1 + NodesOfAll(values)
  }

  function NodesOfAll(ds: seq<Doc>): nat
    decreases ds, 0
  {
    if ds == [] then 0 else Nodes(ds[0]) + NodesOfAll(ds[1..])
  }

  function Encode(d: Doc): (r: seq<Token>)
    ensures |r| > 0
    decreases d, 1
  {
    match d
    case Scalar(t) => [t]
    case DArr(values) => [OpenArray] + (EncodeItems(values) + [CloseArray])
    case DObj(names, values) => [OpenObject] + (EncodeMembers(names, values) + [CloseObject])
  }

  function EncodeItems(ds: seq<Doc>): seq<Token>
    decreases ds, 0
  {
    if ds == [] then [] else Encode(ds[0]) + EncodeItems(ds[1..])
  }

  function EncodeMembers(names: seq<string>, ds: seq<Doc>): seq<Token>
    decreases ds, 0
  {
    if names == [] || ds == [] then [] else [StringT(names[0])] + (Encode(ds[0]) + EncodeMembers(names[1..], ds[1..]))
  }

  /** The value of a syntax tree. */
  function Erase(d: Doc): Json
    decreases d
  {
    match d
    case Scalar(t) => if IsScalar(t) then ScalarValue(t) else Null
    case DArr(values) => Arr(seq(|values|, i requires 0 <= i < |values| => Erase(values[i])))
    case DObj(names, values) =>
      if |names| != |values| then Obj(map[])
      else Obj(map k | k in names :: Erase(values[IndexIn(names, k)]))
  }

  function IndexIn(names: seq<string>, k: string): (i: nat)
    requires k in names
    ensures i < |names| && names[i] == k
  {
    if names[0] == k then 0 else 1 + IndexIn(names[1..], k)
  }

  // ---------- Parsing ----------

  datatype Parsed = Parsed(doc: Doc, rest: seq<Token>, nodes: nat)

  function Parse(ts: seq<Token>, lim: Limits, nodes: nat, depth: nat): (r: Option<Parsed>)
    ensures r.Some? ==> |r.value.rest| < |ts|
    decreases |ts|, 0
  {
    if nodes + 1 > lim.maxNodes || ts == [] then None
    else if IsScalar(ts[0]) then
      if ts[0].NumberT? && |ts[0].text| > lim.maxNumber then None
      else Some(Parsed(Scalar(ts[0]), ts[1..], nodes + 1))
    else if depth >= lim.maxDepth then None
    else if ts[0].OpenObject? then ParseMembers(ts[1..], lim, nodes + 1, depth + 1, [], [])
    else if ts[0].OpenArray? then ParseItems(ts[1..], lim, nodes + 1, depth + 1, [])
    else None
  }

  function ParseItems(ts: seq<Token>, lim: Limits, nodes: nat, depth: nat, done: seq<Doc>): (r: Option<Parsed>)
    ensures r.Some? ==> |r.value.rest| < |ts|
    decreases |ts|, 1
  {
    if ts == [] || ts[0] == CloseObject then None
    else if ts[0] == CloseArray then Some(Parsed(DArr(done), ts[1..], nodes))
    else
      match Parse(ts, lim, nodes, depth)
      case None => None
      case Some(p) => ParseItems(p.rest, lim, p.nodes, depth, done + [p.doc])
  }

  function ParseMembers(ts: seq<Token>, lim: Limits, nodes: nat, depth: nat, names: seq<string>, done: seq<Doc>)
    : (r: Option<Parsed>)
    ensures r.Some? ==> |r.value.rest| < |ts|
    decreases |ts|, 1
  {
    if ts == [] || ts[0] == CloseArray then None
    else if ts[0] == CloseObject then Some(Parsed(DObj(names, done), ts[1..], nodes))
    else if !ts[0].StringT? || ts[0].s in names then None
    else
      match Parse(ts[1..], lim, nodes, depth)
      case None => None
      case Some(p) => ParseMembers(p.rest, lim, p.nodes, depth, names + [ts[0].s], done + [p.doc])
  }

  function Decode(ts: seq<Token>, lim: Limits): Option<Json> {
    match Parse(ts, lim, 0, 0)
    case None => None
    case Some(p) => if p.rest == [] then Some(Erase(p.doc)) else None
  }

  // ---------- Parsing is sound ----------

  ghost predicate ParsedOk(ts: seq<Token>, lim: Limits, nodes: nat, depth: nat, p: Parsed) {
    && ts == Encode(p.doc) + p.rest && Fits(p.doc, lim, depth)
    && p.nodes == nodes + Nodes(p.doc) && p.nodes <= lim.maxNodes
  }

  lemma {:induction false} ParseSound(ts: seq<Token>, lim: Limits, nodes: nat, depth: nat)
    ensures var r := Parse(ts, lim, nodes, depth); r.Some? ==> ParsedOk(ts, lim, nodes, depth, r.value)
    decreases |ts|, 0
  {
    var r := Parse(ts, lim, nodes, depth);
    if r.Some? {
      if IsScalar(ts[0]) {
        assert ts == [ts[0]] + ts[1..];
      } else if ts[0].OpenObject? {
        MembersSound(ts[1..], lim, nodes + 1, depth + 1, [], []);
        WholeObject(ts, lim, nodes, depth, r.value);
      } else {
        ItemsSound(ts[1..], lim, nodes + 1, depth + 1, []);
        WholeArray(ts, lim, nodes, depth, r.value);
      }
    }
  }

  lemma WholeObject(ts: seq<Token>, lim: Limits, nodes: nat, depth: nat, p: Parsed)
    requires ts != [] && ts[0] == OpenObject && depth < lim.maxDepth && nodes + 1 <= lim.maxNodes
    requires p.doc.DObj? && |p.doc.names| == |p.doc.values| && NoDup(p.doc.names)
    requires ts[1..] == EncodeMembers(p.doc.names[0..], p.doc.values[0..]) + [CloseObject] + p.rest
    requires p.nodes == nodes + 1 + NodesOfAll(p.doc.values[0..]) && (|p.doc.values| > 0 ==> p.nodes <= lim.maxNodes)
    requires forall i :: 0 <= i < |p.doc.values| ==> Fits(p.doc.values[i], lim, depth + 1)
    ensures ParsedOk(ts, lim, nodes, depth, p)
  {
    assert p.doc.names[0..] == p.doc.names && p.doc.values[0..] == p.doc.values;
    assert ts == [OpenObject] + ts[1..];
  }

  lemma WholeArray(ts: seq<Token>, lim: Limits, nodes: nat, depth: nat, p: Parsed)
    requires ts != [] && ts[0] == OpenArray && depth < lim.maxDepth && nodes + 1 <= lim.maxNodes
    requires p.doc.DArr? && ts[1..] == EncodeItems(p.doc.values[0..]) + [CloseArray] + p.rest
    requires p.nodes == nodes + 1 + NodesOfAll(p.doc.values[0..]) && (|p.doc.values| > 0 ==> p.nodes <= lim.maxNodes)
    requires forall i :: 0 <= i < |p.doc.values| ==> Fits(p.doc.values[i], lim, depth + 1)
    ensures ParsedOk(ts, lim, nodes, depth, p)
  {
    assert p.doc.values[0..] == p.doc.values;
    assert ts == [OpenArray] + ts[1..];
  }

  lemma {:induction false} ItemsSound(ts: seq<Token>, lim: Limits, nodes: nat, depth: nat, done: seq<Doc>)
    requires forall i :: 0 <= i < |done| ==> Fits(done[i], lim, depth)
    ensures var r := ParseItems(ts, lim, nodes, depth, done);
            r.Some? ==>
              && r.value.doc.DArr? && done <= r.value.doc.values
              && var more := r.value.doc.values[|done|..];
              && ts == EncodeItems(more) + [CloseArray] + r.value.rest
              && r.value.nodes == nodes + NodesOfAll(more) && (more != [] ==> r.value.nodes <= lim.maxNodes)
              && forall i :: 0 <= i < |r.value.doc.values| ==> Fits(r.value.doc.values[i], lim, depth)
    decreases |ts|, 1
  {
    var r := ParseItems(ts, lim, nodes, depth, done);
    if r.Some? {
      if ts[0] == CloseArray {
        assert ts == [] + [CloseArray] + ts[1..];
      } else {
        ParseSound(ts, lim, nodes, depth);
        var p := Parse(ts, lim, nodes, depth).value;
        ItemsSound(p.rest, lim, p.nodes, depth, done + [p.doc]);
        OneItem(ts, done, p, r.value);
      }
    }
  }

  lemma OneItem(ts: seq<Token>, done: seq<Doc>, p: Parsed, r: Parsed)
    requires ts == Encode(p.doc) + p.rest && r.doc.DArr? && done + [p.doc] <= r.doc.values
    requires p.rest == EncodeItems(r.doc.values[|done| + 1..]) + [CloseArray] + r.rest
    ensures ts == EncodeItems(r.doc.values[|done|..]) + [CloseArray] + r.rest
    ensures NodesOfAll(r.doc.values[|done|..]) == Nodes(p.doc) + NodesOfAll(r.doc.values[|done| + 1..])
  {
    var more, later := r.doc.values[|done|..], r.doc.values[|done| + 1..];
    assert more == [p.doc] + later && more[1..] == later;
    Nested(Encode(p.doc), EncodeItems(later), [CloseArray], r.rest);
  }

  lemma Nested(a: seq<Token>, b: seq<Token>, c: seq<Token>, d: seq<Token>)
    ensures a + (b + c + d) == (a + b) + c + d
  {
  }

  lemma {:induction false} MembersSound(ts: seq<Token>, lim: Limits, nodes: nat, depth: nat, names: seq<string>, done: seq<Doc>)
    requires |names| == |done| && NoDup(names) && forall i :: 0 <= i < |done| ==> Fits(done[i], lim, depth)
    ensures var r := ParseMembers(ts, lim, nodes, depth, names, done);
            r.Some? ==>
              var d := r.value.doc;
              && d.DObj? && names <= d.names && done <= d.values && |d.names| == |d.values| && NoDup(d.names)
              && ts == EncodeMembers(d.names[|names|..], d.values[|done|..]) + [CloseObject] + r.value.rest
              && r.value.nodes == nodes + NodesOfAll(d.values[|done|..])
              && (|d.values| > |done| ==> r.value.nodes <= lim.maxNodes)
              && forall i :: 0 <= i < |d.values| ==> Fits(d.values[i], lim, depth)
    decreases |ts|, 1
  {
    var r := ParseMembers(ts, lim, nodes, depth, names, done);
    if r.Some? {
      if ts[0] == CloseObject {
        assert ts == [] + [CloseObject] + ts[1..];
      } else {
        ParseSound(ts[1..], lim, nodes, depth);
        var p := Parse(ts[1..], lim, nodes, depth).value;
        MembersSound(p.rest, lim, p.nodes, depth, names + [ts[0].s], done + [p.doc]);
        OneMember(ts, names, done, p, r.value);
      }
    }
  }

  lemma OneMember(ts: seq<Token>, names: seq<string>, done: seq<Doc>, p: Parsed, r: Parsed)
    requires ts != [] && ts[0].StringT? && ts[1..] == Encode(p.doc) + p.rest && |names| == |done|
    requires r.doc.DObj? && names + [ts[0].s] <= r.doc.names && done + [p.doc] <= r.doc.values
    requires p.rest == EncodeMembers(r.doc.names[|names| + 1..], r.doc.values[|done| + 1..]) + [CloseObject] + r.rest
    ensures ts == EncodeMembers(r.doc.names[|names|..], r.doc.values[|done|..]) + [CloseObject] + r.rest
    ensures NodesOfAll(r.doc.values[|done|..]) == Nodes(p.doc) + NodesOfAll(r.doc.values[|done| + 1..])
  {
    var laterN, laterV := r.doc.names[|names| + 1..], r.doc.values[|done| + 1..];
    var moreN, moreV := r.doc.names[|names|..], r.doc.values[|done|..];
    assert moreN == [ts[0].s] + laterN && moreN[1..] == laterN;
    assert moreV == [p.doc] + laterV && moreV[1..] == laterV;
    assert ts == [ts[0]] + ts[1..];
  }

  // ---------- Parsing is complete ----------

  lemma {:induction false} ParseComplete(d: Doc, rest: seq<Token>, lim: Limits, nodes: nat, depth: nat)
    requires Fits(d, lim, depth) && nodes + Nodes(d) <= lim.maxNodes
    ensures Parse(Encode(d) + rest, lim, nodes, depth) == Some(Parsed(d, rest, nodes + Nodes(d)))
    decreases d, 1
  {
    match d
    case Scalar(t) => ScalarComplete(t, rest, lim, nodes, depth);
    case DArr(values) => ArrayCase(values, rest, lim, nodes, depth);
    case DObj(names, values) => ObjectCase(names, values, rest, lim, nodes, depth);
  }

  lemma {:induction false} ArrayCase(values: seq<Doc>, rest: seq<Token>, lim: Limits, nodes: nat, depth: nat)
    requires Fits(DArr(values), lim, depth) && nodes + Nodes(DArr(values)) <= lim.maxNodes
    ensures Parse(Encode(DArr(values)) + rest, lim, nodes, depth) == Some(Parsed(DArr(values), rest, nodes + Nodes(DArr(values))))
    decreases values, 1
  {
    ItemsComplete([], values, rest, lim, nodes + 1, depth + 1);
    ArrayComplete(values, rest, lim, nodes, depth);
  }

  lemma {:induction false} ObjectCase(names: seq<string>, values: seq<Doc>, rest: seq<Token>, lim: Limits, nodes: nat, depth: nat)
    requires Fits(DObj(names, values), lim, depth) && nodes + Nodes(DObj(names, values)) <= lim.maxNodes
    ensures Parse(Encode(DObj(names, values)) + rest, lim, nodes, depth) ==
            Some(Parsed(DObj(names, values), rest, nodes + Nodes(DObj(names, values))))
    decreases values, 1
  {
    FromNothing(names);
    MembersComplete([], [], names, values, rest, lim, nodes + 1, depth + 1);
    ObjectComplete(names, values, rest, lim, nodes, depth);
  }

  lemma ScalarComplete(t: Token, rest: seq<Token>, lim: Limits, nodes: nat, depth: nat)
    requires Fits(Scalar(t), lim, depth) && nodes < lim.maxNodes
    ensures Parse(Encode(Scalar(t)) + rest, lim, nodes, depth) == Some(Parsed(Scalar(t), rest, nodes + 1))
  {
    assert ([t] + rest)[1..] == rest;
  }

  lemma ArrayComplete(values: seq<Doc>, rest: seq<Token>, lim: Limits, nodes: nat, depth: nat)
    requires nodes < lim.maxNodes && depth < lim.maxDepth
    requires ParseItems(EncodeItems(values) + [CloseArray] + rest, lim, nodes + 1, depth + 1, []) ==
               Some(Parsed(DArr([] + values), rest, nodes + 1 + NodesOfAll(values)))
    ensures Parse(Encode(DArr(values)) + rest, lim, nodes, depth) == Some(Parsed(DArr(values), rest, nodes + Nodes(DArr(values))))
  {
    FromNothing(values);
    WithinArray(EncodeItems(values), rest, lim, nodes, depth);
  }

  lemma ObjectComplete(names: seq<string>, values: seq<Doc>, rest: seq<Token>, lim: Limits, nodes: nat, depth: nat)
    requires |names| == |values| && nodes < lim.maxNodes && depth < lim.maxDepth
    requires ParseMembers(EncodeMembers(names, values) + [CloseObject] + rest, lim, nodes + 1, depth + 1, [], []) ==
               Some(Parsed(DObj([] + names, [] + values), rest, nodes + 1 + NodesOfAll(values)))
    ensures Parse(Encode(DObj(names, values)) + rest, lim, nodes, depth) ==
            Some(Parsed(DObj(names, values), rest, nodes + Nodes(DObj(names, values))))
  {
    FromNothing(values);
    FromNothing(names);
    WithinObject(EncodeMembers(names, values), rest, lim, nodes, depth);
  }

  lemma WithinArray(body: seq<Token>, rest: seq<Token>, lim: Limits, nodes: nat, depth: nat)
    requires nodes < lim.maxNodes && depth < lim.maxDepth
    ensures Parse([OpenArray] + (body + [CloseArray]) + rest, lim, nodes, depth) ==
            ParseItems(body + [CloseArray] + rest, lim, nodes + 1, depth + 1, [])
  {
    Opened(OpenArray, body, CloseArray, rest);
  }

  lemma WithinObject(body: seq<Token>, rest: seq<Token>, lim: Limits, nodes: nat, depth: nat)
    requires nodes < lim.maxNodes && depth < lim.maxDepth
    ensures Parse([OpenObject] + (body + [CloseObject]) + rest, lim, nodes, depth) ==
            ParseMembers(body + [CloseObject] + rest, lim, nodes + 1, depth + 1, [], [])
  {
    Opened(OpenObject, body, CloseObject, rest);
  }

  lemma Opened(first: Token, body: seq<Token>, last: Token, rest: seq<Token>)
    ensures var ts := [first] + (body + [last]) + rest; ts[0] == first && ts[1..] == body + [last] + rest
  {
  }

  lemma OneDone<T>(done: seq<T>, s: seq<T>)
    requires s != []
    ensures done + [s[0]] + s[1..] == done + s
  {
  }

  lemma {:induction false} ItemsComplete(done: seq<Doc>, ds: seq<Doc>, rest: seq<Token>, lim: Limits, nodes: nat, depth: nat)
    requires forall i :: 0 <= i < |ds| ==> Fits(ds[i], lim, depth)
    requires nodes + NodesOfAll(ds) <= lim.maxNodes
    ensures ParseItems(EncodeItems(ds) + [CloseArray] + rest, lim, nodes, depth, done) ==
              Some(Parsed(DArr(done + ds), rest, nodes + NodesOfAll(ds)))
    decreases ds, 0
  {
    var ts := EncodeItems(ds) + [CloseArray] + rest;
    if ds == [] {
      assert ts == [CloseArray] + rest && ts[1..] == rest && done + ds == done;
    } else {
      var tail := EncodeItems(ds[1..]) + [CloseArray] + rest;
      assert ts == Encode(ds[0]) + tail;
      FirstToken(ds[0], lim, depth);
      ParseComplete(ds[0], tail, lim, nodes, depth);
      ItemsComplete(done + [ds[0]], ds[1..], rest, lim, nodes + Nodes(ds[0]), depth);
      OneDone(done, ds);
    }
  }

  lemma FreshHead(a: seq<string>, b: seq<string>)
    requires NoDup(a + b) && b != []
    ensures b[0] !in a
  {
    forall i | 0 <= i < |a| ensures a[i] != b[0] {
      assert (a + b)[i] == a[i] && (a + b)[|a|] == b[0];
    }
  }

  lemma FirstToken(d: Doc, lim: Limits, depth: nat)
    requires Fits(d, lim, depth)
    ensures Encode(d)[0] != CloseArray && Encode(d)[0] != CloseObject
  {
  }

  lemma {:induction false} MembersComplete(doneN: seq<string>, done: seq<Doc>, names: seq<string>, ds: seq<Doc>,
                                           rest: seq<Token>, lim: Limits, nodes: nat, depth: nat)
    requires |names| == |ds| && NoDup(doneN + names) && forall i :: 0 <= i < |ds| ==> Fits(ds[i], lim, depth)
    requires nodes + NodesOfAll(ds) <= lim.maxNodes
    ensures ParseMembers(EncodeMembers(names, ds) + [CloseObject] + rest, lim, nodes, depth, doneN, done) ==
              Some(Parsed(DObj(doneN + names, done + ds), rest, nodes + NodesOfAll(ds)))
    decreases ds, 0
  {
    if ds == [] {
      NoMoreMembers(doneN, done, names, ds, rest, lim, nodes, depth);
    } else {
      var tail := EncodeMembers(names[1..], ds[1..]) + [CloseObject] + rest;
      FreshHead(doneN, names);
      ParseComplete(ds[0], tail, lim, nodes, depth);
      MemberRead(doneN, done, names, ds, rest, lim, nodes, depth);
      OneDone(doneN, names);
      OneDone(done, ds);
      MembersComplete(doneN + [names[0]], done + [ds[0]], names[1..], ds[1..], rest, lim, nodes + Nodes(ds[0]), depth);
    }
  }

  /** Reading one member, given that its value reads back. */
  lemma MemberRead(doneN: seq<string>, done: seq<Doc>, names: seq<string>, ds: seq<Doc>, rest: seq<Token>, lim: Limits, nodes: nat,
                   depth: nat)
    requires |names| == |ds| > 0 && names[0] !in doneN
    requires var tail := EncodeMembers(names[1..], ds[1..]) + [CloseObject] + rest;
             Parse(Encode(ds[0]) + tail, lim, nodes, depth) == Some(Parsed(ds[0], tail, nodes + Nodes(ds[0])))
    ensures ParseMembers(EncodeMembers(names, ds) + [CloseObject] + rest, lim, nodes, depth, doneN, done) ==
      ParseMembers(EncodeMembers(names[1..], ds[1..]) + [CloseObject] + rest, lim, nodes + Nodes(ds[0]), depth,
                   doneN + [names[0]], done + [ds[0]])
  {
    MemberAhead(StringT(names[0]), Encode(ds[0]), EncodeMembers(names[1..], ds[1..]), [CloseObject], rest);
  }

  lemma NoMoreMembers(doneN: seq<string>, done: seq<Doc>, names: seq<string>, ds: seq<Doc>, rest: seq<Token>, lim: Limits,
                      nodes: nat, depth: nat)
    requires names == [] && ds == []
    ensures ParseMembers(EncodeMembers(names, ds) + [CloseObject] + rest, lim, nodes, depth, doneN, done) ==
              Some(Parsed(DObj(doneN + names, done + ds), rest, nodes))
  {
    var ts := EncodeMembers(names, ds) + [CloseObject] + rest;
    assert ts == [CloseObject] + rest && ts[1..] == rest;
    assert done + ds == done && doneN + names == doneN;
  }

  lemma MemberAhead(name: Token, d: seq<Token>, more: seq<Token>, close: seq<Token>, rest: seq<Token>)
    ensures var ts := [name] + (d + more) + close + rest; ts[0] == name && ts[1..] == d + (more + close + rest)
  {
  }

  /** Decoding accepts exactly the encodings of syntax trees that respect the
      depth, node and number budgets and repeat no member name, and returns
      their value. */
  lemma DecodeExactly(ts: seq<Token>, lim: Limits, v: Json)
    ensures Decode(ts, lim) == Some(v) <==>
              exists d :: ts == Encode(d) && Fits(d, lim, 0) && Nodes(d) <= lim.maxNodes && Erase(d) == v
  {
    if Decode(ts, lim) == Some(v) {
      ParseSound(ts, lim, 0, 0);
      var d := Parse(ts, lim, 0, 0).value.doc;
      assert ts == Encode(d) by { assert Encode(d) + [] == Encode(d); }
    }
    if d :| ts == Encode(d) && Fits(d, lim, 0) && Nodes(d) <= lim.maxNodes && Erase(d) == v {
      ParseComplete(d, [], lim, 0, 0);
      assert Encode(d) + [] == Encode(d);
    }
  }

  // ---------- Encodings are unambiguous ----------

  /** Well-formed syntax, whatever its size. */
  predicate Shaped(d: Doc)
    decreases d
  {
    match d
    case Scalar(t) => IsScalar(t)
    case DArr(values) => forall i :: 0 <= i < |values| ==> Shaped(values[i])
    case DObj(names, values) =>
      |names| == |values| && NoDup(names) && forall i :: 0 <= i < |values| ==> Shaped(values[i])
  }

  lemma {:induction false} FitsIsShaped(d: Doc, lim: Limits, depth: nat)
    requires Fits(d, lim, depth)
    ensures Shaped(d)
  {
    match d
    case Scalar(_) =>
    case DArr(values) =>
      forall i | 0 <= i < |values| ensures Shaped(values[i]) { FitsIsShaped(values[i], lim, depth + 1); }
    case DObj(_, values) =>
      forall i | 0 <= i < |values| ensures Shaped(values[i]) { FitsIsShaped(values[i], lim, depth + 1); }
  }

  lemma {:induction false} EncodeInjective(d: Doc, e: Doc, r: seq<Token>, s: seq<Token>)
    requires Shaped(d) && Shaped(e) && Encode(d) + r == Encode(e) + s
    ensures d == e && r == s
    decreases d, 1
  {
    var ts, us := Encode(d) + r, Encode(e) + s;
    assert ts[0] == Encode(d)[0] && us[0] == Encode(e)[0];
    match d
    case Scalar(_) => assert ts[1..] == r && us[1..] == s;
    case DArr(values) =>
      assert ts[1..] == EncodeItems(values) + [CloseArray] + r;
      assert us[1..] == EncodeItems(e.values) + [CloseArray] + s;
      ItemsInjective(values, e.values, r, s);
    case DObj(names, values) =>
      assert ts[1..] == EncodeMembers(names, values) + [CloseObject] + r;
      assert us[1..] == EncodeMembers(e.names, e.values) + [CloseObject] + s;
      MembersInjective(names, values, e.names, e.values, r, s);
  }

  lemma ShapedHead(d: Doc)
    requires Shaped(d)
    ensures Encode(d)[0] != CloseArray && Encode(d)[0] != CloseObject
  {
  }

  lemma {:induction false} ItemsInjective(a: seq<Doc>, b: seq<Doc>, r: seq<Token>, s: seq<Token>)
    requires (forall i :: 0 <= i < |a| ==> Shaped(a[i])) && (forall i :: 0 <= i < |b| ==> Shaped(b[i]))
    requires EncodeItems(a) + [CloseArray] + r == EncodeItems(b) + [CloseArray] + s
    ensures a == b && r == s
    decreases a, 0
  {
    var ts, us := EncodeItems(a) + [CloseArray] + r, EncodeItems(b) + [CloseArray] + s;
    if a != [] { ShapedHead(a[0]); assert ts[0] == Encode(a[0])[0]; } else { assert ts[0] == CloseArray; }
    if b != [] { ShapedHead(b[0]); assert us[0] == Encode(b[0])[0]; } else { assert us[0] == CloseArray; }
    if a == [] {
      assert ts[1..] == r && us[1..] == s;
    } else {
      var x, y := EncodeItems(a[1..]) + [CloseArray] + r, EncodeItems(b[1..]) + [CloseArray] + s;
      assert ts == Encode(a[0]) + x && us == Encode(b[0]) + y;
      EncodeInjective(a[0], b[0], x, y);
      ItemsInjective(a[1..], b[1..], r, s);
      assert a == [a[0]] + a[1..] && b == [b[0]] + b[1..];
    }
  }

  /** The first token of an object's remaining members, and what follows it. */
  lemma MembersAhead(m: seq<string>, a: seq<Doc>, r: seq<Token>)
    requires |m| == |a|
    ensures var ts := EncodeMembers(m, a) + [CloseObject] + r;
            && ts != [] && ts[0] == (if a == [] then CloseObject else StringT(m[0]))
            && ts[1..] == if a == [] then r else Encode(a[0]) + (EncodeMembers(m[1..], a[1..]) + [CloseObject] + r)
  {
    if a == [] {
      assert EncodeMembers(m, a) + [CloseObject] + r == [CloseObject] + r;
    } else {
      MemberAhead(StringT(m[0]), Encode(a[0]), EncodeMembers(m[1..], a[1..]), [CloseObject], r);
    }
  }

  lemma HeadAndTail<T>(a: seq<T>, b: seq<T>)
    requires a != [] && b != [] && a[0] == b[0] && a[1..] == b[1..]
    ensures a == b
  {
    assert a == [a[0]] + a[1..] && b == [b[0]] + b[1..];
  }

  lemma {:induction false} MembersInjective(m: seq<string>, a: seq<Doc>, n: seq<string>, b: seq<Doc>, r: seq<Token>, s: seq<Token>)
    requires |m| == |a| && |n| == |b|
    requires (forall i :: 0 <= i < |a| ==> Shaped(a[i])) && (forall i :: 0 <= i < |b| ==> Shaped(b[i]))
    requires EncodeMembers(m, a) + [CloseObject] + r == EncodeMembers(n, b) + [CloseObject] + s
    ensures m == n && a == b && r == s
    decreases a, 0
  {
    MembersAhead(m, a, r);
    MembersAhead(n, b, s);
    if a != [] && b != [] {
      var x, y := EncodeMembers(m[1..], a[1..]) + [CloseObject] + r, EncodeMembers(n[1..], b[1..]) + [CloseObject] + s;
      EncodeInjective(a[0], b[0], x, y);
      MembersInjective(m[1..], a[1..], n[1..], b[1..], r, s);
      HeadAndTail(m, n);
      HeadAndTail(a, b);
    }
  }

  // ---------- Writing a value: members sorted by name ----------

  lemma {:induction false} LeastExists(s: set<string>) returns (k: string)
    requires s != {}
    ensures k in s && forall x :: x in s ==> Le(k, x)
    decreases |s|
  {
    k :| k in s;
    LeTotal(k, k);
    if s != {k} {
      var rest := s - {k};
      assert |rest| == |s| - 1 && rest != {};
      var l := LeastExists(rest);
      LeTotal(k, l);
      if !Le(k, l) {
        k := l;
      } else {
        forall x | x in s ensures Le(k, x) {
          if x != k { assert x in rest; LeTransitive(k, l, x); }
        }
      }
    }
  }

  predicate IsLeast(s: set<string>, k: string) {
    k in s && forall x :: x in s ==> Le(k, x)
  }

  lemma OneLeast(s: set<string>)
    requires s != {}
    ensures exists k :: IsLeast(s, k)
    ensures forall k, l :: IsLeast(s, k) && IsLeast(s, l) ==> k == l
  {
    var least := LeastExists(s);
    assert IsLeast(s, least);
    forall k, l | IsLeast(s, k) && IsLeast(s, l) ensures k == l { LeAntisymmetric(k, l); }
  }

  function Least(s: set<string>): (k: string)
    requires s != {}
    ensures k in s && forall x :: x in s ==> Le(k, x)
  {
    OneLeast(s);
    var k :| IsLeast(s, k);
    k
  }

  function SortedNames(s: set<string>): (r: seq<string>)
    ensures NoDup(r) && forall x :: x in r <==> x in s
    decreases |s|
  {
    if s == {} then []
    else
      var k := Least(s);
      [k] + SortedNames(s - {k})
  }

  function Sorted(v: Json): Doc
    decreases v
  {
    match v
    case Null => Scalar(NullT)
    case Bool(b) => Scalar(BoolT(b))
    case Str(s) => Scalar(StringT(s))
    case Num(text) => Scalar(NumberT(text))
    case Arr(items) => DArr(seq(|items|, i requires 0 <= i < |items| => Sorted(items[i])))
    case Obj(members) =>
      var names := SortedNames(members.Keys);
      DObj(names, seq(|names|, i requires 0 <= i < |names| => Sorted(members[names[i]])))
  }

  /** Marshalling a decoded value. */
  function Write(v: Json): seq<Token> {
    Encode(Sorted(v))
  }

  lemma {:induction false} SortedKeepsValue(v: Json)
    ensures Shaped(Sorted(v)) && Erase(Sorted(v)) == v
    decreases v
  {
    match v
    case Arr(items) =>
      var d := Sorted(v);
      forall i | 0 <= i < |items| ensures Shaped(d.values[i]) && Erase(d.values[i]) == items[i] { SortedKeepsValue(items[i]); }
      ErasedArray(d.values, items);
    case Obj(members) =>
      var d := Sorted(v);
      forall i | 0 <= i < |d.names| ensures Shaped(d.values[i]) && d.names[i] in members && Erase(d.values[i]) == members[d.names[i]] {
        assert d.names[i] in d.names;
        SortedKeepsValue(members[d.names[i]]);
      }
      ErasedObject(d.names, d.values, members);
    case _ =>
  }

  lemma ErasedArray(values: seq<Doc>, items: seq<Json>)
    requires |values| == |items| && forall i :: 0 <= i < |items| ==> Erase(values[i]) == items[i]
    ensures Erase(DArr(values)) == Arr(items)
  {
    assert Erase(DArr(values)).items == items;
  }

  lemma ErasedObject(names: seq<string>, values: seq<Doc>, members: map<string, Json>)
    requires |names| == |values| && NoDup(names) && forall k :: k in names <==> k in members
    requires forall i :: 0 <= i < |names| ==> names[i] in members && Erase(values[i]) == members[names[i]]
    ensures Erase(DObj(names, values)) == Obj(members)
  {
    assert Erase(DObj(names, values)).members == members;
  }

  /** Reading back what was written gives the value, if the limits admit it. */
  lemma WriteReadsBack(v: Json, lim: Limits)
    ensures Decode(Write(v), lim).Some? ==> Decode(Write(v), lim) == Some(v)
  {
    SortedKeepsValue(v);
    var r := Decode(Write(v), lim);
    if r.Some? {
      DecodeExactly(Write(v), lim, r.value);
      var d :| Write(v) == Encode(d) && Fits(d, lim, 0) && Nodes(d) <= lim.maxNodes && Erase(d) == r.value;
      FitsIsShaped(d, lim, 0);
      assert Encode(d) + [] == Encode(Sorted(v)) + [];
      EncodeInjective(d, Sorted(v), [], []);
    }
  }

  lemma WriteInjective(v: Json, w: Json)
    requires Write(v) == Write(w)
    ensures v == w
  {
    SortedKeepsValue(v);
    SortedKeepsValue(w);
    assert Encode(Sorted(v)) + [] == Encode(Sorted(w)) + [];
    EncodeInjective(Sorted(v), Sorted(w), [], []);
  }

  // ---------- Canonicalization ----------

  /** Every number in the value can be normalized. */
  predicate Canonicalizable(v: Json)
    decreases v
  {
    match v
    case Num(text) => Normalize(text).Ok?
    case Arr(items) => forall i :: 0 <= i < |items| ==> Canonicalizable(items[i])
    case Obj(members) => forall k :: k in members ==> Canonicalizable(members[k])
    case _ => true
  }

  function CanonicalValue(v: Json): Json
    requires Canonicalizable(v)
    decreases v
  {
    match v
    case Num(text) => Num(Normalize(text).text)
    case Arr(items) => Arr(seq(|items|, i requires 0 <= i < |items| => CanonicalValue(items[i])))
    case Obj(members) => Obj(map k | k in members :: CanonicalValue(members[k]))
    case _ => v
  }

  /** Every number in the value is a JSON number token. */
  ghost predicate NumbersValid(v: Json)
    decreases v
  {
    match v
    case Num(text) => IsNumber(text)
    case Arr(items) => forall i :: 0 <= i < |items| ==> NumbersValid(items[i])
    case Obj(members) => forall k :: k in members ==> NumbersValid(members[k])
    case _ => true
  }

  /** Every number in the value is short enough to be normalized again. */
  predicate NumbersShort(v: Json)
    decreases v
  {
    match v
    case Num(text) => |text| <= MAX_BYTES
    case Arr(items) => forall i :: 0 <= i < |items| ==> NumbersShort(items[i])
    case Obj(members) => forall k :: k in members ==> NumbersShort(members[k])
    case _ => true
  }

  ghost function ReadNumber(text: string): (p: Parts)
    requires IsNumber(text)
    ensures WellFormed(p) && Print(p) == text
  {
    var p :| WellFormed(p) && text == Print(p);
    p
  }

  /** The same JSON value up to member order and number spelling. */
  ghost predicate SameJson(v: Json, w: Json)
    requires NumbersValid(v) && NumbersValid(w)
    decreases v
  {
    match v
    case Num(text) => w.Num? && D.Equal(Denotes(ReadNumber(text)), Denotes(ReadNumber(w.text)))
    case Arr(items) =>
      w.Arr? && |items| == |w.items| && forall i :: 0 <= i < |items| ==> SameJson(items[i], w.items[i])
    case Obj(members) =>
      w.Obj? && members.Keys == w.members.Keys && forall k :: k in members ==> SameJson(members[k], w.members[k])
    case _ => v == w
  }

  /** Canonical values are equal exactly for the same JSON values. */
  lemma {:induction false} CanonicalExactly(v: Json, w: Json)
    requires NumbersValid(v) && NumbersValid(w) && Canonicalizable(v) && Canonicalizable(w)
    ensures CanonicalValue(v) == CanonicalValue(w) <==> SameJson(v, w)
    decreases v
  {
    var x, y := CanonicalValue(v), CanonicalValue(w);
    match v
    case Num(text) =>
      if w.Num? { NormalizeExactlyEqual(ReadNumber(text), ReadNumber(w.text)); }
    case Arr(items) =>
      if w.Arr? && |items| == |w.items| {
        forall i | 0 <= i < |items|
          ensures x.items[i] == y.items[i] <==> SameJson(items[i], w.items[i])
        {
          CanonicalExactly(items[i], w.items[i]);
        }
        assert x.items == y.items <==> forall i :: 0 <= i < |items| ==> x.items[i] == y.items[i];
      }
    case Obj(members) =>
      if w.Obj? && members.Keys == w.members.Keys {
        forall k | k in members
          ensures x.members[k] == y.members[k] <==> SameJson(members[k], w.members[k])
        {
          CanonicalExactly(members[k], w.members[k]);
        }
        assert x.members == y.members <==> forall k :: k in members ==> x.members[k] == y.members[k];
      } else if w.Obj? {
        assert x.members.Keys == members.Keys && y.members.Keys == w.members.Keys;
      }
    case _ =>
  }

  lemma NumberIdempotent(text: string)
    requires IsNumber(text) && Normalize(text).Ok? && |Normalize(text).text| <= MAX_BYTES
    ensures IsNumber(Normalize(text).text) && Normalize(Normalize(text).text) == Normalize(text)
  {
    NormalizeIdempotent(ReadNumber(text));
    var q := NormalizeIsExact(ReadNumber(text));
  }

  ghost predicate Stable(c: Json) {
    NumbersValid(c) && Canonicalizable(c) && CanonicalValue(c) == c
  }

  lemma StableNumber(text: string)
    requires IsNumber(text) && Normalize(text).Ok? && |Normalize(text).text| <= MAX_BYTES
    ensures Stable(Num(Normalize(text).text))
  {
    NumberIdempotent(text);
  }

  lemma StableArray(items: seq<Json>)
    requires forall i :: 0 <= i < |items| ==> Stable(items[i])
    ensures Stable(Arr(items))
  {
    assert CanonicalValue(Arr(items)).items == items;
  }

  lemma StableObject(members: map<string, Json>)
    requires forall k :: k in members ==> Stable(members[k])
    ensures Stable(Obj(members))
  {
    assert CanonicalValue(Obj(members)).members == members;
  }

  /** Short canonical values are their own canonical values. */
  lemma {:induction false} CanonicalIdempotent(v: Json)
    requires NumbersValid(v) && Canonicalizable(v) && NumbersShort(CanonicalValue(v))
    ensures Stable(CanonicalValue(v))
    decreases v
  {
    var c := CanonicalValue(v);
    match v
    case Num(text) => StableNumber(text);
    case Arr(items) =>
      assert c.Arr? && |c.items| == |items|;
      forall i | 0 <= i < |items| ensures Stable(c.items[i]) {
        assert c.items[i] == CanonicalValue(items[i]) && NumbersShort(c.items[i]);
        CanonicalIdempotent(items[i]);
      }
      StableArray(c.items);
    case Obj(members) =>
      assert c.Obj? && c.members.Keys == members.Keys;
      forall k | k in members ensures Stable(c.members[k]) {
        assert c.members[k] == CanonicalValue(members[k]) && NumbersShort(c.members[k]);
        CanonicalIdempotent(members[k]);
      }
      StableObject(c.members);
    case _ =>
  }

  /** The canonical document of an input: decoded, canonicalized, written, and
      checked against the limits again. */
  function CanonicalInput(ts: seq<Token>, lim: Limits): Option<seq<Token>> {
    var v := Decode(ts, lim);
    if v.None? || !Canonicalizable(v.value) then None
    else
      var c := Write(CanonicalValue(v.value));
      if Decode(c, lim).None? then None else Some(c)
  }

  // ---------- Main results ----------

  lemma {:induction false} DecodedIsShort(d: Doc, lim: Limits, depth: nat)
    requires Fits(d, lim, depth) && lim.maxNumber <= MAX_BYTES
    ensures NumbersShort(Erase(d))
    decreases d
  {
    match d
    case Scalar(_) =>
    case DArr(values) =>
      forall i | 0 <= i < |values| ensures NumbersShort(Erase(values[i])) { DecodedIsShort(values[i], lim, depth + 1); }
    case DObj(_, values) =>
      forall i | 0 <= i < |values| ensures NumbersShort(Erase(values[i])) { DecodedIsShort(values[i], lim, depth + 1); }
  }

  lemma AcceptedCanonical(ts: seq<Token>, lim: Limits)
    requires CanonicalInput(ts, lim).Some? && lim.maxNumber <= MAX_BYTES && NumbersValid(Decode(ts, lim).value)
    ensures var c := CanonicalValue(Decode(ts, lim).value);
            && Decode(CanonicalInput(ts, lim).value, lim) == Some(c)
            && NumbersShort(c) && NumbersValid(c) && Canonicalizable(c) && CanonicalValue(c) == c
  {
    var v := Decode(ts, lim).value;
    var c := CanonicalValue(v);
    WriteReadsBack(c, lim);
    DecodeExactly(Write(c), lim, c);
    var d :| Write(c) == Encode(d) && Fits(d, lim, 0) && Nodes(d) <= lim.maxNodes && Erase(d) == c;
    DecodedIsShort(d, lim, 0);
    CanonicalIdempotent(v);
  }

  /** Canonicalizing an accepted document twice changes nothing. */
  lemma CanonicalInputIdempotent(ts: seq<Token>, lim: Limits)
    requires CanonicalInput(ts, lim).Some? && lim.maxNumber <= MAX_BYTES && NumbersValid(Decode(ts, lim).value)
    ensures CanonicalInput(CanonicalInput(ts, lim).value, lim) == CanonicalInput(ts, lim)
  {
    AcceptedCanonical(ts, lim);
  }

  /** Two accepted documents have the same canonical form exactly when they are
      the same JSON value up to member order and number spelling. */
  lemma CanonicalInputExactly(a: seq<Token>, b: seq<Token>, lim: Limits)
    requires CanonicalInput(a, lim).Some? && CanonicalInput(b, lim).Some?
    requires NumbersValid(Decode(a, lim).value) && NumbersValid(Decode(b, lim).value)
    ensures CanonicalInput(a, lim) == CanonicalInput(b, lim) <==> SameJson(Decode(a, lim).value, Decode(b, lim).value)
  {
    var v, w := Decode(a, lim).value, Decode(b, lim).value;
    CanonicalExactly(v, w);
    if Write(CanonicalValue(v)) == Write(CanonicalValue(w)) { WriteInjective(CanonicalValue(v), CanonicalValue(w)); }
  }

  // ---------- The decoder as the program runs it ----------

  /** A token stream with a position and the node budget spent so far. */
  class Decoder {
    const tokens: seq<Token>
    const lim: Limits
    var pos: nat
    var nodes: nat

    ghost predicate Valid()
      reads this
    {
      pos <= |tokens|
    }

    constructor (tokens: seq<Token>, lim: Limits)
      ensures this.tokens == tokens && this.lim == lim && pos == 0 && nodes == 0 && Valid()
    {
      this.tokens, this.lim := tokens, lim;
      pos, nodes := 0, 0;
    }

    /** The state and result after a step that the parser describes by `r`. */
    ghost predicate Follows(r: Option<Parsed>, v: Option<Json>)
      reads this
    {
      && (r.None? ==> v.None?)
      && (r.Some? ==> Valid() && v == Some(Erase(r.value.doc)) && tokens[pos..] == r.value.rest && nodes == r.value.nodes)
    }

    method DecodeValue(depth: nat) returns (v: Option<Json>)
      requires Valid()
      modifies this
      ensures Follows(Parse(tokens[old(pos)..], lim, old(nodes), depth), v)
      ensures v.Some? ==> pos > old(pos)
      decreases |tokens| - pos, 0
    {
      nodes := nodes + 1;
      if nodes > lim.maxNodes || pos == |tokens| { return None; }
      var token := tokens[pos];
      assert tokens[pos..][0] == token && tokens[pos..][1..] == tokens[pos + 1..];
      pos := pos + 1;
      if IsScalar(token) {
        if token.NumberT? && |token.text| > lim.maxNumber { return None; }
        return Some(ScalarValue(token));
      }
      if depth >= lim.maxDepth { return None; }
      match token {
        case OpenObject => v := DecodeMembers(depth + 1);
        case OpenArray => v := DecodeItems(depth + 1);
        case _ => v := None;
      }
    }

    method DecodeItems(depth: nat) returns (v: Option<Json>)
      requires Valid()
      modifies this
      ensures Follows(ParseItems(tokens[old(pos)..], lim, old(nodes), depth, []), v)
      ensures v.Some? ==> pos > old(pos)
      decreases |tokens| - pos, 1
    {
      ghost var whole := ParseItems(tokens[pos..], lim, nodes, depth, []);
      var items: seq<Json> := [];
      ghost var done: seq<Doc> := [];
      while pos < |tokens| && tokens[pos] != CloseArray && tokens[pos] != CloseObject
        invariant Valid() && old(pos) <= pos
        invariant |items| == |done| && forall i :: 0 <= i < |done| ==> items[i] == Erase(done[i])
        invariant whole == ParseItems(tokens[pos..], lim, nodes, depth, done)
        decreases |tokens| - pos
      {
        assert tokens[pos..][0] == tokens[pos];
        ghost var p := Parse(tokens[pos..], lim, nodes, depth);
        var item := DecodeValue(depth);
        if item.None? { return None; }
        items, done := items + [item.value], done + [p.value.doc];
      }
      if pos == |tokens| || tokens[pos] != CloseArray { return None; }
      assert tokens[pos..][0] == tokens[pos] && tokens[pos..][1..] == tokens[pos + 1..];
      pos := pos + 1;
      assert Erase(DArr(done)).items == items;
      v := Some(Arr(items));
    }

    method DecodeMembers(depth: nat) returns (v: Option<Json>)
      requires Valid()
      modifies this
      ensures Follows(ParseMembers(tokens[old(pos)..], lim, old(nodes), depth, [], []), v)
      ensures v.Some? ==> pos > old(pos)
      decreases |tokens| - pos, 2
    {
      ghost var whole := ParseMembers(tokens[pos..], lim, nodes, depth, [], []);
      var members: map<string, Json> := map[];
      ghost var names: seq<string>, done: seq<Doc> := [], [];
      while pos < |tokens| && tokens[pos] != CloseArray && tokens[pos] != CloseObject
        invariant Valid() && old(pos) <= pos
        invariant Gathered(names, done, members)
        invariant whole == ParseMembers(tokens[pos..], lim, nodes, depth, names, done)
        decreases |tokens| - pos
      {
        var more;
        more, names, done := DecodeMember(depth, members, names, done);
        if more.None? { return None; }
        members := more.value;
      }
      if pos == |tokens| || tokens[pos] != CloseObject { return None; }
      Window(tokens, pos);
      pos := pos + 1;
      v := Some(Obj(members));
    }

    /** One member: a name that is new, and its value. */
    method DecodeMember(depth: nat, members: map<string, Json>, ghost names: seq<string>, ghost done: seq<Doc>)
      returns (more: Option<map<string, Json>>, ghost names': seq<string>, ghost done': seq<Doc>)
      requires Valid() && pos < |tokens| && tokens[pos] != CloseArray && tokens[pos] != CloseObject && Gathered(names, done, members)
      modifies this
      ensures var whole := ParseMembers(tokens[old(pos)..], lim, old(nodes), depth, names, done);
              if more.None? then whole.None?
              else && Valid() && pos > old(pos) && Gathered(names', done', more.value)
                   && whole == ParseMembers(tokens[pos..], lim, nodes, depth, names', done')
      decreases |tokens| - pos, 1
    {
      Window(tokens, pos);
      MembersStep(tokens[pos..], lim, nodes, depth, names, done);
      more, names', done' := None, names, done;
      if !tokens[pos].StringT? { return; }
      var name := tokens[pos].s;
      GatheredKeys(names, done, members, name);
      if name in members { return; }
      pos := pos + 1;
      ghost var p := Parse(tokens[pos..], lim, nodes, depth);
      var value := DecodeValue(depth);
      if value.None? { return; }
      GatherMember(names, done, members, name, p.value.doc);
      more, names', done' := Some(members[name := value.value]), names + [name], done + [p.value.doc];
    }
  }

  lemma Window(ts: seq<Token>, i: nat)
    requires i < |ts|
    ensures ts[i..] != [] && ts[i..][0] == ts[i] && ts[i..][1..] == ts[i + 1..]
  {
  }

  /** One step of reading members. */
  lemma MembersStep(ts: seq<Token>, lim: Limits, nodes: nat, depth: nat, names: seq<string>, done: seq<Doc>)
    requires ts != [] && ts[0] != CloseArray && ts[0] != CloseObject
    ensures ParseMembers(ts, lim, nodes, depth, names, done) ==
      if !ts[0].StringT? || ts[0].s in names || Parse(ts[1..], lim, nodes, depth).None? then None
      else
        var p := Parse(ts[1..], lim, nodes, depth).value;
        ParseMembers(p.rest, lim, p.nodes, depth, names + [ts[0].s], done + [p.doc])
  {
  }

  /** The members read so far. */
  ghost predicate Gathered(names: seq<string>, done: seq<Doc>, members: map<string, Json>) {
    |names| == |done| && NoDup(names) && Erase(DObj(names, done)).members == members
  }

  lemma GatheredKeys(names: seq<string>, done: seq<Doc>, members: map<string, Json>, name: string)
    requires Gathered(names, done, members)
    ensures name in members <==> name in names
  {
  }

  lemma GatherMember(names: seq<string>, done: seq<Doc>, members: map<string, Json>, name: string, d: Doc)
    requires Gathered(names, done, members) && name !in names
    ensures Gathered(names + [name], done + [d], members[name := Erase(d)])
  {
    AddMember(names, done, name, d);
  }

  lemma AddMember(names: seq<string>, done: seq<Doc>, name: string, d: Doc)
    requires |names| == |done| && NoDup(names) && name !in names
    ensures NoDup(names + [name])
    ensures Erase(DObj(names + [name], done + [d])).members == Erase(DObj(names, done)).members[name := Erase(d)]
  {
    var more, docs := names + [name], done + [d];
    forall i, j | 0 <= i < j < |more| ensures more[i] != more[j] {
      if j == |names| { assert more[i] in names; }
    }
    forall k | k in names ensures k in more && docs[IndexIn(more, k)] == done[IndexIn(names, k)] {
      var i, j := IndexIn(names, k), IndexIn(more, k);
      assert more[i] == k && more[j] == k;
    }
    assert more[|names|] == name;
  }
}
