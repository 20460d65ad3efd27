/** Rewriting references in place, and what a series of such writes amounts to. */
module ReferenceWriting {
  import opened Common
  import opened Documents
  import opened Pointers
  import opened SchemaGraph

  // ---------- Physical paths ----------

  /** One step into a value; several tokens may spell one array step. */
  datatype Step = Key(name: string) | Index(i: nat)

  type Path = seq<Step>

  function Locate(v: Json, tokens: Tokens): Path
    requires At(v, tokens).Some?
    decreases |tokens|
  {
    if tokens == [] then []
    else if v.Obj? then [Key(tokens[0])] + Locate(v.members[tokens[0]], tokens[1..])
    else
      var i := ParseArrayIndex(tokens[0], |v.items|).value;
      [Index(i)] + Locate(v.items[i], tokens[1..])
  }

  /** The value at a path. */
  function Follow(v: Json, path: Path): Option<Json>
    decreases |path|
  {
    if path == [] then Some(v)
    else
      match path[0]
      case Key(k) => if v.Obj? && k in v.members then Follow(v.members[k], path[1..]) else None
      case Index(i) => if v.Arr? && i < |v.items| then Follow(v.items[i], path[1..]) else None
  }

  lemma {:induction false} FollowConcat(v: Json, p: Path, q: Path)
    ensures Follow(v, p + q) == match Follow(v, p) case None => None case Some(w) => Follow(w, q)
    decreases |p|
  {
    if p == [] {
      assert p + q == q;
    } else {
      assert (p + q)[0] == p[0] && (p + q)[1..] == p[1..] + q;
      match p[0]
      case Key(k) => if v.Obj? && k in v.members { FollowConcat(v.members[k], p[1..], q); }
      case Index(i) => if v.Arr? && i < |v.items| { FollowConcat(v.items[i], p[1..], q); }
    }
  }

  lemma {:induction false} FollowLocate(v: Json, tokens: Tokens)
    requires At(v, tokens).Some?
    ensures Follow(v, Locate(v, tokens)) == At(v, tokens)
    decreases |tokens|
  {
    if tokens != [] {
      if v.Obj? {
        FollowLocate(v.members[tokens[0]], tokens[1..]);
      } else {
        FollowLocate(v.items[ParseArrayIndex(tokens[0], |v.items|).value], tokens[1..]);
      }
    }
  }

  /** Two token lists agree up to the spelling of array positions. */
  predicate Agree(v: Json, p: Tokens, q: Tokens)
    decreases |p|
  {
    if p == [] || q == [] then p == q
    else
      match v
      case Obj(members) => p[0] == q[0] && p[0] in members && Agree(members[p[0]], p[1..], q[1..])
      case Arr(items) =>
        exists i :: 0 <= i < |items| && Spells(p[0], i) && Spells(q[0], i) && Agree(items[i], p[1..], q[1..])
      case _ => false
  }

  /** Two token lists reach one place exactly when they agree up to the spelling
      of array positions. */
  lemma {:induction false} OnePlaceExactly(v: Json, p: Tokens, q: Tokens)
    requires At(v, p).Some? && At(v, q).Some?
    ensures Locate(v, p) == Locate(v, q) <==> Agree(v, p, q)
    decreases |p|
  {
    if p != [] && q != [] {
      var a, b := Locate(v, p), Locate(v, q);
      if v.Obj? {
        assert a[0] == Key(p[0]) && b[0] == Key(q[0]);
        assert a[1..] == Locate(v.members[p[0]], p[1..]) && b[1..] == Locate(v.members[q[0]], q[1..]);
        if p[0] == q[0] { OnePlaceExactly(v.members[p[0]], p[1..], q[1..]); }
        assert a == [a[0]] + a[1..] && b == [b[0]] + b[1..];
      } else {
        OnePlaceInArray(v.items, p, q);
      }
    }
  }

  lemma {:induction false} OnePlaceInArray(items: seq<Json>, p: Tokens, q: Tokens)
    requires p != [] && q != [] && At(Arr(items), p).Some? && At(Arr(items), q).Some?
    ensures Locate(Arr(items), p) == Locate(Arr(items), q) <==> Agree(Arr(items), p, q)
    decreases |p|, 0
  {
    var v := Arr(items);
    var a, b := Locate(v, p), Locate(v, q);
    var i, j := ParseArrayIndex(p[0], |items|).value, ParseArrayIndex(q[0], |items|).value;
    forall k: nat ensures (i == k <==> k < |items| && Spells(p[0], k)) && (j == k <==> k < |items| && Spells(q[0], k)) {
      IndexExactly(p[0], |items|, k);
      IndexExactly(q[0], |items|, k);
    }
    assert a[0] == Index(i) && b[0] == Index(j);
    assert a[1..] == Locate(items[i], p[1..]) && b[1..] == Locate(items[j], q[1..]);
    if i == j { OnePlaceExactly(items[i], p[1..], q[1..]); }
    assert a == [a[0]] + a[1..] && b == [b[0]] + b[1..];
  }

  predicate Unsigned(tokens: Tokens) {
    forall k :: 0 <= k < |tokens| ==> tokens[k] == [] || (tokens[k][0] != '+' && tokens[k][0] != '-')
  }

  /** Token lists without leading signs reach different places unless equal. */
  lemma {:induction false} UnsignedPlacesUnique(v: Json, p: Tokens, q: Tokens)
    requires At(v, p).Some? && At(v, q).Some? && Unsigned(p) && Unsigned(q) && Locate(v, p) == Locate(v, q)
    ensures p == q
    decreases |p|
  {
    if p != [] && q != [] {
      var a, b := Locate(v, p), Locate(v, q);
      assert a[0] == b[0] && a[1..] == b[1..];
      assert p == [p[0]] + p[1..] && q == [q[0]] + q[1..];
      assert Unsigned(p[1..]) && Unsigned(q[1..]);
      if v.Obj? {
        UnsignedPlacesUnique(v.members[p[0]], p[1..], q[1..]);
      } else {
        UnsignedIndexUnique(p[0], q[0], |v.items|);
        UnsignedPlacesUnique(v.items[ParseArrayIndex(p[0], |v.items|).value], p[1..], q[1..]);
      }
    }
  }

  // ---------- Writing references ----------

  /** Set `$ref` of the object at `tokens`, as an in-place write would. */
  function PutRef(v: Json, tokens: Tokens, text: string): Option<Json>
    decreases |tokens|
  {
    match v
    case Obj(members) =>
      if tokens == [] then Some(Obj(members["$ref" := Str(text)]))
      else if tokens[0] !in members then None
      else
        (match PutRef(members[tokens[0]], tokens[1..], text)
         case None => None
         case Some(w) => Some(Obj(members[tokens[0] := w])))
    case Arr(items) =>
      if tokens == [] then None
      else
        (match ParseArrayIndex(tokens[0], |items|)
         case None => None
         case Some(i) =>
           (match PutRef(items[i], tokens[1..], text)
            case None => None
            case Some(w) => Some(Arr(items[i := w]))))
    case _ => None
  }

  type Table = map<Path, string>

  /** A value in which the references at the tabled places, and nothing else,
      are replaced: the meaning of a series of writes. */
  function Rewritten(v: Json, here: Path, t: Table): Json
    decreases v, 0
  {
    match v
    case Obj(members) => Obj(map k | k in members :: RewrittenMember(k, members[k], here, t))
    case Arr(items) => Arr(seq(|items|, i requires 0 <= i < |items| => Rewritten(items[i], here + [Index(i)], t)))
    case _ => v
  }

  function RewrittenMember(k: string, v: Json, here: Path, t: Table): Json
    decreases v, 1
  {
    if k == "$ref" && here in t then Str(t[here]) else Rewritten(v, here + [Key(k)], t)
  }

  lemma {:induction false} RewriteNothing(v: Json, here: Path)
    ensures Rewritten(v, here, map[]) == v
    decreases v
  {
    match v
    case Obj(members) =>
      forall k | k in members ensures RewrittenMember(k, members[k], here, map[]) == members[k] {
        RewriteNothing(members[k], here + [Key(k)]);
      }
      assert Rewritten(v, here, map[]).members == members;
    case Arr(items) =>
      forall i | 0 <= i < |items| ensures Rewritten(items[i], here + [Index(i)], map[]) == items[i] {
        RewriteNothing(items[i], here + [Index(i)]);
      }
      assert Rewritten(v, here, map[]).items == items;
    case _ =>
  }

  /** Entries outside a value do not matter to it. */
  lemma {:induction false} RewriteElsewhere(v: Json, here: Path, t: Table, p: Path, text: string)
    requires !(here <= p)
    ensures Rewritten(v, here, t[p := text]) == Rewritten(v, here, t)
    decreases v
  {
    var t' := t[p := text];
    match v
    case Obj(members) =>
      forall k | k in members ensures RewrittenMember(k, members[k], here, t') == RewrittenMember(k, members[k], here, t) {
        Deeper(here, Key(k), p);
        RewriteElsewhere(members[k], here + [Key(k)], t, p, text);
      }
      assert Rewritten(v, here, t').members == Rewritten(v, here, t).members;
    case Arr(items) =>
      forall i | 0 <= i < |items| ensures Rewritten(items[i], here + [Index(i)], t') == Rewritten(items[i], here + [Index(i)], t) {
        Deeper(here, Index(i), p);
        RewriteElsewhere(items[i], here + [Index(i)], t, p, text);
      }
      assert Rewritten(v, here, t').items == Rewritten(v, here, t).items;
    case _ =>
  }

  lemma Deeper(here: Path, s: Step, p: Path)
    ensures here + [s] <= p ==> here <= p && |p| > |here| && p[|here|] == s
  {
    if here + [s] <= p { assert p[|here|] == (here + [s])[|here|]; }
  }

  predicate HasRef(v: Option<Json>) {
    v.Some? && v.value.Obj? && "$ref" in v.value.members && v.value.members["$ref"].Str?
  }

  /** Every tabled place inside the value is an object with a reference. */
  predicate SitesOk(v: Json, here: Path, t: Table) {
    forall p :: p in t && here <= p ==> HasRef(Follow(v, p[|here|..]))
  }

  lemma SitesInside(v: Json, here: Path, t: Table, s: Step)
    requires SitesOk(v, here, t) && Follow(v, [s]).Some?
    ensures SitesOk(Follow(v, [s]).value, here + [s], t)
  {
    forall p | p in t && here + [s] <= p ensures HasRef(Follow(Follow(v, [s]).value, p[|here + [s]|..])) {
      Deeper(here, s, p);
      var q := p[|here|..];
      assert q[0] == s && q[1..] == p[|here + [s]|..];
      assert HasRef(Follow(v, q));
    }
  }

  lemma HereIsSite(v: Json, here: Path, t: Table)
    requires SitesOk(v, here, t) && here in t
    ensures HasRef(Some(v))
  {
    assert here[|here|..] == [];
    assert HasRef(Follow(v, here[|here|..]));
  }

  lemma PutHere(members: map<string, Json>, here: Path, t: Table, text: string)
    requires "$ref" in members
    ensures Obj(Rewritten(Obj(members), here, t).members["$ref" := Str(text)]) == Rewritten(Obj(members), here, t[here := text])
  {
    var a, b := Rewritten(Obj(members), here, t).members["$ref" := Str(text)], Rewritten(Obj(members), here, t[here := text]).members;
    forall k | k in members ensures a[k] == b[k] {
      if k != "$ref" {
        RewriteElsewhere(members[k], here + [Key(k)], t, here, text);
        assert a[k] == RewrittenMember(k, members[k], here, t);
      }
      assert b[k] == RewrittenMember(k, members[k], here, t[here := text]);
    }
    assert a == b;
  }

  lemma PutBelowMember(members: map<string, Json>, here: Path, t: Table, k: string, p: Path, text: string)
    requires k in members && here + [Key(k)] <= p && !(k == "$ref" && here in t)
    ensures var w := Rewritten(members[k], here + [Key(k)], t[p := text]);
            Obj(Rewritten(Obj(members), here, t).members[k := w]) == Rewritten(Obj(members), here, t[p := text])
  {
    Deeper(here, Key(k), p);
    var t' := t[p := text];
    var w := Rewritten(members[k], here + [Key(k)], t');
    var a, b := Rewritten(Obj(members), here, t).members[k := w], Rewritten(Obj(members), here, t').members;
    forall j | j in members ensures a[j] == b[j] {
      if j != k {
        Deeper(here, Key(j), p);
        RewriteElsewhere(members[j], here + [Key(j)], t, p, text);
        assert a[j] == RewrittenMember(j, members[j], here, t);
      }
      assert b[j] == RewrittenMember(j, members[j], here, t');
    }
    assert a == b;
  }

  lemma PutBelowItem(items: seq<Json>, here: Path, t: Table, i: nat, p: Path, text: string)
    requires i < |items| && here + [Index(i)] <= p
    ensures var w := Rewritten(items[i], here + [Index(i)], t[p := text]);
            Arr(Rewritten(Arr(items), here, t).items[i := w]) == Rewritten(Arr(items), here, t[p := text])
  {
    Deeper(here, Index(i), p);
    var t' := t[p := text];
    var w := Rewritten(items[i], here + [Index(i)], t');
    var a, b := Rewritten(Arr(items), here, t).items[i := w], Rewritten(Arr(items), here, t').items;
    forall j | 0 <= j < |items| ensures a[j] == b[j] {
      if j != i {
        Deeper(here, Index(j), p);
        RewriteElsewhere(items[j], here + [Index(j)], t, p, text);
      }
    }
    assert a == b;
  }

  /** One write adds one entry to the table. */
  lemma {:induction false} PutIsRewrite(v: Json, here: Path, t: Table, s: Tokens, text: string)
    requires HasRef(At(v, s)) && SitesOk(v, here, t)
    ensures PutRef(Rewritten(v, here, t), s, text) == Some(Rewritten(v, here, t[here + Locate(v, s) := text]))
    decreases |s|
  {
    if s == [] {
      PutHere(v.members, here, t, text);
      assert here + Locate(v, s) == here;
    } else if v.Obj? {
      var k := s[0];
      if here in t { HereIsSite(v, here, t); }
      var inner := Locate(v.members[k], s[1..]);
      assert here + Locate(v, s) == here + [Key(k)] + inner;
      FollowOne(v, Key(k));
      SitesInside(v, here, t, Key(k));
      PutIsRewrite(v.members[k], here + [Key(k)], t, s[1..], text);
      PutBelowMember(v.members, here, t, k, here + [Key(k)] + inner, text);
    } else {
      var i := ParseArrayIndex(s[0], |v.items|).value;
      var inner := Locate(v.items[i], s[1..]);
      assert here + Locate(v, s) == here + [Index(i)] + inner;
      FollowOne(v, Index(i));
      SitesInside(v, here, t, Index(i));
      PutIsRewrite(v.items[i], here + [Index(i)], t, s[1..], text);
      PutBelowItem(v.items, here, t, i, here + [Index(i)] + inner, text);
    }
  }

  lemma FollowOne(v: Json, s: Step)
    ensures s.Key? && v.Obj? && s.name in v.members ==> Follow(v, [s]) == Some(v.members[s.name])
    ensures s.Index? && v.Arr? && s.i < |v.items| ==> Follow(v, [s]) == Some(v.items[s.i])
  {
    assert [s][1..] == [];
  }

  /** Rewriting keeps every place where it was. */
  lemma {:induction false} AtRewritten(v: Json, here: Path, t: Table, s: Tokens)
    requires At(v, s).Some? && !At(v, s).value.Str? && SitesOk(v, here, t)
    ensures At(Rewritten(v, here, t), s) == Some(Rewritten(At(v, s).value, here + Locate(v, s), t))
    decreases |s|
  {
    if s == [] {
      assert here + Locate(v, s) == here;
    } else if v.Obj? {
      var k := s[0];
      if here in t { HereIsSite(v, here, t); }
      assert here + Locate(v, s) == here + [Key(k)] + Locate(v.members[k], s[1..]);
      FollowOne(v, Key(k));
      SitesInside(v, here, t, Key(k));
      AtRewritten(v.members[k], here + [Key(k)], t, s[1..]);
    } else {
      var i := ParseArrayIndex(s[0], |v.items|).value;
      assert here + Locate(v, s) == here + [Index(i)] + Locate(v.items[i], s[1..]);
      FollowOne(v, Index(i));
      SitesInside(v, here, t, Index(i));
      AtRewritten(v.items[i], here + [Index(i)], t, s[1..]);
    }
  }

  lemma RewrittenRef(v: Json, here: Path, t: Table)
    requires HasRef(Some(v)) && here in t
    ensures HasRef(Some(Rewritten(v, here, t))) && Rewritten(v, here, t).members["$ref"].s == t[here]
  {
    assert Rewritten(v, here, t).members["$ref"] == RewrittenMember("$ref", v.members["$ref"], here, t);
  }

  lemma UnrewrittenRef(v: Json, here: Path, t: Table)
    requires HasRef(Some(v)) && here !in t
    ensures HasRef(Some(Rewritten(v, here, t))) && Rewritten(v, here, t).members["$ref"] == v.members["$ref"]
  {
    assert Rewritten(v, here, t).members["$ref"] == RewrittenMember("$ref", v.members["$ref"], here, t);
  }
}
