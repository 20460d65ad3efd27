/** Trigger definitions by a nested grammar: CASE ... END expressions are trees,
    and the BEGIN and END of the body stand outside them. */
module SqlTriggers {
  import opened Sequences
  import opened SqlLexer
  import opened SqlPolicy

  /** A token, or a CASE expression with its two words. */
  datatype Item = One(t: Token) | Case(open: Token, items: seq<Item>, close: Token)

  function Flat(items: seq<Item>): Tokens
    decreases items
  {
    if items == [] then [] else Flat(items[..|items| - 1]) + FlatItem(items[|items| - 1])
  }

  function FlatItem(item: Item): (r: Tokens)
    ensures r != []
    decreases item
  {
    match item
    case One(t) => [t]
    case Case(open, items, close) => [open] + (Flat(items) + [close])
  }

  predicate CaseOk(item: Item)
    decreases item, 0
  {
    item.Case? ==> IsWord(item.open, "CASE") && IsWord(item.close, "END") && Inner(item.items)
  }

  /** Inside CASE every END closes one. */
  predicate Inner(items: seq<Item>)
    decreases items, 1
  {
    forall i :: 0 <= i < |items| ==>
      CaseOk(items[i]) && (items[i].One? ==> !IsWord(items[i].t, "CASE") && !IsWord(items[i].t, "END"))
  }

  /** Outside, an END may stand alone. */
  predicate Outer(items: seq<Item>) {
    forall i :: 0 <= i < |items| ==> CaseOk(items[i]) && (items[i].One? ==> !IsWord(items[i].t, "CASE"))
  }

  // ---------- Depth ----------

  function Deepen(d: nat, t: Token): nat {
    if IsWord(t, "CASE") then d + 1 else if IsWord(t, "END") && d > 0 then d - 1 else d
  }

  /** The depth after reading tokens from depth `d`. */
  function Depth(d: nat, ts: Tokens): nat {
    if ts == [] then d else Deepen(Depth(d, ts[..|ts| - 1]), ts[|ts| - 1])
  }

  lemma {:induction false} DepthConcat(d: nat, a: Tokens, b: Tokens)
    ensures Depth(d, a + b) == Depth(Depth(d, a), b)
    decreases |b|
  {
    if b == [] {
      assert a + b == a;
    } else {
      LastOfConcat(a, b);
      DepthConcat(d, a, b[..|b| - 1]);
    }
  }

  lemma DepthOne(d: nat, t: Token)
    ensures Depth(d, [t]) == Deepen(d, t)
  {
    assert [t][..0] == [];
  }

  lemma {:induction false} DepthIsCaseDepth(ts: Tokens, from: nat, upto: nat)
    requires from <= upto <= |ts|
    ensures CaseDepth(ts, from, upto) == Depth(0, ts[from..upto])
    decreases upto
  {
    if from < upto {
      DepthIsCaseDepth(ts, from, upto - 1);
      var w := ts[from..upto];
      assert w[..|w| - 1] == ts[from..upto - 1] && w[|w| - 1] == ts[upto - 1];
    }
  }

  // ---------- Reading tokens as items ----------

  /** An open CASE and the items read since; the first frame has no CASE. */
  datatype Frame = Frame(open: Token, items: seq<Item>)

  function FlatFrames(fs: seq<Frame>): Tokens
    requires fs != []
  {
    if |fs| == 1 then Flat(fs[0].items)
    else FlatFrames(fs[..|fs| - 1]) + ([fs[|fs| - 1].open] + Flat(fs[|fs| - 1].items))
  }

  predicate FramesOk(fs: seq<Frame>) {
    fs != [] && Outer(fs[0].items) && forall i :: 1 <= i < |fs| ==> IsWord(fs[i].open, "CASE") && Inner(fs[i].items)
  }

  lemma FlatMore(items: seq<Item>, item: Item)
    ensures Flat(items + [item]) == Flat(items) + FlatItem(item)
  {
    assert (items + [item])[..|items|] == items;
  }

  lemma FramesMore(fs: seq<Frame>, f: Frame)
    requires fs != []
    ensures FlatFrames(fs + [f]) == FlatFrames(fs) + ([f.open] + Flat(f.items))
  {
    assert (fs + [f])[..|fs|] == fs;
  }

  /** Add an item to the innermost frame. */
  function AddItem(fs: seq<Frame>, item: Item): (r: seq<Frame>)
    requires fs != []
    ensures |r| == |fs|
  {
    fs[|fs| - 1 := Frame(fs[|fs| - 1].open, fs[|fs| - 1].items + [item])]
  }

  lemma AddItemFlat(fs: seq<Frame>, item: Item)
    requires fs != []
    ensures FlatFrames(AddItem(fs, item)) == FlatFrames(fs) + FlatItem(item)
  {
    var n := |fs| - 1;
    FlatMore(fs[n].items, item);
    if n > 0 {
      assert AddItem(fs, item)[..n] == fs[..n];
      Regroup(FlatFrames(fs[..n]), [fs[n].open] + Flat(fs[n].items), FlatItem(item));
      Regroup([fs[n].open], Flat(fs[n].items), FlatItem(item));
    }
  }

  lemma AddItemOk(fs: seq<Frame>, item: Item)
    requires FramesOk(fs) && CaseOk(item)
    requires item.One? ==> !IsWord(item.t, "CASE") && (|fs| > 1 ==> !IsWord(item.t, "END"))
    ensures FramesOk(AddItem(fs, item))
  {
  }

  /** Every token list reads as frames, one open CASE for each level of depth. */
  lemma {:induction false} ReadFrames(ts: Tokens) returns (fs: seq<Frame>)
    ensures FramesOk(fs) && FlatFrames(fs) == ts && |fs| == Depth(0, ts) + 1
    decreases |ts|
  {
    if ts == [] {
      fs := [Frame(Separator, [])];
    } else {
      var t, front := ts[|ts| - 1], ts[..|ts| - 1];
      var before := ReadFrames(front);
      assert ts == front + [t];
      if IsWord(t, "CASE") {
        fs := before + [Frame(t, [])];
        FramesMore(before, Frame(t, []));
        assert [t] + [] == [t];
      } else if IsWord(t, "END") && |before| > 1 {
        fs := CloseFrame(before, t);
      } else {
        fs := AddItem(before, One(t));
        AddItemFlat(before, One(t));
        AddItemOk(before, One(t));
      }
    }
  }

  lemma CloseFrame(before: seq<Frame>, t: Token) returns (fs: seq<Frame>)
    requires FramesOk(before) && |before| > 1 && IsWord(t, "END")
    ensures FramesOk(fs) && FlatFrames(fs) == FlatFrames(before) + [t] && |fs| == |before| - 1
  {
    var n := |before| - 1;
    var top, below := before[n], before[..n];
    var item := Case(top.open, top.items, t);
    fs := AddItem(below, item);
    AddItemFlat(below, item);
    AddItemOk(below, item);
    Regroup(FlatFrames(below), [top.open] + Flat(top.items), [t]);
    Regroup([top.open], Flat(top.items), [t]);
  }

  /** A token list is balanced exactly when it reads as items. */
  lemma BalancedExactly(ts: Tokens)
    ensures Depth(0, ts) == 0 <==> exists items :: Outer(items) && Flat(items) == ts
  {
    if Depth(0, ts) == 0 {
      var fs := ReadFrames(ts);
      assert Outer(fs[0].items) && Flat(fs[0].items) == ts;
    }
    forall items | Outer(items) && Flat(items) == ts ensures Depth(0, ts) == 0 { OuterDepth(items); }
  }

  lemma {:induction false} ItemDepth(d: nat, item: Item)
    requires CaseOk(item) && (item.One? ==> !IsWord(item.t, "CASE") && (d > 0 ==> !IsWord(item.t, "END")))
    ensures Depth(d, FlatItem(item)) == d
    decreases item, 0
  {
    match item
    case One(t) => DepthOne(d, t);
    case Case(open, items, close) =>
      DepthConcat(d, [open], Flat(items) + [close]);
      DepthOne(d, open);
      DepthConcat(d + 1, Flat(items), [close]);
      InnerDepth(d + 1, items);
      DepthOne(d + 1, close);
  }

  lemma {:induction false} InnerDepth(d: nat, items: seq<Item>)
    requires d > 0 && Inner(items)
    ensures Depth(d, Flat(items)) == d
    decreases items, 1
  {
    if items != [] {
      var n := |items| - 1;
      InnerDepth(d, items[..n]);
      ItemDepth(d, items[n]);
      DepthConcat(d, Flat(items[..n]), FlatItem(items[n]));
    }
  }

  lemma {:induction false} OuterDepth(items: seq<Item>)
    requires Outer(items)
    ensures Depth(0, Flat(items)) == 0
  {
    if items != [] {
      var n := |items| - 1;
      OuterDepth(items[..n]);
      ItemDepth(0, items[n]);
      DepthConcat(0, Flat(items[..n]), FlatItem(items[n]));
    }
  }

  // ---------- Positions at the top level ----------

  lemma {:induction false} InnerPrefix(d: nat, items: seq<Item>, q: nat)
    requires d > 0 && Inner(items) && q <= |Flat(items)|
    ensures Depth(d, Flat(items)[..q]) >= d
    decreases items, 1
  {
    if items != [] {
      var n := |items| - 1;
      var front, last := Flat(items[..n]), FlatItem(items[n]);
      if q <= |front| {
        assert Flat(items)[..q] == front[..q];
        InnerPrefix(d, items[..n], q);
      } else {
        assert Flat(items)[..q] == front + last[..q - |front|];
        InnerDepth(d, items[..n]);
        DepthConcat(d, front, last[..q - |front|]);
        if items[n].Case? && q - |front| < |last| {
          WithinCase(d, items[n], q - |front|);
        } else {
          assert last[..q - |front|] == last;
          ItemDepth(d, items[n]);
        }
      }
    }
  }

  /** Properly inside a CASE expression the depth is greater. */
  lemma {:induction false} WithinCase(d: nat, item: Item, q: nat)
    requires item.Case? && CaseOk(item) && 0 < q < |FlatItem(item)|
    ensures Depth(d, FlatItem(item)[..q]) > d
    decreases item, 0
  {
    var inner := Flat(item.items);
    assert FlatItem(item)[..q] == [item.open] + inner[..q - 1];
    DepthConcat(d, [item.open], inner[..q - 1]);
    DepthOne(d, item.open);
    InnerPrefix(d + 1, item.items, q - 1);
  }

  /** Where item `j` starts. */
  function StartOf(items: seq<Item>, j: nat): nat
    requires j <= |items|
  {
    |Flat(items[..j])|
  }

  lemma {:induction false} StartsAt(items: seq<Item>, j: nat)
    requires j < |items|
    ensures StartOf(items, j) < |Flat(items)| && Flat(items)[..StartOf(items, j)] == Flat(items[..j])
    ensures Flat(items)[StartOf(items, j)] == FlatItem(items[j])[0]
    ensures StartOf(items, j) + |FlatItem(items[j])| <= |Flat(items)|
    ensures j > 0 ==> StartOf(items, j) > 0 && Flat(items)[StartOf(items, j) - 1] == LastOf(items[j - 1])
  {
    var n := |items| - 1;
    var front := items[..n];
    if j < n {
      StartsAt(front, j);
      assert front[..j] == items[..j];
    } else {
      assert items[..j] == front;
      if j > 0 { EndsWith(front); }
    }
  }

  function LastOf(item: Item): Token { if item.One? then item.t else item.close }

  lemma EndsWith(items: seq<Item>)
    requires items != []
    ensures Flat(items) != [] && Flat(items)[|Flat(items)| - 1] == LastOf(items[|items| - 1])
  {
  }

  /** Depth is zero only where an item starts. */
  lemma {:induction false} TopLevel(items: seq<Item>, p: nat) returns (j: nat)
    requires Outer(items) && p < |Flat(items)| && Depth(0, Flat(items)[..p]) == 0
    ensures j < |items| && p == StartOf(items, j)
    decreases |items|
  {
    var n := |items| - 1;
    var front, last := Flat(items[..n]), FlatItem(items[n]);
    if p < |front| {
      assert Flat(items)[..p] == front[..p];
      j := TopLevel(items[..n], p);
      assert items[..n][..j] == items[..j];
    } else {
      j := n;
      if p > |front| {
        assert Flat(items)[..p] == front + last[..p - |front|];
        OuterDepth(items[..n]);
        DepthConcat(0, front, last[..p - |front|]);
        WithinCase(0, items[n], p - |front|);
      }
    }
  }

  // ---------- The grammar of triggers ----------

  /** Before the body: no separator, and BEGIN only inside CASE. */
  predicate HeaderItems(h: seq<Item>) {
    Outer(h) && NoSeparator(Flat(h)) && forall j :: 0 <= j < |h| ==> !(h[j].One? && IsWord(h[j].t, "BEGIN"))
  }

  /** Statements, each closed by a separator; END never starts one. */
  predicate BodyItems(b: seq<Item>) {
    && Outer(b) && (b == [] || b[|b| - 1] == One(Separator))
    && forall j :: 0 <= j < |b| && b[j].One? && IsWord(b[j].t, "END") ==> j > 0 && b[j - 1] != One(Separator)
  }

  /** CREATE, header, BEGIN, body, END. */
  predicate TriggerText(ts: Tokens, h: seq<Item>, b: seq<Item>) {
    var p := 1 + |Flat(h)|;
    && p < |ts| - 1 && ts[1..p] == Flat(h) && ts[p + 1..|ts| - 1] == Flat(b)
    && IsWord(ts[p], "BEGIN") && IsWord(ts[|ts| - 1], "END")
    && HeaderItems(h) && BodyItems(b) && NoRollback(ts, 1, |ts|)
  }

  /** The depth before a position of a window that reads as items. */
  lemma WindowDepth(ts: Tokens, from: nat, upto: nat, items: seq<Item>, q: nat)
    requires from <= upto <= |ts| && ts[from..upto] == Flat(items) && q <= |Flat(items)|
    ensures CaseDepth(ts, from, from + q) == Depth(0, Flat(items)[..q])
  {
    DepthIsCaseDepth(ts, from, from + q);
    assert ts[from..from + q] == Flat(items)[..q];
  }

  lemma StartDepth(items: seq<Item>, j: nat)
    requires Outer(items) && j < |items|
    ensures StartOf(items, j) < |Flat(items)| && Depth(0, Flat(items)[..StartOf(items, j)]) == 0
  {
    StartsAt(items, j);
    OuterDepth(items[..j]);
  }

  lemma HeaderExactly(ts: Tokens, b: nat, h: seq<Item>)
    requires 1 <= b < |ts| && ts[1..b] == Flat(h) && Outer(h) && IsWord(ts[b], "BEGIN")
    ensures BodyAt(ts, b) <==> HeaderItems(h)
  {
    WindowDepth(ts, 1, b, h, |Flat(h)|);
    assert Flat(h)[..|Flat(h)|] == Flat(h);
    OuterDepth(h);
    if BodyAt(ts, b) {
      forall j | 0 <= j < |h| ensures !(h[j].One? && IsWord(h[j].t, "BEGIN")) {
        StartsAt(h, j);
        StartDepth(h, j);
        WindowDepth(ts, 1, b, h, StartOf(h, j));
        assert ts[1 + StartOf(h, j)] == ts[1..b][StartOf(h, j)];
        assert !Begins(ts, 1 + StartOf(h, j));
      }
      forall i | 0 <= i < |Flat(h)| ensures !Flat(h)[i].Separator? { assert Flat(h)[i] == ts[1 + i]; }
    }
    if HeaderItems(h) {
      forall i | 1 <= i < b ensures !ts[i].Separator? && !Begins(ts, i) {
        assert ts[i] == Flat(h)[i - 1];
        if Begins(ts, i) {
          WindowDepth(ts, 1, b, h, i - 1);
          var j := TopLevel(h, i - 1);
          StartsAt(h, j);
        }
      }
    }
  }

  /** The END that closes the body is the first that starts a statement. */
  predicate ClosedBy(ts: Tokens, b: nat, e: nat)
    requires 1 <= b < e < |ts|
  {
    Ends(ts, b, e) && forall i :: b < i < e ==> !Ends(ts, b, i)
  }

  lemma InWindow(ts: Tokens, from: nat, upto: nat, q: nat)
    requires from <= upto <= |ts| && q < upto - from
    ensures ts[from..upto][q] == ts[from + q]
  {
  }

  /** The token at which an item starts, and the one before it. */
  lemma TokenAtItem(ts: Tokens, from: nat, upto: nat, items: seq<Item>, j: nat)
    requires from <= upto <= |ts| && ts[from..upto] == Flat(items) && j < |items|
    ensures var q := StartOf(items, j);
            && q < |Flat(items)| == upto - from && ts[from + q] == FlatItem(items[j])[0]
            && (j == 0 <==> q == 0) && (j > 0 ==> ts[from + q - 1] == LastOf(items[j - 1]))
  {
    var q := StartOf(items, j);
    StartsAt(items, j);
    InWindow(ts, from, upto, q);
    if j == 0 { assert items[..0] == []; } else { InWindow(ts, from, upto, q - 1); }
  }

  lemma DepthAtItem(ts: Tokens, from: nat, upto: nat, items: seq<Item>, j: nat)
    requires from <= upto <= |ts| && ts[from..upto] == Flat(items) && Outer(items) && j < |items|
    ensures from + StartOf(items, j) <= |ts| && CaseDepth(ts, from, from + StartOf(items, j)) == 0
  {
    StartDepth(items, j);
    WindowDepth(ts, from, upto, items, StartOf(items, j));
  }

  lemma ItemIsEnd(items: seq<Item>, j: nat)
    requires Outer(items) && j < |items|
    ensures IsWord(FlatItem(items[j])[0], "END") <==> items[j].One? && IsWord(items[j].t, "END")
    ensures LastOf(items[j]).Separator? <==> items[j] == One(Separator)
  {
    assert CaseOk(items[j]);
  }

  lemma EndsAtItem(ts: Tokens, b: nat, e: nat, items: seq<Item>, j: nat)
    requires 1 <= b < e < |ts| && ts[b + 1..e] == Flat(items) && Outer(items) && j < |items|
    ensures StartOf(items, j) < |Flat(items)|
    ensures Ends(ts, b, b + 1 + StartOf(items, j)) <==>
      items[j].One? && IsWord(items[j].t, "END") && (j == 0 || items[j - 1] == One(Separator))
  {
    TokenAtItem(ts, b + 1, e, items, j);
    DepthAtItem(ts, b + 1, e, items, j);
    ItemIsEnd(items, j);
    if j > 0 { ItemIsEnd(items, j - 1); }
  }

  lemma BodyExactly(ts: Tokens, b: nat, e: nat, items: seq<Item>)
    requires 1 <= b < e < |ts| && ts[b + 1..e] == Flat(items) && Outer(items) && IsWord(ts[e], "END")
    ensures ClosedBy(ts, b, e) <==> BodyItems(items)
  {
    LastItem(ts, b, e, items);
    if ClosedBy(ts, b, e) {
      forall j | 0 <= j < |items| && items[j].One? && IsWord(items[j].t, "END") ensures j > 0 && items[j - 1] != One(Separator) {
        EndsAtItem(ts, b, e, items, j);
        assert !Ends(ts, b, b + 1 + StartOf(items, j));
      }
    }
    if BodyItems(items) {
      forall i | b < i < e ensures !Ends(ts, b, i) {
        if Ends(ts, b, i) {
          WindowDepth(ts, b + 1, e, items, i - b - 1);
          var j := TopLevel(items, i - b - 1);
          EndsAtItem(ts, b, e, items, j);
        }
      }
    }
  }

  lemma LastItem(ts: Tokens, b: nat, e: nat, items: seq<Item>)
    requires 1 <= b < e < |ts| && ts[b + 1..e] == Flat(items) && Outer(items) && IsWord(ts[e], "END")
    ensures Ends(ts, b, e) <==> items == [] || items[|items| - 1] == One(Separator)
  {
    DepthIsCaseDepth(ts, b + 1, e);
    OuterDepth(items);
    if items == [] {
      assert e == b + 1;
    } else {
      EndsWith(items);
      LastOfWindow(ts, b + 1, e);
      ClosesWithSeparator(items);
    }
  }

  lemma LastOfWindow(ts: Tokens, from: nat, upto: nat)
    requires from <= upto <= |ts| && ts[from..upto] != []
    ensures upto > from && ts[upto - 1] == ts[from..upto][|ts[from..upto]| - 1]
  {
  }

  lemma ClosesWithSeparator(items: seq<Item>)
    requires items != [] && Outer(items)
    ensures LastOf(items[|items| - 1]).Separator? <==> items[|items| - 1] == One(Separator)
  {
    assert CaseOk(items[|items| - 1]);
  }

  lemma TriggerReads(ts: Tokens, b: nat)
    requires Trigger(ts, b)
    ensures exists h, body :: TriggerText(ts, h, body)
  {
    var e := |ts| - 1;
    var h := Balanced(ts, 1, b);
    var body := Balanced(ts, b + 1, e);
    HeaderExactly(ts, b, h);
    BodyExactly(ts, b, e, body);
    assert TriggerText(ts, h, body);
  }

  lemma Balanced(ts: Tokens, from: nat, upto: nat) returns (items: seq<Item>)
    requires from <= upto <= |ts| && CaseDepth(ts, from, upto) == 0
    ensures Outer(items) && Flat(items) == ts[from..upto]
  {
    DepthIsCaseDepth(ts, from, upto);
    BalancedExactly(ts[from..upto]);
    items :| Outer(items) && Flat(items) == ts[from..upto];
  }

  lemma TextIsTrigger(ts: Tokens, h: seq<Item>, body: seq<Item>)
    requires TriggerText(ts, h, body)
    ensures Trigger(ts, 1 + |Flat(h)|)
  {
    var b := 1 + |Flat(h)|;
    HeaderExactly(ts, b, h);
    BodyExactly(ts, b, |ts| - 1, body);
  }

  /** The scanner's triggers are exactly those of the grammar. */
  lemma TriggerExactly(ts: Tokens)
    ensures (exists b :: 1 <= b < |ts| && Trigger(ts, b)) <==> exists h, b :: TriggerText(ts, h, b)
  {
    if b :| 1 <= b < |ts| && Trigger(ts, b) { TriggerReads(ts, b); }
    if h, body :| TriggerText(ts, h, body) { TextIsTrigger(ts, h, body); }
  }

  // ---------- Texts ----------

  /** A statement of the profile, triggers by the grammar. */
  ghost predicate GrammarStatement(ts: Tokens) {
    && ts != [] && OneOf(ts[0], STATEMENT_WORDS)
    && match KindOf(ts)
       case TemporaryKind => false
       case Plain => NoSeparator(ts) && NoWord(ts, "ROLLBACK")
       case TriggerKind => exists h, b :: TriggerText(ts, h, b)
  }

  /** The text reads as lexemes whose tokens are statements of the profile. */
  ghost predicate DurableText(text: string, ls: seq<Lexeme>, ss: seq<Tokens>, trailing: bool) {
    && Reads(text, ls) && !Temporary(TokensOf(ls))
    && ss != [] && (forall i :: 0 <= i < |ss| ==> GrammarStatement(ss[i]))
    && TokensOf(ls) == Script(ss, trailing)
  }

  lemma StatementExactly(ts: Tokens)
    ensures Statement(ts) <==> GrammarStatement(ts)
  {
    TriggerExactly(ts);
  }

  lemma StatementsExactly(ss: seq<Tokens>)
    ensures Statements(ss) <==> ss != [] && forall i :: 0 <= i < |ss| ==> GrammarStatement(ss[i])
  {
    forall i | 0 <= i < |ss| ensures Statement(ss[i]) <==> GrammarStatement(ss[i]) { StatementExactly(ss[i]); }
  }

  lemma DurableExactly(text: string, ls: seq<Lexeme>)
    requires Reads(text, ls)
    ensures !Temporary(TokensOf(ls)) && Accepted(TokensOf(ls)) <==> exists ss, trailing :: DurableText(text, ls, ss, trailing)
  {
    if !Temporary(TokensOf(ls)) && Accepted(TokensOf(ls)) {
      var ss, trailing :| IsScript(TokensOf(ls), ss, trailing);
      StatementsExactly(ss);
      assert DurableText(text, ls, ss, trailing);
    }
    if ss, trailing :| DurableText(text, ls, ss, trailing) {
      StatementsExactly(ss);
      assert IsScript(TokensOf(ls), ss, trailing);
    }
  }

  /** Accept exactly the texts within the limit that read as durable statements. */
  method ValidateMigrationText(text: string, maxBytes: int) returns (ok: bool)
    ensures ok <==> 0 < Utf8Bytes(text) <= maxBytes && exists ls, ss, trailing :: DurableText(text, ls, ss, trailing)
  {
    SizeIsPositive(text);
    var tokens := TokenizeText(text, maxBytes);
    if tokens.None? {
      forall ls | Reads(text, ls) ensures !(0 < Utf8Bytes(text) <= maxBytes) { TokenizeExactly(text, maxBytes, TokensOf(ls)); }
      return false;
    }
    TokenizeExactly(text, maxBytes, tokens.value);
    ok := ValidateMigrationScript(tokens.value);
    ghost var ls :| Reads(text, ls) && TokensOf(ls) == tokens.value;
    DurableExactly(text, ls);
    forall other | Reads(text, other) ensures other == ls { ReadingIsUnique(text, ls, other); }
  }

  lemma SizeIsPositive(text: string)
    ensures Utf8Bytes(text) > 0 <==> text != []
  {
  }

  const MAX_PUBLIC_BYTES := 0x10_0000

  ghost predicate PublicReading(text: string, ls: seq<Lexeme>, allowed: seq<string>, forbidden: string) {
    Reads(text, ls) && !Temporary(TokensOf(ls)) && PublicText(TokensOf(ls), allowed, forbidden)
  }

  /** Accept exactly the texts within the limit that read as one allowed statement. */
  method ValidatePublicSQL(text: string, allowed: seq<string>, forbidden: string) returns (ok: bool)
    ensures ok <==> 0 < Utf8Bytes(text) <= MAX_PUBLIC_BYTES && exists ls :: PublicReading(text, ls, allowed, forbidden)
  {
    SizeIsPositive(text);
    var tokens := TokenizeText(text, MAX_PUBLIC_BYTES);
    if tokens.None? {
      forall ls | Reads(text, ls) ensures !(0 < Utf8Bytes(text) <= MAX_PUBLIC_BYTES) {
        TokenizeExactly(text, MAX_PUBLIC_BYTES, TokensOf(ls));
      }
      return false;
    }
    TokenizeExactly(text, MAX_PUBLIC_BYTES, tokens.value);
    ok := ValidatePublicStatement(tokens.value, allowed, forbidden);
    ghost var ls :| Reads(text, ls) && TokensOf(ls) == tokens.value;
    forall other | Reads(text, other) ensures other == ls { ReadingIsUnique(text, ls, other); }
    assert ok ==> PublicReading(text, ls, allowed, forbidden);
  }
}
