/** Which token lists the migration and public-statement validators accept. */
module SqlPolicy {
  import opened Common
  import opened SqlLexer

  type Tokens = seq<Token>

  function Upper(c: char): char {
    if 'a' <= c <= 'z' then 'A' + (c as int - 'a' as int) as char else c
  }

  function UpperAll(s: string): (r: string)
    ensures |r| == |s|
  {
    seq(|s|, i requires 0 <= i < |s| => Upper(s[i]))
  }

  predicate IsWord(t: Token, word: string) { t.Word? && t.text != "" && UpperAll(t.text) == word }

  predicate OneOf(t: Token, words: seq<string>) {
    exists i :: 0 <= i < |words| && IsWord(t, words[i])
  }

  /** A name spelt `temp`, quoted or not, before a dot. */
  predicate TemporaryAt(ts: Tokens, i: nat)
    requires i + 1 < |ts|
  {
    && ts[i + 1] == Symbol('.')
    && match ts[i]
       case Word(text) => UpperAll(text) == "TEMP"
       case Identifier(name) => UpperAll(name) == "TEMP"
       case StringToken(value) => UpperAll(value) == "TEMP"
       case _ => false
  }

  predicate Temporary(ts: Tokens) {
    exists i :: 0 <= i < |ts| - 1 && TemporaryAt(ts, i)
  }

  method HasTemporarySchemaReference(ts: Tokens) returns (found: bool)
    ensures found == Temporary(ts)
  {
    for i := 0 to |ts|
      invariant forall k :: 0 <= k < i && k < |ts| - 1 ==> !TemporaryAt(ts, k)
    {
      if i + 1 < |ts| && TemporaryAt(ts, i) { return true; }
    }
    return false;
  }

  // ---------- Public statements ----------

  predicate NoSeparator(ts: Tokens) {
    forall i :: 0 <= i < |ts| ==> !ts[i].Separator?
  }

  predicate NoWord(ts: Tokens, word: string) {
    forall i :: 0 <= i < |ts| ==> !IsWord(ts[i], word)
  }

  /** One statement of an allowed kind. */
  predicate PublicStatement(ts: Tokens, allowed: seq<string>, forbidden: string) {
    ts != [] && NoSeparator(ts) && OneOf(ts[0], allowed) && (forbidden != "" ==> NoWord(ts, forbidden))
  }

  /** The statement, or the statement and one separator. */
  predicate PublicText(ts: Tokens, allowed: seq<string>, forbidden: string) {
    || PublicStatement(ts, allowed, forbidden)
    || (ts != [] && ts[|ts| - 1].Separator? && PublicStatement(ts[..|ts| - 1], allowed, forbidden))
  }

  method ValidatePublicStatement(ts: Tokens, allowed: seq<string>, forbidden: string) returns (ok: bool)
    ensures ok <==> !Temporary(ts) && PublicText(ts, allowed, forbidden)
  {
    var temporary := HasTemporarySchemaReference(ts);
    if temporary { return false; }
    var statements, inStatement := 0, false;
    for i := 0 to |ts|
      invariant 0 <= statements <= 1
      invariant inStatement ==> statements == 0 && PublicStatement(ts[..i], allowed, forbidden)
      invariant !inStatement && statements == 0 ==> i == 0
      invariant !inStatement && statements == 1 ==>
        i > 0 && ts[i - 1].Separator? && PublicStatement(ts[..i - 1], allowed, forbidden)
    {
      if ts[i].Separator? {
        if !inStatement { return false; }
        statements, inStatement := statements + 1, false;
        assert ts[..i + 1][..i] == ts[..i];
      } else {
        if !inStatement {
          if statements != 0 || !OneOf(ts[i], allowed) { return false; }
          inStatement := true;
        }
        if forbidden != "" && IsWord(ts[i], forbidden) { return false; }
        assert ts[..i + 1] == ts[..i] + [ts[i]];
      }
    }
    assert ts[..|ts|] == ts;
    if inStatement { statements := statements + 1; }
    return statements == 1;
  }

  // ---------- Migration statements ----------

  const STATEMENT_WORDS: seq<string> := ["ALTER", "CREATE", "DELETE", "DROP", "INSERT", "UPDATE"]

  /** The first word at or after `from` and before any separator. */
  function FirstWord(ts: Tokens, from: nat): Option<string>
    decreases |ts| - from
  {
    if from >= |ts| || ts[from].Separator? then None
    else if ts[from].Word? && ts[from].text != "" then Some(UpperAll(ts[from].text))
    else FirstWord(ts, from + 1)
  }

  datatype Kind = Plain | TriggerKind | TemporaryKind

  /** What a statement creates, by the word after `CREATE`. */
  function KindOf(ts: Tokens): Kind
    requires ts != []
  {
    if !IsWord(ts[0], "CREATE") then Kind.Plain
    else
      match FirstWord(ts, 1)
      case None => Kind.Plain
      case Some(w) => if w == "TEMP" || w == "TEMPORARY" then TemporaryKind else if w == "TRIGGER" then TriggerKind else Kind.Plain
  }

  predicate NoRollback(ts: Tokens, from: nat, upto: nat)
    requires upto <= |ts|
  {
    forall i :: from <= i < upto ==> !IsWord(ts[i], "ROLLBACK")
  }

  /** Open `CASE` expressions after the tokens `from..upto`. */
  function CaseDepth(ts: Tokens, from: nat, upto: nat): nat
    requires upto <= |ts|
    decreases upto
  {
    if upto <= from then 0
    else
      var d := CaseDepth(ts, from, upto - 1);
      if IsWord(ts[upto - 1], "CASE") then d + 1
      else if IsWord(ts[upto - 1], "END") && d > 0 then d - 1
      else d
  }

  predicate Begins(ts: Tokens, i: nat)
    requires 1 <= i < |ts|
  {
    IsWord(ts[i], "BEGIN") && CaseDepth(ts, 1, i) == 0
  }

  /** The body starts at `b`: the first `BEGIN` outside `CASE`, with no
      separator before it. */
  predicate BodyAt(ts: Tokens, b: nat)
    requires 1 <= b < |ts|
  {
    Begins(ts, b) && forall i :: 1 <= i < b ==> !ts[i].Separator? && !Begins(ts, i)
  }

  /** An `END` outside `CASE` where a body statement could begin. */
  predicate Ends(ts: Tokens, b: nat, i: nat)
    requires b < i < |ts|
  {
    IsWord(ts[i], "END") && CaseDepth(ts, b + 1, i) == 0 && (i == b + 1 || ts[i - 1].Separator?)
  }

  /** A trigger definition with its body at `b` and its `END` last. */
  predicate Trigger(ts: Tokens, b: nat) {
    && 1 <= b < |ts| - 1 && BodyAt(ts, b) && NoRollback(ts, 1, |ts|)
    && Ends(ts, b, |ts| - 1) && forall i :: b < i < |ts| - 1 ==> !Ends(ts, b, i)
  }

  predicate Statement(ts: Tokens) {
    && ts != [] && OneOf(ts[0], STATEMENT_WORDS)
    && match KindOf(ts)
       case TemporaryKind => false
       case Plain => NoSeparator(ts) && NoWord(ts, "ROLLBACK")
       case TriggerKind => exists b :: 1 <= b < |ts| && Trigger(ts, b)
  }

  /** Statements with a separator between each two, and optionally one at the end. */
  function Script(statements: seq<Tokens>, trailing: bool): Tokens {
    if statements == [] then []
    else if |statements| == 1 then statements[0] + (if trailing then [Separator] else [])
    else statements[0] + [Separator] + Script(statements[1..], trailing)
  }

  predicate Statements(ss: seq<Tokens>) {
    ss != [] && forall i :: 0 <= i < |ss| ==> Statement(ss[i])
  }

  // ---------- Prefixes ----------

  predicate Complete(ts: Tokens, n: nat) {
    n <= |ts| && Statement(ts[..n]) && (n == |ts| || ts[n].Separator?)
  }

  lemma {:induction false} DepthOfPrefix(ts: Tokens, n: nat, from: nat, upto: nat)
    requires upto <= n <= |ts|
    ensures CaseDepth(ts[..n], from, upto) == CaseDepth(ts, from, upto)
    decreases upto
  {
    if upto > from { DepthOfPrefix(ts, n, from, upto - 1); }
  }

  lemma {:induction false} FirstWordOfPrefix(ts: Tokens, n: nat, from: nat)
    requires n <= |ts| && (n == |ts| || ts[n].Separator?)
    ensures from <= n ==> FirstWord(ts[..n], from) == FirstWord(ts, from)
    decreases |ts| - from
  {
    if from < n { FirstWordOfPrefix(ts, n, from + 1); }
  }

  lemma BodyOfPrefix(ts: Tokens, n: nat, b: nat)
    requires 1 <= b < n <= |ts|
    ensures BodyAt(ts[..n], b) <==> BodyAt(ts, b)
  {
    forall i | 1 <= i <= b ensures Begins(ts[..n], i) <==> Begins(ts, i) { DepthOfPrefix(ts, n, 1, i); }
    assert forall i :: 1 <= i < b ==> ts[..n][i] == ts[i];
  }

  lemma EndsOfPrefix(ts: Tokens, n: nat, b: nat, i: nat)
    requires b < i < n <= |ts|
    ensures Ends(ts[..n], b, i) <==> Ends(ts, b, i)
  {
    DepthOfPrefix(ts, n, b + 1, i);
  }

  lemma OneBody(ts: Tokens, a: nat, b: nat)
    requires 1 <= a < |ts| && 1 <= b < |ts| && BodyAt(ts, a) && BodyAt(ts, b)
    ensures a == b
  {
  }

  lemma KindOfPrefix(ts: Tokens, n: nat)
    requires 1 <= n <= |ts| && (n == |ts| || ts[n].Separator?)
    ensures KindOf(ts[..n]) == KindOf(ts)
  {
    FirstWordOfPrefix(ts, n, 1);
  }

  /** A trigger that fills a prefix, seen in the whole list. */
  predicate TriggerTo(ts: Tokens, b: nat, n: nat) {
    && 1 <= b < n - 1 < |ts| && BodyAt(ts, b) && NoRollback(ts, 1, n)
    && Ends(ts, b, n - 1) && forall i :: b < i < n - 1 ==> !Ends(ts, b, i)
  }

  lemma TriggerOfPrefix(ts: Tokens, b: nat, n: nat)
    requires n <= |ts|
    ensures Trigger(ts[..n], b) <==> TriggerTo(ts, b, n)
  {
    if 1 <= b < n - 1 {
      BodyOfPrefix(ts, n, b);
      forall i | b < i < n ensures Ends(ts[..n], b, i) <==> Ends(ts, b, i) { EndsOfPrefix(ts, n, b, i); }
      assert forall i :: 1 <= i < n ==> ts[..n][i] == ts[i];
    }
  }

  lemma TriggersAgree(ts: Tokens, a: nat, m: nat, b: nat, n: nat)
    requires TriggerTo(ts, a, m) && TriggerTo(ts, b, n)
    ensures a == b && m == n
  {
    OneBody(ts, a, b);
  }

  /** At most one prefix is a complete statement. */
  lemma CompleteUnique(ts: Tokens, m: nat, n: nat)
    requires Complete(ts, m) && Complete(ts, n)
    ensures m == n
  {
    KindOfPrefix(ts, m);
    KindOfPrefix(ts, n);
    if KindOf(ts).TriggerKind? {
      var a :| 1 <= a < |ts[..m]| && Trigger(ts[..m], a);
      var b :| 1 <= b < |ts[..n]| && Trigger(ts[..n], b);
      TriggerOfPrefix(ts, a, m);
      TriggerOfPrefix(ts, b, n);
      TriggersAgree(ts, a, m, b, n);
    } else {
      PlainAgree(ts, m, n);
    }
  }

  lemma PlainAgree(ts: Tokens, m: nat, n: nat)
    requires m <= |ts| && n <= |ts| && NoSeparator(ts[..m]) && NoSeparator(ts[..n])
    requires (m == |ts| || ts[m].Separator?) && (n == |ts| || ts[n].Separator?)
    ensures m == n
  {
  }

  // ---------- The validator ----------

  method ConsumeOrdinaryStatement(ts: Tokens) returns (n: Option<nat>)
    requires ts != [] && OneOf(ts[0], STATEMENT_WORDS) && KindOf(ts) == Kind.Plain && !ts[0].Separator?
    ensures n.Some? ==> Complete(ts, n.value)
    ensures n.None? ==> forall k :: !Complete(ts, k)
  {
    for i := 0 to |ts|
      invariant NoSeparator(ts[..i]) && NoWord(ts[..i], "ROLLBACK")
    {
      if IsWord(ts[i], "ROLLBACK") {
        forall k ensures !Complete(ts, k) { RolledBack(ts, i, k); }
        return None;
      }
      if ts[i].Separator? {
        KindOfPrefix(ts, i);
        return Some(i);
      }
      assert ts[..i + 1] == ts[..i] + [ts[i]];
    }
    assert ts[..|ts|] == ts;
    return Some(|ts|);
  }

  lemma RolledBack(ts: Tokens, i: nat, k: nat)
    requires i < |ts| && NoSeparator(ts[..i]) && IsWord(ts[i], "ROLLBACK") && ts != [] && KindOf(ts) == Kind.Plain
    ensures !Complete(ts, k)
  {
    if Complete(ts, k) {
      KindOfPrefix(ts, k);
    }
  }

  /** What the trigger scan has established before position `i`. */
  predicate Header(ts: Tokens, i: nat, depth: nat)
    requires 1 <= i <= |ts|
  {
    depth == CaseDepth(ts, 1, i) && forall k :: 1 <= k < i ==> !ts[k].Separator? && !Begins(ts, k)
  }

  predicate InBody(ts: Tokens, b: nat, i: nat, depth: nat, atStart: bool)
    requires 1 <= b < i <= |ts|
  {
    && BodyAt(ts, b) && depth == CaseDepth(ts, b + 1, i)
    && (atStart <==> i == b + 1 || ts[i - 1].Separator?)
    && forall k :: b < k < i ==> !Ends(ts, b, k)
  }

  method ConsumeTrigger(ts: Tokens) returns (n: Option<nat>)
    requires ts != [] && OneOf(ts[0], STATEMENT_WORDS) && KindOf(ts).TriggerKind?
    ensures n.Some? ==> Complete(ts, n.value)
    ensures n.None? ==> forall k :: !Complete(ts, k)
  {
    var caseDepth, body, atStart := 0, false, false;
    ghost var b := 1;
    for i := 1 to |ts|
      invariant NoRollback(ts, 1, i)
      invariant !body ==> Header(ts, i, caseDepth)
      invariant body ==> 1 <= b < i && InBody(ts, b, i, caseDepth, atStart)
    {
      if IsWord(ts[i], "ROLLBACK") {
        forall k ensures !Complete(ts, k) { NoTrigger(ts, i, b, body, k); }
        return None;
      }
      if !body {
        if ts[i].Separator? {
          forall k ensures !Complete(ts, k) { NoTrigger(ts, i, b, body, k); }
          return None;
        }
        if IsWord(ts[i], "CASE") {
          caseDepth := caseDepth + 1;
        } else if IsWord(ts[i], "END") && caseDepth > 0 {
          caseDepth := caseDepth - 1;
        } else if IsWord(ts[i], "BEGIN") && caseDepth == 0 {
          body, atStart, b := true, true, i;
        }
      } else if ts[i].Separator? {
        atStart := true;
      } else if IsWord(ts[i], "CASE") {
        caseDepth, atStart := caseDepth + 1, false;
      } else if IsWord(ts[i], "END") && caseDepth > 0 {
        caseDepth, atStart := caseDepth - 1, false;
      } else if IsWord(ts[i], "END") && atStart {
        assert TriggerTo(ts, b, i + 1);
        if i + 1 < |ts| && !ts[i + 1].Separator? {
          forall k ensures !Complete(ts, k) { OnlyThere(ts, b, i + 1, k); }
          return None;
        }
        KindOfPrefix(ts, i + 1);
        TriggerOfPrefix(ts, b, i + 1);
        return Some(i + 1);
      } else {
        atStart := false;
      }
    }
    forall k ensures !Complete(ts, k) { NoTrigger(ts, |ts|, b, body, k); }
    return None;
  }

  lemma OnlyThere(ts: Tokens, b: nat, n: nat, k: nat)
    requires ts != [] && KindOf(ts).TriggerKind? && TriggerTo(ts, b, n) && n < |ts| && !ts[n].Separator?
    ensures !Complete(ts, k)
  {
    if Complete(ts, k) {
      KindOfPrefix(ts, k);
      var a :| 1 <= a < |ts[..k]| && Trigger(ts[..k], a);
      TriggerOfPrefix(ts, a, k);
      TriggersAgree(ts, a, k, b, n);
    }
  }

  /** The scan stopped at `i` without an end: no prefix is a trigger. */
  lemma NoTrigger(ts: Tokens, i: nat, b: nat, body: bool, k: nat)
    requires ts != [] && KindOf(ts).TriggerKind? && 1 <= i <= |ts|
    requires i < |ts| ==> IsWord(ts[i], "ROLLBACK") || (!body && ts[i].Separator?)
    requires !body ==> forall j :: 1 <= j < i ==> !Begins(ts, j)
    requires body ==> 1 <= b < i && BodyAt(ts, b) && forall j :: b < j < i ==> !Ends(ts, b, j)
    ensures !Complete(ts, k)
  {
    if Complete(ts, k) {
      KindOfPrefix(ts, k);
      var a :| 1 <= a < |ts[..k]| && Trigger(ts[..k], a);
      TriggerOfPrefix(ts, a, k);
    }
  }

  predicate IsScript(ts: Tokens, ss: seq<Tokens>, trailing: bool) {
    Statements(ss) && Script(ss, trailing) == ts
  }

  ghost predicate Accepted(ts: Tokens) {
    exists ss, trailing :: IsScript(ts, ss, trailing)
  }

  /** The first statement of a script is a complete prefix. */
  lemma FirstStatement(ts: Tokens, ss: seq<Tokens>, trailing: bool)
    requires IsScript(ts, ss, trailing)
    ensures Complete(ts, |ss[0]|)
    ensures |ss| == 1 ==> |ts| == |ss[0]| + (if trailing then 1 else 0)
    ensures |ss| > 1 ==> |ts| > |ss[0]| && ts[|ss[0]| + 1..] == Script(ss[1..], trailing) && Statements(ss[1..])
  {
    assert Statement(ss[0]);
    assert ts[..|ss[0]|] == ss[0];
    if |ss| > 1 { assert ts == ss[0] + [Separator] + Script(ss[1..], trailing); }
  }

  lemma SplitScript(ts: Tokens, n: nat)
    requires Complete(ts, n)
    ensures Accepted(ts) <==> n == |ts| || n + 1 == |ts| || Accepted(ts[n + 1..])
  {
    if Accepted(ts) {
      var ss, trailing :| IsScript(ts, ss, trailing);
      FirstStatement(ts, ss, trailing);
      CompleteUnique(ts, n, |ss[0]|);
      if |ss| > 1 { assert IsScript(ts[n + 1..], ss[1..], trailing); }
    }
    if n == |ts| || n + 1 == |ts| {
      assert ts == ts[..n] + (if n == |ts| then [] else [Separator]);
      assert IsScript(ts, [ts[..n]], n < |ts|);
    } else if Accepted(ts[n + 1..]) {
      var rest, trailing :| IsScript(ts[n + 1..], rest, trailing);
      var ss := [ts[..n]] + rest;
      assert ss[1..] == rest;
      assert ts == ts[..n] + [Separator] + ts[n + 1..];
      assert IsScript(ts, ss, trailing);
    }
  }

  lemma NoFirstStatement(ts: Tokens)
    requires forall k :: !Complete(ts, k)
    ensures !Accepted(ts)
  {
    if Accepted(ts) {
      var ss, trailing :| IsScript(ts, ss, trailing);
      FirstStatement(ts, ss, trailing);
    }
  }

  /** Accept exactly the durable scripts: statements of the profile, triggers
      with their bodies included, and nothing else. */
  method ValidateMigrationScript(ts: Tokens) returns (ok: bool)
    ensures ok <==> !Temporary(ts) && Accepted(ts)
  {
    var temporary := HasTemporarySchemaReference(ts);
    if temporary { return false; }
    var rest := ts;
    while true
      invariant Accepted(ts) <==> Accepted(rest)
      decreases |rest|
    {
      if rest == [] || rest[0].Separator? || !OneOf(rest[0], STATEMENT_WORDS) || KindOf(rest).TemporaryKind? {
        forall k ensures !Complete(rest, k) { NotAStatement(rest, k); }
        NoFirstStatement(rest);
        return false;
      }
      var n;
      if KindOf(rest).TriggerKind? { n := ConsumeTrigger(rest); } else { n := ConsumeOrdinaryStatement(rest); }
      if n.None? {
        NoFirstStatement(rest);
        return false;
      }
      SplitScript(rest, n.value);
      if n.value + 1 >= |rest| { return true; }
      rest := rest[n.value + 1..];
    }
  }

  lemma NotAStatement(ts: Tokens, k: nat)
    requires ts == [] || !OneOf(ts[0], STATEMENT_WORDS) || KindOf(ts).TemporaryKind?
    ensures !Complete(ts, k)
  {
    if Complete(ts, k) { KindOfPrefix(ts, k); }
  }
}
