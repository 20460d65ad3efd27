/** The lexical boundary of SQL text: words, quoted names, symbols and statement
    separators, with strings and comments recognized. */
module SqlLexer {
  import opened Sequences
  import opened Common

  const NUL := 0 as char

  datatype Token = Word(text: string) | Identifier(name: string) | StringToken(value: string) | Symbol(c: char) | Separator

  predicate IsSpace(c: char) { c == ' ' || '\t' <= c <= '\r' }

  predicate WordStart(c: char) { c == '_' || 'A' <= c <= 'Z' || 'a' <= c <= 'z' }

  predicate WordContinue(c: char) { WordStart(c) || '0' <= c <= '9' || c == '$' }

  predicate LineEnd(c: char) { c == '\n' || c == '\r' }

  predicate Quote(c: char) { c == '\'' || c == '"' || c == '`' }

  // ---------- Lexemes: how a text is made up ----------

  datatype Lexeme =
    | Blank(c: char) | Semicolon | LineComment(body: string) | BlockComment(body: string)
    | Quoted(quote: char, body: string) | Bracketed(body: string) | Name(text: string) | Other(c: char)

  function Text(l: Lexeme): (r: string)
    ensures r != [] || l == Name("")
  {
    match l
    case Blank(c) => [c]
    case Semicolon => ";"
    case LineComment(body) => "--" + body
    case BlockComment(body) => "/*" + (body + "*/")
    case Quoted(q, body) => [q] + (body + [q])
    case Bracketed(body) => "[" + (body + "]")
    case Name(text) => text
    case Other(c) => [c]
  }

  /** Quotes inside a quoted text come in pairs. */
  predicate Paired(body: string, q: char) {
    if body == [] then true
    else if body[0] == q then |body| >= 2 && body[1] == q && Paired(body[2..], q)
    else body[0] != NUL && Paired(body[1..], q)
  }

  predicate Unclosed(body: string) {
    NUL !in body && forall i :: 0 <= i < |body| - 1 ==> !(body[i] == '*' && body[i + 1] == '/')
  }

  predicate OneLine(body: string) {
    forall i :: 0 <= i < |body| ==> body[i] != NUL && !LineEnd(body[i])
  }

  predicate Plain(body: string) {
    forall i :: 0 <= i < |body| ==> body[i] != NUL && body[i] != ']'
  }

  predicate IsName(text: string) {
    text != [] && WordStart(text[0]) && forall i :: 0 <= i < |text| ==> WordContinue(text[i])
  }

  predicate Valid(l: Lexeme) {
    match l
    case Blank(c) => IsSpace(c)
    case Semicolon => true
    case LineComment(body) => OneLine(body)
    case BlockComment(body) => Unclosed(body)
    case Quoted(q, body) => Quote(q) && Paired(body, q)
    case Bracketed(body) => Plain(body)
    case Name(text) => IsName(text)
    case Other(c) => c != NUL && !IsSpace(c) && c != ';' && !Quote(c) && c != '[' && !WordStart(c)
  }

  /** What may come directly after a lexeme; otherwise it would be longer. */
  predicate Follows(l: Lexeme, rest: string) {
    rest == [] ||
    match l
    case Name(_) => !WordContinue(rest[0])
    case LineComment(_) => LineEnd(rest[0])
    case Quoted(q, _) => rest[0] != q
    case Other(c) => !(c == '-' && rest[0] == '-') && !(c == '/' && rest[0] == '*')
    case _ => true
  }

  function Texts(ls: seq<Lexeme>): string {
    if ls == [] then [] else Text(ls[0]) + Texts(ls[1..])
  }

  predicate Lexical(ls: seq<Lexeme>) {
    ls == [] || (Valid(ls[0]) && Follows(ls[0], Texts(ls[1..])) && Lexical(ls[1..]))
  }

  /** Doubled quotes stand for one. */
  function Undouble(body: string, q: char): string {
    if body == [] then []
    else if |body| >= 2 && body[0] == q && body[1] == q then [q] + Undouble(body[2..], q)
    else [body[0]] + Undouble(body[1..], q)
  }

  function TokenOf(l: Lexeme): seq<Token> {
    match l
    case Blank(_) => []
    case Semicolon => [Separator]
    case LineComment(_) => []
    case BlockComment(_) => []
    case Quoted(q, body) => [if q == '\'' then StringToken(Undouble(body, q)) else Identifier(Undouble(body, q))]
    case Bracketed(body) => [Identifier(body)]
    case Name(text) => [Word(text)]
    case Other(c) => [Symbol(c)]
  }

  function TokensOf(ls: seq<Lexeme>): seq<Token> {
    if ls == [] then [] else TokenOf(ls[0]) + TokensOf(ls[1..])
  }

  // ---------- The lexer ----------

  function Span(s: string): (n: nat)
    ensures n <= |s|
  {
    if s != [] && WordContinue(s[0]) then 1 + Span(s[1..]) else 0
  }

  function LineLength(s: string): (r: Option<nat>)
    ensures r.Some? ==> r.value <= |s|
  {
    if s == [] || LineEnd(s[0]) then Some(0)
    else if s[0] == NUL then None
    else More(1, LineLength(s[1..]))
  }

  function More(n: nat, r: Option<nat>): Option<nat> {
    match r
    case None => None
    case Some(k) => Some(n + k)
  }

  /** Length of a comment body; the closing mark follows it. */
  function BlockLength(s: string): (r: Option<nat>)
    ensures r.Some? ==> r.value + 2 <= |s|
  {
    if s == [] || s[0] == NUL then None
    else if s[0] == '*' && |s| >= 2 && s[1] == '/' then Some(0)
    else More(1, BlockLength(s[1..]))
  }

  function QuotedLength(s: string, q: char): (r: Option<nat>)
    ensures r.Some? ==> r.value + 1 <= |s|
  {
    if s == [] || s[0] == NUL then None
    else if s[0] != q then More(1, QuotedLength(s[1..], q))
    else if |s| >= 2 && s[1] == q then More(2, QuotedLength(s[2..], q))
    else Some(0)
  }

  function BracketLength(s: string): (r: Option<nat>)
    ensures r.Some? ==> r.value + 1 <= |s|
  {
    if s == [] || s[0] == NUL then None
    else if s[0] == ']' then Some(0)
    else More(1, BracketLength(s[1..]))
  }

  /** The lexeme at the start of a text. */
  function Next(s: string): Option<Lexeme>
    requires s != []
  {
    var c := s[0];
    if c == NUL then None
    else if IsSpace(c) then Some(Blank(c))
    else if c == ';' then Some(Semicolon)
    else if c == '-' && |s| >= 2 && s[1] == '-' then
      (match LineLength(s[2..]) case None => None case Some(n) => Some(LineComment(s[2..2 + n])))
    else if c == '/' && |s| >= 2 && s[1] == '*' then
      (match BlockLength(s[2..]) case None => None case Some(n) => Some(BlockComment(s[2..2 + n])))
    else if Quote(c) then
      (match QuotedLength(s[1..], c) case None => None case Some(n) => Some(Quoted(c, s[1..1 + n])))
    else if c == '[' then
      (match BracketLength(s[1..]) case None => None case Some(n) => Some(Bracketed(s[1..1 + n])))
    else if WordStart(c) then Some(Name(s[..1 + Span(s[1..])]))
    else Some(Other(c))
  }

  // ---------- One lexeme: sound and complete ----------

  lemma {:induction false} SpanOk(a: string, rest: string)
    requires (forall i :: 0 <= i < |a| ==> WordContinue(a[i])) && (rest == [] || !WordContinue(rest[0]))
    ensures Span(a + rest) == |a|
  {
    if a == [] {
      assert a + rest == rest;
    } else {
      SpanOk(a[1..], rest);
      assert (a + rest)[1..] == a[1..] + rest;
    }
  }

  lemma {:induction false} SpanStops(s: string)
    ensures forall i :: 0 <= i < Span(s) ==> WordContinue(s[i])
    ensures Span(s) < |s| ==> !WordContinue(s[Span(s)])
  {
    if s != [] && WordContinue(s[0]) { SpanStops(s[1..]); }
  }

  lemma {:induction false} LineOk(a: string, rest: string)
    requires OneLine(a) && (rest == [] || LineEnd(rest[0]))
    ensures LineLength(a + rest) == Some(|a|)
  {
    if a == [] {
      assert a + rest == rest;
    } else {
      LineOk(a[1..], rest);
      assert (a + rest)[1..] == a[1..] + rest;
    }
  }

  lemma {:induction false} LineStops(s: string)
    requires LineLength(s).Some?
    ensures var n := LineLength(s).value; OneLine(s[..n]) && (n < |s| ==> LineEnd(s[n]))
  {
    if s != [] && !LineEnd(s[0]) {
      LineStops(s[1..]);
      var n := LineLength(s).value;
      assert s[..n] == [s[0]] + s[1..][..n - 1];
    }
  }

  lemma UnclosedTail(a: string)
    requires Unclosed(a) && a != []
    ensures Unclosed(a[1..])
  {
    var b := a[1..];
    forall i | 0 <= i < |b| - 1 ensures !(b[i] == '*' && b[i + 1] == '/') { assert b[i] == a[i + 1] && b[i + 1] == a[(i + 1) + 1]; }
  }

  lemma {:induction false} BlockOk(a: string, rest: string)
    requires Unclosed(a)
    ensures BlockLength(a + "*/" + rest) == Some(|a|)
  {
    var s := a + "*/" + rest;
    if a != [] {
      UnclosedTail(a);
      BlockOk(a[1..], rest);
      assert s[1..] == a[1..] + "*/" + rest;
      assert |a| >= 2 ==> s[1] == a[1];
    }
  }

  lemma {:induction false} BlockStops(s: string)
    requires BlockLength(s).Some?
    ensures var n := BlockLength(s).value; Unclosed(s[..n]) && s[n] == '*' && s[n + 1] == '/'
  {
    if !(s[0] == '*' && |s| >= 2 && s[1] == '/') {
      BlockStops(s[1..]);
      var n := BlockLength(s).value;
      assert s[..n] == [s[0]] + s[1..][..n - 1];
    }
  }

  lemma Ahead(a: string, b: string, c: string, n: nat)
    requires n <= |a|
    ensures (a + b + c)[n..] == a[n..] + b + c && forall i :: 0 <= i < |a| ==> (a + b + c)[i] == a[i]
  {
  }

  lemma {:induction false} QuotedOk(a: string, q: char, rest: string)
    requires Paired(a, q) && q != NUL && (rest == [] || rest[0] != q)
    ensures QuotedLength(a + [q] + rest, q) == Some(|a|)
  {
    var s := a + [q] + rest;
    if a == [] {
      assert s == [q] + rest;
    } else if a[0] == q {
      QuotedOk(a[2..], q, rest);
      Ahead(a, [q], rest, 2);
    } else {
      QuotedOk(a[1..], q, rest);
      Ahead(a, [q], rest, 1);
    }
  }

  lemma {:induction false} QuotedStops(s: string, q: char)
    requires QuotedLength(s, q).Some?
    ensures var n := QuotedLength(s, q).value; Paired(s[..n], q) && s[n] == q && (n + 1 < |s| ==> s[n + 1] != q)
  {
    var n := QuotedLength(s, q).value;
    if s[0] != q {
      QuotedStops(s[1..], q);
      assert s[..n][1..] == s[1..][..n - 1];
    } else if |s| >= 2 && s[1] == q {
      QuotedStops(s[2..], q);
      assert s[..n][2..] == s[2..][..n - 2];
    }
  }

  lemma {:induction false} BracketOk(a: string, rest: string)
    requires Plain(a)
    ensures BracketLength(a + "]" + rest) == Some(|a|)
  {
    var s := a + "]" + rest;
    if a != [] {
      BracketOk(a[1..], rest);
      assert s[1..] == a[1..] + "]" + rest;
    }
  }

  lemma {:induction false} BracketStops(s: string)
    requires BracketLength(s).Some?
    ensures var n := BracketLength(s).value; Plain(s[..n]) && s[n] == ']'
  {
    if s[0] != ']' {
      BracketStops(s[1..]);
      var n := BracketLength(s).value;
      assert s[..n] == [s[0]] + s[1..][..n - 1];
    }
  }

  predicate Starts(l: Lexeme, s: string) {
    Valid(l) && Text(l) != [] && Text(l) <= s && Follows(l, s[|Text(l)|..])
  }

  lemma LineSound(s: string)
    requires |s| >= 2 && s[..2] == "--" && LineLength(s[2..]).Some?
    ensures Starts(LineComment(s[2..2 + LineLength(s[2..]).value]), s)
  {
    LineStops(s[2..]);
    var n := LineLength(s[2..]).value;
    assert s[2..2 + n] == s[2..][..n];
    assert s[..2 + n] == "--" + s[2..2 + n];
  }

  lemma BlockSound(s: string)
    requires |s| >= 2 && s[..2] == "/*" && BlockLength(s[2..]).Some?
    ensures Starts(BlockComment(s[2..2 + BlockLength(s[2..]).value]), s)
  {
    BlockStops(s[2..]);
    var n := BlockLength(s[2..]).value;
    assert s[2..2 + n] == s[2..][..n];
    assert s[..4 + n] == "/*" + (s[2..2 + n] + "*/");
  }

  lemma QuotedSound(s: string)
    requires s != [] && Quote(s[0]) && QuotedLength(s[1..], s[0]).Some?
    ensures Starts(Quoted(s[0], s[1..1 + QuotedLength(s[1..], s[0]).value]), s)
  {
    var n := QuotedLength(s[1..], s[0]).value;
    QuotedStops(s[1..], s[0]);
    Enclosing(s, n);
  }

  lemma Enclosing(s: string, n: nat)
    requires 2 + n <= |s|
    ensures s[1..1 + n] == s[1..][..n] && s[1..][n] == s[1 + n] && s[..2 + n] == [s[0]] + (s[1..1 + n] + [s[1 + n]])
    ensures 2 + n < |s| ==> s[1..][n + 1] == s[2 + n] == s[2 + n..][0]
  {
  }

  lemma BracketSound(s: string)
    requires s != [] && s[0] == '[' && BracketLength(s[1..]).Some?
    ensures Starts(Bracketed(s[1..1 + BracketLength(s[1..]).value]), s)
  {
    BracketStops(s[1..]);
    var n := BracketLength(s[1..]).value;
    assert s[1..1 + n] == s[1..][..n];
    assert s[..2 + n] == "[" + (s[1..1 + n] + "]");
  }

  lemma NameSound(s: string)
    requires s != [] && WordStart(s[0])
    ensures Starts(Name(s[..1 + Span(s[1..])]), s)
  {
    SpanStops(s[1..]);
  }

  lemma NextSound(s: string)
    requires s != [] && Next(s).Some?
    ensures Starts(Next(s).value, s)
  {
    var c := s[0];
    if !IsSpace(c) && c != ';' {
      if c == '-' && |s| >= 2 && s[1] == '-' { LineSound(s); }
      else if c == '/' && |s| >= 2 && s[1] == '*' { BlockSound(s); }
      else if Quote(c) { QuotedSound(s); }
      else if c == '[' { BracketSound(s); }
      else if WordStart(c) { NameSound(s); }
    }
  }

  lemma StartsWith(a: string, b: string)
    requires a != []
    ensures (a + b)[0] == a[0] && (|a| > 1 ==> (a + b)[1] == a[1])
  {
  }

  lemma LineComplete(body: string, rest: string)
    requires OneLine(body) && Follows(LineComment(body), rest)
    ensures Next("--" + body + rest) == Some(LineComment(body))
  {
    LineOk(body, rest);
    Middle("--", body, rest);
    StartsWith("--", body + rest);
  }

  lemma BlockComplete(body: string, rest: string)
    requires Unclosed(body)
    ensures Next("/*" + (body + "*/") + rest) == Some(BlockComment(body))
  {
    var s := "/*" + (body + "*/") + rest;
    BlockOk(body, rest);
    assert s[2..] == body + "*/" + rest;
    assert s[2..2 + |body|] == body;
  }

  lemma Delimited(open: char, body: string, close: char, rest: string)
    ensures var s := [open] + (body + [close]) + rest;
            s[0] == open && s[1..] == body + [close] + rest && s[1..1 + |body|] == body
  {
  }

  lemma QuotedComplete(q: char, body: string, rest: string)
    requires Quote(q) && Paired(body, q) && Follows(Quoted(q, body), rest)
    ensures Next([q] + (body + [q]) + rest) == Some(Quoted(q, body))
  {
    QuotedOk(body, q, rest);
    Delimited(q, body, q, rest);
  }

  lemma BracketComplete(body: string, rest: string)
    requires Plain(body)
    ensures Next("[" + (body + "]") + rest) == Some(Bracketed(body))
  {
    var s := "[" + (body + "]") + rest;
    BracketOk(body, rest);
    assert s[1..] == body + "]" + rest;
    assert s[1..1 + |body|] == body;
  }

  lemma NameComplete(text: string, rest: string)
    requires IsName(text) && Follows(Name(text), rest)
    ensures Next(text + rest) == Some(Name(text))
  {
    var s := text + rest;
    SpanOk(text[1..], rest);
    assert s[1..] == text[1..] + rest;
    assert s[..|text|] == text;
  }

  lemma NextComplete(l: Lexeme, rest: string)
    requires Valid(l) && Follows(l, rest)
    ensures Text(l) != [] && Next(Text(l) + rest) == Some(l)
  {
    match l
    case LineComment(body) => LineComplete(body, rest);
    case BlockComment(body) => BlockComplete(body, rest);
    case Quoted(q, body) => QuotedComplete(q, body, rest);
    case Bracketed(body) => BracketComplete(body, rest);
    case Name(text) => NameComplete(text, rest);
    case _ =>
  }

  // ---------- Whole texts ----------

  function Lex(s: string): Option<seq<Lexeme>>
    decreases |s|
  {
    if s == [] then Some([])
    else
      match Next(s)
      case None => None
      case Some(l) =>
        NextSound(s);
        match Lex(s[|Text(l)|..])
        case None => None
        case Some(rest) => Some([l] + rest)
  }

  lemma {:induction false} LexSound(s: string)
    requires Lex(s).Some?
    ensures Lexical(Lex(s).value) && Texts(Lex(s).value) == s
    decreases |s|
  {
    if s != [] {
      NextSound(s);
      var l := Next(s).value;
      LexSound(s[|Text(l)|..]);
      assert s == Text(l) + s[|Text(l)|..];
    }
  }

  lemma {:induction false} LexComplete(ls: seq<Lexeme>)
    requires Lexical(ls)
    ensures Lex(Texts(ls)) == Some(ls)
  {
    if ls != [] {
      NextComplete(ls[0], Texts(ls[1..]));
      LexComplete(ls[1..]);
      assert Texts(ls)[|Text(ls[0])|..] == Texts(ls[1..]);
      assert ls == [ls[0]] + ls[1..];
    }
  }

  function Utf8Bytes(s: string): nat {
    if s == [] then 0
    else
      var c := s[0] as int;
      (if c < 0x80 then 1 else if c < 0x800 then 2 else if c < 0x1_0000 then 3 else 4) + Utf8Bytes(s[1..])
  }

  function Tokenize(text: string, maxBytes: int): Option<seq<Token>> {
    if maxBytes <= 0 || text == [] || Utf8Bytes(text) > maxBytes then None
    else
      match Lex(text)
      case None => None
      case Some(ls) => Some(TokensOf(ls))
  }

  /** The lexer accepts exactly the texts that are made up of lexemes, and
      returns the tokens of the one such reading. */
  lemma TokenizeExactly(text: string, maxBytes: int, ts: seq<Token>)
    ensures Tokenize(text, maxBytes) == Some(ts) <==>
      maxBytes > 0 && text != [] && Utf8Bytes(text) <= maxBytes && exists ls :: Reads(text, ls) && TokensOf(ls) == ts
  {
    if Lex(text).Some? {
      LexSound(text);
      assert Reads(text, Lex(text).value);
    }
    forall ls | Reads(text, ls) ensures Lex(text) == Some(ls) { LexComplete(ls); }
  }

  predicate Reads(text: string, ls: seq<Lexeme>) {
    Lexical(ls) && Texts(ls) == text
  }

  /** A text has one reading. */
  lemma ReadingIsUnique(text: string, a: seq<Lexeme>, b: seq<Lexeme>)
    requires Reads(text, a) && Reads(text, b)
    ensures a == b
  {
    LexComplete(a);
    LexComplete(b);
  }

  // ---------- Separators ----------

  function Semicolons(s: string): nat {
    if s == [] then 0 else (if s[0] == ';' then 1 else 0) + Semicolons(s[1..])
  }

  function Separators(ts: seq<Token>): nat {
    if ts == [] then 0 else (if ts[0].Separator? then 1 else 0) + Separators(ts[1..])
  }

  /** Semicolons inside strings, quoted names and comments. */
  function Enclosed(ls: seq<Lexeme>): nat {
    if ls == [] then 0
    else
      var l := ls[0];
      (if l.LineComment? || l.BlockComment? || l.Quoted? || l.Bracketed? then Semicolons(l.body) else 0) + Enclosed(ls[1..])
  }

  lemma {:induction false} SemicolonsConcat(a: string, b: string)
    ensures Semicolons(a + b) == Semicolons(a) + Semicolons(b)
  {
    if a == [] {
      assert a + b == b;
    } else {
      SemicolonsConcat(a[1..], b);
      assert (a + b)[1..] == a[1..] + b;
    }
  }

  lemma {:induction false} SeparatorsConcat(a: seq<Token>, b: seq<Token>)
    ensures Separators(a + b) == Separators(a) + Separators(b)
  {
    if a == [] {
      assert a + b == b;
    } else {
      SeparatorsConcat(a[1..], b);
      assert (a + b)[1..] == a[1..] + b;
    }
  }

  lemma {:induction false} NameHasNone(s: string)
    requires forall i :: 0 <= i < |s| ==> WordContinue(s[i])
    ensures Semicolons(s) == 0
  {
    if s != [] { NameHasNone(s[1..]); }
  }

  lemma OneLexeme(l: Lexeme)
    requires Valid(l)
    ensures Semicolons(Text(l)) == Separators(TokenOf(l)) + Enclosed([l])
  {
    assert Enclosed([l]) == (if l.LineComment? || l.BlockComment? || l.Quoted? || l.Bracketed? then Semicolons(l.body) else 0);
    match l
    case LineComment(body) => SemicolonsConcat("--", body);
    case BlockComment(body) =>
      SemicolonsConcat(body, "*/");
      SemicolonsConcat("/*", body + "*/");
    case Quoted(q, body) =>
      SemicolonsConcat(body, [q]);
      SemicolonsConcat([q], body + [q]);
    case Bracketed(body) =>
      SemicolonsConcat(body, "]");
      SemicolonsConcat("[", body + "]");
    case Name(text) => NameHasNone(text);
    case _ =>
  }

  /** Every semicolon is either a separator or inside a string, a quoted name or
      a comment. */
  lemma {:induction false} SeparatorsExactly(ls: seq<Lexeme>)
    requires Lexical(ls)
    ensures Semicolons(Texts(ls)) == Separators(TokensOf(ls)) + Enclosed(ls)
  {
    if ls != [] {
      SeparatorsExactly(ls[1..]);
      OneLexeme(ls[0]);
      SemicolonsConcat(Text(ls[0]), Texts(ls[1..]));
      SeparatorsConcat(TokenOf(ls[0]), TokensOf(ls[1..]));
    }
  }

  // ---------- Quoting a name ----------

  function Double(s: string): string {
    if s == [] then [] else (if s[0] == '"' then "\"\"" else [s[0]]) + Double(s[1..])
  }

  function QuoteIdentifier(s: string): string {
    "\"" + Double(s) + "\""
  }

  lemma {:induction false} DoubleRoundTrip(s: string)
    requires NUL !in s
    ensures Paired(Double(s), '"') && Undouble(Double(s), '"') == s
  {
    if s != [] {
      DoubleRoundTrip(s[1..]);
      var d := Double(s);
      assert s == [s[0]] + s[1..];
      if s[0] == '"' {
        assert d[2..] == Double(s[1..]);
      } else {
        assert d[1..] == Double(s[1..]);
      }
    }
  }

  /** A quoted name reads back as that one name. */
  lemma QuoteRoundTrip(s: string, maxBytes: int)
    requires NUL !in s && Utf8Bytes(QuoteIdentifier(s)) <= maxBytes
    ensures Tokenize(QuoteIdentifier(s), maxBytes) == Some([Identifier(s)])
  {
    DoubleRoundTrip(s);
    var l := Quoted('"', Double(s));
    assert Texts([l]) == QuoteIdentifier(s) by {
      assert [l][1..] == [];
      assert Text(l) + [] == QuoteIdentifier(s);
    }
    assert Lexical([l]) by { assert [l][1..] == []; }
    LexComplete([l]);
    assert TokensOf([l]) == [Identifier(s)] by { assert [l][1..] == []; }
  }

  // ---------- The lexer as the program runs it ----------

  lemma Tail(s: string, i: nat)
    requires i < |s|
    ensures s[i..] != [] && s[i..][0] == s[i] && s[i..][1..] == s[i + 1..] && (i + 1 < |s| ==> s[i..][1] == s[i + 1] && s[i..][2..] == s[i + 2..])
  {
  }

  method SkipBlockComment(text: string, start: nat) returns (index: nat, ok: bool)
    requires start <= |text|
    ensures ok == BlockLength(text[start..]).Some? && (ok ==> index == start + BlockLength(text[start..]).value + 2)
  {
    index := start;
    while index < |text|
      invariant start <= index <= |text|
      invariant BlockLength(text[start..]) == More(index - start, BlockLength(text[index..]))
    {
      Tail(text, index);
      if text[index] == NUL { return 0, false; }
      if text[index] == '*' && index + 1 < |text| && text[index + 1] == '/' { return index + 2, true; }
      index := index + 1;
    }
    return 0, false;
  }

  /** One step of the scan for a closing quote. */
  lemma QuotedStep(s: string, q: char)
    requires s != [] && s[0] != NUL
    ensures s[0] != q ==> QuotedLength(s, q) == More(1, QuotedLength(s[1..], q))
    ensures s[0] == q && |s| >= 2 && s[1] == q ==> QuotedLength(s, q) == More(2, QuotedLength(s[2..], q))
    ensures s[0] == q && !(|s| >= 2 && s[1] == q) ==> QuotedLength(s, q) == Some(0)
  {
  }

  method SkipDelimited(text: string, start: nat, q: char) returns (index: nat, ok: bool)
    requires start <= |text|
    ensures ok == QuotedLength(text[start..], q).Some? && (ok ==> index == start + QuotedLength(text[start..], q).value + 1)
  {
    index := start;
    while index < |text|
      invariant start <= index <= |text|
      invariant QuotedLength(text[start..], q) == More(index - start, QuotedLength(text[index..], q))
    {
      Tail(text, index);
      if text[index] == NUL { return 0, false; }
      QuotedStep(text[index..], q);
      if text[index] != q {
        index := index + 1;
      } else if index + 1 < |text| && text[index + 1] == q {
        index := index + 2;
      } else {
        return index + 1, true;
      }
    }
    return 0, false;
  }

  method SkipBracketIdentifier(text: string, start: nat) returns (index: nat, ok: bool)
    requires start <= |text|
    ensures ok == BracketLength(text[start..]).Some? && (ok ==> index == start + BracketLength(text[start..]).value + 1)
  {
    index := start;
    while index < |text|
      invariant start <= index <= |text|
      invariant BracketLength(text[start..]) == More(index - start, BracketLength(text[index..]))
    {
      Tail(text, index);
      if text[index] == NUL { return 0, false; }
      if text[index] == ']' { return index + 1, true; }
      index := index + 1;
    }
    return 0, false;
  }

  method SkipLineComment(text: string, start: nat) returns (index: nat, ok: bool)
    requires start <= |text|
    ensures ok == LineLength(text[start..]).Some? && (ok ==> index == start + LineLength(text[start..]).value)
  {
    index := start;
    while index < |text| && !LineEnd(text[index])
      invariant start <= index <= |text|
      invariant LineLength(text[start..]) == More(index - start, LineLength(text[index..]))
    {
      Tail(text, index);
      if text[index] == NUL { return 0, false; }
      index := index + 1;
    }
    if index < |text| { Tail(text, index); }
    return index, true;
  }

  method SkipWord(text: string, start: nat) returns (index: nat)
    requires start <= |text|
    ensures index == start + Span(text[start..])
  {
    index := start;
    while index < |text| && WordContinue(text[index])
      invariant start <= index <= |text| && Span(text[start..]) == index - start + Span(text[index..])
    {
      Tail(text, index);
      index := index + 1;
    }
    if index < |text| { Tail(text, index); }
  }

  method NextComment(text: string, start: nat) returns (r: Option<Lexeme>, index: nat)
    requires start + 1 < |text| && (text[start..start + 2] == "--" || text[start..start + 2] == "/*")
    ensures r == Next(text[start..])
    ensures r.Some? ==> index == start + |Text(r.value)|
  {
    Tail(text, start);
    var ok;
    if text[start..start + 2] == "--" {
      assert text[start] == '-' && text[start + 1] == '-';
      index, ok := SkipLineComment(text, start + 2);
      if !ok { return None, index; }
      Inside(text, start, 2, index);
      r := Some(LineComment(text[start + 2..index]));
    } else {
      assert text[start] == '/' && text[start + 1] == '*';
      index, ok := SkipBlockComment(text, start + 2);
      if !ok { return None, index; }
      Inside(text, start, 2, index - 2);
      r := Some(BlockComment(text[start + 2..index - 2]));
    }
  }

  method NextQuoted(text: string, start: nat) returns (r: Option<Lexeme>, index: nat)
    requires start < |text| && (Quote(text[start]) || text[start] == '[')
    ensures r == Next(text[start..])
    ensures r.Some? ==> index == start + |Text(r.value)|
  {
    Tail(text, start);
    var c, ok := text[start], true;
    if Quote(c) {
      index, ok := SkipDelimited(text, start + 1, c);
      if !ok { return None, index; }
      Inside(text, start, 1, index - 1);
      r := Some(Quoted(c, text[start + 1..index - 1]));
    } else {
      index, ok := SkipBracketIdentifier(text, start + 1);
      if !ok { return None, index; }
      Inside(text, start, 1, index - 1);
      r := Some(Bracketed(text[start + 1..index - 1]));
    }
  }

  /** The lexeme at `start`, and where the next one begins. */
  method NextLexeme(text: string, start: nat) returns (r: Option<Lexeme>, index: nat)
    requires start < |text|
    ensures r == Next(text[start..])
    ensures r.Some? ==> index == start + |Text(r.value)|
  {
    Tail(text, start);
    var c := text[start];
    index := start + 1;
    if c == NUL {
      r := None;
    } else if IsSpace(c) {
      r := Some(Blank(c));
    } else if c == ';' {
      r := Some(Semicolon);
    } else if start + 1 < |text| && (text[start..start + 2] == "--" || text[start..start + 2] == "/*") {
      r, index := NextComment(text, start);
    } else if Quote(c) || c == '[' {
      r, index := NextQuoted(text, start);
    } else if WordStart(c) {
      index := SkipWord(text, start + 1);
      Inside(text, start, 0, index);
      r := Some(Name(text[start..index]));
    } else {
      r := Some(Other(c));
      assert start + 1 < |text| ==> text[start..start + 2] == [text[start], text[start + 1]];
    }
  }

  lemma Inside(s: string, start: nat, skip: nat, end: nat)
    requires start + skip <= end <= |s|
    ensures s[start + skip..end] == s[start..][skip..end - start]
  {
  }

  /** One more lexeme read. */
  lemma Advance(text: string, index: nat, l: Lexeme, next: nat)
    requires index < |text| && Next(text[index..]) == Some(l) && next == index + |Text(l)|
    ensures index < next <= |text|
    ensures Lex(text[index..]).Some? <==> Lex(text[next..]).Some?
    ensures Lex(text[next..]).Some? ==> TokensOf(Lex(text[index..]).value) == TokenOf(l) + TokensOf(Lex(text[next..]).value)
  {
    NextSound(text[index..]);
    assert text[index..][|Text(l)|..] == text[next..];
    if Lex(text[next..]).Some? {
      var ls := [l] + Lex(text[next..]).value;
      assert ls[1..] == Lex(text[next..]).value;
    }
  }

  lemma NothingLeft(text: string, tokens: seq<Token>)
    ensures text[|text|..] == [] && tokens + [] == tokens
  {
  }

  method TokenizeText(text: string, maxBytes: int) returns (r: Option<seq<Token>>)
    ensures r == Tokenize(text, maxBytes)
  {
    if maxBytes <= 0 || text == [] || Utf8Bytes(text) > maxBytes { return None; }
    var tokens, index := [], 0;
    assert text[0..] == text;
    while index < |text|
      invariant 0 <= index <= |text|
      invariant Lex(text).Some? <==> Lex(text[index..]).Some?
      invariant Lex(text).Some? ==> TokensOf(Lex(text).value) == tokens + TokensOf(Lex(text[index..]).value)
      decreases |text| - index
    {
      var l, next := NextLexeme(text, index);
      if l.None? { return None; }
      Advance(text, index, l.value, next);
      if Lex(text).Some? { Regroup(tokens, TokenOf(l.value), TokensOf(Lex(text[next..]).value)); }
      tokens := tokens + TokenOf(l.value);
      index := next;
    }
    NothingLeft(text, tokens);
    return Some(tokens);
  }
}
