/** JSON Pointers (RFC 6901) and their URI fragment form. */
module Pointers {
  import opened Sequences
  import opened Common
  import D = Decimals

  type Tokens = seq<string>

  /** Strings are byte strings; a wider character would stand for itself. */
  predicate IsByte(c: char) { c as int < 256 }

  // ---------- Escaping a token ----------

  function ReplaceAll(s: string, c: char, sub: string): string {
    if s == [] then [] else (if s[0] == c then sub else [s[0]]) + ReplaceAll(s[1..], c, sub)
  }

  function EscapeToken(token: string): string {
    ReplaceAll(ReplaceAll(token, '~', "~0"), '/', "~1")
  }

  function UnescapeToken(token: string): Option<string> {
    if token == [] then Some([])
    else if token[0] != '~' then Prepend(token[0], UnescapeToken(token[1..]))
    else if |token| < 2 then None
    else if token[1] == '0' then Prepend('~', UnescapeToken(token[2..]))
    else if token[1] == '1' then Prepend('/', UnescapeToken(token[2..]))
    else None
  }

  function Prepend(c: char, r: Option<string>): Option<string> {
    match r
    case None => None
    case Some(s) => Some([c] + s)
  }

  lemma {:induction false} ReplaceConcat(a: string, b: string, c: char, sub: string)
    ensures ReplaceAll(a + b, c, sub) == ReplaceAll(a, c, sub) + ReplaceAll(b, c, sub)
  {
    if a == [] {
      assert a + b == b;
    } else {
      ReplaceConcat(a[1..], b, c, sub);
      TailOfConcat(a, b);
      Regroup(if a[0] == c then sub else [a[0]], ReplaceAll(a[1..], c, sub), ReplaceAll(b, c, sub));
    }
  }

  lemma TailOfConcat(a: string, b: string)
    requires a != []
    ensures (a + b)[0] == a[0] && (a + b)[1..] == a[1..] + b
  {
  }

  function EscapeChar(c: char): string {
    if c == '~' then "~0" else if c == '/' then "~1" else [c]
  }

  /** The two passes act on each character alone. */
  lemma EscapeStep(token: string)
    requires token != []
    ensures EscapeToken(token) == EscapeChar(token[0]) + EscapeToken(token[1..])
  {
    var rest := ReplaceAll(token[1..], '~', "~0");
    var head := if token[0] == '~' then "~0" else [token[0]];
    ReplaceConcat(head, rest, '/', "~1");
    assert ReplaceAll(head, '/', "~1") == EscapeChar(token[0]) by {
      assert head[1..] == [] || head[1..] == "0";
      assert head[1..] == "0" ==> head[1..][1..] == [];
    }
  }

  lemma UnescapeStep(c: char, rest: string)
    ensures UnescapeToken(EscapeChar(c) + rest) == Prepend(c, UnescapeToken(rest))
  {
    var e := EscapeChar(c);
    assert (e + rest)[|e|..] == rest && (e + rest)[0] == e[0] && (|e| == 2 ==> (e + rest)[1] == e[1]);
  }

  lemma {:induction false} EscapeRoundTrip(token: string)
    ensures UnescapeToken(EscapeToken(token)) == Some(token)
  {
    if token != [] {
      EscapeStep(token);
      EscapeRoundTrip(token[1..]);
      UnescapeStep(token[0], EscapeToken(token[1..]));
      assert token == [token[0]] + token[1..];
    }
  }

  lemma {:induction false} EscapeClean(token: string)
    ensures '/' !in EscapeToken(token)
  {
    if token != [] {
      EscapeStep(token);
      EscapeClean(token[1..]);
    }
  }

  // ---------- Joining and splitting ----------

  function Join(tokens: Tokens): string {
    if tokens == [] then [] else "/" + EscapeToken(tokens[0]) + Join(tokens[1..])
  }

  /** `strings.Split` at slashes. */
  function Split(s: string): (r: seq<string>)
    ensures r != []
  {
    if s == [] then [[]]
    else
      var rest := Split(s[1..]);
      if s[0] == '/' then [[]] + rest else [[s[0]] + rest[0]] + rest[1..]
  }

  lemma {:induction false} SplitFirst(a: string, b: string)
    requires '/' !in a && (b == [] || b[0] == '/')
    ensures Split(a + b) == [a] + (if b == [] then [] else Split(b[1..]))
  {
    if a == [] {
      assert a + b == b;
    } else {
      SplitFirst(a[1..], b);
      TailOfConcat(a, b);
      assert a == [a[0]] + a[1..];
    }
  }

  function UnescapeAll(raw: seq<string>): Option<Tokens> {
    if raw == [] then Some([])
    else
      match UnescapeToken(raw[0])
      case None => None
      case Some(first) =>
        match UnescapeAll(raw[1..])
        case None => None
        case Some(rest) => Some([first] + rest)
  }

  lemma {:induction false} JoinRoundTrip(tokens: Tokens)
    requires tokens != []
    ensures Join(tokens)[0] == '/' && UnescapeAll(Split(Join(tokens)[1..])) == Some(tokens)
  {
    var first, rest := EscapeToken(tokens[0]), tokens[1..];
    JoinTail(tokens);
    assert tokens == [tokens[0]] + rest;
    if rest != [] { JoinRoundTrip(rest); }
    EscapeClean(tokens[0]);
    SplitFirst(first, Join(rest));
    EscapeRoundTrip(tokens[0]);
    UnescapeFirst(first, tokens[0], if rest == [] then [] else Split(Join(rest)[1..]), rest);
  }

  lemma JoinTail(tokens: Tokens)
    requires tokens != []
    ensures Join(tokens)[0] == '/' && Join(tokens)[1..] == EscapeToken(tokens[0]) + Join(tokens[1..])
    ensures Join(tokens[1..]) == [] <==> tokens[1..] == []
  {
    SlashFirst(EscapeToken(tokens[0]), Join(tokens[1..]));
    var rest := tokens[1..];
    if rest != [] { SlashFirst(EscapeToken(rest[0]), Join(rest[1..])); }
  }

  lemma SlashFirst(a: string, b: string)
    ensures var s := "/" + a + b; s != [] && s[0] == '/' && s[1..] == a + b
  {
  }

  lemma UnescapeFirst(raw: string, token: string, more: seq<string>, rest: Tokens)
    requires UnescapeToken(raw) == Some(token) && UnescapeAll(more) == Some(rest)
    ensures UnescapeAll([raw] + more) == Some([token] + rest)
  {
    assert ([raw] + more)[1..] == more;
  }

  // ---------- Percent encoding of a fragment ----------

  predicate Alphanumeric(c: char) {
    'a' <= c <= 'z' || 'A' <= c <= 'Z' || '0' <= c <= '9'
  }

  predicate FragmentSafe(c: char) {
    Alphanumeric(c) || c in {'-', '_', '.', '~', '$', '&', '+', ',', '/', ':', ';', '=', '?', '@', '!', '(', ')', '*'}
  }

  function HexDigit(n: nat): char
    requires n < 16
  {
    if n < 10 then '0' + n as char else 'A' + (n - 10) as char
  }

  function HexValue(c: char): Option<nat> {
    if '0' <= c <= '9' then Some(c as int - '0' as int)
    else if 'a' <= c <= 'f' then Some(c as int - 'a' as int + 10)
    else if 'A' <= c <= 'F' then Some(c as int - 'A' as int + 10)
    else None
  }

  function EncodeByte(c: char): string {
    if FragmentSafe(c) || !IsByte(c) then [c] else ['%', HexDigit(c as int / 16), HexDigit(c as int % 16)]
  }

  function PercentEncode(s: string): string {
    if s == [] then [] else EncodeByte(s[0]) + PercentEncode(s[1..])
  }

  function PercentDecode(s: string): Option<string> {
    if s == [] then Some([])
    else if s[0] != '%' then Prepend(s[0], PercentDecode(s[1..]))
    else if |s| < 3 || HexValue(s[1]).None? || HexValue(s[2]).None? then None
    else Prepend((16 * HexValue(s[1]).value + HexValue(s[2]).value) as char, PercentDecode(s[3..]))
  }

  lemma {:induction false} PercentRoundTrip(s: string)
    ensures PercentDecode(PercentEncode(s)) == Some(s)
  {
    if s != [] {
      PercentRoundTrip(s[1..]);
      var head, rest := EncodeByte(s[0]), PercentEncode(s[1..]);
      var e := head + rest;
      assert s == [s[0]] + s[1..];
      if FragmentSafe(s[0]) || !IsByte(s[0]) {
        assert e[1..] == rest;
      } else {
        assert e[3..] == rest;
      }
    }
  }

  // ---------- References ----------

  function PointerKey(tokens: Tokens): string {
    "#" + Join(tokens)
  }

  function FragmentReference(tokens: Tokens): string {
    "#" + PercentEncode(Join(tokens))
  }

  /** A local reference as a token list; anything else is rejected. */
  function ParseLocalPointer(reference: string): Option<Tokens> {
    if reference == [] || reference[0] != '#' then None
    else
      match PercentDecode(reference[1..])
      case None => None
      case Some(fragment) =>
        if fragment == [] then Some([])
        else if fragment[0] != '/' then None
        else UnescapeAll(Split(fragment[1..]))
  }

  /** Printing a location and parsing it back gives that location, whatever
      characters its names hold. */
  lemma ReferenceRoundTrip(tokens: Tokens)
    ensures ParseLocalPointer(FragmentReference(tokens)) == Some(tokens)
  {
    PercentRoundTrip(Join(tokens));
    assert FragmentReference(tokens)[1..] == PercentEncode(Join(tokens));
    if tokens != [] { JoinRoundTrip(tokens); }
  }

  /** Distinct locations have distinct keys. */
  lemma PointerKeyInjective(a: Tokens, b: Tokens)
    ensures PointerKey(a) == PointerKey(b) <==> a == b
  {
    if PointerKey(a) == PointerKey(b) {
      assert PointerKey(a)[1..] == Join(a) && PointerKey(b)[1..] == Join(b);
      if a != [] { JoinRoundTrip(a); }
      if b != [] { JoinRoundTrip(b); }
    }
  }

  /** An array position; signs pass through the integer parser. */
  function ParseArrayIndex(token: string, length: nat): Option<nat> {
    if token == [] || token == "-" || (|token| > 1 && token[0] == '0') then None
    else
      match D.ParseInteger(token)
      case None => None
      case Some(index) => if 0 <= index < length then Some(index) else None
  }

  lemma ArrayIndexRoundTrip(i: nat, length: nat)
    requires i < length
    ensures ParseArrayIndex(D.Natural(i), length) == Some(i)
  {
    D.IntegerRoundTrip(i);
    var text := D.Natural(i);
    assert D.IsDigit(text[0]);
  }

  /** The spellings of a position: plain decimal, or a plus sign and digits of
      that value with any leading zeros, or, for zero, a minus sign and zeros. */
  predicate Spells(token: string, i: nat) {
    || token == D.Natural(i)
    || (|token| > 1 && token[0] == '+' && D.Digits(token[1..]) && D.Val(token[1..]) == i)
    || (|token| > 1 && token[0] == '-' && i == 0 && token[1..] == D.Zeros(|token| - 1))
  }

  lemma {:induction false} OnlyZerosAreZero(s: string)
    requires D.Digits(s) && D.Val(s) == 0
    ensures s == D.Zeros(|s|)
  {
    if s != [] {
      var n := |s| - 1;
      assert D.DigitValue(s[n]) == 0;
      OnlyZerosAreZero(s[..n]);
      D.OneMoreZeroAfter(n, []);
      FromNothing(D.Zeros(n));
      FromNothing(D.Zeros(n + 1));
      assert s == s[..n] + ['0'];
    }
  }

  lemma PlainSpelling(token: string)
    requires token != [] && D.Digits(token) && !(|token| > 1 && token[0] == '0')
    ensures token == D.Natural(D.Val(token))
  {
    var n := D.Natural(D.Val(token));
    if token[0] == '0' {
      assert token == D.Zeros(1);
      D.ValZeros(1);
    } else {
      D.ValPositive(token);
      D.ValInjective(token, n);
    }
  }

  lemma NaturalParses(i: nat)
    ensures D.ParseInteger(D.Natural(i)) == Some(i)
    ensures D.IsDigit(D.Natural(i)[0]) && !(|D.Natural(i)| > 1 && D.Natural(i)[0] == '0')
  {
    D.ParsePlain(D.Natural(i));
    assert D.IsDigit(D.Natural(i)[0]);
  }

  lemma SignedParses(token: string)
    requires |token| > 1 && (token[0] == '+' || token[0] == '-')
    ensures D.ParseInteger(token) ==
      if !D.Digits(token[1..]) then None
      else Some(if token[0] == '-' then -(D.Val(token[1..]) as int) else D.Val(token[1..]))
  {
  }

  /** A token names an array position exactly when it spells it. */
  lemma IndexExactly(token: string, length: nat, i: nat)
    ensures ParseArrayIndex(token, length) == Some(i) <==> i < length && Spells(token, i)
  {
    NaturalParses(i);
    if token == [] || token == "-" || token == "+" {
      assert token != D.Natural(i);
    } else if token[0] == '+' || token[0] == '-' {
      SignedParses(token);
      if D.Digits(token[1..]) && D.Val(token[1..]) == 0 { OnlyZerosAreZero(token[1..]); }
      D.ValZeros(|token| - 1);
    } else if D.Digits(token) && !(|token| > 1 && token[0] == '0') {
      D.ParsePlain(token);
      PlainSpelling(token);
    }
  }

  /** Tokens that do not start with a sign name different positions unless they
      are equal. */
  lemma UnsignedIndexUnique(a: string, b: string, length: nat)
    requires ParseArrayIndex(a, length).Some? && ParseArrayIndex(a, length) == ParseArrayIndex(b, length)
    requires a[0] != '+' && a[0] != '-' && b[0] != '+' && b[0] != '-'
    ensures a == b
  {
    var i := ParseArrayIndex(a, length).value;
    IndexExactly(a, length, i);
    IndexExactly(b, length, i);
  }

  /** With a sign, one position has many spellings. */
  lemma SignedIndexAliases(i: nat, length: nat, zeros: nat)
    requires i < length
    ensures ParseArrayIndex("+" + (D.Zeros(zeros) + D.Natural(i)), length) == Some(i)
    ensures i == 0 ==> ParseArrayIndex("-" + D.Zeros(zeros + 1), length) == Some(i)
  {
    var digits := D.Zeros(zeros) + D.Natural(i);
    D.ValPadLeft(zeros, D.Natural(i));
    assert ("+" + digits)[1..] == digits && ("-" + D.Zeros(zeros + 1))[1..] == D.Zeros(zeros + 1);
    IndexExactly("+" + digits, length, i);
    if i == 0 { IndexExactly("-" + D.Zeros(zeros + 1), length, i); }
  }
}
