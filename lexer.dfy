/**
 * The scanner of tokenize.c: one left-to-right pass over the source text that
 * turns it into an EOF-terminated sequence of tokens, or stops at the first
 * character no rule accepts.
 *
 * The C code walks a `char*` until the terminating NUL; here the text is a
 * `CString` (a sequence of characters that holds no NUL) and the pointer is an
 * index into it, so `*pos != 0` reads `pos < |s|` and `pos[k]` past the end
 * reads the NUL terminator.  The character classes are those of the C locale
 * on ASCII.
 */
module Lexer {

  /** The text of a C string: it cannot hold the NUL that terminates it. */
  type CString = s: string | '\0' !in s

  /** Token types: TK_NUM, TK_IDENT, TK_IF, TK_RETURN, TK_EQ, TK_NE, TK_LE,
      TK_GE, a single-character token whose type is the character itself, and
      TK_EOF. */
  datatype TokenKind =
    | Num
    | Ident
    | If
    | Return
    | Eq
    | Ne
    | Le
    | Ge
    | Punct(c: char)
    | Eof

  /** A token: its type, the index where it starts (the C `input` pointer),
      the value of a number and the name of an identifier or keyword.  Fields a
      branch does not set are 0 and "". */
  datatype Token = Token(kind: TokenKind, at: nat, value: nat, name: string)

  /** The outcome of tokenizing: the tokens, or the index of the character
      that stopped the scanner ("Cannot tokenize", exit(1)). */
  datatype LexResult = Tokens(tokens: seq<Token>) | Failure(at: nat)

  // ---------------------------------------------------------------------
  // Character classes (ctype.h in the C locale, and is_alnum)
  // ---------------------------------------------------------------------

  /** isspace: blank, tab, newline, vertical tab, form feed, carriage return. */
  predicate IsSpace(c: char) { c == ' ' || ('\t' <= c <= '\r') }

  /** isdigit */
  predicate IsDigit(c: char) { '0' <= c <= '9' }

  /** isalpha */
  predicate IsAlpha(c: char) { ('a' <= c <= 'z') || ('A' <= c <= 'Z') }

  /** isalnum (no underscore) */
  predicate IsAlnum(c: char) { IsAlpha(c) || IsDigit(c) }

  /** is_alnum of tokenize.c:14-20: letters, digits and the underscore. */
  predicate IsIdentChar(c: char) { IsAlnum(c) || c == '_' }

  /** The characters that form a token on their own (tokenize.c:83-84). */
  predicate IsPunct(c: char)
  {
    c == '+' || c == '-' || c == '*' || c == '/' || c == '(' ||
    c == ')' || c == '<' || c == '>' || c == '=' || c == ';'
  }

  /** `!strncmp(s + i, w, |w|)`: the text at i starts with w. */
  predicate StartsWith(s: string, i: nat, w: string)
  {
    i + |w| <= |s| && forall k :: 0 <= k < |w| ==> s[i + k] == w[k]
  }

  // ---------------------------------------------------------------------
  // Runs of digits and of identifier characters
  // ---------------------------------------------------------------------

  /** The length of the maximal run of digits starting at i. */
  function DigitRun(s: string, i: nat): (n: nat)
    requires i <= |s|
    ensures i + n <= |s|
    ensures forall k :: i <= k < i + n ==> IsDigit(s[k])
    ensures i + n == |s| || !IsDigit(s[i + n])
    decreases |s| - i
  {
    if i < |s| && IsDigit(s[i]) then 1 + DigitRun(s, i + 1) else 0
  }

  /** The length of the maximal run of isalnum characters starting at i. */
  function AlnumRun(s: string, i: nat): (n: nat)
    requires i <= |s|
    ensures i + n <= |s|
    ensures forall k :: i <= k < i + n ==> IsAlnum(s[k])
    ensures i + n == |s| || !IsAlnum(s[i + n])
    decreases |s| - i
  {
    if i < |s| && IsAlnum(s[i]) then 1 + AlnumRun(s, i + 1) else 0
  }

  function DigitValue(c: char): nat
    requires IsDigit(c)
  {
    (c as int) - ('0' as int)
  }

  /** The decimal value of a run of digits, as strtol(_, _, 10) reads it. */
  function DecimalValue(d: string): nat
    requires forall k :: 0 <= k < |d| ==> IsDigit(d[k])
  {
    if d == [] then 0 else 10 * DecimalValue(d[..|d| - 1]) + DigitValue(d[|d| - 1])
  }

  // ---------------------------------------------------------------------
  // The keyword table and one step of the scanner
  // ---------------------------------------------------------------------

  /** The `keywords` map that tokenize fills before scanning (tokenize.c:24-26). */
  function Keywords(): map<string, TokenKind>
  {
    map["if" := If, "return" := Return]
  }

  /** The type of an identifier-shaped word: its keyword type when the map
      holds it, TK_IDENT when map_get returns NULL. */
  function WordKind(keywords: map<string, TokenKind>, name: string): TokenKind
  {
    if name in keywords then keywords[name] else Ident
  }

  /** What one turn of the scanner loop does at index i. */
  datatype Step = Skip(next: nat) | Emit(token: Token, next: nat) | Stuck

  /** One turn of the `while (*pos)` loop of scan (tokenize.c:35-93), the
      branches tried in the source's order. */
  function Scan1(s: string, i: nat): (r: Step)
    requires i < |s|
    ensures r.Skip? ==> r.next == i + 1
    ensures r.Emit? ==> i < r.next <= |s| && r.token.at == i && r.token.kind != Eof
  {
    if IsSpace(s[i]) then Skip(i + 1)
    else if IsDigit(s[i]) then
      var n := DigitRun(s, i);
      Emit(Token(Num, i, DecimalValue(s[i..i + n]), ""), i + n)
    else if StartsWith(s, i, "==") then Emit(Token(Eq, i, 0, ""), i + 2)
    else if StartsWith(s, i, "!=") then Emit(Token(Ne, i, 0, ""), i + 2)
    else if StartsWith(s, i, "<=") then Emit(Token(Le, i, 0, ""), i + 2)
    else if StartsWith(s, i, ">=") then Emit(Token(Ge, i, 0, ""), i + 2)
    else if StartsWith(s, i, "return") && (i + 6 == |s| || !IsIdentChar(s[i + 6])) then
      Emit(Token(Return, i, 0, ""), i + 6)
    else if IsAlpha(s[i]) then
      var n := AlnumRun(s, i);
      var name := s[i..i + n];
      Emit(Token(WordKind(Keywords(), name), i, 0, name), i + n)
    else if IsPunct(s[i]) then Emit(Token(Punct(s[i]), i, 0, ""), i + 1)
    else Stuck
  }

  /** Prepends tokens already produced to the outcome of the rest of the scan. */
  function Prepend(ts: seq<Token>, r: LexResult): LexResult
  {
    match r
    case Tokens(rest) => Tokens(ts + rest)
    case Failure(p) => Failure(p)
  }

  /** The whole scan from index i: the specification the loop of scan meets. */
  function LexFrom(s: string, i: nat): LexResult
    requires i <= |s|
    decreases |s| - i
  {
    if i == |s| then Tokens([Token(Eof, |s|, 0, "")])
    else
      match Scan1(s, i)
      case Skip(j) => LexFrom(s, j)
      case Emit(t, j) => Prepend([t], LexFrom(s, j))
      case Stuck => Failure(i)
  }

  /** tokenize(s): the scan with the keyword table. */
  function Lex(s: CString): LexResult
  {
    LexFrom(s, 0)
  }

  // ---------------------------------------------------------------------
  // The imperative scanner
  // ---------------------------------------------------------------------

  /** The `Vector` of tokens that scan fills with vec_push. */
  class TokenVector {
    var items: seq<Token>

    constructor ()
      ensures items == []
    {
      items := [];
    }

    /** add_token (tokenize.c:5-12): appends one token.  The C code fills the
        value and name of the token after appending it; here the token is
        built whole. */
    method AddToken(kind: TokenKind, at: nat, value: nat, name: string)
      modifies this
      ensures items == old(items) + [Token(kind, at, value, name)]
    {
      items := items + [Token(kind, at, value, name)];
    }
  }

  /** Prepending in two steps is prepending the concatenation. */
  lemma PrependAssoc(a: seq<Token>, b: seq<Token>, r: LexResult)
    ensures Prepend(a, Prepend(b, r)) == Prepend(a + b, r)
  {
    if r.Tokens? {
      assert a + (b + r.tokens) == (a + b) + r.tokens;
    }
  }

  /** An emitting turn of the loop keeps the scan's specification. */
  lemma Advance(s: string, pos: nat, before: seq<Token>, after: seq<Token>)
    requires pos < |s|
    requires LexFrom(s, 0) == Prepend(before, LexFrom(s, pos))
    requires Scan1(s, pos).Emit? && after == before + [Scan1(s, pos).token]
    ensures LexFrom(s, 0) == Prepend(after, LexFrom(s, Scan1(s, pos).next))
  {
    PrependAssoc(before, [Scan1(s, pos).token], LexFrom(s, Scan1(s, pos).next));
  }

  /** One turn of the `while (*pos)` loop of scan (tokenize.c:35-93): the
      branches in the source's order, each deciding the token it appends
      with add_token and where the cursor goes next.  Stuck is the
      "Cannot tokenize" exit. */
  method ScanStep(s: CString, pos: nat, keywords: map<string, TokenKind>) returns (st: Step)
    requires pos < |s| && keywords == Keywords()
    ensures st == Scan1(s, pos)
  {
    var c := s[pos];
    if IsSpace(c) {
      st := Skip(pos + 1);
      assert st == Scan1(s, pos);
    } else if IsDigit(c) {
      var n := DigitRun(s, pos);
      st := Emit(Token(Num, pos, DecimalValue(s[pos..pos + n]), ""), pos + n);
      assert st == Scan1(s, pos);
    } else if StartsWith(s, pos, "==") {
      st := Emit(Token(Eq, pos, 0, ""), pos + 2);
      assert st == Scan1(s, pos);
    } else if StartsWith(s, pos, "!=") {
      st := Emit(Token(Ne, pos, 0, ""), pos + 2);
      assert st == Scan1(s, pos);
    } else if StartsWith(s, pos, "<=") {
      st := Emit(Token(Le, pos, 0, ""), pos + 2);
      assert st == Scan1(s, pos);
    } else if StartsWith(s, pos, ">=") {
      st := Emit(Token(Ge, pos, 0, ""), pos + 2);
      assert st == Scan1(s, pos);
    } else if StartsWith(s, pos, "return") && (pos + 6 == |s| || !IsIdentChar(s[pos + 6])) {
      st := Emit(Token(Return, pos, 0, ""), pos + 6);
      assert st == Scan1(s, pos);
    } else if IsAlpha(c) {
      var length := WordLength(s, pos);
      var name := s[pos..pos + length];
      st := Emit(Token(WordKind(keywords, name), pos, 0, name), pos + length);
      assert st == Scan1(s, pos);
    } else if IsPunct(c) {
      st := Emit(Token(Punct(c), pos, 0, ""), pos + 1);
      assert st == Scan1(s, pos);
    } else {
      st := Stuck;
      assert st == Scan1(s, pos);
    }
  }

  /** The identifier loop of scan (tokenize.c:70-74): the length of the
      isalnum run starting at a letter. */
  method WordLength(s: string, pos: nat) returns (length: nat)
    requires pos < |s| && IsAlpha(s[pos])
    ensures length == AlnumRun(s, pos)
  {
    length := 1;
    while pos + length < |s| && IsAlnum(s[pos + length])
      invariant 1 <= length && pos + length <= |s|
      invariant forall k :: pos <= k < pos + length ==> IsAlnum(s[k])
      decreases |s| - length
    {
      length := length + 1;
    }
    AlnumRunIs(s, pos, length);
  }

  /** scan (tokenize.c:30-97): the loop, then the TK_EOF token at the
      terminator. */
  method Scan(s: CString, keywords: map<string, TokenKind>) returns (r: LexResult)
    requires keywords == Keywords()
    ensures r == LexFrom(s, 0)
  {
    var v := new TokenVector();
    var pos := 0;
    while pos < |s|
      invariant pos <= |s|
      invariant LexFrom(s, 0) == Prepend(v.items, LexFrom(s, pos))
      decreases |s| - pos
    {
      var st := ScanStep(s, pos, keywords);
      match st
      case Stuck =>
        return Failure(pos);
      case Skip(next) =>
        pos := next;
      case Emit(t, next) =>
        ghost var before := v.items;
        v.AddToken(t.kind, t.at, t.value, t.name);
        Advance(s, pos, before, v.items);
        pos := next;
    }
    v.AddToken(Eof, pos, 0, "");
    r := Tokens(v.items);
  }

  /** A maximal isalnum run is the one AlnumRun measures. */
  lemma {:induction false} AlnumRunIs(s: string, i: nat, n: nat)
    requires i + n <= |s|
    requires forall k :: i <= k < i + n ==> IsAlnum(s[k])
    requires i + n == |s| || !IsAlnum(s[i + n])
    ensures AlnumRun(s, i) == n
    decreases n
  {
    if n > 0 {
      AlnumRunIs(s, i + 1, n - 1);
    }
  }

  /** tokenize (tokenize.c:22-28): fills the keyword table, then scans. */
  method Tokenize(s: CString) returns (r: LexResult)
    ensures r == Lex(s)
  {
    var keywords := map[];
    keywords := keywords["if" := If];
    keywords := keywords["return" := Return];
    r := Scan(s, keywords);
  }
}

/** Properties of the scanner: the shape of its output, the priority of its
    branches and when it fails. */
module LexerProps {
  import opened Lexer

  /** A character some branch of the scanner accepts on its own. */
  predicate Accepted(c: char)
  {
    IsSpace(c) || IsDigit(c) || IsAlpha(c) || IsPunct(c)
  }

  /** The tokens of a successful scan from index i: every one but the last is
      what one turn of the loop emits at its own start, the next one starts no
      earlier than where that turn stopped (so starts strictly increase), and
      the last is the single TK_EOF, at the terminator.  A failed scan stops
      at a character where no branch applies. */
  predicate WellFormedFrom(s: string, i: nat, ts: seq<Token>)
  {
    && |ts| >= 1
    && ts[|ts| - 1] == Token(Eof, |s|, 0, "")
    && (forall k :: 0 <= k < |ts| - 1 ==>
          && i <= ts[k].at < |s|
          && ts[k].kind != Eof
          && Scan1(s, ts[k].at).Emit?
          && Scan1(s, ts[k].at).token == ts[k]
          && Scan1(s, ts[k].at).next <= ts[k + 1].at)
  }

  /** Prepending what one turn emits at i keeps the shape. */
  lemma ConsShape(s: string, i: nat, t: Token, j: nat, rest: seq<Token>)
    requires i < |s| && Scan1(s, i) == Emit(t, j)
    requires WellFormedFrom(s, j, rest)
    ensures WellFormedFrom(s, i, [t] + rest)
  {
    var ts := [t] + rest;
    assert j <= rest[0].at by {
      if |rest| == 1 {
        assert rest[0].at == |s|;
      }
    }
    forall k | 0 <= k < |ts| - 1
      ensures && i <= ts[k].at < |s|
              && ts[k].kind != Eof
              && Scan1(s, ts[k].at).Emit?
              && Scan1(s, ts[k].at).token == ts[k]
              && Scan1(s, ts[k].at).next <= ts[k + 1].at
    {
      if k > 0 {
        assert ts[k] == rest[k - 1] && ts[k + 1] == rest[k];
      }
    }
  }

  lemma {:induction false} LexShape(s: string, i: nat)
    requires i <= |s|
    ensures LexFrom(s, i).Tokens? ==> WellFormedFrom(s, i, LexFrom(s, i).tokens)
    ensures LexFrom(s, i).Failure? ==>
              i <= LexFrom(s, i).at < |s| && Scan1(s, LexFrom(s, i).at).Stuck?
    decreases |s| - i
  {
    if i < |s| {
      match Scan1(s, i)
      case Skip(j) =>
        LexShape(s, j);
        if LexFrom(s, j).Tokens? {
          var ts := LexFrom(s, j).tokens;
          assert WellFormedFrom(s, i, ts) by {
            forall k | 0 <= k < |ts| - 1 ensures i <= ts[k].at {}
          }
        }
      case Emit(t, j) =>
        LexShape(s, j);
        if LexFrom(s, j).Tokens? {
          ConsShape(s, i, t, j, LexFrom(s, j).tokens);
        }
      case Stuck =>
    }
  }

  /** The token sequence of a successful scan ends with exactly one TK_EOF,
      placed at the terminator, and token starts strictly increase. */
  lemma EndsWithOneEof(s: CString)
    requires Lex(s).Tokens?
    ensures var ts := Lex(s).tokens;
            && |ts| >= 1
            && ts[|ts| - 1] == Token(Eof, |s|, 0, "")
            && (forall k :: 0 <= k < |ts| - 1 ==> ts[k].kind != Eof && ts[k].at < |s|)
            && (forall k :: 0 <= k < |ts| - 1 ==> ts[k].at < ts[k + 1].at)
  {
    LexShape(s, 0);
  }

  /** The scanner is stuck exactly at a character no branch accepts: not
      blank, digit, letter or single-character token, and not the start of
      "!=". */
  lemma StuckExactly(s: string, i: nat)
    requires i < |s|
    ensures Scan1(s, i).Stuck? <==> !Accepted(s[i]) && !StartsWith(s, i, "!=")
  {
    FirstChar(s, i, "==");
    FirstChar(s, i, "<=");
    FirstChar(s, i, ">=");
    FirstChar(s, i, "return");
  }

  lemma FirstChar(s: string, i: nat, w: string)
    requires |w| > 0
    ensures StartsWith(s, i, w) ==> s[i] == w[0]
  {
    if StartsWith(s, i, w) {
      assert s[i + 0] == w[0];
    }
  }

  /** A scan fails, with no token sequence, exactly when it reaches a
      character no branch accepts: if the scan fails, the failing index holds
      such a character; if the text holds none, the scan succeeds. */
  lemma {:induction false} FailsOnlyOnRejected(s: string, i: nat)
    requires i <= |s|
    ensures LexFrom(s, i).Failure? ==>
              var p := LexFrom(s, i).at;
              i <= p < |s| && !Accepted(s[p]) && !StartsWith(s, p, "!=")
    ensures (forall k :: i <= k < |s| ==> Accepted(s[k])) ==> LexFrom(s, i).Tokens?
    decreases |s| - i
  {
    LexShape(s, i);
    if i < |s| {
      match Scan1(s, i)
      case Skip(j) => FailsOnlyOnRejected(s, j);
      case Emit(_, j) => FailsOnlyOnRejected(s, j);
      case Stuck =>
    }
  }

  /** The two-character operators are tried before the single-character
      branch: "==", "!=", "<=" and ">=" each give one token and skip two
      characters (tokenize.c:44-62). */
  lemma TwoCharOperators(s: string, i: nat)
    requires i < |s|
    ensures StartsWith(s, i, "==") ==> Scan1(s, i) == Emit(Token(Eq, i, 0, ""), i + 2)
    ensures StartsWith(s, i, "!=") ==> Scan1(s, i) == Emit(Token(Ne, i, 0, ""), i + 2)
    ensures StartsWith(s, i, "<=") ==> Scan1(s, i) == Emit(Token(Le, i, 0, ""), i + 2)
    ensures StartsWith(s, i, ">=") ==> Scan1(s, i) == Emit(Token(Ge, i, 0, ""), i + 2)
  {
    FirstChar(s, i, "==");
    FirstChar(s, i, "!=");
    FirstChar(s, i, "<=");
    FirstChar(s, i, ">=");
  }

  /** "==" is never split into two "=" tokens: a "=" token is never directly
      followed by another "=" token starting at the next character. */
  lemma NoSplitEquals(s: CString)
    requires Lex(s).Tokens?
    ensures var ts := Lex(s).tokens;
            forall k :: 0 <= k < |ts| - 1 && ts[k].kind == Punct('=') ==>
              !(ts[k + 1].kind == Punct('=') && ts[k + 1].at == ts[k].at + 1)
  {
    LexShape(s, 0);
    var ts := Lex(s).tokens;
    forall k | 0 <= k < |ts| - 1 && ts[k].kind == Punct('=')
      ensures !(ts[k + 1].kind == Punct('=') && ts[k + 1].at == ts[k].at + 1)
    {
      var i := ts[k].at;
      TwoCharOperators(s, i);
      if ts[k + 1].kind == Punct('=') && ts[k + 1].at == i + 1 {
        assert k + 1 < |ts| - 1;
        PunctStartsAt(s, i);
        PunctStartsAt(s, i + 1);
        assert StartsWith(s, i, "==");
      }
    }
  }

  /** A single-character token stands at its own character. */
  lemma PunctStartsAt(s: string, i: nat)
    requires i < |s| && Scan1(s, i).Emit? && Scan1(s, i).token.kind.Punct?
    ensures s[i] == Scan1(s, i).token.kind.c && Scan1(s, i).next == i + 1
  {
  }

  /** "return" is the keyword TK_RETURN, six characters long, when the next
      character is not a letter, digit or underscore; otherwise the
      identifier branch reads the maximal isalnum run and looks the word up
      in the keyword table (tokenize.c:64-81). */
  lemma ReturnKeyword(s: string, i: nat)
    requires i < |s| && StartsWith(s, i, "return")
    ensures (i + 6 == |s| || !IsIdentChar(s[i + 6])) ==>
              Scan1(s, i) == Emit(Token(Return, i, 0, ""), i + 6)
    ensures !(i + 6 == |s| || !IsIdentChar(s[i + 6])) ==>
              var n := AlnumRun(s, i);
              n >= 6 && Scan1(s, i) == Emit(Token(WordKind(Keywords(), s[i..i + n]), i, 0, s[i..i + n]), i + n)
  {
    FirstChar(s, i, "return");
    FirstChar(s, i, "==");
    FirstChar(s, i, "!=");
    FirstChar(s, i, "<=");
    FirstChar(s, i, ">=");
    if !(i + 6 == |s| || !IsIdentChar(s[i + 6])) {
      forall k | i <= k < i + 6 ensures IsAlnum(s[k]) {
        assert s[i + (k - i)] == "return"[k - i];
      }
      AlnumRunAtLeast(s, i, 6);
    }
  }

  lemma {:induction false} AlnumRunAtLeast(s: string, i: nat, n: nat)
    requires i + n <= |s|
    requires forall k :: i <= k < i + n ==> IsAlnum(s[k])
    ensures AlnumRun(s, i) >= n
    decreases n
  {
    if n > 0 {
      AlnumRunAtLeast(s, i + 1, n - 1);
    }
  }

  /** The keyword table maps "if" and "return" and nothing else. */
  lemma KeywordLookup(w: string)
    ensures WordKind(Keywords(), w) == if w == "if" then If else if w == "return" then Return else Ident
  {
  }

  /** An identifier is the maximal isalnum run starting at a letter; its name
      is stored, and its type is the keyword's when the table has the word,
      TK_IDENT otherwise (tokenize.c:69-81). */
  lemma IdentifierToken(s: string, i: nat)
    requires i < |s| && IsAlpha(s[i])
    requires !(StartsWith(s, i, "return") && (i + 6 == |s| || !IsIdentChar(s[i + 6])))
    ensures var n := AlnumRun(s, i);
            var name := s[i..i + n];
            && n >= 1
            && (forall k :: 0 <= k < n ==> IsAlnum(name[k]))
            && (i + n == |s| || !IsAlnum(s[i + n]))
            && Scan1(s, i) == Emit(Token(WordKind(Keywords(), name), i, 0, name), i + n)
  {
    FirstChar(s, i, "==");
    FirstChar(s, i, "!=");
    FirstChar(s, i, "<=");
    FirstChar(s, i, ">=");
  }

  /** A digit starts one TK_NUM token holding the decimal value of the
      maximal run of digits, which it skips (tokenize.c:39-43). */
  lemma NumberToken(s: string, i: nat)
    requires i < |s| && IsDigit(s[i])
    ensures var n := DigitRun(s, i);
            && n >= 1
            && (i + n == |s| || !IsDigit(s[i + n]))
            && Scan1(s, i) == Emit(Token(Num, i, DecimalValue(s[i..i + n]), ""), i + n)
  {
  }

  /** The decimal numeral of n, without leading zeros. */
  function Numeral(n: nat): (d: string)
    ensures |d| >= 1 && forall k :: 0 <= k < |d| ==> IsDigit(d[k])
  {
    var last := ('0' as int + n % 10) as char;
    if n < 10 then [last] else Numeral(n / 10) + [last]
  }

  /** A TK_NUM token's value is the number its digits spell: reading the
      numeral of n gives back n. */
  lemma {:induction false} NumeralValue(n: nat)
    ensures DecimalValue(Numeral(n)) == n
  {
    var d := Numeral(n);
    assert d[..|d| - 1] == if n < 10 then [] else Numeral(n / 10);
    if n >= 10 {
      NumeralValue(n / 10);
    }
  }

  /** "return_x": the keyword branch is refused because '_' follows, the
      identifier branch stops before '_' (isalnum has no underscore) and
      yields TK_RETURN named "return", and '_' then matches no branch. */
  lemma ReturnThenUnderscore()
    ensures Lex("return_x") == Failure(6)
  {
    var s: CString := "return_x";
    assert StartsWith(s, 0, "return");
    ReturnPrefixOfLongerWord(s, 0);
    assert Scan1(s, 6) == Stuck by {
      assert !Accepted(s[6]) && !StartsWith(s, 6, "!=");
      StuckExactly(s, 6);
    }
    assert LexFrom(s, 6) == Failure(6);
  }

  /** "return" followed by '_' is refused by the keyword branch, since
      is_alnum accepts '_', but the identifier branch reads only the isalnum
      run "return", which the keyword table maps to TK_RETURN. */
  lemma ReturnPrefixOfLongerWord(s: string, i: nat)
    requires i + 6 < |s| && StartsWith(s, i, "return") && s[i + 6] == '_'
    ensures Scan1(s, i) == Emit(Token(Return, i, 0, "return"), i + 6)
  {
    assert IsIdentChar(s[i + 6]);
    ReturnKeyword(s, i);
    assert s[i..i + 6] == "return";
    AlnumRunIs(s, i, 6);
  }
}
