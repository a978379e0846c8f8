/**
 * Properties of the expression parser: precedence, left associativity and
 * the operand swap of '>' and ">=", stated once and for all as a round trip
 * through a printer that writes a tree back out as tokens with the fewest
 * parentheses.
 */
module ParserProps {
  import opened Ast
  import opened Parser
  import Lexer

  /** The trees the printer can write: numbers must be non-negative, since
      the scanner only reads unsigned decimal numerals. */
  predicate Printable(e: Node)
  {
    match e
    case Num(v) => v >= 0
    case Binary(_, l, r) => Printable(l) && Printable(r)
    case _ => false
  }

  /** The grammar level of an operator: 0 equality, 1 relational, 2 additive,
      3 multiplicative. */
  function OpLevel(op: BinOp): (k: nat)
    ensures k < 4
  {
    match op
    case Eq => 0
    case Ne => 0
    case Le => 1
    case Lt => 1
    case Add => 2
    case Sub => 2
    case Mul => 3
    case Div => 3
  }

  /** The level a tree binds at: an operator's level, or 5 for a number. */
  function Prec(e: Node): nat
  {
    if e.Binary? then OpLevel(e.op) else 5
  }

  /** The token that stands for each operator. */
  function OpToken(op: BinOp): (t: Lexer.TokenKind)
    ensures OpAt(OpLevel(op), t) == Op(op, false)
  {
    match op
    case Eq => Lexer.Eq
    case Ne => Lexer.Ne
    case Le => Lexer.Le
    case Lt => Lexer.Punct('<')
    case Add => Lexer.Punct('+')
    case Sub => Lexer.Punct('-')
    case Mul => Lexer.Punct('*')
    case Div => Lexer.Punct('/')
  }

  /** An operator token ends the loops of the levels above its own. */
  lemma OpTokenStops(toks: seq<Token>, i: nat, op: BinOp)
    requires i < |toks| && toks[i].kind == OpToken(op)
    ensures Stops(toks, i, OpLevel(op) + 1)
  {
  }

  function Tok(kind: Lexer.TokenKind): Token
  {
    Lexer.Token(kind, 0, 0, "")
  }

  function NumTok(v: nat): Token
  {
    Lexer.Token(Lexer.Num, 0, v, "")
  }

  /** The tokens of e where the grammar expects level k: parenthesised when e
      binds more loosely than k; a binary node writes its left operand at its
      own level and its right operand one level up. */
  function PrintAt(e: Node, k: nat): seq<Token>
    requires Printable(e)
  {
    if Prec(e) < k then [Tok(Lexer.Punct('('))] + PrintAt(e, 0) + [Tok(Lexer.Punct(')'))]
    else
      match e
      case Num(v) => [NumTok(v)]
      case Binary(op, l, r) =>
        PrintAt(l, OpLevel(op)) + [Tok(OpToken(op))] + PrintAt(r, OpLevel(op) + 1)
  }

  function Print(e: Node): seq<Token>
    requires Printable(e)
  {
    PrintAt(e, 0)
  }

  /** The tokens w stand at position pos of toks. */
  predicate At(toks: seq<Token>, pos: nat, w: seq<Token>)
  {
    pos + |w| <= |toks| && forall i :: 0 <= i < |w| ==> toks[pos + i] == w[i]
  }

  /** The token at i ends every binary loop from level k up. */
  predicate Stops(toks: seq<Token>, i: nat, k: nat)
    requires i < |toks|
  {
    forall j :: k <= j < 4 ==> OpAt(j, toks[i].kind) == NoOp
  }

  lemma AtSplit(toks: seq<Token>, pos: nat, a: seq<Token>, b: seq<Token>)
    requires At(toks, pos, a + b)
    ensures At(toks, pos, a) && At(toks, pos + |a|, b)
  {
    forall i | 0 <= i < |b| ensures toks[pos + |a| + i] == b[i] {
      assert toks[pos + (|a| + i)] == (a + b)[|a| + i];
    }
    forall i | 0 <= i < |a| ensures toks[pos + i] == a[i] {
      assert toks[pos + i] == (a + b)[i];
    }
  }

  lemma AtEnds(toks: seq<Token>, pos: nat, w: seq<Token>)
    requires At(toks, pos, w) && |w| > 0
    ensures toks[pos] == w[0] && toks[pos + |w| - 1] == w[|w| - 1]
  {
    assert toks[pos + 0] == w[0];
    assert toks[pos + (|w| - 1)] == w[|w| - 1];
  }

  /** A tree parsed at level j is the parse at any lower level k when the
      next token ends the loops of levels k to j - 1. */
  lemma {:induction false} Up(toks: seq<Token>, pos: nat, j: nat, k: nat, e: Node, end: nat)
    requires Terminated(toks) && pos < |toks| && k <= j <= 4
    requires ParseLevel(toks, pos, j) == Parsed(e, end)
    requires end < |toks| && Stops(toks, end, k)
    ensures ParseLevel(toks, pos, k) == Parsed(e, end)
    decreases j - k
  {
    if k < j {
      Up(toks, pos, j, k + 1, e, end);
      assert OpAt(k, toks[end].kind) == NoOp;
    }
  }

  /** The printed tokens of e, followed by a token that ends the loops from
      level k up, parse back at level k to e. */
  lemma {:induction false} PrintParses(e: Node, k: nat, toks: seq<Token>, pos: nat)
    requires Printable(e) && k <= 4 && Terminated(toks)
    requires At(toks, pos, PrintAt(e, k)) && pos + |PrintAt(e, k)| < |toks|
    requires Stops(toks, pos + |PrintAt(e, k)|, k)
    ensures ParseLevel(toks, pos, k) == Parsed(e, pos + |PrintAt(e, k)|)
    decreases e, if Prec(e) < k then 6 else 4
  {
    if Prec(e) < k {
      ParensParse(e, k, toks, pos);
    } else if e.Num? {
      NumParse(e, k, toks, pos);
    } else {
      BinaryParse(e, k, toks, pos);
    }
  }

  /** A tree that binds more loosely than the level expects is a
      parenthesised term. */
  lemma {:induction false} ParensParse(e: Node, k: nat, toks: seq<Token>, pos: nat)
    requires Printable(e) && Prec(e) < k <= 4 && Terminated(toks)
    requires At(toks, pos, PrintAt(e, k)) && pos + |PrintAt(e, k)| < |toks|
    requires Stops(toks, pos + |PrintAt(e, k)|, k)
    ensures ParseLevel(toks, pos, k) == Parsed(e, pos + |PrintAt(e, k)|)
    decreases e, 5
  {
    var end := pos + |PrintAt(e, k)|;
    var open, close := [Tok(Lexer.Punct('('))], [Tok(Lexer.Punct(')'))];
    var inner := PrintAt(e, 0);
    assert PrintAt(e, k) == open + inner + close;
    AtSplit(toks, pos, open + inner, close);
    AtSplit(toks, pos, open, inner);
    AtEnds(toks, pos, PrintAt(e, k));
    PrintParses(e, 0, toks, pos + 1);
    assert ParseTerm(toks, pos) == Parsed(e, end);
    assert ParseLevel(toks, pos, 4) == Parsed(e, end);
    Up(toks, pos, 4, k, e, end);
  }

  /** A number is a term. */
  lemma NumParse(e: Node, k: nat, toks: seq<Token>, pos: nat)
    requires Printable(e) && e.Num? && k <= 4 && Terminated(toks)
    requires At(toks, pos, PrintAt(e, k)) && pos + |PrintAt(e, k)| < |toks|
    requires Stops(toks, pos + |PrintAt(e, k)|, k)
    ensures ParseLevel(toks, pos, k) == Parsed(e, pos + |PrintAt(e, k)|)
  {
    AtEnds(toks, pos, PrintAt(e, k));
    assert ParseTerm(toks, pos) == Parsed(e, pos + 1);
    assert ParseLevel(toks, pos, 4) == Parsed(e, pos + 1);
    Up(toks, pos, 4, k, e, pos + 1);
  }

  /** A binary node at or above the expected level is parsed by its own
      level's loop, then passes through the loops below. */
  lemma {:induction false} BinaryParse(e: Node, k: nat, toks: seq<Token>, pos: nat)
    requires Printable(e) && e.Binary? && k <= OpLevel(e.op) && Terminated(toks)
    requires At(toks, pos, PrintAt(e, k)) && pos + |PrintAt(e, k)| < |toks|
    requires Stops(toks, pos + |PrintAt(e, k)|, k)
    ensures ParseLevel(toks, pos, k) == Parsed(e, pos + |PrintAt(e, k)|)
    decreases e, 3
  {
    var p := OpLevel(e.op);
    var end := pos + |PrintAt(e, k)|;
    assert PrintAt(e, k) == PrintAt(e, p);
    LeftSpine(e, p, toks, pos, end);
    assert OpAt(p, toks[end].kind) == NoOp;
    Up(toks, pos, p, k, e, end);
  }

  /** The tokens of a binary node at its own level p: the left operand, the
      operator token at mid, the right operand. */
  lemma BinaryTokens(e: Node, p: nat, toks: seq<Token>, pos: nat, mid: nat)
    requires Printable(e) && e.Binary? && p == OpLevel(e.op)
    requires At(toks, pos, PrintAt(e, p)) && mid == pos + |PrintAt(e.lhs, p)|
    ensures pos + |PrintAt(e, p)| == mid + 1 + |PrintAt(e.rhs, p + 1)|
    ensures At(toks, pos, PrintAt(e.lhs, p))
    ensures mid < |toks| && toks[mid] == Tok(OpToken(e.op))
    ensures At(toks, mid + 1, PrintAt(e.rhs, p + 1))
  {
    var left := PrintAt(e.lhs, p);
    var op := [Tok(OpToken(e.op))];
    assert PrintAt(e, p) == left + op + PrintAt(e.rhs, p + 1);
    AtSplit(toks, pos, left + op, PrintAt(e.rhs, p + 1));
    AtSplit(toks, pos, left, op);
    AtEnds(toks, pos + |left|, op);
  }

  /** One turn of a binary level's loop: the operator at mid and the operand
      after it rebind the tree. */
  lemma TailTurn(toks: seq<Token>, mid: nat, p: nat, l: Node, op: BinOp, r: Node, end: nat)
    requires Terminated(toks) && mid + 1 < |toks| && p < 4
    requires OpAt(p, toks[mid].kind) == Op(op, false)
    requires ParseLevel(toks, mid + 1, p + 1) == Parsed(r, end)
    ensures ParseTail(toks, mid, p, l) == ParseTail(toks, end, p, Binary(op, l, r))
  {
  }

  /** One turn of the relational loop on ">=" or '>': the operand after the
      operator becomes the left operand. */
  lemma SwappedTurn(toks: seq<Token>, mid: nat, l: Node, op: BinOp, r: Node, end: nat)
    requires Terminated(toks) && mid + 1 < |toks|
    requires OpAt(1, toks[mid].kind) == Op(op, true)
    requires ParseLevel(toks, mid + 1, 2) == Parsed(r, end)
    ensures ParseTail(toks, mid, 1, l) == ParseTail(toks, end, 1, Binary(op, r, l))
  {
  }

  /** A chain of operators of one level parses left to right: the level's
      loop rebinds the tree once per operator, building it from the left. */
  lemma {:induction false} LeftSpine(e: Node, p: nat, toks: seq<Token>, pos: nat, end: nat)
    requires Printable(e) && e.Binary? && p == OpLevel(e.op) && Terminated(toks)
    requires At(toks, pos, PrintAt(e, p)) && end == pos + |PrintAt(e, p)|
    requires end < |toks| && Stops(toks, end, p + 1)
    ensures ParseLevel(toks, pos, p) == ParseTail(toks, end, p, e)
    decreases e, 2
  {
    var mid := pos + |PrintAt(e.lhs, p)|;
    BinaryTokens(e, p, toks, pos, mid);
    OpTokenStops(toks, mid, e.op);
    LeftOperand(e, p, toks, pos, mid);
    PrintParses(e.rhs, p + 1, toks, mid + 1);
    TailTurn(toks, mid, p, e.lhs, e.op, e.rhs, end);
  }

  /** The left operand of a binary node, followed by the node's operator,
      leaves the node's level loop at that operator with the operand built. */
  lemma {:induction false} LeftOperand(e: Node, p: nat, toks: seq<Token>, pos: nat, mid: nat)
    requires Printable(e) && e.Binary? && p == OpLevel(e.op) && Terminated(toks)
    requires At(toks, pos, PrintAt(e.lhs, p)) && mid == pos + |PrintAt(e.lhs, p)|
    requires mid < |toks| && Stops(toks, mid, p + 1)
    ensures ParseLevel(toks, pos, p) == ParseTail(toks, mid, p, e.lhs)
    decreases e, 1
  {
    if Prec(e.lhs) == p {
      LeftSpine(e.lhs, p, toks, pos, mid);
    } else {
      assert PrintAt(e.lhs, p) == PrintAt(e.lhs, p + 1);
      PrintParses(e.lhs, p + 1, toks, pos);
      LevelStep(toks, pos, p, e.lhs, mid);
    }
  }

  /** A level below 4 is its loop started on what the level above parses. */
  lemma LevelStep(toks: seq<Token>, pos: nat, k: nat, n: Node, mid: nat)
    requires Terminated(toks) && pos < |toks| && k < 4
    requires ParseLevel(toks, pos, k + 1) == Parsed(n, mid)
    ensures ParseLevel(toks, pos, k) == ParseTail(toks, mid, k, n)
  {
  }

  /** The round trip: parse reads the printed tokens of any printable tree,
      followed by TK_EOF, back to that tree and stops at TK_EOF. */
  lemma ParsePrint(e: Node)
    requires Printable(e)
    ensures var toks := Print(e) + [Tok(Lexer.Eof)];
            Terminated(toks) && ParseTokens(toks) == Parsed(e, |Print(e)|)
  {
    var toks := Print(e) + [Tok(Lexer.Eof)];
    assert At(toks, 0, Print(e));
    PrintParses(e, 0, toks, 0);
  }

  /** A number token followed by a token that ends the loops from level k
      up parses at level k as that number. */
  lemma NumberParses(toks: seq<Token>, i: nat, k: nat)
    requires Terminated(toks) && i + 1 < |toks| && k <= 4
    requires toks[i].kind == Lexer.Num && Stops(toks, i + 1, k)
    ensures ParseLevel(toks, i, k) == Parsed(Num(toks[i].value), i + 1)
  {
    assert ParseTerm(toks, i) == Parsed(Num(toks[i].value), i + 1);
    assert ParseLevel(toks, i, 4) == Parsed(Num(toks[i].value), i + 1);
    Up(toks, i, 4, k, Num(toks[i].value), i + 1);
  }

  /** '*' binds tighter than '+': "a+b*c" is a + (b * c). */
  lemma MulBindsTighter(a: nat, b: nat, c: nat)
    ensures var toks := [NumTok(a), Tok(Lexer.Punct('+')), NumTok(b), Tok(Lexer.Punct('*')), NumTok(c), Tok(Lexer.Eof)];
            ParseTokens(toks) == Parsed(Binary(Add, Num(a), Binary(Mul, Num(b), Num(c))), 5)
  {
    var e := Binary(Add, Num(a), Binary(Mul, Num(b), Num(c)));
    assert Printable(Num(a)) && Printable(Num(b)) && Printable(Num(c));
    assert PrintAt(Num(a), 2) == [NumTok(a)];
    assert PrintAt(Num(b), 3) == [NumTok(b)] && PrintAt(Num(c), 4) == [NumTok(c)];
    assert PrintAt(Binary(Mul, Num(b), Num(c)), 3) == [NumTok(b), Tok(Lexer.Punct('*')), NumTok(c)];
    assert Print(e) + [Tok(Lexer.Eof)]
        == [NumTok(a), Tok(Lexer.Punct('+')), NumTok(b), Tok(Lexer.Punct('*')), NumTok(c), Tok(Lexer.Eof)];
    ParsePrint(e);
  }

  /** '-' associates to the left: "a-b-c" is (a - b) - c. */
  lemma SubAssociatesLeft(a: nat, b: nat, c: nat)
    ensures var toks := [NumTok(a), Tok(Lexer.Punct('-')), NumTok(b), Tok(Lexer.Punct('-')), NumTok(c), Tok(Lexer.Eof)];
            ParseTokens(toks) == Parsed(Binary(Sub, Binary(Sub, Num(a), Num(b)), Num(c)), 5)
  {
    var e := Binary(Sub, Binary(Sub, Num(a), Num(b)), Num(c));
    assert Printable(Num(a)) && Printable(Num(b)) && Printable(Num(c));
    assert PrintAt(Num(a), 2) == [NumTok(a)] && PrintAt(Num(b), 3) == [NumTok(b)];
    assert PrintAt(Num(c), 3) == [NumTok(c)];
    assert PrintAt(Binary(Sub, Num(a), Num(b)), 2) == [NumTok(a), Tok(Lexer.Punct('-')), NumTok(b)];
    assert Print(e) + [Tok(Lexer.Eof)]
        == [NumTok(a), Tok(Lexer.Punct('-')), NumTok(b), Tok(Lexer.Punct('-')), NumTok(c), Tok(Lexer.Eof)];
    ParsePrint(e);
  }

  /** "a >= b" builds ND_LE with the operands swapped, b <= a, and "a > b"
      builds '<' as b < a (parse.c:78-85). */
  lemma GreaterSwapsOperands(a: nat, b: nat)
    ensures ParseTokens([NumTok(a), Tok(Lexer.Ge), NumTok(b), Tok(Lexer.Eof)])
              == Parsed(Binary(Le, Num(b), Num(a)), 3)
    ensures ParseTokens([NumTok(a), Tok(Lexer.Punct('>')), NumTok(b), Tok(Lexer.Eof)])
              == Parsed(Binary(Lt, Num(b), Num(a)), 3)
  {
    SwappedComparison(a, b, Lexer.Ge, Le);
    SwappedComparison(a, b, Lexer.Punct('>'), Lt);
  }

  lemma SwappedComparison(a: nat, b: nat, t: Lexer.TokenKind, op: BinOp)
    requires OpAt(1, t) == Op(op, true)
    ensures ParseTokens([NumTok(a), Tok(t), NumTok(b), Tok(Lexer.Eof)])
              == Parsed(Binary(op, Num(b), Num(a)), 3)
  {
    var toks := [NumTok(a), Tok(t), NumTok(b), Tok(Lexer.Eof)];
    NumberParses(toks, 0, 2);
    NumberParses(toks, 2, 2);
    LevelStep(toks, 0, 1, Num(a), 1);
    assert ParseTail(toks, 1, 1, Num(a)) == ParseTail(toks, 3, 1, Binary(op, Num(b), Num(a)));
    LevelStep(toks, 0, 0, Binary(op, Num(b), Num(a)), 3);
  }

  /** ">=" and '>' between any two printable operands at the additive
      level build "<=" and '<' with the operands swapped (parse.c:78-85). */
  lemma SwapsTrees(a: Node, b: Node, t: Lexer.TokenKind, op: BinOp)
    requires Printable(a) && Printable(b) && OpAt(1, t) == Op(op, true)
    ensures var toks := PrintAt(a, 2) + [Tok(t)] + PrintAt(b, 2) + [Tok(Lexer.Eof)];
            Terminated(toks) && ParseTokens(toks) == Parsed(Binary(op, b, a), |toks| - 1)
  {
    var pa := PrintAt(a, 2);
    var pb := PrintAt(b, 2);
    var toks := pa + [Tok(t)] + pb + [Tok(Lexer.Eof)];
    var end := |pa| + 1 + |pb|;
    SwapLayout(pa, t, pb);
    SwapOperands(a, b, op, toks, |pa|);
    LevelStep(toks, 0, 0, Binary(op, b, a), end);
  }

  /** The relational level of `SwapsTrees`: a, the swapping operator at
      mid, and b, followed by a token that ends the loops from level 1 up. */
  lemma SwapOperands(a: Node, b: Node, op: BinOp, toks: seq<Token>, mid: nat)
    requires Printable(a) && Printable(b) && Terminated(toks)
    requires At(toks, 0, PrintAt(a, 2)) && mid == |PrintAt(a, 2)| && mid + 1 < |toks|
    requires OpAt(1, toks[mid].kind) == Op(op, true)
    requires At(toks, mid + 1, PrintAt(b, 2)) && mid + 1 + |PrintAt(b, 2)| < |toks|
    requires Stops(toks, mid + 1 + |PrintAt(b, 2)|, 1)
    ensures ParseLevel(toks, 0, 1) == Parsed(Binary(op, b, a), mid + 1 + |PrintAt(b, 2)|)
  {
    SwapLeft(a, op, toks, mid);
    SwapRight(a, b, op, toks, mid);
  }

  /** The left operand of `SwapOperands` and the start of the loop. */
  lemma SwapLeft(a: Node, op: BinOp, toks: seq<Token>, mid: nat)
    requires Printable(a) && Terminated(toks)
    requires At(toks, 0, PrintAt(a, 2)) && mid == |PrintAt(a, 2)| && mid < |toks|
    requires OpAt(1, toks[mid].kind) == Op(op, true)
    ensures ParseLevel(toks, 0, 1) == ParseTail(toks, mid, 1, a)
  {
    assert toks[mid].kind == Lexer.Ge || toks[mid].kind == Lexer.Punct('>');
    PrintParses(a, 2, toks, 0);
    LevelStep(toks, 0, 1, a, mid);
  }

  /** The swapping operator and the right operand of `SwapOperands`. */
  lemma SwapRight(a: Node, b: Node, op: BinOp, toks: seq<Token>, mid: nat)
    requires Printable(b) && Terminated(toks) && mid + 1 < |toks|
    requires OpAt(1, toks[mid].kind) == Op(op, true)
    requires At(toks, mid + 1, PrintAt(b, 2)) && mid + 1 + |PrintAt(b, 2)| < |toks|
    requires Stops(toks, mid + 1 + |PrintAt(b, 2)|, 1)
    ensures ParseTail(toks, mid, 1, a) == Parsed(Binary(op, b, a), mid + 1 + |PrintAt(b, 2)|)
  {
    var end := mid + 1 + |PrintAt(b, 2)|;
    PrintParses(b, 2, toks, mid + 1);
    SwappedTurn(toks, mid, a, op, b, end);
    TailStops(toks, end, 1, Binary(op, b, a));
  }

  /** A binary level's loop ends at once on a token that is none of its
      operators. */
  lemma TailStops(toks: seq<Token>, i: nat, k: nat, acc: Node)
    requires Terminated(toks) && i < |toks| && k < 4 && Stops(toks, i, k)
    ensures ParseTail(toks, i, k, acc) == Parsed(acc, i)
  {
    assert OpAt(k, toks[i].kind) == NoOp;
  }

  /** Where the pieces of `SwapsTrees`'s tokens stand. */
  lemma SwapLayout(pa: seq<Token>, t: Lexer.TokenKind, pb: seq<Token>)
    ensures var toks := pa + [Tok(t)] + pb + [Tok(Lexer.Eof)];
            && |toks| == |pa| + |pb| + 2 && Terminated(toks)
            && At(toks, 0, pa) && toks[|pa|] == Tok(t)
            && At(toks, |pa| + 1, pb) && toks[|pa| + 1 + |pb|] == Tok(Lexer.Eof)
  {
  }

  /** Unary minus is 0 - x and unary plus is x itself (parse.c:121-128). */
  lemma UnarySigns(a: nat)
    ensures ParseTokens([Tok(Lexer.Punct('-')), NumTok(a), Tok(Lexer.Eof)])
              == Parsed(Binary(Sub, Num(0), Num(a)), 2)
    ensures ParseTokens([Tok(Lexer.Punct('+')), NumTok(a), Tok(Lexer.Eof)])
              == Parsed(Num(a), 2)
  {
    var minus := [Tok(Lexer.Punct('-')), NumTok(a), Tok(Lexer.Eof)];
    assert ParseTerm(minus, 1) == Parsed(Num(a), 2);
    assert ParseLevel(minus, 0, 4) == Parsed(Binary(Sub, Num(0), Num(a)), 2);
    Up(minus, 0, 4, 0, Binary(Sub, Num(0), Num(a)), 2);
    var plus := [Tok(Lexer.Punct('+')), NumTok(a), Tok(Lexer.Eof)];
    assert ParseTerm(plus, 1) == Parsed(Num(a), 2);
    assert ParseLevel(plus, 0, 4) == Parsed(Num(a), 2);
    Up(plus, 0, 4, 0, Num(a), 2);
  }

  /** A missing ')' is reported but not an error: "(a" parses as a, and the
      cursor stays on the token that should have been ')' (parse.c:136-138). */
  lemma MissingCloseParen(a: nat)
    ensures ParseTokens([Tok(Lexer.Punct('(')), NumTok(a), Tok(Lexer.Eof)]) == Parsed(Num(a), 2)
  {
    var toks := [Tok(Lexer.Punct('(')), NumTok(a), Tok(Lexer.Eof)];
    NumberParses(toks, 1, 0);
    assert ParseTerm(toks, 0) == Parsed(Num(a), 2);
    assert ParseLevel(toks, 0, 4) == Parsed(Num(a), 2);
    Up(toks, 0, 4, 0, Num(a), 2);
  }

  /** A term that is neither a number nor '(' stops the parse at that token
      (parse.c:145-149); in particular identifiers are not terms here. */
  lemma NotATerm(toks: seq<Token>, i: nat)
    requires Terminated(toks) && i < |toks|
    requires toks[i].kind !in {Lexer.Num, Lexer.Punct('('), Lexer.Punct('+'), Lexer.Punct('-')}
    ensures forall k :: 0 <= k <= 4 ==> ParseLevel(toks, i, k) == Error(i)
  {
    assert ParseTerm(toks, i) == Error(i);
    assert ParseLevel(toks, i, 4) == Error(i);
    assert ParseLevel(toks, i, 3) == Error(i);
    assert ParseLevel(toks, i, 2) == Error(i);
    assert ParseLevel(toks, i, 1) == Error(i);
  }
}
