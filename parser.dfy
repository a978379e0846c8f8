/**
 * The recursive-descent expression parser of parse.c.
 *
 * The specification functions read the grammar level by level:
 *   level 0  equality   := relational (("==" | "!=") relational)*
 *   level 1  relational := add (("<" | "<=" | ">" | ">=") add)*
 *   level 2  add        := mul (("+" | "-") mul)*
 *   level 3  mul        := unary (("*" | "/") unary)*
 *   level 4  unary      := ("+" | "-")? term
 *            term       := "(" expr ")" | number
 * and the class Parser holds the global cursor `pos` over the global token
 * vector, with one method per C function, each proved to do what the
 * specification functions say.
 */
module Parser {
  import opened Ast
  import Lexer

  type Token = Lexer.Token

  /** A token vector as the scanner delivers it: it ends with TK_EOF. */
  predicate Terminated(toks: seq<Token>)
  {
    |toks| > 0 && toks[|toks| - 1].kind == Lexer.Eof
  }

  /** The outcome of parsing from a cursor position: a tree and the position
      after it, or the position of a token that is neither a number nor an
      open parenthesis where a term is expected.  In C that case prints a
      message and falls off the end of term() without a return value; the
      model stops there. */
  datatype PResult = Parsed(node: Node, next: nat) | Error(at: nat)

  /** What a binary level does with the token at the cursor: nothing, or
      consume it and build `op`, with the operands swapped for '>' and ">=". */
  datatype LevelOp = NoOp | Op(op: BinOp, swapped: bool)

  /** The operators the loop of each binary level consumes. */
  function OpAt(k: nat, t: Lexer.TokenKind): (r: LevelOp)
    ensures r.Op? ==> t != Lexer.Eof
  {
    if k == 0 then
      if t == Lexer.Eq then Op(Eq, false)
      else if t == Lexer.Ne then Op(Ne, false)
      else NoOp
    else if k == 1 then
      if t == Lexer.Le then Op(Le, false)
      else if t == Lexer.Punct('<') then Op(Lt, false)
      else if t == Lexer.Ge then Op(Le, true)
      else if t == Lexer.Punct('>') then Op(Lt, true)
      else NoOp
    else if k == 2 then
      if t == Lexer.Punct('+') then Op(Add, false)
      else if t == Lexer.Punct('-') then Op(Sub, false)
      else NoOp
    else if k == 3 then
      if t == Lexer.Punct('*') then Op(Mul, false)
      else if t == Lexer.Punct('/') then Op(Div, false)
      else NoOp
    else NoOp
  }

  /** The node a binary level builds from the tree so far and the next
      operand. */
  function Combine(o: LevelOp, acc: Node, rhs: Node): Node
    requires o.Op?
  {
    if o.swapped then Binary(o.op, rhs, acc) else Binary(o.op, acc, rhs)
  }

  /** Parsing at level k (0..4) from pos.  A successful parse consumes at
      least one token and never passes the TK_EOF token; a failed one
      points at a token that is neither a number nor '('. */
  function ParseLevel(toks: seq<Token>, pos: nat, k: nat): (r: PResult)
    requires Terminated(toks) && pos < |toks| && k <= 4
    ensures r.Parsed? ==> pos < r.next < |toks| && Arith(r.node)
    ensures r.Error? ==> pos <= r.at < |toks|
    ensures r.Error? ==> toks[r.at].kind != Lexer.Num && toks[r.at].kind != Lexer.Punct('(')
    decreases |toks| - pos, 2 * (4 - k) + 2
  {
    if k == 4 then ParseUnary(toks, pos)
    else
      match ParseLevel(toks, pos, k + 1)
      case Parsed(n, p) => ParseTail(toks, p, k, n)
      case Error(at) => Error(at)
  }

  /** The `for(;;)` loop of binary level k, with `acc` the node built so far:
      while the token at the cursor is one of the level's operators, consume
      it, parse the next operand one level up and rebind the node. */
  function ParseTail(toks: seq<Token>, pos: nat, k: nat, acc: Node): (r: PResult)
    requires Terminated(toks) && pos < |toks| && k < 4
    ensures r.Parsed? ==> pos <= r.next < |toks| && (Arith(acc) ==> Arith(r.node))
    ensures r.Error? ==> pos <= r.at < |toks|
    ensures r.Error? ==> toks[r.at].kind != Lexer.Num && toks[r.at].kind != Lexer.Punct('(')
    decreases |toks| - pos, 2 * (4 - k) + 1
  {
    var o := OpAt(k, toks[pos].kind);
    if o.NoOp? then Parsed(acc, pos)
    else
      match ParseLevel(toks, pos + 1, k + 1)
      case Parsed(rhs, p) => ParseTail(toks, p, k, Combine(o, acc, rhs))
      case Error(at) => Error(at)
  }

  /** unary (parse.c:121-128): "+x" is x, "-x" is 0 - x; the operand is a
      term. */
  function ParseUnary(toks: seq<Token>, pos: nat): (r: PResult)
    requires Terminated(toks) && pos < |toks|
    ensures r.Parsed? ==> pos < r.next < |toks| && Arith(r.node)
    ensures r.Error? ==> pos <= r.at < |toks|
    ensures r.Error? ==> toks[r.at].kind != Lexer.Num && toks[r.at].kind != Lexer.Punct('(')
    decreases |toks| - pos, 1
  {
    if toks[pos].kind == Lexer.Punct('+') then ParseTerm(toks, pos + 1)
    else if toks[pos].kind == Lexer.Punct('-') then
      match ParseTerm(toks, pos + 1)
      case Parsed(n, p) => Parsed(Binary(Sub, Num(0), n), p)
      case Error(at) => Error(at)
    else ParseTerm(toks, pos)
  }

  /** term (parse.c:130-150): a parenthesised expression, whose missing ')'
      is reported and otherwise ignored, or a number. */
  function ParseTerm(toks: seq<Token>, pos: nat): (r: PResult)
    requires Terminated(toks) && pos < |toks|
    ensures r.Parsed? ==> pos < r.next < |toks| && Arith(r.node)
    ensures r.Error? ==> pos <= r.at < |toks|
    ensures r.Error? ==> toks[r.at].kind != Lexer.Num && toks[r.at].kind != Lexer.Punct('(')
    decreases |toks| - pos, 0
  {
    if toks[pos].kind == Lexer.Punct('(') then
      match ParseLevel(toks, pos + 1, 0)
      case Parsed(n, p) => if toks[p].kind == Lexer.Punct(')') then Parsed(n, p + 1) else Parsed(n, p)
      case Error(at) => Error(at)
    else if toks[pos].kind == Lexer.Num then Parsed(Num(toks[pos].value), pos + 1)
    else Error(pos)
  }

  /** parse (parse.c:32-37): the expression from the first token. */
  function ParseTokens(toks: seq<Token>): PResult
    requires Terminated(toks)
  {
    ParseLevel(toks, 0, 0)
  }

  /** The result of a parser method agrees with a specification outcome. */
  predicate Agrees(res: PResult, r: Option<Node>, pos: nat)
  {
    match res
    case Parsed(n, p) => r == Some(n) && pos == p
    case Error(at) => r == None && pos == at
  }

  /** The global state of parse.c: the token vector and the cursor. */
  class Parser {
    var tokens: seq<Token>
    var pos: nat

    ghost predicate Valid()
      reads this
    {
      Terminated(tokens) && pos < |tokens|
    }

    constructor ()
      ensures tokens == [] && pos == 0
    {
      tokens := [];
      pos := 0;
    }

    /** consume (parse.c:23-30): advance past the token at the cursor when
        it has the given type. */
    method Consume(kind: Lexer.TokenKind) returns (ok: bool)
      requires Valid()
      modifies this`pos
      ensures ok <==> tokens[old(pos)].kind == kind
      ensures pos == if ok then old(pos) + 1 else old(pos)
      ensures kind != Lexer.Eof ==> Valid()
    {
      var t := tokens[pos];
      if t.kind != kind {
        return false;
      }
      pos := pos + 1;
      return true;
    }

    /** parse (parse.c:32-37): install the tokens, reset the cursor, parse an
        expression. */
    method Parse(v: seq<Token>) returns (r: Option<Node>)
      requires Terminated(v)
      modifies this
      ensures tokens == v && Valid()
      ensures Agrees(ParseTokens(v), r, pos)
    {
      tokens := v;
      pos := 0;
      r := Expr();
    }

    /** expr (parse.c:39-43) */
    method Expr() returns (r: Option<Node>)
      requires Valid()
      modifies this`pos
      ensures Valid() && old(pos) <= pos
      ensures Agrees(ParseLevel(tokens, old(pos), 0), r, pos)
      decreases |tokens| - pos, 11
    {
      r := Equality();
    }

    /** The operator test at the head of equality's loop (parse.c:50-57). */
    method EqualityOperator() returns (o: LevelOp)
      requires Valid()
      modifies this`pos
      ensures Valid()
      ensures o == OpAt(0, tokens[old(pos)].kind)
      ensures pos == if o.Op? then old(pos) + 1 else old(pos)
    {
      var ok := Consume(Lexer.Eq);
      if ok {
        return Op(Eq, false);
      }
      ok := Consume(Lexer.Ne);
      if ok {
        return Op(Ne, false);
      }
      return NoOp;
    }

    /** equality (parse.c:45-63) */
    method Equality() returns (r: Option<Node>)
      requires Valid()
      modifies this`pos
      ensures Valid() && old(pos) <= pos
      ensures Agrees(ParseLevel(tokens, old(pos), 0), r, pos)
      decreases |tokens| - pos, 10
    {
      var first := Relational();
      if first.None? {
        return None;
      }
      var node := first.value;
      while true
        invariant Valid() && old(pos) <= pos
        invariant ParseLevel(tokens, old(pos), 0) == ParseTail(tokens, pos, 0, node)
        decreases |tokens| - pos
      {
        var o := EqualityOperator();
        if o.NoOp? {
          return Some(node);
        }
        var rhs := Relational();
        if rhs.None? {
          return None;
        }
        node := Binary(o.op, node, rhs.value);
      }
    }

    /** The operator test at the head of relational's loop (parse.c:70-85):
        consume "<=", '<', ">=" or '>' in that order of attempts. */
    method RelationalOperator() returns (o: LevelOp)
      requires Valid()
      modifies this`pos
      ensures Valid()
      ensures o == OpAt(1, tokens[old(pos)].kind)
      ensures pos == if o.Op? then old(pos) + 1 else old(pos)
    {
      var ok := Consume(Lexer.Le);
      if ok {
        return Op(Le, false);
      }
      ok := Consume(Lexer.Punct('<'));
      if ok {
        return Op(Lt, false);
      }
      ok := Consume(Lexer.Ge);
      if ok {
        return Op(Le, true);
      }
      ok := Consume(Lexer.Punct('>'));
      if ok {
        return Op(Lt, true);
      }
      return NoOp;
    }

    /** relational (parse.c:65-91): ">=" and ">" build ND_LE and '<' with
        the operands swapped. */
    method Relational() returns (r: Option<Node>)
      requires Valid()
      modifies this`pos
      ensures Valid() && old(pos) <= pos
      ensures Agrees(ParseLevel(tokens, old(pos), 1), r, pos)
      decreases |tokens| - pos, 8
    {
      var first := Add();
      if first.None? {
        return None;
      }
      var node := first.value;
      while true
        invariant Valid() && old(pos) <= pos
        invariant ParseLevel(tokens, old(pos), 1) == ParseTail(tokens, pos, 1, node)
        decreases |tokens| - pos
      {
        var o := RelationalOperator();
        if o.NoOp? {
          return Some(node);
        }
        var rhs := Add();
        if rhs.None? {
          return None;
        }
        if o.swapped {
          node := Binary(o.op, rhs.value, node);
        } else {
          node := Binary(o.op, node, rhs.value);
        }
      }
    }

    /** The operator test at the head of additive's loop (parse.c:98-101). */
    method AdditiveOperator() returns (o: LevelOp)
      requires Valid()
      modifies this`pos
      ensures Valid()
      ensures o == OpAt(2, tokens[old(pos)].kind)
      ensures pos == if o.Op? then old(pos) + 1 else old(pos)
    {
      var ok := Consume(Lexer.Punct('+'));
      if ok {
        return Op(BinOp.Add, false);
      }
      ok := Consume(Lexer.Punct('-'));
      if ok {
        return Op(Sub, false);
      }
      return NoOp;
    }

    /** add (parse.c:93-105) */
    method Add() returns (r: Option<Node>)
      requires Valid()
      modifies this`pos
      ensures Valid() && old(pos) <= pos
      ensures Agrees(ParseLevel(tokens, old(pos), 2), r, pos)
      decreases |tokens| - pos, 6
    {
      var first := Mul();
      if first.None? {
        return None;
      }
      var node := first.value;
      while true
        invariant Valid() && old(pos) <= pos
        invariant ParseLevel(tokens, old(pos), 2) == ParseTail(tokens, pos, 2, node)
        decreases |tokens| - pos
      {
        var o := AdditiveOperator();
        if o.NoOp? {
          return Some(node);
        }
        var rhs := Mul();
        if rhs.None? {
          return None;
        }
        node := Binary(o.op, node, rhs.value);
      }
    }

    /** The operator test at the head of multiplicative's loop (parse.c:112-115). */
    method MultiplicativeOperator() returns (o: LevelOp)
      requires Valid()
      modifies this`pos
      ensures Valid()
      ensures o == OpAt(3, tokens[old(pos)].kind)
      ensures pos == if o.Op? then old(pos) + 1 else old(pos)
    {
      var ok := Consume(Lexer.Punct('*'));
      if ok {
        return Op(BinOp.Mul, false);
      }
      ok := Consume(Lexer.Punct('/'));
      if ok {
        return Op(Div, false);
      }
      return NoOp;
    }

    /** mul (parse.c:107-119) */
    method Mul() returns (r: Option<Node>)
      requires Valid()
      modifies this`pos
      ensures Valid() && old(pos) <= pos
      ensures Agrees(ParseLevel(tokens, old(pos), 3), r, pos)
      decreases |tokens| - pos, 4
    {
      var first := Unary();
      if first.None? {
        return None;
      }
      var node := first.value;
      while true
        invariant Valid() && old(pos) <= pos
        invariant ParseLevel(tokens, old(pos), 3) == ParseTail(tokens, pos, 3, node)
        decreases |tokens| - pos
      {
        var o := MultiplicativeOperator();
        if o.NoOp? {
          return Some(node);
        }
        var rhs := Unary();
        if rhs.None? {
          return None;
        }
        node := Binary(o.op, node, rhs.value);
      }
    }

    /** unary (parse.c:121-128) */
    method Unary() returns (r: Option<Node>)
      requires Valid()
      modifies this`pos
      ensures Valid() && old(pos) <= pos
      ensures Agrees(ParseLevel(tokens, old(pos), 4), r, pos)
      decreases |tokens| - pos, 2
    {
      var ok := Consume(Lexer.Punct('+'));
      if ok {
        r := Term();
        return;
      }
      ok := Consume(Lexer.Punct('-'));
      if ok {
        var operand := Term();
        if operand.None? {
          return None;
        }
        return Some(Binary(Sub, Num(0), operand.value));
      }
      r := Term();
    }

    /** term (parse.c:130-150) */
    method Term() returns (r: Option<Node>)
      requires Valid()
      modifies this`pos
      ensures Valid() && old(pos) <= pos
      ensures Agrees(ParseTerm(tokens, old(pos)), r, pos)
      decreases |tokens| - pos, 1
    {
      var t := tokens[pos];
      var ok := Consume(Lexer.Punct('('));
      if ok {
        var node := Expr();
        if node.None? {
          return None;
        }
        ok := Consume(Lexer.Punct(')'));
        // a missing ')' is only reported
        return node;
      } else if t.kind == Lexer.Num {
        pos := pos + 1;
        return Some(Num(t.value));
      } else {
        return None;
      }
    }
  }
}
