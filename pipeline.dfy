/**
 * The three stages end to end: the scanner's tokens, the parser's tree,
 * the generator's code, and what that code computes on the machine.
 */
module Pipeline {
  import opened Ast
  import Lexer
  import LexerProps
  import Parser
  import opened CodeGen
  import opened Machine

  /** Every literal of the tree fits in a C `int`.  new_node_num
      (parse.c:15-21) takes the token's value as an `int`, and gen_num
      (codegen.c:51-55) prints it with %d as the immediate of `push`, which
      the processor sign-extends from 32 bits; below 2^31 neither step
      changes the value. */
  predicate SmallLiterals(n: Node)
  {
    match n
    case Num(v) => v < 0x8000_0000
    case Binary(_, l, r) => SmallLiterals(l) && SmallLiterals(r)
    case _ => true
  }

  /** The word `push` places for a literal after both narrowings: its low 32
      bits (the conversion to `int`, taken to wrap around), read as a signed
      32-bit number and sign-extended to 64 bits. */
  function PushedLiteral(v: int): (w: int)
    ensures IsWord(w)
  {
    var t := v % 0x1_0000_0000;
    if t < 0x8000_0000 then t else Wrap(t - 0x1_0000_0000)
  }

  /** A literal below 2^31 is pushed as it is; one from 2^31 up to 2^32 is
      pushed as a different word, the negative number it reads as in 32
      bits. */
  lemma LiteralNarrowing(v: nat)
    ensures v < 0x8000_0000 ==> PushedLiteral(v) == v
    ensures 0x8000_0000 <= v < 0x1_0000_0000 ==> PushedLiteral(v) == v - 0x1_0000_0000 + Word != v
  {
  }

  /** Any source text the scanner accepts is a token vector the parser can
      take; when the parser returns a tree, gen emits code for it without
      error, and when its literals fit in an `int`, that code, run on any
      machine state, pushes the tree's 64-bit value, or faults exactly when
      the tree divides by zero. */
  lemma SourceToValue(s: Lexer.CString, c: Ctx, m: State)
    requires Lexer.Lex(s).Tokens? && Sane(m)
    ensures Parser.Terminated(Lexer.Lex(s).tokens)
    ensures var r := Parser.ParseTokens(Lexer.Lex(s).tokens);
      r.Parsed? ==>
        && Arith(r.node) && Supported(r.node) && Emit(r.node, c).Emitted?
        && (SmallLiterals(r.node) ==>
              Pushes(m, Exec(m, Emit(r.node, c).code), m.stack, Eval(r.node), Scratch(r.node)))
  {
    LexerProps.EndsWithOneEof(s);
    var r := Parser.ParseTokens(Lexer.Lex(s).tokens);
    if r.Parsed? {
      ArithSupported(r.node);
      EvalCorrect(r.node, c, m);
    }
  }

  /** For source text whose tree uses only +, - and * on literals that fit
      in an `int`, the pushed value is
      the exact integer value of the expression modulo 2^64; read as a
      signed word, it is the exact value whenever that fits in 64 bits. */
  lemma SourceToExactValue(s: Lexer.CString, c: Ctx, m: State)
    requires Lexer.Lex(s).Tokens? && Sane(m)
    ensures Parser.Terminated(Lexer.Lex(s).tokens)
    ensures var r := Parser.ParseTokens(Lexer.Lex(s).tokens);
      r.Parsed? && Ring(r.node) && SmallLiterals(r.node) ==>
        && Supported(r.node) && Emit(r.node, c).Emitted?
        && var after := Exec(m, Emit(r.node, c).code);
        && after.Some? && after.value.stack == m.stack + [Wrap(Exact(r.node))]
        && (-Word / 2 <= Exact(r.node) < Word / 2 ==> Signed(Wrap(Exact(r.node))) == Exact(r.node))
  {
    SourceToValue(s, c, m);
    var r := Parser.ParseTokens(Lexer.Lex(s).tokens);
    if r.Parsed? && Ring(r.node) && SmallLiterals(r.node) {
      RingExact(r.node);
      if -Word / 2 <= Exact(r.node) < Word / 2 {
        SignedWrap(Exact(r.node));
      }
    }
  }
}
