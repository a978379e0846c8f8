/**
 * An abstract x86-64 push/pop machine for the straight-line instructions the
 * generator emits, and what the generated code computes on it.
 *
 * Registers, stack slots and memory cells hold 64-bit words, kept as
 * integers in [0, 2^64).  The machine runs code without jumps, calls or
 * returns: on those, and on a fault, it stops with no state.
 */
module Machine {
  import opened Ast
  import opened CodeGen

  /** 2^64: the number of 64-bit words. */
  const Word: int := 0x1_0000_0000_0000_0000

  predicate IsWord(x: int) { 0 <= x < Word }

  /** A value reduced to the 64-bit word that holds it. */
  function Wrap(x: int): (w: int)
    ensures IsWord(w)
  {
    x % Word
  }

  /** The two's-complement reading of a word. */
  function Signed(w: int): int
  {
    if Wrap(w) < Word / 2 then Wrap(w) else Wrap(w) - Word
  }

  /** Registers, the stack (its top last), memory by address, and the two
      operands of the last cmp, which the set instructions test. */
  datatype State = State(regs: map<Reg, int>, stack: seq<int>, mem: map<int, int>, left: int, right: int)

  /** Every register, slot, cell and compared operand holds a word. */
  predicate Sane(m: State)
  {
    && (forall r :: r in m.regs ==> IsWord(m.regs[r]))
    && (forall i :: 0 <= i < |m.stack| ==> IsWord(m.stack[i]))
    && (forall a :: a in m.mem ==> IsWord(m.mem[a]))
    && IsWord(m.left) && IsWord(m.right)
  }

  /** A register's value; one never written reads as 0. */
  function Get(m: State, r: Reg): int
  {
    if r in m.regs then m.regs[r] else 0
  }

  function Set(m: State, r: Reg, v: int): State
  {
    m.(regs := m.regs[r := v])
  }

  /** The conditions of sete, setne, setle and setl on the compared
      operands; setle and setl compare signed. */
  predicate Holds(cond: Cond, a: int, b: int)
  {
    match cond
    case E => a == b
    case NE => a != b
    case LE => Signed(a) <= Signed(b)
    case L => Signed(a) < Signed(b)
  }

  /** One instruction.  push of an immediate pushes it as a word; mul leaves
      the low word of the unsigned product in rax and the high word in rdx;
      div divides rdx:rax unsigned and faults on a zero divisor or a quotient
      that does not fit; a set instruction writes al, the low byte of rax. */
  function Exec1(m: State, i: Instr): Option<State>
  {
    match i
    case Directive => Some(m)
    case Global(_) => Some(m)
    case FuncLabel(_) => Some(m)
    case Mark(_) => Some(m)
    case PushImm(v) => Some(m.(stack := m.stack + [Wrap(v)]))
    case Push(r) => Some(m.(stack := m.stack + [Get(m, r)]))
    case Pop(r) =>
      if m.stack == [] then None
      else Some(Set(m, r, m.stack[|m.stack| - 1]).(stack := m.stack[..|m.stack| - 1]))
    case MovReg(d, s) => Some(Set(m, d, Get(m, s)))
    case MovImm(d, v) => Some(Set(m, d, Wrap(v)))
    case SubImm(d, v) => Some(Set(m, d, Wrap(Get(m, d) - v)))
    case Load(d, a) => if Get(m, a) in m.mem then Some(Set(m, d, m.mem[Get(m, a)])) else None
    case Store(a, s) => Some(m.(mem := m.mem[Get(m, a) := Get(m, s)]))
    case AddReg(d, s) => Some(Set(m, d, Wrap(Get(m, d) + Get(m, s))))
    case SubReg(d, s) => Some(Set(m, d, Wrap(Get(m, d) - Get(m, s))))
    case MulReg(s) =>
      var p := Get(m, Rax) * Get(m, s);
      Some(Set(Set(m, Rax, p % Word), Rdx, p / Word))
    case DivReg(s) =>
      var dividend := Get(m, Rdx) * Word + Get(m, Rax);
      if Get(m, s) == 0 || dividend / Get(m, s) >= Word then None
      else Some(Set(Set(m, Rax, dividend / Get(m, s)), Rdx, dividend % Get(m, s)))
    case CmpImm(r, v) => Some(m.(left := Get(m, r), right := Wrap(v)))
    case CmpReg(a, b) => Some(m.(left := Get(m, a), right := Get(m, b)))
    case SetCC(cond) =>
      var al := if Holds(cond, m.left, m.right) then 1 else 0;
      Some(Set(m, Rax, Get(m, Rax) - Get(m, Rax) % 256 + al))
    case Movzb => Some(Set(m, Rax, Get(m, Rax) % 256))
    case Jmp(_) => None
    case Je(_) => None
    case CallFn(_) => None
    case Ret => None
  }

  /** One more instruction after a run that may have stopped. */
  function Then(o: Option<State>, i: Instr): Option<State>
  {
    match o
    case None => None
    case Some(m) => Exec1(m, i)
  }

  /** A run of straight-line code. */
  function Exec(m: State, code: seq<Instr>): Option<State>
    decreases |code|
  {
    if code == [] then Some(m)
    else
      match Exec1(m, code[0])
      case None => None
      case Some(m1) => Exec(m1, code[1..])
  }

  /** Running two pieces of code is running the first, then the second. */
  lemma {:induction false} ExecAppend(m: State, a: seq<Instr>, b: seq<Instr>)
    ensures Exec(m, a + b) == (match Exec(m, a) case None => None case Some(m1) => Exec(m1, b))
    decreases |a|
  {
    if a == [] {
      assert a + b == b;
    } else {
      assert (a + b)[0] == a[0];
      assert (a + b)[1..] == a[1..] + b;
      match Exec1(m, a[0])
      case None =>
      case Some(m1) => ExecAppend(m1, a[1..], b);
    }
  }

  lemma Exec1Only(m: State, x: Instr)
    ensures Exec(m, [x]) == Exec1(m, x)
  {
    assert [x][1..] == [];
  }

  lemma Exec2(m: State, x: Instr, y: Instr)
    ensures Exec(m, [x, y]) == Then(Exec1(m, x), y)
  {
    assert [x, y][1..] == [y];
    if Exec1(m, x).Some? {
      Exec1Only(Exec1(m, x).value, y);
    }
  }

  lemma Exec3(m: State, x: Instr, y: Instr, z: Instr)
    ensures Exec(m, [x, y, z]) == Then(Then(Exec1(m, x), y), z)
  {
    assert [x, y, z][1..] == [y, z];
    if Exec1(m, x).Some? {
      Exec2(Exec1(m, x).value, y, z);
    }
  }

  // ---------------------------------------------------------------------
  // What an arithmetic tree means
  // ---------------------------------------------------------------------

  /** The operators on 64-bit words as the generated code performs them:
      + - * modulo 2^64, / unsigned (no value for a zero divisor), and the
      comparisons 1 or 0, <= and < on the signed reading. */
  function Apply(op: BinOp, a: int, b: int): Option<int>
  {
    match op
    case Add => Some(Wrap(a + b))
    case Sub => Some(Wrap(a - b))
    case Mul => Some(Wrap(a * b))
    case Div => if b == 0 then None else Some(a / b)
    case Eq => Some(if a == b then 1 else 0)
    case Ne => Some(if a != b then 1 else 0)
    case Le => Some(if Signed(a) <= Signed(b) then 1 else 0)
    case Lt => Some(if Signed(a) < Signed(b) then 1 else 0)
  }

  /** The value of a tree the expression parser builds. */
  function Eval(n: Node): Option<int>
    requires Arith(n)
  {
    match n
    case Num(v) => Some(Wrap(v))
    case Binary(op, l, r) =>
      (match Eval(l)
       case None => None
       case Some(a) =>
         match Eval(r)
         case None => None
         case Some(b) => Apply(op, a, b))
  }

  lemma {:induction false} EvalIsWord(n: Node)
    requires Arith(n) && Eval(n).Some?
    ensures IsWord(Eval(n).value)
  {
    match n
    case Num(_) =>
    case Binary(op, l, r) =>
      EvalIsWord(l);
      EvalIsWord(r);
      ApplyIsWord(op, Eval(l).value, Eval(r).value);
  }

  lemma ApplyIsWord(op: BinOp, a: int, b: int)
    requires IsWord(a) && IsWord(b) && Apply(op, a, b).Some?
    ensures IsWord(Apply(op, a, b).value)
  {
    if op == Div {
      DivLe(a, b);
    }
  }

  /** The tree holds a multiplication or a division, whose instructions
      write rdx. */
  predicate HasMulDiv(n: Node)
  {
    match n
    case Binary(op, l, r) => op == Mul || op == Div || HasMulDiv(l) || HasMulDiv(r)
    case _ => false
  }

  /** The registers the code of an arithmetic tree may write: rax and rdi,
      and rdx where the tree multiplies or divides. */
  function Scratch(n: Node): set<Reg>
  {
    {Rax, Rdi} + (if HasMulDiv(n) then {Rdx} else {})
  }

  /** The registers an operator's instructions, with the two pops before
      them, may write. */
  function OpRegs(op: BinOp): set<Reg>
  {
    {Rax, Rdi} + (if op == Mul || op == Div then {Rdx} else {})
  }

  /** A register write keeps the state sane and changes that register only. */
  lemma SetKeeps(m: State, r: Reg, v: int)
    requires Sane(m) && IsWord(v)
    ensures Sane(Set(m, r, v)) && Get(Set(m, r, v), r) == v
    ensures forall x :: x != r ==> Get(Set(m, r, v), x) == Get(m, x)
  {
  }

  /** m2 holds m's values in every register outside `rs`. */
  predicate KeepsRegs(m: State, m2: State, rs: set<Reg>)
  {
    forall x :: x !in rs ==> Get(m2, x) == Get(m, x)
  }

  /** m2 has m's stack and memory, and m's registers outside `rs`. */
  predicate SameBut(m: State, m2: State, rs: set<Reg>)
  {
    m2.stack == m.stack && m2.mem == m.mem && KeepsRegs(m, m2, rs)
  }

  lemma AddComputes(m: State)
    requires Sane(m) && IsWord(Get(m, Rax)) && IsWord(Get(m, Rdi))
    ensures var r := Exec(m, [AddReg(Rax, Rdi)]);
      r.Some? && Sane(r.value) && SameBut(m, r.value, {Rax})
      && Get(r.value, Rax) == Wrap(Get(m, Rax) + Get(m, Rdi))
  {
    Exec1Only(m, AddReg(Rax, Rdi));
    SetKeeps(m, Rax, Wrap(Get(m, Rax) + Get(m, Rdi)));
  }

  lemma SubComputes(m: State)
    requires Sane(m) && IsWord(Get(m, Rax)) && IsWord(Get(m, Rdi))
    ensures var r := Exec(m, [SubReg(Rax, Rdi)]);
      r.Some? && Sane(r.value) && SameBut(m, r.value, {Rax})
      && Get(r.value, Rax) == Wrap(Get(m, Rax) - Get(m, Rdi))
  {
    Exec1Only(m, SubReg(Rax, Rdi));
    SetKeeps(m, Rax, Wrap(Get(m, Rax) - Get(m, Rdi)));
  }

  /** mul: the low word of the product lands in rax, the high word in rdx. */
  lemma MulComputes(m: State)
    requires Sane(m) && IsWord(Get(m, Rax)) && IsWord(Get(m, Rdi))
    ensures var r := Exec(m, [MulReg(Rdi)]);
      r.Some? && Sane(r.value) && SameBut(m, r.value, {Rax, Rdx})
      && Get(r.value, Rax) == Wrap(Get(m, Rax) * Get(m, Rdi))
  {
    var a, b := Get(m, Rax), Get(m, Rdi);
    Exec1Only(m, MulReg(Rdi));
    MulFits(a, b);
    SetKeeps(m, Rax, (a * b) % Word);
    SetKeeps(Set(m, Rax, (a * b) % Word), Rdx, (a * b) / Word);
  }

  lemma MulFits(a: int, b: int)
    requires IsWord(a) && IsWord(b)
    ensures IsWord((a * b) / Word)
  {
    assert 0 <= a * b;
    assert a * b < Word * Word by {
      assert a * b <= a * Word;
      assert a * Word < Word * Word;
    }
    DivBelow(a * b, Word, Word);
  }

  lemma DivBelow(x: int, d: int, k: int)
    requires 0 <= x < d * k && 0 < d
    ensures 0 <= x / d < k
  {
  }

  /** mov rdx, 0 then div: the unsigned quotient of rax by rdi lands in rax,
      the remainder in rdx. */
  lemma DivComputes(m: State)
    requires Sane(m) && IsWord(Get(m, Rax)) && IsWord(Get(m, Rdi)) && Get(m, Rdi) != 0
    ensures var r := Exec(m, [MovImm(Rdx, 0), DivReg(Rdi)]);
      r.Some? && Sane(r.value) && SameBut(m, r.value, {Rax, Rdx})
      && Get(r.value, Rax) == Get(m, Rax) / Get(m, Rdi)
  {
    Exec2(m, MovImm(Rdx, 0), DivReg(Rdi));
    SetKeeps(m, Rdx, 0);
    var m1 := Set(m, Rdx, 0);
    assert Exec1(m, MovImm(Rdx, 0)) == Some(m1);
    var m2 := DivStep(m1);
  }

  /** div with rdx cleared: the quotient of rax by the divisor in rax, the
      remainder in rdx. */
  function DivStep(m1: State): (m2: State)
    requires Sane(m1) && Get(m1, Rdx) == 0 && Get(m1, Rdi) != 0
    ensures Exec1(m1, DivReg(Rdi)) == Some(m2)
    ensures Sane(m2) && SameBut(m1, m2, {Rax, Rdx})
    ensures Get(m2, Rax) == Get(m1, Rax) / Get(m1, Rdi)
  {
    var a, b := Get(m1, Rax), Get(m1, Rdi);
    assert Get(m1, Rdx) * Word + a == a;
    DivFits(a, b);
    SetKeeps(m1, Rax, a / b);
    SetKeeps(Set(m1, Rax, a / b), Rdx, a % b);
    Set(Set(m1, Rax, a / b), Rdx, a % b)
  }

  lemma DivFits(a: int, b: int)
    requires IsWord(a) && IsWord(b) && b != 0
    ensures IsWord(a / b) && IsWord(a % b)
  {
    DivLe(a, b);
  }

  lemma DivLe(a: int, b: int)
    requires 0 <= a && 0 < b
    ensures 0 <= a / b <= a
  {
    var q := a / b;
    assert q * b + a % b == a;
    assert 0 <= q;
    MulMono(1, b, q);
  }

  lemma MulMono(x: int, y: int, k: int)
    requires x <= y && 0 <= k
    ensures x * k <= y * k
  {
  }

  /** cmp, set<cond> and movzb (codegen.c:200-219) leave exactly 1 or 0 in
      rax: 1 when the condition holds of rax and rdi. */
  lemma CompareComputes(m: State, cond: Cond)
    requires Sane(m) && IsWord(Get(m, Rax)) && IsWord(Get(m, Rdi))
    ensures var r := Exec(m, [CmpReg(Rax, Rdi), SetCC(cond), Movzb]);
      r.Some? && Sane(r.value) && SameBut(m, r.value, {Rax})
      && Get(r.value, Rax) == (if Holds(cond, Get(m, Rax), Get(m, Rdi)) then 1 else 0)
  {
    Exec3(m, CmpReg(Rax, Rdi), SetCC(cond), Movzb);
    var m1 := m.(left := Get(m, Rax), right := Get(m, Rdi));
    assert Exec1(m, CmpReg(Rax, Rdi)) == Some(m1);
    var al := if Holds(cond, Get(m, Rax), Get(m, Rdi)) then 1 else 0;
    var m2 := SetLowByte(m1, cond, al);
    assert Exec1(m1, SetCC(cond)) == Some(m2);
    ZeroExtend(m2, al);
  }

  /** sete and its kin: al becomes `al`, the rest of rax stays. */
  function SetLowByte(m1: State, cond: Cond, al: int): (m2: State)
    requires Sane(m1) && 0 <= al < 256 && al == (if Holds(cond, m1.left, m1.right) then 1 else 0)
    ensures Exec1(m1, SetCC(cond)) == Some(m2)
    ensures Sane(m2) && SameBut(m1, m2, {Rax}) && Get(m2, Rax) % 256 == al
  {
    var v := Get(m1, Rax);
    LowByte(v, al);
    SetKeeps(m1, Rax, v - v % 256 + al);
    Set(m1, Rax, v - v % 256 + al)
  }

  /** movzb rax, al: rax becomes its low byte. */
  lemma ZeroExtend(m2: State, al: int)
    requires Sane(m2) && Get(m2, Rax) % 256 == al
    ensures Exec1(m2, Movzb) == Some(Set(m2, Rax, al))
    ensures Sane(Set(m2, Rax, al)) && SameBut(m2, Set(m2, Rax, al), {Rax})
  {
    SetKeeps(m2, Rax, al);
  }

  lemma LowByte(v: int, al: int)
    requires IsWord(v) && 0 <= al < 256
    ensures IsWord(v - v % 256 + al) && (v - v % 256 + al) % 256 == al
  {
    var q := v / 256;
    assert v == q * 256 + v % 256;
    assert v - v % 256 + al == q * 256 + al;
  }

  /** The operator's instructions (codegen.c:182-220), run with the left
      operand in rax and the right one in rdi, leave `Apply` of the two in
      rax and write nothing but rax and, for * and /, rdx. */
  lemma OpCodeComputes(m: State, op: BinOp)
    requires Sane(m) && IsWord(Get(m, Rax)) && IsWord(Get(m, Rdi))
    requires Apply(op, Get(m, Rax), Get(m, Rdi)).Some?
    ensures var r := Exec(m, OpCode(op));
      && r.Some? && Sane(r.value)
      && Get(r.value, Rax) == Apply(op, Get(m, Rax), Get(m, Rdi)).value
      && SameBut(m, r.value, if op == Mul || op == Div then {Rax, Rdx} else {Rax})
  {
    match op
    case Add => AddComputes(m);
    case Sub => SubComputes(m);
    case Mul => MulComputes(m);
    case Div => DivComputes(m);
    case Eq => CompareComputes(m, E);
    case Ne => CompareComputes(m, NE);
    case Le => CompareComputes(m, LE);
    case Lt => CompareComputes(m, L);
  }

  /** What gen_binary_operator emits after the operands' code
      (codegen.c:178-181, 182-220 and 222). */
  function Tail(op: BinOp): seq<Instr>
  {
    [Pop(Rdi), Pop(Rax)] + OpCode(op) + [Push(Rax)]
  }

  /** A run `r` from m that ends, exactly when the value `v` exists, with
      `v` pushed on the stack `s`, m's memory, and m's registers outside
      `rs`. */
  predicate Pushes(m: State, r: Option<State>, s: seq<int>, v: Option<int>, rs: set<Reg>)
  {
    && (r.Some? <==> v.Some?)
    && (r.Some? ==>
          && Sane(r.value) && r.value.stack == s + [v.value]
          && r.value.mem == m.mem && KeepsRegs(m, r.value, rs))
  }

  /** With the right operand on top of the stack and the left one below
      it, the operator's code replaces the two by `Apply` of them, or
      faults exactly where `Apply` has no value (a division by zero). */
  lemma TailComputes(m: State, op: BinOp, a: int, b: int, s: seq<int>)
    requires Sane(m) && m.stack == s + [a, b]
    ensures Pushes(m, Exec(m, Tail(op)), s, Apply(op, a, b), OpRegs(op))
  {
    var m2 := PopOperands(m, a, b, s);
    assert Tail(op) == [Pop(Rdi), Pop(Rax)] + (OpCode(op) + [Push(Rax)]);
    ExecAppend(m, [Pop(Rdi), Pop(Rax)], OpCode(op) + [Push(Rax)]);
    if Apply(op, a, b).Some? {
      OperatorPushes(m2, op);
    } else {
      DivideByZero(m2);
    }
  }

  /** div faults on a zero divisor. */
  lemma DivideByZero(m2: State)
    requires Get(m2, Rdi) == 0
    ensures Exec(m2, OpCode(Div) + [Push(Rax)]) == None
  {
    ExecAppend(m2, OpCode(Div), [Push(Rax)]);
    Exec2(m2, MovImm(Rdx, 0), DivReg(Rdi));
  }

  lemma OperatorPushes(m2: State, op: BinOp)
    requires Sane(m2) && IsWord(Get(m2, Rax)) && IsWord(Get(m2, Rdi))
    requires Apply(op, Get(m2, Rax), Get(m2, Rdi)).Some?
    ensures Pushes(m2, Exec(m2, OpCode(op) + [Push(Rax)]), m2.stack, Apply(op, Get(m2, Rax), Get(m2, Rdi)), OpRegs(op))
  {
    ExecAppend(m2, OpCode(op), [Push(Rax)]);
    OpCodeComputes(m2, op);
    var m3 := Exec(m2, OpCode(op)).value;
    Exec1Only(m3, Push(Rax));
  }

  /** pop rdi, pop rax: the right operand into rdi, the left into rax. */
  function PopOperands(m: State, a: int, b: int, s: seq<int>): (m2: State)
    requires Sane(m) && m.stack == s + [a, b]
    ensures Exec(m, [Pop(Rdi), Pop(Rax)]) == Some(m2)
    ensures Sane(m2) && m2.stack == s && m2.mem == m.mem && KeepsRegs(m, m2, {Rax, Rdi})
    ensures Get(m2, Rax) == a && Get(m2, Rdi) == b && IsWord(a) && IsWord(b)
  {
    assert m.stack[|m.stack| - 1] == b && m.stack[..|m.stack| - 1] == s + [a];
    assert m.stack[|m.stack| - 2] == a;
    SetKeeps(m, Rdi, b);
    var m1 := Set(m, Rdi, b).(stack := s + [a]);
    assert Exec1(m, Pop(Rdi)) == Some(m1);
    assert (s + [a])[|s|] == a && (s + [a])[..|s|] == s;
    SetKeeps(m1, Rax, a);
    var m2 := Set(m1, Rax, a).(stack := s);
    assert Exec1(m1, Pop(Rax)) == Some(m2);
    Exec2(m, Pop(Rdi), Pop(Rax));
    m2
  }

  /** An expression tree of the parser is a node gen handles. */
  lemma {:induction false} ArithSupported(n: Node)
    requires Arith(n)
    ensures Supported(n)
  {
    match n
    case Num(_) =>
    case Binary(_, l, r) =>
      ArithSupported(l);
      ArithSupported(r);
  }

  /** gen never fails on an expression tree, and it takes no labels. */
  lemma {:induction false} ArithEmitted(n: Node, c: Ctx)
    requires Arith(n) && Supported(n)
    ensures Emit(n, c).Emitted? && Emit(n, c).ctx == c
  {
    match n
    case Num(_) =>
    case Binary(_, l, r) =>
      ArithEmitted(l, c);
      ArithEmitted(r, c);
  }

  /** The code gen emits for an expression tree (codegen.c:20-49 with
      gen_num and gen_binary_operator) pushes the tree's value and nothing
      else, leaves memory and every register outside `Scratch` alone, and
      faults exactly when the tree divides by zero. */
  lemma {:induction false} EvalCorrect(n: Node, c: Ctx, m: State)
    requires Arith(n) && Supported(n) && Sane(m)
    ensures var e := Emit(n, c);
      && e.Emitted? && e.ctx == c
      && Pushes(m, Exec(m, e.code), m.stack, Eval(n), Scratch(n))
  {
    match n
    case Num(v) =>
      Exec1Only(m, PushImm(v));
    case Binary(op, l, r) =>
      EvalCorrect(l, c, m);
      var lc := Emit(l, c).code;
      var ml := Exec(m, lc);
      EvalCorrect(r, c, if ml.Some? then ml.value else m);
      var rc := Emit(r, c).code;
      BinaryCode(n, c);
      ScratchOfBinary(n);
      OperandsThenOperator(m, lc, rc, op, Eval(l), Eval(r), Scratch(l), Scratch(r));
  }

  lemma BinaryCode(n: Node, c: Ctx)
    requires n.Binary? && Supported(n)
    requires Emit(n.lhs, c).Emitted? && Emit(n.lhs, c).ctx == c
    requires Emit(n.rhs, c).Emitted? && Emit(n.rhs, c).ctx == c
    ensures Emit(n, c) == Emitted(Emit(n.lhs, c).code + (Emit(n.rhs, c).code + Tail(n.op)), c)
  {
    var lc, rc := Emit(n.lhs, c).code, Emit(n.rhs, c).code;
    assert lc + rc + [Pop(Rdi), Pop(Rax)] + OpCode(n.op) + [Push(Rax)] == lc + (rc + Tail(n.op));
  }

  lemma ScratchOfBinary(n: Node)
    requires n.Binary? && Arith(n)
    ensures Scratch(n) == Scratch(n.lhs) + Scratch(n.rhs) + OpRegs(n.op)
    ensures Eval(n) == if Eval(n.lhs).Some? && Eval(n.rhs).Some?
      then Apply(n.op, Eval(n.lhs).value, Eval(n.rhs).value) else None
  {
  }

  /** The left operand's code, the right one's, then the operator's: the
      operator applied to the two values, if both exist. */
  lemma OperandsThenOperator(m: State, lc: seq<Instr>, rc: seq<Instr>, op: BinOp,
                             u: Option<int>, v: Option<int>, ls: set<Reg>, rs: set<Reg>)
    requires Sane(m) && Pushes(m, Exec(m, lc), m.stack, u, ls)
    requires Exec(m, lc).Some? ==>
      var ml := Exec(m, lc).value; Pushes(ml, Exec(ml, rc), ml.stack, v, rs)
    ensures Pushes(m, Exec(m, lc + (rc + Tail(op))), m.stack,
                   if u.Some? && v.Some? then Apply(op, u.value, v.value) else None,
                   ls + rs + OpRegs(op))
  {
    ExecAppend(m, lc, rc + Tail(op));
    if Exec(m, lc).Some? {
      var ml := Exec(m, lc).value;
      ExecAppend(ml, rc, Tail(op));
      if Exec(ml, rc).Some? {
        var mr := Exec(ml, rc).value;
        assert mr.stack == m.stack + [u.value, v.value];
        TailComputes(mr, op, u.value, v.value, m.stack);
      }
    }
  }

  // ---------------------------------------------------------------------
  // Word arithmetic against integer arithmetic
  // ---------------------------------------------------------------------

  /** A tree of +, - and * only. */
  predicate Ring(n: Node)
  {
    match n
    case Num(_) => true
    case Binary(op, l, r) => (op == Add || op == Sub || op == Mul) && Ring(l) && Ring(r)
    case _ => false
  }

  /** The exact integer value of a ring tree. */
  function Exact(n: Node): int
    requires Ring(n)
  {
    match n
    case Num(v) => v
    case Binary(op, l, r) =>
      if op == Add then Exact(l) + Exact(r)
      else if op == Sub then Exact(l) - Exact(r)
      else Exact(l) * Exact(r)
  }

  lemma WrapShift(x: int, k: int)
    ensures Wrap(x + k * Word) == Wrap(x)
  {
    var q := x / Word;
    assert x == q * Word + Wrap(x);
    assert x + k * Word == (q + k) * Word + Wrap(x);
  }

  lemma WrapAdd(a: int, b: int)
    ensures Wrap(Wrap(a) + Wrap(b)) == Wrap(a + b)
  {
    WrapShift(Wrap(a) + Wrap(b), a / Word + b / Word);
    assert a == a / Word * Word + Wrap(a);
    assert b == b / Word * Word + Wrap(b);
    assert Wrap(a) + Wrap(b) + (a / Word + b / Word) * Word == a + b;
  }

  lemma WrapSub(a: int, b: int)
    ensures Wrap(Wrap(a) - Wrap(b)) == Wrap(a - b)
  {
    WrapShift(Wrap(a) - Wrap(b), a / Word - b / Word);
    assert a == a / Word * Word + Wrap(a);
    assert b == b / Word * Word + Wrap(b);
    assert Wrap(a) - Wrap(b) + (a / Word - b / Word) * Word == a - b;
  }

  lemma WrapMul(a: int, b: int)
    ensures Wrap(Wrap(a) * Wrap(b)) == Wrap(a * b)
  {
    var qa, ra := a / Word, Wrap(a);
    var qb, rb := b / Word, Wrap(b);
    assert a == qa * Word + ra;
    assert b == qb * Word + rb;
    var k := qa * qb * Word + qa * rb + ra * qb;
    assert a * b == ra * rb + k * Word by {
      calc {
        a * b;
        (qa * Word + ra) * (qb * Word + rb);
        qa * Word * (qb * Word) + qa * Word * rb + ra * (qb * Word) + ra * rb;
        ra * rb + (qa * qb * Word + qa * rb + ra * qb) * Word;
      }
    }
    WrapShift(ra * rb, k);
  }

  /** gen on a tree of +, - and * computes the exact integer value modulo
      2^64: the value itself, on the signed reading, whenever that fits in
      64 bits. */
  lemma {:induction false} RingExact(n: Node)
    requires Ring(n)
    ensures Arith(n) && Eval(n) == Some(Wrap(Exact(n)))
  {
    match n
    case Num(_) =>
    case Binary(op, l, r) =>
      RingExact(l);
      RingExact(r);
      if op == Add {
        WrapAdd(Exact(l), Exact(r));
      } else if op == Sub {
        WrapSub(Exact(l), Exact(r));
      } else {
        WrapMul(Exact(l), Exact(r));
      }
  }

  /** A value that fits in 64 signed bits reads back from its word. */
  lemma SignedWrap(x: int)
    requires -Word / 2 <= x < Word / 2
    ensures Signed(Wrap(x)) == x
  {
    if x < 0 {
      WrapShift(x, 1);
      assert Wrap(x + Word) == x + Word;
    }
  }

  /** `/` divides the words unsigned: 0 - 6 is the word 2^64 - 6, and its
      quotient by 2 is 2^63 - 3, not -3 on either reading. */
  lemma DivisionIsUnsigned()
    ensures var n := Binary(Div, Binary(Sub, Num(0), Num(6)), Num(2));
      && Eval(n) == Some(Word / 2 - 3)
      && Signed(Eval(n).value) != -3
  {
    var n := Binary(Div, Binary(Sub, Num(0), Num(6)), Num(2));
    assert Eval(Binary(Sub, Num(0), Num(6))) == Some(Word - 6);
    assert (Word - 6) / 2 == Word / 2 - 3;
  }

  // ---------------------------------------------------------------------
  // Arguments of a call
  // ---------------------------------------------------------------------

  /** Every argument of the call is an expression tree with a value. */
  predicate ArithArgs(n: Node)
    requires n.Call?
  {
    forall k :: 0 <= k < |n.args| ==> Arith(n.args[k]) && Eval(n.args[k]).Some?
  }

  /** The registers the code for arguments 0 to i - 1 may write: their
      scratch registers and their own argument registers. */
  function ArgsScratch(n: Node, i: nat): (rs: set<Reg>)
    requires n.Call? && i <= |n.args| && |n.args| <= 6
    ensures forall x :: x in rs <==>
      exists k :: 0 <= k < i && (x in Scratch(n.args[k]) || x == ArgRegs[k])
  {
    if i == 0 then {}
    else ArgsScratch(n, i - 1) + Scratch(n.args[i - 1]) + {ArgRegs[i - 1]}
  }

  /** No argument evaluated after argument j (those before it in the
      list) writes argument j's register. */
  predicate Survives(n: Node, j: nat)
    requires n.Call? && j < |n.args| && |n.args| <= 6
  {
    forall k :: 0 <= k < j ==> ArgRegs[j] !in Scratch(n.args[k])
  }

  /** The loop of gen_funccall (codegen.c:122-126) over arguments i - 1
      down to 0 pops each argument's value into its register; the value
      is still there at the call for exactly those arguments whose register
      no later-evaluated argument writes.  The stack and memory are as
      before, and registers outside `ArgsScratch` are untouched. */
  lemma {:induction false} ArgsCorrect(n: Node, i: nat, c: Ctx, m: State)
    requires n.Call? && Supported(n) && i <= |n.args| && ArithArgs(n) && Sane(m)
    ensures EmitArgs(n, i, c).Emitted? && EmitArgs(n, i, c).ctx == c
    ensures Loaded(n, i, m, Exec(m, EmitArgs(n, i, c).code))
    decreases i
  {
    if i > 0 {
      var a := n.args[i - 1];
      assert a in n.args;
      var reg := ArgRegs[i - 1];
      var m1 := EvalThenPop(a, c, m, reg);
      ArgsStep(n, i, c);
      ArgsCorrect(n, i - 1, c, m1);
      var rest := EmitArgs(n, i - 1, c).code;
      ExecThen(m, Emit(a, c).code + [Pop(reg)], rest, m1);
      var r := Exec(m1, rest).value;
      OwnRegisterKept(n, i, m1, r, Eval(a).value);
      InRegistersStep(n, i, r);
    }
  }

  /** A run from m that ends with the stack and memory as in m, registers
      outside `ArgsScratch` as in m, and the surviving arguments among 0 to
      i - 1 in their registers. */
  predicate Loaded(n: Node, i: nat, m: State, r: Option<State>)
    requires n.Call? && |n.args| <= 6 && i <= |n.args| && ArithArgs(n)
  {
    && r.Some? && Sane(r.value) && r.value.stack == m.stack && r.value.mem == m.mem
    && KeepsRegs(m, r.value, ArgsScratch(n, i))
    && InRegisters(n, i, r.value)
  }

  /** Each of arguments 0 to i - 1 whose register survives holds its value
      in that register. */
  predicate InRegisters(n: Node, i: nat, r: State)
    requires n.Call? && |n.args| <= 6 && i <= |n.args| && ArithArgs(n)
  {
    forall j :: 0 <= j < i && Survives(n, j) ==> Get(r, ArgRegs[j]) == Eval(n.args[j]).value
  }

  lemma InRegistersStep(n: Node, i: nat, r: State)
    requires n.Call? && |n.args| <= 6 && 0 < i <= |n.args| && ArithArgs(n)
    requires InRegisters(n, i - 1, r)
    requires Survives(n, i - 1) ==> Get(r, ArgRegs[i - 1]) == Eval(n.args[i - 1]).value
    ensures InRegisters(n, i, r)
  {
  }

  /** Argument i - 1's register is not among those the code of arguments
      i - 2 down to 0 writes, when no argument among those writes it. */
  lemma OwnRegisterKept(n: Node, i: nat, m1: State, r: State, v: int)
    requires n.Call? && 0 < i <= |n.args| <= 6
    requires KeepsRegs(m1, r, ArgsScratch(n, i - 1)) && Get(m1, ArgRegs[i - 1]) == v
    ensures Survives(n, i - 1) ==> Get(r, ArgRegs[i - 1]) == v
  {
    var reg := ArgRegs[i - 1];
    if Survives(n, i - 1) && reg in ArgsScratch(n, i - 1) {
      var k :| 0 <= k < i - 1 && (reg in Scratch(n.args[k]) || reg == ArgRegs[k]);
      assert false;
    }
  }

  /** An argument's code, then the pop into its register. */
  function EvalThenPop(a: Node, c: Ctx, m: State, reg: Reg): (m1: State)
    requires Arith(a) && Supported(a) && Eval(a).Some? && Sane(m)
    ensures Emit(a, c).Emitted? && Emit(a, c).ctx == c
    ensures Exec(m, Emit(a, c).code + [Pop(reg)]) == Some(m1)
    ensures Sane(m1) && m1.stack == m.stack && m1.mem == m.mem
    ensures Get(m1, reg) == Eval(a).value && KeepsRegs(m, m1, Scratch(a) + {reg})
  {
    EvalCorrect(a, c, m);
    var ac := Emit(a, c).code;
    var ma := Exec(m, ac).value;
    var m1 := PopArgument(ma, reg, Eval(a).value, m.stack);
    ExecAppend(m, ac, [Pop(reg)]);
    Exec1Only(ma, Pop(reg));
    m1
  }

  /** pop into an argument register: the value on top lands there. */
  function PopArgument(ma: State, reg: Reg, v: int, s: seq<int>): (m1: State)
    requires Sane(ma) && ma.stack == s + [v]
    ensures Exec1(ma, Pop(reg)) == Some(m1)
    ensures Sane(m1) && m1.stack == s && m1.mem == ma.mem
    ensures Get(m1, reg) == v && KeepsRegs(ma, m1, {reg})
  {
    assert ma.stack[|ma.stack| - 1] == v && ma.stack[..|ma.stack| - 1] == s;
    SetKeeps(ma, reg, v);
    Set(ma, reg, v).(stack := s)
  }

  /** After a product's code, rdx holds the high word of the product. */
  lemma ProductLeavesHighWord(l: Node, r: Node, c: Ctx, m: State)
    requires Arith(l) && Arith(r) && Supported(l) && Supported(r) && Sane(m)
    requires Eval(l).Some? && Eval(r).Some?
    ensures var e := Emit(Binary(Mul, l, r), c);
      && e.Emitted? && Exec(m, e.code).Some?
      && Get(Exec(m, e.code).value, Rdx) == (Eval(l).value * Eval(r).value) / Word
  {
    var n := Binary(Mul, l, r);
    EvalCorrect(l, c, m);
    var lc := Emit(l, c).code;
    var ml := Exec(m, lc).value;
    EvalCorrect(r, c, ml);
    var rc := Emit(r, c).code;
    var mr := Exec(ml, rc).value;
    assert Emit(n, c) == Emitted(lc + (rc + Tail(Mul)), c);
    ExecAppend(m, lc, rc + Tail(Mul));
    ExecAppend(ml, rc, Tail(Mul));
    MulTailHighWord(mr, Eval(l).value, Eval(r).value, m.stack);
  }

  lemma MulTailHighWord(mr: State, a: int, b: int, s: seq<int>)
    requires Sane(mr) && mr.stack == s + [a, b]
    ensures Exec(mr, Tail(Mul)).Some? && Get(Exec(mr, Tail(Mul)).value, Rdx) == (a * b) / Word
  {
    var m2 := PopOperands(mr, a, b, s);
    assert Tail(Mul) == [Pop(Rdi), Pop(Rax)] + [MulReg(Rdi), Push(Rax)];
    ExecAppend(mr, [Pop(Rdi), Pop(Rax)], [MulReg(Rdi), Push(Rax)]);
    MulThenPush(m2);
  }

  lemma MulThenPush(m2: State)
    ensures Exec(m2, [MulReg(Rdi), Push(Rax)]).Some?
    ensures Get(Exec(m2, [MulReg(Rdi), Push(Rax)]).value, Rdx) == (Get(m2, Rax) * Get(m2, Rdi)) / Word
  {
    var p := Get(m2, Rax) * Get(m2, Rdi);
    var m3 := Set(Set(m2, Rax, p % Word), Rdx, p / Word);
    assert Exec1(m2, MulReg(Rdi)) == Some(m3);
    Exec2(m2, MulReg(Rdi), Push(Rax));
  }

  /** In a call with three arguments whose first is a product, gen_funccall
      evaluates argument 2, pops it into rdx, and then evaluates argument
      0, whose mul overwrites rdx with the product's high word: at the
      call, rdx no longer holds argument 2. */
  lemma {:induction false} ThirdArgumentOverwritten(n: Node, l: Node, r: Node, y: Node, z: Node, c: Ctx, m: State)
    requires n.Call? && n.args == [Binary(Mul, l, r), y, z]
    requires Arith(l) && Arith(r) && Arith(y) && Arith(z) && Sane(m)
    requires Eval(l).Some? && Eval(r).Some? && Eval(y).Some? && Eval(z).Some?
    ensures Supported(n) && EmitArgs(n, |n.args|, c).Emitted?
    ensures var after := Exec(m, EmitArgs(n, |n.args|, c).code);
      && after.Some?
      && Get(after.value, Rdx) == (Eval(l).value * Eval(r).value) / Word
  {
    var p := Binary(Mul, l, r);
    ArithSupported(p);
    ArithSupported(y);
    ArithSupported(z);
    var m1 := EvalThenPop(z, c, m, Rdx);
    var m2 := EvalThenPop(y, c, m1, Rsi);
    ArithEmitted(p, c);
    var pc := Emit(p, c).code + [Pop(Rdi)];
    ProductThenPop(l, r, c, m2);
    var zc := Emit(z, c).code + [Pop(Rdx)];
    var yc := Emit(y, c).code + [Pop(Rsi)];
    ThreeSupported(n, p, y, z);
    ThreeArguments(n, p, y, z, c);
    ExecThrough(m, zc, yc, pc, m1, m2);
  }

  /** Running two pieces of code through a known intermediate state. */
  lemma ExecThen(m: State, a: seq<Instr>, b: seq<Instr>, m1: State)
    requires Exec(m, a) == Some(m1)
    ensures Exec(m, a + b) == Exec(m1, b)
  {
    ExecAppend(m, a, b);
  }

  /** Running three pieces of code through known intermediate states. */
  lemma ExecThrough(m: State, a: seq<Instr>, b: seq<Instr>, d: seq<Instr>, m1: State, m2: State)
    requires Exec(m, a) == Some(m1) && Exec(m1, b) == Some(m2)
    ensures Exec(m, a + (b + d)) == Exec(m2, d)
  {
    ExecAppend(m, a, b + d);
    ExecAppend(m1, b, d);
  }

  /** A product's code, then pop rdi: rdx still holds the high word. */
  lemma ProductThenPop(l: Node, r: Node, c: Ctx, m: State)
    requires Arith(l) && Arith(r) && Supported(l) && Supported(r) && Sane(m)
    requires Eval(l).Some? && Eval(r).Some?
    ensures var e := Emit(Binary(Mul, l, r), c);
      && e.Emitted? && Exec(m, e.code + [Pop(Rdi)]).Some?
      && Get(Exec(m, e.code + [Pop(Rdi)]).value, Rdx) == (Eval(l).value * Eval(r).value) / Word
  {
    var p := Binary(Mul, l, r);
    ArithSupported(p);
    ProductLeavesHighWord(l, r, c, m);
    EvalCorrect(p, c, m);
    var pc := Emit(p, c).code;
    var mp := Exec(m, pc).value;
    PopRdiKeepsRdx(mp, Eval(p).value, m.stack);
    ExecAppend(m, pc, [Pop(Rdi)]);
    Exec1Only(mp, Pop(Rdi));
  }

  /** The loop of gen_funccall over three arguments, unrolled. */
  lemma ThreeArguments(n: Node, a0: Node, a1: Node, a2: Node, c: Ctx)
    requires n.Call? && Supported(n) && n.args == [a0, a1, a2]
    requires Supported(a0) && Supported(a1) && Supported(a2)
    requires Emit(a0, c).Emitted? && Emit(a0, c).ctx == c
    requires Emit(a1, c).Emitted? && Emit(a1, c).ctx == c
    requires Emit(a2, c).Emitted? && Emit(a2, c).ctx == c
    ensures EmitArgs(n, |n.args|, c) == Emitted(
      (Emit(a2, c).code + [Pop(Rdx)]) + ((Emit(a1, c).code + [Pop(Rsi)]) + (Emit(a0, c).code + [Pop(Rdi)])), c)
  {
    var c0 := Emit(a0, c).code;
    assert EmitArgs(n, 0, c) == Emitted([], c);
    ArgsStep(n, 1, c);
    assert c0 + [Pop(Rdi)] + [] == c0 + [Pop(Rdi)];
    ArgsStep(n, 2, c);
    ArgsStep(n, 3, c);
  }

  lemma ThreeSupported(n: Node, a0: Node, a1: Node, a2: Node)
    requires n.Call? && n.args == [a0, a1, a2]
    requires Supported(a0) && Supported(a1) && Supported(a2)
    ensures Supported(n)
  {
    assert forall k :: 0 <= k < |n.args| ==> n.args[k] in {a0, a1, a2};
  }

  /** One turn of the loop of gen_funccall. */
  lemma ArgsStep(n: Node, i: nat, c: Ctx)
    requires n.Call? && Supported(n) && 0 < i <= |n.args|
    requires Emit(n.args[i - 1], c).Emitted? && Emit(n.args[i - 1], c).ctx == c
    ensures EmitArgs(n, i, c) == After(Emit(n.args[i - 1], c).code + [Pop(ArgRegs[i - 1])], EmitArgs(n, i - 1, c))
  {
  }

  lemma PopRdiKeepsRdx(mp: State, v: int, s: seq<int>)
    requires Sane(mp) && mp.stack == s + [v]
    ensures Exec1(mp, Pop(Rdi)).Some? && Get(Exec1(mp, Pop(Rdi)).value, Rdx) == Get(mp, Rdx)
  {
    var _ := PopArgument(mp, Rdi, v, s);
  }

  /** f(2 * 3, 5, 7): at the call rdi is 6 and rsi is 5, but rdx is 0, not 7. */
  lemma CallClobbersThirdArgument()
    ensures var n := Call("f", [Binary(Mul, Num(2), Num(3)), Num(5), Num(7)]);
      var m := State(map[], [], map[], 0, 0);
      && Supported(n) && EmitArgs(n, 3, Ctx(0, 0, map[])).Emitted?
      && var after := Exec(m, EmitArgs(n, 3, Ctx(0, 0, map[])).code);
      && after.Some? && Get(after.value, Rdi) == 6 && Get(after.value, Rsi) == 5
      && Get(after.value, Rdx) == 0 && Eval(n.args[2]) == Some(7)
  {
    var m := State(map[], [], map[], 0, 0);
    assert Sane(m);
    var n := Call("f", [Binary(Mul, Num(2), Num(3)), Num(5), Num(7)]);
    var c := Ctx(0, 0, map[]);
    ThirdArgumentOverwritten(n, Num(2), Num(3), Num(5), Num(7), c, m);
    assert (2 * 3) / Word == 0;
    FirstTwoArguments(n, c, m);
  }

  /** In `CallClobbersThirdArgument`, arguments 0 and 1 reach rdi and rsi:
      the product writes only rax, rdi and rdx. */
  lemma FirstTwoArguments(n: Node, c: Ctx, m: State)
    requires n == Call("f", [Binary(Mul, Num(2), Num(3)), Num(5), Num(7)]) && Sane(m)
    ensures Supported(n) && EmitArgs(n, 3, c).Emitted?
    ensures var after := Exec(m, EmitArgs(n, 3, c).code);
      after.Some? && Get(after.value, Rdi) == 6 && Get(after.value, Rsi) == 5
  {
    assert Eval(n.args[0]) == Some(6) && Eval(n.args[1]) == Some(5) && Eval(n.args[2]) == Some(7);
    assert ArithArgs(n);
    ArithSupported(n.args[0]);
    ThreeSupported(n, n.args[0], n.args[1], n.args[2]);
    assert Scratch(n.args[0]) == {Rax, Rdi, Rdx};
    assert Survives(n, 0) && Survives(n, 1);
    ArgsCorrect(n, 3, c, m);
  }
}
