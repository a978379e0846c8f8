/**
 * The stack-machine code generator of codegen.c.
 *
 * The emitted assembly is a sequence of `Instr` values, one per printed
 * instruction or label line; the `# ...` comment lines are not modelled.
 * `Emit` says what the generator emits for a tree from a given state of its
 * globals (the two label counters and the current variable map) and what
 * state it leaves; the class `Generator` holds those globals and the output
 * stream, with one method per C function, each proved to emit what `Emit`
 * says.
 */
module CodeGen {
  import opened Ast

  datatype Reg = Rax | Rdi | Rsi | Rdx | Rcx | R8 | R9 | Rbp | Rsp

  /** `.Lelse<n>` and `.Lend<n>`. */
  datatype Label = Else(n: int) | End(n: int)

  /** The conditions of sete, setne, setle and setl. */
  datatype Cond = E | NE | LE | L

  datatype Instr =
    | Directive                    // .intel_syntax noprefix
    | Global(name: string)         // .global name
    | FuncLabel(name: string)      // name:
    | PushImm(imm: int)            // push imm
    | Push(r: Reg)                 // push r
    | Pop(r: Reg)                  // pop r
    | MovReg(dst: Reg, src: Reg)   // mov dst, src
    | MovImm(dst: Reg, imm: int)   // mov dst, imm
    | SubImm(dst: Reg, imm: int)   // sub dst, imm
    | Load(dst: Reg, addr: Reg)    // mov dst, [addr]
    | Store(addr: Reg, src: Reg)   // mov [addr], src
    | AddReg(dst: Reg, src: Reg)   // add dst, src
    | SubReg(dst: Reg, src: Reg)   // sub dst, src
    | MulReg(src: Reg)             // mul src
    | DivReg(src: Reg)             // div src
    | CmpImm(r: Reg, imm: int)     // cmp r, imm
    | CmpReg(a: Reg, b: Reg)       // cmp a, b
    | SetCC(cond: Cond)            // set<cond> al
    | Movzb                        // movzb rax, al
    | Jmp(target: Label)           // jmp label
    | Je(target: Label)            // je label
    | Mark(lbl: Label)             // label:
    | CallFn(name: string)         // call name
    | Ret                          // ret

  /** registers_for_args (codegen.c:5): the integer argument registers in the
      order of section 3.2.3 ("Parameter Passing") of the System V AMD64 ABI. */
  const ArgRegs: seq<Reg> := [Rdi, Rsi, Rdx, Rcx, R8, R9]

  /** The globals of codegen.c: label_else_number, label_end_number and
      variablemap. */
  datatype Ctx = Ctx(elseNo: int, endNo: int, vars: map<string, int>)

  /** What generating a tree does: the instructions and the globals after
      them, or error() for an assignment to something other than a
      variable, which ends the process. */
  datatype Emission = Emitted(code: seq<Instr>, ctx: Ctx) | NotLvalue

  /** map_get on the variable map: NULL, that is offset 0, for a name it
      does not hold. */
  function Lookup(vars: map<string, int>, name: string): int
  {
    if name in vars then vars[name] else 0
  }

  /** registers_for_args has six entries: a call passes at most six
      arguments and a definition takes at most six parameters. */
  predicate Supported(n: Node)
  {
    match n
    case Num(_) => true
    case Ident(_) => true
    case Assign(l, r) => Supported(l) && Supported(r)
    case Binary(_, l, r) => Supported(l) && Supported(r)
    case If(c, t, a) => Supported(c) && Supported(t) && (a.Some? ==> Supported(a.value))
    case Return(e) => Supported(e)
    case Block(stmts) => forall i :: 0 <= i < |stmts| ==> Supported(stmts[i])
    case Call(_, args) => |args| <= 6 && forall i :: 0 <= i < |args| ==> Supported(args[i])
    case DefFunc(_, params, body, _, _) => |params| <= 6 && Supported(body)
  }

  /** gen_lval (codegen.c:57-68): the address rbp - offset of a variable;
      map_set writes back what map_get read, which adds the name with offset
      0 when the map did not hold it. */
  function Lval(n: Node, c: Ctx): (r: Emission)
    ensures r.NotLvalue? <==> !n.Ident?
    ensures r.Emitted? ==> r.ctx.elseNo == c.elseNo && r.ctx.endNo == c.endNo
  {
    if !n.Ident? then NotLvalue
    else
      var off := Lookup(c.vars, n.name);
      Emitted([MovReg(Rax, Rbp), SubImm(Rax, off), Push(Rax)], c.(vars := c.vars[n.name := off]))
  }

  /** The instructions of each binary operator after its operands are in
      rax (left) and rdi (right) (codegen.c:182-220). */
  function OpCode(op: BinOp): seq<Instr>
  {
    match op
    case Add => [AddReg(Rax, Rdi)]
    case Sub => [SubReg(Rax, Rdi)]
    case Mul => [MulReg(Rdi)]
    case Div => [MovImm(Rdx, 0), DivReg(Rdi)]
    case Eq => [CmpReg(Rax, Rdi), SetCC(E), Movzb]
    case Ne => [CmpReg(Rax, Rdi), SetCC(NE), Movzb]
    case Le => [CmpReg(Rax, Rdi), SetCC(LE), Movzb]
    case Lt => [CmpReg(Rax, Rdi), SetCC(L), Movzb]
  }

  /** Prefixes instructions emitted earlier to what follows them. */
  function After(code: seq<Instr>, r: Emission): Emission
  {
    match r
    case Emitted(rest, c) => Emitted(code + rest, c)
    case NotLvalue => NotLvalue
  }

  /** gen (codegen.c:20-49): what the gen_* function for the node's kind
      emits. */
  function Emit(n: Node, c: Ctx): Emission
    requires Supported(n)
    decreases n, 2
  {
    match n
    case Num(v) => Emitted([PushImm(v)], c)
    case Ident(_) => EmitIdent(n, c)
    case Assign(_, _) => EmitAssign(n, c)
    case If(_, _, _) => EmitIf(n, c)
    case Call(_, _) => EmitCall(n, c)
    case DefFunc(_, _, _, _, _) => EmitDefFunc(n, c)
    case Return(_) => EmitReturn(n, c)
    case Block(_) => EmitBlock(n, 0, c)
    case Binary(_, _, _) => EmitBinary(n, c)
  }

  /** gen_ident (codegen.c:70-77): the address, then a load through it. */
  function EmitIdent(n: Node, c: Ctx): Emission
    requires n.Ident?
  {
    var l := Lval(n, c);
    Emitted(l.code + [Pop(Rax), Load(Rax, Rax), Push(Rax)], l.ctx)
  }

  /** gen_assign (codegen.c:79-88): the address, the value, the store, and
      the value pushed again. */
  function EmitAssign(n: Node, c: Ctx): Emission
    requires n.Assign? && Supported(n)
    decreases n, 1
  {
    match Lval(n.lhs, c)
    case NotLvalue => NotLvalue
    case Emitted(lc, c1) =>
      match Emit(n.rhs, c1)
      case NotLvalue => NotLvalue
      case Emitted(rc, c2) => Emitted(lc + rc + [Pop(Rdi), Pop(Rax), Store(Rax, Rdi), Push(Rdi)], c2)
  }

  /** gen_if (codegen.c:90-119): both counters move on entry, then the
      form with or without an else branch, then rax is pushed. */
  function EmitIf(n: Node, c: Ctx): Emission
    requires n.If? && Supported(n)
    decreases n, 1
  {
    var c0 := c.(elseNo := c.elseNo + 1, endNo := c.endNo + 1);
    match (if n.alt.None? then EmitThen(n, c0) else EmitThenElse(n, c0))
    case NotLvalue => NotLvalue
    case Emitted(code, c1) => Emitted(code + [Push(Rax)], c1)
  }

  /** The branch of gen_if without else (codegen.c:109-115): each label is
      printed with the counter's value at the time it is printed, that is
      after the nested code printed before it. */
  function EmitThen(n: Node, c: Ctx): Emission
    requires n.If? && Supported(n)
    decreases n, 0
  {
    match Emit(n.cond, c)
    case NotLvalue => NotLvalue
    case Emitted(cc, c1) =>
      match Emit(n.conseq, c1)
      case NotLvalue => NotLvalue
      case Emitted(tc, c2) =>
        Emitted(cc + [Pop(Rax), CmpImm(Rax, 0), Je(End(c1.endNo))] + tc + [Mark(End(c2.endNo))], c2)
  }

  /** The branch of gen_if with else (codegen.c:94-106), labels read as in
      `EmitThen`. */
  function EmitThenElse(n: Node, c: Ctx): Emission
    requires n.If? && n.alt.Some? && Supported(n)
    decreases n, 0
  {
    match Emit(n.cond, c)
    case NotLvalue => NotLvalue
    case Emitted(cc, c1) =>
      match Emit(n.conseq, c1)
      case NotLvalue => NotLvalue
      case Emitted(tc, c2) =>
        match Emit(n.alt.value, c2)
        case NotLvalue => NotLvalue
        case Emitted(ec, c3) =>
          Emitted(cc + [Pop(Rax), CmpImm(Rax, 0), Je(Else(c1.elseNo))]
                  + tc + [Jmp(End(c2.endNo)), Mark(Else(c2.elseNo))]
                  + ec + [Mark(End(c3.endNo))], c3)
  }

  /** gen_return (codegen.c:155-163): the value into rax, then the
      epilogue. */
  function EmitReturn(n: Node, c: Ctx): Emission
    requires n.Return? && Supported(n)
    decreases n, 1
  {
    match Emit(n.expr, c)
    case NotLvalue => NotLvalue
    case Emitted(ec, c1) => Emitted(ec + [Pop(Rax), MovReg(Rsp, Rbp), Pop(Rbp), Ret], c1)
  }

  /** gen_funccall (codegen.c:121-130): the arguments, the call, and its
      result pushed. */
  function EmitCall(n: Node, c: Ctx): Emission
    requires n.Call? && Supported(n)
    decreases n, 1
  {
    match EmitArgs(n, |n.args|, c)
    case NotLvalue => NotLvalue
    case Emitted(ac, c1) => Emitted(ac + [CallFn(n.callee), Push(Rax)], c1)
  }

  /** gen_def_func (codegen.c:132-153): the body is generated with the
      definition's own variable map as the current one. */
  function EmitDefFunc(n: Node, c: Ctx): Emission
    requires n.DefFunc? && Supported(n)
    decreases n, 1
  {
    match Emit(n.body, c.(vars := n.vars))
    case NotLvalue => NotLvalue
    case Emitted(bc, c1) =>
      Emitted(Prologue(n.name, n.maxOffset) + ParamStores(n.params, n.vars, 0) + bc + Epilogue(), c1)
  }

  /** gen_binary_operator (codegen.c:175-223): the left operand, the right
      operand, both popped into rax and rdi, the operation, and rax pushed. */
  function EmitBinary(n: Node, c: Ctx): Emission
    requires n.Binary? && Supported(n)
    decreases n, 1
  {
    match Emit(n.lhs, c)
    case NotLvalue => NotLvalue
    case Emitted(lc, c1) =>
      match Emit(n.rhs, c1)
      case NotLvalue => NotLvalue
      case Emitted(rc, c2) => Emitted(lc + rc + [Pop(Rdi), Pop(Rax)] + OpCode(n.op) + [Push(Rax)], c2)
  }

  /** The loop of gen_funccall (codegen.c:122-126) from argument i - 1 down
      to argument 0: each argument's code, then a pop into its register. */
  function EmitArgs(n: Node, i: nat, c: Ctx): Emission
    requires n.Call? && Supported(n) && i <= |n.args|
    decreases n, 0, i
  {
    if i == 0 then Emitted([], c)
    else
      match Emit(n.args[i - 1], c)
      case NotLvalue => NotLvalue
      case Emitted(ac, c1) => After(ac + [Pop(ArgRegs[i - 1])], EmitArgs(n, i - 1, c1))
  }

  /** The loop of gen_block (codegen.c:167-171) from statement i on: each
      statement's code, then a pop of its value. */
  function EmitBlock(n: Node, i: nat, c: Ctx): Emission
    requires n.Block? && Supported(n) && i <= |n.stmts|
    decreases n, 0, |n.stmts| - i
  {
    if i == |n.stmts| then Emitted([], c)
    else
      match Emit(n.stmts[i], c)
      case NotLvalue => NotLvalue
      case Emitted(sc, c1) => After(sc + [Pop(Rax)], EmitBlock(n, i + 1, c1))
  }

  /** The prologue of gen_def_func (codegen.c:134-137). */
  function Prologue(name: string, maxOffset: int): seq<Instr>
  {
    [FuncLabel(name), Push(Rbp), MovReg(Rbp, Rsp), SubImm(Rsp, maxOffset)]
  }

  /** The epilogue of gen_def_func (codegen.c:150-152). */
  function Epilogue(): seq<Instr>
  {
    [MovReg(Rsp, Rbp), Pop(Rbp), Ret]
  }

  /** The loop of gen_def_func (codegen.c:140-146) from parameter i on: the
      store of each parameter's register into its slot rbp - offset. */
  function ParamStores(params: seq<string>, vars: map<string, int>, i: nat): seq<Instr>
    requires |params| <= 6 && i <= |params|
    decreases |params| - i
  {
    if i == |params| then []
    else
      [MovReg(Rax, Rbp), SubImm(Rax, Lookup(vars, params[i])), Store(Rax, ArgRegs[i])]
        + ParamStores(params, vars, i + 1)
  }

  /** The `.global` line of a top-level node prints node->name: the name of
      a definition, a callee or a variable. */
  function NameOf(n: Node): string
  {
    match n
    case DefFunc(name, _, _, _, _) => name
    case Call(name, _) => name
    case Ident(name) => name
    case _ => ""
  }

  /** The loop of codegen (codegen.c:10-17) from node i on: bump the end
      counter, declare the name, generate, pop the value. */
  function EmitProgram(nodes: seq<Node>, i: nat, c: Ctx): Emission
    requires i <= |nodes| && forall k :: 0 <= k < |nodes| ==> Supported(nodes[k])
    decreases |nodes| - i
  {
    if i == |nodes| then Emitted([], c)
    else
      var c0 := c.(endNo := c.endNo + 1);
      match Emit(nodes[i], c0)
      case NotLvalue => NotLvalue
      case Emitted(code, c1) =>
        After([Global(NameOf(nodes[i]))] + code + [Pop(Rax)], EmitProgram(nodes, i + 1, c1))
  }

  /** codegen (codegen.c:8-18): the syntax directive, then every node. */
  function Compile(nodes: seq<Node>, c: Ctx): Emission
    requires forall k :: 0 <= k < |nodes| ==> Supported(nodes[k])
  {
    After([Directive], EmitProgram(nodes, 0, c))
  }

  /** Prefixing code twice is prefixing the two codes at once. */
  lemma AfterAfter(a: seq<Instr>, b: seq<Instr>, r: Emission)
    ensures After(a, After(b, r)) == After(a + b, r)
  {
    if r.Emitted? {
      assert a + (b + r.code) == (a + b) + r.code;
    }
  }

  // ---------------------------------------------------------------------
  // The generator
  // ---------------------------------------------------------------------

  /** The globals of codegen.c and the assembly printed so far. */
  class Generator {
    var out: seq<Instr>
    var labelElse: int
    var labelEnd: int
    var variables: map<string, int>

    function State(): Ctx
      reads this
    {
      Ctx(labelElse, labelEnd, variables)
    }

    /** Both label counters start at 0 (codegen.c:3-4); the variable map
        starts empty. */
    constructor ()
      ensures out == [] && State() == Ctx(0, 0, map[])
    {
      out := [];
      labelElse := 0;
      labelEnd := 0;
      variables := map[];
    }

    /** The generator did what r says, starting from the output `before`: it
        printed r's code and left r's globals, or it stopped at error() and
        reported `ok == false`. */
    ghost predicate Did(r: Emission, before: seq<Instr>, ok: bool)
      reads this
    {
      match r
      case Emitted(code, c) => ok && out == before + code && State() == c
      case NotLvalue => !ok
    }

    /** codegen (codegen.c:8-18). */
    method Codegen(nodes: seq<Node>) returns (ok: bool)
      requires forall k :: 0 <= k < |nodes| ==> Supported(nodes[k])
      modifies this
      ensures Did(Compile(nodes, old(State())), old(out), ok)
    {
      out := out + [Directive];
      ghost var done := [Directive];
      var i := 0;
      while i < |nodes|
        invariant 0 <= i <= |nodes|
        invariant out == old(out) + done
        invariant Compile(nodes, old(State())) == After(done, EmitProgram(nodes, i, State()))
      {
        labelEnd := labelEnd + 1;
        out := out + [Global(NameOf(nodes[i]))];
        ghost var pre := State();
        ghost var mid := out;
        ok := Gen(nodes[i]);
        if !ok {
          return;
        }
        out := out + [Pop(Rax)];
        ghost var code := Emit(nodes[i], pre).code;
        AfterAfter(done, [Global(NameOf(nodes[i]))] + code + [Pop(Rax)], EmitProgram(nodes, i + 1, State()));
        done := done + ([Global(NameOf(nodes[i]))] + code + [Pop(Rax)]);
        i := i + 1;
      }
      ok := true;
    }

    /** gen (codegen.c:20-49): dispatch on the node kind. */
    method Gen(n: Node) returns (ok: bool)
      requires Supported(n)
      modifies this
      ensures Did(Emit(n, old(State())), old(out), ok)
      decreases n, 2
    {
      match n {
        case Num(_) =>
          GenNum(n);
          ok := true;
        case Ident(_) =>
          GenIdent(n);
          ok := true;
        case Assign(_, _) =>
          ok := GenAssign(n);
        case If(_, _, _) =>
          ok := GenIf(n);
        case Call(_, _) =>
          ok := GenFuncCall(n);
        case DefFunc(_, _, _, _, _) =>
          ok := GenDefFunc(n);
        case Return(_) =>
          ok := GenReturn(n);
        case Block(_) =>
          ok := GenBlock(n);
        case Binary(_, _, _) =>
          ok := GenBinaryOperator(n);
      }
    }

    /** gen_num (codegen.c:51-55). */
    method GenNum(n: Node)
      requires n.Num?
      modifies this
      ensures Did(Emit(n, old(State())), old(out), true)
    {
      out := out + [PushImm(n.value)];
    }

    /** gen_lval (codegen.c:57-68). */
    method GenLval(n: Node) returns (ok: bool)
      modifies this
      ensures Did(Lval(n, old(State())), old(out), ok)
    {
      if !n.Ident? {
        return false;
      }
      var offset := Lookup(variables, n.name);
      variables := variables[n.name := offset];
      out := out + [MovReg(Rax, Rbp), SubImm(Rax, offset), Push(Rax)];
      ok := true;
    }

    /** gen_ident (codegen.c:70-77). */
    method GenIdent(n: Node)
      requires n.Ident?
      modifies this
      ensures Did(EmitIdent(n, old(State())), old(out), true)
    {
      var _ := GenLval(n);
      out := out + [Pop(Rax), Load(Rax, Rax), Push(Rax)];
    }

    /** gen_assign (codegen.c:79-88). */
    method GenAssign(n: Node) returns (ok: bool)
      requires n.Assign? && Supported(n)
      modifies this
      ensures Did(EmitAssign(n, old(State())), old(out), ok)
      decreases n, 1
    {
      ok := GenLval(n.lhs);
      if !ok {
        return;
      }
      ok := Gen(n.rhs);
      if !ok {
        return;
      }
      out := out + [Pop(Rdi), Pop(Rax), Store(Rax, Rdi), Push(Rdi)];
    }

    /** gen_if (codegen.c:90-119). */
    method GenIf(n: Node) returns (ok: bool)
      requires n.If? && Supported(n)
      modifies this
      ensures Did(EmitIf(n, old(State())), old(out), ok)
      decreases n, 1
    {
      labelElse := labelElse + 1;
      labelEnd := labelEnd + 1;
      if n.alt.Some? {
        ok := GenThenElse(n);
      } else {
        ok := GenThen(n);
      }
      if !ok {
        return;
      }
      out := out + [Push(Rax)];
    }

    /** gen_if without else (codegen.c:109-115). */
    method GenThen(n: Node) returns (ok: bool)
      requires n.If? && Supported(n)
      modifies this
      ensures Did(EmitThen(n, old(State())), old(out), ok)
      decreases n, 0
    {
      ok := Gen(n.cond);
      if !ok {
        return;
      }
      ghost var cc := Emit(n.cond, old(State())).code;
      ghost var c1 := State();
      out := out + [Pop(Rax), CmpImm(Rax, 0), Je(End(labelEnd))];
      ok := Gen(n.conseq);
      if !ok {
        return;
      }
      ghost var tc := Emit(n.conseq, c1).code;
      out := out + [Mark(End(labelEnd))];
      assert out == old(out) + (cc + [Pop(Rax), CmpImm(Rax, 0), Je(End(c1.endNo))] + tc + [Mark(End(labelEnd))]);
    }

    /** gen_if with else (codegen.c:94-106). */
    method GenThenElse(n: Node) returns (ok: bool)
      requires n.If? && n.alt.Some? && Supported(n)
      modifies this
      ensures Did(EmitThenElse(n, old(State())), old(out), ok)
      decreases n, 0
    {
      ok := Gen(n.cond);
      if !ok {
        return;
      }
      ghost var cc := Emit(n.cond, old(State())).code;
      ghost var c1 := State();
      out := out + [Pop(Rax), CmpImm(Rax, 0), Je(Else(labelElse))];
      ok := Gen(n.conseq);
      if !ok {
        return;
      }
      ghost var tc := Emit(n.conseq, c1).code;
      ghost var c2 := State();
      out := out + [Jmp(End(labelEnd)), Mark(Else(labelElse))];
      ok := Gen(n.alt.value);
      if !ok {
        return;
      }
      ghost var ec := Emit(n.alt.value, c2).code;
      out := out + [Mark(End(labelEnd))];
      assert out == old(out) + (cc + [Pop(Rax), CmpImm(Rax, 0), Je(Else(c1.elseNo))]
                                + tc + [Jmp(End(c2.endNo)), Mark(Else(c2.elseNo))]
                                + ec + [Mark(End(labelEnd))]);
    }

    /** gen_funccall (codegen.c:121-130): the arguments from the last to the
        first, each popped into its argument register. */
    method GenFuncCall(n: Node) returns (ok: bool)
      requires n.Call? && Supported(n)
      modifies this
      ensures Did(EmitCall(n, old(State())), old(out), ok)
      decreases n, 1
    {
      ghost var done: seq<Instr> := [];
      var i := |n.args|;
      while i > 0
        invariant 0 <= i <= |n.args|
        invariant out == old(out) + done
        invariant EmitArgs(n, |n.args|, old(State())) == After(done, EmitArgs(n, i, State()))
      {
        ghost var pre := State();
        ok := Gen(n.args[i - 1]);
        if !ok {
          return;
        }
        out := out + [Pop(ArgRegs[i - 1])];
        ghost var code := Emit(n.args[i - 1], pre).code + [Pop(ArgRegs[i - 1])];
        AfterAfter(done, code, EmitArgs(n, i - 1, State()));
        done := done + code;
        i := i - 1;
      }
      out := out + [CallFn(n.callee), Push(Rax)];
      ok := true;
    }

    /** gen_def_func (codegen.c:132-153): the definition's variable map
        becomes the current one, then the prologue, the parameter stores, the
        body and the epilogue. */
    method GenDefFunc(n: Node) returns (ok: bool)
      requires n.DefFunc? && Supported(n)
      modifies this
      ensures Did(EmitDefFunc(n, old(State())), old(out), ok)
      decreases n, 1
    {
      variables := n.vars;
      out := out + Prologue(n.name, n.maxOffset);
      StoreParams(n.params);
      ok := Gen(n.body);
      if !ok {
        return;
      }
      ghost var bc := Emit(n.body, old(State()).(vars := n.vars)).code;
      out := out + Epilogue();
      assert out == old(out) + (Prologue(n.name, n.maxOffset) + ParamStores(n.params, n.vars, 0) + bc + Epilogue());
    }

    /** The loop of gen_def_func (codegen.c:140-146): each parameter's
        register stored to the parameter's slot. */
    method StoreParams(params: seq<string>)
      requires |params| <= 6
      modifies this
      ensures out == old(out) + ParamStores(params, variables, 0)
      ensures State() == old(State())
    {
      ghost var done: seq<Instr> := [];
      ghost var vars := variables;
      var i := 0;
      while i < |params|
        invariant 0 <= i <= |params|
        invariant State() == old(State()) && variables == vars
        invariant out == old(out) + done
        invariant done + ParamStores(params, vars, i) == ParamStores(params, vars, 0)
      {
        var offset := Lookup(variables, params[i]);
        var step := [MovReg(Rax, Rbp), SubImm(Rax, offset), Store(Rax, ArgRegs[i])];
        assert ParamStores(params, vars, i) == step + ParamStores(params, vars, i + 1);
        assert done + step + ParamStores(params, vars, i + 1) == done + (step + ParamStores(params, vars, i + 1));
        out := out + step;
        done := done + step;
        i := i + 1;
      }
    }

    /** gen_return (codegen.c:155-163). */
    method GenReturn(n: Node) returns (ok: bool)
      requires n.Return? && Supported(n)
      modifies this
      ensures Did(EmitReturn(n, old(State())), old(out), ok)
      decreases n, 1
    {
      ok := Gen(n.expr);
      if !ok {
        return;
      }
      out := out + [Pop(Rax), MovReg(Rsp, Rbp), Pop(Rbp), Ret];
    }

    /** gen_block (codegen.c:165-173): each statement, then a pop of its
        value. */
    method GenBlock(n: Node) returns (ok: bool)
      requires n.Block? && Supported(n)
      modifies this
      ensures Did(EmitBlock(n, 0, old(State())), old(out), ok)
      decreases n, 1
    {
      ghost var done: seq<Instr> := [];
      var i := 0;
      while i < |n.stmts|
        invariant 0 <= i <= |n.stmts|
        invariant out == old(out) + done
        invariant EmitBlock(n, 0, old(State())) == After(done, EmitBlock(n, i, State()))
      {
        ghost var pre := State();
        ok := Gen(n.stmts[i]);
        if !ok {
          return;
        }
        out := out + [Pop(Rax)];
        ghost var code := Emit(n.stmts[i], pre).code + [Pop(Rax)];
        AfterAfter(done, code, EmitBlock(n, i + 1, State()));
        done := done + code;
        i := i + 1;
      }
      ok := true;
    }

    /** gen_binary_operator (codegen.c:175-223). */
    method GenBinaryOperator(n: Node) returns (ok: bool)
      requires n.Binary? && Supported(n)
      modifies this
      ensures Did(EmitBinary(n, old(State())), old(out), ok)
      decreases n, 1
    {
      ok := Gen(n.lhs);
      if !ok {
        return;
      }
      ghost var lc := Emit(n.lhs, old(State())).code;
      ok := Gen(n.rhs);
      if !ok {
        return;
      }
      ghost var rc := Emit(n.rhs, Emit(n.lhs, old(State())).ctx).code;
      out := out + [Pop(Rdi), Pop(Rax)];
      Operation(n.op);
      out := out + [Push(Rax)];
      assert out == old(out) + (lc + rc + [Pop(Rdi), Pop(Rax)] + OpCode(n.op) + [Push(Rax)]);
    }

    /** The switch of gen_binary_operator (codegen.c:182-220). */
    method Operation(op: BinOp)
      modifies this
      ensures out == old(out) + OpCode(op) && State() == old(State())
    {
      match op {
        case Add => out := out + [AddReg(Rax, Rdi)];
        case Sub => out := out + [SubReg(Rax, Rdi)];
        case Mul => out := out + [MulReg(Rdi)];
        case Div => out := out + [MovImm(Rdx, 0), DivReg(Rdi)];
        case Eq => out := out + [CmpReg(Rax, Rdi), SetCC(E), Movzb];
        case Ne => out := out + [CmpReg(Rax, Rdi), SetCC(NE), Movzb];
        case Le => out := out + [CmpReg(Rax, Rdi), SetCC(LE), Movzb];
        case Lt => out := out + [CmpReg(Rax, Rdi), SetCC(L), Movzb];
      }
    }
  }
}
