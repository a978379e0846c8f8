/**
 * Properties of the code generator, stated on the specification `Emit` that
 * the methods of `Generator` are proved to follow: when generation reaches
 * error(), the stack effect of the emitted code, what the label counters do,
 * and when the labels of the emitted code are well formed.
 */
module CodeGenProps {
  import opened Ast
  import opened CodeGen

  // ---------------------------------------------------------------------
  // When generation reaches error()
  // ---------------------------------------------------------------------

  /** Every assignment in the tree has a variable on its left. */
  predicate Assignable(n: Node)
  {
    match n
    case Num(_) => true
    case Ident(_) => true
    case Assign(l, r) => l.Ident? && Assignable(r)
    case Binary(_, l, r) => Assignable(l) && Assignable(r)
    case If(c, t, a) => Assignable(c) && Assignable(t) && (a.Some? ==> Assignable(a.value))
    case Return(e) => Assignable(e)
    case Block(stmts) => forall i :: 0 <= i < |stmts| ==> Assignable(stmts[i])
    case Call(_, args) => forall i :: 0 <= i < |args| ==> Assignable(args[i])
    case DefFunc(_, _, body, _, _) => Assignable(body)
  }

  /** gen_lval's error() (codegen.c:58-59) is reached exactly when some
      assignment of the tree has something other than a variable on its
      left, whatever the state of the globals. */
  lemma {:induction false} EmittedIff(n: Node, c: Ctx)
    requires Supported(n)
    ensures Emit(n, c).Emitted? <==> Assignable(n)
    decreases n, 2
  {
    match n
    case Num(_) =>
    case Ident(_) =>
    case Assign(l, r) =>
      if l.Ident? {
        EmittedIff(r, Lval(l, c).ctx);
      }
    case Binary(_, l, r) =>
      EmittedIff(l, c);
      if Emit(l, c).Emitted? {
        EmittedIff(r, Emit(l, c).ctx);
      }
    case If(_, _, _) =>
      IfEmittedIff(n, c);
    case Return(e) =>
      EmittedIff(e, c);
    case Block(stmts) =>
      BlockEmittedIff(n, 0, c);
    case Call(_, args) =>
      ArgsEmittedIff(n, |args|, c);
    case DefFunc(_, _, body, vars, _) =>
      EmittedIff(body, c.(vars := vars));
  }

  lemma {:induction false} IfEmittedIff(n: Node, c: Ctx)
    requires n.If? && Supported(n)
    ensures EmitIf(n, c).Emitted? <==> Assignable(n)
    decreases n, 1
  {
    var c0 := c.(elseNo := c.elseNo + 1, endNo := c.endNo + 1);
    EmittedIff(n.cond, c0);
    if Emit(n.cond, c0).Emitted? {
      var c1 := Emit(n.cond, c0).ctx;
      EmittedIff(n.conseq, c1);
      if n.alt.Some? && Emit(n.conseq, c1).Emitted? {
        EmittedIff(n.alt.value, Emit(n.conseq, c1).ctx);
      }
    }
  }

  lemma {:induction false} ArgsEmittedIff(n: Node, i: nat, c: Ctx)
    requires n.Call? && Supported(n) && i <= |n.args|
    ensures EmitArgs(n, i, c).Emitted? <==> forall j :: 0 <= j < i ==> Assignable(n.args[j])
    decreases n, 0, i
  {
    if i > 0 {
      EmittedIff(n.args[i - 1], c);
      if Emit(n.args[i - 1], c).Emitted? {
        ArgsEmittedIff(n, i - 1, Emit(n.args[i - 1], c).ctx);
      }
    }
  }

  lemma {:induction false} BlockEmittedIff(n: Node, i: nat, c: Ctx)
    requires n.Block? && Supported(n) && i <= |n.stmts|
    ensures EmitBlock(n, i, c).Emitted? <==> forall j :: i <= j < |n.stmts| ==> Assignable(n.stmts[j])
    decreases n, 0, |n.stmts| - i
  {
    if i < |n.stmts| {
      EmittedIff(n.stmts[i], c);
      if Emit(n.stmts[i], c).Emitted? {
        BlockEmittedIff(n, i + 1, Emit(n.stmts[i], c).ctx);
      }
    }
  }

  // ---------------------------------------------------------------------
  // Stack effect
  // ---------------------------------------------------------------------

  /** What one instruction does to the depth of the stack. */
  function Delta(i: Instr): int
  {
    match i
    case PushImm(_) => 1
    case Push(_) => 1
    case Pop(_) => -1
    case _ => 0
  }

  /** The net number of pushes of a piece of code. */
  function Net(code: seq<Instr>): int
  {
    if code == [] then 0 else Delta(code[0]) + Net(code[1..])
  }

  lemma {:induction false} NetAppend(a: seq<Instr>, b: seq<Instr>)
    ensures Net(a + b) == Net(a) + Net(b)
    decreases |a|
  {
    if a == [] {
      assert a + b == b;
    } else {
      assert (a + b)[0] == a[0];
      assert (a + b)[1..] == a[1..] + b;
      NetAppend(a[1..], b);
    }
  }

  lemma Net1(x: Instr)
    ensures Net([x]) == Delta(x)
  {
    assert [x][1..] == [];
  }

  lemma Net2(x: Instr, y: Instr)
    ensures Net([x, y]) == Delta(x) + Delta(y)
  {
    assert [x, y][1..] == [y];
    Net1(y);
  }

  lemma Net3(x: Instr, y: Instr, z: Instr)
    ensures Net([x, y, z]) == Delta(x) + Delta(y) + Delta(z)
  {
    assert [x, y, z][1..] == [y, z];
    Net2(y, z);
  }

  lemma Net4(w: Instr, x: Instr, y: Instr, z: Instr)
    ensures Net([w, x, y, z]) == Delta(w) + Delta(x) + Delta(y) + Delta(z)
  {
    assert [w, x, y, z][1..] == [x, y, z];
    Net3(x, y, z);
  }

  /** The push/pop count of a tree's listing, computed on the tree: a value
      is pushed by numbers, variables, assignments, operators and calls, and
      each statement of a block is popped again.  For straight-line code
      (see `Value`) this is how far a run moves the stack; for gen_if it
      adds up both branches of the listing, of which a run takes one (see
      `IfThenRuns` and `IfElseRuns`), and for gen_return and
      gen_def_func it leaves out the reset of rsp to rbp. */
  function Effect(n: Node): int
    decreases n, 1
  {
    match n
    case Num(_) => 1
    case Ident(_) => 1
    case Assign(_, r) => Effect(r)
    case Binary(_, l, r) => Effect(l) + Effect(r) - 1
    case If(c, t, a) => Effect(c) + Effect(t) + (if a.Some? then Effect(a.value) else 0)
    case Return(e) => Effect(e) - 2
    case Block(stmts) => BlockEffect(n, 0)
    case Call(_, args) => ArgsEffect(n, |args|) + 1
    case DefFunc(_, _, body, _, _) => Effect(body)
  }

  function ArgsEffect(n: Node, i: nat): int
    requires n.Call? && i <= |n.args|
    decreases n, 0, i
  {
    if i == 0 then 0 else Effect(n.args[i - 1]) - 1 + ArgsEffect(n, i - 1)
  }

  function BlockEffect(n: Node, i: nat): int
    requires n.Block? && i <= |n.stmts|
    decreases n, 0, |n.stmts| - i
  {
    if i == |n.stmts| then 0 else Effect(n.stmts[i]) - 1 + BlockEffect(n, i + 1)
  }

  /** The listing emitted for a tree has the push/pop count `Effect` of the
      tree. */
  lemma {:induction false} EmitNet(n: Node, c: Ctx)
    requires Supported(n) && Emit(n, c).Emitted?
    ensures Net(Emit(n, c).code) == Effect(n)
    decreases n, 2
  {
    match n
    case Num(v) =>
      Net1(PushImm(v));
    case Ident(_) =>
      IdentNet(n, c);
    case Assign(_, _) =>
      AssignNet(n, c);
    case Binary(_, _, _) =>
      BinaryNet(n, c);
    case If(_, _, _) =>
      IfNet(n, c);
    case Return(_) =>
      ReturnNet(n, c);
    case Block(_) =>
      BlockNet(n, 0, c);
    case Call(_, _) =>
      CallNet(n, c);
    case DefFunc(_, _, _, _, _) =>
      DefFuncNet(n, c);
  }

  lemma LvalNet(n: Node, c: Ctx)
    requires n.Ident?
    ensures Net(Lval(n, c).code) == 1
  {
    Net3(MovReg(Rax, Rbp), SubImm(Rax, Lookup(c.vars, n.name)), Push(Rax));
  }

  lemma IdentNet(n: Node, c: Ctx)
    requires n.Ident?
    ensures Net(EmitIdent(n, c).code) == 1
  {
    LvalNet(n, c);
    NetAppend(Lval(n, c).code, [Pop(Rax), Load(Rax, Rax), Push(Rax)]);
  }

  lemma {:induction false} AssignNet(n: Node, c: Ctx)
    requires n.Assign? && Supported(n) && EmitAssign(n, c).Emitted?
    ensures Net(EmitAssign(n, c).code) == Effect(n)
    decreases n, 1
  {
    var lc := Lval(n.lhs, c).code;
    var c1 := Lval(n.lhs, c).ctx;
    LvalNet(n.lhs, c);
    EmitNet(n.rhs, c1);
    NetAppend(lc, Emit(n.rhs, c1).code);
    NetAppend(lc + Emit(n.rhs, c1).code, [Pop(Rdi), Pop(Rax), Store(Rax, Rdi), Push(Rdi)]);
  }

  lemma OpCodeNet(op: BinOp)
    ensures Net(OpCode(op)) == 0
  {
    match op
    case Add => Net1(AddReg(Rax, Rdi));
    case Sub => Net1(SubReg(Rax, Rdi));
    case Mul => Net1(MulReg(Rdi));
    case Div => Net2(MovImm(Rdx, 0), DivReg(Rdi));
    case Eq => Net3(CmpReg(Rax, Rdi), SetCC(E), Movzb);
    case Ne => Net3(CmpReg(Rax, Rdi), SetCC(NE), Movzb);
    case Le => Net3(CmpReg(Rax, Rdi), SetCC(LE), Movzb);
    case Lt => Net3(CmpReg(Rax, Rdi), SetCC(L), Movzb);
  }

  lemma {:induction false} BinaryNet(n: Node, c: Ctx)
    requires n.Binary? && Supported(n) && EmitBinary(n, c).Emitted?
    ensures Net(EmitBinary(n, c).code) == Effect(n)
    decreases n, 1
  {
    var lc := Emit(n.lhs, c).code;
    var c1 := Emit(n.lhs, c).ctx;
    var rc := Emit(n.rhs, c1).code;
    EmitNet(n.lhs, c);
    EmitNet(n.rhs, c1);
    OpCodeNet(n.op);
    NetAppend(lc, rc);
    NetAppend(lc + rc, [Pop(Rdi), Pop(Rax)]);
    NetAppend(lc + rc + [Pop(Rdi), Pop(Rax)], OpCode(n.op));
    NetAppend(lc + rc + [Pop(Rdi), Pop(Rax)] + OpCode(n.op), [Push(Rax)]);
  }

  lemma {:induction false} ReturnNet(n: Node, c: Ctx)
    requires n.Return? && Supported(n) && EmitReturn(n, c).Emitted?
    ensures Net(EmitReturn(n, c).code) == Effect(n)
    decreases n, 1
  {
    EmitNet(n.expr, c);
    NetAppend(Emit(n.expr, c).code, [Pop(Rax), MovReg(Rsp, Rbp), Pop(Rbp), Ret]);
  }

  lemma {:induction false} CallNet(n: Node, c: Ctx)
    requires n.Call? && Supported(n) && EmitCall(n, c).Emitted?
    ensures Net(EmitCall(n, c).code) == Effect(n)
    decreases n, 1
  {
    ArgsNet(n, |n.args|, c);
    Net2(CallFn(n.callee), Push(Rax));
    NetAppend(EmitArgs(n, |n.args|, c).code, [CallFn(n.callee), Push(Rax)]);
  }

  lemma {:induction false} DefFuncNet(n: Node, c: Ctx)
    requires n.DefFunc? && Supported(n) && EmitDefFunc(n, c).Emitted?
    ensures Net(EmitDefFunc(n, c).code) == Effect(n)
    decreases n, 1
  {
    var pro := Prologue(n.name, n.maxOffset);
    var ps := ParamStores(n.params, n.vars, 0);
    var bc := Emit(n.body, c.(vars := n.vars)).code;
    EmitNet(n.body, c.(vars := n.vars));
    Net4(FuncLabel(n.name), Push(Rbp), MovReg(Rbp, Rsp), SubImm(Rsp, n.maxOffset));
    ParamStoresNet(n.params, n.vars, 0);
    NetAppend(pro, ps);
    NetAppend(pro + ps, bc);
    NetAppend(pro + ps + bc, Epilogue());
  }

  lemma {:induction false} ParamStoresNet(params: seq<string>, vars: map<string, int>, i: nat)
    requires |params| <= 6 && i <= |params|
    ensures Net(ParamStores(params, vars, i)) == 0
    decreases |params| - i
  {
    if i < |params| {
      var store := [MovReg(Rax, Rbp), SubImm(Rax, Lookup(vars, params[i])), Store(Rax, ArgRegs[i])];
      Net3(store[0], store[1], store[2]);
      ParamStoresNet(params, vars, i + 1);
      NetAppend(store, ParamStores(params, vars, i + 1));
    }
  }

  lemma {:induction false} IfNet(n: Node, c: Ctx)
    requires n.If? && Supported(n) && EmitIf(n, c).Emitted?
    ensures Net(EmitIf(n, c).code) == Effect(n)
    decreases n, 1
  {
    var c0 := c.(elseNo := c.elseNo + 1, endNo := c.endNo + 1);
    var r := if n.alt.None? then EmitThen(n, c0) else EmitThenElse(n, c0);
    if n.alt.None? {
      ThenNet(n, c0);
    } else {
      ThenElseNet(n, c0);
    }
    NetAppend(r.code, [Push(Rax)]);
  }

  lemma {:induction false} ThenNet(n: Node, c: Ctx)
    requires n.If? && Supported(n) && EmitThen(n, c).Emitted?
    ensures Net(EmitThen(n, c).code) == Effect(n.cond) + Effect(n.conseq) - 1
    decreases n, 0
  {
    var cc := Emit(n.cond, c).code;
    var c1 := Emit(n.cond, c).ctx;
    var tc := Emit(n.conseq, c1).code;
    var c2 := Emit(n.conseq, c1).ctx;
    var test := [Pop(Rax), CmpImm(Rax, 0), Je(End(c1.endNo))];
    EmitNet(n.cond, c);
    EmitNet(n.conseq, c1);
    Net3(test[0], test[1], test[2]);
    Net1(Mark(End(c2.endNo)));
    NetAppend(cc, test);
    NetAppend(cc + test, tc);
    NetAppend(cc + test + tc, [Mark(End(c2.endNo))]);
  }

  lemma {:induction false} ThenElseNet(n: Node, c: Ctx)
    requires n.If? && n.alt.Some? && Supported(n) && EmitThenElse(n, c).Emitted?
    ensures Net(EmitThenElse(n, c).code) == Effect(n.cond) + Effect(n.conseq) + Effect(n.alt.value) - 1
    decreases n, 0
  {
    var cc := Emit(n.cond, c).code;
    var c1 := Emit(n.cond, c).ctx;
    var tc := Emit(n.conseq, c1).code;
    var c2 := Emit(n.conseq, c1).ctx;
    var ec := Emit(n.alt.value, c2).code;
    var c3 := Emit(n.alt.value, c2).ctx;
    var test := [Pop(Rax), CmpImm(Rax, 0), Je(Else(c1.elseNo))];
    var skip := [Jmp(End(c2.endNo)), Mark(Else(c2.elseNo))];
    EmitNet(n.cond, c);
    EmitNet(n.conseq, c1);
    EmitNet(n.alt.value, c2);
    Net3(test[0], test[1], test[2]);
    Net2(skip[0], skip[1]);
    Net1(Mark(End(c3.endNo)));
    NetAppend(cc, test);
    NetAppend(cc + test, tc);
    NetAppend(cc + test + tc, skip);
    NetAppend(cc + test + tc + skip, ec);
    NetAppend(cc + test + tc + skip + ec, [Mark(End(c3.endNo))]);
  }

  /** The two runs through gen_if without else (codegen.c:108-117).  When
      the condition is nonzero the then code runs: the condition's value is
      popped, the branch's effect added, and rax pushed.  When it is zero,
      je skips the then code and lands on the end label, so only the
      condition's effect, its pop and the push of rax count.  (With no if
      nested in the condition or branch the je target is that end label,
      see `FlatIfLabels`.) */
  lemma IfThenRuns(n: Node, c: Ctx)
    requires n.If? && n.alt.None? && Supported(n) && Emit(n, c).Emitted?
    ensures var r1 := Emit(n.cond, Bump(c));
            r1.Emitted? && Emit(n.conseq, r1.ctx).Emitted?
            && var r2 := Emit(n.conseq, r1.ctx);
               var test := [Pop(Rax), CmpImm(Rax, 0), Je(End(r1.ctx.endNo))];
               var join := [Mark(End(r2.ctx.endNo)), Push(Rax)];
               && Emit(n, c).code == r1.code + test + r2.code + join
               && Net(r1.code + test + r2.code + join) == Effect(n.cond) - 1 + Effect(n.conseq) + 1
               && Net(r1.code + test + join) == Effect(n.cond) - 1 + 1
  {
    assert Emit(n, c) == EmitIf(n, c);
    assert EmitThen(n, Bump(c)).Emitted?;
    var r1 := Emit(n.cond, Bump(c));
    var r2 := Emit(n.conseq, r1.ctx);
    var test := [Pop(Rax), CmpImm(Rax, 0), Je(End(r1.ctx.endNo))];
    var join := [Mark(End(r2.ctx.endNo)), Push(Rax)];
    assert Emit(n, c).code == r1.code + test + r2.code + join;
    EmitNet(n.cond, Bump(c));
    EmitNet(n.conseq, r1.ctx);
    Net3(test[0], test[1], test[2]);
    Net2(join[0], join[1]);
    NetAppend(r1.code, test);
    NetAppend(r1.code + test, r2.code);
    NetAppend(r1.code + test + r2.code, join);
    NetAppend(r1.code + test, join);
  }

  /** The two runs through gen_if with an else branch (codegen.c:93-107,
      117).  Through the then branch, jmp passes over the else code to the
      end label; through the else branch, je passes over the then code and
      its jmp to the else label.  Either way the stack moves by the
      condition's effect, minus its popped value, plus the branch taken,
      plus the push of rax. */
  lemma IfElseRuns(n: Node, c: Ctx)
    requires n.If? && n.alt.Some? && Supported(n) && Emit(n, c).Emitted?
    ensures var r1 := Emit(n.cond, Bump(c));
            r1.Emitted? && Emit(n.conseq, r1.ctx).Emitted?
            && var r2 := Emit(n.conseq, r1.ctx);
               Emit(n.alt.value, r2.ctx).Emitted?
               && var r3 := Emit(n.alt.value, r2.ctx);
                  var test := [Pop(Rax), CmpImm(Rax, 0), Je(Else(r1.ctx.elseNo))];
                  var jump := [Jmp(End(r2.ctx.endNo))];
                  var other := [Mark(Else(r2.ctx.elseNo))];
                  var join := [Mark(End(r3.ctx.endNo)), Push(Rax)];
                  && Emit(n, c).code == r1.code + test + r2.code + jump + other + r3.code + join
                  && Net(r1.code + test + r2.code + jump + join) == Effect(n.cond) - 1 + Effect(n.conseq) + 1
                  && Net(r1.code + test + other + r3.code + join) == Effect(n.cond) - 1 + Effect(n.alt.value) + 1
  {
    assert Emit(n, c) == EmitIf(n, c);
    assert EmitThenElse(n, Bump(c)).Emitted?;
    var r1 := Emit(n.cond, Bump(c));
    var r2 := Emit(n.conseq, r1.ctx);
    var r3 := Emit(n.alt.value, r2.ctx);
    var test := [Pop(Rax), CmpImm(Rax, 0), Je(Else(r1.ctx.elseNo))];
    var jump := [Jmp(End(r2.ctx.endNo))];
    var other := [Mark(Else(r2.ctx.elseNo))];
    var join := [Mark(End(r3.ctx.endNo)), Push(Rax)];
    assert Emit(n, c).code == r1.code + test + r2.code + jump + other + r3.code + join;
    EmitNet(n.cond, Bump(c));
    EmitNet(n.conseq, r1.ctx);
    EmitNet(n.alt.value, r2.ctx);
    Net3(test[0], test[1], test[2]);
    Net1(jump[0]);
    Net1(other[0]);
    Net2(join[0], join[1]);
    NetAppend(r1.code, test);
    NetAppend(r1.code + test, r2.code);
    NetAppend(r1.code + test + r2.code, jump);
    NetAppend(r1.code + test + r2.code + jump, join);
    NetAppend(r1.code + test, other);
    NetAppend(r1.code + test + other, r3.code);
    NetAppend(r1.code + test + other + r3.code, join);
  }

  lemma {:induction false} ArgsNet(n: Node, i: nat, c: Ctx)
    requires n.Call? && Supported(n) && i <= |n.args| && EmitArgs(n, i, c).Emitted?
    ensures Net(EmitArgs(n, i, c).code) == ArgsEffect(n, i)
    decreases n, 0, i
  {
    if i > 0 {
      var a := n.args[i - 1];
      EmitNet(a, c);
      var c1 := Emit(a, c).ctx;
      ArgsNet(n, i - 1, c1);
      Net1(Pop(ArgRegs[i - 1]));
      NetAppend(Emit(a, c).code, [Pop(ArgRegs[i - 1])]);
      NetAppend(Emit(a, c).code + [Pop(ArgRegs[i - 1])], EmitArgs(n, i - 1, c1).code);
    }
  }

  lemma {:induction false} BlockNet(n: Node, i: nat, c: Ctx)
    requires n.Block? && Supported(n) && i <= |n.stmts| && EmitBlock(n, i, c).Emitted?
    ensures Net(EmitBlock(n, i, c).code) == BlockEffect(n, i)
    decreases n, 0, |n.stmts| - i
  {
    if i < |n.stmts| {
      var s := n.stmts[i];
      EmitNet(s, c);
      var c1 := Emit(s, c).ctx;
      BlockNet(n, i + 1, c1);
      NetAppend(Emit(s, c).code, [Pop(Rax)]);
      NetAppend(Emit(s, c).code + [Pop(Rax)], EmitBlock(n, i + 1, c1).code);
    }
  }

  /** The trees whose code pushes exactly one value: numbers, variables,
      assignments to a variable, binary operators and calls over such
      trees. */
  predicate Value(n: Node)
  {
    match n
    case Num(_) => true
    case Ident(_) => true
    case Assign(l, r) => l.Ident? && Value(r)
    case Binary(_, l, r) => Value(l) && Value(r)
    case Call(_, args) => forall i :: 0 <= i < |args| ==> Value(args[i])
    case _ => false
  }

  lemma {:induction false} ValueEffect(n: Node)
    requires Value(n)
    ensures Effect(n) == 1 && Assignable(n)
    decreases n, 1
  {
    match n
    case Num(_) =>
    case Ident(_) =>
    case Assign(_, r) => ValueEffect(r);
    case Binary(_, l, r) => ValueEffect(l); ValueEffect(r);
    case Call(_, args) => ValueArgs(n, |args|);
  }

  lemma {:induction false} ValueArgs(n: Node, i: nat)
    requires n.Call? && Value(n) && i <= |n.args|
    ensures ArgsEffect(n, i) == 0 && forall j :: 0 <= j < i ==> Assignable(n.args[j])
    decreases n, 0, i
  {
    if i > 0 {
      ValueEffect(n.args[i - 1]);
      ValueArgs(n, i - 1);
    }
  }

  /** Numbers, variables, assignments, calls and binary operators over
      such trees never reach error() and their code pushes exactly one value
      more than it pops (codegen.c:51-88, 121-130, 175-223). */
  lemma ValuePushesOne(n: Node, c: Ctx)
    requires Supported(n) && Value(n)
    ensures Emit(n, c).Emitted? && Net(Emit(n, c).code) == 1
  {
    ValueEffect(n);
    EmittedIff(n, c);
    EmitNet(n, c);
  }

  /** A block of such statements leaves the stack as it found it: each
      statement's value is popped (codegen.c:165-173). */
  lemma BlockOfValuesBalanced(n: Node, c: Ctx)
    requires n.Block? && Supported(n) && forall i :: 0 <= i < |n.stmts| ==> Value(n.stmts[i])
    ensures Emit(n, c).Emitted? && Net(Emit(n, c).code) == 0
  {
    BlockValues(n, 0);
    EmittedIff(n, c);
    EmitNet(n, c);
  }

  lemma {:induction false} BlockValues(n: Node, i: nat)
    requires n.Block? && i <= |n.stmts| && forall j :: 0 <= j < |n.stmts| ==> Value(n.stmts[j])
    ensures BlockEffect(n, i) == 0 && forall j :: i <= j < |n.stmts| ==> Assignable(n.stmts[j])
    decreases |n.stmts| - i
  {
    if i < |n.stmts| {
      ValueEffect(n.stmts[i]);
      BlockValues(n, i + 1);
    }
  }

  // ---------------------------------------------------------------------
  // Label counters and labels
  // ---------------------------------------------------------------------

  /** The number of if nodes in a tree. */
  function Ifs(n: Node): nat
    decreases n, 1
  {
    match n
    case Num(_) => 0
    case Ident(_) => 0
    case Assign(l, r) => Ifs(l) + Ifs(r)
    case Binary(_, l, r) => Ifs(l) + Ifs(r)
    case If(c, t, a) => 1 + Ifs(c) + Ifs(t) + (if a.Some? then Ifs(a.value) else 0)
    case Return(e) => Ifs(e)
    case Block(_) => BlockIfs(n, 0)
    case Call(_, args) => ArgsIfs(n, |args|)
    case DefFunc(_, _, body, _, _) => Ifs(body)
  }

  function ArgsIfs(n: Node, i: nat): nat
    requires n.Call? && i <= |n.args|
    decreases n, 0, i
  {
    if i == 0 then 0 else Ifs(n.args[i - 1]) + ArgsIfs(n, i - 1)
  }

  function BlockIfs(n: Node, i: nat): nat
    requires n.Block? && i <= |n.stmts|
    decreases n, 0, |n.stmts| - i
  {
    if i == |n.stmts| then 0 else Ifs(n.stmts[i]) + BlockIfs(n, i + 1)
  }

  /** The labels an instruction defines and the labels it jumps to. */
  function MarkOf(i: Instr): seq<Label>
  {
    if i.Mark? then [i.lbl] else []
  }

  function TargetOf(i: Instr): seq<Label>
  {
    if i.Jmp? || i.Je? then [i.target] else []
  }

  /** What `f` reads off each instruction of the code, in order. */
  function Gather(f: Instr -> seq<Label>, code: seq<Instr>): seq<Label>
  {
    if code == [] then [] else f(code[0]) + Gather(f, code[1..])
  }

  function Marks(code: seq<Instr>): seq<Label> { Gather(MarkOf, code) }

  function Targets(code: seq<Instr>): seq<Label> { Gather(TargetOf, code) }

  lemma {:induction false} GatherAppend(f: Instr -> seq<Label>, a: seq<Instr>, b: seq<Instr>)
    ensures Gather(f, a + b) == Gather(f, a) + Gather(f, b)
    decreases |a|
  {
    if a == [] {
      assert a + b == b;
    } else {
      assert (a + b)[0] == a[0];
      assert (a + b)[1..] == a[1..] + b;
      GatherAppend(f, a[1..], b);
    }
  }

  lemma Gather1(f: Instr -> seq<Label>, x: Instr)
    ensures Gather(f, [x]) == f(x)
  {
    assert [x][1..] == [];
  }

  lemma Gather2(f: Instr -> seq<Label>, x: Instr, y: Instr)
    ensures Gather(f, [x, y]) == f(x) + f(y)
  {
    assert [x, y][1..] == [y];
    Gather1(f, y);
  }

  lemma Gather3(f: Instr -> seq<Label>, x: Instr, y: Instr, z: Instr)
    ensures Gather(f, [x, y, z]) == f(x) + f(y) + f(z)
  {
    assert [x, y, z][1..] == [y, z];
    Gather2(f, y, z);
  }

  lemma Gather4(f: Instr -> seq<Label>, w: Instr, x: Instr, y: Instr, z: Instr)
    ensures Gather(f, [w, x, y, z]) == f(w) + f(x) + f(y) + f(z)
  {
    assert [w, x, y, z][1..] == [x, y, z];
    Gather3(f, x, y, z);
  }

  /** Code in which no instruction defines or jumps to a label. */
  lemma {:induction false} Unlabelled(code: seq<Instr>)
    requires forall i :: 0 <= i < |code| ==> !code[i].Mark? && !code[i].Jmp? && !code[i].Je?
    ensures Marks(code) == [] && Targets(code) == []
    decreases |code|
  {
    if code != [] {
      Unlabelled(code[1..]);
    }
  }

  lemma LabelsAppend(a: seq<Instr>, b: seq<Instr>)
    ensures Marks(a + b) == Marks(a) + Marks(b)
    ensures Targets(a + b) == Targets(a) + Targets(b)
  {
    GatherAppend(MarkOf, a, b);
    GatherAppend(TargetOf, a, b);
  }

  /** The counters as gen_if leaves them on entry. */
  function Bump(c: Ctx): Ctx
  {
    c.(elseNo := c.elseNo + 1, endNo := c.endNo + 1)
  }

  /** Both counters moved on by k from c to d. */
  predicate Counted(c: Ctx, d: Ctx, k: int)
  {
    d.elseNo == c.elseNo + k && d.endNo == c.endNo + k
  }

  /** The label's number is one the matching counter took after c, up to d. */
  predicate InRange(l: Label, c: Ctx, d: Ctx)
  {
    match l
    case Else(k) => c.elseNo < k <= d.elseNo
    case End(k) => c.endNo < k <= d.endNo
  }

  predicate Within(ls: seq<Label>, c: Ctx, d: Ctx)
  {
    forall i :: 0 <= i < |ls| ==> InRange(ls[i], c, d)
  }

  /** Every label the code defines or jumps to is numbered within (c, d]. */
  predicate Labelled(code: seq<Instr>, c: Ctx, d: Ctx)
  {
    Within(Marks(code), c, d) && Within(Targets(code), c, d)
  }

  lemma LabelledAppend(a: seq<Instr>, b: seq<Instr>, c: Ctx, d: Ctx)
    requires Labelled(a, c, d) && Labelled(b, c, d)
    ensures Labelled(a + b, c, d)
  {
    LabelsAppend(a, b);
  }

  lemma Widen(code: seq<Instr>, c: Ctx, d: Ctx, c': Ctx, d': Ctx)
    requires Labelled(code, c, d)
    requires c'.elseNo <= c.elseNo && c'.endNo <= c.endNo
    requires d.elseNo <= d'.elseNo && d.endNo <= d'.endNo
    ensures Labelled(code, c', d')
  {
    assert forall l :: InRange(l, c, d) ==> InRange(l, c', d');
  }

  lemma OpCodeUnlabelled(op: BinOp)
    ensures Marks(OpCode(op)) == [] && Targets(OpCode(op)) == []
  {
    Unlabelled(OpCode(op));
  }

  lemma {:induction false} ParamStoresUnlabelled(params: seq<string>, vars: map<string, int>, i: nat)
    requires |params| <= 6 && i <= |params|
    ensures Marks(ParamStores(params, vars, i)) == [] && Targets(ParamStores(params, vars, i)) == []
    decreases |params| - i
  {
    if i < |params| {
      var store := [MovReg(Rax, Rbp), SubImm(Rax, Lookup(vars, params[i])), Store(Rax, ArgRegs[i])];
      Unlabelled(store);
      ParamStoresUnlabelled(params, vars, i + 1);
      LabelsAppend(store, ParamStores(params, vars, i + 1));
    }
  }

  /** Each if node moves both counters on by one, and every label the code
      of a tree defines or jumps to carries a number the counters took
      while it was generated (codegen.c:91-92). */
  lemma {:induction false} EmitLabels(n: Node, c: Ctx)
    requires Supported(n) && Emit(n, c).Emitted?
    ensures Counted(c, Emit(n, c).ctx, Ifs(n)) && Labelled(Emit(n, c).code, c, Emit(n, c).ctx)
    decreases n, 2
  {
    match n
    case Num(_) =>
      Unlabelled(Emit(n, c).code);
    case Ident(_) =>
      Unlabelled(Lval(n, c).code);
      Unlabelled([Pop(Rax), Load(Rax, Rax), Push(Rax)]);
      LabelsAppend(Lval(n, c).code, [Pop(Rax), Load(Rax, Rax), Push(Rax)]);
    case Assign(_, _) =>
      AssignLabels(n, c);
    case Binary(_, _, _) =>
      BinaryLabels(n, c);
    case If(_, _, _) =>
      IfLabels(n, c);
    case Return(e) =>
      EmitLabels(e, c);
      Unlabelled([Pop(Rax), MovReg(Rsp, Rbp), Pop(Rbp), Ret]);
      LabelsAppend(Emit(e, c).code, [Pop(Rax), MovReg(Rsp, Rbp), Pop(Rbp), Ret]);
    case Block(_) =>
      BlockLabels(n, 0, c);
    case Call(_, _) =>
      ArgsLabels(n, |n.args|, c);
      Unlabelled([CallFn(n.callee), Push(Rax)]);
      LabelsAppend(EmitArgs(n, |n.args|, c).code, [CallFn(n.callee), Push(Rax)]);
    case DefFunc(_, _, _, _, _) =>
      DefFuncLabels(n, c);
  }

  lemma {:induction false} AssignLabels(n: Node, c: Ctx)
    requires n.Assign? && Supported(n) && EmitAssign(n, c).Emitted?
    ensures Counted(c, EmitAssign(n, c).ctx, Ifs(n)) && Labelled(EmitAssign(n, c).code, c, EmitAssign(n, c).ctx)
    decreases n, 1
  {
    var lc := Lval(n.lhs, c).code;
    var c1 := Lval(n.lhs, c).ctx;
    var tail := [Pop(Rdi), Pop(Rax), Store(Rax, Rdi), Push(Rdi)];
    EmitLabels(n.rhs, c1);
    Unlabelled(lc);
    Unlabelled(tail);
    LabelsAppend(lc, Emit(n.rhs, c1).code);
    LabelsAppend(lc + Emit(n.rhs, c1).code, tail);
  }

  lemma {:induction false} BinaryLabels(n: Node, c: Ctx)
    requires n.Binary? && Supported(n) && EmitBinary(n, c).Emitted?
    ensures Counted(c, EmitBinary(n, c).ctx, Ifs(n)) && Labelled(EmitBinary(n, c).code, c, EmitBinary(n, c).ctx)
    decreases n, 1
  {
    var lc := Emit(n.lhs, c).code;
    var c1 := Emit(n.lhs, c).ctx;
    var rc := Emit(n.rhs, c1).code;
    var d := Emit(n.rhs, c1).ctx;
    EmitLabels(n.lhs, c);
    EmitLabels(n.rhs, c1);
    Widen(lc, c, c1, c, d);
    Widen(rc, c1, d, c, d);
    LabelledAppend(lc, rc, c, d);
    Unlabelled([Pop(Rdi), Pop(Rax)]);
    OpCodeUnlabelled(n.op);
    Unlabelled([Push(Rax)]);
    LabelsAppend(lc + rc, [Pop(Rdi), Pop(Rax)]);
    LabelsAppend(lc + rc + [Pop(Rdi), Pop(Rax)], OpCode(n.op));
    LabelsAppend(lc + rc + [Pop(Rdi), Pop(Rax)] + OpCode(n.op), [Push(Rax)]);
  }

  lemma {:induction false} DefFuncLabels(n: Node, c: Ctx)
    requires n.DefFunc? && Supported(n) && EmitDefFunc(n, c).Emitted?
    ensures Counted(c, EmitDefFunc(n, c).ctx, Ifs(n)) && Labelled(EmitDefFunc(n, c).code, c, EmitDefFunc(n, c).ctx)
    decreases n, 1
  {
    var pro := Prologue(n.name, n.maxOffset);
    var ps := ParamStores(n.params, n.vars, 0);
    var cb := c.(vars := n.vars);
    var bc := Emit(n.body, cb).code;
    EmitLabels(n.body, cb);
    Widen(bc, cb, Emit(n.body, cb).ctx, c, Emit(n.body, cb).ctx);
    Unlabelled(pro);
    ParamStoresUnlabelled(n.params, n.vars, 0);
    Unlabelled(Epilogue());
    LabelsAppend(pro, ps);
    LabelsAppend(pro + ps, bc);
    LabelsAppend(pro + ps + bc, Epilogue());
  }

  lemma {:induction false} IfLabels(n: Node, c: Ctx)
    requires n.If? && Supported(n) && EmitIf(n, c).Emitted?
    ensures Counted(c, EmitIf(n, c).ctx, Ifs(n)) && Labelled(EmitIf(n, c).code, c, EmitIf(n, c).ctx)
    decreases n, 1
  {
    var r := if n.alt.None? then EmitThen(n, Bump(c)) else EmitThenElse(n, Bump(c));
    if n.alt.None? {
      ThenLabels(n, c);
    } else {
      ThenElseLabels(n, c);
    }
    Unlabelled([Push(Rax)]);
    LabelsAppend(r.code, [Push(Rax)]);
  }

  lemma {:induction false} ThenLabels(n: Node, c: Ctx)
    requires n.If? && Supported(n) && EmitThen(n, Bump(c)).Emitted?
    ensures Counted(c, EmitThen(n, Bump(c)).ctx, 1 + Ifs(n.cond) + Ifs(n.conseq))
    ensures Labelled(EmitThen(n, Bump(c)).code, c, EmitThen(n, Bump(c)).ctx)
    decreases n, 0
  {
    var c0 := Bump(c);
    var cc := Emit(n.cond, c0).code;
    var c1 := Emit(n.cond, c0).ctx;
    var tc := Emit(n.conseq, c1).code;
    var d := Emit(n.conseq, c1).ctx;
    var test := [Pop(Rax), CmpImm(Rax, 0), Je(End(c1.endNo))];
    EmitLabels(n.cond, c0);
    EmitLabels(n.conseq, c1);
    Widen(cc, c0, c1, c, d);
    Widen(tc, c1, d, c, d);
    Gather3(MarkOf, test[0], test[1], test[2]);
    Gather3(TargetOf, test[0], test[1], test[2]);
    Gather1(MarkOf, Mark(End(d.endNo)));
    Gather1(TargetOf, Mark(End(d.endNo)));
    LabelledAppend(cc, test, c, d);
    LabelledAppend(cc + test, tc, c, d);
    LabelledAppend(cc + test + tc, [Mark(End(d.endNo))], c, d);
  }

  lemma {:induction false} ThenElseLabels(n: Node, c: Ctx)
    requires n.If? && n.alt.Some? && Supported(n) && EmitThenElse(n, Bump(c)).Emitted?
    ensures Counted(c, EmitThenElse(n, Bump(c)).ctx, 1 + Ifs(n.cond) + Ifs(n.conseq) + Ifs(n.alt.value))
    ensures Labelled(EmitThenElse(n, Bump(c)).code, c, EmitThenElse(n, Bump(c)).ctx)
    decreases n, 0
  {
    var c0 := Bump(c);
    var cc := Emit(n.cond, c0).code;
    var c1 := Emit(n.cond, c0).ctx;
    var tc := Emit(n.conseq, c1).code;
    var c2 := Emit(n.conseq, c1).ctx;
    var ec := Emit(n.alt.value, c2).code;
    var d := Emit(n.alt.value, c2).ctx;
    var test := [Pop(Rax), CmpImm(Rax, 0), Je(Else(c1.elseNo))];
    var skip := [Jmp(End(c2.endNo)), Mark(Else(c2.elseNo))];
    EmitLabels(n.cond, c0);
    EmitLabels(n.conseq, c1);
    EmitLabels(n.alt.value, c2);
    Widen(cc, c0, c1, c, d);
    Widen(tc, c1, c2, c, d);
    Widen(ec, c2, d, c, d);
    Gather3(MarkOf, test[0], test[1], test[2]);
    Gather3(TargetOf, test[0], test[1], test[2]);
    Gather2(MarkOf, skip[0], skip[1]);
    Gather2(TargetOf, skip[0], skip[1]);
    Gather1(MarkOf, Mark(End(d.endNo)));
    Gather1(TargetOf, Mark(End(d.endNo)));
    LabelledAppend(cc, test, c, d);
    LabelledAppend(cc + test, tc, c, d);
    LabelledAppend(cc + test + tc, skip, c, d);
    LabelledAppend(cc + test + tc + skip, ec, c, d);
    LabelledAppend(cc + test + tc + skip + ec, [Mark(End(d.endNo))], c, d);
  }

  lemma {:induction false} ArgsLabels(n: Node, i: nat, c: Ctx)
    requires n.Call? && Supported(n) && i <= |n.args| && EmitArgs(n, i, c).Emitted?
    ensures Counted(c, EmitArgs(n, i, c).ctx, ArgsIfs(n, i)) && Labelled(EmitArgs(n, i, c).code, c, EmitArgs(n, i, c).ctx)
    decreases n, 0, i
  {
    if i > 0 {
      var a := n.args[i - 1];
      var ac := Emit(a, c).code;
      var c1 := Emit(a, c).ctx;
      var rest := EmitArgs(n, i - 1, c1);
      EmitLabels(a, c);
      ArgsLabels(n, i - 1, c1);
      Widen(ac, c, c1, c, rest.ctx);
      Widen(rest.code, c1, rest.ctx, c, rest.ctx);
      Unlabelled([Pop(ArgRegs[i - 1])]);
      LabelsAppend(ac, [Pop(ArgRegs[i - 1])]);
      LabelledAppend(ac + [Pop(ArgRegs[i - 1])], rest.code, c, rest.ctx);
    }
  }

  lemma {:induction false} BlockLabels(n: Node, i: nat, c: Ctx)
    requires n.Block? && Supported(n) && i <= |n.stmts| && EmitBlock(n, i, c).Emitted?
    ensures Counted(c, EmitBlock(n, i, c).ctx, BlockIfs(n, i)) && Labelled(EmitBlock(n, i, c).code, c, EmitBlock(n, i, c).ctx)
    decreases n, 0, |n.stmts| - i
  {
    if i < |n.stmts| {
      var s := n.stmts[i];
      var sc := Emit(s, c).code;
      var c1 := Emit(s, c).ctx;
      var rest := EmitBlock(n, i + 1, c1);
      EmitLabels(s, c);
      BlockLabels(n, i + 1, c1);
      Widen(sc, c, c1, c, rest.ctx);
      Widen(rest.code, c1, rest.ctx, c, rest.ctx);
      Unlabelled([Pop(Rax)]);
      LabelsAppend(sc, [Pop(Rax)]);
      LabelledAppend(sc + [Pop(Rax)], rest.code, c, rest.ctx);
    }
  }

  /** A tree with no if node emits no label and no jump. */
  lemma NoIfsNoLabels(n: Node, c: Ctx)
    requires Supported(n) && Emit(n, c).Emitted? && Ifs(n) == 0
    ensures Emit(n, c).ctx.elseNo == c.elseNo && Emit(n, c).ctx.endNo == c.endNo
    ensures Marks(Emit(n, c).code) == [] && Targets(Emit(n, c).code) == []
  {
    EmitLabels(n, c);
    EmptyRange(Marks(Emit(n, c).code), c, Emit(n, c).ctx);
    EmptyRange(Targets(Emit(n, c).code), c, Emit(n, c).ctx);
  }

  lemma EmptyRange(ls: seq<Label>, c: Ctx, d: Ctx)
    requires Within(ls, c, d) && d.elseNo == c.elseNo && d.endNo == c.endNo
    ensures ls == []
  {
    assert |ls| > 0 ==> InRange(ls[0], c, d);
  }

  /** An if with no if nested in it defines and jumps to the labels
      numbered by the counters just after its own increment
      (codegen.c:90-119). */
  lemma FlatIfLabels(n: Node, c: Ctx)
    requires n.If? && Supported(n) && EmitIf(n, c).Emitted?
    requires Ifs(n.cond) == 0 && Ifs(n.conseq) == 0 && (n.alt.Some? ==> Ifs(n.alt.value) == 0)
    ensures n.alt.None? ==> (Marks(EmitIf(n, c).code) == [End(c.endNo + 1)]
                             && Targets(EmitIf(n, c).code) == [End(c.endNo + 1)])
    ensures n.alt.Some? ==> (Marks(EmitIf(n, c).code) == [Else(c.elseNo + 1), End(c.endNo + 1)]
                             && Targets(EmitIf(n, c).code) == [Else(c.elseNo + 1), End(c.endNo + 1)])
  {
    var r := if n.alt.None? then EmitThen(n, Bump(c)) else EmitThenElse(n, Bump(c));
    if n.alt.None? {
      FlatThenLabels(n, c);
    } else {
      FlatThenElseLabels(n, c);
    }
    Gather1(MarkOf, Push(Rax));
    Gather1(TargetOf, Push(Rax));
    LabelsAppend(r.code, [Push(Rax)]);
  }

  lemma FlatThenLabels(n: Node, c: Ctx)
    requires n.If? && Supported(n) && EmitThen(n, Bump(c)).Emitted?
    requires Ifs(n.cond) == 0 && Ifs(n.conseq) == 0
    ensures Marks(EmitThen(n, Bump(c)).code) == [End(c.endNo + 1)]
    ensures Targets(EmitThen(n, Bump(c)).code) == [End(c.endNo + 1)]
  {
    var c0 := Bump(c);
    var cc := Emit(n.cond, c0).code;
    var c1 := Emit(n.cond, c0).ctx;
    var tc := Emit(n.conseq, c1).code;
    var c2 := Emit(n.conseq, c1).ctx;
    NoIfsNoLabels(n.cond, c0);
    NoIfsNoLabels(n.conseq, c1);
    var test := [Pop(Rax), CmpImm(Rax, 0), Je(End(c1.endNo))];
    Gather3(MarkOf, test[0], test[1], test[2]);
    Gather3(TargetOf, test[0], test[1], test[2]);
    Gather1(MarkOf, Mark(End(c2.endNo)));
    Gather1(TargetOf, Mark(End(c2.endNo)));
    LabelsAppend(cc, test);
    LabelsAppend(cc + test, tc);
    LabelsAppend(cc + test + tc, [Mark(End(c2.endNo))]);
  }

  lemma FlatThenElseLabels(n: Node, c: Ctx)
    requires n.If? && n.alt.Some? && Supported(n) && EmitThenElse(n, Bump(c)).Emitted?
    requires Ifs(n.cond) == 0 && Ifs(n.conseq) == 0 && Ifs(n.alt.value) == 0
    ensures Marks(EmitThenElse(n, Bump(c)).code) == [Else(c.elseNo + 1), End(c.endNo + 1)]
    ensures Targets(EmitThenElse(n, Bump(c)).code) == [Else(c.elseNo + 1), End(c.endNo + 1)]
  {
    var c0 := Bump(c);
    var cc := Emit(n.cond, c0).code;
    var c1 := Emit(n.cond, c0).ctx;
    var tc := Emit(n.conseq, c1).code;
    var c2 := Emit(n.conseq, c1).ctx;
    var ec := Emit(n.alt.value, c2).code;
    var c3 := Emit(n.alt.value, c2).ctx;
    NoIfsNoLabels(n.cond, c0);
    NoIfsNoLabels(n.conseq, c1);
    NoIfsNoLabels(n.alt.value, c2);
    var test := [Pop(Rax), CmpImm(Rax, 0), Je(Else(c1.elseNo))];
    var skip := [Jmp(End(c2.endNo)), Mark(Else(c2.elseNo))];
    Gather3(MarkOf, test[0], test[1], test[2]);
    Gather3(TargetOf, test[0], test[1], test[2]);
    Gather2(MarkOf, skip[0], skip[1]);
    Gather2(TargetOf, skip[0], skip[1]);
    Gather1(MarkOf, Mark(End(c3.endNo)));
    Gather1(TargetOf, Mark(End(c3.endNo)));
    LabelsAppend(cc, test);
    LabelsAppend(cc + test, tc);
    LabelsAppend(cc + test + tc, skip);
    LabelsAppend(cc + test + tc + skip, ec);
    LabelsAppend(cc + test + tc + skip + ec, [Mark(End(c3.endNo))]);
  }

  /** No if nested inside the condition or a branch of another if. */
  predicate Flat(n: Node)
  {
    match n
    case Num(_) => true
    case Ident(_) => true
    case Assign(l, r) => Flat(l) && Flat(r)
    case Binary(_, l, r) => Flat(l) && Flat(r)
    case If(c, t, a) => Ifs(c) == 0 && Ifs(t) == 0 && (a.Some? ==> Ifs(a.value) == 0)
    case Return(e) => Flat(e)
    case Block(stmts) => forall i :: 0 <= i < |stmts| ==> Flat(stmts[i])
    case Call(_, args) => forall i :: 0 <= i < |args| ==> Flat(args[i])
    case DefFunc(_, _, body, _, _) => Flat(body)
  }

  predicate Distinct(ls: seq<Label>)
  {
    forall i, j :: 0 <= i < j < |ls| ==> ls[i] != ls[j]
  }

  /** No label is defined twice and every jump goes to a label the code
      defines. */
  predicate WellLabelled(code: seq<Instr>)
  {
    Distinct(Marks(code)) && forall i :: 0 <= i < |Targets(code)| ==> Targets(code)[i] in Marks(code)
  }

  lemma WellJoin(a: seq<Instr>, b: seq<Instr>, c: Ctx, m: Ctx, d: Ctx)
    requires WellLabelled(a) && WellLabelled(b) && Labelled(a, c, m) && Labelled(b, m, d)
    ensures WellLabelled(a + b)
  {
    LabelsAppend(a, b);
    var ma := Marks(a);
    var mb := Marks(b);
    forall i, j | 0 <= i < j < |ma + mb|
      ensures (ma + mb)[i] != (ma + mb)[j]
    {
      if i < |ma| && j >= |ma| {
        assert InRange(ma[i], c, m) && InRange(mb[j - |ma|], m, d);
      }
    }
  }

  lemma WellPlain(a: seq<Instr>, b: seq<Instr>)
    requires Marks(b) == [] && Targets(b) == []
    ensures WellLabelled(a) ==> WellLabelled(a + b)
    ensures WellLabelled(a) ==> WellLabelled(b + a)
  {
    LabelsAppend(a, b);
    LabelsAppend(b, a);
    assert Marks(a) + [] == Marks(a) && [] + Marks(a) == Marks(a);
    assert Targets(a) + [] == Targets(a) && [] + Targets(a) == Targets(a);
  }

  /** When no if is nested in another, the code of a tree defines each of
      its labels once and jumps only to labels it defines; sibling ifs get
      distinct labels. */
  lemma {:induction false} FlatWellLabelled(n: Node, c: Ctx)
    requires Supported(n) && Flat(n) && Emit(n, c).Emitted?
    ensures WellLabelled(Emit(n, c).code)
    decreases n, 2
  {
    match n
    case Num(_) =>
      Unlabelled(Emit(n, c).code);
    case Ident(_) =>
      Unlabelled(Emit(n, c).code);
    case Assign(l, r) =>
      var c1 := Lval(l, c).ctx;
      FlatWellLabelled(r, c1);
      Unlabelled(Lval(l, c).code);
      Unlabelled([Pop(Rdi), Pop(Rax), Store(Rax, Rdi), Push(Rdi)]);
      WellPlain(Emit(r, c1).code, Lval(l, c).code);
      WellPlain(Lval(l, c).code + Emit(r, c1).code, [Pop(Rdi), Pop(Rax), Store(Rax, Rdi), Push(Rdi)]);
    case Binary(_, _, _) =>
      BinaryWellLabelled(n, c);
    case If(_, _, _) =>
      FlatIfLabels(n, c);
    case Return(e) =>
      FlatWellLabelled(e, c);
      Unlabelled([Pop(Rax), MovReg(Rsp, Rbp), Pop(Rbp), Ret]);
      WellPlain(Emit(e, c).code, [Pop(Rax), MovReg(Rsp, Rbp), Pop(Rbp), Ret]);
    case Block(_) =>
      BlockWellLabelled(n, 0, c);
    case Call(_, _) =>
      ArgsWellLabelled(n, |n.args|, c);
      Unlabelled([CallFn(n.callee), Push(Rax)]);
      WellPlain(EmitArgs(n, |n.args|, c).code, [CallFn(n.callee), Push(Rax)]);
    case DefFunc(_, _, _, _, _) =>
      DefFuncWellLabelled(n, c);
  }

  lemma {:induction false} BinaryWellLabelled(n: Node, c: Ctx)
    requires n.Binary? && Supported(n) && Flat(n) && EmitBinary(n, c).Emitted?
    ensures WellLabelled(EmitBinary(n, c).code)
    decreases n, 1
  {
    var lc := Emit(n.lhs, c).code;
    var c1 := Emit(n.lhs, c).ctx;
    var rc := Emit(n.rhs, c1).code;
    FlatWellLabelled(n.lhs, c);
    FlatWellLabelled(n.rhs, c1);
    EmitLabels(n.lhs, c);
    EmitLabels(n.rhs, c1);
    WellJoin(lc, rc, c, c1, Emit(n.rhs, c1).ctx);
    var tail := [Pop(Rdi), Pop(Rax)] + OpCode(n.op) + [Push(Rax)];
    OpCodeUnlabelled(n.op);
    Unlabelled(tail);
    WellPlain(lc + rc, tail);
    assert lc + rc + tail == lc + rc + [Pop(Rdi), Pop(Rax)] + OpCode(n.op) + [Push(Rax)];
  }

  lemma {:induction false} DefFuncWellLabelled(n: Node, c: Ctx)
    requires n.DefFunc? && Supported(n) && Flat(n) && EmitDefFunc(n, c).Emitted?
    ensures WellLabelled(EmitDefFunc(n, c).code)
    decreases n, 1
  {
    var pro := Prologue(n.name, n.maxOffset);
    var ps := ParamStores(n.params, n.vars, 0);
    var bc := Emit(n.body, c.(vars := n.vars)).code;
    FlatWellLabelled(n.body, c.(vars := n.vars));
    Unlabelled(pro);
    ParamStoresUnlabelled(n.params, n.vars, 0);
    Unlabelled(Epilogue());
    LabelsAppend(pro, ps);
    WellPlain(bc, pro + ps);
    WellPlain(pro + ps + bc, Epilogue());
  }

  lemma {:induction false} ArgsWellLabelled(n: Node, i: nat, c: Ctx)
    requires n.Call? && Supported(n) && Flat(n) && i <= |n.args| && EmitArgs(n, i, c).Emitted?
    ensures WellLabelled(EmitArgs(n, i, c).code)
    decreases n, 0, i
  {
    if i == 0 {
      assert Marks([]) == [] && Targets([]) == [];
    } else {
      var a := n.args[i - 1];
      var c1 := Emit(a, c).ctx;
      var rest := EmitArgs(n, i - 1, c1);
      ArgsWellLabelled(n, i - 1, c1);
      ArgsLabels(n, i - 1, c1);
      assert a in n.args;
      PopAfterWellLabelled(a, c, ArgRegs[i - 1], rest.code, rest.ctx);
    }
  }

  /** One argument's code and its pop, ahead of well-labelled code whose
      labels come after the argument's. */
  lemma PopAfterWellLabelled(a: Node, c: Ctx, reg: Reg, rest: seq<Instr>, d: Ctx)
    requires Supported(a) && Flat(a) && Emit(a, c).Emitted?
    requires WellLabelled(rest) && Labelled(rest, Emit(a, c).ctx, d)
    ensures WellLabelled(Emit(a, c).code + [Pop(reg)] + rest)
    decreases a, 3
  {
    var ac := Emit(a, c).code;
    FlatWellLabelled(a, c);
    EmitLabels(a, c);
    Unlabelled([Pop(reg)]);
    WellPlain(ac, [Pop(reg)]);
    LabelsAppend(ac, [Pop(reg)]);
    WellJoin(ac + [Pop(reg)], rest, c, Emit(a, c).ctx, d);
  }

  lemma {:induction false} BlockWellLabelled(n: Node, i: nat, c: Ctx)
    requires n.Block? && Supported(n) && Flat(n) && i <= |n.stmts| && EmitBlock(n, i, c).Emitted?
    ensures WellLabelled(EmitBlock(n, i, c).code)
    decreases n, 0, |n.stmts| - i
  {
    if i == |n.stmts| {
      assert Marks([]) == [] && Targets([]) == [];
    } else {
      var s := n.stmts[i];
      var sc := Emit(s, c).code;
      var c1 := Emit(s, c).ctx;
      var rest := EmitBlock(n, i + 1, c1);
      FlatWellLabelled(s, c);
      BlockWellLabelled(n, i + 1, c1);
      EmitLabels(s, c);
      BlockLabels(n, i + 1, c1);
      Unlabelled([Pop(Rax)]);
      WellPlain(sc, [Pop(Rax)]);
      LabelsAppend(sc, [Pop(Rax)]);
      WellJoin(sc + [Pop(Rax)], rest.code, c, c1, rest.ctx);
    }
  }

  /** An if nested in the then branch of another that has no else makes
      the outer one print the inner one's end label a second time and jump
      to an end label that is never printed: gen_if reads the counters after
      generating the nested code (codegen.c:109-115). */
  lemma NestedIfReusesLabels()
    ensures var r := Emit(If(Num(1), If(Num(2), Num(3), None), None), Ctx(0, 0, map[]));
            r.Emitted? && Marks(r.code) == [End(2), End(2)] && Targets(r.code) == [End(1), End(2)]
            && !WellLabelled(r.code)
  {
    var p1 := [PushImm(1), Pop(Rax), CmpImm(Rax, 0), Je(End(1))];
    var p2 := [PushImm(2), Pop(Rax), CmpImm(Rax, 0), Je(End(2))];
    var p3 := [PushImm(3), Mark(End(2)), Push(Rax)];
    var p4 := [Mark(End(2)), Push(Rax)];
    OuterIf(p1, p2, p3, p4);
    NestedLabels(p1, p2, p3, p4);
  }

  /** With an else on the outer if, the label never printed is an else
      label: the outer `je` reads the else counter before the nested code
      and the else label is printed after it (codegen.c:98-103), while the
      `jmp` goes to the end label both ifs print. */
  lemma NestedIfMissesElse()
    ensures var r := Emit(If(Num(1), If(Num(2), Num(3), None), Some(Num(4))), Ctx(0, 0, map[]));
            r.Emitted? && Marks(r.code) == [End(2), Else(2), End(2)]
            && Targets(r.code) == [Else(1), End(2), End(2)] && !WellLabelled(r.code)
  {
    var p1 := [PushImm(1), Pop(Rax), CmpImm(Rax, 0), Je(Else(1))];
    var p2 := [PushImm(2), Pop(Rax), CmpImm(Rax, 0), Je(End(2))];
    var p3 := [PushImm(3), Mark(End(2)), Push(Rax)];
    var p4 := [Jmp(End(2)), Mark(Else(2)), PushImm(4)];
    var p5 := [Mark(End(2)), Push(Rax)];
    OuterIfElse(p1, p2, p3, p4, p5);
    ElseLabels(p1, p2, p3, p4, p5);
  }

  lemma ElseLabels(p1: seq<Instr>, p2: seq<Instr>, p3: seq<Instr>, p4: seq<Instr>, p5: seq<Instr>)
    requires p1 == [PushImm(1), Pop(Rax), CmpImm(Rax, 0), Je(Else(1))]
    requires p2 == [PushImm(2), Pop(Rax), CmpImm(Rax, 0), Je(End(2))]
    requires p3 == [PushImm(3), Mark(End(2)), Push(Rax)]
    requires p4 == [Jmp(End(2)), Mark(Else(2)), PushImm(4)]
    requires p5 == [Mark(End(2)), Push(Rax)]
    ensures Marks(p1 + (p2 + p3) + p4 + p5) == [End(2), Else(2), End(2)]
    ensures Targets(p1 + (p2 + p3) + p4 + p5) == [Else(1), End(2), End(2)]
    ensures !WellLabelled(p1 + (p2 + p3) + p4 + p5)
  {
    Gather4(MarkOf, p1[0], p1[1], p1[2], p1[3]);
    Gather4(TargetOf, p1[0], p1[1], p1[2], p1[3]);
    Gather4(MarkOf, p2[0], p2[1], p2[2], p2[3]);
    Gather4(TargetOf, p2[0], p2[1], p2[2], p2[3]);
    Gather3(MarkOf, p3[0], p3[1], p3[2]);
    Gather3(TargetOf, p3[0], p3[1], p3[2]);
    Gather3(MarkOf, p4[0], p4[1], p4[2]);
    Gather3(TargetOf, p4[0], p4[1], p4[2]);
    Gather2(MarkOf, p5[0], p5[1]);
    Gather2(TargetOf, p5[0], p5[1]);
    LabelsAppend(p2, p3);
    LabelsAppend(p1, p2 + p3);
    LabelsAppend(p1 + (p2 + p3), p4);
    LabelsAppend(p1 + (p2 + p3) + p4, p5);
    var ms := Marks(p1 + (p2 + p3) + p4 + p5);
    assert ms[0] == ms[2];
  }

  /** The code of the outer if of `NestedIfMissesElse`. */
  lemma OuterIfElse(p1: seq<Instr>, p2: seq<Instr>, p3: seq<Instr>, p4: seq<Instr>, p5: seq<Instr>)
    requires p1 == [PushImm(1), Pop(Rax), CmpImm(Rax, 0), Je(Else(1))]
    requires p2 == [PushImm(2), Pop(Rax), CmpImm(Rax, 0), Je(End(2))]
    requires p3 == [PushImm(3), Mark(End(2)), Push(Rax)]
    requires p4 == [Jmp(End(2)), Mark(Else(2)), PushImm(4)]
    requires p5 == [Mark(End(2)), Push(Rax)]
    ensures Emit(If(Num(1), If(Num(2), Num(3), None), Some(Num(4))), Ctx(0, 0, map[]))
         == Emitted(p1 + (p2 + p3) + p4 + p5, Ctx(2, 2, map[]))
  {
    InnerIf(p2, p3);
    var n := If(Num(1), If(Num(2), Num(3), None), Some(Num(4)));
    assert EmitThenElse(n, Ctx(1, 1, map[])) == Emitted(p1 + (p2 + p3) + p4 + [Mark(End(2))], Ctx(2, 2, map[]));
  }

  lemma NestedLabels(p1: seq<Instr>, p2: seq<Instr>, p3: seq<Instr>, p4: seq<Instr>)
    requires p1 == [PushImm(1), Pop(Rax), CmpImm(Rax, 0), Je(End(1))]
    requires p2 == [PushImm(2), Pop(Rax), CmpImm(Rax, 0), Je(End(2))]
    requires p3 == [PushImm(3), Mark(End(2)), Push(Rax)]
    requires p4 == [Mark(End(2)), Push(Rax)]
    ensures Marks(p1 + (p2 + p3) + p4) == [End(2), End(2)]
    ensures Targets(p1 + (p2 + p3) + p4) == [End(1), End(2)]
    ensures !WellLabelled(p1 + (p2 + p3) + p4)
  {
    Gather4(MarkOf, p1[0], p1[1], p1[2], p1[3]);
    Gather4(TargetOf, p1[0], p1[1], p1[2], p1[3]);
    Gather4(MarkOf, p2[0], p2[1], p2[2], p2[3]);
    Gather4(TargetOf, p2[0], p2[1], p2[2], p2[3]);
    Gather3(MarkOf, p3[0], p3[1], p3[2]);
    Gather3(TargetOf, p3[0], p3[1], p3[2]);
    Gather2(MarkOf, p4[0], p4[1]);
    Gather2(TargetOf, p4[0], p4[1]);
    LabelsAppend(p2, p3);
    LabelsAppend(p1, p2 + p3);
    LabelsAppend(p1 + (p2 + p3), p4);
    var ms := Marks(p1 + (p2 + p3) + p4);
    assert ms[0] == ms[1];
  }

  /** The code of the outer if of `NestedIfReusesLabels`. */
  lemma OuterIf(p1: seq<Instr>, p2: seq<Instr>, p3: seq<Instr>, p4: seq<Instr>)
    requires p1 == [PushImm(1), Pop(Rax), CmpImm(Rax, 0), Je(End(1))]
    requires p2 == [PushImm(2), Pop(Rax), CmpImm(Rax, 0), Je(End(2))]
    requires p3 == [PushImm(3), Mark(End(2)), Push(Rax)]
    requires p4 == [Mark(End(2)), Push(Rax)]
    ensures Emit(If(Num(1), If(Num(2), Num(3), None), None), Ctx(0, 0, map[]))
         == Emitted(p1 + (p2 + p3) + p4, Ctx(2, 2, map[]))
  {
    InnerIf(p2, p3);
    var n := If(Num(1), If(Num(2), Num(3), None), None);
    assert EmitThen(n, Ctx(1, 1, map[])) == Emitted(p1 + (p2 + p3) + [Mark(End(2))], Ctx(2, 2, map[]));
  }

  /** The inner if of `NestedIfReusesLabels`, generated after the outer
      one's increment. */
  lemma InnerIf(p2: seq<Instr>, p3: seq<Instr>)
    requires p2 == [PushImm(2), Pop(Rax), CmpImm(Rax, 0), Je(End(2))]
    requires p3 == [PushImm(3), Mark(End(2)), Push(Rax)]
    ensures Emit(If(Num(2), Num(3), None), Ctx(1, 1, map[])) == Emitted(p2 + p3, Ctx(2, 2, map[]))
  {
    assert EmitThen(If(Num(2), Num(3), None), Ctx(2, 2, map[])) == Emitted(p2 + [PushImm(3), Mark(End(2))], Ctx(2, 2, map[]));
  }

  // ---------------------------------------------------------------------
  // The whole program
  // ---------------------------------------------------------------------

  /** The number of if nodes in the top-level nodes from i on. */
  function ProgramIfs(nodes: seq<Node>, i: nat): nat
    requires i <= |nodes|
    decreases |nodes| - i
  {
    if i == |nodes| then 0 else Ifs(nodes[i]) + ProgramIfs(nodes, i + 1)
  }

  lemma {:induction false} ProgramLabels(nodes: seq<Node>, i: nat, c: Ctx)
    requires i <= |nodes| && forall k :: 0 <= k < |nodes| ==> Supported(nodes[k])
    requires EmitProgram(nodes, i, c).Emitted?
    ensures EmitProgram(nodes, i, c).ctx.elseNo == c.elseNo + ProgramIfs(nodes, i)
    ensures EmitProgram(nodes, i, c).ctx.endNo == c.endNo + (|nodes| - i) + ProgramIfs(nodes, i)
    ensures Labelled(EmitProgram(nodes, i, c).code, c, EmitProgram(nodes, i, c).ctx)
    ensures (forall k :: 0 <= k < |nodes| ==> Flat(nodes[k])) ==> WellLabelled(EmitProgram(nodes, i, c).code)
    decreases |nodes| - i
  {
    if i == |nodes| {
      assert Marks([]) == [] && Targets([]) == [];
    } else {
      var c0 := c.(endNo := c.endNo + 1);
      var code := Emit(nodes[i], c0).code;
      var c1 := Emit(nodes[i], c0).ctx;
      var rest := EmitProgram(nodes, i + 1, c1);
      var piece := [Global(NameOf(nodes[i]))] + code + [Pop(Rax)];
      EmitLabels(nodes[i], c0);
      ProgramLabels(nodes, i + 1, c1);
      Unlabelled([Global(NameOf(nodes[i]))]);
      Unlabelled([Pop(Rax)]);
      LabelsAppend([Global(NameOf(nodes[i]))], code);
      LabelsAppend([Global(NameOf(nodes[i]))] + code, [Pop(Rax)]);
      Widen(piece, c0, c1, c, c1);
      Widen(piece, c0, c1, c, rest.ctx);
      Widen(rest.code, c1, rest.ctx, c, rest.ctx);
      LabelledAppend(piece, rest.code, c, rest.ctx);
      if forall k :: 0 <= k < |nodes| ==> Flat(nodes[k]) {
        FlatWellLabelled(nodes[i], c0);
        WellPlain(code, [Global(NameOf(nodes[i]))]);
        WellPlain([Global(NameOf(nodes[i]))] + code, [Pop(Rax)]);
        WellJoin(piece, rest.code, c, c1, rest.ctx);
      }
    }
  }

  /** codegen (codegen.c:8-18): the output starts with the syntax
      directive; label_end_number moves once per top-level node besides once
      per if, label_else_number once per if; and when no if is nested in
      another the whole output defines each label once and jumps only to
      labels it defines. */
  lemma CompileLabels(nodes: seq<Node>, c: Ctx)
    requires forall k :: 0 <= k < |nodes| ==> Supported(nodes[k])
    requires Compile(nodes, c).Emitted?
    ensures Compile(nodes, c).code[0] == Directive
    ensures Compile(nodes, c).ctx.elseNo == c.elseNo + ProgramIfs(nodes, 0)
    ensures Compile(nodes, c).ctx.endNo == c.endNo + |nodes| + ProgramIfs(nodes, 0)
    ensures (forall k :: 0 <= k < |nodes| ==> Flat(nodes[k])) ==> WellLabelled(Compile(nodes, c).code)
  {
    ProgramLabels(nodes, 0, c);
    Unlabelled([Directive]);
    WellPlain(EmitProgram(nodes, 0, c).code, [Directive]);
  }

  // ---------------------------------------------------------------------
  // gen_lval and gen_def_func
  // ---------------------------------------------------------------------

  /** gen_lval (codegen.c:57-68) pushes rbp - offset of the variable and
      leaves every offset the variable map gives as it was; a map that
      already holds the name is left unchanged. */
  lemma LvalKeepsOffsets(n: Node, c: Ctx)
    requires n.Ident?
    ensures Lval(n, c).Emitted?
    ensures Lval(n, c).code == [MovReg(Rax, Rbp), SubImm(Rax, Lookup(c.vars, n.name)), Push(Rax)]
    ensures forall x :: Lookup(Lval(n, c).ctx.vars, x) == Lookup(c.vars, x)
    ensures n.name in c.vars ==> Lval(n, c).ctx == c
  {
    var vars := Lval(n, c).ctx.vars;
    forall x
      ensures Lookup(vars, x) == Lookup(c.vars, x)
    {
      if x == n.name {
        assert vars[x] == Lookup(c.vars, x);
      }
    }
    if n.name in c.vars {
      assert vars == c.vars;
    }
  }

  /** The parameter stores from parameter k on: three instructions per
      parameter, the j-th storing its argument register at rbp minus the
      parameter's offset. */
  lemma {:induction false} ParamStoresAt(params: seq<string>, vars: map<string, int>, k: nat)
    requires |params| <= 6 && k <= |params|
    ensures |ParamStores(params, vars, k)| == 3 * (|params| - k)
    ensures forall j :: k <= j < |params| ==>
      ParamStores(params, vars, k)[3 * (j - k)..3 * (j - k) + 3]
        == [MovReg(Rax, Rbp), SubImm(Rax, Lookup(vars, params[j])), Store(Rax, ArgRegs[j])]
    decreases |params| - k
  {
    if k < |params| {
      ParamStoresAt(params, vars, k + 1);
      var head := [MovReg(Rax, Rbp), SubImm(Rax, Lookup(vars, params[k])), Store(Rax, ArgRegs[k])];
      var rest := ParamStores(params, vars, k + 1);
      forall j | k <= j < |params|
        ensures (head + rest)[3 * (j - k)..3 * (j - k) + 3]
             == [MovReg(Rax, Rbp), SubImm(Rax, Lookup(vars, params[j])), Store(Rax, ArgRegs[j])]
      {
        if j > k {
          assert (head + rest)[3 * (j - k)..3 * (j - k) + 3] == rest[3 * (j - (k + 1))..3 * (j - (k + 1)) + 3];
        }
      }
    }
  }

  /** gen_def_func (codegen.c:132-153): the code does not depend on the
      variable map in force before it, since the definition's own map is
      installed first; it opens with the prologue reserving
      max_variable_offset bytes, stores parameter i from the i-th argument
      register at rbp minus the parameter's offset, and closes with the
      epilogue. */
  lemma DefFuncLayout(n: Node, c: Ctx, other: map<string, int>)
    requires n.DefFunc? && Supported(n) && Emit(n, c).Emitted?
    ensures Emit(n, c) == Emit(n, c.(vars := other))
    ensures var code := Emit(n, c).code;
      |code| >= 7 + 3 * |n.params|
      && code[..4] == [FuncLabel(n.name), Push(Rbp), MovReg(Rbp, Rsp), SubImm(Rsp, n.maxOffset)]
      && (forall i :: 0 <= i < |n.params| ==>
            code[4 + 3 * i..7 + 3 * i]
              == [MovReg(Rax, Rbp), SubImm(Rax, Lookup(n.vars, n.params[i])), Store(Rax, ArgRegs[i])])
      && code[|code| - 3..] == [MovReg(Rsp, Rbp), Pop(Rbp), Ret]
  {
    assert c.(vars := other).(vars := n.vars) == c.(vars := n.vars);
    var pro := Prologue(n.name, n.maxOffset);
    var ps := ParamStores(n.params, n.vars, 0);
    var bc := Emit(n.body, c.(vars := n.vars)).code;
    var code := pro + ps + bc + Epilogue();
    ParamStoresAt(n.params, n.vars, 0);
    assert code[..4] == pro;
    forall i | 0 <= i < |n.params|
      ensures code[4 + 3 * i..7 + 3 * i]
              == [MovReg(Rax, Rbp), SubImm(Rax, Lookup(n.vars, n.params[i])), Store(Rax, ArgRegs[i])]
    {
      assert code[4 + 3 * i..7 + 3 * i] == ps[3 * i..3 * i + 3];
    }
    assert code[|code| - 3..] == Epilogue();
  }
}
