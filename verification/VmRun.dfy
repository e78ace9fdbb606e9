/** The dispatch loop as it runs: a program counter, an operand stack and a frame, one
    instruction a turn. */
module VmRun {
  import opened Ir
  import opened Vm
  import opened VmSafety

  /** The control outcome of one instruction. */
  datatype VmStep = Advance | Goto(target: nat) | Finish(v: Value)

  /** The operands and slots an instruction takes for granted: where one is missing the
      original panics. */
  predicate Served(op: VmOp, height: nat, size: nat) {
    match op
    case LoadLocal(slot) => slot < size
    case StoreLocal(slot) => slot < size && height >= 1
    case Binary(b) => height >= 2 && b != And && b != Or
    case Unary(_) => height >= 1
    case Index => height >= 2
    case IndexLocal(slot) => slot < size && height >= 1
    case Field(_) => height >= 1
    case FieldLocal(slot, _) => slot < size
    case Call(_, argc) => argc <= height
    case MakeArray(count) => count <= height
    case JumpIfFalse(_) => height >= 1
    case JumpIfTrue(_) => height >= 1
    case CheckStepNonzero(slot) => slot < size
    case ForCheck(counter, end, step) => counter < size && end < size && step < size
    case ForStep(counter, step) => counter < size && step < size
    case _ => true
  }

  lemma UnstuckIsServed(ops: seq<VmOp>, call: Dispatch, st: State)
    requires !Step(ops, call, st).Stuck?
    ensures st.pc < |ops| && Served(ops[st.pc], |st.stack|, |st.frame|)
  {
  }

  function Turn(r: Res<VmStep>, st: State): Outcome {
    match r
    case Ok(Advance) => Next(st.(pc := st.pc + 1))
    case Ok(Goto(target)) => Next(st.(pc := target))
    case Ok(Finish(v)) => Done(v)
    case Err(e) => Fail(e)
    case NoResult => Hung
  }

  class Machine {
    var stack: seq<Value>
    var frame: seq<Value>

    constructor (args: seq<Value>, frameSize: nat)
      ensures stack == [] && frame == InitialFrame(args, frameSize)
    {
      stack := [];
      frame := InitialFrame(args, frameSize);
    }

    method Pop() returns (v: Value)
      requires stack != []
      modifies `stack
      ensures v == old(stack)[|old(stack)| - 1] && stack == old(stack)[..|old(stack)| - 1]
    {
      v := stack[|stack| - 1];
      stack := stack[..|stack| - 1];
    }

    method SplitOff(count: nat) returns (vs: seq<Value>)
      requires count <= |stack|
      modifies `stack
      ensures vs == old(stack)[|old(stack)| - count..] && stack == old(stack)[..|old(stack)| - count]
    {
      vs := stack[|stack| - count..];
      stack := stack[..|stack| - count];
    }

    /** Push a result, or hand its failure on. */
    method PushResult(v: Res<Value>) returns (r: Res<VmStep>)
      modifies `stack
      ensures stack == if v.Ok? then old(stack) + [v.value] else old(stack)
      ensures r == if v.Ok? then Ok(Advance) else v.PropagateFailure()
    {
      match v
      case Ok(x) => stack := stack + [x]; r := Ok(Advance);
      case Err(e) => r := Err(e);
      case NoResult => r := NoResult;
    }

    /** One instruction. What it does to the operand stack, the frame and control is what the
        specification's step does. */
    method VmExec(op: VmOp, call: Dispatch, ghost ops: seq<VmOp>, ghost pc: nat) returns (r: Res<VmStep>)
      requires pc < |ops| && ops[pc] == op && Served(op, |stack|, |frame|)
      modifies this
      ensures Turn(r, State(pc, stack, frame)) == Step(ops, call, State(pc, old(stack), old(frame)))
    {
      hide Step, Turn, Served;
      if op.Jump? || op.JumpIfFalse? || op.JumpIfTrue? || op.Return? {
        r := Control(op, call, ops, pc);
      } else if op.Binary? || op.Unary? || op.Index? || op.Field? || op.Call? || op.MakeArray? {
        r := Operate(op, call, ops, pc);
      } else {
        r := Access(op, call, ops, pc);
      }
    }

    method Access(op: VmOp, call: Dispatch, ghost ops: seq<VmOp>, ghost pc: nat) returns (r: Res<VmStep>)
      requires pc < |ops| && ops[pc] == op && Served(op, |stack|, |frame|)
      requires !op.Jump? && !op.JumpIfFalse? && !op.JumpIfTrue? && !op.Return?
      requires !op.Binary? && !op.Unary? && !op.Index? && !op.Field? && !op.Call? && !op.MakeArray?
      modifies this
      ensures Turn(r, State(pc, stack, frame)) == Step(ops, call, State(pc, old(stack), old(frame)))
    {
      hide IndexOp, FieldOf, LoopTest, LoopStep;
      r := Ok(Advance);
      match op
      case PushConst(v) => r := PushResult(Ok(v));
      case PushVoid => r := PushResult(Ok(Void));
      case LoadLocal(slot) => r := PushResult(Ok(frame[slot]));
      case StoreLocal(slot) =>
        var v := Pop();
        frame := frame[slot := v];
      case IndexLocal(slot) =>
        var index := Pop();
        r := PushResult(IndexOp(frame[slot], index));
      case FieldLocal(slot, name) => r := PushResult(FieldOf(frame[slot], name));
      case Pop => if stack != [] { var _ := Pop(); }
      case CheckStepNonzero(slot) =>
        var n := AsI64(frame[slot]);
        if n.IsFailure() { r := n.PropagateFailure(); }
        else if n.value == 0 { r := Fault("L0411", "for loop step cannot be zero"); }
      case ForCheck(counter, end, step) => r := PushResult(LoopTest(frame, counter, end, step));
      case ForStep(counter, step) =>
        var next := LoopStep(frame, counter, step);
        if next.IsFailure() { r := next.PropagateFailure(); } else { frame := frame[counter := next.value]; }
    }

    method Operate(op: VmOp, call: Dispatch, ghost ops: seq<VmOp>, ghost pc: nat) returns (r: Res<VmStep>)
      requires pc < |ops| && ops[pc] == op && Served(op, |stack|, |frame|)
      requires op.Binary? || op.Unary? || op.Index? || op.Field? || op.Call? || op.MakeArray?
      modifies `stack
      ensures Turn(r, State(pc, stack, frame)) == Step(ops, call, State(pc, old(stack), frame))
    {
      hide EvalBinary, EvalUnary, IndexOp, FieldOf;
      if op.Binary? || op.Index? {
        r := OperateTwo(op, call, ops, pc);
        return;
      }
      match op
      case Unary(u) =>
        var v := Pop();
        r := PushResult(EvalUnary(u, v));
      case Field(name) =>
        var target := Pop();
        r := PushResult(FieldOf(target, name));
      case Call(name, argc) =>
        var args := SplitOff(argc);
        r := PushResult(call(name, args));
      case MakeArray(count) =>
        var elements := SplitOff(count);
        r := PushResult(Ok(Array(elements)));
    }

    /** Two operands, the right one on top. */
    method OperateTwo(op: VmOp, call: Dispatch, ghost ops: seq<VmOp>, ghost pc: nat) returns (r: Res<VmStep>)
      requires pc < |ops| && ops[pc] == op && Served(op, |stack|, |frame|) && (op.Binary? || op.Index?)
      modifies `stack
      ensures Turn(r, State(pc, stack, frame)) == Step(ops, call, State(pc, old(stack), frame))
    {
      hide EvalBinary, IndexOp;
      var right := Pop();
      var left := Pop();
      r := PushResult(match op case Binary(b) => EvalBinary(left, b, right) case Index => IndexOp(left, right));
    }

    method Control(op: VmOp, call: Dispatch, ghost ops: seq<VmOp>, ghost pc: nat) returns (r: Res<VmStep>)
      requires pc < |ops| && ops[pc] == op && Served(op, |stack|, |frame|)
      requires op.Jump? || op.JumpIfFalse? || op.JumpIfTrue? || op.Return?
      modifies `stack
      ensures Turn(r, State(pc, stack, frame)) == Step(ops, call, State(pc, old(stack), frame))
    {
      match op
      case Jump(target) => r := Ok(Goto(target));
      case JumpIfFalse(target) => r := JumpOn(false, target);
      case JumpIfTrue(target) => r := JumpOn(true, target);
      case Return =>
        if stack == [] { r := Ok(Finish(Void)); } else { var v := Pop(); r := Ok(Finish(v)); }
    }

    method JumpOn(taken: bool, target: nat) returns (r: Res<VmStep>)
      requires stack != []
      modifies `stack
      ensures stack == old(stack)[..|old(stack)| - 1]
      ensures var b := AsBool(old(stack)[|old(stack)| - 1]);
              r == if b.IsFailure() then b.PropagateFailure() else if b.value == taken then Ok(Goto(target)) else Ok(Advance)
    {
      var v := Pop();
      var b := AsBool(v);
      if b.IsFailure() { return b.PropagateFailure(); }
      r := if b.value == taken then Ok(Goto(target)) else Ok(Advance);
    }
  }

  /** Run a compiled function for at most `turns` turns. No instruction it reaches lacks an
      operand or a slot, so none of the loop's panics can fire. */
  method RunVm(f: Function, p: Program, call: Dispatch, args: seq<Value>, turns: nat) returns (o: Outcome)
    requires CompileFunction(f) == Some(p)
    ensures o == Exec(p.ops, call, State(0, [], InitialFrame(args, p.frameSize)), turns)
    ensures !o.Stuck?
  {
    hide Step, CompileFunction;
    var m := new Machine(args, p.frameSize);
    ghost var start := State(0, [], InitialFrame(args, p.frameSize));
    var pc, n := 0, 0;
    while n < turns
      invariant n <= turns && fresh(m)
      invariant Exec(p.ops, call, start, n) == Next(State(pc, m.stack, m.frame))
      decreases turns - n
    {
      ghost var st := State(pc, m.stack, m.frame);
      CompiledNeverStuck(f, call, args, n + 1);
      ExecThen(p.ops, call, start, n, st, 1);
      assert Exec(p.ops, call, st, 1) == Step(p.ops, call, st);
      UnstuckIsServed(p.ops, call, st);
      var r := m.VmExec(p.ops[pc], call, p.ops, pc);
      n := n + 1;
      match r
      case Ok(Advance) => pc := pc + 1;
      case Ok(Goto(target)) => pc := target;
      case Ok(Finish(v)) => ExecEnded(p.ops, call, start, n, turns); return Done(v);
      case Err(e) => ExecEnded(p.ops, call, start, n, turns); return Fail(e);
      case NoResult => ExecEnded(p.ops, call, start, n, turns); return Hung;
    }
    o := Next(State(pc, m.stack, m.frame));
  }

  lemma {:induction false} ExecEnded(ops: seq<VmOp>, call: Dispatch, st: State, n: nat, m: nat)
    requires n <= m && !Exec(ops, call, st, n).Next?
    ensures Exec(ops, call, st, m) == Exec(ops, call, st, n)
    decreases n
  {
    hide Step;
    if n > 0 {
      var o := Step(ops, call, st);
      if o.Next? { ExecEnded(ops, call, o.st, n - 1, m - 1); }
    }
  }
}
