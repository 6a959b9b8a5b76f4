/** The engine's behaviour as functions on one value holding its whole state:
    registers, data memory, code store, the four jobs, the current job and the
    number of halt-callback calls. `Execute` follows the `INSTR` dispatch-table
    handlers of `Model.java` case for case, including their self-recursion on
    `mode.next()`. */
module Semantics {
  import opened JavaInt
  import opened Faults
  import opened Instructions
  import opened Memory
  import opened Jobs
  import opened CodeStore

  datatype Registers = Registers(acc: Int32, ip: Int32, memBase: Int32)

  datatype Machine = Machine(
    regs: Registers,
    mem: seq<Int32>,
    changed: int,
    code: seq<Instr>,
    jobs: seq<Job>,
    current: nat,
    halts: nat)
  {
    predicate Valid()
    {
      |mem| == DATA_SIZE && NO_CHANGE <= changed < DATA_SIZE &&
      AllLaidOut(jobs, |code|) && current < JOBS
    }

    function Job(): Job
      requires Valid()
    {
      jobs[current]
    }
  }

  /** The absolute data address of an in-job address: `memoryBase + arg`, in `int`. */
  function Addr(base: Int32, arg: Int32): Int32
  {
    Wrap(base + arg)
  }

  /** Dereference `arg` through memory until the mode reaches `stop`: no read at
      `stop` itself, one per step of the Indirect -> Direct -> Immediate chain. */
  function Resolve(mem: seq<Int32>, base: Int32, arg: Int32, mode: Mode, stop: Mode): (r: Result<Int32>)
    requires Rank(stop) <= Rank(mode)
    ensures mode == stop ==> r == Ok(arg)
    ensures Rank(mode) == Rank(stop) + 1 ==> r == Read(mem, Addr(base, arg))
    ensures Rank(mode) == Rank(stop) + 2 ==>
      r == match Read(mem, Addr(base, arg))
           case Err(e) => Err(e)
           case Ok(p) => Read(mem, Addr(base, p))
    decreases Rank(mode)
  {
    if mode == stop then Ok(arg)
    else
      match Read(mem, Addr(base, arg))
      case Err(e) => Err(e)
      case Ok(v) => Resolve(mem, base, v, Next(mode).value, stop)
  }

  function Depth(mode: Option<Mode>): nat
  {
    match mode
    case None => 0
    case Some(m) => Rank(m) + 1
  }

  function Advance(m: Machine): Machine
  {
    m.(regs := m.regs.(ip := Inc(m.regs.ip)))
  }

  function SetAcc(m: Machine, acc: Int32): Machine
  {
    m.(regs := m.regs.(acc := acc, ip := Inc(m.regs.ip)))
  }

  /** A value handler (LOD, ADD, SUB, MUL, DIV, AND) once its operand is the literal v. */
  function ApplyValue(m: Machine, op: int, v: Int32): Result<Machine>
    requires IsValueOp(op)
  {
    var acc := m.regs.acc;
    if op == LOD then Ok(SetAcc(m, v))
    else if op == ADD then Ok(SetAcc(m, Add(acc, v)))
    else if op == SUB then Ok(SetAcc(m, Sub(acc, v)))
    else if op == MUL then Ok(SetAcc(m, Mul(acc, v)))
    else if op == DIV then
      if v == 0 then Err(DivideByZero) else Ok(SetAcc(m, Div(acc, v)))
    else Ok(SetAcc(m, if v != 0 && acc != 0 then 1 else 0))
  }

  /** An address handler (STO, CMPL, CMPZ) once its operand is the in-job address a. */
  function ApplyAddress(m: Machine, op: int, a: Int32): Result<Machine>
    requires IsAddressOp(op)
  {
    var addr := Addr(m.regs.memBase, a);
    if op == STO then
      match Write(m.mem, addr, m.regs.acc)
      case Err(e) => Err(e)
      case Ok(mem') => Ok(Advance(m.(mem := mem', changed := addr)))
    else
      match Read(m.mem, addr)
      case Err(e) => Err(e)
      case Ok(x) =>
        if op == CMPL then Ok(SetAcc(m, if x < 0 then 1 else 0))
        else Ok(SetAcc(m, if x == 0 then 1 else 0))
  }

  /** The absolute jump of JUMP and JMPZ with no mode: to the cell's value
      counted from the current job's code start. */
  function JumpAbsolute(m: Machine, arg: Int32): Result<Machine>
    requires m.Valid()
  {
    match Read(m.mem, Addr(m.regs.memBase, arg))
    case Err(e) => Err(e)
    case Ok(x) => Ok(m.(regs := m.regs.(ip := Wrap(x + m.Job().startCodeIndex))))
  }

  /** The relative jump once the operand is the literal offset. */
  function JumpRelative(m: Machine, offset: Int32): Machine
  {
    m.(regs := m.regs.(ip := Wrap(m.regs.ip + offset)))
  }

  /** Whether opcode op, under the current accumulator, resolves a mode chain. */
  predicate Resolves(m: Machine, op: int)
  {
    IsValueOp(op) || IsAddressOp(op) || op == JUMP || (op == JMPZ && m.regs.acc == 0)
  }

  /** `INSTR[op].execute(arg, mode)`: the new state, or the exception raised.
      A failing handler has changed nothing. */
  function Execute(m: Machine, op: int, mode: Option<Mode>, arg: Int32): (r: Result<Machine>)
    requires m.Valid()
    ensures r.Ok? ==> r.value.Valid()
    ensures r.Ok? ==> r.value.code == m.code && r.value.jobs == m.jobs && r.value.current == m.current
    ensures r.Ok? ==> r.value.regs.memBase == m.regs.memBase
    ensures r.Ok? && op != STO ==> r.value.mem == m.mem && r.value.changed == m.changed
    ensures r.Ok? ==> r.value.halts == if op == HALT then m.halts + 1 else m.halts
    decreases Depth(mode)
  {
    if op == NOP then
      if mode.Some? then Err(InvalidMode(op)) else Ok(Advance(m))
    else if op == NOT then
      if mode.Some? then Err(InvalidMode(op)) else Ok(SetAcc(m, if m.regs.acc != 0 then 0 else 1))
    else if IsValueOp(op) then
      if mode.None? then Err(InvalidMode(op))
      else if mode.value != Immediate then
        match Read(m.mem, Addr(m.regs.memBase, arg))
        case Err(e) => Err(e)
        case Ok(v) => Execute(m, op, Next(mode.value), v)
      else ApplyValue(m, op, arg)
    else if IsAddressOp(op) then
      if mode.None? || mode.value == Immediate then Err(InvalidMode(op))
      else if mode.value != Direct then
        match Read(m.mem, Addr(m.regs.memBase, arg))
        case Err(e) => Err(e)
        case Ok(v) => Execute(m, op, Next(mode.value), v)
      else ApplyAddress(m, op, arg)
    else if op == JUMP || (op == JMPZ && m.regs.acc == 0) then
      if mode.None? then JumpAbsolute(m, arg)
      else if mode.value != Immediate then
        match Read(m.mem, Addr(m.regs.memBase, arg))
        case Err(e) => Err(e)
        case Ok(v) => Execute(m, op, Next(mode.value), v)
      else Ok(JumpRelative(m, arg))
    else if op == JMPZ then Ok(Advance(m))
    else if op == HALT then Ok(m.(halts := m.halts + 1))
    else Err(UnknownOpcode(op))
  }

  /** A handler that resolves its operand does all its reads first and then
      acts once at its terminal mode: the recursion equals `Resolve` followed
      by one call at the terminal mode. */
  lemma {:induction false} ExecuteResolves(m: Machine, op: int, mode: Mode, arg: Int32)
    requires m.Valid() && Resolves(m, op)
    requires Rank(Terminal(op)) <= Rank(mode)
    ensures Execute(m, op, Some(mode), arg) ==
      match Resolve(m.mem, m.regs.memBase, arg, mode, Terminal(op))
      case Err(e) => Err(e)
      case Ok(v) => Execute(m, op, Some(Terminal(op)), v)
    decreases Rank(mode)
  {
    if mode != Terminal(op) {
      match Read(m.mem, Addr(m.regs.memBase, arg))
      case Err(e) =>
      case Ok(v) =>
        ExecuteResolves(m, op, Next(mode).value, v);
    }
  }

  /** What `step()` leaves: the next state and the exception it rethrows, if any. */
  datatype Stepped = Stepped(next: Machine, outcome: Outcome)

  /** `step()`: check the instruction pointer against the current job's code
      segment, fetch, dispatch; on failure call the halt callback once and
      rethrow with nothing else changed. */
  function NextState(m: Machine): (r: Stepped)
    requires m.Valid()
    ensures r.next.Valid()
  {
    var ip := m.regs.ip;
    var job := m.Job();
    if job.startCodeIndex > ip || ip >= job.startCodeIndex + job.codeSize then
      Stepped(m.(halts := m.halts + 1), Fail(CodeAccess(ip)))
    else
      SegmentsInside(m.jobs, |m.code|, m.current);
      var instr := m.code[ip];
      match Execute(m, instr.op, instr.mode, instr.arg)
      case Ok(m') => Stepped(m', Pass)
      case Err(e) => Stepped(m.(halts := m.halts + 1), Fail(e))
  }

  /** `changeToJob(i)`: save the registers into the outgoing job, make job i
      current, restore its registers and point the memory base at its data. */
  function ChangedJob(m: Machine, i: int): (r: Result<Machine>)
    requires m.Valid()
    ensures r.Ok? ==> r.value.Valid()
  {
    if i != 0 && i != 1 && i != 2 && i != 3 then Err(InvalidJob(i))
    else
      var jobs := m.jobs[m.current := m.Job().(currentAcc := m.regs.acc, currentIP := m.regs.ip)];
      var target := jobs[i];
      Ok(m.(jobs := jobs, current := i,
            regs := Registers(target.currentAcc, target.currentIP, target.startMemoryIndex)))
  }

  /** `clearJob()`: zero the current job's data segment, blank its code segment,
      reset the registers to the job's origin and reset the job itself. */
  function ClearedJob(m: Machine): (r: Machine)
    requires m.Valid()
    ensures r.Valid()
  {
    var job := m.Job();
    SegmentsInside(m.jobs, |m.code|, m.current);
    m.(mem := Cleared(m.mem, job.startMemoryIndex, job.startMemoryIndex + DATA_SIZE / JOBS),
       changed := NO_CHANGE,
       code := ClearedCode(m.code, job.startCodeIndex, job.startCodeIndex + job.codeSize),
       regs := Registers(0, job.startCodeIndex, job.startMemoryIndex),
       jobs := m.jobs[m.current := Reset(job)])
  }
}
