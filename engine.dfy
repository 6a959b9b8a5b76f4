/** The engine of `Model.java`: a register object, a data memory, a code
    store, four jobs with a current one, and the halt callback (counted here).
    Every state-changing method is proved to leave exactly the abstract state
    its contract gives: for instruction execution, stepping, job switching and
    job clearing that is the matching function of `Semantics`. */
module Engine {
  import opened JavaInt
  import opened Faults
  import opened Instructions
  import opened Memory
  import opened CodeStore
  import opened Jobs
  import opened Semantics

  /** The register file; Java's zero defaults. */
  class Cpu {
    var accumulator: Int32
    var instructionPointer: Int32
    var memoryBase: Int32

    constructor ()
      ensures accumulator == 0 && instructionPointer == 0 && memoryBase == 0
    {
      accumulator, instructionPointer, memoryBase := 0, 0, 0;
    }
  }

  class Model {
    const cpu: Cpu
    const dataMemory: Data
    const codeMemory: Code
    var jobs: seq<Job>
    var current: nat
    /** How many times the halt callback has been called. */
    var halts: nat

    ghost function State(): Machine
      reads this, cpu, dataMemory, dataMemory.data, codeMemory
    {
      Machine(Registers(cpu.accumulator, cpu.instructionPointer, cpu.memoryBase),
              dataMemory.data[..], dataMemory.changedIndex, codeMemory.cells,
              jobs, current, halts)
    }

    ghost predicate Valid()
      reads this, cpu, dataMemory, dataMemory.data, codeMemory
    {
      dataMemory.Valid() && State().Valid()
    }

    /** The constructor lays the four jobs out over the quarters of the code
        store (`codeMax` slots) and of the data memory, and makes job 0 current. */
    constructor (codeMax: int, codeSizes: seq<int>)
      requires 0 <= codeMax && codeMax % JOBS == 0 && (JOBS - 1) * codeMax <= MAX_VALUE
      requires |codeSizes| == JOBS && forall k :: 0 <= k < JOBS ==> 0 <= codeSizes[k] <= codeMax / JOBS
      ensures Valid()
      ensures fresh(cpu) && fresh(dataMemory) && fresh(dataMemory.data) && fresh(codeMemory)
      ensures State().regs == Registers(0, 0, 0)
      ensures State().mem == seq(DATA_SIZE, _ => 0) && State().changed == NO_CHANGE
      ensures State().code == seq(codeMax, _ => BLANK)
      ensures State().current == 0 && State().halts == 0
      ensures forall k :: 0 <= k < JOBS ==>
        State().jobs[k] == NewJob(k, CodeStart(k, codeMax), codeSizes[k], MemoryStart(k))
    {
      var js: seq<Job> := [];
      var i := 0;
      while i < JOBS
        invariant 0 <= i <= JOBS && |js| == i
        invariant forall k :: 0 <= k < i ==>
          js[k] == NewJob(k, CodeStart(k, codeMax), codeSizes[k], MemoryStart(k))
      {
        assert CodeStart(i, codeMax) <= MAX_VALUE by {
          assert i * codeMax <= (JOBS - 1) * codeMax;
        }
        js := js + [NewJob(i, i * codeMax / JOBS, codeSizes[i], i * DATA_SIZE / JOBS)];
        i := i + 1;
      }
      cpu := new Cpu();
      dataMemory := new Data();
      codeMemory := new Code(codeMax);
      jobs := js;
      current := 0;
      halts := 0;
    }

    /** The accumulator of the abstract machine. */
    function GetAccum(): (r: Int32)
      reads this, cpu, dataMemory, dataMemory.data, codeMemory
      ensures r == State().regs.acc
    {
      cpu.accumulator
    }

    /** The instruction pointer of the abstract machine. */
    function GetInstrPtr(): (r: Int32)
      reads this, cpu, dataMemory, dataMemory.data, codeMemory
      ensures r == State().regs.ip
    {
      cpu.instructionPointer
    }

    /** The memory base of the abstract machine. */
    function GetMemBase(): (r: Int32)
      reads this, cpu, dataMemory, dataMemory.data, codeMemory
      ensures r == State().regs.memBase
    {
      cpu.memoryBase
    }

    /** The current job: in a valid engine it is the job in slot `current`,
        carrying that slot's id and layout. */
    function GetCurrentJob(): (r: Job)
      reads this, cpu, dataMemory, dataMemory.data, codeMemory
      requires current < |jobs|
      ensures Valid() ==> r == State().Job() && LaidOut(r, current, |codeMemory.cells|)
    {
      jobs[current]
    }

    /** The last written data cell of the abstract machine: NO_CHANGE or an
        index inside the data memory. */
    function GetChangedIndex(): (r: int)
      reads this, cpu, dataMemory, dataMemory.data, codeMemory
      ensures r == State().changed
      ensures Valid() ==> r == NO_CHANGE || Read(State().mem, r).Ok?
    {
      dataMemory.changedIndex
    }

    method SetAccum(v: Int32)
      requires Valid()
      modifies cpu
      ensures Valid() && State() == old(State()).(regs := old(State()).regs.(acc := v))
    {
      cpu.accumulator := v;
    }

    method SetInstrPtr(v: Int32)
      requires Valid()
      modifies cpu
      ensures Valid() && State() == old(State()).(regs := old(State()).regs.(ip := v))
    {
      cpu.instructionPointer := v;
    }

    /** A low-level override: afterwards the memory base need not match the current job. */
    method SetMemBase(v: Int32)
      requires Valid()
      modifies cpu
      ensures Valid() && State() == old(State()).(regs := old(State()).regs.(memBase := v))
    {
      cpu.memoryBase := v;
    }

    method GetData(index: int) returns (r: Result<Int32>)
      requires Valid()
      ensures r == Read(State().mem, index)
    {
      r := dataMemory.GetData(index);
    }

    method SetData(index: int, value: Int32) returns (r: Outcome)
      requires Valid()
      modifies dataMemory, dataMemory.data
      ensures Valid()
      ensures match Write(old(State()).mem, index, value)
              case Ok(mem') => r == Pass && State() == old(State()).(mem := mem', changed := index)
              case Err(e) => r == Fail(e) && State() == old(State())
    {
      r := dataMemory.SetData(index, value);
    }

    method SetCode(index: int, op: Int32, mode: Option<Mode>, arg: Int32) returns (r: Outcome)
      requires Valid()
      modifies codeMemory
      ensures Valid()
      ensures r.Pass? <==> 0 <= index < |old(State()).code|
      ensures r.Pass? ==> State() == old(State()).(code := old(State()).code[index := Instr(op, mode, arg)])
      ensures r.Fail? ==> r.error == MemoryAccess(index) && State() == old(State())
    {
      r := codeMemory.SetCode(index, op, mode, arg);
    }

    /** The bounded form of the handlers' self-recursion: at most two reads
        through data memory, from `mode` down to `stop`. Changes nothing. */
    method ResolveOperand(arg: Int32, mode: Mode, stop: Mode) returns (r: Result<Int32>)
      requires Valid() && Rank(stop) <= Rank(mode)
      ensures r == Resolve(State().mem, cpu.memoryBase, arg, mode, stop)
    {
      var a, md := arg, mode;
      while md != stop
        invariant Rank(stop) <= Rank(md)
        invariant Resolve(State().mem, cpu.memoryBase, a, md, stop) ==
                  Resolve(State().mem, cpu.memoryBase, arg, mode, stop)
        decreases Rank(md)
      {
        var cell := dataMemory.GetData(Addr(cpu.memoryBase, a));
        if cell.Err? {
          return Err(cell.error);
        }
        a, md := cell.value, Next(md).value;
      }
      r := Ok(a);
    }

    /** A value handler's effect once its operand is the literal v. */
    method ApplyValue(op: int, v: Int32) returns (r: Outcome)
      requires Valid() && IsValueOp(op)
      modifies cpu
      ensures Valid()
      ensures match Semantics.ApplyValue(old(State()), op, v)
              case Ok(m') => r == Pass && State() == m'
              case Err(e) => r == Fail(e) && State() == old(State())
    {
      var acc := cpu.accumulator;
      if op == LOD {
        acc := v;
      } else if op == ADD {
        acc := Add(acc, v);
      } else if op == SUB {
        acc := Sub(acc, v);
      } else if op == MUL {
        acc := Mul(acc, v);
      } else if op == DIV {
        if v == 0 {
          return Fail(DivideByZero);
        }
        acc := Div(acc, v);
      } else {
        acc := if v != 0 && acc != 0 then 1 else 0;
      }
      cpu.accumulator := acc;
      cpu.instructionPointer := Inc(cpu.instructionPointer);
      r := Pass;
    }

    /** An address handler's effect once its operand is the in-job address a. */
    method ApplyAddress(op: int, a: Int32) returns (r: Outcome)
      requires Valid() && IsAddressOp(op)
      modifies cpu, dataMemory, dataMemory.data
      ensures Valid()
      ensures match Semantics.ApplyAddress(old(State()), op, a)
              case Ok(m') => r == Pass && State() == m'
              case Err(e) => r == Fail(e) && State() == old(State())
    {
      var addr := Addr(cpu.memoryBase, a);
      if op == STO {
        r := dataMemory.SetData(addr, cpu.accumulator);
        if r.Pass? {
          cpu.instructionPointer := Inc(cpu.instructionPointer);
        }
        return;
      }
      var cell := dataMemory.GetData(addr);
      if cell.Err? {
        return Fail(cell.error);
      }
      if op == CMPL {
        cpu.accumulator := if cell.value < 0 then 1 else 0;
      } else {
        cpu.accumulator := if cell.value == 0 then 1 else 0;
      }
      cpu.instructionPointer := Inc(cpu.instructionPointer);
      r := Pass;
    }

    /** `INSTR[op].execute(arg, mode)`. */
    method Dispatch(op: int, mode: Option<Mode>, arg: Int32) returns (r: Outcome)
      requires Valid()
      modifies this, cpu, dataMemory, dataMemory.data
      ensures Valid()
      ensures match Execute(old(State()), op, mode, arg)
              case Ok(m') => r == Pass && State() == m'
              case Err(e) => r == Fail(e) && State() == old(State())
    {
      if op == NOP || op == NOT {
        if mode.Some? {
          return Fail(InvalidMode(op));
        }
        if op == NOT {
          cpu.accumulator := if cpu.accumulator != 0 then 0 else 1;
        }
        cpu.instructionPointer := Inc(cpu.instructionPointer);
        return Pass;
      }
      if op == HALT {
        halts := halts + 1;
        return Pass;
      }
      if op == JMPZ && cpu.accumulator != 0 {
        cpu.instructionPointer := Inc(cpu.instructionPointer);
        return Pass;
      }
      if !IsValueOp(op) && !IsAddressOp(op) && op != JUMP && op != JMPZ {
        return Fail(UnknownOpcode(op));
      }
      // From here on op resolves a mode chain.
      if mode.None? {
        if IsValueOp(op) || IsAddressOp(op) {
          return Fail(InvalidMode(op));
        }
        var cell := dataMemory.GetData(Addr(cpu.memoryBase, arg));
        if cell.Err? {
          return Fail(cell.error);
        }
        cpu.instructionPointer := Wrap(cell.value + jobs[current].startCodeIndex);
        return Pass;
      }
      if IsAddressOp(op) && mode.value == Immediate {
        return Fail(InvalidMode(op));
      }
      ExecuteResolves(State(), op, mode.value, arg);
      var operand := ResolveOperand(arg, mode.value, Terminal(op));
      if operand.Err? {
        return Fail(operand.error);
      }
      if IsValueOp(op) {
        r := ApplyValue(op, operand.value);
      } else if IsAddressOp(op) {
        r := ApplyAddress(op, operand.value);
      } else {
        cpu.instructionPointer := Wrap(cpu.instructionPointer + operand.value);
        r := Pass;
      }
    }

    /** `step()`: one fetch-check-dispatch cycle; any failure calls the halt
        callback once and is passed on. */
    method Step() returns (r: Outcome)
      requires Valid()
      modifies this, cpu, dataMemory, dataMemory.data
      ensures Valid()
      ensures Stepped(State(), r) == NextState(old(State()))
    {
      var ip := cpu.instructionPointer;
      var job := jobs[current];
      if job.startCodeIndex > ip || ip >= job.startCodeIndex + job.codeSize {
        halts := halts + 1;
        return Fail(CodeAccess(ip));
      }
      SegmentsInside(jobs, |codeMemory.cells|, current);
      var instr := codeMemory.Get(ip).value;
      r := Dispatch(instr.op, instr.mode, instr.arg);
      if r.Fail? {
        halts := halts + 1;
      }
    }

    /** `changeToJob(i)`. */
    method ChangeToJob(i: int) returns (r: Outcome)
      requires Valid()
      modifies this, cpu
      ensures Valid()
      ensures match ChangedJob(old(State()), i)
              case Ok(m') => r == Pass && State() == m'
              case Err(e) => r == Fail(e) && State() == old(State())
    {
      if i != 0 && i != 1 && i != 2 && i != 3 {
        return Fail(InvalidJob(i));
      }
      jobs := jobs[current := jobs[current].(currentAcc := cpu.accumulator)];
      jobs := jobs[current := jobs[current].(currentIP := cpu.instructionPointer)];
      current := i;
      cpu.accumulator := jobs[current].currentAcc;
      cpu.instructionPointer := jobs[current].currentIP;
      cpu.memoryBase := jobs[current].startMemoryIndex;
      r := Pass;
    }

    /** `clearJob()`. */
    method ClearJob()
      requires Valid()
      modifies this, cpu, dataMemory, dataMemory.data, codeMemory
      ensures Valid()
      ensures State() == ClearedJob(old(State()))
    {
      var job := jobs[current];
      SegmentsInside(jobs, |codeMemory.cells|, current);
      var cleared := dataMemory.ClearData(job.startMemoryIndex, job.startMemoryIndex + DATA_SIZE / JOBS);
      codeMemory.Clear(job.startCodeIndex, job.startCodeIndex + job.codeSize);
      cpu.accumulator := 0;
      cpu.instructionPointer := job.startCodeIndex;
      cpu.memoryBase := job.startMemoryIndex;
      jobs := jobs[current := Reset(job)];
    }
  }
}
