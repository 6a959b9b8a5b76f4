/** Properties of the engine, stated on the reference semantics that the
    `Engine.Model` methods are proved to follow. */
module Properties {
  import opened JavaInt
  import opened Faults
  import opened Instructions
  import opened Memory
  import opened CodeStore
  import opened Jobs
  import opened Semantics

  // ---- LOD and the three addressing modes ----

  /** LOD with Immediate loads the literal and advances the instruction pointer by one. */
  lemma LodImmediate(m: Machine, k: Int32)
    requires m.Valid()
    ensures Execute(m, LOD, Some(Immediate), k) ==
            Ok(m.(regs := m.regs.(acc := k, ip := Inc(m.regs.ip))))
    ensures m.regs.ip < MAX_VALUE ==> Inc(m.regs.ip) == m.regs.ip + 1
  {
  }

  /** LOD with Direct loads the cell at memoryBase + arg: one dereference. */
  lemma LodDirect(m: Machine, arg: Int32)
    requires m.Valid() && 0 <= m.regs.memBase + arg < DATA_SIZE
    ensures Execute(m, LOD, Some(Direct), arg) ==
            Ok(m.(regs := m.regs.(acc := m.mem[m.regs.memBase + arg], ip := Inc(m.regs.ip))))
  {
  }

  /** LOD with Indirect loads memory[memoryBase + memory[memoryBase + arg]]: two dereferences. */
  lemma LodIndirect(m: Machine, arg: Int32)
    requires m.Valid() && 0 <= m.regs.memBase + arg < DATA_SIZE
    requires 0 <= m.regs.memBase + m.mem[m.regs.memBase + arg] < DATA_SIZE
    ensures Execute(m, LOD, Some(Indirect), arg) ==
            Ok(m.(regs := m.regs.(acc := m.mem[m.regs.memBase + m.mem[m.regs.memBase + arg]],
                                  ip := Inc(m.regs.ip))))
  {
    var p := m.mem[m.regs.memBase + arg];
    assert Execute(m, LOD, Some(Indirect), arg) == Execute(m, LOD, Some(Direct), p);
    LodDirect(m, p);
  }

  /** A dereference that leaves data memory fails with the absolute index it tried. */
  lemma LodOutOfRange(m: Machine, arg: Int32, mode: Mode)
    requires m.Valid() && mode != Immediate
    requires !(0 <= Addr(m.regs.memBase, arg) < DATA_SIZE)
    ensures Execute(m, LOD, Some(mode), arg) == Err(MemoryAccess(Addr(m.regs.memBase, arg)))
  {
  }

  // ---- STO ----

  /** STO refuses a missing or Immediate mode before touching anything. */
  lemma StoRejectsMode(m: Machine, mode: Option<Mode>, arg: Int32)
    requires m.Valid() && (mode.None? || mode == Some(Immediate))
    ensures Execute(m, STO, mode, arg) == Err(InvalidMode(STO))
  {
  }

  /** STO with Direct writes the accumulator to memoryBase + arg, records that
      index as changed, leaves every other cell and the accumulator alone and
      advances the instruction pointer by one. */
  lemma StoDirect(m: Machine, arg: Int32)
    requires m.Valid() && 0 <= m.regs.memBase + arg < DATA_SIZE
    ensures var r := Execute(m, STO, Some(Direct), arg);
      var a := m.regs.memBase + arg;
      r.Ok? &&
      r.value.mem[a] == m.regs.acc &&
      (forall j :: 0 <= j < DATA_SIZE && j != a ==> r.value.mem[j] == m.mem[j]) &&
      r.value.changed == a &&
      r.value.regs == m.regs.(ip := Inc(m.regs.ip))
  {
    var a := m.regs.memBase + arg;
    var w := Write(m.mem, a, m.regs.acc);
    assert w.Ok?;
    forall j | 0 <= j < DATA_SIZE && j != a
      ensures w.value[j] == m.mem[j]
    {
      assert Read(w.value, j) == Read(m.mem, j);
    }
  }

  /** Every successful instruction changes at most the one cell it records as changed. */
  lemma {:induction false} ExecuteChangesOneCell(m: Machine, op: int, mode: Option<Mode>, arg: Int32)
    requires m.Valid() && Execute(m, op, mode, arg).Ok?
    ensures var m' := Execute(m, op, mode, arg).value;
      forall j :: 0 <= j < DATA_SIZE && j != m'.changed ==> m'.mem[j] == m.mem[j]
  {
    if op == STO {
      var md := mode.value;
      ExecuteResolves(m, STO, md, arg);
      var a := Resolve(m.mem, m.regs.memBase, arg, md, Direct).value;
      var w := Write(m.mem, Addr(m.regs.memBase, a), m.regs.acc);
      forall j | 0 <= j < DATA_SIZE && j != Addr(m.regs.memBase, a)
        ensures w.value[j] == m.mem[j]
      {
        assert Read(w.value, j) == Read(m.mem, j);
      }
    }
  }

  // ---- DIV ----

  /** DIV fails with DivideByZero exactly when its resolved operand is 0, and
      otherwise sets the accumulator to Java's truncated quotient. */
  lemma {:induction false} DivResult(m: Machine, mode: Mode, arg: Int32)
    requires m.Valid() && Resolve(m.mem, m.regs.memBase, arg, mode, Immediate).Ok?
    ensures var v := Resolve(m.mem, m.regs.memBase, arg, mode, Immediate).value;
      Execute(m, DIV, Some(mode), arg) ==
        if v == 0 then Err(DivideByZero)
        else Ok(m.(regs := m.regs.(acc := Wrap(Quot(m.regs.acc, v)), ip := Inc(m.regs.ip))))
  {
    ExecuteResolves(m, DIV, mode, arg);
  }

  /** Quot rounds toward zero, unlike Dafny's Euclidean `/`. */
  lemma QuotTruncates()
    ensures Quot(-7, 2) == -3 && -7 / 2 == -4
    ensures Quot(7, -2) == -3 && Quot(-7, -2) == 3
  {
  }

  // ---- NOP, NOT, AND ----

  /** NOP and NOT take no mode: any mode is refused. */
  lemma NoOperandRejectsMode(m: Machine, op: int, mode: Mode, arg: Int32)
    requires m.Valid() && (op == NOP || op == NOT)
    ensures Execute(m, op, Some(mode), arg) == Err(InvalidMode(op))
  {
  }

  /** AND and NOT leave a boolean (0 or 1) in the accumulator: AND gives 1 exactly
      when both the accumulator and the resolved operand are nonzero, NOT gives 1
      exactly when the accumulator was zero. */
  lemma {:induction false} LogicIsBoolean(m: Machine, op: int, mode: Option<Mode>, arg: Int32)
    requires m.Valid() && (op == AND || op == NOT) && Execute(m, op, mode, arg).Ok?
    ensures var acc := Execute(m, op, mode, arg).value.regs.acc;
      (acc == 0 || acc == 1) &&
      (op == NOT ==> (acc == 1 <==> m.regs.acc == 0)) &&
      (op == AND ==> (acc == 1 <==>
        m.regs.acc != 0 && Resolve(m.mem, m.regs.memBase, arg, mode.value, Immediate) != Ok(0)))
  {
    if op == AND {
      ExecuteResolves(m, AND, mode.value, arg);
    }
  }

  // ---- CMPL, CMPZ ----

  /** CMPL and CMPZ refuse a missing or Immediate mode. */
  lemma CompareRejectsMode(m: Machine, op: int, mode: Option<Mode>, arg: Int32)
    requires m.Valid() && (op == CMPL || op == CMPZ) && (mode.None? || mode == Some(Immediate))
    ensures Execute(m, op, mode, arg) == Err(InvalidMode(op))
  {
  }

  /** With Direct or Indirect mode, CMPL sets the accumulator to 1 exactly when the
      cell at the resolved address is negative, CMPZ exactly when it is zero, and
      to 0 otherwise; nothing else but the instruction pointer moves. */
  lemma {:induction false} CompareResult(m: Machine, op: int, mode: Mode, arg: Int32)
    requires m.Valid() && (op == CMPL || op == CMPZ) && mode != Immediate
    requires Resolve(m.mem, m.regs.memBase, arg, mode, Direct).Ok?
    requires var a := Resolve(m.mem, m.regs.memBase, arg, mode, Direct).value;
      0 <= m.regs.memBase + a < DATA_SIZE
    ensures var a := Resolve(m.mem, m.regs.memBase, arg, mode, Direct).value;
      var x := m.mem[m.regs.memBase + a];
      var r := Execute(m, op, Some(mode), arg);
      r.Ok? && (r.value.regs.acc == 1 <==> (if op == CMPL then x < 0 else x == 0)) &&
      (r.value.regs.acc == 0 || r.value.regs.acc == 1) &&
      r.value == m.(regs := m.regs.(acc := r.value.regs.acc, ip := Inc(m.regs.ip)))
  {
    ExecuteResolves(m, op, mode, arg);
  }

  // ---- JUMP, JMPZ ----

  /** JUMP with no mode goes to the cell's value counted from the current job's code start. */
  lemma JumpAbsolute(m: Machine, arg: Int32)
    requires m.Valid() && 0 <= m.regs.memBase + arg < DATA_SIZE
    ensures Execute(m, JUMP, None, arg) ==
            Ok(m.(regs := m.regs.(ip := Wrap(m.mem[m.regs.memBase + arg] + m.Job().startCodeIndex))))
  {
  }

  /** JUMP with Immediate adds the argument to the instruction pointer. */
  lemma JumpRelative(m: Machine, arg: Int32)
    requires m.Valid()
    ensures Execute(m, JUMP, Some(Immediate), arg) ==
            Ok(m.(regs := m.regs.(ip := Wrap(m.regs.ip + arg))))
  {
  }

  /** An absolute jump lands in the current job's code segment exactly when the
      stored target is below that segment's size: nothing clamps it. */
  lemma JumpAbsoluteLanding(m: Machine, arg: Int32)
    requires m.Valid() && 0 <= m.regs.memBase + arg < DATA_SIZE
    ensures var ip := Execute(m, JUMP, None, arg).value.regs.ip;
      var job := m.Job();
      job.startCodeIndex <= ip < job.startCodeIndex + job.codeSize <==>
        0 <= m.mem[m.regs.memBase + arg] < job.codeSize
  {
    SegmentsInside(m.jobs, |m.code|, m.current);
    var x := m.mem[m.regs.memBase + arg];
    var s := m.Job().startCodeIndex;
    if MIN_VALUE <= x + s <= MAX_VALUE {
      assert Wrap(x + s) == x + s;
    } else {
      assert x + s > MAX_VALUE;
      assert Wrap(x + s) == x + s - MODULUS;
    }
  }

  /** JMPZ with a nonzero accumulator only advances, whatever its mode and argument. */
  lemma JmpzNonzero(m: Machine, mode: Option<Mode>, arg: Int32)
    requires m.Valid() && m.regs.acc != 0
    ensures Execute(m, JMPZ, mode, arg) == Ok(m.(regs := m.regs.(ip := Inc(m.regs.ip))))
  {
  }

  /** JMPZ with a zero accumulator behaves exactly as JUMP, under every mode. */
  lemma {:induction false} JmpzZeroIsJump(m: Machine, mode: Option<Mode>, arg: Int32)
    requires m.Valid() && m.regs.acc == 0
    ensures Execute(m, JMPZ, mode, arg) == Execute(m, JUMP, mode, arg)
    decreases Depth(mode)
  {
    if mode.Some? && mode.value != Immediate {
      match Read(m.mem, Addr(m.regs.memBase, arg))
      case Err(e) =>
      case Ok(v) =>
        JmpzZeroIsJump(m, Next(mode.value), v);
    }
  }

  // ---- Dispatch ----

  /** The unassigned opcodes 13 and 14, and anything outside 0..15, are refused. */
  lemma UnassignedOpcodes(m: Machine, op: int, mode: Option<Mode>, arg: Int32)
    requires m.Valid() && (op == 13 || op == 14 || op < 0 || op > 15)
    ensures Execute(m, op, mode, arg) == Err(UnknownOpcode(op))
  {
  }

  // ---- step ----

  /** A fetch outside the current job's code segment fails with CodeAccess and
      calls the halt callback once. */
  lemma StepOutsideSegment(m: Machine)
    requires m.Valid()
    requires var j := m.Job(); !(j.startCodeIndex <= m.regs.ip < j.startCodeIndex + j.codeSize)
    ensures NextState(m) == Stepped(m.(halts := m.halts + 1), Fail(CodeAccess(m.regs.ip)))
  {
  }

  /** A failing step changes nothing but the halt count, which goes up by one;
      a succeeding one calls the halt callback only when it executed HALT. */
  lemma StepHaltCount(m: Machine)
    requires m.Valid()
    ensures var s := NextState(m);
      s.outcome.Fail? ==> s.next == m.(halts := m.halts + 1)
    ensures var s := NextState(m);
      s.outcome.Pass? ==> s.next.halts == m.halts + (if m.code[m.regs.ip].op == HALT then 1 else 0)
  {
    var j := m.Job();
    if j.startCodeIndex <= m.regs.ip < j.startCodeIndex + j.codeSize {
      SegmentsInside(m.jobs, |m.code|, m.current);
    }
  }

  /** A NOP encoded with a mode fails with InvalidMode and does not move the instruction pointer. */
  lemma StepNopWithMode(m: Machine, mode: Mode, arg: Int32)
    requires m.Valid()
    requires var j := m.Job(); j.startCodeIndex <= m.regs.ip < j.startCodeIndex + j.codeSize
    requires 0 <= m.regs.ip < |m.code| && m.code[m.regs.ip] == Instr(NOP, Some(mode), arg)
    ensures NextState(m) == Stepped(m.(halts := m.halts + 1), Fail(InvalidMode(NOP)))
    ensures NextState(m).next.regs == m.regs
  {
  }

  /** The state after n successive calls of step(), as a driver loop makes them. */
  function Steps(m: Machine, n: nat): (r: Machine)
    requires m.Valid()
    ensures r.Valid() && r.halts >= m.halts
    decreases n
  {
    if n == 0 then m else Steps(NextState(m).next, n - 1)
  }

  /** However many steps run, the code store, the jobs, the current job and the
      memory base stay as they were: only the job-switch, clear and register
      setters change them. */
  lemma {:induction false} StepsKeepLayout(m: Machine, n: nat)
    requires m.Valid()
    ensures var r := Steps(m, n);
      r.code == m.code && r.jobs == m.jobs && r.current == m.current &&
      r.regs.memBase == m.regs.memBase
    decreases n
  {
    if n > 0 {
      StepsKeepLayout(NextState(m).next, n - 1);
    }
  }

  // ---- changeToJob ----

  /** changeToJob refuses an id outside 0..3. */
  lemma ChangeRejectsBadId(m: Machine, i: int)
    requires m.Valid() && !(0 <= i < JOBS)
    ensures ChangedJob(m, i) == Err(InvalidJob(i))
  {
  }

  /** After a switch to job i the memory base is job i's data origin (i quarters
      into memory) and the registers are the ones job i saved. The outgoing job
      is the old one with the live accumulator and instruction pointer saved
      into it, every other job is unchanged, and memory, code, the last changed
      index and the halt count are untouched. */
  lemma ChangeSyncs(m: Machine, i: int)
    requires m.Valid() && 0 <= i < JOBS
    ensures var r := ChangedJob(m, i);
      r.Ok? && r.value.current == i &&
      r.value.regs.memBase == m.jobs[i].startMemoryIndex == i * (DATA_SIZE / JOBS) &&
      r.value.jobs[m.current] == m.Job().(currentAcc := m.regs.acc, currentIP := m.regs.ip) &&
      (forall k :: 0 <= k < JOBS && k != m.current ==> r.value.jobs[k] == m.jobs[k]) &&
      (i != m.current ==> r.value.regs.acc == m.jobs[i].currentAcc && r.value.regs.ip == m.jobs[i].currentIP) &&
      (i == m.current ==> r.value.regs == m.regs.(memBase := m.jobs[i].startMemoryIndex)) &&
      r.value.mem == m.mem && r.value.code == m.code && r.value.changed == m.changed &&
      r.value.halts == m.halts
  {
    assert LaidOut(m.jobs[i], i, |m.code|);
  }

  /** Switching from job a to job b and back restores a's accumulator and
      instruction pointer and re-synchronises the memory base with job a. */
  lemma {:induction false} ChangeRoundTrip(m: Machine, b: int)
    requires m.Valid() && 0 <= b < JOBS
    ensures ChangedJob(m, b).Ok?
    ensures ChangedJob(ChangedJob(m, b).value, m.current).Ok?
    ensures var back := ChangedJob(ChangedJob(m, b).value, m.current).value;
      back.current == m.current &&
      back.regs == Registers(m.regs.acc, m.regs.ip, m.Job().startMemoryIndex) &&
      back.mem == m.mem && back.code == m.code
  {
    var a := m.current;
    var there := ChangedJob(m, b).value;
    ChangeSyncs(m, b);
    ChangeSyncs(there, a);
    if a != b {
      assert there.jobs[a] == m.Job().(currentAcc := m.regs.acc, currentIP := m.regs.ip);
    }
  }

  // ---- clearJob ----

  /** clearJob zeroes exactly the current job's data quarter, blanks exactly its
      code segment, resets the registers to the job's origin, forgets the last
      changed index and resets that job alone. */
  lemma ClearJobEffect(m: Machine)
    requires m.Valid()
    ensures var c := ClearedJob(m);
      var j := m.Job();
      c.regs == Registers(0, j.startCodeIndex, j.startMemoryIndex) &&
      c.changed == NO_CHANGE && c.current == m.current && c.halts == m.halts &&
      (forall k :: 0 <= k < DATA_SIZE ==>
        c.mem[k] == if j.startMemoryIndex <= k < j.startMemoryIndex + DATA_SIZE / JOBS then 0 else m.mem[k]) &&
      (forall k :: 0 <= k < |m.code| ==>
        c.code[k] == if j.startCodeIndex <= k < j.startCodeIndex + j.codeSize then BLANK else m.code[k]) &&
      c.jobs[m.current] == Reset(j) &&
      (forall k :: 0 <= k < JOBS && k != m.current ==> c.jobs[k] == m.jobs[k])
  {
  }

  /** Right after clearJob, a step behaves as NOP: the instruction pointer moves
      from the code start to the next slot and the accumulator stays 0. */
  lemma ClearThenStep(m: Machine)
    requires m.Valid() && m.Job().codeSize > 0
    ensures var c := ClearedJob(m);
      NextState(c) == Stepped(c.(regs := c.regs.(ip := m.Job().startCodeIndex + 1)), Pass)
  {
    var c := ClearedJob(m);
    var j := m.Job();
    SegmentsInside(m.jobs, |m.code|, m.current);
    assert c.code[j.startCodeIndex] == BLANK;
    assert c.Job().startCodeIndex == j.startCodeIndex && c.Job().codeSize == j.codeSize;
  }

  // ---- a whole program ----

  /** LOD #5; ADD #3; STO 10; HALT in job 0: after four steps the accumulator and
      cell 10 hold 8 and the halt callback has been called once. */
  lemma Program(m: Machine)
    requires m.Valid() && m.current == 0 && m.Job().codeSize >= 4
    requires m.regs.ip == 0 && m.regs.memBase == 0
    requires m.code[..4] == [Instr(LOD, Some(Immediate), 5), Instr(ADD, Some(Immediate), 3),
                             Instr(STO, Some(Direct), 10), Instr(HALT, None, 0)]
    ensures var s1 := NextState(m);
      var s2 := NextState(s1.next);
      var s3 := NextState(s2.next);
      var s4 := NextState(s3.next);
      s1.outcome == s2.outcome == s3.outcome == s4.outcome == Pass &&
      s4.next.regs.acc == 8 && s4.next.mem[10] == 8 && s4.next.changed == 10 &&
      s4.next.halts == m.halts + 1
  {
    assert m.Job().startCodeIndex == 0;
    assert m.code[0] == Instr(LOD, Some(Immediate), 5);
    assert m.code[1] == Instr(ADD, Some(Immediate), 3);
    assert m.code[2] == Instr(STO, Some(Direct), 10);
    assert m.code[3] == Instr(HALT, None, 0);
    var s1 := NextState(m);
    assert s1.next.regs == Registers(5, 1, 0);
    var s2 := NextState(s1.next);
    assert s2.next.regs == Registers(8, 2, 0);
    var s3 := NextState(s2.next);
    assert s3.next.regs == Registers(8, 3, 0) && s3.next.mem[10] == 8;
  }
}
