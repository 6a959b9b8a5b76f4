# Accumulator-machine simulator engine in Dafny

This project models the instruction-execution engine of a small
single-accumulator computer simulator (`project/Model.java`) and its word
memory (`project/Data.java`). The machine has:

- a register file (accumulator, instruction pointer, memory base);
- a 2048-cell data memory of Java `int`s, which records the last index written;
- a code store of `(opcode, mode, argument)` triples;
- four jobs. Each job owns a quarter of the code store and a quarter of the
  memory, and holds its own saved accumulator and instruction pointer.

Fourteen opcodes are dispatched: NOP, LOD, STO, ADD, SUB, MUL, DIV, AND, NOT,
CMPL, CMPZ, JUMP, JMPZ and HALT. Slots 13 and 14 are empty. Operands are
resolved through the addressing-mode chain Indirect → Direct → Immediate.

## Layout

- `java_int.dfy` (`JavaInt`): the `Int32` range and `Wrap`, Java's
  two's-complement wrap-around. It also holds `Quot`, division truncating
  toward zero. ADD, SUB, MUL and DIV wrap. So do `ip++`, `ip += arg`,
  `memoryBase + arg` and `cell + startCodeIndex`.
- `faults.dfy` (`Faults`): the error kinds, plus `Option`, `Result` and `Outcome`.
  These stand in for the exceptions.
- `data.dfy` (`Memory`): class `Data` over an `array<Int32>` and its
  `changedIndex` field. It has the pure `Read`, `Write` and `Cleared` on
  sequences.
- `instructions.dfy` (`Instructions`): opcodes, `Mode`, `Mode.next()` as `Next`, and
  the instruction triple `Instr`.
- `code.dfy` (`CodeStore`): class `Code`, the code store. It is modelled only
  as the engine uses it.
- `jobs.dfy` (`Jobs`): the `Job` record, the layout of the four jobs, and `Reset`.
- `semantics.dfy` (`Semantics`): the reference semantics. Each function takes
  one `Machine` value holding the whole engine state. `Execute` follows the
  dispatch-table handlers case for case, including their self-recursion on
  `mode.next()`. `NextState` is `step()`. `ChangedJob` is `changeToJob`.
  `ClearedJob` is `clearJob`.
- `engine.dfy` (`Engine`): classes `Cpu` and `Model`, with the fields and
  methods of `Model.java`. Each state-changing method is proved to leave
  exactly the abstract state its contract gives. For `ApplyValue`,
  `ApplyAddress`, `Dispatch`, `Step`, `ChangeToJob` and `ClearJob` that state
  is the matching `Semantics` function. The setters' contracts give the new
  state directly; `SetData` goes through `Memory.Write`. The handlers' recursion becomes
  `ResolveOperand`, a loop of at most two memory reads. It feeds
  `ApplyValue`, `ApplyAddress` or the jump update.
- `properties.dfy` (`Properties`): lemmas about the reference semantics.

`Model` exposes the getters `GetAccum`, `GetInstrPtr`, `GetMemBase`,
`GetCurrentJob` and `GetChangedIndex` as reading functions. Each contract ties
the value read to the abstract `Machine` state.

I/O, clocks and randomness do not occur in the core. The halt callback is a
counter, `halts`: every call adds one. The store size `CODE_MAX` and each
job's code size are constructor parameters.

## Model

| member | source | states |
|---|---|---|
| JavaInt.Wrap | project/Model.java:58-60 | The 32-bit result of an int operation. It is the exact value whenever that value fits, and is otherwise congruent to it modulo 2^32. |
| JavaInt.Quot | project/Model.java:90 | Java's `/` before wrapping: the remainder a - q*b is smaller than b in magnitude and is zero or has a's sign, so the quotient rounds toward zero. The quotient is never larger than a in magnitude. |
| JavaInt.Div | project/Model.java:90 | The int quotient is the truncated quotient, except that MIN_VALUE / -1 overflows to MIN_VALUE. |
| Memory.Write | project/Data.java:17-21 | A write succeeds exactly when a read of that index would. A read of the written index then gives the value back. Every other index reads as before. The length is unchanged. An out-of-range index fails with MemoryAccess. |
| Memory.Data.constructor | project/Data.java:4-6 | A new memory has 2048 cells, all 0, and changedIndex -1. |
| Memory.Data.GetData | project/Data.java:8-11 | It succeeds exactly for 0 <= index <= 2047 and returns that cell. Otherwise it fails with MemoryAccess(index). |
| Memory.Data.SetData | project/Data.java:17-21 | For 0 <= index <= 2047 only that cell changes, to the value, and changedIndex becomes index. A rejected index fails and leaves the cells and changedIndex unchanged. |
| Memory.Data.ClearData | project/Data.java:27-32 | It succeeds exactly when the range is empty or lies inside memory. It then zeroes exactly [start, end), leaves all other cells alone and sets changedIndex to -1. Otherwise it fails as the unchecked array store does. A start below 0 fails with nothing changed. Otherwise the cells from start to the end of memory are zeroed first. In both cases changedIndex is kept. |
| Memory.Data.GetChangedIndex | project/Data.java:23-25 | In a valid memory the index read is -1 or the index of an existing cell. |
| Instructions.Next | project/Model.java:303-310 | next() gives a mode exactly for Indirect and Direct (null for Immediate), and always one dereference closer to Immediate. |
| CodeStore.Code.Get | project/Model.java:242-252 | A slot's triple for an index inside the store. Any other index fails with MemoryAccess. |
| CodeStore.Code.SetCode | project/Model.java:230-232 | It stores the triple at an in-range index and changes no other slot. An out-of-range index fails and changes nothing. |
| CodeStore.Code.Clear | project/Model.java:280 | Slots in [start, end) become the blank encoding (NOP, no mode, 0). All others are unchanged. |
| Jobs.Reset | project/Model.java:284 | A reset job has saved accumulator 0, saved instruction pointer at its code start and the initial lifecycle state. Its id and segment bounds are unchanged. |
| Jobs.SegmentsInside | project/Model.java:19-25 | For each of the four jobs laid out by the constructor, the code segment lies inside the code store and the data quarter inside memory. |
| Jobs.SegmentsDisjoint | project/Model.java:19-25 | For two jobs k < l laid out by the constructor, job k's data quarter ends no later than job l's begins, and job k's code segment ends no later than job l's code start. |
| Semantics.Resolve | project/Model.java:37 | Resolving takes no read at the terminal mode, one read of memory[base+arg] a step above it, and two chained reads two steps above. A failed read's error comes out unchanged. |
| Semantics.Execute | project/Model.java:28-168 | A successful instruction keeps the machine well-formed. It never changes the code, the jobs, the current job or the memory base. Only STO changes memory or changedIndex. Only HALT calls the halt callback, and exactly once. |
| Semantics.ExecuteResolves | project/Model.java:35-163 | For every operand handler and every allowed mode, the self-recursive handler equals "resolve to the terminal mode, then act once". The resolution's error is raised first. |
| Semantics.NextState | project/Model.java:262-276 | step() always leaves a well-formed machine. |
| Semantics.ChangedJob | project/Model.java:212-220 | A successful job switch leaves a well-formed machine. |
| Semantics.ClearedJob | project/Model.java:278-285 | clearJob leaves a well-formed machine. |
| Engine.Cpu.constructor | project/Model.java:296-300 | A new register file holds 0 in all three registers. |
| Engine.Model.constructor | project/Model.java:17-26 | Job k (0..3) gets id k, code start k*CODE_MAX/4, memory start k*512, zero saved registers and the initial state. Job 0 is current. Memory and code are blank and no halt has occurred. |
| Engine.Model.GetInstrPtr | project/Model.java:176-178 | It reads the abstract machine's instruction pointer. |
| Engine.Model.GetAccum | project/Model.java:180-182 | It reads the abstract machine's accumulator. |
| Engine.Model.GetCurrentJob | project/Model.java:208-210 | In a valid engine it returns the job in slot `current`, which has id `current` and that slot's segment layout. |
| Engine.Model.GetChangedIndex | project/Model.java:226-228 | It reads the abstract machine's last changed index, which in a valid engine is -1 or the index of an existing data cell. |
| Engine.Model.GetMemBase | project/Model.java:254-256 | It reads the abstract machine's memory base. |
| Engine.Model.SetAccum | project/Model.java:196-198 | Only the accumulator changes, to the given value. |
| Engine.Model.SetInstrPtr | project/Model.java:200-202 | Only the instruction pointer changes, to the given value. |
| Engine.Model.SetMemBase | project/Model.java:204-206 | Only the memory base changes, to the given value. |
| Engine.Model.GetData | project/Model.java:192-194 | It returns a bounds-checked read of the engine's memory. |
| Engine.Model.SetData | project/Model.java:188-190 | The engine's state changes exactly as a bounds-checked write plus changedIndex := index, or not at all on failure. |
| Engine.Model.SetCode | project/Model.java:230-232 | Only the addressed code slot changes, and only for an in-range index. |
| Engine.Model.ResolveOperand | project/Model.java:37-47 | The bounded loop of at most two reads returns exactly what the recursive resolution gives. |
| Engine.Model.ApplyValue | project/Model.java:35-104 | The imperative LOD/ADD/SUB/MUL/DIV/AND action on a literal leaves exactly the state the reference semantics gives. On DivideByZero nothing changes. |
| Engine.Model.ApplyAddress | project/Model.java:45-138 | The imperative STO/CMPL/CMPZ action on an address leaves exactly the reference state. On a memory fault nothing changes. |
| Engine.Model.Dispatch | project/Model.java:28-168 | Dispatching one (op, mode, arg) changes the engine exactly as Execute says. On failure it changes nothing and returns the same error. |
| Engine.Model.Step | project/Model.java:262-276 | One step leaves exactly the state and the outcome NextState gives. |
| Engine.Model.ChangeToJob | project/Model.java:212-220 | The switch changes the engine exactly as ChangedJob says. An invalid id changes nothing. |
| Engine.Model.ClearJob | project/Model.java:278-285 | The engine's new state is exactly ClearedJob of the old one. |
| Properties.LodImmediate | project/Model.java:35-42 | LOD with Immediate sets the accumulator to arg and advances the instruction pointer by one (wrapping only at MAX_VALUE). |
| Properties.LodDirect | project/Model.java:35-42 | LOD with Direct loads memory[memoryBase+arg]. |
| Properties.LodIndirect | project/Model.java:35-42 | LOD with Indirect loads memory[memoryBase + memory[memoryBase+arg]]. |
| Properties.LodOutOfRange | project/Data.java:9 | A dereference whose absolute address leaves memory fails with MemoryAccess at that address. |
| Properties.StoRejectsMode | project/Model.java:46 | STO with no mode or Immediate fails with InvalidMode, before any read or write. |
| Properties.StoDirect | project/Model.java:45-52 | STO with Direct stores the accumulator at memoryBase+arg and records that index. Every other cell and the accumulator are unchanged, and the instruction pointer advances by one. |
| Properties.ExecuteChangesOneCell | project/Model.java:45-52 | No successful instruction changes any cell other than the one recorded as changed. |
| Properties.DivResult | project/Model.java:85-93 | DIV fails with DivideByZero exactly when the resolved operand is 0. Otherwise the accumulator becomes the wrapped truncated quotient and the instruction pointer advances by one. |
| Properties.QuotTruncates | project/Model.java:90 | Worked cases of the general law in `JavaInt.Quot`: -7/2 = -3, where Euclidean division gives -4; 7/-2 = -3; -7/-2 = 3. |
| Properties.NoOperandRejectsMode | project/Model.java:29-32 | NOP and NOT given any mode fail with InvalidMode. |
| Properties.LogicIsBoolean | project/Model.java:96-114 | After AND or NOT the accumulator is 0 or 1. NOT gives 1 exactly when the accumulator was 0. AND gives 1 exactly when the accumulator and the resolved operand are both nonzero. |
| Properties.CompareRejectsMode | project/Model.java:118 | CMPL and CMPZ with no mode or Immediate fail with InvalidMode. |
| Properties.CompareResult | project/Model.java:117-138 | After Direct resolution, CMPL sets the accumulator to 1 exactly when the cell is negative, CMPZ exactly when it is zero, and to 0 otherwise. Only the instruction pointer also moves. |
| Properties.JumpAbsolute | project/Model.java:142-145 | JUMP with no mode sets the instruction pointer to memory[memoryBase+arg] + the current job's code start. |
| Properties.JumpRelative | project/Model.java:146-149 | JUMP with Immediate adds arg to the instruction pointer. |
| Properties.JumpAbsoluteLanding | project/Model.java:143-144 | An absolute jump lands inside the current job's code segment exactly when the stored target is in [0, codeSize). |
| Properties.JmpzNonzero | project/Model.java:162 | JMPZ with a nonzero accumulator only advances the instruction pointer by one, under any mode, and reads no memory. |
| Properties.JmpzZeroIsJump | project/Model.java:153-163 | JMPZ with a zero accumulator behaves exactly as JUMP under every mode. |
| Properties.UnassignedOpcodes | project/Model.java:271 | Opcodes 13, 14 and those outside 0..15 fail with UnknownOpcode. |
| Properties.StepOutsideSegment | project/Model.java:265-266 | An instruction pointer outside [startCodeIndex, startCodeIndex+codeSize) fails with CodeAccess. The halt callback is called once and nothing else changes. |
| Properties.StepHaltCount | project/Model.java:272-275 | A failing step changes only the halt count, by exactly one. A succeeding step calls the halt callback only for HALT. |
| Properties.StepNopWithMode | project/Model.java:30 | Stepping a NOP that has a mode fails with InvalidMode and leaves every register unchanged. |
| Properties.Steps | project/Model.java:262-276 | Any number of successive steps leaves a well-formed machine and never lowers the halt count. |
| Properties.StepsKeepLayout | project/Model.java:262-276 | No run of steps changes the code store, the jobs, the current job or the memory base. |
| Properties.ChangeRejectsBadId | project/Model.java:213 | changeToJob with an id outside 0..3 fails with InvalidJob. |
| Properties.ChangeSyncs | project/Model.java:212-220 | After a switch to job i: the memory base is i*512 and the registers are job i's saved ones. The outgoing job is the old one with the live accumulator and instruction pointer saved into it. Every other job is unchanged. Memory, code, changedIndex and the halt count are unchanged. |
| Properties.ChangeRoundTrip | project/Model.java:212-220 | Switching from a to any b and back to a restores a's accumulator and instruction pointer and sets the memory base to a's data origin. |
| Properties.ClearJobEffect | project/Model.java:278-285 | clearJob zeroes exactly the current job's data quarter and blanks exactly its code segment. It sets the registers to (0, code start, memory start) and changedIndex to -1. It resets the current job and leaves the other jobs unchanged. |
| Properties.ClearThenStep | project/Model.java:278-285 | A step right after clearJob acts as NOP. The instruction pointer goes from the code start to the next slot and nothing else changes. |
| Properties.Program | project/Model.java:35-168 | LOD #5; ADD #3; STO 10; HALT run in four steps with no failure. The accumulator ends at 8, cell 10 holds 8 and is recorded as changed, and the halt callback is called exactly once. |

## Left out

- Rendering (`getHex`, `getText`): it is display only and delegates to the code store's renderers.
- The lifecycle-state enumeration, `enter()`, `getCurrentState` and
  `setCurrentState`: these belong to the view layer. A job's state is an
  opaque `JobState` that reset puts back to its initial value.
- The default constructor, whose halt callback exits the process. The halt
  callback is a counter, and what a driver does when it is called is not modelled.
- The `MNEMONICS`/`OPCODES` maps and the mnemonic sets: they are static data
  for the assembler and renderer, and dispatch does not use them.
- Exception classes and messages: they become the `Error` cases. Opcodes 13
  and 14 (a null table entry) and opcodes outside 0..15 (an array index
  failure) are both `UnknownOpcode`.
- `Model.get(int)`, which hands out the handler object: the closures of the
  dispatch table become one `match` on the opcode.
- `getData()`, which returns the raw array: the aliasing it exposes is not modelled.
- The periodic timer that drives `step()` (`projectview/TimerControl.java`): UI
  plumbing and timer concurrency.
- `Code.java` and `Job.java` are not part of this model. Both are modelled
  from their use in `Model.java`:
  - the code accessors are bounds-checked;
  - `clear` writes the blank triple (NOP, no mode, 0);
  - a new job's saved accumulator and instruction pointer are 0, Java's defaults;
  - `reset()` zeroes the saved accumulator, puts the saved instruction
    pointer at the job's code start and restores the initial state;
  - each job's code size is a constructor parameter between 0 and CODE_MAX/4.
- Engine.Model.constructor: requires 3 * CODE_MAX to fit an `int`, because the
  constructor in `Model.java` computes `i*CODE_MAX/4` in `int`. A larger store would wrap, and this
  case is not modelled.
- Step fetch (Engine.Model.Step): a code-store fetch failure cannot happen,
  because job segments lie inside the store. The fetch is therefore modelled
  without its error path.
- Concurrency: `Model.java` is single-threaded and synchronous.

Two behaviours of the Java code that the model keeps:

- `clearData` in `Data.java` has no range check of its own. The model keeps its
  array-bounds failure, including the partial clear before an end beyond memory.
- An absolute `JUMP` in `Model.java` is not confined to the job's code segment.
  `Properties.JumpAbsoluteLanding` states exactly when it lands inside.
