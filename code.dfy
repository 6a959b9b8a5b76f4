/** The code store, as the engine uses it: a fixed number of instruction
    slots with bounds-checked access and a range clear. */
module CodeStore {
  import opened JavaInt
  import opened Faults
  import opened Instructions

  /** The slots with those in [start, end) replaced by the blank encoding. */
  function ClearedCode(cells: seq<Instr>, start: int, end: int): seq<Instr>
  {
    seq(|cells|, k requires 0 <= k < |cells| => if start <= k < end then BLANK else cells[k])
  }

  class Code {
    var cells: seq<Instr>

    /** A store of `codeMax` blank slots. */
    constructor (codeMax: nat)
      ensures cells == seq(codeMax, _ => BLANK)
    {
      cells := seq(codeMax, _ => BLANK);
    }

    /** The triple at `index` (what `getOp`, `getMode` and `getArg` of `Model.java` read). */
    function Get(index: int): (r: Result<Instr>)
      reads this
      ensures r.Ok? <==> 0 <= index < |cells|
      ensures r.Ok? ==> r.value == cells[index]
      ensures r.Err? ==> r.error == MemoryAccess(index)
    {
      if 0 <= index < |cells| then Ok(cells[index]) else Err(MemoryAccess(index))
    }

    method SetCode(index: int, op: Int32, mode: Option<Mode>, arg: Int32) returns (r: Outcome)
      modifies this
      ensures r.Pass? <==> 0 <= index < |old(cells)|
      ensures r.Fail? ==> r.error == MemoryAccess(index) && cells == old(cells)
      ensures r.Pass? ==> cells == old(cells)[index := Instr(op, mode, arg)]
    {
      if index < 0 || index >= |cells| {
        return Fail(MemoryAccess(index));
      }
      cells := cells[index := Instr(op, mode, arg)];
      r := Pass;
    }

    method Clear(start: int, end: int)
      requires 0 <= start && end <= |cells|
      modifies this
      ensures cells == ClearedCode(old(cells), start, end)
    {
      cells := ClearedCode(cells, start, end);
    }
  }
}
