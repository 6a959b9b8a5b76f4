/** The data memory: 2048 bounds-checked `int` cells and the index of the
    last cell written. */
module Memory {
  import opened JavaInt
  import opened Faults

  const DATA_SIZE: int := 2048

  /** `changedIndex` when no cell has been written since creation or the last clear. */
  const NO_CHANGE: int := -1

  /** A bounds-checked read of a cell sequence. */
  function Read(cells: seq<Int32>, index: int): Result<Int32>
  {
    if 0 <= index < |cells| then Ok(cells[index]) else Err(MemoryAccess(index))
  }

  /** A bounds-checked write: the new cells, or the access error. */
  function Write(cells: seq<Int32>, index: int, value: Int32): (r: Result<seq<Int32>>)
    ensures r.Ok? <==> Read(cells, index).Ok?
    ensures r.Err? ==> r.error == MemoryAccess(index)
    ensures r.Ok? ==> |r.value| == |cells| && Read(r.value, index) == Ok(value)
    ensures r.Ok? ==> forall j :: j != index ==> Read(r.value, j) == Read(cells, j)
  {
    if 0 <= index < |cells| then Ok(cells[index := value]) else Err(MemoryAccess(index))
  }

  /** The cells with those in [start, end) set to zero. */
  function Cleared(cells: seq<Int32>, start: int, end: int): (r: seq<Int32>)
  {
    seq(|cells|, k requires 0 <= k < |cells| => if start <= k < end then 0 else cells[k])
  }

  class Data {
    const data: array<Int32>
    var changedIndex: int

    ghost predicate Valid()
      reads this
    {
      data.Length == DATA_SIZE && NO_CHANGE <= changedIndex < DATA_SIZE
    }

    /** A new memory: every cell zero, nothing written yet. */
    constructor ()
      ensures Valid() && fresh(data)
      ensures data[..] == seq(DATA_SIZE, _ => 0) && changedIndex == NO_CHANGE
    {
      data := new Int32[DATA_SIZE](_ => 0);
      changedIndex := NO_CHANGE;
    }

    method GetData(index: int) returns (r: Result<Int32>)
      requires Valid()
      ensures r.Ok? <==> 0 <= index < DATA_SIZE
      ensures r.Ok? ==> r.value == data[index]
      ensures r.Err? ==> r.error == MemoryAccess(index)
      ensures r == Read(data[..], index)
    {
      if index < 0 || index > DATA_SIZE - 1 {
        return Err(MemoryAccess(index));
      }
      return Ok(data[index]);
    }

    method SetData(index: int, value: Int32) returns (r: Outcome)
      requires Valid()
      modifies this, data
      ensures Valid()
      ensures r.Pass? <==> 0 <= index < DATA_SIZE
      ensures r.Fail? ==> r.error == MemoryAccess(index)
      ensures r.Pass? ==> data[..] == old(data[..])[index := value] && changedIndex == index
      ensures r.Fail? ==> data[..] == old(data[..]) && changedIndex == old(changedIndex)
    {
      if index < 0 || index > DATA_SIZE - 1 {
        return Fail(MemoryAccess(index));
      }
      changedIndex := index;
      data[index] := value;
      r := Pass;
    }

    /** The last written cell: NO_CHANGE or an index inside the memory. */
    function GetChangedIndex(): (r: int)
      reads this, data
      ensures Valid() ==> r == NO_CHANGE || Read(data[..], r).Ok?
    {
      changedIndex
    }

    /** Zeroes [start, end) one cell at a time with no range check of its own:
        a start below 0 fails at once, an end beyond the memory fails after the
        cells from start to the end of memory are zeroed. `changedIndex` is reset
        only when the whole loop completes. */
    method ClearData(start: int, end: int) returns (r: Outcome)
      requires Valid()
      modifies this, data
      ensures Valid()
      ensures r.Pass? <==> start >= end || (0 <= start && end <= DATA_SIZE)
      ensures r.Pass? ==> data[..] == Cleared(old(data[..]), start, end) && changedIndex == NO_CHANGE
      ensures r.Fail? ==> r.error == IndexOutOfBounds(if 0 <= start < DATA_SIZE then DATA_SIZE else start)
      ensures r.Fail? ==> changedIndex == old(changedIndex)
      ensures r.Fail? ==> data[..] == Cleared(old(data[..]), start, if start < 0 then start else DATA_SIZE)
    {
      var i := start;
      while i < end
        invariant start <= end ==> start <= i <= end
        invariant start > end ==> i == start
        invariant 0 <= start || i == start
        invariant i <= DATA_SIZE || i == start
        invariant data[..] == Cleared(old(data[..]), start, i)
        invariant changedIndex == old(changedIndex)
      {
        if i < 0 || i >= DATA_SIZE {
          return Fail(IndexOutOfBounds(i));
        }
        data[i] := 0;
        i := i + 1;
      }
      changedIndex := NO_CHANGE;
      r := Pass;
    }
  }
}
