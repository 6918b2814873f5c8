// The bounded stack that holds the free spots (server/pecas/pilha.go).
module SpotStack {

  class Stack {
    const data: array<int>
    var top: nat
    const size: nat

    ghost predicate Valid()
      reads this
    {
      data.Length == size && top <= size
    }

    /** What is stacked, bottom first. */
    ghost function Contents(): seq<int>
      requires Valid()
      reads this, data
    {
      data[..top]
    }

    constructor (size: nat)
      ensures Valid() && fresh(data) && this.size == size && Contents() == []
    {
      data := new int[size];
      top := 0;
      this.size := size;
    }

    method Push(value: int) returns (failed: bool)
      requires Valid()
      modifies this`top, data
      ensures Valid()
      ensures failed <==> |old(Contents())| >= size
      ensures Contents() == old(Contents()) + if failed then [] else [value]
    {
      if top >= size {
        return true;
      }
      data[top] := value;
      top := top + 1;
      failed := false;
    }

    method Pop() returns (failed: bool, value: int)
      requires Valid()
      modifies this`top
      ensures Valid()
      ensures failed <==> old(Contents()) == []
      ensures failed ==> value == 0 && Contents() == []
      ensures !failed ==> Contents() == old(Contents())[..|old(Contents())| - 1] && value == old(Contents())[|Contents()|]
    {
      if top == 0 {
        return true, 0;
      }
      top := top - 1;
      failed, value := false, data[top];
    }
  }
}
