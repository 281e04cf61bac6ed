/**
 * The mutable peg board: a fixed array of pegs, each a stack of disk weights
 * that its methods change in place. Every operation is proved against the
 * value model in BoardModel through the ghost field Contents, the board's
 * pegs read bottom to top.
 */
module Board {
  import BoardModel

  /** One peg: a last-in-first-out stack of disk weights, bottom first. */
  class Peg {
    var disks: seq<int>

    constructor ()
      ensures disks == []
    {
      disks := [];
    }

    /** Whether the peg holds no disk. */
    function IsEmpty(): (b: bool)
      reads this
      ensures b <==> disks == []
    {
      |disks| == 0
    }

    /** The number of disks on the peg. */
    function GetSize(): (n: nat)
      reads this
      ensures n == |disks|
    {
      |disks|
    }

    /** The weight at a position, counted from the bottom. */
    function GetDisk(index: int): (w: int)
      reads this
      requires 0 <= index < |disks|
      ensures w in disks && w == disks[index]
    {
      disks[index]
    }

    /** The weight of the top disk, or -1 when the peg is empty. */
    function Peek(): (w: int)
      reads this
      ensures disks == [] ==> w == -1
      ensures disks != [] ==> w == disks[|disks| - 1]
    {
      BoardModel.Top(disks)
    }

    /** Removes the top disk and returns its weight. */
    method Pop() returns (w: int)
      requires disks != []
      modifies this
      ensures disks + [w] == old(disks)
    {
      w := disks[|disks| - 1];
      disks := disks[..|disks| - 1];
    }

    /** Places a disk on top. */
    method Push(w: int)
      modifies this
      ensures disks == old(disks) + [w]
    {
      disks := disks + [w];
    }
  }

  class PegBoard {
    const pegs: array<Peg>
    /** The elements of pegs, which never change: the objects the board's methods may update. */
    ghost const Pegs: seq<Peg>
    /** The weights on every peg, bottom to top, in peg order. */
    ghost var Contents: BoardModel.Config
    /** Every moveDisk call made on the board so far, in order, whatever its outcome. */
    ghost var Calls: seq<BoardModel.Move>

    /** Pegs lists the board's pegs and nothing else, they are distinct objects, and Contents is what they hold. */
    ghost predicate Valid()
      reads this, pegs, Pegs
    {
      && |Pegs| == pegs.Length
      && (forall i :: 0 <= i < pegs.Length ==> pegs[i] == Pegs[i])
      && (forall i, j :: 0 <= i < j < pegs.Length ==> pegs[i] != pegs[j])
      && |Contents| == pegs.Length
      && (forall i :: 0 <= i < pegs.Length ==> pegs[i].disks == Contents[i])
    }

    /** A board of numOfPegs empty pegs. */
    constructor (numOfPegs: nat)
      ensures Valid() && fresh(pegs) && fresh(Pegs)
      ensures Contents == seq(numOfPegs, _ => []) && Calls == []
    {
      var made: seq<Peg> := [];
      var i := 0;
      while i < numOfPegs
        invariant 0 <= i <= numOfPegs && |made| == i
        invariant forall k :: 0 <= k < i ==> fresh(made[k]) && made[k].disks == []
        invariant forall k, l :: 0 <= k < l < i ==> made[k] != made[l]
      {
        var peg := new Peg();
        made := made + [peg];
        i := i + 1;
      }
      pegs := new Peg[numOfPegs](k requires 0 <= k < numOfPegs => made[k]);
      Pegs := made;
      Contents := seq(numOfPegs, _ => []);
      Calls := [];
    }

    /**
     * moveDisk: throws on an index outside the board, drops an illegal move,
     * and otherwise carries the top disk of src over to dest.
     */
    method MoveDisk(src: int, dest: int) returns (status: BoardModel.Status)
      requires Valid()
      modifies this, Pegs
      ensures Valid()
      ensures BoardModel.Step(status, Contents) == BoardModel.MoveDisk(old(Contents), src, dest)
      ensures Calls == old(Calls) + [BoardModel.Move(src, dest)]
    {
      Calls := Calls + [BoardModel.Move(src, dest)];
      if src < 0 || src > pegs.Length - 1 || dest < 0 || dest > pegs.Length - 1 {
        return BoardModel.OutOfBounds;
      }
      if pegs[src].IsEmpty() || (pegs[src].Peek() >= pegs[dest].Peek() && !pegs[dest].IsEmpty()) {
        return BoardModel.Ignored;
      }
      var myDisk := pegs[src].Pop();
      pegs[dest].Push(myDisk);
      Contents := Contents[src := pegs[src].disks][dest := pegs[dest].disks];
      status := BoardModel.Placed(myDisk);
    }

    /**
     * addDisk: pushes the disk when the peg is empty or its top is at least
     * as heavy; an index outside the board throws.
     */
    method AddDisk(src: int, w: int) returns (status: BoardModel.Status)
      requires Valid()
      modifies this, Pegs
      ensures Valid()
      ensures BoardModel.Step(status, Contents) == BoardModel.AddDisk(old(Contents), src, w)
      ensures Calls == old(Calls)
    {
      if src < 0 || src >= pegs.Length {
        return BoardModel.OutOfBounds;
      }
      if pegs[src].IsEmpty() || pegs[src].Peek() >= w {
        pegs[src].Push(w);
        Contents := Contents[src := pegs[src].disks];
        return BoardModel.Placed(w);
      }
      return BoardModel.Ignored;
    }

    /** The configuration printMove reads: every peg's weights, bottom to top, in peg order. */
    method Snapshot() returns (config: BoardModel.Config)
      requires Valid()
      ensures config == Contents
    {
      config := [];
      var i := 0;
      while i < pegs.Length
        invariant 0 <= i <= pegs.Length
        invariant config == Contents[..i]
      {
        var row: seq<int> := [];
        var j := 0;
        while j < pegs[i].GetSize()
          invariant 0 <= j <= |pegs[i].disks|
          invariant row == pegs[i].disks[..j]
        {
          row := row + [pegs[i].GetDisk(j)];
          j := j + 1;
        }
        assert row == Contents[i] by { assert pegs[i].disks[..j] == pegs[i].disks; }
        assert Contents[..i + 1] == Contents[..i] + [Contents[i]];
        config := config + [row];
        i := i + 1;
      }
    }
  }
}
