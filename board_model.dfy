/**
 * The peg board of the Tower of Hanoi as a value: every peg is the sequence of
 * its disk weights from bottom to top, and a board is the sequence of its pegs
 * in index order. MoveDisk and AddDisk say what PegBoard.moveDisk and
 * PegBoard.addDisk do to such a board; the class Board.PegBoard is proved
 * against them.
 */
module BoardModel {

  /** The weights on one peg, bottom to top; the top disk is the last element. */
  type Stack = seq<int>

  /** The weights on every peg of a board, in peg order. */
  type Config = seq<Stack>

  /**
   * What a board operation did: it threw ArrayIndexOutOfBoundsException, it
   * dropped the request silently, or it put the disk of the given weight on
   * top of a peg.
   */
  datatype Status = OutOfBounds | Ignored | Placed(weight: int)

  /** The status of an operation together with the board it leaves behind. */
  datatype Step = Step(status: Status, board: Config)

  /** One call moveDisk(src, dest): take the top disk of peg src to peg dest. */
  datatype Move = Move(src: int, dest: int)

  /** Peg.peek: the weight of the top disk, -1 for an empty peg. */
  function Top(s: Stack): int
  {
    if s == [] then -1 else s[|s| - 1]
  }

  /** A peg index the board has. */
  predicate InRange(cfg: Config, p: int)
  {
    0 <= p <= |cfg| - 1
  }

  /** The board invariant on one peg: weights strictly decrease from bottom to top. */
  ghost predicate Descending(s: Stack)
  {
    forall i, j :: 0 <= i < j < |s| ==> s[i] > s[j]
  }

  /** The weaker order addDisk keeps: weights never increase from bottom to top. */
  ghost predicate NonIncreasing(s: Stack)
  {
    forall i, j :: 0 <= i < j < |s| ==> s[i] >= s[j]
  }

  /** Every peg of the board is strictly decreasing. */
  ghost predicate Ordered(cfg: Config)
  {
    forall p :: 0 <= p < |cfg| ==> Descending(cfg[p])
  }

  /** Every peg of the board is non-increasing. */
  ghost predicate WeaklyOrdered(cfg: Config)
  {
    forall p :: 0 <= p < |cfg| ==> NonIncreasing(cfg[p])
  }

  /** The disks on the board, whatever peg they sit on. */
  function Disks(cfg: Config): multiset<int>
  {
    if cfg == [] then multiset{} else Disks(cfg[..|cfg| - 1]) + multiset(cfg[|cfg| - 1])
  }

  /** Pop the top disk of src, then push it onto dest, without any check. */
  function Transfer(cfg: Config, src: int, dest: int): Config
    requires InRange(cfg, src) && InRange(cfg, dest) && cfg[src] != []
  {
    var popped := cfg[src := cfg[src][..|cfg[src]| - 1]];
    popped[dest := popped[dest] + [Top(cfg[src])]]
  }

  /**
   * PegBoard.moveDisk: an index outside the board throws before anything is
   * touched; an empty source, or a non-empty destination whose top is not
   * heavier than the moving disk, drops the move; otherwise the top disk of
   * src goes onto dest.
   */
  function MoveDisk(cfg: Config, src: int, dest: int): Step
  {
    if src < 0 || src > |cfg| - 1 || dest < 0 || dest > |cfg| - 1 then
      Step(OutOfBounds, cfg)
    else if cfg[src] == [] || (Top(cfg[src]) >= Top(cfg[dest]) && cfg[dest] != []) then
      Step(Ignored, cfg)
    else
      Step(Placed(Top(cfg[src])), Transfer(cfg, src, dest))
  }

  /**
   * PegBoard.addDisk: the index is used unchecked, so one outside the board
   * throws; the disk is pushed iff the peg is empty or its top weighs at
   * least as much as the new disk, and otherwise nothing happens.
   */
  function AddDisk(cfg: Config, p: int, w: int): Step
  {
    if !InRange(cfg, p) then
      Step(OutOfBounds, cfg)
    else if cfg[p] == [] || Top(cfg[p]) >= w then
      Step(Placed(w), cfg[p := cfg[p] + [w]])
    else
      Step(Ignored, cfg)
  }

  /**
   * The three outcomes of moveDisk. It throws exactly when an index is off
   * the board, and then nothing changes. It drops the move exactly when the
   * source is empty or the destination's top weighs no more than the
   * source's (so always when src == dest), and then nothing changes either.
   * Otherwise src and dest differ, the source loses its top disk, the
   * destination gains it on top, and no other peg changes.
   */
  lemma MoveDiskOutcome(cfg: Config, src: int, dest: int)
    ensures var r := MoveDisk(cfg, src, dest);
      && |r.board| == |cfg|
      && (r.status.OutOfBounds? <==> src < 0 || src >= |cfg| || dest < 0 || dest >= |cfg|)
      && (!r.status.Placed? ==> r.board == cfg)
      && (InRange(cfg, src) && InRange(cfg, dest) ==>
            (r.status.Ignored? <==> cfg[src] == [] || (cfg[dest] != [] && Top(cfg[dest]) <= Top(cfg[src]))))
      && (r.status.Placed? ==>
            && src != dest
            && r.board[src] + [r.status.weight] == cfg[src]
            && r.board[dest] == cfg[dest] + [r.status.weight]
            && (forall p :: 0 <= p < |cfg| && p != src && p != dest ==> r.board[p] == cfg[p]))
  {
  }

  /**
   * The outcomes of addDisk: it throws exactly when the index is off the
   * board; it pushes exactly when the peg is empty or its top weighs at
   * least as much as the new disk (a non-strict test); otherwise, and when
   * it throws, nothing changes.
   */
  lemma AddDiskOutcome(cfg: Config, p: int, w: int)
    ensures var r := AddDisk(cfg, p, w);
      && |r.board| == |cfg|
      && (r.status.OutOfBounds? <==> p < 0 || p >= |cfg|)
      && (InRange(cfg, p) ==> (r.status.Placed? <==> cfg[p] == [] || Top(cfg[p]) >= w))
      && (r.status.Placed? ==> r.status.weight == w && r.board == cfg[p := cfg[p] + [w]])
      && (!r.status.Placed? ==> r.board == cfg)
  {
  }

  // ----- Stacks -----

  /** Removing the top disk keeps a peg strictly decreasing. */
  lemma DescendingPop(s: Stack)
    requires Descending(s) && s != []
    ensures Descending(s[..|s| - 1])
  {
  }

  /** A disk lighter than the top can go on a strictly decreasing peg. */
  lemma DescendingPush(s: Stack, w: int)
    requires Descending(s)
    requires s == [] || w < Top(s)
    ensures Descending(s + [w])
  {
    var t := s + [w];
    forall i, j | 0 <= i < j < |t| ensures t[i] > t[j] {
      if j == |s| && i < |s| - 1 {
        assert s[i] > s[|s| - 1];
      }
    }
  }

  /** The same for the weak order. */
  lemma NonIncreasingPush(s: Stack, w: int)
    requires NonIncreasing(s)
    requires s == [] || w <= Top(s)
    ensures NonIncreasing(s + [w])
  {
    var t := s + [w];
    forall i, j | 0 <= i < j < |t| ensures t[i] >= t[j] {
      if j == |s| && i < |s| - 1 {
        assert s[i] >= s[|s| - 1];
      }
    }
  }

  /** Pushing a disk onto any peg adds exactly that disk to the board. */
  lemma {:induction false} DisksPush(cfg: Config, p: int, w: int)
    requires 0 <= p < |cfg|
    ensures Disks(cfg[p := cfg[p] + [w]]) == Disks(cfg) + multiset{w}
  {
    var n := |cfg|;
    var c := cfg[p := cfg[p] + [w]];
    var front := cfg[..n - 1];
    if p == n - 1 {
      assert c[..n - 1] == front;
      assert multiset(cfg[p] + [w]) == multiset(cfg[p]) + multiset{w};
    } else {
      assert c[..n - 1] == front[p := front[p] + [w]];
      DisksPush(front, p, w);
      assert c[n - 1] == cfg[n - 1];
    }
  }

  // ----- moveDisk -----

  /** An accepted move keeps every peg strictly decreasing; other outcomes change nothing. */
  lemma MoveDiskKeepsOrder(cfg: Config, src: int, dest: int)
    requires Ordered(cfg)
    ensures Ordered(MoveDisk(cfg, src, dest).board)
  {
    var r := MoveDisk(cfg, src, dest);
    if r.status.Placed? {
      forall p | 0 <= p < |r.board| ensures Descending(r.board[p]) {
        if p == src {
          DescendingPop(cfg[src]);
          assert r.board[src] == cfg[src][..|cfg[src]| - 1];
        } else if p == dest {
          DescendingPush(cfg[dest], r.status.weight);
        }
      }
    }
  }

  /**
   * On a well-ordered board, between two different pegs and from a non-empty
   * source, moveDisk accepts a move exactly when carrying it out leaves the
   * board well ordered: its guard lets through every legal move and no
   * other.
   */
  lemma MoveDiskAcceptsExactlyLegalMoves(cfg: Config, src: int, dest: int)
    requires Ordered(cfg)
    requires InRange(cfg, src) && InRange(cfg, dest) && src != dest && cfg[src] != []
    ensures MoveDisk(cfg, src, dest).status.Placed? <==> Ordered(Transfer(cfg, src, dest))
  {
    var t := Transfer(cfg, src, dest);
    if MoveDisk(cfg, src, dest).status.Placed? {
      MoveDiskKeepsOrder(cfg, src, dest);
    } else {
      var k := |cfg[dest]|;
      assert t[dest][k - 1] == Top(cfg[dest]) && t[dest][k] == Top(cfg[src]);
      assert !Descending(t[dest]);
    }
  }

  /** An accepted move can always be undone by the opposite move, which is accepted too. */
  lemma MoveDiskUndo(cfg: Config, src: int, dest: int)
    requires Ordered(cfg)
    requires MoveDisk(cfg, src, dest).status.Placed?
    ensures var r := MoveDisk(cfg, src, dest);
            MoveDisk(r.board, dest, src) == Step(r.status, cfg)
  {
    var r := MoveDisk(cfg, src, dest);
    var w := r.status.weight;
    var s := cfg[src];
    var back := MoveDisk(r.board, dest, src);
    assert Top(r.board[dest]) == w;
    if r.board[src] != [] {
      assert s[|s| - 2] > s[|s| - 1];
      assert Top(r.board[src]) == s[|s| - 2];
    }
    assert back.status == Placed(w);
    assert back.board[dest] == cfg[dest];
    assert back.board[src] == s;
  }

  /** moveDisk neither creates nor destroys disks. */
  lemma MoveDiskKeepsDisks(cfg: Config, src: int, dest: int)
    ensures Disks(MoveDisk(cfg, src, dest).board) == Disks(cfg)
  {
    var r := MoveDisk(cfg, src, dest);
    MoveDiskOutcome(cfg, src, dest);
    if r.status.Placed? {
      var w := r.status.weight;
      var popped := cfg[src := r.board[src]];
      assert popped[src := popped[src] + [w]] == cfg;
      DisksPush(popped, src, w);
      assert popped[dest := popped[dest] + [w]] == r.board;
      DisksPush(popped, dest, w);
    }
  }

  // ----- addDisk -----

  /** addDisk keeps every peg non-increasing, and an accepted one adds exactly its disk. */
  lemma AddDiskKeepsWeakOrder(cfg: Config, p: int, w: int)
    requires WeaklyOrdered(cfg)
    ensures WeaklyOrdered(AddDisk(cfg, p, w).board)
    ensures AddDisk(cfg, p, w).status.Placed? ==> Disks(AddDisk(cfg, p, w).board) == Disks(cfg) + multiset{w}
  {
    var r := AddDisk(cfg, p, w);
    if r.status.Placed? {
      NonIncreasingPush(cfg[p], w);
      assert r.board[p] == cfg[p] + [w];
      DisksPush(cfg, p, w);
    }
  }

  /** addDisk keeps the strict board invariant whenever the new weight differs from the top's. */
  lemma AddDiskKeepsOrder(cfg: Config, p: int, w: int)
    requires Ordered(cfg)
    requires InRange(cfg, p) ==> cfg[p] == [] || Top(cfg[p]) != w
    ensures Ordered(AddDisk(cfg, p, w).board)
  {
    var r := AddDisk(cfg, p, w);
    if r.status.Placed? {
      DescendingPush(cfg[p], w);
      assert r.board[p] == cfg[p] + [w];
    }
  }

  /** The non-strict test of addDisk lets a disk sit on one of equal weight, which breaks the strict invariant. */
  lemma AddDiskAdmitsEqualWeight()
    ensures AddDisk([[1], []], 0, 1) == Step(Placed(1), [[1, 1], []])
    ensures Ordered([[1], []]) && !Ordered(AddDisk([[1], []], 0, 1).board)
  {
    assert [1] + [1] == [1, 1];
    var b := AddDisk([[1], []], 0, 1).board;
    assert b[0][0] == b[0][1];
  }
}
