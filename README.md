# Tower of Hanoi: a verified model

This project models the Tower of Hanoi exercise in `src/Towers/TowersOfHanoi.java`.
It has two parts:

- **The peg board.** `PegBoard` owns a fixed array of pegs. Each peg (the inner class `Peg`) is a
  last-in-first-out stack of disks, and a disk is known only by its integer weight.
  - `moveDisk(src, dest)` throws `ArrayIndexOutOfBoundsException` when either index is off the board.
  - It silently drops the move when the source is empty, or when the destination is non-empty and
    its top is not heavier than the moving disk.
  - Otherwise it pops the disk from `src` and pushes it onto `dest`.
  - `addDisk` is used only during set-up. It pushes when the peg is empty or its top weighs at least
    as much as the new disk.
- **The solver.** `towers(numDisks, src, util, dest, pb)` is the classic recursion:
  - it moves `n-1` disks to the utility peg;
  - it moves the largest disk to the destination;
  - it moves the `n-1` disks back on top of it.

  `main` seeds peg 0 with weights `numDisks..1` and then calls `towers(numDisks, 0, 1, 2, board)`.

The Dafny files follow that split:

- `board_model.dfy`, module `BoardModel`: the board as a value.
  - A peg is a `seq<int>` of weights, bottom to top, and a board is the sequence of its pegs.
  - `MoveDisk` and `AddDisk` are functions that return the operation's `Status` (`OutOfBounds` for the
    exception, `Ignored`, or `Placed(weight)`) together with the new board.
  - The lemmas state the board invariant. Every peg is strictly decreasing from bottom to top.
    Moves keep that invariant and never create or destroy a disk.
- `board.dfy`, module `Board`: the classes `Peg` and `PegBoard` as the source has them.
  - A peg's stack is a field that `Push` and `Pop` reassign.
  - The board holds a `const pegs: array<Peg>`. Two ghost fields go with it: `Contents`, the weights on
    each peg, and `Calls`, the log of every `moveDisk` call made on the board.
  - Every method is proved against the matching `BoardModel` function. The methods may change the
    array's pegs and nothing else.
  - `Snapshot` is the nested loop through which `printMove` reads the configuration.
- `towers_of_hanoi.dfy`, module `TowersOfHanoi`: the solver.
  - `Moves` is the sequence of `moveDisk` calls that `towers` issues.
  - `Run` plays such a sequence on a board value, and `Made` lists the calls actually made: all of
    them, or those up to the one that throws.
  - `Play` follows `towers` call by call on a board value. The recursive method `Towers` makes on a
    `PegBoard` exactly the calls `Play` makes, in order, and logs them in `Calls`.
  - `PlayIsRun` shows that `Play` makes the calls of `Moves` up to the first that throws.
  - `SetUp` is the seeding loop of `main`, and `Solve` is `main` without its input and output.
  - The lemmas prove three things. `towers` makes 2^n − 1 calls. From the seeded board every call is
    accepted. The whole stack ends on peg 2 in the same order, with pegs 0 and 1 empty. `Solve`
    states all three of the calls the method `Towers` makes on the board, through its log.

Two behaviours of the code are worth stating outright:

- **Disk counts of zero or less.** `towers` and the seeding loop of `main` accept any `int`. For
  `numDisks <= 0` neither makes a call. `Moves`, `Play`, `Towers` and `SetUp` take an `int` and do the
  same.
- **Bad index in `addDisk`.** `addDisk` indexes `pegs[src]` without a check (line 195). An index off
  the board therefore throws `ArrayIndexOutOfBoundsException`, which the model reports as
  `OutOfBounds`.

## Model

| member | source | states |
|---|---|---|
| BoardModel.MoveDiskOutcome | src/Towers/TowersOfHanoi.java:169-186 | moveDisk: throws (OutOfBounds, board unchanged) exactly when an index is off the board; drops the move (Ignored, board unchanged) exactly when the source is empty or the destination's top weighs no more than the source's, which includes src == dest; otherwise the source loses its top disk, the destination gains it on top, src != dest, and every other peg is unchanged |
| BoardModel.AddDiskOutcome | src/Towers/TowersOfHanoi.java:194-198 | addDisk: pushes the disk exactly when the peg is empty or its top weighs at least as much (non-strict), otherwise leaves the board unchanged; an index off the board throws |
| BoardModel.MoveDiskKeepsOrder | src/Towers/TowersOfHanoi.java:176-181 | if every peg is strictly decreasing bottom to top, it still is after any moveDisk |
| BoardModel.MoveDiskAcceptsExactlyLegalMoves | src/Towers/TowersOfHanoi.java:176-181 | on a well-ordered board, between two different pegs and from a non-empty source, moveDisk accepts a move if and only if carrying it out keeps the board well ordered |
| BoardModel.MoveDiskUndo | src/Towers/TowersOfHanoi.java:176-181 | on a well-ordered board, an accepted move from src to dest is undone by the move from dest to src, which is accepted too and reports the same disk |
| BoardModel.MoveDiskKeepsDisks | src/Towers/TowersOfHanoi.java:180-181 | the multiset of weights on the whole board is the same after any moveDisk |
| BoardModel.DisksPush | src/Towers/TowersOfHanoi.java:329-331 | pushing a disk onto any peg adds exactly that disk to the board's multiset |
| BoardModel.AddDiskKeepsWeakOrder | src/Towers/TowersOfHanoi.java:194-198 | addDisk keeps every peg non-increasing, and an accepted addDisk adds exactly its disk to the board |
| BoardModel.AddDiskKeepsOrder | src/Towers/TowersOfHanoi.java:194-198 | addDisk keeps the strict invariant whenever the new weight differs from the top's weight |
| BoardModel.AddDiskAdmitsEqualWeight | src/Towers/TowersOfHanoi.java:195 | the non-strict test lets a disk of weight 1 go onto a disk of weight 1, so the strict invariant can break during set-up |
| Board.Peg.constructor | src/Towers/TowersOfHanoi.java:261-264 | a new peg holds no disk |
| Board.Peg.IsEmpty | src/Towers/TowersOfHanoi.java:278-280 | true exactly when the peg holds no disk |
| Board.Peg.GetSize | src/Towers/TowersOfHanoi.java:286-288 | the number of disks on the peg |
| Board.Peg.GetDisk | src/Towers/TowersOfHanoi.java:296-298 | the weight at a position counted from the bottom, which is one of the peg's disks |
| Board.Peg.Peek | src/Towers/TowersOfHanoi.java:304-310 | the top weight, or -1 when the peg is empty |
| Board.Peg.Pop | src/Towers/TowersOfHanoi.java:316-322 | removes the top disk and returns it: the new stack plus the returned weight is the old stack |
| Board.Peg.Push | src/Towers/TowersOfHanoi.java:329-331 | the new stack is the old one with the disk on top |
| Board.PegBoard.constructor | src/Towers/TowersOfHanoi.java:149-158 | a board of numOfPegs distinct, empty pegs, with no moveDisk call made yet |
| Board.PegBoard.MoveDisk | src/Towers/TowersOfHanoi.java:169-186 | performs exactly BoardModel.MoveDisk on the board's contents, returns its status, keeps the pegs distinct, and appends the call (src, dest) to the log whatever its outcome |
| Board.PegBoard.AddDisk | src/Towers/TowersOfHanoi.java:194-198 | performs exactly BoardModel.AddDisk on the board's contents and returns its status; the moveDisk log is unchanged |
| Board.PegBoard.Snapshot | src/Towers/TowersOfHanoi.java:206-214 | the configuration read by printMove: every peg's weights bottom to top, in peg order, equal to the board's contents |
| TowersOfHanoi.MovesCount | src/Towers/TowersOfHanoi.java:91-101 | towers makes no moveDisk call for numDisks <= 0, the single call moveDisk(src, dest) for 1, and 2^n - 1 calls for n >= 1 |
| TowersOfHanoi.MovesStayOnPegs | src/Towers/TowersOfHanoi.java:91-101 | with three distinct pegs, every call goes between two of them and never from a peg to itself |
| TowersOfHanoi.RunAppend | src/Towers/TowersOfHanoi.java:96-100 | making calls a then b is making a, then b unless a threw; all of a + b are accepted exactly when a's are and then b's are |
| TowersOfHanoi.MadeAppend | src/Towers/TowersOfHanoi.java:96-100 | the calls made while playing a + b are those of a, then those of b unless a threw |
| TowersOfHanoi.MadePrefix | src/Towers/TowersOfHanoi.java:169-173 | the calls made are a prefix of the requests; they are all of them when nothing threw; when one threw, it is the last call made |
| TowersOfHanoi.PlayIsRun | src/Towers/TowersOfHanoi.java:91-101 | following towers call by call gives the board and thrown flag of Run of Moves, and appends to the log exactly Made of Moves: the calls of Moves up to the first that throws |
| TowersOfHanoi.AcceptedRunDoesNotThrow | src/Towers/TowersOfHanoi.java:169-173 | a sequence of calls that moveDisk all accepts never throws |
| TowersOfHanoi.MovesCarryTower | src/Towers/TowersOfHanoi.java:91-101 | when the top n disks of src are strictly decreasing and lighter than the disk below them and than the tops of util and dest, towers(n, src, util, dest) has every call accepted and moves exactly those n disks, in the same order, onto dest, leaving every other disk in place |
| TowersOfHanoi.MovesCarryTowerStep | src/Towers/TowersOfHanoi.java:96-100 | the n >= 2 case of MovesCarryTower: the three legs of the recursion compose |
| TowersOfHanoi.SolveCorrect | src/Towers/TowersOfHanoi.java:49-53 | from the board main seeds (n..1 on peg 0), towers(n, 0, 1, 2) makes max(0, 2^n - 1) calls; every one is accepted and none throws; peg 2 ends with n..1 bottom to top and pegs 0 and 1 empty |
| TowersOfHanoi.SolveTrace | src/Towers/TowersOfHanoi.java:49-78 | followed call by call from the seeded board, towers(n, 0, 1, 2) never throws, ends with n..1 on peg 2 and the other pegs empty, and makes exactly the calls of Moves, max(0, 2^n - 1) of them, each accepted |
| TowersOfHanoi.TwoDisks | src/Towers/TowersOfHanoi.java:91-101 | two disks take the moves 0 to 1, 0 to 2, 1 to 2 and end as [2, 1] on peg 2 |
| TowersOfHanoi.TowerDescending | src/Towers/TowersOfHanoi.java:50-53 | the seeded stack numDisks..1 is strictly decreasing, heaviest at the bottom and weight 1 on top |
| TowersOfHanoi.Towers | src/Towers/TowersOfHanoi.java:91-101 | the method's final board, thrown flag and moveDisk log are those of Play from the old board and log: it makes exactly Play's calls, in order, and stops at a thrown exception; with PlayIsRun these are the calls of Moves |
| TowersOfHanoi.SetUp | src/Towers/TowersOfHanoi.java:49-53 | a three-peg board whose peg 0 holds numDisks..1 bottom to top, whose other pegs are empty, and on which no moveDisk call has been made |
| TowersOfHanoi.Solve | src/Towers/TowersOfHanoi.java:49-78 | main without input and output: after seeding and solving, nothing has thrown, the whole stack n..1 sits on peg 2, and the board's log of moveDisk calls is exactly Moves(n, 0, 1, 2): max(0, 2^n - 1) calls, every one accepted from the seeded board |

## Left out

- Reading the disk count is left out. That covers the command-line argument, `Scanner`,
  `Integer.parseInt` and `System.exit` (lines 20-46). It is input and output; `Solve` and `SetUp`
  take the count as a parameter.
- All printing is left out. That covers the header, the `init` row, the format strings,
  `setPrintFormat`, and `printMove`'s output (lines 56-75, 183-185, 216-239). The configuration that
  `printMove` reads is modelled by `PegBoard.Snapshot`. The reported weight of a move is the `weight`
  of `Status.Placed`.
- The peg display names (`'A' + i`, `getName`) are used only for printing, so they are left out.
- `Disk` objects become plain integer weights, and `Disk.getWeight` is the identity on them.
  `Disk.setWeight` is never called, so it is left out. Disks are never shared between pegs.
- The unused default constructor `Peg()` is left out.
- Peg.Pop: requires a non-empty peg instead of returning `null`. `moveDisk` calls it only after
  checking that the source is not empty.
- Peg.GetDisk: requires an index within the peg. `Stack.get` would throw on a bad index, but its only
  caller, `printMove`, never passes one.
- Board.PegBoard.constructor: takes a `nat`. `new Peg[n]` with a negative `n` would throw, but the
  only caller passes `NUM_PEGS = 3`. The array is filled from a sequence of freshly made pegs rather
  than one element at a time.
- Exceptions are modelled as return values. `MoveDisk` and `AddDisk` return `OutOfBounds`. `Towers`
  returns `thrown` and stops at the first one, as the uncaught exception would.
- Java `int` arithmetic is left out: overflow of weights, of the move count and of `numDisks - 1`.
  All of these are unbounded integers here.
- Call-stack depth is left out. Exhaustion for very large `n` is outside the model.
