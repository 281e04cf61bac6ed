/**
 * The recursive Tower of Hanoi solver and the set-up of its board. Moves is
 * the sequence of moveDisk requests towers issues, Run plays such a sequence
 * on a board value and Made lists the calls actually made. Play follows towers
 * call by call; the method Towers makes on a PegBoard exactly the calls Play
 * makes, and PlayIsRun shows those are the calls of Moves up to the first that
 * throws. The lemmas count the moves and show that, from the seeded board,
 * every move is accepted and the whole stack ends on the destination.
 */
module TowersOfHanoi {
  import opened BoardModel
  import opened Board

  /** The number of pegs of the exercise. */
  const NumPegs := 3

  /** What a sequence of requests leaves on the board, and whether one of them threw. */
  datatype Exec = Exec(board: Config, thrown: bool)

  /** What a call to towers leaves on the board, whether it threw, and the moveDisk calls it made. */
  datatype Trace = Trace(board: Config, thrown: bool, calls: seq<Move>)

  /**
   * The requests towers(numDisks, src, util, dest, pb) issues, in order: one
   * move for a single disk, the classic three-part recursion for more, and
   * nothing when numDisks is zero or negative.
   */
  function Moves(numDisks: int, src: int, util: int, dest: int): seq<Move>
    decreases numDisks
  {
    if numDisks == 1 then
      [Move(src, dest)]
    else if numDisks > 1 then
      Moves(numDisks - 1, src, dest, util) + [Move(src, dest)] + Moves(numDisks - 1, util, src, dest)
    else
      []
  }

  /**
   * Plays requests one after another with moveDisk. An index outside the board
   * throws, which ends the run with the board as it is.
   */
  function Run(cfg: Config, moves: seq<Move>): Exec
    decreases |moves|
  {
    if moves == [] then
      Exec(cfg, false)
    else
      var step := MoveDisk(cfg, moves[0].src, moves[0].dest);
      if step.status.OutOfBounds? then Exec(cfg, true) else Run(step.board, moves[1..])
  }

  /**
   * The moveDisk calls actually made while playing requests: all of them, or
   * those up to and including the one that threw.
   */
  function Made(cfg: Config, moves: seq<Move>): seq<Move>
    decreases |moves|
  {
    if moves == [] then
      []
    else
      var step := MoveDisk(cfg, moves[0].src, moves[0].dest);
      if step.status.OutOfBounds? then [moves[0]] else [moves[0]] + Made(step.board, moves[1..])
  }

  /**
   * towers(numDisks, src, util, dest) followed call by call on a board value:
   * the first recursive call, then moveDisk(src, dest), then the second
   * recursive call, stopping at the first call that throws. Every call made
   * is appended to log.
   */
  function Play(cfg: Config, log: seq<Move>, numDisks: int, src: int, util: int, dest: int): Trace
    decreases numDisks
  {
    if numDisks == 1 then
      var step := MoveDisk(cfg, src, dest);
      Trace(step.board, step.status.OutOfBounds?, log + [Move(src, dest)])
    else if numDisks > 1 then
      var first := Play(cfg, log, numDisks - 1, src, dest, util);
      if first.thrown then first
      else
        var step := MoveDisk(first.board, src, dest);
        if step.status.OutOfBounds? then Trace(first.board, true, first.calls + [Move(src, dest)])
        else Play(step.board, first.calls + [Move(src, dest)], numDisks - 1, util, src, dest)
    else
      Trace(cfg, false, log)
  }

  /** moveDisk accepts every one of the requests in turn: none throws and none is dropped. */
  ghost predicate AllAccepted(cfg: Config, moves: seq<Move>)
    decreases |moves|
  {
    moves == [] ||
    var step := MoveDisk(cfg, moves[0].src, moves[0].dest);
    step.status.Placed? && AllAccepted(step.board, moves[1..])
  }

  function Pow2(n: nat): nat
  {
    if n == 0 then 1 else 2 * Pow2(n - 1)
  }

  /** The seeded board of main: weights numDisks..1 on peg 0, the others empty. */
  function Initial(numDisks: int): Config
  {
    [Tower(numDisks), [], []]
  }

  /** The board the puzzle asks for: the whole stack on peg 2. */
  function Solved(numDisks: int): Config
  {
    [[], [], Tower(numDisks)]
  }

  /** The weights numDisks down to 1, bottom to top; empty when numDisks is not positive. */
  function Tower(numDisks: int): Stack
  {
    seq(if numDisks <= 0 then 0 else numDisks, k => numDisks - k)
  }

  /** Every disk of tower is lighter than the top of peg, or peg is empty. */
  ghost predicate Below(tower: Stack, peg: Stack)
  {
    peg == [] || forall k :: 0 <= k < |tower| ==> tower[k] < Top(peg)
  }

  // ----- Playing requests -----

  /** Playing a + b is playing a, then b unless a threw; b's requests are all accepted after a's exactly when a + b's are. */
  lemma {:induction false} RunAppend(cfg: Config, a: seq<Move>, b: seq<Move>)
    ensures Run(cfg, a + b) == (var r := Run(cfg, a); if r.thrown then r else Run(r.board, b))
    ensures AllAccepted(cfg, a + b) <==> AllAccepted(cfg, a) && AllAccepted(Run(cfg, a).board, b)
    decreases |a|
  {
    if a == [] {
      assert a + b == b;
    } else {
      var step := MoveDisk(cfg, a[0].src, a[0].dest);
      assert (a + b)[0] == a[0];
      assert (a + b)[1..] == a[1..] + b;
      RunAppend(step.board, a[1..], b);
    }
  }

  /** The calls made while playing a + b are those of a, then those of b unless a threw. */
  lemma {:induction false} MadeAppend(cfg: Config, a: seq<Move>, b: seq<Move>)
    ensures Made(cfg, a + b) == Made(cfg, a) + (if Run(cfg, a).thrown then [] else Made(Run(cfg, a).board, b))
    decreases |a|
  {
    if a == [] {
      assert a + b == b;
    } else {
      var step := MoveDisk(cfg, a[0].src, a[0].dest);
      assert (a + b)[0] == a[0];
      assert (a + b)[1..] == a[1..] + b;
      if !step.status.OutOfBounds? {
        MadeAppend(step.board, a[1..], b);
        var rest := Made(step.board, a[1..]);
        var tail := if Run(cfg, a).thrown then [] else Made(Run(cfg, a).board, b);
        assert [a[0]] + (rest + tail) == ([a[0]] + rest) + tail;
      }
    }
  }

  /**
   * The calls made are a prefix of the requests, and all of them when
   * nothing threw; when one threw, it is the last call made.
   */
  lemma {:induction false} MadePrefix(cfg: Config, moves: seq<Move>)
    ensures Made(cfg, moves) <= moves
    ensures !Run(cfg, moves).thrown ==> Made(cfg, moves) == moves
    ensures Run(cfg, moves).thrown ==>
              var made := Made(cfg, moves);
              made != [] && MoveDisk(Run(cfg, moves).board, made[|made| - 1].src, made[|made| - 1].dest).status.OutOfBounds?
    decreases |moves|
  {
    if moves != [] {
      var step := MoveDisk(cfg, moves[0].src, moves[0].dest);
      if !step.status.OutOfBounds? {
        MadePrefix(step.board, moves[1..]);
        assert moves == [moves[0]] + moves[1..];
        var rest := Made(step.board, moves[1..]);
        assert Run(cfg, moves) == Run(step.board, moves[1..]);
        if rest != [] {
          assert Made(cfg, moves)[|Made(cfg, moves)| - 1] == rest[|rest| - 1];
        }
      }
    }
  }

  /** Playing a, one more request m, then b: the shape of a call to towers with two disks or more. */
  lemma RunThree(cfg: Config, a: seq<Move>, m: Move, b: seq<Move>)
    ensures Run(cfg, a + [m] + b) ==
              var r := Run(cfg, a);
              if r.thrown then r
              else
                var step := MoveDisk(r.board, m.src, m.dest);
                if step.status.OutOfBounds? then Exec(r.board, true) else Run(step.board, b)
  {
    assert a + [m] + b == a + ([m] + b);
    assert ([m] + b)[0] == m && ([m] + b)[1..] == b;
    RunAppend(cfg, a, [m] + b);
  }

  /** The calls made while playing a, one more request m, then b. */
  lemma MadeThree(cfg: Config, a: seq<Move>, m: Move, b: seq<Move>)
    ensures Made(cfg, a + [m] + b) ==
              var r := Run(cfg, a);
              if r.thrown then Made(cfg, a)
              else
                var step := MoveDisk(r.board, m.src, m.dest);
                if step.status.OutOfBounds? then Made(cfg, a) + [m] else Made(cfg, a) + [m] + Made(step.board, b)
  {
    assert a + [m] + b == a + ([m] + b);
    assert ([m] + b)[0] == m && ([m] + b)[1..] == b;
    MadeAppend(cfg, a, [m] + b);
  }

  /**
   * Following towers call by call is playing its requests: the board and the
   * thrown flag are Run of Moves, and the calls made are Made of Moves.
   */
  lemma {:induction false} PlayIsRun(cfg: Config, log: seq<Move>, numDisks: int, src: int, util: int, dest: int)
    ensures PlayAgrees(cfg, log, numDisks, src, util, dest)
    decreases numDisks
  {
    if numDisks <= 0 {
      assert log + [] == log;
    } else if numDisks > 1 {
      var first := Moves(numDisks - 1, src, dest, util);
      var m := Move(src, dest);
      PlayIsRun(cfg, log, numDisks - 1, src, dest, util);
      var r := Run(cfg, first);
      if r.thrown {
        FirstLegThrows(cfg, log, numDisks, src, util, dest);
      } else if MoveDisk(r.board, src, dest).status.OutOfBounds? {
        MiddleMoveThrows(cfg, log, numDisks, src, util, dest);
      } else {
        var step := MoveDisk(r.board, src, dest);
        PlayIsRun(step.board, log + Made(cfg, first) + [m], numDisks - 1, util, src, dest);
        AllLegsPlayed(cfg, log, numDisks, src, util, dest);
      }
    }
  }

  /** Play of towers agrees with Run and Made of its requests. */
  ghost predicate PlayAgrees(cfg: Config, log: seq<Move>, numDisks: int, src: int, util: int, dest: int)
  {
    var moves := Moves(numDisks, src, util, dest);
    Play(cfg, log, numDisks, src, util, dest) == Trace(Run(cfg, moves).board, Run(cfg, moves).thrown, log + Made(cfg, moves))
  }

  /** PlayIsRun when the first recursive call throws. */
  lemma FirstLegThrows(cfg: Config, log: seq<Move>, numDisks: int, src: int, util: int, dest: int)
    requires numDisks > 1
    requires PlayAgrees(cfg, log, numDisks - 1, src, dest, util)
    requires Run(cfg, Moves(numDisks - 1, src, dest, util)).thrown
    ensures PlayAgrees(cfg, log, numDisks, src, util, dest)
  {
    var first, second := Moves(numDisks - 1, src, dest, util), Moves(numDisks - 1, util, src, dest);
    assert Moves(numDisks, src, util, dest) == first + [Move(src, dest)] + second;
    RunThree(cfg, first, Move(src, dest), second);
    MadeThree(cfg, first, Move(src, dest), second);
  }

  /** PlayIsRun when the move of the largest disk throws. */
  lemma MiddleMoveThrows(cfg: Config, log: seq<Move>, numDisks: int, src: int, util: int, dest: int)
    requires numDisks > 1
    requires PlayAgrees(cfg, log, numDisks - 1, src, dest, util)
    requires var r := Run(cfg, Moves(numDisks - 1, src, dest, util));
             !r.thrown && MoveDisk(r.board, src, dest).status.OutOfBounds?
    ensures PlayAgrees(cfg, log, numDisks, src, util, dest)
  {
    var first, second := Moves(numDisks - 1, src, dest, util), Moves(numDisks - 1, util, src, dest);
    var m := Move(src, dest);
    assert Moves(numDisks, src, util, dest) == first + [m] + second;
    RunThree(cfg, first, m, second);
    MadeThree(cfg, first, m, second);
    assert log + Made(cfg, first) + [m] == log + (Made(cfg, first) + [m]);
  }

  /** PlayIsRun when no call throws before the second recursive call. */
  lemma AllLegsPlayed(cfg: Config, log: seq<Move>, numDisks: int, src: int, util: int, dest: int)
    requires numDisks > 1
    requires PlayAgrees(cfg, log, numDisks - 1, src, dest, util)
    requires var r := Run(cfg, Moves(numDisks - 1, src, dest, util));
             var step := MoveDisk(r.board, src, dest);
             && !r.thrown && !step.status.OutOfBounds?
             && PlayAgrees(step.board, log + Made(cfg, Moves(numDisks - 1, src, dest, util)) + [Move(src, dest)], numDisks - 1, util, src, dest)
    ensures PlayAgrees(cfg, log, numDisks, src, util, dest)
  {
    var first, second := Moves(numDisks - 1, src, dest, util), Moves(numDisks - 1, util, src, dest);
    var m := Move(src, dest);
    assert Moves(numDisks, src, util, dest) == first + [m] + second;
    RunThree(cfg, first, m, second);
    MadeThree(cfg, first, m, second);
    var step := MoveDisk(Run(cfg, first).board, src, dest);
    var made := Made(cfg, first);
    assert log + made + [m] + Made(step.board, second) == log + (made + [m] + Made(step.board, second));
  }

  /** Requests that are all accepted never throw. */
  lemma {:induction false} AcceptedRunDoesNotThrow(cfg: Config, moves: seq<Move>)
    requires AllAccepted(cfg, moves)
    ensures !Run(cfg, moves).thrown
    decreases |moves|
  {
    if moves != [] {
      AcceptedRunDoesNotThrow(MoveDisk(cfg, moves[0].src, moves[0].dest).board, moves[1..]);
    }
  }

  // ----- The solver -----

  /** towers issues no request for numDisks <= 0, the single move src to dest for 1, and 2^n - 1 requests for n >= 1. */
  lemma {:induction false} MovesCount(numDisks: int, src: int, util: int, dest: int)
    ensures numDisks <= 0 ==> Moves(numDisks, src, util, dest) == []
    ensures numDisks == 1 ==> Moves(numDisks, src, util, dest) == [Move(src, dest)]
    ensures numDisks >= 1 ==> |Moves(numDisks, src, util, dest)| == Pow2(numDisks) - 1
    decreases numDisks
  {
    if numDisks > 1 {
      MovesCount(numDisks - 1, src, dest, util);
      MovesCount(numDisks - 1, util, src, dest);
    }
  }

  /** Every request of towers goes between two of its three pegs, never from a peg to itself. */
  lemma {:induction false} MovesStayOnPegs(numDisks: int, src: int, util: int, dest: int)
    requires src != util && util != dest && src != dest
    ensures forall m :: m in Moves(numDisks, src, util, dest) ==>
              m.src != m.dest && m.src in {src, util, dest} && m.dest in {src, util, dest}
    decreases numDisks
  {
    if numDisks > 1 {
      MovesStayOnPegs(numDisks - 1, src, dest, util);
      MovesStayOnPegs(numDisks - 1, util, src, dest);
    }
  }

  /** A single request that moveDisk accepts: its disk t goes from src onto dest. */
  lemma CarryOne(cfg: Config, src: int, dest: int, base: Stack, t: int)
    requires InRange(cfg, src) && InRange(cfg, dest) && src != dest
    requires cfg[src] == base + [t]
    requires cfg[dest] == [] || t < Top(cfg[dest])
    ensures AllAccepted(cfg, [Move(src, dest)])
    ensures Run(cfg, [Move(src, dest)]) == Exec(cfg[src := base][dest := cfg[dest] + [t]], false)
  {
    assert cfg[src][..|cfg[src]| - 1] == base;
    var step := MoveDisk(cfg, src, dest);
    assert step.status == Placed(t);
    assert step.board == cfg[src := base][dest := cfg[dest] + [t]];
  }

  /** Three runs of accepted requests, one after the other, make one. */
  lemma Chain(cfg: Config, a: seq<Move>, cfg1: Config, m: seq<Move>, cfg2: Config, b: seq<Move>, cfg3: Config)
    requires AllAccepted(cfg, a) && Run(cfg, a) == Exec(cfg1, false)
    requires AllAccepted(cfg1, m) && Run(cfg1, m) == Exec(cfg2, false)
    requires AllAccepted(cfg2, b) && Run(cfg2, b) == Exec(cfg3, false)
    ensures AllAccepted(cfg, a + m + b) && Run(cfg, a + m + b) == Exec(cfg3, false)
  {
    RunAppend(cfg, a, m);
    RunAppend(cfg, a + m, b);
  }

  /**
   * Splitting a tower into its heaviest disk and the rest: the rest is again a
   * tower that fits wherever the whole did, and also on the heaviest disk.
   */
  lemma SplitTower(tower: Stack, base: Stack, util: Stack, dest: Stack)
    requires |tower| >= 2 && Descending(tower)
    requires Below(tower, base) && Below(tower, util) && Below(tower, dest)
    ensures Descending(tower[1..])
    ensures Below(tower[1..], base) && Below(tower[1..], base + [tower[0]])
    ensures Below(tower[1..], util) && Below(tower[1..], dest) && Below(tower[1..], dest + [tower[0]])
    ensures dest == [] || tower[0] < Top(dest)
  {
  }

  /** Both recursive calls of towers meet the requirements of MovesCarryTower. */
  lemma OuterLegs(cfg: Config, src: int, util: int, dest: int, base: Stack, tower: Stack)
    requires Carriable(cfg, src, util, dest, base, tower) && |tower| >= 2
    ensures Carriable(cfg, src, dest, util, base + [tower[0]], tower[1..])
    ensures cfg[dest] == [] || tower[0] < Top(cfg[dest])
    ensures var cfg1 := cfg[src := base + [tower[0]]][util := cfg[util] + tower[1..]];
            var cfg2 := cfg1[src := base][dest := cfg[dest] + [tower[0]]];
            Carriable(cfg2, util, src, dest, cfg[util], tower[1..])
  {
    var t0, rest := tower[0], tower[1..];
    assert tower == [t0] + rest;
    SplitTower(tower, base, cfg[util], cfg[dest]);
    var cfg1 := cfg[src := base + [t0]][util := cfg[util] + rest];
    var cfg2 := cfg1[src := base][dest := cfg[dest] + [t0]];
    assert cfg2[util] == cfg[util] + rest && cfg2[src] == base && cfg2[dest] == cfg[dest] + [t0];
  }

  /** The board after the three legs of MovesCarryTowerStep is the board it promises. */
  lemma ThreeLegs(cfg: Config, src: int, util: int, dest: int, base: Stack, t0: int, rest: Stack)
    requires InRange(cfg, src) && InRange(cfg, util) && InRange(cfg, dest)
    requires src != util && util != dest && src != dest
    requires cfg[src] == base + [t0] + rest
    ensures var cfg2 := cfg[src := base + [t0]][util := cfg[util] + rest][src := base][dest := cfg[dest] + [t0]];
            cfg2[util := cfg[util]][dest := cfg2[dest] + rest] == cfg[src := base][dest := cfg[dest] + ([t0] + rest)]
  {
    assert (cfg[dest] + [t0]) + rest == cfg[dest] + ([t0] + rest);
  }

  /** The requirements under which towers carries the top |tower| disks of src over to dest. */
  ghost predicate Carriable(cfg: Config, src: int, util: int, dest: int, base: Stack, tower: Stack)
  {
    && InRange(cfg, src) && InRange(cfg, util) && InRange(cfg, dest)
    && src != util && util != dest && src != dest
    && cfg[src] == base + tower
    && Descending(tower)
    && Below(tower, base) && Below(tower, cfg[util]) && Below(tower, cfg[dest])
  }

  /**
   * The inductive heart of the solver. When the top |tower| disks of src form
   * a strictly decreasing stack lighter than everything they could land on,
   * towers moves exactly those disks onto dest, in the same order, with every
   * request accepted, and leaves every other disk where it was.
   */
  lemma {:induction false} MovesCarryTower(cfg: Config, src: int, util: int, dest: int, base: Stack, tower: Stack)
    requires Carriable(cfg, src, util, dest, base, tower)
    ensures AllAccepted(cfg, Moves(|tower|, src, util, dest))
    ensures Run(cfg, Moves(|tower|, src, util, dest)) == Exec(cfg[src := base][dest := cfg[dest] + tower], false)
    decreases |tower|, 1
  {
    if |tower| == 0 {
      assert base + tower == base && cfg[dest] + tower == cfg[dest];
      assert cfg[src := base][dest := cfg[dest] + tower] == cfg;
    } else if |tower| == 1 {
      assert [tower[0]] == tower;
      CarryOne(cfg, src, dest, base, tower[0]);
    } else {
      MovesCarryTowerStep(cfg, src, util, dest, base, tower);
    }
  }

  /** MovesCarryTower for two disks or more: the lighter ones go to util, the heaviest to dest, the lighter ones onto it. */
  lemma {:induction false} MovesCarryTowerStep(cfg: Config, src: int, util: int, dest: int, base: Stack, tower: Stack)
    requires Carriable(cfg, src, util, dest, base, tower) && |tower| >= 2
    ensures AllAccepted(cfg, Moves(|tower|, src, util, dest))
    ensures Run(cfg, Moves(|tower|, src, util, dest)) == Exec(cfg[src := base][dest := cfg[dest] + tower], false)
    decreases |tower|, 0
  {
    var t0, rest := tower[0], tower[1..];
    var cfg1 := cfg[src := base + [t0]][util := cfg[util] + rest];
    var cfg2 := cfg1[src := base][dest := cfg[dest] + [t0]];

    // Move the n-1 lighter disks out of the way, onto util, and later back on top of the heaviest.
    OuterLegs(cfg, src, util, dest, base, tower);
    MovesCarryTower(cfg, src, dest, util, base + [t0], rest);
    MovesCarryTower(cfg2, util, src, dest, cfg[util], rest);
    ComposeLegs(cfg, src, util, dest, base, tower);
  }

  /** The two recursive legs of towers, with the move of the heaviest disk between them, carry the whole tower. */
  lemma ComposeLegs(cfg: Config, src: int, util: int, dest: int, base: Stack, tower: Stack)
    requires Carriable(cfg, src, util, dest, base, tower) && |tower| >= 2
    requires var cfg1 := cfg[src := base + [tower[0]]][util := cfg[util] + tower[1..]];
             var first := Moves(|tower| - 1, src, dest, util);
             AllAccepted(cfg, first) && Run(cfg, first) == Exec(cfg1, false)
    requires var cfg1 := cfg[src := base + [tower[0]]][util := cfg[util] + tower[1..]];
             var cfg2 := cfg1[src := base][dest := cfg[dest] + [tower[0]]];
             var second := Moves(|tower| - 1, util, src, dest);
             AllAccepted(cfg2, second) && Run(cfg2, second) == Exec(cfg2[util := cfg[util]][dest := cfg2[dest] + tower[1..]], false)
    ensures AllAccepted(cfg, Moves(|tower|, src, util, dest))
    ensures Run(cfg, Moves(|tower|, src, util, dest)) == Exec(cfg[src := base][dest := cfg[dest] + tower], false)
  {
    var n := |tower|;
    var t0, rest := tower[0], tower[1..];
    var first, second := Moves(n - 1, src, dest, util), Moves(n - 1, util, src, dest);
    assert Moves(n, src, util, dest) == first + [Move(src, dest)] + second;
    var cfg1 := cfg[src := base + [t0]][util := cfg[util] + rest];
    var cfg2 := cfg1[src := base][dest := cfg[dest] + [t0]];
    var cfg3 := cfg2[util := cfg[util]][dest := cfg2[dest] + rest];
    OuterLegs(cfg, src, util, dest, base, tower);
    CarryOne(cfg1, src, dest, base, t0);
    assert tower == [t0] + rest;
    Chain(cfg, first, cfg1, [Move(src, dest)], cfg2, second, cfg3);
    ThreeLegs(cfg, src, util, dest, base, t0, rest);
  }

  /**
   * From the seeded board, towers(n, 0, 1, 2) issues max(0, 2^n - 1)
   * requests, moveDisk accepts every one of them, nothing throws, and the
   * board ends with peg 2 holding n..1 bottom to top and pegs 0 and 1 empty.
   */
  lemma SolveCorrect(numDisks: int)
    ensures |Moves(numDisks, 0, 1, 2)| == if numDisks <= 0 then 0 else Pow2(numDisks) - 1
    ensures AllAccepted(Initial(numDisks), Moves(numDisks, 0, 1, 2))
    ensures Run(Initial(numDisks), Moves(numDisks, 0, 1, 2)) == Exec(Solved(numDisks), false)
  {
    assert |Moves(numDisks, 0, 1, 2)| == if numDisks <= 0 then 0 else Pow2(numDisks) - 1 by {
      MovesCount(numDisks, 0, 1, 2);
    }
    if numDisks <= 0 {
      assert Initial(numDisks) == Solved(numDisks);
    } else {
      var cfg, tower := Initial(numDisks), Tower(numDisks);
      assert |tower| == numDisks && Descending(tower) by {
        TowerDescending(numDisks);
      }
      CarryWhole(cfg, 0, 1, 2, tower);
      assert cfg[0 := []][2 := tower] == Solved(numDisks);
    }
  }

  /**
   * Followed call by call from the seeded board, towers(n, 0, 1, 2) never
   * throws, ends with the whole stack on peg 2, and makes exactly the calls
   * of Moves: max(0, 2^n - 1) of them, each accepted.
   */
  lemma SolveTrace(numDisks: int)
    ensures Play(Initial(numDisks), [], numDisks, 0, 1, 2) == Trace(Solved(numDisks), false, Moves(numDisks, 0, 1, 2))
    ensures |Moves(numDisks, 0, 1, 2)| == if numDisks <= 0 then 0 else Pow2(numDisks) - 1
    ensures AllAccepted(Initial(numDisks), Moves(numDisks, 0, 1, 2))
  {
    SolveCorrect(numDisks);
    PlayIsRun(Initial(numDisks), [], numDisks, 0, 1, 2);
    MadePrefix(Initial(numDisks), Moves(numDisks, 0, 1, 2));
  }

  /** A whole stack moves from src onto an empty dest past an empty util. */
  lemma CarryWhole(cfg: Config, src: int, util: int, dest: int, tower: Stack)
    requires InRange(cfg, src) && InRange(cfg, util) && InRange(cfg, dest)
    requires src != util && util != dest && src != dest
    requires cfg[src] == tower && cfg[util] == [] && cfg[dest] == [] && Descending(tower)
    ensures AllAccepted(cfg, Moves(|tower|, src, util, dest))
    ensures Run(cfg, Moves(|tower|, src, util, dest)) == Exec(cfg[src := []][dest := tower], false)
  {
    assert cfg[src] == [] + tower;
    MovesCarryTower(cfg, src, util, dest, [], tower);
    assert cfg[dest] + tower == tower;
  }

  /** Two disks: three moves, A to B, A to C, B to C, ending with [2, 1] on peg 2. */
  lemma TwoDisks()
    ensures Moves(2, 0, 1, 2) == [Move(0, 1), Move(0, 2), Move(1, 2)]
    ensures Run(Initial(2), Moves(2, 0, 1, 2)) == Exec([[], [], [2, 1]], false)
  {
    SolveCorrect(2);
    assert Tower(2) == [2, 1];
  }

  /** The seeded stack is strictly decreasing, as the board invariant asks. */
  lemma TowerDescending(numDisks: int)
    ensures Descending(Tower(numDisks))
    ensures numDisks > 0 ==> |Tower(numDisks)| == numDisks && Tower(numDisks)[0] == numDisks && Top(Tower(numDisks)) == 1
  {
  }

  /**
   * towers: each moveDisk call is made on the board, and logged in its Calls,
   * as Play makes it. A thrown ArrayIndexOutOfBoundsException ends the whole
   * call, reported through thrown.
   */
  method Towers(numDisks: int, src: int, util: int, dest: int, pb: PegBoard) returns (thrown: bool)
    requires pb.Valid()
    modifies pb, pb.Pegs
    ensures pb.Valid()
    ensures Trace(pb.Contents, thrown, pb.Calls) == Play(old(pb.Contents), old(pb.Calls), numDisks, src, util, dest)
    decreases numDisks
  {
    thrown := false;
    if numDisks == 1 {
      var status := pb.MoveDisk(src, dest);
      thrown := status.OutOfBounds?;
    }
    if numDisks > 1 {
      thrown := Towers(numDisks - 1, src, dest, util, pb);
      if thrown {
        return;
      }
      var status := pb.MoveDisk(src, dest);
      if status.OutOfBounds? {
        return true;
      }
      thrown := Towers(numDisks - 1, util, src, dest, pb);
    }
  }

  /** The set-up loop of main: a three-peg board with weights numDisks..1 added to peg 0. */
  method SetUp(numDisks: int) returns (board: PegBoard)
    ensures fresh(board) && fresh(board.Pegs) && board.Valid()
    ensures board.Contents == Initial(numDisks) && board.Calls == []
  {
    board := new PegBoard(NumPegs);
    assert board.Contents == [[], [], []];
    assert seq(numDisks - numDisks, k => numDisks - k) == [];
    var i := numDisks;
    while i >= 1
      invariant i <= numDisks && (i >= 0 || i == numDisks)
      invariant fresh(board) && fresh(board.Pegs) && board.Valid() && board.Calls == []
      invariant board.Contents == [seq(numDisks - i, k => numDisks - k), [], []]
    {
      var status := board.AddDisk(0, i);
      assert seq(numDisks - (i - 1), k => numDisks - k) == seq(numDisks - i, k => numDisks - k) + [i];
      i := i - 1;
    }
  }

  /**
   * main without its input and output: seed the board, then solve. No
   * request throws, and the whole stack ends on peg 2.
   */
  method Solve(numDisks: int) returns (board: PegBoard, thrown: bool)
    ensures fresh(board) && board.Valid()
    ensures !thrown && board.Contents == Solved(numDisks)
    ensures board.Calls == Moves(numDisks, 0, 1, 2)
    ensures |board.Calls| == if numDisks <= 0 then 0 else Pow2(numDisks) - 1
    ensures AllAccepted(Initial(numDisks), board.Calls)
  {
    board := SetUp(numDisks);
    thrown := Towers(numDisks, 0, 1, 2, board);
    SolveTrace(numDisks);
  }
}
