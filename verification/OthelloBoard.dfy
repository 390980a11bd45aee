/** The board, the eight directions, and the discs a move turns over. */
module OthelloBoard {

  const SIZE: nat := 8

  datatype Cell = Empty | Black | White

  type Player = p: Cell | p != Empty witness Black

  function Opponent(p: Player): Player {
    if p == Black then White else Black
  }

  predicate IsGrid(g: seq<seq<Cell>>) {
    |g| == SIZE && forall r :: 0 <= r < SIZE ==> |g[r]| == SIZE
  }

  type Grid = g: seq<seq<Cell>> | IsGrid(g) witness seq(SIZE, _ => seq(SIZE, _ => Empty))

  predicate On(r: int, c: int) {
    0 <= r < SIZE && 0 <= c < SIZE
  }

  function At(g: Grid, r: int, c: int): Cell
    requires On(r, c)
  {
    g[r][c]
  }

  function Put(g: Grid, r: int, c: int, v: Cell): (h: Grid)
    requires On(r, c)
    ensures forall i, j :: On(i, j) ==> At(h, i, j) == if i == r && j == c then v else At(g, i, j)
  {
    g[r := g[r][c := v]]
  }

  datatype Direction = Direction(dr: int, dc: int)

  predicate IsDirection(d: Direction) {
    -1 <= d.dr <= 1 && -1 <= d.dc <= 1 && (d.dr != 0 || d.dc != 0)
  }

  const DIRECTIONS: seq<Direction> := [
    Direction(-1, -1), Direction(-1, 0), Direction(-1, 1),
    Direction(0, -1), Direction(0, 1),
    Direction(1, -1), Direction(1, 0), Direction(1, 1)
  ]

  function Dir(n: nat): (d: Direction)
    requires n < 8
    ensures IsDirection(d)
  {
    DIRECTIONS[n]
  }

  lemma DirectionsAreDistinct(m: nat, n: nat)
    requires m < n < 8
    ensures Dir(m) != Dir(n)
  {
  }

  /** The coordinate after `k` steps of `d`. */
  function Go(x: int, d: int, k: int): int {
    if d > 0 then x + k else if d < 0 then x - k else x
  }

  lemma GoNext(x: int, d: int, k: int)
    requires -1 <= d <= 1
    ensures Go(x, d, k) + d == Go(x, d, k + 1)
  {
  }

  /** The cell `k` steps from (r, c) is on the board. */
  predicate Reaches(r: int, c: int, d: Direction, k: int) {
    On(Go(r, d.dr, k), Go(c, d.dc, k))
  }

  function Ray(g: Grid, r: int, c: int, d: Direction, k: int): Cell
    requires Reaches(r, c, d, k)
  {
    At(g, Go(r, d.dr, k), Go(c, d.dc, k))
  }

  /** How many cells from the `k`-th on hold `v` without a gap. */
  function RunFrom(g: Grid, r: int, c: int, d: Direction, v: Cell, k: nat): nat
    requires On(r, c) && IsDirection(d)
    decreases SIZE - k
  {
    if Reaches(r, c, d, k) && Ray(g, r, c, d, k) == v && k < SIZE then 1 + RunFrom(g, r, c, d, v, k + 1) else 0
  }

  lemma RunNext(g: Grid, r: int, c: int, d: Direction, v: Cell, k: nat)
    requires On(r, c) && IsDirection(d) && Reaches(r, c, d, k) && Ray(g, r, c, d, k) == v
    ensures k < SIZE && RunFrom(g, r, c, d, v, k) == 1 + RunFrom(g, r, c, d, v, k + 1)
  {
    NearBoard(r, c, d, k);
  }

  lemma NearBoard(r: int, c: int, d: Direction, k: nat)
    requires On(r, c) && IsDirection(d) && Reaches(r, c, d, k)
    ensures k < SIZE
  {
  }

  lemma ReachesNear(r: int, c: int, d: Direction, k: nat)
    requires On(r, c) && IsDirection(d) && Reaches(r, c, d, k)
    ensures k < SIZE
    ensures forall j :: 0 <= j <= k ==> Reaches(r, c, d, j)
  {
  }

  function Run(g: Grid, r: int, c: int, d: Direction, p: Player): nat
    requires On(r, c) && IsDirection(d)
  {
    RunFrom(g, r, c, d, Opponent(p), 1)
  }

  /** A run of the opponent's discs, closed by one of the player's own. */
  predicate Brackets(g: Grid, r: int, c: int, d: Direction, p: Player)
    requires On(r, c) && IsDirection(d)
  {
    var n := Run(g, r, c, d, p);
    n > 0 && Reaches(r, c, d, n + 1) && Ray(g, r, c, d, n + 1) == p
  }

  /** The number of discs turned over in one direction. */
  function FlipLength(g: Grid, r: int, c: int, d: Direction, p: Player): nat
    requires On(r, c) && IsDirection(d)
  {
    if Brackets(g, r, c, d, p) then Run(g, r, c, d, p) else 0
  }

  lemma {:induction false} RunIsOpponent(g: Grid, r: int, c: int, d: Direction, v: Cell, k: nat, j: nat)
    requires On(r, c) && IsDirection(d) && k <= j < k + RunFrom(g, r, c, d, v, k)
    ensures Reaches(r, c, d, j) && Ray(g, r, c, d, j) == v
    decreases SIZE - k
  {
    if k < j { RunIsOpponent(g, r, c, d, v, k + 1, j); }
  }

  /** Only the cells of a ray decide its run. */
  lemma {:induction false} RunDependsOnRay(g: Grid, h: Grid, r: int, c: int, d: Direction, v: Cell, k: nat)
    requires On(r, c) && IsDirection(d) && 0 < k
    requires forall j :: 0 < j && Reaches(r, c, d, j) ==> Ray(g, r, c, d, j) == Ray(h, r, c, d, j)
    ensures RunFrom(g, r, c, d, v, k) == RunFrom(h, r, c, d, v, k)
    decreases SIZE - k
  {
    if Reaches(r, c, d, k) && Ray(g, r, c, d, k) == v && k < SIZE {
      RunDependsOnRay(g, h, r, c, d, v, k + 1);
    }
  }

  lemma FlipDependsOnRay(g: Grid, h: Grid, r: int, c: int, d: Direction, p: Player)
    requires On(r, c) && IsDirection(d)
    requires forall j :: 0 < j && Reaches(r, c, d, j) ==> Ray(g, r, c, d, j) == Ray(h, r, c, d, j)
    ensures FlipLength(g, r, c, d, p) == FlipLength(h, r, c, d, p)
  {
    RunDependsOnRay(g, h, r, c, d, Opponent(p), 1);
  }

  /** How many steps of `d` lead from (r, c) to (i, j), if any do. */
  function Steps(r: int, c: int, d: Direction, i: int, j: int): int {
    if d.dr > 0 then i - r else if d.dr < 0 then r - i else if d.dc > 0 then j - c else c - j
  }

  /** (i, j) is among the first `n` cells of the ray. */
  predicate OnRay(r: int, c: int, d: Direction, i: int, j: int, n: nat) {
    var k := Steps(r, c, d, i, j);
    1 <= k <= n && i == Go(r, d.dr, k) && j == Go(c, d.dc, k)
  }

  lemma RaysAreDisjoint(r: int, c: int, d: Direction, e: Direction, k: nat, n: nat)
    requires IsDirection(d) && IsDirection(e) && d != e && 0 < k
    ensures !OnRay(r, c, e, Go(r, d.dr, k), Go(c, d.dc, k), n)
    ensures Go(r, d.dr, k) != r || Go(c, d.dc, k) != c
  {
  }

  /** The first `n` cells of the ray taken by `p`, nearest first. */
  function PutRay(g: Grid, r: int, c: int, d: Direction, p: Player, n: nat): (h: Grid)
    requires On(r, c) && IsDirection(d) && Reaches(r, c, d, n)
    ensures forall i, j :: On(i, j) ==> At(h, i, j) == if OnRay(r, c, d, i, j, n) then p else At(g, i, j)
    decreases n
  {
    if n == 0 then g
    else
      ReachesNear(r, c, d, n);
      Put(PutRay(g, r, c, d, p, n - 1), Go(r, d.dr, n), Go(c, d.dc, n), p)
  }

  lemma FlipReaches(g: Grid, r: int, c: int, d: Direction, p: Player)
    requires On(r, c) && IsDirection(d)
    ensures Reaches(r, c, d, FlipLength(g, r, c, d, p))
  {
    var n := FlipLength(g, r, c, d, p);
    if n > 0 { RunIsOpponent(g, r, c, d, Opponent(p), 1, n); }
  }

  function FlipOne(g: Grid, r: int, c: int, d: Direction, p: Player): Grid
    requires On(r, c) && IsDirection(d)
  {
    FlipReaches(g, r, c, d, p);
    PutRay(g, r, c, d, p, FlipLength(g, r, c, d, p))
  }

  /** The first `n` directions flipped one after another, each on the board the last one left. */
  function FlipInTurn(g: Grid, r: int, c: int, p: Player, n: nat): Grid
    requires On(r, c) && n <= 8
  {
    if n == 0 then g else FlipOne(FlipInTurn(g, r, c, p, n - 1), r, c, Dir(n - 1), p)
  }

  /** (i, j) lies in a run that the move brackets on the board as it was. */
  predicate Turned(g: Grid, r: int, c: int, p: Player, i: int, j: int, n: nat)
    requires On(r, c) && n <= 8
  {
    n > 0 &&
    (Turned(g, r, c, p, i, j, n - 1)
     || OnRay(r, c, Dir(n - 1), i, j, FlipLength(g, r, c, Dir(n - 1), p)))
  }

  /** The board after `n` directions, told from the original board alone. */
  ghost predicate FlippedAtOnce(g: Grid, h: Grid, r: int, c: int, p: Player, n: nat)
    requires On(r, c) && n <= 8
  {
    forall i, j :: On(i, j) ==>
      At(h, i, j) == if (i == r && j == c) || Turned(g, r, c, p, i, j, n) then p else At(g, i, j)
  }

  /** Earlier directions leave a later ray untouched. */
  lemma {:induction false} LaterRayUntouched(g: Grid, r: int, c: int, p: Player, m: nat, n: nat, k: nat)
    requires On(r, c) && m <= n < 8 && 0 < k && Reaches(r, c, Dir(n), k)
    ensures !Turned(g, r, c, p, Go(r, Dir(n).dr, k), Go(c, Dir(n).dc, k), m)
    decreases m
  {
    if m > 0 {
      LaterRayUntouched(g, r, c, p, m - 1, n, k);
      DirectionsAreDistinct(m - 1, n);
      RaysAreDisjoint(r, c, Dir(n), Dir(m - 1), k, FlipLength(g, r, c, Dir(m - 1), p));
    }
  }

  lemma RayAsBefore(g: Grid, h: Grid, r: int, c: int, p: Player, n: nat)
    requires On(r, c) && n < 8 && FlippedAtOnce(g, h, r, c, p, n)
    ensures FlipLength(h, r, c, Dir(n), p) == FlipLength(g, r, c, Dir(n), p)
  {
    var d := Dir(n);
    forall k | 0 < k && Reaches(r, c, d, k)
      ensures Ray(h, r, c, d, k) == Ray(g, r, c, d, k)
    {
      LaterRayUntouched(g, r, c, p, n, n, k);
      RaysAreDisjoint(r, c, d, Direction(-d.dr, -d.dc), k, 0);
    }
    FlipDependsOnRay(h, g, r, c, d, p);
  }

  /**
    Flipping the directions one after another on the changing board is flipping all the
    runs that the move brackets on the original board at once.
   */
  lemma {:induction false} InTurnIsAtOnce(g: Grid, r: int, c: int, p: Player, n: nat)
    requires On(r, c) && n <= 8
    ensures FlippedAtOnce(g, FlipInTurn(Put(g, r, c, p), r, c, p, n), r, c, p, n)
    decreases n
  {
    if n > 0 {
      InTurnIsAtOnce(g, r, c, p, n - 1);
      RayAsBefore(g, FlipInTurn(Put(g, r, c, p), r, c, p, n - 1), r, c, p, n - 1);
    }
  }
}
