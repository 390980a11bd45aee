/** Which moves are valid, what they do, and how they change the number of discs. */
module OthelloRules {
  import opened OthelloBoard

  datatype Mode = Othello | Reversi

  function CountRow(row: seq<Cell>, v: Cell): nat {
    if row == [] then 0 else (if row[0] == v then 1 else 0) + CountRow(row[1..], v)
  }

  function CountRows(rows: seq<seq<Cell>>, v: Cell): nat {
    if rows == [] then 0 else CountRow(rows[0], v) + CountRows(rows[1..], v)
  }

  function Count(g: Grid, v: Cell): nat {
    CountRows(g, v)
  }

  function Pieces(g: Grid): nat {
    Count(g, Black) + Count(g, White)
  }

  function One(b: bool): nat {
    if b then 1 else 0
  }

  lemma {:induction false} CountRowPut(row: seq<Cell>, c: nat, x: Cell, v: Cell)
    requires c < |row|
    ensures CountRow(row[c := x], v) == CountRow(row, v) - One(row[c] == v) + One(x == v)
    decreases |row|
  {
    var after := row[c := x];
    if c == 0 {
      assert after[1..] == row[1..];
    } else {
      assert after[1..] == row[1..][c - 1 := x];
      CountRowPut(row[1..], c - 1, x, v);
    }
  }

  lemma {:induction false} CountRowsPut(rows: seq<seq<Cell>>, r: nat, row: seq<Cell>, v: Cell)
    requires r < |rows|
    ensures CountRows(rows[r := row], v) == CountRows(rows, v) - CountRow(rows[r], v) + CountRow(row, v)
    decreases |rows|
  {
    var after := rows[r := row];
    if r == 0 {
      assert after[1..] == rows[1..];
    } else {
      assert after[1..] == rows[1..][r - 1 := row];
      CountRowsPut(rows[1..], r - 1, row, v);
    }
  }

  lemma CountPut(g: Grid, r: int, c: int, x: Cell, v: Cell)
    requires On(r, c)
    ensures Count(Put(g, r, c, x), v) == Count(g, v) - One(At(g, r, c) == v) + One(x == v)
  {
    CountRowPut(g[r], c, x, v);
    CountRowsPut(g, r, g[r][c := x], v);
  }

  /** Taking `n` discs of the opponent moves them from one count to the other. */
  lemma {:induction false} CountPutRay(g: Grid, r: int, c: int, d: Direction, p: Player, n: nat)
    requires On(r, c) && IsDirection(d) && Reaches(r, c, d, n)
    requires forall k :: 1 <= k <= n ==> Reaches(r, c, d, k) && Ray(g, r, c, d, k) == Opponent(p)
    ensures Count(PutRay(g, r, c, d, p, n), p) == Count(g, p) + n
    ensures Count(PutRay(g, r, c, d, p, n), Opponent(p)) == Count(g, Opponent(p)) - n
    decreases n
  {
    if n > 0 {
      ReachesNear(r, c, d, n);
      CountPutRay(g, r, c, d, p, n - 1);
      var h := PutRay(g, r, c, d, p, n - 1);
      assert Ray(g, r, c, d, n) == Opponent(p);
      CountPut(h, Go(r, d.dr, n), Go(c, d.dc, n), p, p);
      CountPut(h, Go(r, d.dr, n), Go(c, d.dc, n), p, Opponent(p));
    }
  }

  lemma CountFlipOne(g: Grid, r: int, c: int, d: Direction, p: Player)
    requires On(r, c) && IsDirection(d)
    ensures Count(FlipOne(g, r, c, d, p), p) == Count(g, p) + FlipLength(g, r, c, d, p)
    ensures Count(FlipOne(g, r, c, d, p), Opponent(p)) == Count(g, Opponent(p)) - FlipLength(g, r, c, d, p)
  {
    var n := FlipLength(g, r, c, d, p);
    FlipReaches(g, r, c, d, p);
    forall k | 1 <= k <= n
      ensures Reaches(r, c, d, k) && Ray(g, r, c, d, k) == Opponent(p)
    {
      RunIsOpponent(g, r, c, d, Opponent(p), 1, k);
    }
    CountPutRay(g, r, c, d, p, n);
  }

  /** The discs turned over in the first `n` directions. */
  function Flips(g: Grid, r: int, c: int, p: Player, n: nat): nat
    requires On(r, c) && n <= 8
  {
    if n == 0 then 0 else Flips(g, r, c, p, n - 1) + FlipLength(g, r, c, Dir(n - 1), p)
  }

  lemma {:induction false} CountInTurn(g: Grid, r: int, c: int, p: Player, n: nat)
    requires On(r, c) && n <= 8
    ensures var g0 := Put(g, r, c, p);
            && Count(FlipInTurn(g0, r, c, p, n), p) == Count(g0, p) + Flips(g, r, c, p, n)
            && Count(FlipInTurn(g0, r, c, p, n), Opponent(p)) == Count(g0, Opponent(p)) - Flips(g, r, c, p, n)
    decreases n
  {
    if n > 0 {
      var h := FlipInTurn(Put(g, r, c, p), r, c, p, n - 1);
      CountInTurn(g, r, c, p, n - 1);
      InTurnIsAtOnce(g, r, c, p, n - 1);
      RayAsBefore(g, h, r, c, p, n - 1);
      CountFlipOne(h, r, c, Dir(n - 1), p);
    }
  }

  /** The opening of a Reversi game, in which the centre is filled. */
  predicate Setup(mode: Mode, g: Grid) {
    mode == Reversi && Pieces(g) < 4
  }

  predicate Centre(r: int, c: int) {
    3 <= r <= 4 && 3 <= c <= 4
  }

  predicate AnyBracket(g: Grid, r: int, c: int, p: Player, n: nat)
    requires On(r, c) && n <= 8
  {
    n > 0 && (AnyBracket(g, r, c, p, n - 1) || Brackets(g, r, c, Dir(n - 1), p))
  }

  predicate Valid(mode: Mode, g: Grid, r: int, c: int, p: Player)
    requires On(r, c)
  {
    At(g, r, c) == Empty && if Setup(mode, g) then Centre(r, c) else AnyBracket(g, r, c, p, 8)
  }

  function Applied(mode: Mode, g: Grid, r: int, c: int, p: Player): Grid
    requires On(r, c)
  {
    var h := Put(g, r, c, p);
    if mode == Reversi && Pieces(h) <= 4 then h else FlipInTurn(h, r, c, p, 8)
  }

  lemma {:induction false} BracketFlips(g: Grid, r: int, c: int, p: Player, n: nat)
    requires On(r, c) && n <= 8
    ensures AnyBracket(g, r, c, p, n) <==> Flips(g, r, c, p, n) > 0
    decreases n
  {
    if n > 0 { BracketFlips(g, r, c, p, n - 1); }
  }

  /** Outside the opening, a move on an empty cell is valid if and only if it turns a disc over. */
  lemma ValidIffFlips(mode: Mode, g: Grid, r: int, c: int, p: Player)
    requires On(r, c) && At(g, r, c) == Empty && !Setup(mode, g)
    ensures Valid(mode, g, r, c, p) <==> Flips(g, r, c, p, 8) > 0
  {
    BracketFlips(g, r, c, p, 8);
  }

  lemma PiecesPut(g: Grid, r: int, c: int, p: Player)
    requires On(r, c) && At(g, r, c) == Empty
    ensures Pieces(Put(g, r, c, p)) == Pieces(g) + 1
    ensures Count(Put(g, r, c, p), p) == Count(g, p) + 1
    ensures Count(Put(g, r, c, p), Opponent(p)) == Count(g, Opponent(p))
  {
    CountPut(g, r, c, p, p);
    CountPut(g, r, c, p, Opponent(p));
  }

  /**
    A move on an empty cell adds one disc in all. Outside the opening the mover gains that
    disc and every disc turned over, and the opponent loses those; in the opening nothing
    is turned over.
   */
  lemma MoveCounts(mode: Mode, g: Grid, r: int, c: int, p: Player)
    requires On(r, c) && At(g, r, c) == Empty
    ensures var h := Applied(mode, g, r, c, p);
            var flips := if Setup(mode, g) then 0 else Flips(g, r, c, p, 8);
            && Count(h, p) == Count(g, p) + 1 + flips
            && Count(h, Opponent(p)) == Count(g, Opponent(p)) - flips
            && Pieces(h) == Pieces(g) + 1
  {
    PiecesPut(g, r, c, p);
    CountInTurn(g, r, c, p, 8);
  }

  /** Outside the opening, a move gives the board with every bracketed run turned over at once. */
  lemma MoveFlipsAtOnce(mode: Mode, g: Grid, r: int, c: int, p: Player)
    requires On(r, c) && At(g, r, c) == Empty && !Setup(mode, g)
    ensures FlippedAtOnce(g, Applied(mode, g, r, c, p), r, c, p, 8)
  {
    PiecesPut(g, r, c, p);
    InTurnIsAtOnce(g, r, c, p, 8);
  }

  datatype Move = Move(r: int, c: int)

  predicate OnBoard(m: Move) {
    On(m.r, m.c)
  }

  predicate CanPlay(mode: Mode, g: Grid, p: Player, m: Move) {
    OnBoard(m) && Valid(mode, g, m.r, m.c, p)
  }

  predicate AllCanPlay(mode: Mode, g: Grid, p: Player, ms: seq<Move>) {
    forall i :: 0 <= i < |ms| ==> CanPlay(mode, g, p, ms[i])
  }

  function CellAt(n: nat): Move {
    Move(n / SIZE, n % SIZE)
  }

  /** The valid moves among the first `n` cells, row by row. */
  function MovesUpTo(mode: Mode, g: Grid, p: Player, n: nat): seq<Move>
    requires n <= SIZE * SIZE
  {
    if n == 0 then []
    else
      var m := CellAt(n - 1);
      MovesUpTo(mode, g, p, n - 1) + (if Valid(mode, g, m.r, m.c, p) then [m] else [])
  }

  lemma {:induction false} MovesAreValid(mode: Mode, g: Grid, p: Player, n: nat)
    requires n <= SIZE * SIZE
    ensures AllCanPlay(mode, g, p, MovesUpTo(mode, g, p, n))
    decreases n
  {
    if n > 0 {
      MovesAreValid(mode, g, p, n - 1);
      var before, ms := MovesUpTo(mode, g, p, n - 1), MovesUpTo(mode, g, p, n);
      forall i | 0 <= i < |ms|
        ensures CanPlay(mode, g, p, ms[i])
      {
        if i < |before| { assert ms[i] == before[i]; }
      }
    }
  }

  function Moves(mode: Mode, g: Grid, p: Player): (ms: seq<Move>)
    ensures AllCanPlay(mode, g, p, ms)
  {
    MovesAreValid(mode, g, p, SIZE * SIZE);
    MovesUpTo(mode, g, p, SIZE * SIZE)
  }

  lemma {:induction false} MovesAreAll(mode: Mode, g: Grid, p: Player, n: nat, m: Move)
    requires n <= SIZE * SIZE && OnBoard(m) && m.r * SIZE + m.c < n && Valid(mode, g, m.r, m.c, p)
    ensures m in MovesUpTo(mode, g, p, n)
    decreases n
  {
    if m != CellAt(n - 1) {
      MovesAreAll(mode, g, p, n - 1, m);
    }
  }

  /** A player can move if and only if some cell is valid. */
  lemma NoMovesIff(mode: Mode, g: Grid, p: Player)
    ensures Moves(mode, g, p) == [] <==> forall r, c :: On(r, c) ==> !Valid(mode, g, r, c, p)
  {
    if Moves(mode, g, p) == [] {
      forall r, c | On(r, c)
        ensures !Valid(mode, g, r, c, p)
      {
        if Valid(mode, g, r, c, p) { MovesAreAll(mode, g, p, SIZE * SIZE, Move(r, c)); }
      }
    } else {
      var m := Moves(mode, g, p)[0];
      assert CanPlay(mode, g, p, m);
    }
  }
}
