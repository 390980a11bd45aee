/** The board as the game keeps it: cells overwritten in place. */
module OthelloPlay {
  import opened OthelloBoard
  import opened OthelloRules

  lemma {:induction false} CountRowSnoc(row: seq<Cell>, x: Cell, v: Cell)
    ensures CountRow(row + [x], v) == CountRow(row, v) + One(x == v)
    decreases |row|
  {
    if row == [] {
      assert (row + [x])[1..] == [];
    } else {
      assert (row + [x])[1..] == row[1..] + [x];
      CountRowSnoc(row[1..], x, v);
    }
  }

  lemma {:induction false} CountRowsSnoc(rows: seq<seq<Cell>>, row: seq<Cell>, v: Cell)
    ensures CountRows(rows + [row], v) == CountRows(rows, v) + CountRow(row, v)
    decreases |rows|
  {
    if rows == [] {
      assert (rows + [row])[1..] == [];
    } else {
      assert (rows + [row])[1..] == rows[1..] + [row];
      CountRowsSnoc(rows[1..], row, v);
    }
  }

  /** The moves of the opening are the empty cells of the centre, in the order listed. */
  function CentreMoves(g: Grid): seq<Move> {
    (if At(g, 3, 3) == Empty then [Move(3, 3)] else []) +
    (if At(g, 3, 4) == Empty then [Move(3, 4)] else []) +
    (if At(g, 4, 3) == Empty then [Move(4, 3)] else []) +
    (if At(g, 4, 4) == Empty then [Move(4, 4)] else [])
  }

  lemma {:induction false} NoCentreBetween(mode: Mode, g: Grid, p: Player, m: nat, n: nat)
    requires m <= n <= SIZE * SIZE && Setup(mode, g)
    requires forall k :: m <= k < n ==> !Centre(CellAt(k).r, CellAt(k).c)
    ensures MovesUpTo(mode, g, p, n) == MovesUpTo(mode, g, p, m)
    decreases n
  {
    if m < n {
      assert !Centre(CellAt(n - 1).r, CellAt(n - 1).c);
      NoCentreBetween(mode, g, p, m, n - 1);
    }
  }

  lemma MovesNext(mode: Mode, g: Grid, p: Player, n: nat, m: Move)
    requires n < SIZE * SIZE && m == CellAt(n) && OnBoard(m) && Setup(mode, g) && Centre(m.r, m.c)
    ensures MovesUpTo(mode, g, p, n + 1) == MovesUpTo(mode, g, p, n) + (if At(g, m.r, m.c) == Empty then [m] else [])
  {
  }

  lemma SetupMovesUpper(mode: Mode, g: Grid, p: Player)
    requires Setup(mode, g)
    ensures MovesUpTo(mode, g, p, 29) ==
              (if At(g, 3, 3) == Empty then [Move(3, 3)] else []) + (if At(g, 3, 4) == Empty then [Move(3, 4)] else [])
  {
    NoCentreBetween(mode, g, p, 0, 27);
    MovesNext(mode, g, p, 27, Move(3, 3));
    MovesNext(mode, g, p, 28, Move(3, 4));
  }

  lemma SetupMovesLower(mode: Mode, g: Grid, p: Player)
    requires Setup(mode, g)
    ensures Moves(mode, g, p) ==
              MovesUpTo(mode, g, p, 29) +
              (if At(g, 4, 3) == Empty then [Move(4, 3)] else []) + (if At(g, 4, 4) == Empty then [Move(4, 4)] else [])
  {
    NoCentreBetween(mode, g, p, 29, 35);
    MovesNext(mode, g, p, 35, Move(4, 3));
    MovesNext(mode, g, p, 36, Move(4, 4));
    NoCentreBetween(mode, g, p, 37, SIZE * SIZE);
  }

  lemma SetupMoves(mode: Mode, g: Grid, p: Player)
    requires Setup(mode, g)
    ensures Moves(mode, g, p) == CentreMoves(g)
  {
    SetupMovesUpper(mode, g, p);
    SetupMovesLower(mode, g, p);
  }

  /** The first `n` cells of a ray, nearest first. */
  function Path(r: int, c: int, d: Direction, n: nat): (path: seq<Move>)
    ensures |path| == n
  {
    if n == 0 then [] else Path(r, c, d, n - 1) + [Move(Go(r, d.dr, n), Go(c, d.dc, n))]
  }

  lemma {:induction false} PathAt(r: int, c: int, d: Direction, n: nat, k: nat)
    requires k < n
    ensures Path(r, c, d, n)[k] == Move(Go(r, d.dr, k + 1), Go(c, d.dc, k + 1))
    decreases n
  {
    if k < n - 1 { PathAt(r, c, d, n - 1, k); }
  }

  lemma MovesNextInRow(mode: Mode, g: Grid, p: Player, r: nat, c: nat)
    requires On(r, c)
    ensures MovesUpTo(mode, g, p, SIZE * r + c + 1) ==
              MovesUpTo(mode, g, p, SIZE * r + c) + (if Valid(mode, g, r, c, p) then [Move(r, c)] else [])
  {
    assert CellAt(SIZE * r + c) == Move(r, c);
  }

  /** `n` discs of a run have been passed, and (nr, nc) is the next cell. */
  ghost predicate Passed(g: Grid, r: int, c: int, d: Direction, p: Player, n: nat, nr: int, nc: int)
    requires On(r, c) && IsDirection(d)
  {
    && nr == Go(r, d.dr, n + 1) && nc == Go(c, d.dc, n + 1)
    && Run(g, r, c, d, p) == n + RunFrom(g, r, c, d, Opponent(p), n + 1)
  }

  lemma PassedNext(g: Grid, r: int, c: int, d: Direction, p: Player, n: nat, nr: int, nc: int)
    requires On(r, c) && IsDirection(d) && Passed(g, r, c, d, p, n, nr, nc)
    requires On(nr, nc) && At(g, nr, nc) == Opponent(p)
    ensures n < SIZE && Passed(g, r, c, d, p, n + 1, nr + d.dr, nc + d.dc)
    ensures Path(r, c, d, n + 1) == Path(r, c, d, n) + [Move(nr, nc)]
  {
    RunNext(g, r, c, d, Opponent(p), n + 1);
    GoNext(r, d.dr, n + 1);
    GoNext(c, d.dc, n + 1);
  }

  lemma PassedAll(g: Grid, r: int, c: int, d: Direction, p: Player, n: nat, nr: int, nc: int)
    requires On(r, c) && IsDirection(d) && Passed(g, r, c, d, p, n, nr, nc)
    requires !(On(nr, nc) && At(g, nr, nc) == Opponent(p))
    ensures n == Run(g, r, c, d, p)
    ensures Brackets(g, r, c, d, p) <==> n > 0 && On(nr, nc) && At(g, nr, nc) == p
  {
  }

  lemma FlipInTurnNext(g: Grid, r: int, c: int, p: Player, n: nat)
    requires On(r, c) && n < 8
    ensures FlipInTurn(g, r, c, p, n + 1) == FlipOne(FlipInTurn(g, r, c, p, n), r, c, Dir(n), p)
  {
  }

  class Board {
    var cells: Grid

    constructor (g: Grid)
      ensures cells == g
    {
      cells := g;
    }

    method CountPieces() returns (black: nat, white: nat)
      ensures black == Count(cells, Black) && white == Count(cells, White)
    {
      black, white := 0, 0;
      var r := 0;
      while r < SIZE
        invariant 0 <= r <= SIZE
        invariant black == CountRows(cells[..r], Black) && white == CountRows(cells[..r], White)
      {
        var b, w := CountPiecesInRow(r);
        CountRowsSnoc(cells[..r], cells[r], Black);
        CountRowsSnoc(cells[..r], cells[r], White);
        assert cells[..r] + [cells[r]] == cells[..r + 1];
        black, white := black + b, white + w;
        r := r + 1;
      }
      assert cells[..SIZE] == cells;
    }

    method CountPiecesInRow(r: nat) returns (black: nat, white: nat)
      requires r < SIZE
      ensures black == CountRow(cells[r], Black) && white == CountRow(cells[r], White)
    {
      black, white := 0, 0;
      var c := 0;
      while c < SIZE
        invariant 0 <= c <= SIZE
        invariant black == CountRow(cells[r][..c], Black) && white == CountRow(cells[r][..c], White)
      {
        CountRowSnoc(cells[r][..c], cells[r][c], Black);
        CountRowSnoc(cells[r][..c], cells[r][c], White);
        assert cells[r][..c] + [cells[r][c]] == cells[r][..c + 1];
        if cells[r][c] == Black {
          black := black + 1;
        } else if cells[r][c] == White {
          white := white + 1;
        }
        c := c + 1;
      }
      assert cells[r][..SIZE] == cells[r];
    }

    /** The loop along one direction: how far the opponent's discs go. */
    method Scan(r: int, c: int, d: Direction, player: Player) returns (path: seq<Move>, closed: bool)
      requires On(r, c) && IsDirection(d)
      ensures path == Path(r, c, d, Run(cells, r, c, d, player))
      ensures (|path| > 0 && closed) == Brackets(cells, r, c, d, player)
    {
      var g := cells;
      var nr, nc := r + d.dr, c + d.dc;
      ghost var n := 0;
      path := [];
      while 0 <= nr < SIZE && 0 <= nc < SIZE && g[nr][nc] == Opponent(player)
        invariant path == Path(r, c, d, n) && Passed(g, r, c, d, player, n, nr, nc)
        decreases SIZE - n
      {
        PassedNext(g, r, c, d, player, n, nr, nc);
        path := path + [Move(nr, nc)];
        n := n + 1;
        nr, nc := nr + d.dr, nc + d.dc;
      }
      PassedAll(g, r, c, d, player, n, nr, nc);
      closed := 0 <= nr < SIZE && 0 <= nc < SIZE && g[nr][nc] == player;
    }

    method IsSetup(mode: Mode) returns (b: bool)
      ensures b == Setup(mode, cells)
    {
      if mode == Othello {
        return false;
      }
      var black, white := CountPieces();
      return black + white < 4;
    }

    method IsValidMove(mode: Mode, r: int, c: int, player: Player) returns (valid: bool)
      requires On(r, c)
      ensures valid == Valid(mode, cells, r, c, player)
    {
      if cells[r][c] != Empty {
        return false;
      }
      var setup := IsSetup(mode);
      if setup {
        return Centre(r, c);
      }
      var n := 0;
      while n < 8
        invariant 0 <= n <= 8 && !AnyBracket(cells, r, c, player, n)
      {
        var path, closed := Scan(r, c, Dir(n), player);
        if |path| > 0 && closed {
          BracketStays(cells, r, c, player, n + 1, 8);
          return true;
        }
        n := n + 1;
      }
      return false;
    }

    method ValidMoves(mode: Mode, player: Player) returns (moves: seq<Move>)
      ensures moves == Moves(mode, cells, player)
    {
      moves := [];
      var setup := IsSetup(mode);
      if setup {
        SetupMoves(mode, cells, player);
        if cells[3][3] == Empty { moves := moves + [Move(3, 3)]; }
        if cells[3][4] == Empty { moves := moves + [Move(3, 4)]; }
        if cells[4][3] == Empty { moves := moves + [Move(4, 3)]; }
        if cells[4][4] == Empty { moves := moves + [Move(4, 4)]; }
        return;
      }
      var r := 0;
      while r < SIZE
        invariant 0 <= r <= SIZE && moves == MovesUpTo(mode, cells, player, SIZE * r)
      {
        moves := AddRow(mode, player, r, moves);
        r := r + 1;
      }
    }

    method AddRow(mode: Mode, player: Player, r: nat, before: seq<Move>) returns (moves: seq<Move>)
      requires r < SIZE && before == MovesUpTo(mode, cells, player, SIZE * r)
      ensures moves == MovesUpTo(mode, cells, player, SIZE * (r + 1))
    {
      moves := before;
      var c := 0;
      ghost var g := cells;
      while c < SIZE
        invariant 0 <= c <= SIZE && moves == MovesUpTo(mode, g, player, SIZE * r + c)
      {
        MovesNextInRow(mode, g, player, r, c);
        var valid := IsValidMove(mode, r, c, player);
        if valid {
          moves := moves + [Move(r, c)];
        }
        c := c + 1;
      }
    }

    /** Turning over the discs on a path, nearest first. */
    method Take(path: seq<Move>, ghost r: int, ghost c: int, ghost d: Direction, player: Player)
      requires On(r, c) && IsDirection(d) && Reaches(r, c, d, |path|) && path == Path(r, c, d, |path|)
      modifies this
      ensures cells == PutRay(old(cells), r, c, d, player, |path|)
    {
      ReachesNear(r, c, d, |path|);
      var i := 0;
      while i < |path|
        invariant 0 <= i <= |path| && cells == PutRay(old(cells), r, c, d, player, i)
      {
        PathAt(r, c, d, |path|, i);
        assert Reaches(r, c, d, i + 1);
        cells := Put(cells, path[i].r, path[i].c, player);
        i := i + 1;
      }
    }

    method ApplyMove(mode: Mode, r: int, c: int, player: Player)
      requires On(r, c)
      modifies this
      ensures cells == Applied(mode, old(cells), r, c, player)
    {
      cells := Put(cells, r, c, player);
      if mode == Reversi {
        var black, white := CountPieces();
        if black + white <= 4 {
          return;
        }
      }
      FlipDirections(r, c, player);
    }

    method FlipDirections(r: int, c: int, player: Player)
      requires On(r, c)
      modifies this
      ensures cells == FlipInTurn(old(cells), r, c, player, 8)
    {
      ghost var g := cells;
      var n := 0;
      while n < 8
        invariant 0 <= n <= 8 && cells == FlipInTurn(g, r, c, player, n)
      {
        FlipDirection(r, c, Dir(n), player);
        FlipInTurnNext(g, r, c, player, n);
        n := n + 1;
      }
    }

    method FlipDirection(r: int, c: int, d: Direction, player: Player)
      requires On(r, c) && IsDirection(d)
      modifies this
      ensures cells == FlipOne(old(cells), r, c, d, player)
    {
      FlipReaches(cells, r, c, d, player);
      var path, closed := Scan(r, c, d, player);
      if |path| > 0 && closed {
        Take(path, r, c, d, player);
      }
    }
  }

  lemma {:induction false} BracketStays(g: Grid, r: int, c: int, p: Player, m: nat, n: nat)
    requires On(r, c) && m <= n <= 8 && AnyBracket(g, r, c, p, m)
    ensures AnyBracket(g, r, c, p, n)
    decreases n
  {
    if m < n { BracketStays(g, r, c, p, m, n - 1); }
  }
}
