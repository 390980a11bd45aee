/** A local game from its first position to its end. */
module OthelloGame {
  import opened OthelloBoard
  import opened OthelloRules
  import opened OthelloPlay
  import opened OthelloSearch

  function EmptyRow(): (row: seq<Cell>)
    ensures |row| == SIZE && forall c :: 0 <= c < SIZE ==> row[c] == Empty
  {
    [Empty, Empty, Empty, Empty, Empty, Empty, Empty, Empty]
  }

  function NoDiscs(): (g: Grid)
    ensures forall r :: 0 <= r < SIZE ==> g[r] == EmptyRow()
  {
    var row := EmptyRow();
    [row, row, row, row, row, row, row, row]
  }

  function FirstGrid(mode: Mode): Grid {
    if mode == Reversi then NoDiscs()
    else Put(Put(Put(Put(NoDiscs(), 3, 3, White), 3, 4, Black), 4, 3, Black), 4, 4, White)
  }

  /** The first positions, cell by cell. */
  lemma FirstGridIs(r: int, c: int)
    requires On(r, c)
    ensures At(FirstGrid(Reversi), r, c) == Empty
    ensures At(FirstGrid(Othello), r, c) ==
              if (r == 3 && c == 3) || (r == 4 && c == 4) then White
              else if (r == 3 && c == 4) || (r == 4 && c == 3) then Black else Empty
  {
  }

  /** `passes` counts the turns that were skipped. */
  datatype State = State(mode: Mode, g: Grid, player: Player, active: bool, passes: nat)

  function First(mode: Mode): State {
    State(mode, FirstGrid(mode), Black, true, 0)
  }

  /** After a placement: the other side moves, or is passed over, or the game is over. */
  function CheckTurn(mode: Mode, g: Grid, next: Player, passes: nat): State {
    if Moves(mode, g, next) != [] then State(mode, g, next, true, passes)
    else if Moves(mode, g, Opponent(next)) == [] then State(mode, g, next, false, passes)
    else State(mode, g, Opponent(next), true, passes + 1)
  }

  predicate MayPlace(s: State, m: Move) {
    s.active && CanPlay(s.mode, s.g, s.player, m)
  }

  function Place(s: State, m: Move): State
    requires MayPlace(s, m)
  {
    CheckTurn(s.mode, Applied(s.mode, s.g, m.r, m.c, s.player), Opponent(s.player), s.passes)
  }

  function CentreDiscs(g: Grid): nat {
    One(At(g, 3, 3) != Empty) + One(At(g, 3, 4) != Empty) + One(At(g, 4, 3) != Empty) + One(At(g, 4, 4) != Empty)
  }

  ghost predicate OnlyCentre(g: Grid) {
    forall r, c :: On(r, c) && !Centre(r, c) ==> At(g, r, c) == Empty
  }

  /** The opening of Reversi: the discs so far are in the centre and alternate, Black first. */
  ghost predicate OpeningOk(s: State) {
    s.mode == Reversi && Pieces(s.g) <= 4 ==>
      && OnlyCentre(s.g) && CentreDiscs(s.g) == Pieces(s.g)
      && Count(s.g, White) == Pieces(s.g) / 2
      && (Pieces(s.g) < 4 ==> s.active && s.player == if Pieces(s.g) % 2 == 0 then Black else White)
  }

  /** An active game always has a move for the player whose turn it is; a finished one has none at all. */
  predicate TurnOk(s: State) {
    if s.active then Moves(s.mode, s.g, s.player) != []
    else Moves(s.mode, s.g, Black) == [] && Moves(s.mode, s.g, White) == []
  }

  lemma TurnKept(s: State, m: Move)
    requires MayPlace(s, m)
    ensures TurnOk(Place(s, m))
  {
  }

  ghost predicate HasMove(mode: Mode, g: Grid, p: Player) {
    exists r, c :: On(r, c) && Valid(mode, g, r, c, p)
  }

  /**
    The other side is asked first; if it has no move the same side goes on, and if neither
    has one the game is over.
   */
  lemma TurnAfter(s: State, m: Move)
    requires MayPlace(s, m)
    ensures var s', other := Place(s, m), if s.player == Black then White else Black;
            && s'.g == Applied(s.mode, s.g, m.r, m.c, s.player)
            && (s'.active <==> HasMove(s.mode, s'.g, Black) || HasMove(s.mode, s'.g, White))
            && (s'.active ==> s'.player == if HasMove(s.mode, s'.g, other) then other else s.player)
            && s'.passes == s.passes + if s'.active && s'.player == s.player then 1 else 0
  {
    var h := Applied(s.mode, s.g, m.r, m.c, s.player);
    NoMovesIff(s.mode, h, Black);
    NoMovesIff(s.mode, h, White);
  }

  lemma PlaceCounts(s: State, m: Move)
    requires MayPlace(s, m)
    ensures Pieces(Place(s, m).g) == Pieces(s.g) + 1
    ensures Place(s, m).mode == s.mode && Place(s, m).passes <= s.passes + 1
  {
    MoveCounts(s.mode, s.g, m.r, m.c, s.player);
  }

  lemma CentreFilled(g: Grid, r: int, c: int, p: Player)
    requires Centre(r, c) && At(g, r, c) == Empty && OnlyCentre(g)
    ensures OnlyCentre(Put(g, r, c, p)) && CentreDiscs(Put(g, r, c, p)) == CentreDiscs(g) + 1
  {
  }

  /** While the centre has an empty cell, either side can move. */
  lemma SetupHasMoves(mode: Mode, g: Grid, p: Player)
    requires Setup(mode, g) && CentreDiscs(g) == Pieces(g)
    ensures Moves(mode, g, p) != []
  {
    SetupMoves(mode, g, p);
  }

  lemma OpeningKept(s: State, m: Move)
    requires MayPlace(s, m) && OpeningOk(s)
    ensures OpeningOk(Place(s, m))
  {
    var h := Applied(s.mode, s.g, m.r, m.c, s.player);
    MoveCounts(s.mode, s.g, m.r, m.c, s.player);
    if s.mode == Reversi && Pieces(h) <= 4 {
      PiecesPut(s.g, m.r, m.c, s.player);
      assert h == Put(s.g, m.r, m.c, s.player);
      CentreFilled(s.g, m.r, m.c, s.player);
      if Pieces(h) < 4 {
        SetupHasMoves(s.mode, h, Opponent(s.player));
      }
    }
  }

  lemma {:induction false} RowTotal(row: seq<Cell>)
    ensures CountRow(row, Empty) + CountRow(row, Black) + CountRow(row, White) == |row|
    decreases |row|
  {
    if row != [] { RowTotal(row[1..]); }
  }

  lemma {:induction false} RowsTotal(rows: seq<seq<Cell>>)
    requires forall r :: 0 <= r < |rows| ==> |rows[r]| == SIZE
    ensures CountRows(rows, Empty) + CountRows(rows, Black) + CountRows(rows, White) == SIZE * |rows|
    decreases |rows|
  {
    if rows != [] {
      RowTotal(rows[0]);
      RowsTotal(rows[1..]);
    }
  }

  lemma BoardHolds(g: Grid)
    ensures Pieces(g) <= SIZE * SIZE
  {
    RowsTotal(g);
  }

  lemma {:induction false} NoneInRow(row: seq<Cell>, p: Player)
    requires forall c :: 0 <= c < |row| ==> row[c] == Empty
    ensures CountRow(row, p) == 0
    decreases |row|
  {
    if row != [] { NoneInRow(row[1..], p); }
  }

  lemma {:induction false} NoneInRows(rows: seq<seq<Cell>>, p: Player)
    requires forall r, c :: 0 <= r < |rows| && 0 <= c < |rows[r]| ==> rows[r][c] == Empty
    ensures CountRows(rows, p) == 0
    decreases |rows|
  {
    if rows != [] {
      NoneInRow(rows[0], p);
      NoneInRows(rows[1..], p);
    }
  }

  lemma FirstPieces(mode: Mode)
    ensures Pieces(FirstGrid(mode)) == if mode == Othello then 4 else 0
    ensures mode == Reversi ==> Count(FirstGrid(mode), White) == 0
  {
    NoneInRows(NoDiscs(), Black);
    NoneInRows(NoDiscs(), White);
    if mode == Othello {
      var a := Put(NoDiscs(), 3, 3, White);
      var b := Put(a, 3, 4, Black);
      var c := Put(b, 4, 3, Black);
      PiecesPut(NoDiscs(), 3, 3, White);
      PiecesPut(a, 3, 4, Black);
      PiecesPut(b, 4, 3, Black);
      PiecesPut(c, 4, 4, White);
    }
  }

  /** Black's first move in Othello: over the white disc at (3, 3) to the black one below it. */
  lemma OthelloOpens()
    ensures Valid(Othello, FirstGrid(Othello), 2, 3, Black)
  {
    var g := FirstGrid(Othello);
    var d := Dir(6);
    assert d == Direction(1, 0);
    assert At(g, 3, 3) == White && At(g, 4, 3) == Black;
    assert Ray(g, 2, 3, d, 1) == White && Ray(g, 2, 3, d, 2) == Black;
    assert RunFrom(g, 2, 3, d, White, 2) == 0;
    assert Run(g, 2, 3, d, Black) == 1;
    assert AnyBracket(g, 2, 3, Black, 7);
    assert AnyBracket(g, 2, 3, Black, 8);
  }

  lemma FirstOk(mode: Mode)
    ensures TurnOk(First(mode)) && OpeningOk(First(mode))
  {
    FirstPieces(mode);
    if mode == Othello {
      OthelloOpens();
      NoMovesIff(mode, FirstGrid(mode), Black);
    } else {
      assert forall r, c :: On(r, c) ==> At(NoDiscs(), r, c) == Empty;
      SetupHasMoves(mode, FirstGrid(mode), Black);
    }
  }

  predicate Legal(s: State, run: seq<Move>)
    decreases |run|
  {
    run == [] || (MayPlace(s, run[0]) && Legal(Place(s, run[0]), run[1..]))
  }

  function After(s: State, run: seq<Move>): State
    requires Legal(s, run)
    decreases |run|
  {
    if run == [] then s else After(Place(s, run[0]), run[1..])
  }

  lemma {:induction false} RunKeeps(s: State, run: seq<Move>)
    requires Legal(s, run) && TurnOk(s) && OpeningOk(s)
    ensures var s' := After(s, run);
            && TurnOk(s') && OpeningOk(s') && s'.mode == s.mode
            && Pieces(s'.g) == Pieces(s.g) + |run| && s'.passes <= s.passes + |run|
    decreases |run|
  {
    if run != [] {
      TurnKept(s, run[0]);
      OpeningKept(s, run[0]);
      PlaceCounts(s, run[0]);
      RunKeeps(Place(s, run[0]), run[1..]);
    }
  }

  /**
    Every local game ends: no more than 60 placements can follow an Othello start, or 64 in
    Reversi, with at most one pass after each; and a position in which the game has not
    ended allows a further placement, so a game can only stop by ending.
   */
  lemma {:induction false} EveryGameEnds(mode: Mode, run: seq<Move>)
    requires Legal(First(mode), run)
    ensures |run| <= if mode == Othello then 60 else 64
    ensures var s := After(First(mode), run);
            && s.passes <= |run|
            && (s.active ==> exists m: Move :: MayPlace(s, m))
            && (!s.active ==> Moves(mode, s.g, Black) == [] && Moves(mode, s.g, White) == [])
  {
    FirstOk(mode);
    FirstPieces(mode);
    RunKeeps(First(mode), run);
    var s := After(First(mode), run);
    BoardHolds(s.g);
    if s.active { TurnMeansMove(s); }
  }

  lemma TurnMeansMove(s: State)
    requires TurnOk(s) && s.active
    ensures exists m: Move :: MayPlace(s, m)
  {
    assert MayPlace(s, Moves(s.mode, s.g, s.player)[0]);
  }

  /** A run up to its `n`-th placement, and that placement. */
  lemma {:induction false} RunPrefix(s: State, run: seq<Move>, n: nat)
    requires n < |run| && Legal(s, run)
    ensures Legal(s, run[..n]) && Legal(s, run[..n + 1]) && MayPlace(After(s, run[..n]), run[n])
    ensures After(s, run[..n + 1]) == Place(After(s, run[..n]), run[n])
    decreases n
  {
    assert run[..n + 1][1..] == run[1..][..n];
    if n > 0 {
      assert run[..n][1..] == run[1..][..n - 1];
      RunPrefix(Place(s, run[0]), run[1..], n - 1);
    }
  }

  /**
    Between two passes there is a placement: each placement brings at most one pass, and the
    player who then has the turn can move.
   */
  lemma {:induction false} PassesAreApart(mode: Mode, run: seq<Move>, n: nat)
    requires n < |run| && Legal(First(mode), run)
    ensures Legal(First(mode), run[..n]) && Legal(First(mode), run[..n + 1])
    ensures var before, after := After(First(mode), run[..n]), After(First(mode), run[..n + 1]);
            && before.passes <= after.passes <= before.passes + 1
            && (after.passes > before.passes ==> after.active && Moves(mode, after.g, after.player) != [])
            && Pieces(after.g) == Pieces(before.g) + 1
  {
    RunPrefix(First(mode), run, n);
    FirstOk(mode);
    RunKeeps(First(mode), run[..n]);
    var before := After(First(mode), run[..n]);
    PlaceCounts(before, run[n]);
    PassMeansTurn(before, run[n]);
  }

  lemma PassMeansTurn(s: State, m: Move)
    requires MayPlace(s, m)
    ensures s.passes <= Place(s, m).passes
    ensures Place(s, m).passes > s.passes ==>
              Place(s, m).active && Moves(s.mode, Place(s, m).g, Place(s, m).player) != []
  {
  }

  lemma CentreFull(g: Grid)
    requires OnlyCentre(g) && CentreDiscs(g) == 4
    ensures forall r, c :: On(r, c) ==> (At(g, r, c) != Empty <==> Centre(r, c))
  {
    forall r, c | On(r, c)
      ensures At(g, r, c) != Empty <==> Centre(r, c)
    {
      if Centre(r, c) { assert (r == 3 || r == 4) && (c == 3 || c == 4); }
    }
  }

  lemma OpeningDone(s: State)
    requires OpeningOk(s) && s.mode == Reversi && Pieces(s.g) == 4
    ensures forall r, c :: On(r, c) ==> (At(s.g, r, c) != Empty <==> Centre(r, c))
    ensures Count(s.g, Black) == 2 && Count(s.g, White) == 2
  {
    CentreFull(s.g);
  }

  /** The first four placements of Reversi fill the centre with two discs of each colour. */
  lemma {:induction false} ReversiOpening(run: seq<Move>)
    requires Legal(First(Reversi), run) && |run| == 4
    ensures var g := After(First(Reversi), run).g;
            && (forall r, c :: On(r, c) ==> (At(g, r, c) != Empty <==> Centre(r, c)))
            && Count(g, Black) == 2 && Count(g, White) == 2
  {
    FirstOk(Reversi);
    FirstPieces(Reversi);
    RunKeeps(First(Reversi), run);
    OpeningDone(After(First(Reversi), run));
  }

  datatype Difficulty = Easy(random: nat) | Medium | Hard

  /** A game against the bot, which plays White. */
  class Game {
    const mode: Mode
    const board: Board
    var currentPlayer: Player
    var gameActive: bool
    ghost var passes: nat

    ghost function View(): State
      reads this, board
    {
      State(mode, board.cells, currentPlayer, gameActive, passes)
    }

    constructor (mode: Mode)
      ensures this.mode == mode && View() == First(mode) && fresh(board)
    {
      this.mode := mode;
      board := new Board(FirstGrid(mode));
      currentPlayer := Black;
      gameActive := true;
      passes := 0;
    }

    /** After a placement; a pass takes effect at once. */
    method CheckTurnOf(next: Player)
      requires gameActive
      modifies this
      ensures View() == CheckTurn(mode, board.cells, next, old(passes))
    {
      currentPlayer := next;
      var moves := board.ValidMoves(mode, next);
      if moves == [] {
        var others := board.ValidMoves(mode, Opponent(next));
        if others == [] {
          gameActive := false;
        } else {
          passes := passes + 1;
          currentPlayer := Opponent(next);
        }
      }
    }

    /** A click on a cell: ignored unless it is Black's turn and the move is valid. */
    method MakeMoveLocal(r: int, c: int)
      requires On(r, c)
      modifies this, board
      ensures View() ==
                if old(currentPlayer) == Black && old(MayPlace(View(), Move(r, c)))
                then Place(old(View()), Move(r, c)) else old(View())
    {
      if !gameActive || currentPlayer == White {
        return;
      }
      var valid := board.IsValidMove(mode, r, c, currentPlayer);
      if !valid {
        return;
      }
      board.ApplyMove(mode, r, c, currentPlayer);
      CheckTurnOf(Opponent(currentPlayer));
    }

    /** The heaviest cell among the moves, the first one of several. */
    method HeuristicMove(w: Weights, moves: seq<Move>) returns (best: nat)
      requires moves != [] && AllOnBoard(moves)
      ensures FirstMax(CellWeights(w, moves), |moves|, best)
    {
      ghost var values := CellWeights(w, moves);
      best := 0;
      var i := 0;
      var bestScore := NegInf;
      while i < |moves|
        invariant 0 <= i <= |moves|
        invariant i == 0 ==> bestScore == NegInf
        invariant i > 0 ==> FirstMax(values, i, best) && bestScore == Fin(values[best])
      {
        FirstMaxNext(values, i, best);
        var score := w[moves[i].r][moves[i].c];
        if Lt(bestScore, Fin(score)) {
          bestScore, best := Fin(score), i;
        }
        i := i + 1;
      }
    }

    method ChooseMove(w: Weights, difficulty: Difficulty, moves: seq<Move>) returns (choice: nat)
      requires moves != [] && AllOnBoard(moves)
      ensures choice < |moves|
      ensures difficulty == Medium ==> FirstMax(CellWeights(w, moves), |moves|, choice)
      ensures difficulty == Hard ==> FirstMax(Values(mode, w, board.cells, White, moves, 3), |moves|, choice)
    {
      match difficulty
      case Easy(random) => choice := random % |moves|;
      case Medium => choice := HeuristicMove(w, moves);
      case Hard => choice := BestMove(mode, w, board, moves, 3);
    }

    /** The bot's reply, which its timer starts only on White's turn. */
    method BotTurn(w: Weights, difficulty: Difficulty) returns (ghost m: Move)
      requires gameActive ==> currentPlayer == White
      modifies this, board
      ensures old(gameActive && Moves(mode, board.cells, White) != []) ==>
                old(MayPlace(View(), m)) && View() == Place(old(View()), m)
      ensures !old(gameActive && Moves(mode, board.cells, White) != []) ==> View() == old(View())
    {
      m := Move(0, 0);
      if !gameActive {
        return;
      }
      var moves := board.ValidMoves(mode, White);
      if moves == [] {
        return;
      }
      PlayableIsOnBoard(mode, board.cells, White, moves);
      var choice := ChooseMove(w, difficulty, moves);
      m := moves[choice];
      assert CanPlay(mode, board.cells, White, moves[choice]);
      board.ApplyMove(mode, moves[choice].r, moves[choice].c, White);
      CheckTurnOf(Black);
    }
  }

  function CellWeights(w: Weights, moves: seq<Move>): (vs: seq<int>)
    requires AllOnBoard(moves)
    ensures |vs| == |moves| && forall i :: 0 <= i < |vs| ==> OnBoard(moves[i]) && vs[i] == w[moves[i].r][moves[i].c]
  {
    seq(|moves|, i requires 0 <= i < |moves| => assert OnBoard(moves[i]); w[moves[i].r][moves[i].c])
  }
}
