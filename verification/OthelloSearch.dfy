/** Alpha-beta search, and the plain depth-limited minimax it must agree with. */
module OthelloSearch {
  import opened OthelloBoard
  import opened OthelloRules
  import opened OthelloPlay

  /** Integers with the two infinities that a search window starts with. */
  datatype Ext = NegInf | Fin(value: int) | PosInf

  predicate Le(a: Ext, b: Ext) {
    a == NegInf || b == PosInf || (a.Fin? && b.Fin? && a.value <= b.value)
  }

  predicate Lt(a: Ext, b: Ext) {
    !Le(b, a)
  }

  function MaxExt(a: Ext, b: Ext): Ext {
    if Le(a, b) then b else a
  }

  function MinExt(a: Ext, b: Ext): Ext {
    if Le(a, b) then a else b
  }

  predicate IsWeights(w: seq<seq<int>>) {
    |w| == SIZE && forall r :: 0 <= r < SIZE ==> |w[r]| == SIZE
  }

  type Weights = w: seq<seq<int>> | IsWeights(w) witness seq(SIZE, _ => seq(SIZE, _ => 0))

  function CellScore(w: Weights, g: Grid, r: int, c: int): int
    requires On(r, c)
  {
    if g[r][c] == White then w[r][c] else if g[r][c] == Black then -w[r][c] else 0
  }

  function ScoreUpTo(w: Weights, g: Grid, n: nat): int
    requires n <= SIZE * SIZE
  {
    if n == 0 then 0
    else ScoreUpTo(w, g, n - 1) + CellScore(w, g, (n - 1) / SIZE, (n - 1) % SIZE)
  }

  function Score(w: Weights, g: Grid): int {
    ScoreUpTo(w, g, SIZE * SIZE)
  }

  lemma ScoreNext(w: Weights, g: Grid, r: nat, c: nat)
    requires On(r, c)
    ensures ScoreUpTo(w, g, SIZE * r + c + 1) == ScoreUpTo(w, g, SIZE * r + c) + CellScore(w, g, r, c)
  {
    assert (SIZE * r + c) / SIZE == r && (SIZE * r + c) % SIZE == c;
  }

  method EvaluateBoard(w: Weights, board: Board) returns (score: int)
    ensures score == Score(w, board.cells)
  {
    var g := board.cells;
    score := 0;
    var r := 0;
    while r < SIZE
      invariant 0 <= r <= SIZE && score == ScoreUpTo(w, g, SIZE * r)
    {
      var c := 0;
      while c < SIZE
        invariant 0 <= c <= SIZE && score == ScoreUpTo(w, g, SIZE * r + c)
      {
        ScoreNext(w, g, r, c);
        if g[r][c] == White {
          score := score + w[r][c];
        } else if g[r][c] == Black {
          score := score - w[r][c];
        }
        c := c + 1;
      }
      r := r + 1;
    }
  }

  function MaxOf(s: seq<int>): int
    requires s != []
  {
    var n := |s| - 1;
    if n == 0 then s[0] else if MaxOf(s[..n]) < s[n] then s[n] else MaxOf(s[..n])
  }

  function MinOf(s: seq<int>): int
    requires s != []
  {
    var n := |s| - 1;
    if n == 0 then s[0] else if s[n] < MinOf(s[..n]) then s[n] else MinOf(s[..n])
  }

  /** The extremes bound every element and are elements themselves. */
  lemma {:induction false} Extremes(s: seq<int>)
    requires s != []
    ensures MinOf(s) in s && MaxOf(s) in s
    ensures forall x :: x in s ==> MinOf(s) <= x <= MaxOf(s)
    decreases |s|
  {
    var n := |s| - 1;
    assert s == s[..n] + [s[n]];
    if n > 0 { Extremes(s[..n]); }
  }

  function Mover(maximizing: bool): Player {
    if maximizing then White else Black
  }

  predicate AllOnBoard(moves: seq<Move>) {
    forall i :: 0 <= i < |moves| ==> OnBoard(moves[i])
  }

  lemma PlayableIsOnBoard(mode: Mode, g: Grid, p: Player, moves: seq<Move>)
    requires AllCanPlay(mode, g, p, moves)
    ensures AllOnBoard(moves)
  {
    forall i | 0 <= i < |moves|
      ensures OnBoard(moves[i])
    {
      assert CanPlay(mode, g, p, moves[i]);
    }
  }

  /** Minimax to a fixed depth without pruning; a side that cannot move passes. */
  function Plain(mode: Mode, w: Weights, g: Grid, depth: nat, maximizing: bool): int
    decreases depth, 0
  {
    var p := Mover(maximizing);
    var moves := Moves(mode, g, p);
    PlayableIsOnBoard(mode, g, p, moves);
    if depth == 0 then Score(w, g)
    else if moves == [] then
      if Moves(mode, g, Opponent(p)) == [] then Score(w, g) else Plain(mode, w, g, depth - 1, !maximizing)
    else if maximizing then MaxOf(Values(mode, w, g, p, moves, depth - 1))
    else MinOf(Values(mode, w, g, p, moves, depth - 1))
  }

  /** The plain value of the position after a move. */
  function Child(mode: Mode, w: Weights, g: Grid, p: Player, m: Move, depth: nat): int
    requires OnBoard(m)
    decreases depth, 1
  {
    Plain(mode, w, Applied(mode, g, m.r, m.c, p), depth, p == Black)
  }

  function Values(mode: Mode, w: Weights, g: Grid, p: Player, moves: seq<Move>, depth: nat): (vs: seq<int>)
    requires AllOnBoard(moves)
    ensures |vs| == |moves|
    decreases depth, 2
  {
    seq(|moves|, i requires 0 <= i < |moves| => Child(mode, w, g, p, moves[i], depth))
  }

  /**
    What a pruned result says about the exact one: inside the window it is exact, at or
    below alpha it is an upper bound, at or above beta a lower bound.
   */
  predicate Bounds(v: Ext, alpha: Ext, beta: Ext, exact: int) {
    && (Lt(alpha, v) && Lt(v, beta) ==> v == Fin(exact))
    && (Le(v, alpha) ==> Le(Fin(exact), v))
    && (Le(beta, v) ==> Le(v, Fin(exact)))
  }

  /** The state of the maximizing loop: `best` against the exact maximum so far. */
  predicate MaxSoFar(best: Ext, alpha0: Ext, alpha: Ext, beta: Ext, values: seq<int>) {
    && Lt(alpha0, beta) && alpha == MaxExt(alpha0, best)
    && (if values == [] then best == NegInf else Bounds(best, alpha0, beta, MaxOf(values)))
  }

  predicate MinSoFar(best: Ext, alpha: Ext, beta0: Ext, beta: Ext, values: seq<int>) {
    && Lt(alpha, beta0) && beta == MinExt(beta0, best)
    && (if values == [] then best == PosInf else Bounds(best, alpha, beta0, MinOf(values)))
  }

  lemma ExtremesSnoc(values: seq<int>, x: int)
    ensures MaxOf(values + [x]) == if values == [] || MaxOf(values) < x then x else MaxOf(values)
    ensures MinOf(values + [x]) == if values == [] || x < MinOf(values) then x else MinOf(values)
  {
    assert (values + [x])[..|values|] == values;
  }

  lemma MaxBounds(best: Ext, alpha: Ext, beta: Ext, m: int, v: Ext, x: int)
    requires Bounds(best, alpha, beta, m) && Lt(alpha, beta)
    requires Lt(MaxExt(alpha, best), beta) && Bounds(v, MaxExt(alpha, best), beta, x)
    ensures Bounds(MaxExt(best, v), alpha, beta, if m < x then x else m)
    ensures MaxExt(MaxExt(alpha, best), v) == MaxExt(alpha, MaxExt(best, v))
  {
  }

  lemma MinBounds(best: Ext, alpha: Ext, beta: Ext, m: int, v: Ext, x: int)
    requires Bounds(best, alpha, beta, m) && Lt(alpha, beta)
    requires Lt(alpha, MinExt(beta, best)) && Bounds(v, alpha, MinExt(beta, best), x)
    ensures Bounds(MinExt(best, v), alpha, beta, if x < m then x else m)
    ensures MinExt(MinExt(beta, best), v) == MinExt(beta, MinExt(best, v))
  {
  }

  lemma MaxNext(best: Ext, alpha0: Ext, alpha: Ext, beta: Ext, values: seq<int>, v: Ext, x: int)
    requires MaxSoFar(best, alpha0, alpha, beta, values) && Lt(alpha, beta) && Bounds(v, alpha, beta, x)
    ensures MaxSoFar(MaxExt(best, v), alpha0, MaxExt(alpha, v), beta, values + [x])
  {
    ExtremesSnoc(values, x);
    if values != [] {
      MaxBounds(best, alpha0, beta, MaxOf(values), v, x);
    }
  }

  lemma MinNext(best: Ext, alpha: Ext, beta0: Ext, beta: Ext, values: seq<int>, v: Ext, x: int)
    requires MinSoFar(best, alpha, beta0, beta, values) && Lt(alpha, beta) && Bounds(v, alpha, beta, x)
    ensures MinSoFar(MinExt(best, v), alpha, beta0, MinExt(beta, v), values + [x])
  {
    ExtremesSnoc(values, x);
    if values != [] {
      MinBounds(best, alpha, beta0, MinOf(values), v, x);
    }
  }

  lemma MaxNextAt(best: Ext, alpha0: Ext, alpha: Ext, beta: Ext, values: seq<int>, i: nat, v: Ext)
    requires i < |values| && MaxSoFar(best, alpha0, alpha, beta, values[..i])
    requires Lt(alpha, beta) && Bounds(v, alpha, beta, values[i])
    ensures MaxSoFar(MaxExt(best, v), alpha0, MaxExt(alpha, v), beta, values[..i + 1])
  {
    MaxNext(best, alpha0, alpha, beta, values[..i], v, values[i]);
    assert values[..i] + [values[i]] == values[..i + 1];
  }

  lemma MinNextAt(best: Ext, alpha: Ext, beta0: Ext, beta: Ext, values: seq<int>, i: nat, v: Ext)
    requires i < |values| && MinSoFar(best, alpha, beta0, beta, values[..i])
    requires Lt(alpha, beta) && Bounds(v, alpha, beta, values[i])
    ensures MinSoFar(MinExt(best, v), alpha, beta0, MinExt(beta, v), values[..i + 1])
  {
    MinNext(best, alpha, beta0, beta, values[..i], v, values[i]);
    assert values[..i] + [values[i]] == values[..i + 1];
  }

  /** A cut: the values not looked at cannot bring the maximum back below beta. */
  lemma MaxCut(best: Ext, alpha0: Ext, alpha: Ext, beta: Ext, values: seq<int>, n: nat)
    requires 0 < n <= |values| && MaxSoFar(best, alpha0, alpha, beta, values[..n])
    requires Le(beta, alpha) || n == |values|
    ensures Bounds(best, alpha0, beta, MaxOf(values))
  {
    if n == |values| {
      assert values[..n] == values;
    } else {
      ExtremesOfPrefix(values, n);
    }
  }

  lemma MinCut(best: Ext, alpha: Ext, beta0: Ext, beta: Ext, values: seq<int>, n: nat)
    requires 0 < n <= |values| && MinSoFar(best, alpha, beta0, beta, values[..n])
    requires Le(beta, alpha) || n == |values|
    ensures Bounds(best, alpha, beta0, MinOf(values))
  {
    if n == |values| {
      assert values[..n] == values;
    } else {
      ExtremesOfPrefix(values, n);
    }
  }

  lemma ExtremesOfPrefix(s: seq<int>, n: nat)
    requires 0 < n <= |s|
    ensures MaxOf(s[..n]) <= MaxOf(s) && MinOf(s) <= MinOf(s[..n])
  {
    Extremes(s[..n]);
    Extremes(s);
    assert forall x :: x in s[..n] ==> x in s;
  }

  /** Depth-limited search with a window; the result bounds the plain value. */
  method Minimax(mode: Mode, w: Weights, board: Board, depth: nat, alpha: Ext, beta: Ext, maximizing: bool)
    returns (value: Ext)
    requires Lt(alpha, beta)
    ensures Bounds(value, alpha, beta, Plain(mode, w, board.cells, depth, maximizing))
    decreases depth, 0
  {
    if depth == 0 {
      var score := EvaluateBoard(w, board);
      return Fin(score);
    }
    var p := Mover(maximizing);
    var moves := board.ValidMoves(mode, p);
    if moves == [] {
      var replies := board.ValidMoves(mode, Opponent(p));
      if replies == [] {
        var score := EvaluateBoard(w, board);
        return Fin(score);
      }
      value := Minimax(mode, w, board, depth - 1, alpha, beta, !maximizing);
      return;
    }
    PlayableIsOnBoard(mode, board.cells, p, moves);
    if maximizing {
      value := Maximize(mode, w, board, depth - 1, alpha, beta, moves);
    } else {
      value := Minimize(mode, w, board, depth - 1, alpha, beta, moves);
    }
  }

  /** The `i`-th move tried on a copy of the board. */
  method Try(mode: Mode, w: Weights, board: Board, moves: seq<Move>, i: nat, p: Player, depth: nat,
             alpha: Ext, beta: Ext)
    returns (value: Ext)
    requires Lt(alpha, beta) && AllOnBoard(moves) && i < |moves|
    ensures Bounds(value, alpha, beta, Values(mode, w, board.cells, p, moves, depth)[i])
    decreases depth, 1
  {
    var m := moves[i];
    var copy := new Board(board.cells);
    copy.ApplyMove(mode, m.r, m.c, p);
    value := Minimax(mode, w, copy, depth, alpha, beta, p == Black);
  }

  method Maximize(mode: Mode, w: Weights, board: Board, depth: nat, alpha0: Ext, beta: Ext, moves: seq<Move>)
    returns (best: Ext)
    requires Lt(alpha0, beta) && moves != [] && AllOnBoard(moves)
    ensures Bounds(best, alpha0, beta, MaxOf(Values(mode, w, board.cells, White, moves, depth)))
    decreases depth, 2
  {
    ghost var values := Values(mode, w, board.cells, White, moves, depth);
    best := NegInf;
    var alpha := alpha0;
    var i := 0;
    while i < |moves|
      invariant 0 <= i <= |moves| && Lt(alpha, beta)
      invariant MaxSoFar(best, alpha0, alpha, beta, values[..i])
    {
      var value := Try(mode, w, board, moves, i, White, depth, alpha, beta);
      MaxNextAt(best, alpha0, alpha, beta, values, i, value);
      best, alpha := MaxExt(best, value), MaxExt(alpha, value);
      i := i + 1;
      if Le(beta, alpha) {
        break;
      }
    }
    MaxCut(best, alpha0, alpha, beta, values, i);
  }

  method Minimize(mode: Mode, w: Weights, board: Board, depth: nat, alpha: Ext, beta0: Ext, moves: seq<Move>)
    returns (best: Ext)
    requires Lt(alpha, beta0) && moves != [] && AllOnBoard(moves)
    ensures Bounds(best, alpha, beta0, MinOf(Values(mode, w, board.cells, Black, moves, depth)))
    decreases depth, 2
  {
    ghost var values := Values(mode, w, board.cells, Black, moves, depth);
    best := PosInf;
    var beta := beta0;
    var i := 0;
    while i < |moves|
      invariant 0 <= i <= |moves| && Lt(alpha, beta)
      invariant MinSoFar(best, alpha, beta0, beta, values[..i])
    {
      var value := Try(mode, w, board, moves, i, Black, depth, alpha, beta);
      MinNextAt(best, alpha, beta0, beta, values, i, value);
      best, beta := MinExt(best, value), MinExt(beta, value);
      i := i + 1;
      if Le(beta, alpha) {
        break;
      }
    }
    MinCut(best, alpha, beta0, beta, values, i);
  }

  /** `best` is the first index of the largest of the first `n` values. */
  predicate FirstMax(values: seq<int>, n: nat, best: nat)
    requires n <= |values|
  {
    && best < n
    && (forall i :: 0 <= i < n ==> values[i] <= values[best])
    && (forall i :: 0 <= i < best ==> values[i] < values[best])
  }

  lemma FirstMaxNext(values: seq<int>, n: nat, best: nat)
    requires n < |values| && (n > 0 ==> FirstMax(values, n, best))
    ensures FirstMax(values, n + 1, if n == 0 || values[best] < values[n] then n else best)
  {
  }

  /** With the widest window the pruned value is the plain one. */
  method TryExactly(mode: Mode, w: Weights, board: Board, moves: seq<Move>, i: nat, depth: nat) returns (value: int)
    requires AllOnBoard(moves) && i < |moves|
    ensures value == Values(mode, w, board.cells, White, moves, depth)[i]
  {
    var v := Try(mode, w, board, moves, i, White, depth, NegInf, PosInf);
    return v.value;
  }

  /** The first move of largest plain value; the source searches three replies deep. */
  method BestMove(mode: Mode, w: Weights, board: Board, moves: seq<Move>, depth: nat) returns (best: nat)
    requires moves != [] && AllOnBoard(moves)
    ensures FirstMax(Values(mode, w, board.cells, White, moves, depth), |moves|, best)
  {
    ghost var values := Values(mode, w, board.cells, White, moves, depth);
    best := 0;
    var bestValue := NegInf;
    var i := 0;
    while i < |moves|
      invariant 0 <= i <= |moves|
      invariant i == 0 ==> bestValue == NegInf
      invariant i > 0 ==> FirstMax(values, i, best) && bestValue == Fin(values[best])
    {
      var value := TryExactly(mode, w, board, moves, i, depth);
      FirstMaxNext(values, i, best);
      if Lt(bestValue, Fin(value)) {
        bestValue := Fin(value);
        best := i;
      }
      i := i + 1;
    }
  }
}
