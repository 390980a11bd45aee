/**
  What a depth-limited value means: the score a side can force against every reply. Lines
  of play and strategies are told by the rules alone, without any value.
 */
module OthelloStrategy {
  import opened OthelloBoard
  import opened OthelloRules
  import opened OthelloSearch

  datatype Ply = Places(m: Move) | Passes

  ghost predicate CanMove(mode: Mode, g: Grid, p: Player) {
    exists m: Move :: CanPlay(mode, g, p, m)
  }

  ghost predicate IsOver(mode: Mode, g: Grid) {
    !CanMove(mode, g, Black) && !CanMove(mode, g, White)
  }

  /** A valid placement; or a pass, by a side that has none while the other has one. */
  ghost predicate MayPlay(mode: Mode, g: Grid, p: Player, ply: Ply) {
    match ply
    case Places(m) => CanPlay(mode, g, p, m)
    case Passes => !CanMove(mode, g, p) && CanMove(mode, g, Opponent(p))
  }

  function Next(mode: Mode, g: Grid, p: Player, ply: Ply): Grid
    requires ply.Places? ==> OnBoard(ply.m)
  {
    match ply
    case Places(m) => Applied(mode, g, m.r, m.c, p)
    case Passes => g
  }

  /** Play from `g` with `p` to move, the sides taking turns, until `depth` plies are made or the game is over. */
  ghost predicate IsLine(mode: Mode, g: Grid, p: Player, line: seq<Ply>, depth: nat)
    decreases |line|
  {
    if line == [] then depth == 0 || IsOver(mode, g)
    else
      && depth > 0 && MayPlay(mode, g, p, line[0])
      && IsLine(mode, Next(mode, g, p, line[0]), Opponent(p), line[1..], depth - 1)
  }

  ghost function Final(mode: Mode, g: Grid, p: Player, line: seq<Ply>, depth: nat): Grid
    requires IsLine(mode, g, p, line, depth)
    decreases |line|
  {
    if line == [] then g else Final(mode, Next(mode, g, p, line[0]), Opponent(p), line[1..], depth - 1)
  }

  /** A placement for every board and number of plies to come. */
  type Strategy = imap<(Grid, nat), Move>

  /** The strategy has a valid placement whenever there is one. */
  ghost predicate Answers(mode: Mode, q: Player, sigma: Strategy) {
    forall g: Grid, n: nat :: CanMove(mode, g, q) ==> (g, n) in sigma && CanPlay(mode, g, q, sigma[(g, n)])
  }

  /** In this line `q` plays by `sigma`. */
  ghost predicate Keeps(mode: Mode, g: Grid, p: Player, line: seq<Ply>, depth: nat, q: Player, sigma: Strategy)
    requires IsLine(mode, g, p, line, depth)
    decreases |line|
  {
    line == [] ||
    (&& (p == q && line[0].Places? ==> (g, depth) in sigma && line[0].m == sigma[(g, depth)])
     && Keeps(mode, Next(mode, g, p, line[0]), Opponent(p), line[1..], depth - 1, q, sigma))
  }

  /** White wants a high score, Black a low one. */
  predicate Suits(q: Player, a: int, b: int) {
    if q == White then a >= b else a <= b
  }

  /** Playing by `sigma`, `q` ends at `v` or better whatever the other side does. */
  ghost predicate Forces(mode: Mode, w: Weights, g: Grid, p: Player, depth: nat, q: Player, sigma: Strategy, v: int) {
    && Answers(mode, q, sigma)
    && forall line: seq<Ply> :: IsLine(mode, g, p, line, depth) && Keeps(mode, g, p, line, depth, q, sigma) ==>
         Suits(q, Score(w, Final(mode, g, p, line, depth)), v)
  }

  lemma CanMoveIff(mode: Mode, g: Grid, p: Player)
    ensures CanMove(mode, g, p) <==> Moves(mode, g, p) != []
  {
    NoMovesIff(mode, g, p);
    if Moves(mode, g, p) != [] { assert CanPlay(mode, g, p, Moves(mode, g, p)[0]); }
  }

  // ---------------------------------------------------------------- one ply

  /** The value with `p` to move. */
  function ValueOf(mode: Mode, w: Weights, g: Grid, p: Player, depth: nat): int {
    Plain(mode, w, g, depth, p == White)
  }

  lemma ValueAtEnd(mode: Mode, w: Weights, g: Grid, p: Player, depth: nat)
    requires depth == 0 || IsOver(mode, g)
    ensures ValueOf(mode, w, g, p, depth) == Score(w, g)
  {
    CanMoveIff(mode, g, p);
    CanMoveIff(mode, g, Opponent(p));
  }

  lemma ValueAfterPass(mode: Mode, w: Weights, g: Grid, p: Player, depth: nat)
    requires depth > 0 && MayPlay(mode, g, p, Passes)
    ensures ValueOf(mode, w, g, p, depth) == ValueOf(mode, w, g, Opponent(p), depth - 1)
  {
    CanMoveIff(mode, g, p);
    CanMoveIff(mode, g, Opponent(p));
  }

  /** The values of the moves, one by one: each the value with the other side to move. */
  lemma ValuesAt(mode: Mode, w: Weights, g: Grid, p: Player, depth: nat, i: nat)
    requires depth > 0 && i < |Moves(mode, g, p)|
    ensures AllOnBoard(Moves(mode, g, p))
    ensures var m := Moves(mode, g, p)[i];
            Values(mode, w, g, p, Moves(mode, g, p), depth - 1)[i] ==
              ValueOf(mode, w, Applied(mode, g, m.r, m.c, p), Opponent(p), depth - 1)
  {
    PlayableIsOnBoard(mode, g, p, Moves(mode, g, p));
  }

  lemma ValueIsExtreme(mode: Mode, w: Weights, g: Grid, p: Player, depth: nat)
    requires depth > 0 && Moves(mode, g, p) != []
    ensures AllOnBoard(Moves(mode, g, p))
    ensures var vs := Values(mode, w, g, p, Moves(mode, g, p), depth - 1);
            ValueOf(mode, w, g, p, depth) in vs && forall x :: x in vs ==> Suits(p, ValueOf(mode, w, g, p, depth), x)
  {
    PlayableIsOnBoard(mode, g, p, Moves(mode, g, p));
    Extremes(Values(mode, w, g, p, Moves(mode, g, p), depth - 1));
  }

  /** No placement is better for the mover than the value. */
  lemma ValueBounds(mode: Mode, w: Weights, g: Grid, p: Player, depth: nat, m: Move)
    requires depth > 0 && CanPlay(mode, g, p, m)
    ensures Suits(p, ValueOf(mode, w, g, p, depth),
                  ValueOf(mode, w, Applied(mode, g, m.r, m.c, p), Opponent(p), depth - 1))
  {
    MovesAreAll(mode, g, p, SIZE * SIZE, m);
    var i :| 0 <= i < |Moves(mode, g, p)| && Moves(mode, g, p)[i] == m;
    ValueIsExtreme(mode, w, g, p, depth);
    ValuesAt(mode, w, g, p, depth, i);
  }

  /** Some placement has the value. */
  lemma ValueReached(mode: Mode, w: Weights, g: Grid, p: Player, depth: nat) returns (m: Move)
    requires depth > 0 && CanMove(mode, g, p)
    ensures CanPlay(mode, g, p, m)
    ensures ValueOf(mode, w, g, p, depth) == ValueOf(mode, w, Applied(mode, g, m.r, m.c, p), Opponent(p), depth - 1)
  {
    CanMoveIff(mode, g, p);
    ValueIsExtreme(mode, w, g, p, depth);
    var vs := Values(mode, w, g, p, Moves(mode, g, p), depth - 1);
    var i :| 0 <= i < |vs| && vs[i] == ValueOf(mode, w, g, p, depth);
    ValuesAt(mode, w, g, p, depth, i);
    m := Moves(mode, g, p)[i];
    assert CanPlay(mode, g, p, m);
  }

  // ---------------------------------------------------------------- the best strategy

  ghost predicate IsBest(mode: Mode, w: Weights, g: Grid, q: Player, n: nat, m: Move) {
    && CanPlay(mode, g, q, m)
    && (n > 0 ==> ValueOf(mode, w, g, q, n) == ValueOf(mode, w, Applied(mode, g, m.r, m.c, q), Opponent(q), n - 1))
  }

  lemma SomeBest(mode: Mode, w: Weights, g: Grid, q: Player, n: nat)
    requires CanMove(mode, g, q)
    ensures exists m: Move :: IsBest(mode, w, g, q, n, m)
  {
    if n > 0 {
      var m := ValueReached(mode, w, g, q, n);
      assert IsBest(mode, w, g, q, n, m);
    } else {
      var m: Move :| CanPlay(mode, g, q, m);
      assert IsBest(mode, w, g, q, n, m);
    }
  }

  ghost function BestOf(mode: Mode, w: Weights, g: Grid, q: Player, n: nat): (m: Move)
    requires CanMove(mode, g, q)
    ensures IsBest(mode, w, g, q, n, m)
  {
    SomeBest(mode, w, g, q, n);
    var m: Move :| IsBest(mode, w, g, q, n, m);
    m
  }

  ghost function Best(mode: Mode, w: Weights, q: Player): Strategy {
    imap k: (Grid, nat) | CanMove(mode, k.0, q) :: BestOf(mode, w, k.0, q, k.1)
  }

  /** A strategy whose every placement has the value of its board. */
  ghost predicate AllBest(mode: Mode, w: Weights, q: Player, sigma: Strategy) {
    forall g: Grid, n: nat :: CanMove(mode, g, q) ==> (g, n) in sigma && IsBest(mode, w, g, q, n, sigma[(g, n)])
  }

  lemma BestIsAllBest(mode: Mode, w: Weights, q: Player)
    ensures AllBest(mode, w, q, Best(mode, w, q)) && Answers(mode, q, Best(mode, w, q))
  {
    var sigma := Best(mode, w, q);
    forall g: Grid, n: nat | CanMove(mode, g, q)
      ensures (g, n) in sigma && IsBest(mode, w, g, q, n, sigma[(g, n)])
    {
      assert (g, n).0 == g;
    }
  }

  /** One ply of such a strategy, or of any reply to it, keeps the value or improves it. */
  lemma BestPly(mode: Mode, w: Weights, g: Grid, p: Player, ply: Ply, depth: nat, q: Player)
    requires depth > 0 && MayPlay(mode, g, p, ply)
    requires p == q && ply.Places? ==> IsBest(mode, w, g, q, depth, ply.m)
    ensures Suits(q, ValueOf(mode, w, Next(mode, g, p, ply), Opponent(p), depth - 1), ValueOf(mode, w, g, p, depth))
  {
    if ply.Passes? {
      ValueAfterPass(mode, w, g, p, depth);
    } else if p != q {
      ValueBounds(mode, w, g, p, depth, ply.m);
    }
  }

  /** The first ply of a line that keeps to the strategy, and the rest of it, which is a line of its own. */
  lemma FirstAndRest(mode: Mode, w: Weights, g: Grid, p: Player, line: seq<Ply>, depth: nat, q: Player, sigma: Strategy)
    requires line != [] && IsLine(mode, g, p, line, depth)
    requires AllBest(mode, w, q, sigma) && Keeps(mode, g, p, line, depth, q, sigma)
    ensures depth > 0 && MayPlay(mode, g, p, line[0])
    ensures p == q && line[0].Places? ==> IsBest(mode, w, g, q, depth, line[0].m)
    ensures var h := Next(mode, g, p, line[0]);
            && IsLine(mode, h, Opponent(p), line[1..], depth - 1)
            && Keeps(mode, h, Opponent(p), line[1..], depth - 1, q, sigma)
            && Final(mode, g, p, line, depth) == Final(mode, h, Opponent(p), line[1..], depth - 1)
  {
    if p == q && line[0].Places? { assert CanMove(mode, g, q); }
  }

  /** What a line that keeps to the strategy ends at, against a given value of its first board. */
  lemma {:induction false} BestForces(mode: Mode, w: Weights, g: Grid, p: Player, line: seq<Ply>, depth: nat,
                                      q: Player, sigma: Strategy, value: int)
    requires IsLine(mode, g, p, line, depth)
    requires AllBest(mode, w, q, sigma) && Keeps(mode, g, p, line, depth, q, sigma)
    requires Suits(q, ValueOf(mode, w, g, p, depth), value)
    ensures Suits(q, Score(w, Final(mode, g, p, line, depth)), value)
    decreases |line|
  {
    if line == [] {
      ValueAtEnd(mode, w, g, p, depth);
    } else {
      FirstAndRest(mode, w, g, p, line, depth, q, sigma);
      var h := Next(mode, g, p, line[0]);
      SuitsAfter(mode, w, g, p, line[0], depth, q, value);
      BestForces(mode, w, h, Opponent(p), line[1..], depth - 1, q, sigma, value);
    }
  }

  lemma SuitsAfter(mode: Mode, w: Weights, g: Grid, p: Player, ply: Ply, depth: nat, q: Player, value: int)
    requires depth > 0 && MayPlay(mode, g, p, ply) && Suits(q, ValueOf(mode, w, g, p, depth), value)
    requires p == q && ply.Places? ==> IsBest(mode, w, g, q, depth, ply.m)
    ensures Suits(q, ValueOf(mode, w, Next(mode, g, p, ply), Opponent(p), depth - 1), value)
  {
    BestPly(mode, w, g, p, ply, depth, q);
  }

  /** Two strategies meet in a line. */
  lemma {:induction false} Meet(mode: Mode, g: Grid, p: Player, depth: nat, q: Player, sigma: Strategy, tau: Strategy)
    returns (line: seq<Ply>)
    requires Answers(mode, q, sigma) && Answers(mode, Opponent(q), tau)
    ensures IsLine(mode, g, p, line, depth)
    ensures Keeps(mode, g, p, line, depth, q, sigma) && Keeps(mode, g, p, line, depth, Opponent(q), tau)
    decreases depth
  {
    if depth == 0 || IsOver(mode, g) {
      line := [];
    } else {
      var ply := if !CanMove(mode, g, p) then Passes
                 else Places(if p == q then sigma[(g, depth)] else tau[(g, depth)]);
      var rest := Meet(mode, Next(mode, g, p, ply), Opponent(p), depth - 1, q, sigma, tau);
      line := [ply] + rest;
      assert line[1..] == rest;
    }
  }

  /** `q` has a strategy that ends at `v` or better, with `p` to move. */
  ghost predicate CanForce(mode: Mode, w: Weights, g: Grid, p: Player, depth: nat, q: Player, v: int) {
    exists sigma: Strategy :: Forces(mode, w, g, p, depth, q, sigma, v)
  }

  lemma ValueIsForced(mode: Mode, w: Weights, g: Grid, p: Player, depth: nat, q: Player, v: int)
    requires Suits(q, ValueOf(mode, w, g, p, depth), v)
    ensures CanForce(mode, w, g, p, depth, q, v)
  {
    var sigma := Best(mode, w, q);
    BestIsAllBest(mode, w, q);
    forall line: seq<Ply> | IsLine(mode, g, p, line, depth) && Keeps(mode, g, p, line, depth, q, sigma)
      ensures Suits(q, Score(w, Final(mode, g, p, line, depth)), v)
    {
      BestForces(mode, w, g, p, line, depth, q, sigma, v);
    }
    assert Forces(mode, w, g, p, depth, q, sigma, v);
  }

  lemma ForcedIsValue(mode: Mode, w: Weights, g: Grid, p: Player, depth: nat, q: Player, sigma: Strategy, v: int)
    requires Forces(mode, w, g, p, depth, q, sigma, v)
    ensures Suits(q, ValueOf(mode, w, g, p, depth), v)
  {
    var tau := Best(mode, w, Opponent(q));
    BestIsAllBest(mode, w, Opponent(q));
    var line := Meet(mode, g, p, depth, q, sigma, tau);
    BestForces(mode, w, g, p, line, depth, Opponent(q), tau, ValueOf(mode, w, g, p, depth));
  }

  /**
    The plain value suits a side as well as `v` if and only if the side has a strategy under
    which every line of that depth ends at a score that does.
   */
  lemma PlainIff(mode: Mode, w: Weights, g: Grid, depth: nat, maximizing: bool, q: Player, v: int)
    ensures Suits(q, Plain(mode, w, g, depth, maximizing), v) <==>
              CanForce(mode, w, g, if maximizing then White else Black, depth, q, v)
  {
    var p := if maximizing then White else Black;
    if Suits(q, Plain(mode, w, g, depth, maximizing), v) { ValueIsForced(mode, w, g, p, depth, q, v); }
    if CanForce(mode, w, g, p, depth, q, v) {
      var sigma: Strategy :| Forces(mode, w, g, p, depth, q, sigma, v);
      ForcedIsValue(mode, w, g, p, depth, q, sigma, v);
    }
  }

  /** A move is worth what can be forced after it, the other side to move. */
  lemma MoveValueIff(mode: Mode, w: Weights, g: Grid, p: Player, moves: seq<Move>, i: nat, depth: nat,
                     q: Player, v: int)
    requires AllOnBoard(moves) && i < |moves|
    ensures var h := Applied(mode, g, moves[i].r, moves[i].c, p);
            Suits(q, Values(mode, w, g, p, moves, depth)[i], v) <==>
              CanForce(mode, w, h, if p == White then Black else White, depth, q, v)
  {
    PlainIff(mode, w, Applied(mode, g, moves[i].r, moves[i].c, p), depth, p == Black, q, v);
  }

  // ---------------------------------------------------------------- the score

  /** What a cell is worth to White. */
  function Worth(v: Cell, weight: int): int {
    match v
    case White => weight
    case Black => -weight
    case Empty => 0
  }

  lemma {:induction false} ScorePutUpTo(w: Weights, g: Grid, r: int, c: int, v: Cell, n: nat)
    requires On(r, c) && n <= SIZE * SIZE
    ensures ScoreUpTo(w, Put(g, r, c, v), n) ==
              ScoreUpTo(w, g, n)
              + if SIZE * r + c < n then Worth(v, w[r][c]) - Worth(At(g, r, c), w[r][c]) else 0
    decreases n
  {
    if n > 0 {
      ScorePutUpTo(w, g, r, c, v, n - 1);
      var i, j := (n - 1) / SIZE, (n - 1) % SIZE;
      assert On(i, j) && SIZE * i + j == n - 1;
      assert At(Put(g, r, c, v), i, j) == if i == r && j == c then v else At(g, i, j);
    }
  }

  /** Changing one cell changes the score by what the cell is worth; turning a disc over, by twice its weight. */
  lemma ScorePut(w: Weights, g: Grid, r: int, c: int, v: Cell)
    requires On(r, c)
    ensures Score(w, Put(g, r, c, v)) == Score(w, g) + Worth(v, w[r][c]) - Worth(At(g, r, c), w[r][c])
    ensures At(g, r, c) == Black ==> Score(w, Put(g, r, c, White)) == Score(w, g) + 2 * w[r][c]
  {
    ScorePutUpTo(w, g, r, c, v, SIZE * SIZE);
    ScorePutUpTo(w, g, r, c, White, SIZE * SIZE);
  }

  lemma {:induction false} ScoreEmptyUpTo(w: Weights, g: Grid, n: nat)
    requires n <= SIZE * SIZE && forall r, c :: On(r, c) ==> At(g, r, c) == Empty
    ensures ScoreUpTo(w, g, n) == 0
    decreases n
  {
    if n > 0 {
      ScoreEmptyUpTo(w, g, n - 1);
      assert At(g, (n - 1) / SIZE, (n - 1) % SIZE) == Empty;
    }
  }

  /** An empty board scores nothing. */
  lemma ScoreEmpty(w: Weights, g: Grid)
    requires forall r, c :: On(r, c) ==> At(g, r, c) == Empty
    ensures Score(w, g) == 0
  {
    ScoreEmptyUpTo(w, g, SIZE * SIZE);
  }
}
