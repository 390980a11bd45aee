/**
  The rules in the words of the game: a move takes every straight line of the other
  side's discs that ends at one of the mover's own. Nothing here refers to runs, rays or
  the order of directions.
 */
module OthelloLaw {
  import opened OthelloBoard
  import opened OthelloRules

  /** A disc of the side that is not `p`. */
  predicate Hostile(g: Grid, r: int, c: int, p: Player) {
    On(r, c) && At(g, r, c) != Empty && At(g, r, c) != p
  }

  predicate Own(g: Grid, r: int, c: int, p: Player) {
    On(r, c) && At(g, r, c) == p
  }

  /** From (r, c) by (dr, dc): exactly `n` hostile discs, and then an own one. */
  predicate Captures(g: Grid, r: int, c: int, p: Player, dr: int, dc: int, n: int) {
    && -1 <= dr <= 1 && -1 <= dc <= 1 && (dr != 0 || dc != 0) && 1 <= n
    && (forall k :: 1 <= k <= n ==> Hostile(g, Along(r, dr, k), Along(c, dc, k), p))
    && Own(g, Along(r, dr, n + 1), Along(c, dc, n + 1), p)
  }

  /** A coordinate, `k` times `d` further on. */
  function Along(x: int, d: int, k: int): int {
    x + k * d
  }

  ghost predicate Taken(g: Grid, r: int, c: int, p: Player, i: int, j: int) {
    exists dr, dc, n, k ::
      Captures(g, r, c, p, dr, dc, n) && 1 <= k <= n && i == Along(r, dr, k) && j == Along(c, dc, k)
  }

  lemma AlongIsGo(x: int, d: int, k: int)
    requires -1 <= d <= 1
    ensures Along(x, d, k) == Go(x, d, k)
  {
  }

  lemma AnyDirection(dr: int, dc: int) returns (m: nat)
    requires -1 <= dr <= 1 && -1 <= dc <= 1 && (dr != 0 || dc != 0)
    ensures m < 8 && Dir(m) == Direction(dr, dc)
  {
    m := if dr == -1 then dc + 1 else if dr == 0 then (if dc == -1 then 3 else 4) else dc + 6;
  }

  /** A run is as long as its discs go on and the next cell does not. */
  lemma {:induction false} RunIs(g: Grid, r: int, c: int, d: Direction, v: Cell, a: nat, n: nat)
    requires On(r, c) && IsDirection(d)
    requires forall k :: a <= k < a + n ==> Reaches(r, c, d, k) && Ray(g, r, c, d, k) == v
    requires !(Reaches(r, c, d, a + n) && Ray(g, r, c, d, a + n) == v)
    ensures RunFrom(g, r, c, d, v, a) == n
    decreases n
  {
    if n > 0 {
      RunNext(g, r, c, d, v, a);
      RunIs(g, r, c, d, v, a + 1, n - 1);
    }
  }

  lemma CapturesFlips(g: Grid, r: int, c: int, p: Player, d: Direction, n: nat)
    requires On(r, c) && IsDirection(d) && Captures(g, r, c, p, d.dr, d.dc, n)
    ensures FlipLength(g, r, c, d, p) == n
  {
    forall k | 1 <= k < 1 + n
      ensures Reaches(r, c, d, k) && Ray(g, r, c, d, k) == Opponent(p)
    {
      assert Hostile(g, Along(r, d.dr, k), Along(c, d.dc, k), p);
      AlongIsGo(r, d.dr, k);
      AlongIsGo(c, d.dc, k);
    }
    AlongIsGo(r, d.dr, n + 1);
    AlongIsGo(c, d.dc, n + 1);
    RunIs(g, r, c, d, Opponent(p), 1, n);
  }

  lemma FlipsCapture(g: Grid, r: int, c: int, p: Player, d: Direction)
    requires On(r, c) && IsDirection(d) && FlipLength(g, r, c, d, p) > 0
    ensures Captures(g, r, c, p, d.dr, d.dc, FlipLength(g, r, c, d, p))
  {
    var n := FlipLength(g, r, c, d, p);
    forall k | 1 <= k <= n
      ensures Hostile(g, Along(r, d.dr, k), Along(c, d.dc, k), p)
    {
      RunIsOpponent(g, r, c, d, Opponent(p), 1, k);
      AlongIsGo(r, d.dr, k);
      AlongIsGo(c, d.dc, k);
    }
    AlongIsGo(r, d.dr, n + 1);
    AlongIsGo(c, d.dc, n + 1);
  }

  /** What is flipped in one direction is what the law captures there. */
  lemma FlipLengthIff(g: Grid, r: int, c: int, p: Player, d: Direction, n: nat)
    requires On(r, c) && IsDirection(d) && n > 0
    ensures FlipLength(g, r, c, d, p) == n <==> Captures(g, r, c, p, d.dr, d.dc, n)
  {
    if FlipLength(g, r, c, d, p) == n { FlipsCapture(g, r, c, p, d); }
    if Captures(g, r, c, p, d.dr, d.dc, n) { CapturesFlips(g, r, c, p, d, n); }
  }

  lemma {:induction false} TurnedBy(g: Grid, r: int, c: int, p: Player, i: int, j: int, m: nat, n: nat)
    requires On(r, c) && m < n <= 8 && OnRay(r, c, Dir(m), i, j, FlipLength(g, r, c, Dir(m), p))
    ensures Turned(g, r, c, p, i, j, n)
    decreases n
  {
    if m < n - 1 { TurnedBy(g, r, c, p, i, j, m, n - 1); }
  }

  lemma {:induction false} TurnedIn(g: Grid, r: int, c: int, p: Player, i: int, j: int, n: nat) returns (m: nat)
    requires On(r, c) && n <= 8 && Turned(g, r, c, p, i, j, n)
    ensures m < n && OnRay(r, c, Dir(m), i, j, FlipLength(g, r, c, Dir(m), p))
    decreases n
  {
    if OnRay(r, c, Dir(n - 1), i, j, FlipLength(g, r, c, Dir(n - 1), p)) {
      m := n - 1;
    } else {
      m := TurnedIn(g, r, c, p, i, j, n - 1);
    }
  }

  lemma TakenIsTurned(g: Grid, r: int, c: int, p: Player, dr: int, dc: int, n: int, k: int)
    requires On(r, c) && Captures(g, r, c, p, dr, dc, n) && 1 <= k <= n
    ensures Turned(g, r, c, p, Along(r, dr, k), Along(c, dc, k), 8)
  {
    var m := AnyDirection(dr, dc);
    CapturesFlips(g, r, c, p, Dir(m), n);
    AlongIsGo(r, dr, k);
    AlongIsGo(c, dc, k);
    TurnedBy(g, r, c, p, Along(r, dr, k), Along(c, dc, k), m, 8);
  }

  lemma TurnedIsTaken(g: Grid, r: int, c: int, p: Player, i: int, j: int)
    requires On(r, c) && Turned(g, r, c, p, i, j, 8)
    ensures Taken(g, r, c, p, i, j)
  {
    var m := TurnedIn(g, r, c, p, i, j, 8);
    var d := Dir(m);
    var n, k := FlipLength(g, r, c, d, p), Steps(r, c, d, i, j);
    FlipsCapture(g, r, c, p, d);
    AlongIsGo(r, d.dr, k);
    AlongIsGo(c, d.dc, k);
    assert Captures(g, r, c, p, d.dr, d.dc, n) && 1 <= k <= n && i == Along(r, d.dr, k) && j == Along(c, d.dc, k);
  }

  lemma TurnedIff(g: Grid, r: int, c: int, p: Player, i: int, j: int)
    requires On(r, c)
    ensures Turned(g, r, c, p, i, j, 8) <==> Taken(g, r, c, p, i, j)
  {
    if Turned(g, r, c, p, i, j, 8) { TurnedIsTaken(g, r, c, p, i, j); }
    if Taken(g, r, c, p, i, j) {
      var dr, dc, n, k :|
        Captures(g, r, c, p, dr, dc, n) && 1 <= k <= n && i == Along(r, dr, k) && j == Along(c, dc, k);
      TakenIsTurned(g, r, c, p, dr, dc, n, k);
    }
  }

  /** Outside the opening, a move takes its cell and every disc the law gives it, and no other cell changes. */
  lemma MoveIsLaw(mode: Mode, g: Grid, r: int, c: int, p: Player, i: int, j: int)
    requires On(r, c) && At(g, r, c) == Empty && !(mode == Reversi && Pieces(g) < 4) && On(i, j)
    ensures At(Applied(mode, g, r, c, p), i, j) ==
              if (i == r && j == c) || Taken(g, r, c, p, i, j) then p else At(g, i, j)
  {
    MoveFlipsAtOnce(mode, g, r, c, p);
    TurnedIff(g, r, c, p, i, j);
  }

  /** In the opening of Reversi, a move takes its cell and changes no other. */
  lemma OpeningMoveIsLaw(g: Grid, r: int, c: int, p: Player, i: int, j: int)
    requires On(r, c) && At(g, r, c) == Empty && Pieces(g) < 4 && On(i, j)
    ensures At(Applied(Reversi, g, r, c, p), i, j) == if i == r && j == c then p else At(g, i, j)
  {
    PiecesPut(g, r, c, p);
  }

  lemma {:induction false} BracketIn(g: Grid, r: int, c: int, p: Player, n: nat) returns (m: nat)
    requires On(r, c) && n <= 8 && AnyBracket(g, r, c, p, n)
    ensures m < n && FlipLength(g, r, c, Dir(m), p) > 0
    decreases n
  {
    if Brackets(g, r, c, Dir(n - 1), p) { m := n - 1; } else { m := BracketIn(g, r, c, p, n - 1); }
  }

  lemma {:induction false} BracketBy(g: Grid, r: int, c: int, p: Player, m: nat, n: nat)
    requires On(r, c) && m < n <= 8 && FlipLength(g, r, c, Dir(m), p) > 0
    ensures AnyBracket(g, r, c, p, n)
    decreases n
  {
    if m < n - 1 { BracketBy(g, r, c, p, m, n - 1); }
  }

  ghost predicate CapturesAny(g: Grid, r: int, c: int, p: Player) {
    exists dr, dc, n :: Captures(g, r, c, p, dr, dc, n)
  }

  /** A cell may be played if it is empty and, in the opening, in the centre, or else captures a line. */
  lemma ValidIsLaw(mode: Mode, g: Grid, r: int, c: int, p: Player)
    requires On(r, c)
    ensures Valid(mode, g, r, c, p) <==>
              && At(g, r, c) == Empty
              && if mode == Reversi && Pieces(g) < 4 then (r == 3 || r == 4) && (c == 3 || c == 4)
                 else CapturesAny(g, r, c, p)
  {
    if AnyBracket(g, r, c, p, 8) {
      var m := BracketIn(g, r, c, p, 8);
      FlipsCapture(g, r, c, p, Dir(m));
    }
    if CapturesAny(g, r, c, p) {
      var dr, dc, n :| Captures(g, r, c, p, dr, dc, n);
      var m := AnyDirection(dr, dc);
      CapturesFlips(g, r, c, p, Dir(m), n);
      BracketBy(g, r, c, p, m, 8);
    }
  }

  /** The moves come row by row, and from left to right in a row. */
  lemma {:induction false} MovesInOrder(mode: Mode, g: Grid, p: Player, n: nat, a: nat, b: nat)
    requires n <= SIZE * SIZE && b < |MovesUpTo(mode, g, p, n)|
    ensures var ms := MovesUpTo(mode, g, p, n);
            OnBoard(ms[b]) && SIZE * ms[b].r + ms[b].c < n
            && (a < b ==> SIZE * ms[a].r + ms[a].c < SIZE * ms[b].r + ms[b].c)
    decreases n
  {
    var before, ms := MovesUpTo(mode, g, p, n - 1), MovesUpTo(mode, g, p, n);
    if b < |before| {
      MovesInOrder(mode, g, p, n - 1, a, b);
      assert ms[b] == before[b] && (a < b ==> ms[a] == before[a]);
    } else {
      assert ms[b] == CellAt(n - 1);
      if a < b {
        MovesInOrder(mode, g, p, n - 1, a, a);
        assert ms[a] == before[a];
      }
    }
  }
}
