/** The chess library as the game service sees it. The rules of chess are a parameter: a record of
    functions on positions, of which only the laws in `Lawful` are used. */
module Chess {
  import opened Common

  type Uci = string

  const DEFAULT_GAME_START_FEN: string := "rnbqkbnr/pppppppp/8/8/8/8/PPPPPPPP/RNBQKBNR w KQkq - 0 1"

  /** Positions carry the side to move and the clocks. `potential` never grows and bounds the pawn
      moves and captures still possible. */
  datatype Rules<!P> = Rules(
    start: P,
    fen: P -> string,
    parse: string -> P,
    whiteToMove: P -> bool,
    legal: (P, Uci) -> bool,
    push: (P, Uci) -> P,
    key: P -> int,
    halfmove: P -> nat,
    potential: P -> nat,
    inCheck: P -> bool,
    deadMaterial: P -> bool,
    hasMove: P -> bool)

  /** A move passes the turn; it is quiet, or it resets the half-move clock and uses up potential. */
  ghost predicate LawfulMove<P>(c: Rules<P>, p: P, q: P)
  {
    && c.hasMove(p)
    && c.whiteToMove(q) != c.whiteToMove(p)
    && if c.halfmove(q) == 0 then c.potential(q) < c.potential(p)
       else c.halfmove(q) == c.halfmove(p) + 1 && c.potential(q) <= c.potential(p)
  }

  ghost predicate Lawful<P(!new)>(c: Rules<P>)
  {
    && c.fen(c.start) == DEFAULT_GAME_START_FEN && c.parse(DEFAULT_GAME_START_FEN) == c.start
    && c.whiteToMove(c.start) && c.halfmove(c.start) == 0 && c.hasMove(c.start) && !c.deadMaterial(c.start)
    && (forall p :: c.whiteToMove(c.parse(c.fen(p))) == c.whiteToMove(p))
    && (forall p, m :: c.legal(p, m) ==> LawfulMove(c, p, c.push(p, m)))
  }

  function ShuffleFen(n: int): string { if n == 0 then DEFAULT_GAME_START_FEN else if n % 2 == 0 then "w" else "b" }

  function ShuffleParse(s: string): int { if s == DEFAULT_GAME_START_FEN then 0 else if s == "w" then 2 else 1 }

  /** A game in which both sides may shuffle for ever; positions count the moves. */
  function Shuffling(): Rules<int>
  {
    Rules(0, ShuffleFen, ShuffleParse, n => n % 2 == 0, (n, m) => n >= 0, (n, m) => n + 1,
          n => n, n => if n >= 0 then n else 0, n => 0, n => false, n => false, n => n >= 0)
  }

  /** The laws can be met, and by a game that never runs out of legal moves. */
  lemma LawsAreConsistent()
    ensures Lawful(Shuffling()) && forall n :: n >= 0 ==> Shuffling().legal(n, "a1a2")
  {
    hide Sum;
    assert |DEFAULT_GAME_START_FEN| > 1;
    assert forall n :: ShuffleParse(ShuffleFen(n)) % 2 == n % 2;
  }

  // ---------------------------------------------------------------- boards

  /** A board is its stack: every position so far, the current one last. */
  function Now<P>(b: seq<P>): P
    requires b != []
  {
    b[|b| - 1]
  }

  function HasKey<P>(c: Rules<P>, k: int): P -> int { (p: P) => if c.key(p) == k then 1 else 0 }

  predicate IsCheckmate<P>(c: Rules<P>, b: seq<P>)
    requires b != []
  {
    c.inCheck(Now(b)) && !c.hasMove(Now(b))
  }

  predicate IsStalemate<P>(c: Rules<P>, b: seq<P>)
    requires b != []
  {
    !c.inCheck(Now(b)) && !c.hasMove(Now(b))
  }

  predicate IsFiftyMoves<P>(c: Rules<P>, b: seq<P>)
    requires b != []
  {
    c.halfmove(Now(b)) >= 100 && c.hasMove(Now(b))
  }

  /** The current position has stood on the board three times. */
  predicate IsRepetition<P>(c: Rules<P>, b: seq<P>)
    requires b != []
  {
    Sum(HasKey(c, c.key(Now(b))), b) >= 3
  }

  /** The board after pushing `moves` from the start, unless one of them is illegal. */
  function Replay<P>(c: Rules<P>, moves: seq<Uci>): (b: Option<seq<P>>)
    ensures b.Some? ==> |b.value| == |moves| + 1
  {
    if moves == [] then Some([c.start])
    else
      match Replay(c, moves[..|moves| - 1])
      case None => None
      case Some(b) =>
        if c.legal(Now(b), moves[|moves| - 1]) then Some(b + [c.push(Now(b), moves[|moves| - 1])]) else None
  }

  /** A board of the moves: it starts at the start, and each move was legal where it was made and led to the next one.
      */
  ghost predicate Follows<P>(c: Rules<P>, moves: seq<Uci>, b: seq<P>)
  {
    && |b| == |moves| + 1 && b[0] == c.start
    && forall i | 0 <= i < |moves| :: c.legal(b[i], moves[i]) && b[i + 1] == c.push(b[i], moves[i])
  }

  lemma {:induction false} ReplayIff<P>(c: Rules<P>, moves: seq<Uci>, b: seq<P>)
    ensures Replay(c, moves) == Some(b) <==> Follows(c, moves, b)
  {
    if moves == [] {
      assert Follows(c, moves, b) ==> b == [c.start];
    } else {
      var n := |moves| - 1;
      if Follows(c, moves, b) {
        var front := b[..|b| - 1];
        assert Follows(c, moves[..n], front);
        assert b == front + [c.push(Now(front), moves[n])];
        ReplayIff(c, moves[..n], front);
      }
      if Replay(c, moves) == Some(b) {
        var front := Replay(c, moves[..n]).value;
        assert b == front + [c.push(Now(front), moves[n])];
        ReplayIff(c, moves[..n], front);
        assert forall i | 0 <= i < |front| :: front[i] == b[i];
      }
    }
  }
}
