/** The game's enumerations and its direction table (src/constants.js, and the
    copies of `CELL_STATES` / `CELL_DISPLAY` in src/BoardCell.js).
 */
module Constants {

  /** The two marks; also the type of `nextPlayer` and of a non-null `winner`. */
  datatype Player = X | O

  /** `CELL_STATES`: a cell is EMPTY or holds one player's mark. */
  datatype Cell = Empty | Mark(player: Player)

  /** The player who moves after `p`. */
  function Other(p: Player): (q: Player)
    ensures q != p
  {
    if p == X then O else X
  }

  /** Swapping twice gives back the same player. */
  lemma OtherTwice(p: Player)
    ensures Other(Other(p)) == p
  {
  }

  /** `CELL_DISPLAY`: the text shown in a cell. */
  function Display(c: Cell): (s: string)
    ensures s == "" <==> c == Empty
    ensures c.Mark? ==> |s| == 1
  {
    match c
    case Empty => ""
    case Mark(X) => "X"
    case Mark(O) => "O"
  }

  /** Distinct cell states are displayed differently. */
  lemma DisplayInjective(a: Cell, b: Cell)
    requires a != b
    ensures Display(a) != Display(b)
  {
  }

  /** `GAME_PHASES`. */
  datatype GamePhase = Active | Over | Draw

  /** `STATUS_MESSAGES`: defined (and non-empty) for every phase. */
  function StatusMessage(phase: GamePhase): (s: string)
    ensures |s| > 0
  {
    match phase
    case Active => "Next player: "
    case Over => "Winner: "
    case Draw => "Draw"
  }

  /** No two phases share a status message. */
  lemma StatusMessagesDistinct(a: GamePhase, b: GamePhase)
    requires a != b
    ensures StatusMessage(a) != StatusMessage(b)
  {
  }

  /** A (row, column) offset from a centre cell. */
  datatype Delta = Delta(dr: int, dc: int)

  /** One entry of `WINNING_LINES_DELTAS`: the offsets of the two opposite
      neighbours that, with the centre, make a line. */
  datatype Axis = Axis(first: Delta, second: Delta)

  /** `WINNING_LINES_DELTAS`, in the order the win search tries them:
      horizontal, vertical, diagonal, anti-diagonal. */
  const WinningLinesDeltas: seq<Axis> := [
    Axis(Delta(0, -1), Delta(0, 1)),    // left, right
    Axis(Delta(-1, 0), Delta(1, 0)),    // above, below
    Axis(Delta(-1, -1), Delta(1, 1)),   // up-left, down-right
    Axis(Delta(1, -1), Delta(-1, 1))    // down-left, up-right
  ]

  predicate UnitStep(d: Delta)
  {
    -1 <= d.dr <= 1 && -1 <= d.dc <= 1 && d != Delta(0, 0)
  }

  /** Four axes, in the documented order; in each, the two neighbours are
      opposite unit steps, and no two axes describe the same line. */
  lemma WinningLinesDeltasShape()
    ensures |WinningLinesDeltas| == 4
    ensures WinningLinesDeltas[0].second == Delta(0, 1)
    ensures WinningLinesDeltas[1].second == Delta(1, 0)
    ensures WinningLinesDeltas[2].second == Delta(1, 1)
    ensures WinningLinesDeltas[3].second == Delta(-1, 1)
    ensures forall k :: 0 <= k < 4 ==>
              var a := WinningLinesDeltas[k];
              UnitStep(a.first) && a.first == Delta(-a.second.dr, -a.second.dc)
    ensures forall k, j :: 0 <= k < j < 4 ==>
              WinningLinesDeltas[k].second != WinningLinesDeltas[j].second
              && WinningLinesDeltas[k].second != WinningLinesDeltas[j].first
  {
  }
}
