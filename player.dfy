/** Player: a marker, a name and a score that the game updates in place. */
module Players {
  import opened Options
  import opened Markers
  import opened Lines
  import opened Boards

  class Player {
    var marker: Marker
    var score: nat
    /** Set by TTTGame#play; nil (here the empty string) until then. */
    var name: string

    /** Player.new(marker): the score starts at 0. */
    constructor (marker: Marker)
      ensures this.marker == marker && score == 0 && name == ""
    {
      this.marker := marker;
      score := 0;
      name := "";
    }

    /** Player#update_score: one more point exactly when the board's winning
        marker is this player's marker. */
    method UpdateScore(board: Board)
      requires board.Valid()
      modifies this`score
      ensures score == old(score) + (if Winner(board.squares) == Some(marker) then 1 else 0)
    {
      var winner := board.WinningMarker();
      if winner == Some(marker) {
        score := score + 1;
      }
    }
  }
}
