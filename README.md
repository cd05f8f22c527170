# Tic Tac Toe (object-oriented Ruby version), modelled in Dafny

This project models the game engine of `tictactoe_oop.rb`: the `Board` with
its `@squares` hash and `Square` objects, `Player#update_score`, the
computer's move policy, the `TTTGame` turn/round/set state machine and the
`joinor` list formatter. Console input and output are left out.

Modules, one per part of the program:

- `Options`: `Option`, the model of a `nil` result.
- `Markers`: the blank marker `" "` (`Square::INITIAL_MARKER`), `X` and `O`,
  and `Square#marked?` / `Square#unmarked?`. A `Square` holds nothing but its
  marker and no square is shared between two keys, so a square is modelled by
  its marker.
- `Keys`: the nine square keys `A1` … `C3`, their strings, parsing of a
  string into a key, and the row-major order in which `Board#reset` creates
  them.
- `Lines`: the specification layer over a board value (`map<Key, Marker>`).
  It holds `WINNING_LINES`, `total_identical_makers` and the spec functions
  that the board's loops are proved against (threatened lines, first
  dominated line, first won line, first open square, the selections behind
  `marked_keys` and `unmarked_keys`).
- `Boards`: `class Board`. The hash is kept as its key sequence (insertion
  order) plus a map from key to marker, and the methods update it in place.
  The Ruby loops (`threatened_lines`, which accumulates with `<<`;
  `line_dominated_by`, `available_key_in_line` and `winning_marker`, which
  return early) are read-only methods with loops. Each is proved equal to
  its spec function.
- `Policy`: the computer's choice as a function of the board. It has lemmas
  on what each rule achieves.
- `Players`: `class Player` with `update_score`.
- `Game`: `class TTTGame` with `first_to_move=`, `choose_marker`,
  `choose_who_moves_first`, `human_moves`, `computer_moves`,
  `computer_attack`, `current_player_moves`, `play_game`, `play_set`, `reset`
  and `play`. `play_game` returns, as ghost results, the board before each
  move and after the last one (a round trace), and `play_set` the two scores
  before the set and after each round (a score trace); these show that each
  loop stops at the first state that ends it.
- `Formatting`: `joinor` as a method over an array that it overwrites in
  place, specified with `Array#join`.

Inputs are modelled by what their prompt loops accept:

- `human_moves` takes any string for which `valid_square?` holds (a `:|` choice).
- `choose_marker` and `choose_who_moves_first` take a marker parameter that
  their loops would accept.
- `play_again?` becomes a sequence of yes/no answers whose last one is "n".
- `Array#sample` in `computer_moves` becomes a `:|` choice among the unmarked
  keys.

`total_identical_makers` scores a line with two marks of one player and one
of the other as 0: it returns a count only when the marks agree
(`TotalIdenticalMarkersCount`, `ScoreOfThreeLow`). So a line with score 2
always has exactly one unmarked square, which `ScoreOfThree`,
`ThreatenedMeans` and `ThreatenedOpen` state. `computer_attack` therefore
always finds an open square on the line that `line_dominated_by` returns.

## Model

| member | source | states |
|---|---|---|
| Markers.Unmarked | tictactoe_oop.rb:123-125 | a square is unmarked iff it holds neither X nor O |
| Markers.Marked | tictactoe_oop.rb:127-129 | a square is marked iff it holds X or O, i.e. iff it is not unmarked |
| Markers.Other | tictactoe_oop.rb:204-205 | the computer's marker differs from the human's and is X or O |
| Keys.Parse | tictactoe_oop.rb:17-27 | a string parses to key k exactly when it is k's name (so only "A1".."C3" are keys) |
| Keys.Index | tictactoe_oop.rb:80-86 | every key has a position below 9 in the row-major creation order |
| Keys.IndexOfPosition | tictactoe_oop.rb:80-86 | the key at position n of the creation order has index n |
| Keys.EveryKeyListed | tictactoe_oop.rb:80-86 | the creation order lists every key |
| Keys.SpellOrder | tictactoe_oop.rb:81-84 | the string "#{col}#{row}" built by reset parses to the key at position 3*(row-1)+col of A1,B1,C1,A2,… |
| Lines.MarksOf | tictactoe_oop.rb:102 | `select(&:marked?)` keeps only marks, and keeps every mark of the line |
| Lines.MarksOfCounts | tictactoe_oop.rb:102 | the marks kept are, with their multiplicities, exactly the X's and O's of the line, so `markers.size` is the number of marked squares |
| Lines.TotalIdenticalMarkers | tictactoe_oop.rb:101-107 | the definition of `total_identical_makers` (never more than the line's length); characterised for all inputs by TotalIdenticalMarkersCount, ScoreOfThree and ScoreOfThreeLow |
| Lines.TotalIdenticalMarkersCount | tictactoe_oop.rb:101-107 | the score is 0 when both X and O occur on the line, otherwise the number of marked squares (0 when none is marked) |
| Lines.ScoreOfThree | tictactoe_oop.rb:101-107 | on a line, score 3 iff all three squares hold the same mark; score 2 iff exactly one square is open and the other two hold the same mark |
| Lines.ScoreOfThreeLow | tictactoe_oop.rb:101-107 | on a line, score 1 iff exactly one square is marked; score 0 iff no square is marked or both X and O occur (a mixed line scores 0) |
| Lines.ThreatenedMeans | tictactoe_oop.rb:41-50 | a threatened line holds one blank and two X or two O |
| Lines.WonMeans | tictactoe_oop.rb:70-78 | a won line holds three X or three O, i.e. its first square is marked and equal to the others |
| Lines.ThreatenedAmong | tictactoe_oop.rb:41-50 | the threatened lines are exactly the lines of the list with score 2 |
| Lines.ThreatenedAmongSnoc | tictactoe_oop.rb:44-47 | scanning one more line appends it exactly when it is threatened (the `<<` accumulation) |
| Lines.FirstDominated | tictactoe_oop.rb:52-58 | a found line is in the list, threatened, and holds the marker |
| Lines.FirstDominatedIsFirst | tictactoe_oop.rb:52-58 | the found line is the one of smallest index dominated by the marker; nothing is found iff no line is dominated |
| Lines.SearchThreatenedFound | tictactoe_oop.rb:53-55 | returning the first threatened line holding the marker gives the first dominated line of WINNING_LINES |
| Lines.SearchThreatenedExhausted | tictactoe_oop.rb:53-57 | when no threatened line holds the marker, no line is dominated (nil) |
| Lines.FirstWinner | tictactoe_oop.rb:70-78 | the winning marker is never the blank " " |
| Lines.FirstWinnerIsFirst | tictactoe_oop.rb:70-78 | the winning marker is the first square's marker of the won line of smallest index; nil iff no line is won |
| Lines.FirstOpen | tictactoe_oop.rb:60-64 | the key found is on the line and unmarked |
| Lines.FirstOpenAt | tictactoe_oop.rb:60-64 | when the i-th key is the first unmarked one, it is the key found |
| Lines.ThreatenedOpen | tictactoe_oop.rb:41-64 | a threatened line has an open square, every open square of it is the one found, and the other two squares hold the same mark |
| Lines.CompletingWins | tictactoe_oop.rb:336-339 | marking the open square of a line dominated by m with m wins that line |
| Lines.BlockingDefuses | tictactoe_oop.rb:336-339 | marking the open square of a line dominated by m with the other marker leaves it neither threatened nor won |
| Lines.WonBefore | tictactoe_oop.rb:70-78 | a line won after marking one square with m whose first marker is not m was already won before |
| Lines.MoveWinsOnlyForMover | tictactoe_oop.rb:286-293 | on a board with no winner, one move by m can only make m the winner |
| Lines.Select | tictactoe_oop.rb:29-35 | `select` keeps exactly the listed keys whose square is marked (or unmarked) |
| Lines.SelectAll | tictactoe_oop.rb:33-35 | when every key qualifies, the selection is the whole list in order |
| Lines.KeyOrderDistinct | tictactoe_oop.rb:80-86 | the hash has no repeated key |
| Lines.SelectMark | tictactoe_oop.rb:13-15 | marking one unmarked key removes exactly that key from the unmarked keys: every other listed key stays, and the count drops by one |
| Lines.BlankBoardNoWinner | tictactoe_oop.rb:80-86 | a cleared board has no winner |
| Lines.BlankBoardUnmarked | tictactoe_oop.rb:80-86 | on a cleared board the unmarked keys are all keys, in order |
| Boards.ResetStep | tictactoe_oop.rb:82-84 | storing a fresh square under the next key advances reset by one key, inserting it only into an empty hash |
| Boards.Board.constructor | tictactoe_oop.rb:8-11 | a new board has all nine keys, all unmarked |
| Boards.Board.Reset | tictactoe_oop.rb:80-86 | afterwards all nine keys are unmarked, unmarked_keys is A1,B1,C1,A2,B2,C2,A3,B3,C3, the board is not full, and a reset of an existing board keeps its keys |
| Boards.Board.ResetRow | tictactoe_oop.rb:82-84 | the inner loop over columns A to C stores three fresh squares of one row |
| Boards.Board.Store | tictactoe_oop.rb:83 | Hash#[]= replaces the value and appends a key that is new |
| Boards.Board.Set | tictactoe_oop.rb:13-15 | only the square under the key takes the marker; the other eight squares are unchanged and the nine keys stay |
| Boards.Board.Get | tictactoe_oop.rb:17-19 | nil exactly for strings that are not keys, else that key's square |
| Boards.Board.MarkedKeys | tictactoe_oop.rb:29-31 | a key is listed iff its square is marked |
| Boards.Board.UnmarkedKeys | tictactoe_oop.rb:33-35 | a key is listed iff its square is unmarked |
| Boards.Board.SquareIsMarked | tictactoe_oop.rb:21-23 | true iff the string names a marked square |
| Boards.Board.ValidSquareKey | tictactoe_oop.rb:25-27 | true iff the string names one of the nine keys |
| Boards.Board.Full | tictactoe_oop.rb:37-39 | full iff every square is marked |
| Boards.Board.ThreatenedLines | tictactoe_oop.rb:41-50 | returns the winning lines with score 2, in WINNING_LINES order |
| Boards.Board.LineDominatedBy | tictactoe_oop.rb:52-58 | returns the first line of WINNING_LINES dominated by the marker, or nil |
| Boards.Board.AvailableKeyInLine | tictactoe_oop.rb:60-64 | returns the first unmarked key of the line |
| Boards.Board.WinningMarker | tictactoe_oop.rb:70-78 | returns the winner of the board (first won line's marker, or nil) |
| Boards.Board.SomeoneWon | tictactoe_oop.rb:66-68 | true iff there is a winning marker |
| Policy.Move | tictactoe_oop.rb:319-334 | a square the policy names is unmarked |
| Policy.MoveCases | tictactoe_oop.rb:325-333 | the fixed priority: the centre while it is unmarked; else the first open square of the computer's first dominated line; else that of the human's; else no named square (the random fallback) |
| Policy.AttackWins | tictactoe_oop.rb:327-328 | with the centre taken and an own dominated line, the computer's move makes it the winner |
| Policy.BlockDefuses | tictactoe_oop.rb:329-330 | otherwise, with a human dominated line, the move is on that line and leaves it neither threatened nor won |
| Policy.ThreatenedIsDominated | tictactoe_oop.rb:52-58 | with markers X and O, every threatened line is dominated by one of the two players |
| Policy.FallbackOnlyWithoutThreats | tictactoe_oop.rb:331-332 | the random fallback happens only with the centre taken and no threatened line |
| Players.Player.constructor | tictactoe_oop.rb:135-138 | a new player has the marker given and score 0 |
| Players.Player.UpdateScore | tictactoe_oop.rb:140-142 | the score rises by exactly one iff the winning marker is the player's, else it is unchanged |
| Game.TTTGame.constructor | tictactoe_oop.rb:170-174 | a fresh board, a human with X and a computer with O, both scores 0 |
| Game.TTTGame.SetFirstToMove | tictactoe_oop.rb:208-219 | the human (object or 'human') or the computer (object or 'computer') becomes first and current player; anything else sets 'choose' |
| Game.TTTGame.ChooseMarker | tictactoe_oop.rb:191-206 | the human takes the accepted marker, the computer the other |
| Game.TTTGame.RetrievePlayerOfMark | tictactoe_oop.rb:240-244 | the human if the marker is the human's, else the computer |
| Game.TTTGame.ChooseWhoMovesFirst | tictactoe_oop.rb:221-238 | the player holding the accepted marker moves first and is current |
| Game.TTTGame.ValidSquare | tictactoe_oop.rb:313-317 | true iff the string names one of the nine keys and that square is unmarked |
| Game.TTTGame.HumanMoves | tictactoe_oop.rb:299-311 | exactly one previously unmarked square gets the human's marker |
| Game.TTTGame.ComputerAttack | tictactoe_oop.rb:336-339 | the line's first open square gets the computer's marker, nothing else changes |
| Game.TTTGame.ComputerMoves | tictactoe_oop.rb:319-334 | exactly one previously unmarked square gets the computer's marker, and it is the policy's square whenever a rule other than the random fallback applies |
| Game.TTTGame.CurrentPlayerMoves | tictactoe_oop.rb:341-349 | the current player marks one unmarked square and the other player becomes current |
| Game.RoundTraceStep | tictactoe_oop.rb:287-289 | a move on the last board of a round trace, which does not end the round, extends the trace |
| Game.RoundTraceMoves | tictactoe_oop.rb:287-289 | every move recorded in a round trace marks one unmarked square of a board that did not end the round, and changes nothing else |
| Game.TTTGame.PlayTurn | tictactoe_oop.rb:287-289 | one pass of the loop: one unmarked square is marked, the trace grows by the new board, earlier marks stay, and the player now to move has not won |
| Game.TTTGame.PlayGame | tictactoe_oop.rb:286-293 | ends with a winner or a full board, and the returned trace shows that no board before the last had a winner or was full, so the loop stops at the first such board; the player to move next has not won; between 1 and (unmarked squares at start) moves; earlier marks kept |
| Game.TTTGame.Reset | tictactoe_oop.rb:411-415 | all squares unmarked, same keys, current player back to first_to_move, scores untouched |
| Game.TTTGame.SetWinner | tictactoe_oop.rb:351-353 | the definition of `set_winner?`: one of the two scores is at least 5 (SetWon on the two scores) |
| Game.TTTGame.PlayRound | tictactoe_oop.rb:272-275 | a round on a cleared board ends won or full, and the round's winner, if any, gains one point (so together at most one) |
| Game.SetTraceStep | tictactoe_oop.rb:272-278 | a round scoring at most one point, after a round that did not win the set, extends the set's score trace |
| Game.SetTraceBounded | tictactoe_oop.rb:278 | from scores below 5, every score before the last round is below 5, no score passes 5, and the two never both reach 5 |
| Game.TTTGame.PlaySet | tictactoe_oop.rb:270-284 | the set stops at the first "n" answer or at the first round after which a score reached 5, whichever comes first: the returned score trace has no score at 5 after any round but the last, and each round adds at most one point; from scores below 5, neither score passes 5 and at most one reaches it |
| Game.TTTGame.Play | tictactoe_oop.rb:176-187 | names are set, markers chosen, the first mover is the one picked (or chosen by marker under 'choose'), and the set is played as above, with the same score trace |
| Formatting.JoinLength | tictactoe_oop.rb:422-425 | the length of `join`'s result is the items' total length plus one separator per pair of neighbours |
| Formatting.JoinSnoc | tictactoe_oop.rb:424-425 | joining one more item appends the separator and the item |
| Formatting.JoinOr | tictactoe_oop.rb:417-426 | "" for none, the item for one, "a or b" for two; from three on, the array's last element is overwritten with "or <last>" and the result is the others joined, the delimiter, "or " and the last |

## Left out

- Console output and input: `Board#draw`, every `display_*` method, the
  prompts and their retry loops, `play_again?`, and the prompt line that
  `human_moves` builds with `joinor`. Each input loop is modelled by the
  value it accepts.
- `clear` (`system "clear"`) is a process call.
- `Array#sample` randomness: the fallback square is any unmarked key.
- The `Human` and `Computer` subclasses appear only as the initial markers X
  and O; `choose_marker` overwrites them. The script lines that start a game
  are not modelled.
- `Square#to_s` and `Board#[]` returning the `Square` object: `Get` returns
  the marker, which is all a square holds.
- Boards.Board.Set: requires a board holding all nine keys and takes a `Key`,
  because a string that is not a key makes the Ruby code raise on nil.
- Boards.Board.AvailableKeyInLine: requires an unmarked key on the line; on a
  fully marked line the Ruby `each` falls through and returns the line itself.
- Boards.Board.LineDominatedBy: takes the player's marker rather than the
  player, the only thing the Ruby method reads from it.
- Game.TTTGame.PlayGame: requires a board that is neither full nor won, as
  it is at the start of every round; the Ruby loop would otherwise move on a
  full board.
- Game.TTTGame.PlayGame: the round trace records the square of each move,
  not which player made it; that the players take turns is stated move by
  move by `CurrentPlayerMoves`.
- Game.TTTGame.PlaySet: the play-again answers are a finite sequence ending
  in "n", so a user who answers "y" forever is not modelled.
- Game.TTTGame.Play: a player's name is nil before `play`; the model uses the
  empty string.
