/** TTTGame: the turn, round and set state machine, and the computer's moves. */
module Game {
  import opened Options
  import opened Markers
  import opened Keys
  import opened Lines
  import opened Boards
  import opened Players
  import opened Policy

  const GAMES_IN_SET: nat := 5

  /** What `first_to_move=` is given: a player object or a string. */
  datatype Choice = ChosePlayer(player: Player) | ChoseName(text: string)

  /** `@first_to_move`: nil before `play`, the string 'choose', or a player. */
  datatype FirstMover = Unset | Choose | Mover(player: Player)

  /** `when p, s` in `first_to_move=`: the choice is the object `p` or the string `s`. */
  predicate Picks(choice: Choice, p: Player, s: string)
  {
    choice == ChosePlayer(p) || choice == ChoseName(s)
  }

  /** One move of a round: on board `g`, which does not end the round, the
      unmarked square `k` gets a marker and nothing else changes, giving `g'`. */
  ghost predicate MoveStep(g: Grid, k: Key, g': Grid)
  {
    Complete(g) && !RoundOver(g) && g[k] == Blank && k in g' && g'[k] != Blank && g' == g[k := g'[k]]
  }

  /** `trace` holds the board before each of the moves `played` and after
      the last one; each move is a MoveStep, so no board before the last
      ends the round. */
  ghost predicate RoundTrace(trace: seq<Grid>, played: seq<Key>)
    decreases |played|
  {
    |trace| == |played| + 1 && Complete(trace[0]) &&
    (|played| > 0 ==>
      var n := |played| - 1;
      RoundTrace(trace[..n + 1], played[..n]) && MoveStep(trace[n], played[n], trace[n + 1]))
  }

  /** A move on the last board of a round trace extends it. */
  lemma RoundTraceStep(trace: seq<Grid>, played: seq<Key>, k: Key, next: Grid)
    requires RoundTrace(trace, played)
    requires MoveStep(trace[|played|], k, next)
    ensures RoundTrace(trace + [next], played + [k])
  {
    assert (trace + [next])[..|played| + 1] == trace;
    assert (played + [k])[..|played|] == played;
  }

  /** Every move of a round trace is a MoveStep: the round went on past a
      board only when nobody had won on it and a square was still unmarked. */
  lemma {:induction false} RoundTraceMoves(trace: seq<Grid>, played: seq<Key>, i: nat)
    requires RoundTrace(trace, played) && i < |played|
    ensures MoveStep(trace[i], played[i], trace[i + 1])
    decreases |played|
  {
    var n := |played| - 1;
    if i < n {
      RoundTraceMoves(trace[..n + 1], played[..n], i);
      assert trace[..n + 1][i] == trace[i] && trace[..n + 1][i + 1] == trace[i + 1];
    }
  }

  /** The two scores after a round of a set. */
  datatype Tally = Tally(human: nat, computer: nat)

  /** TTTGame#set_winner? on the two scores: one of them has reached the
      set's score. */
  predicate SetWon(t: Tally)
  {
    t.human >= GAMES_IN_SET || t.computer >= GAMES_IN_SET
  }

  /** What one round does to the scores: at most one player, the round's
      winner, gains one point. */
  predicate RoundScored(t: Tally, t': Tally)
  {
    t' == t || t' == Tally(t.human + 1, t.computer) || t' == Tally(t.human, t.computer + 1)
  }

  /** The scores before a set and after each of its rounds: each round
      scores at most one point, and the set went on past a round only when
      no score had reached GAMES_IN_SET. */
  ghost predicate SetTrace(tallies: seq<Tally>)
  {
    |tallies| >= 1 &&
    (forall j :: 0 <= j < |tallies| - 1 ==> RoundScored(tallies[j], tallies[j + 1])) &&
    (forall j :: 0 < j < |tallies| - 1 ==> !SetWon(tallies[j]))
  }

  /** A round played after one that did not win the set extends the trace. */
  lemma SetTraceStep(tallies: seq<Tally>, t: Tally)
    requires SetTrace(tallies)
    requires |tallies| > 1 ==> !SetWon(tallies[|tallies| - 1])
    requires RoundScored(tallies[|tallies| - 1], t)
    ensures SetTrace(tallies + [t])
  {
    var tallies' := tallies + [t];
    forall j | 0 <= j < |tallies'| - 1 ensures RoundScored(tallies'[j], tallies'[j + 1]) {
      if j < |tallies| - 1 {
        assert tallies'[j] == tallies[j] && tallies'[j + 1] == tallies[j + 1];
      }
    }
  }

  /** A set that starts with no score at GAMES_IN_SET stops in the round
      that first brings a score there: no score passes GAMES_IN_SET, and
      the two never both reach it. */
  lemma SetTraceBounded(tallies: seq<Tally>)
    requires SetTrace(tallies) && !SetWon(tallies[0])
    ensures forall j :: 0 <= j < |tallies| - 1 ==>
              tallies[j].human < GAMES_IN_SET && tallies[j].computer < GAMES_IN_SET
    ensures tallies[|tallies| - 1].human <= GAMES_IN_SET && tallies[|tallies| - 1].computer <= GAMES_IN_SET
    ensures tallies[|tallies| - 1].human < GAMES_IN_SET || tallies[|tallies| - 1].computer < GAMES_IN_SET
  {
    var n := |tallies| - 1;
    if n > 0 {
      assert !SetWon(tallies[n - 1]);
      assert RoundScored(tallies[n - 1], tallies[n]);
    }
  }

  /** A "y" reply is never the last one, so another reply follows it. */
  lemma AnotherAnswer(answers: seq<bool>, i: nat)
    requires i < |answers| && answers[i] && !answers[|answers| - 1]
    requires forall j :: 0 <= j < i ==> answers[j]
    ensures i + 1 < |answers|
    ensures forall j :: 0 <= j < i + 1 ==> answers[j]
  {
  }

  class TTTGame {
    const board: Board
    const human: Player
    const computer: Player
    var currentPlayer: Player?
    var firstToMove: FirstMover

    /** Two distinct players with the markers X and O between them; the
        first and the current player, once set, are one of the two. */
    ghost predicate Valid()
      reads this, board, human, computer
    {
      board.Valid() && PlayersValid()
    }

    /** The part of Valid() that does not read the board. */
    ghost predicate PlayersValid()
      reads this, human, computer
    {
      human != computer &&
      (human.marker == X || human.marker == O) && computer.marker == Other(human.marker) &&
      (firstToMove.Mover? ==> firstToMove.player == human || firstToMove.player == computer) &&
      (currentPlayer == null || currentPlayer == human || currentPlayer == computer)
    }

    /** TTTGame.new: a new board, Human.new (marker X) and Computer.new (marker O). */
    constructor ()
      ensures Valid() && fresh(board) && fresh(human) && fresh(computer)
      ensures forall k :: board.squares[k] == Blank
      ensures human.marker == X && computer.marker == O
      ensures human.score == 0 && computer.score == 0
      ensures currentPlayer == null && firstToMove == Unset
    {
      board := new Board();
      human := new Player(X);
      computer := new Player(O);
      currentPlayer := null;
      firstToMove := Unset;
    }

    /** TTTGame#first_to_move=: the human or the computer, given as object
        or as name, becomes the first and the current player; anything else
        leaves the choice to the user ('choose'). */
    method SetFirstToMove(choice: Choice)
      requires Valid()
      modifies this
      ensures Valid()
      ensures Picks(choice, human, "human") ==> firstToMove == Mover(human) && currentPlayer == human
      ensures !Picks(choice, human, "human") && Picks(choice, computer, "computer") ==>
                firstToMove == Mover(computer) && currentPlayer == computer
      ensures !Picks(choice, human, "human") && !Picks(choice, computer, "computer") ==>
                firstToMove == Choose && currentPlayer == old(currentPlayer)
    {
      if choice == ChosePlayer(human) || choice == ChoseName("human") {
        firstToMove := Mover(human);
        currentPlayer := firstToMove.player;
      } else if choice == ChosePlayer(computer) || choice == ChoseName("computer") {
        firstToMove := Mover(computer);
        currentPlayer := firstToMove.player;
      } else {
        firstToMove := Choose;
      }
    }

    /** TTTGame#choose_marker, given the answer its prompt loop accepts
        (X or O): the human takes it, the computer the other one. */
    method ChooseMarker(marker: Marker)
      requires Valid() && (marker == X || marker == O)
      modifies human`marker, computer`marker
      ensures Valid()
      ensures human.marker == marker && computer.marker == Other(marker)
    {
      human.marker := marker;
      computer.marker := if marker == X then O else X;
    }

    /** TTTGame#retrieve_player_of_mark: the player holding `marker`. */
    function RetrievePlayerOfMark(marker: Marker): (p: Player)
      reads this, board, human, computer
      requires Valid()
      ensures p == human || p == computer
      ensures (marker == human.marker || marker == computer.marker) ==> p.marker == marker
      ensures marker != human.marker ==> p == computer
    {
      if marker == human.marker then human else computer
    }

    /** TTTGame#choose_who_moves_first, given the answer its prompt loop
        accepts (one of the two players' markers): that player moves first. */
    method ChooseWhoMovesFirst(marker: Marker)
      requires Valid() && (marker == human.marker || marker == computer.marker)
      modifies this
      ensures Valid()
      ensures firstToMove.Mover? && firstToMove.player.marker == marker
      ensures currentPlayer == firstToMove.player
    {
      SetFirstToMove(ChosePlayer(RetrievePlayerOfMark(marker)));
    }

    /** TTTGame#valid_square?: the string names a square that is unmarked. */
    function ValidSquare(squareKey: string): (r: bool)
      reads this, board
      requires board.Valid()
      ensures r <==> exists k :: Name(k) == squareKey && board.squares[k] == Blank
      ensures r <==> Parse(squareKey).Some? && board.squares[Parse(squareKey).value] == Blank
    {
      var squareIsMarked := board.SquareIsMarked(squareKey);
      var validSquareKey := board.ValidSquareKey(squareKey);
      !squareIsMarked && validSquareKey
    }

    /** TTTGame#human_moves: the prompt loop ends on a string for which
        valid_square? holds (any such string may be typed); the human's
        marker goes there. */
    method HumanMoves() returns (ghost key: Key)
      requires Valid() && !board.Full()
      modifies board
      ensures Valid()
      ensures old(board.squares)[key] == Blank
      ensures board.squares == old(board.squares)[key := human.marker]
    {
      var open := board.UnmarkedKeys();
      assert open != [] && ValidSquare(Name(open[0]));
      var squareKey: string :| ValidSquare(squareKey);
      assert ValidSquare(squareKey);
      assert Parse(squareKey).Some?;
      var squareKeyParsed := Parse(squareKey).value;
      key := squareKeyParsed;
      board.Set(squareKeyParsed, human.marker);
    }

    /** TTTGame#computer_attack: mark the line's first open square with the
        computer's marker. */
    method ComputerAttack(line: Line)
      requires Valid() && HasOpen(board.squares, line)
      modifies board
      ensures Valid()
      ensures board.squares == old(board.squares)[FirstOpen(old(board.squares), line) := computer.marker]
    {
      var availableKey := board.AvailableKeyInLine(line);
      board.Set(availableKey, computer.marker);
    }

    /** TTTGame#computer_moves: exactly one unmarked square gets the
        computer's marker, and it is the square the policy names whenever
        the centre, an own line or a human line decides it; otherwise any
        unmarked square (the Ruby code samples one at random). */
    method ComputerMoves() returns (ghost key: Key)
      requires Valid() && !board.Full()
      modifies board
      ensures Valid()
      ensures old(board.squares)[key] == Blank
      ensures board.squares == old(board.squares)[key := computer.marker]
      ensures Move(old(board.squares), computer.marker, human.marker).Some? ==>
                key == Move(old(board.squares), computer.marker, human.marker).value
    {
      var computerMarker := computer.marker;
      var unmarkedKeys := board.UnmarkedKeys();
      var computerDominatedLine := board.LineDominatedBy(computer.marker);
      var humanDominatedLine := board.LineDominatedBy(human.marker);
      ghost var g := board.squares;
      ghost var policy := Move(g, computerMarker, human.marker);
      MoveCases(g, computerMarker, human.marker, computerDominatedLine, humanDominatedLine);

      if B2 in unmarkedKeys {
        key := B2;
        assert g[key] == Blank && policy == Some(key);
        board.Set(B2, computerMarker);
      } else if computerDominatedLine.Some? {
        key := FirstOpen(g, computerDominatedLine.value);
        assert g[key] == Blank && policy == Some(key);
        ComputerAttack(computerDominatedLine.value);
      } else if humanDominatedLine.Some? {
        key := FirstOpen(g, humanDominatedLine.value);
        assert g[key] == Blank && policy == Some(key);
        ComputerAttack(humanDominatedLine.value);
      } else {
        assert unmarkedKeys != [];
        var sampled :| sampled in unmarkedKeys;
        key := sampled;
        assert g[key] == Blank && policy == None;
        board.Set(sampled, computerMarker);
      }
    }

    /** TTTGame#current_player_moves: the current player marks one unmarked
        square and the other player becomes current. */
    method CurrentPlayerMoves() returns (ghost key: Key)
      requires Valid() && currentPlayer != null && !board.Full()
      modifies this, board
      ensures Valid() && firstToMove == old(firstToMove)
      ensures currentPlayer == (if old(currentPlayer) == human then computer else human)
      ensures old(board.squares)[key] == Blank
      ensures board.squares == old(board.squares)[key := old(currentPlayer.marker)]
    {
      if currentPlayer == human {
        key := HumanMoves();
        currentPlayer := computer;
      } else {
        key := ComputerMoves();
        currentPlayer := human;
      }
    }

    /** One pass of the loop of TTTGame#play_game up to its exit test: the
        current player marks one unmarked square, and the board so reached
        extends the round's trace. */
    method PlayTurn(ghost trace: seq<Grid>, ghost played: seq<Key>)
      returns (ghost trace': seq<Grid>, ghost played': seq<Key>)
      requires Valid() && currentPlayer != null
      requires !board.Full() && Winner(board.squares) == None
      requires |trace| == |played| + 1 && trace[|played|] == board.squares
      requires RoundTrace(trace, played)
      modifies this, board
      ensures Valid() && currentPlayer != null && firstToMove == old(firstToMove)
      ensures trace' == trace + [board.squares] && |played'| == |played| + 1
      ensures RoundTrace(trace', played')
      ensures |board.UnmarkedKeys()| + 1 == old(|board.UnmarkedKeys()|)
      ensures Winner(board.squares) != Some(currentPlayer.marker)
      ensures forall k :: old(board.squares)[k] != Blank ==> board.squares[k] == old(board.squares)[k]
    {
      ghost var before := board.squares;
      ghost var mover := currentPlayer;
      ghost var k := CurrentPlayerMoves();
      EveryKeyListed();
      KeyOrderDistinct();
      SelectMark(before, KEY_ORDER, k, mover.marker);
      MoveWinsOnlyForMover(before, WINNING_LINES, k, mover.marker);
      RoundTraceStep(trace, played, k, board.squares);
      trace', played' := trace + [board.squares], played + [k];
    }

    /** TTTGame#play_game: players alternate until someone has won or the
        board is full. `trace` is the board before each move and after the
        last one and `played` the square of each move: the round stops at
        the first board on which it is over. Each move fills one square, so
        the round ends after at most as many moves as there were unmarked
        squares, and only the player who moved last can have won. */
    method PlayGame() returns (ghost trace: seq<Grid>, ghost played: seq<Key>)
      requires Valid() && currentPlayer != null
      requires !board.Full() && Winner(board.squares) == None
      modifies this, board
      ensures Valid() && currentPlayer != null && firstToMove == old(firstToMove)
      ensures Winner(board.squares).Some? || board.Full()
      ensures Winner(board.squares) != Some(currentPlayer.marker)
      ensures 1 <= |played| <= |old(board.UnmarkedKeys())|
      ensures forall k :: old(board.squares)[k] != Blank ==> board.squares[k] == old(board.squares)[k]
      ensures |trace| == |played| + 1 && trace[0] == old(board.squares) && trace[|played|] == board.squares
      ensures RoundTrace(trace, played)
    {
      trace := [board.squares];
      played := [];
      while true
        invariant Valid() && currentPlayer != null && firstToMove == old(firstToMove)
        invariant !board.Full() && Winner(board.squares) == None
        invariant |played| + |board.UnmarkedKeys()| == |old(board.UnmarkedKeys())|
        invariant forall k :: old(board.squares)[k] != Blank ==> board.squares[k] == old(board.squares)[k]
        invariant |trace| == |played| + 1 && trace[0] == old(board.squares) && trace[|played|] == board.squares
        invariant RoundTrace(trace, played)
        decreases |board.UnmarkedKeys()|
      {
        trace, played := PlayTurn(trace, played);
        var someoneWon := board.SomeoneWon();
        if someoneWon || board.Full() {
          break;
        }
      }
    }

    /** TTTGame#set_winner?: a player has reached the set's score. */
    function SetWinner(): bool
      reads this, human, computer
    {
      SetWon(Tally(human.score, computer.score))
    }

    /** TTTGame#reset: a cleared board with the same keys and the first
        player current again; the scores are kept. */
    method Reset()
      requires Valid() && firstToMove.Mover?
      modifies this, board
      ensures Valid() && firstToMove == old(firstToMove)
      ensures currentPlayer == firstToMove.player
      ensures forall k :: board.squares[k] == Blank
      ensures board.UnmarkedKeys() == KEY_ORDER
    {
      board.Reset();
      currentPlayer := firstToMove.player;
    }

    /** One pass of the loop of TTTGame#play_set up to its exit tests: a
        round is played on the cleared board and the winner of the round, if
        any, scores one point. */
    method PlayRound()
      requires Valid() && firstToMove.Mover? && currentPlayer == firstToMove.player
      requires forall k :: board.squares[k] == Blank
      modifies this, board, human`score, computer`score
      ensures Valid() && firstToMove == old(firstToMove)
      ensures Winner(board.squares).Some? || board.Full()
      ensures human.score == old(human.score) + (if Winner(board.squares) == Some(human.marker) then 1 else 0)
      ensures computer.score == old(computer.score) + (if Winner(board.squares) == Some(computer.marker) then 1 else 0)
      ensures human.score + computer.score <= old(human.score + computer.score) + 1
      ensures RoundScored(Tally(old(human.score), old(computer.score)), Tally(human.score, computer.score))
    {
      BlankBoardNoWinner(board.squares);
      ghost var trace, played := PlayGame();
      human.UpdateScore(board);
      computer.UpdateScore(board);
    }

    /** TTTGame#play_set, with `answers` the replies the play-again prompt
        accepts ("y" as true, "n" as false), the last of them "n": rounds
        are played until a player reaches the set's score or the user says
        "n". Each round adds at most one point, so starting from scores
        below the threshold exactly one player ends on it when the set is won. */
    method PlaySet(answers: seq<bool>) returns (ghost rounds: nat, ghost tallies: seq<Tally>)
      requires Valid() && firstToMove.Mover? && currentPlayer == firstToMove.player
      requires forall k :: board.squares[k] == Blank
      requires |answers| > 0 && !answers[|answers| - 1]
      modifies this, board, human`score, computer`score
      ensures Valid() && firstToMove == old(firstToMove)
      ensures 1 <= rounds <= |answers|
      ensures forall j :: 0 <= j < rounds - 1 ==> answers[j]
      ensures SetWinner() || !answers[rounds - 1]
      ensures |tallies| == rounds + 1
      ensures tallies[0] == Tally(old(human.score), old(computer.score))
      ensures tallies[rounds] == Tally(human.score, computer.score)
      ensures SetTrace(tallies)
      ensures old(human.score) <= human.score && old(computer.score) <= computer.score
      ensures human.score + computer.score <= old(human.score + computer.score) + rounds
      ensures old(!SetWinner()) ==>
                human.score <= GAMES_IN_SET && computer.score <= GAMES_IN_SET &&
                (human.score < GAMES_IN_SET || computer.score < GAMES_IN_SET)
    {
      var i := 0;
      tallies := [Tally(human.score, computer.score)];
      while true
        invariant 0 <= i < |answers|
        invariant forall j :: 0 <= j < i ==> answers[j]
        invariant Valid() && firstToMove == old(firstToMove) && currentPlayer == firstToMove.player
        invariant forall k :: board.squares[k] == Blank
        invariant old(human.score) <= human.score && old(computer.score) <= computer.score
        invariant human.score + computer.score <= old(human.score + computer.score) + i
        invariant old(!SetWinner()) ==> !SetWinner()
        invariant |tallies| == i + 1 && tallies[0] == Tally(old(human.score), old(computer.score))
        invariant tallies[i] == Tally(human.score, computer.score)
        invariant SetTrace(tallies) && (i > 0 ==> !SetWon(tallies[i]))
        decreases |answers| - i
      {
        PlayRound();
        SetTraceStep(tallies, Tally(human.score, computer.score));
        tallies := tallies + [Tally(human.score, computer.score)];
        if SetWinner() {
          rounds := i + 1;
          return;
        }
        if !answers[i] {
          rounds := i + 1;
          return;
        }
        AnotherAnswer(answers, i);
        i := i + 1;
        Reset();
      }
    }

    /** TTTGame#play, given the answers the prompt loops accept: the marker
        the human picks (X or O), the marker of the player the user picks to
        move first (asked only when `choice` names neither player), and the
        play-again replies. */
    method Play(choice: Choice, humanMarker: Marker, firstMarker: Marker, answers: seq<bool>)
      returns (ghost rounds: nat, ghost tallies: seq<Tally>)
      requires Valid() && forall k :: board.squares[k] == Blank
      requires humanMarker == X || humanMarker == O
      requires firstMarker == X || firstMarker == O
      requires |answers| > 0 && !answers[|answers| - 1]
      modifies this, board, human, computer
      ensures Valid()
      ensures human.name == "Human" && computer.name == "Computer"
      ensures human.marker == humanMarker && computer.marker == Other(humanMarker)
      ensures Picks(choice, human, "human") ==> firstToMove == Mover(human)
      ensures !Picks(choice, human, "human") && Picks(choice, computer, "computer") ==>
                firstToMove == Mover(computer)
      ensures !Picks(choice, human, "human") && !Picks(choice, computer, "computer") ==>
                firstToMove.Mover? && firstToMove.player.marker == firstMarker
      ensures 1 <= rounds <= |answers| && forall j :: 0 <= j < rounds - 1 ==> answers[j]
      ensures SetWinner() || !answers[rounds - 1]
      ensures |tallies| == rounds + 1
      ensures tallies[0] == Tally(old(human.score), old(computer.score))
      ensures tallies[rounds] == Tally(human.score, computer.score)
      ensures SetTrace(tallies)
      ensures old(!SetWinner()) ==>
                human.score <= GAMES_IN_SET && computer.score <= GAMES_IN_SET &&
                (human.score < GAMES_IN_SET || computer.score < GAMES_IN_SET)
    {
      SetFirstToMove(choice);
      human.name := "Human";
      computer.name := "Computer";
      ChooseMarker(humanMarker);
      if firstToMove == Choose {
        ChooseWhoMovesFirst(firstMarker);
      }
      rounds, tallies := PlaySet(answers);
    }
  }
}
