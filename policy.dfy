/** The computer's move policy of TTTGame#computer_moves, as a function of
    the board: centre, else complete its own line, else block the human's,
    else any unmarked square. */
module Policy {
  import opened Options
  import opened Markers
  import opened Keys
  import opened Lines

  /** The square the computer holding `own`, playing against `opp`, marks
      when one of the first three rules applies; None when it falls back to
      an unmarked square picked at random. */
  function Move(g: Grid, own: Marker, opp: Marker): (r: Option<Key>)
    requires Complete(g)
    ensures r.Some? ==> g[r.value] == Blank
  {
    if g[B2] == Blank then Some(B2)
    else match FirstDominated(g, WINNING_LINES, own)
      case Some(l) =>
        ThreatenedOpen(g, l);
        Some(FirstOpen(g, l))
      case None =>
        match FirstDominated(g, WINNING_LINES, opp)
        case Some(l) =>
          ThreatenedOpen(g, l);
          Some(FirstOpen(g, l))
        case None => None
  }

  /** The policy's move, given the first lines each marker dominates. */
  lemma MoveCases(g: Grid, own: Marker, opp: Marker, ownLine: Option<Line>, oppLine: Option<Line>)
    requires Complete(g)
    requires ownLine == FirstDominated(g, WINNING_LINES, own)
    requires oppLine == FirstDominated(g, WINNING_LINES, opp)
    ensures g[B2] == Blank ==> Move(g, own, opp) == Some(B2)
    ensures g[B2] != Blank && ownLine.Some? ==>
              HasOpen(g, ownLine.value) && Move(g, own, opp) == Some(FirstOpen(g, ownLine.value))
    ensures g[B2] != Blank && ownLine.None? && oppLine.Some? ==>
              HasOpen(g, oppLine.value) && Move(g, own, opp) == Some(FirstOpen(g, oppLine.value))
    ensures g[B2] != Blank && ownLine.None? && oppLine.None? ==> Move(g, own, opp) == None
  {
    if ownLine.Some? {
      ThreatenedOpen(g, ownLine.value);
    }
    if oppLine.Some? {
      ThreatenedOpen(g, oppLine.value);
    }
  }

  /** When the centre is taken and the computer has a line with two of its
      markers and an open square, its move wins the round for it. */
  lemma AttackWins(g: Grid, own: Marker, opp: Marker)
    requires Complete(g) && own != Blank && g[B2] != Blank
    requires FirstDominated(g, WINNING_LINES, own).Some?
    requires Winner(g) == None
    ensures Move(g, own, opp).Some?
    ensures Winner(g[Move(g, own, opp).value := own]) == Some(own)
  {
    var l := FirstDominated(g, WINNING_LINES, own).value;
    var k := Move(g, own, opp).value;
    assert k == FirstOpen(g, l);
    CompletingWins(g, l, own);
    var i :| 0 <= i < |WINNING_LINES| && WINNING_LINES[i] == l;
    assert Won(g[k := own], WINNING_LINES[i]);
    MoveWinsOnlyForMover(g, WINNING_LINES, k, own);
    FirstWinnerIsFirst(g[k := own], WINNING_LINES);
  }

  /** When the centre is taken, the computer has no such line and the human
      has one, the computer's move leaves that line neither threatened nor won. */
  lemma BlockDefuses(g: Grid, own: Marker, opp: Marker)
    requires Complete(g) && own != Blank && opp != Blank && own != opp && g[B2] != Blank
    requires FirstDominated(g, WINNING_LINES, own).None?
    requires FirstDominated(g, WINNING_LINES, opp).Some?
    ensures Move(g, own, opp).Some?
    ensures var l := FirstDominated(g, WINNING_LINES, opp).value;
            var g' := g[Move(g, own, opp).value := own];
            Move(g, own, opp).value in l && !Threatened(g', l) && !Won(g', l)
  {
    var l := FirstDominated(g, WINNING_LINES, opp).value;
    var k := Move(g, own, opp).value;
    assert k == FirstOpen(g, l);
    BlockingDefuses(g, l, opp, own);
  }

  /** With the two markers X and O, a threatened line is dominated by one of them. */
  lemma ThreatenedIsDominated(g: Grid, l: Line, own: Marker, opp: Marker)
    requires Complete(g) && {own, opp} == {X, O}
    requires Threatened(g, l)
    ensures DominatedBy(g, l, own) || DominatedBy(g, l, opp)
  {
    var a, b, c := g[l[0]], g[l[1]], g[l[2]];
    assert ValuesAt(g, l) == [a, b, c];
    ScoreOfThree(a, b, c);
  }

  /** With the two markers X and O, the computer falls back to a random
      square only when the centre is taken and no line is threatened. */
  lemma FallbackOnlyWithoutThreats(g: Grid, own: Marker, opp: Marker)
    requires Complete(g) && {own, opp} == {X, O}
    requires Move(g, own, opp).None?
    ensures g[B2] != Blank
    ensures ThreatenedAmong(g, WINNING_LINES) == []
  {
    var t := ThreatenedAmong(g, WINNING_LINES);
    if t != [] {
      FirstDominatedIsFirst(g, WINNING_LINES, own);
      FirstDominatedIsFirst(g, WINNING_LINES, opp);
      assert t[0] in t;
      var i :| 0 <= i < |WINNING_LINES| && WINNING_LINES[i] == t[0];
      ThreatenedIsDominated(g, WINNING_LINES[i], own, opp);
      assert false;
    }
  }
}
