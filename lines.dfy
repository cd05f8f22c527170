/** The board's contents as a value, the eight winning lines, and the line
    tests that Board builds on: the identical-marker count, threatened lines,
    dominated lines, the open square of a line and the winning marker. */
module Lines {
  import opened Options
  import opened Markers
  import opened Keys

  /** The contents of Board's `@squares` hash, each square reduced to its marker. */
  type Grid = map<Key, Marker>

  /** Every key has a square. */
  ghost predicate Complete(g: Grid)
  {
    forall k: Key :: k in g
  }

  type Line = l: seq<Key> | |l| == 3 witness [A1, B1, C1]

  /** Board::WINNING_LINES: three rows, three columns, two diagonals, in this order. */
  const WINNING_LINES: seq<Line> :=
    [[A1, B1, C1], [A2, B2, C2], [A3, B3, C3],
     [A1, A2, A3], [B1, B2, B3], [C1, C2, C3],
     [A1, B2, C3], [C1, B2, A3]]

  /** `@squares.values_at(*line)`, each square reduced to its marker. */
  function ValuesAt(g: Grid, line: seq<Key>): (ms: seq<Marker>)
    requires Complete(g)
    ensures |ms| == |line| && forall i :: 0 <= i < |line| ==> ms[i] == g[line[i]]
  {
    seq(|line|, i requires 0 <= i < |line| => g[line[i]])
  }

  /** `squares.select(&:marked?).collect(&:marker)`. */
  function MarksOf(ms: seq<Marker>): (marks: seq<Marker>)
    ensures |marks| <= |ms|
    ensures forall m :: m in marks ==> Marked(m)
    ensures forall i :: 0 <= i < |ms| && Marked(ms[i]) ==> ms[i] in marks
  {
    if ms == [] then []
    else (if Marked(ms[0]) then [ms[0]] else []) + MarksOf(ms[1..])
  }

  /** `select(&:marked?)` keeps every mark with its multiplicity and drops
      every unmarked square, so `markers.size` is the number of X's and O's. */
  lemma {:induction false} MarksOfCounts(ms: seq<Marker>)
    ensures multiset(MarksOf(ms)) == multiset(ms)[Blank := 0]
    ensures |MarksOf(ms)| == multiset(ms)[X] + multiset(ms)[O]
  {
    if ms != [] {
      assert ms == [ms[0]] + ms[1..];
      MarksOfCounts(ms[1..]);
    }
  }

  /** `markers.min == markers.max`: every marker equals the first. */
  predicate AllSame(marks: seq<Marker>)
  {
    forall i :: 0 <= i < |marks| ==> marks[i] == marks[0]
  }

  /** Board#total_identical_makers: 0 when nothing is marked or two different
      markers are present, otherwise the number of marked squares. */
  function TotalIdenticalMarkers(ms: seq<Marker>): (n: nat)
    ensures n <= |ms|
  {
    var marks := MarksOf(ms);
    if |marks| == 0 then 0
    else if AllSame(marks) then |marks|
    else 0
  }

  /** The count in terms of the markers present: 0 when both X and O occur,
      otherwise the number of X's and O's (0 on an unmarked line). */
  lemma TotalIdenticalMarkersCount(ms: seq<Marker>)
    ensures TotalIdenticalMarkers(ms) ==
      if multiset(ms)[X] > 0 && multiset(ms)[O] > 0 then 0
      else multiset(ms)[X] + multiset(ms)[O]
  {
    var marks := MarksOf(ms);
    MarksOfCounts(ms);
    var mm := multiset(marks);
    assert mm[X] == multiset(ms)[X] && mm[O] == multiset(ms)[O];
    if mm[X] > 0 && mm[O] > 0 {
      assert X in marks && O in marks;
      assert !AllSame(marks) by {
        var i :| 0 <= i < |marks| && marks[i] == X;
        var j :| 0 <= j < |marks| && marks[j] == O;
      }
    } else if |marks| > 0 {
      forall i | 0 <= i < |marks| ensures marks[i] == marks[0] {
        assert marks[i] in mm && marks[0] in mm;
      }
    }
  }

  /** On three squares the count is 3 exactly when all three hold the same
      marker, and 2 exactly when one square is unmarked and the other two
      hold the same marker. */
  lemma {:induction false} ScoreOfThree(a: Marker, b: Marker, c: Marker)
    ensures TotalIdenticalMarkers([a, b, c]) == 3 <==> a != Blank && a == b && b == c
    ensures TotalIdenticalMarkers([a, b, c]) == 2 <==>
      (a == Blank && b != Blank && b == c) ||
      (b == Blank && a != Blank && a == c) ||
      (c == Blank && a != Blank && a == b)
  {
    assert [a, b, c][1..] == [b, c];
    assert [b, c][1..] == [c];
    assert [c][1..] == [];
    var tc := if Marked(c) then [c] else [];
    var tb := (if Marked(b) then [b] else []) + tc;
    var ta := (if Marked(a) then [a] else []) + tb;
    assert MarksOf([c]) == tc;
    assert MarksOf([b, c]) == tb;
    assert MarksOf([a, b, c]) == ta;
    if a == Blank && b == Blank && c == Blank {
      assert ta == [];
    }
  }

  /** On three squares the count is 1 exactly when one square is marked,
      and 0 exactly when none is marked or both X and O are present: a mixed
      line scores 0. */
  lemma {:induction false} ScoreOfThreeLow(a: Marker, b: Marker, c: Marker)
    ensures TotalIdenticalMarkers([a, b, c]) == 1 <==>
      (a != Blank && b == Blank && c == Blank) ||
      (a == Blank && b != Blank && c == Blank) ||
      (a == Blank && b == Blank && c != Blank)
    ensures TotalIdenticalMarkers([a, b, c]) == 0 <==>
      (a == Blank && b == Blank && c == Blank) || (X in [a, b, c] && O in [a, b, c])
  {
    assert [a, b, c][1..] == [b, c];
    assert [b, c][1..] == [c];
    assert [c][1..] == [];
    var tc := if Marked(c) then [c] else [];
    var tb := (if Marked(b) then [b] else []) + tc;
    var ta := (if Marked(a) then [a] else []) + tb;
    assert MarksOf([c]) == tc;
    assert MarksOf([b, c]) == tb;
    assert MarksOf([a, b, c]) == ta;
    if a == Blank && b == Blank && c == Blank {
      assert ta == [];
    } else if X in [a, b, c] && O in [a, b, c] {
      assert X in ta && O in ta;
      assert !AllSame(ta);
    }
  }

  /** The test `threatened_lines` applies to each line. */
  predicate Threatened(g: Grid, l: Line)
    requires Complete(g)
  {
    TotalIdenticalMarkers(ValuesAt(g, l)) == 2
  }

  /** The test `winning_marker` applies to each line. */
  predicate Won(g: Grid, l: Line)
    requires Complete(g)
  {
    TotalIdenticalMarkers(ValuesAt(g, l)) == 3
  }

  /** A threatened line holds exactly two equal markers and one unmarked
      square; a line with two of one marker and one of the other is not
      threatened. */
  lemma ThreatenedMeans(g: Grid, l: Line)
    requires Complete(g)
    ensures Threatened(g, l) <==>
      multiset(ValuesAt(g, l))[Blank] == 1 &&
      (multiset(ValuesAt(g, l))[X] == 2 || multiset(ValuesAt(g, l))[O] == 2)
  {
    var a, b, c := g[l[0]], g[l[1]], g[l[2]];
    assert ValuesAt(g, l) == [a, b, c];
    ScoreOfThree(a, b, c);
  }

  /** A won line holds the same marker, X or O, in all three squares. */
  lemma WonMeans(g: Grid, l: Line)
    requires Complete(g)
    ensures Won(g, l) <==> multiset(ValuesAt(g, l))[X] == 3 || multiset(ValuesAt(g, l))[O] == 3
    ensures Won(g, l) <==> g[l[0]] != Blank && g[l[0]] == g[l[1]] == g[l[2]]
  {
    var a, b, c := g[l[0]], g[l[1]], g[l[2]];
    assert ValuesAt(g, l) == [a, b, c];
    ScoreOfThree(a, b, c);
  }

  /** The lines of `ls`, in their order, that are threatened on `g`
      (the accumulation in Board#threatened_lines). */
  function ThreatenedAmong(g: Grid, ls: seq<Line>): (r: seq<Line>)
    requires Complete(g)
    ensures |r| <= |ls|
    ensures forall l :: l in r <==> l in ls && Threatened(g, l)
  {
    if ls == [] then []
    else (if Threatened(g, ls[0]) then [ls[0]] else []) + ThreatenedAmong(g, ls[1..])
  }

  /** Looking at one more line appends it when it is threatened. */
  lemma {:induction false} ThreatenedAmongSnoc(g: Grid, ls: seq<Line>, l: Line)
    requires Complete(g)
    ensures ThreatenedAmong(g, ls + [l]) ==
      ThreatenedAmong(g, ls) + (if Threatened(g, l) then [l] else [])
  {
    if ls == [] {
      assert ls + [l] == [l];
      assert [l][1..] == [];
    } else {
      var head := if Threatened(g, ls[0]) then [ls[0]] else [];
      var tail := if Threatened(g, l) then [l] else [];
      assert (ls + [l])[0] == ls[0];
      assert (ls + [l])[1..] == ls[1..] + [l];
      ThreatenedAmongSnoc(g, ls[1..], l);
      calc {
        ThreatenedAmong(g, ls + [l]);
        head + ThreatenedAmong(g, ls[1..] + [l]);
        head + (ThreatenedAmong(g, ls[1..]) + tail);
        (head + ThreatenedAmong(g, ls[1..])) + tail;
      }
    }
  }

  /** A line dominated by marker `m`: threatened, and `m` among its markers
      (the test in Board#line_dominated_by). */
  predicate DominatedBy(g: Grid, l: Line, m: Marker)
    requires Complete(g)
  {
    Threatened(g, l) && m in ValuesAt(g, l)
  }

  /** The first line of `ls` dominated by `m`, if any. */
  function FirstDominated(g: Grid, ls: seq<Line>, m: Marker): (r: Option<Line>)
    requires Complete(g)
    ensures r.Some? ==> r.value in ls && DominatedBy(g, r.value, m)
  {
    if ls == [] then None
    else if DominatedBy(g, ls[0], m) then Some(ls[0])
    else FirstDominated(g, ls[1..], m)
  }

  /** FirstDominated finds the line of smallest index dominated by `m`, and
      finds none exactly when no line of `ls` is dominated by `m`. */
  lemma {:induction false} FirstDominatedIsFirst(g: Grid, ls: seq<Line>, m: Marker)
    requires Complete(g)
    ensures var r := FirstDominated(g, ls, m);
            r.Some? ==> exists i :: 0 <= i < |ls| && ls[i] == r.value && DominatedBy(g, ls[i], m) &&
                                    forall j :: 0 <= j < i ==> !DominatedBy(g, ls[j], m)
    ensures FirstDominated(g, ls, m).None? <==> forall i :: 0 <= i < |ls| ==> !DominatedBy(g, ls[i], m)
  {
    if ls == [] {
    } else if DominatedBy(g, ls[0], m) {
      assert FirstDominated(g, ls, m) == Some(ls[0]);
    } else {
      var rest := ls[1..];
      FirstDominatedIsFirst(g, rest, m);
      var r := FirstDominated(g, rest, m);
      assert FirstDominated(g, ls, m) == r;
      if r.Some? {
        var i :| 0 <= i < |rest| && rest[i] == r.value && DominatedBy(g, rest[i], m) &&
                 forall j :: 0 <= j < i ==> !DominatedBy(g, rest[j], m);
        assert ls[i + 1] == rest[i];
        forall j | 0 <= j < i + 1 ensures !DominatedBy(g, ls[j], m) {
          if j > 0 { assert ls[j] == rest[j - 1]; }
        }
      } else {
        forall i | 0 <= i < |ls| ensures !DominatedBy(g, ls[i], m) {
          if i > 0 { assert ls[i] == rest[i - 1]; }
        }
      }
    }
  }

  /** Board#line_dominated_by searches the threatened lines for one holding
      `m`: when the first `i` threatened lines do not hold `m` and the `i`th
      does, that line is the first line of `ls` dominated by `m`. */
  lemma {:induction false} SearchThreatenedFound(g: Grid, ls: seq<Line>, m: Marker, i: nat)
    requires Complete(g)
    requires i < |ThreatenedAmong(g, ls)|
    requires forall j :: 0 <= j < i ==> m !in ValuesAt(g, ThreatenedAmong(g, ls)[j])
    requires m in ValuesAt(g, ThreatenedAmong(g, ls)[i])
    ensures FirstDominated(g, ls, m) == Some(ThreatenedAmong(g, ls)[i])
  {
    var t := ThreatenedAmong(g, ls);
    var rest := ThreatenedAmong(g, ls[1..]);
    assert FirstDominated(g, ls, m) ==
      if DominatedBy(g, ls[0], m) then Some(ls[0]) else FirstDominated(g, ls[1..], m);
    if Threatened(g, ls[0]) {
      assert t == [ls[0]] + rest;
      if i > 0 {
        assert t[0] == ls[0];
        forall j | 0 <= j < i - 1 ensures m !in ValuesAt(g, rest[j]) {
          assert rest[j] == t[j + 1];
        }
        assert t[i] == rest[i - 1];
        SearchThreatenedFound(g, ls[1..], m, i - 1);
      }
    } else {
      assert t == rest;
      SearchThreatenedFound(g, ls[1..], m, i);
    }
  }

  /** When no threatened line holds `m`, no line is dominated by `m`. */
  lemma SearchThreatenedExhausted(g: Grid, ls: seq<Line>, m: Marker)
    requires Complete(g)
    requires forall j :: 0 <= j < |ThreatenedAmong(g, ls)| ==> m !in ValuesAt(g, ThreatenedAmong(g, ls)[j])
    ensures FirstDominated(g, ls, m) == None
  {
    var t := ThreatenedAmong(g, ls);
    forall i | 0 <= i < |ls| ensures !DominatedBy(g, ls[i], m) {
      if Threatened(g, ls[i]) {
        assert ls[i] in t;
        var j :| 0 <= j < |t| && t[j] == ls[i];
      }
    }
  }

  /** The marker of the first won line of `ls`, if any (Board#winning_marker
      returns the first square's marker of that line). */
  function FirstWinner(g: Grid, ls: seq<Line>): (r: Option<Marker>)
    requires Complete(g)
    ensures r.Some? ==> r.value != Blank
  {
    if ls == [] then None
    else if Won(g, ls[0]) then
      WonMeans(g, ls[0]);
      Some(g[ls[0][0]])
    else FirstWinner(g, ls[1..])
  }

  /** FirstWinner reports the first square's marker of the won line of
      smallest index, and reports nothing exactly when no line of `ls` is won. */
  lemma {:induction false} FirstWinnerIsFirst(g: Grid, ls: seq<Line>)
    requires Complete(g)
    ensures var r := FirstWinner(g, ls);
            r.Some? ==> exists i :: 0 <= i < |ls| && Won(g, ls[i]) && g[ls[i][0]] == r.value &&
                                    forall j :: 0 <= j < i ==> !Won(g, ls[j])
    ensures FirstWinner(g, ls).None? <==> forall i :: 0 <= i < |ls| ==> !Won(g, ls[i])
  {
    if ls == [] {
    } else if Won(g, ls[0]) {
      assert FirstWinner(g, ls) == Some(g[ls[0][0]]);
    } else {
      var rest := ls[1..];
      FirstWinnerIsFirst(g, rest);
      var r := FirstWinner(g, rest);
      assert FirstWinner(g, ls) == r;
      if r.Some? {
        var i :| 0 <= i < |rest| && Won(g, rest[i]) && g[rest[i][0]] == r.value &&
                 forall j :: 0 <= j < i ==> !Won(g, rest[j]);
        assert ls[i + 1] == rest[i];
        forall j | 0 <= j < i + 1 ensures !Won(g, ls[j]) {
          if j > 0 { assert ls[j] == rest[j - 1]; }
        }
      } else {
        forall i | 0 <= i < |ls| ensures !Won(g, ls[i]) {
          if i > 0 { assert ls[i] == rest[i - 1]; }
        }
      }
    }
  }

  /** The winning marker of the board. */
  function Winner(g: Grid): Option<Marker>
    requires Complete(g)
  {
    FirstWinner(g, WINNING_LINES)
  }

  /** The test that ends a round (TTTGame#play_game): someone has won or
      no square is unmarked. */
  ghost predicate RoundOver(g: Grid)
    requires Complete(g)
  {
    Winner(g).Some? || forall k :: g[k] != Blank
  }

  /** A line has an unmarked square. */
  predicate HasOpen(g: Grid, line: seq<Key>)
    requires Complete(g)
  {
    exists i :: 0 <= i < |line| && g[line[i]] == Blank
  }

  /** The first unmarked key of `line` (Board#available_key_in_line). */
  function FirstOpen(g: Grid, line: seq<Key>): (k: Key)
    requires Complete(g) && HasOpen(g, line)
    ensures g[k] == Blank && k in line
  {
    if g[line[0]] == Blank then line[0]
    else
      assert HasOpen(g, line[1..]) by {
        var i :| 0 <= i < |line| && g[line[i]] == Blank;
        assert line[1..][i - 1] == line[i];
      }
      FirstOpen(g, line[1..])
  }

  /** When the `i`th key of `line` is the first unmarked one, FirstOpen finds it. */
  lemma {:induction false} FirstOpenAt(g: Grid, line: seq<Key>, i: int)
    requires Complete(g) && 0 <= i < |line| && g[line[i]] == Blank
    requires forall j :: 0 <= j < i ==> g[line[j]] != Blank
    ensures HasOpen(g, line) && FirstOpen(g, line) == line[i]
  {
    if i > 0 {
      var rest := line[1..];
      assert rest[i - 1] == line[i];
      forall j | 0 <= j < i - 1 ensures g[rest[j]] != Blank {
        assert rest[j] == line[j + 1];
      }
      FirstOpenAt(g, rest, i - 1);
    }
  }

  /** A threatened line has exactly one unmarked square, and it is the one
      FirstOpen finds; the other two hold the same marker. */
  lemma ThreatenedOpen(g: Grid, l: Line)
    requires Complete(g) && Threatened(g, l)
    ensures HasOpen(g, l)
    ensures forall i :: 0 <= i < 3 && g[l[i]] == Blank ==> l[i] == FirstOpen(g, l)
    ensures forall i, j :: 0 <= i < 3 && 0 <= j < 3 && l[i] != FirstOpen(g, l) && l[j] != FirstOpen(g, l) ==>
              g[l[i]] != Blank && g[l[i]] == g[l[j]]
  {
    var a, b, c := g[l[0]], g[l[1]], g[l[2]];
    assert ValuesAt(g, l) == [a, b, c];
    ScoreOfThree(a, b, c);
    if a == Blank { FirstOpenAt(g, l, 0); } else if b == Blank { FirstOpenAt(g, l, 1); } else { FirstOpenAt(g, l, 2); }
  }

  /** Marking the open square of a line dominated by `m` with `m` wins that line. */
  lemma CompletingWins(g: Grid, l: Line, m: Marker)
    requires Complete(g) && DominatedBy(g, l, m) && m != Blank
    ensures HasOpen(g, l) && Won(g[FirstOpen(g, l) := m], l)
  {
    ThreatenedOpen(g, l);
    var k := FirstOpen(g, l);
    var g' := g[k := m];
    var i :| 0 <= i < 3 && ValuesAt(g, l)[i] == m;
    assert l[i] != k;
    forall j | 0 <= j < 3 ensures g'[l[j]] == m {
      if l[j] != k {
        assert g[l[j]] == g[l[i]];
      }
    }
    WonMeans(g', l);
  }

  /** Marking the open square of a line dominated by `m` with the other
      marker leaves that line neither threatened nor won. */
  lemma BlockingDefuses(g: Grid, l: Line, m: Marker, other: Marker)
    requires Complete(g) && DominatedBy(g, l, m) && m != Blank
    requires other != Blank && other != m
    ensures HasOpen(g, l)
    ensures !Threatened(g[FirstOpen(g, l) := other], l) && !Won(g[FirstOpen(g, l) := other], l)
  {
    ThreatenedOpen(g, l);
    var k := FirstOpen(g, l);
    var g' := g[k := other];
    var i :| 0 <= i < 3 && ValuesAt(g, l)[i] == m;
    assert l[i] != k;
    assert g'[l[i]] == m;
    forall j | 0 <= j < 3 ensures g'[l[j]] != Blank {
      if l[j] != k {
        assert g[l[j]] == g[l[i]];
      }
    }
    var k0 :| k0 in l && k0 == k;
    assert g'[k] == other;
    ThreatenedMeans(g', l);
    WonMeans(g', l);
  }

  /** A line won by another marker after `k` was marked with `m` does not
      contain `k`, so it was already won before. */
  lemma WonBefore(g: Grid, l: Line, k: Key, m: Marker)
    requires Complete(g)
    requires Won(g[k := m], l) && g[k := m][l[0]] != m
    ensures Won(g, l)
  {
    var g' := g[k := m];
    WonMeans(g', l);
    assert k !in l;
    assert ValuesAt(g, l) == ValuesAt(g', l);
  }

  /** On lines nobody has won, marking a square with `m` can only produce
      lines won by `m`. */
  lemma MoveWinsOnlyForMover(g: Grid, ls: seq<Line>, k: Key, m: Marker)
    requires Complete(g)
    requires FirstWinner(g, ls) == None
    ensures FirstWinner(g[k := m], ls) == None || FirstWinner(g[k := m], ls) == Some(m)
  {
    var g' := g[k := m];
    var w := FirstWinner(g', ls);
    FirstWinnerIsFirst(g, ls);
    FirstWinnerIsFirst(g', ls);
    if w.Some? && w.value != m {
      var i :| 0 <= i < |ls| && Won(g', ls[i]) && g'[ls[i][0]] == w.value;
      WonBefore(g, ls[i], k, m);
    }
  }

  /** The keys of `ks`, in order, whose square is marked (when `marked`) or
      unmarked (otherwise): the `select` of Board#marked_keys and
      Board#unmarked_keys. */
  function Select(g: Grid, ks: seq<Key>, marked: bool): (r: seq<Key>)
    requires Complete(g)
    ensures |r| <= |ks|
    ensures forall k :: k in r <==> k in ks && Marked(g[k]) == marked
  {
    if ks == [] then []
    else (if Marked(g[ks[0]]) == marked then [ks[0]] else []) + Select(g, ks[1..], marked)
  }

  /** When every key qualifies, selecting keeps all keys in their order. */
  lemma {:induction false} SelectAll(g: Grid, ks: seq<Key>, marked: bool)
    requires Complete(g)
    requires forall i :: 0 <= i < |ks| ==> Marked(g[ks[i]]) == marked
    ensures Select(g, ks, marked) == ks
  {
    if ks != [] {
      SelectAll(g, ks[1..], marked);
    }
  }

  predicate Distinct(ks: seq<Key>)
  {
    forall i, j :: 0 <= i < j < |ks| ==> ks[i] != ks[j]
  }

  lemma KeyOrderDistinct()
    ensures Distinct(KEY_ORDER)
  {
  }

  /** Marking one unmarked key of a list without repetitions removes exactly
      one key from the unmarked keys. */
  lemma {:induction false} SelectMark(g: Grid, ks: seq<Key>, k: Key, m: Marker)
    requires Complete(g) && Distinct(ks) && g[k] == Blank && m != Blank
    ensures |Select(g[k := m], ks, false)| + (if k in ks then 1 else 0) == |Select(g, ks, false)|
    ensures forall k' :: k' in Select(g[k := m], ks, false) <==> k' in Select(g, ks, false) && k' != k
  {
    if ks != [] {
      assert Distinct(ks[1..]) by {
        forall i, j | 0 <= i < j < |ks[1..]| ensures ks[1..][i] != ks[1..][j] {
          assert ks[1..][i] == ks[i + 1] && ks[1..][j] == ks[j + 1];
        }
      }
      SelectMark(g, ks[1..], k, m);
      if ks[0] == k {
        assert k !in ks[1..] by {
          forall i | 0 <= i < |ks[1..]| ensures ks[1..][i] != k {
            assert ks[1..][i] == ks[i + 1];
          }
        }
      } else {
        assert k in ks <==> k in ks[1..];
      }
    }
  }

  /** On a board with every square unmarked nobody has won. */
  lemma BlankBoardNoWinner(g: Grid)
    requires Complete(g) && forall k :: g[k] == Blank
    ensures Winner(g) == None
  {
    FirstWinnerIsFirst(g, WINNING_LINES);
    forall i | 0 <= i < |WINNING_LINES| ensures !Won(g, WINNING_LINES[i]) {
      WonMeans(g, WINNING_LINES[i]);
    }
  }

  /** On a board with every square unmarked, every key of KEY_ORDER is
      unmarked, in that order. */
  lemma BlankBoardUnmarked(g: Grid)
    requires Complete(g) && forall k :: g[k] == Blank
    ensures Select(g, KEY_ORDER, false) == KEY_ORDER
  {
    SelectAll(g, KEY_ORDER, false);
  }
}
