/** Board: the `@squares` hash from key to square, updated in place. */
module Boards {
  import opened Options
  import opened Markers
  import opened Keys
  import opened Lines

  /** The hash after reset has stored the first `n` keys of KEY_ORDER: the
      keys inserted so far (all nine if the hash was not empty), and those
      `n` squares unmarked. */
  ghost predicate ResetState(keys: seq<Key>, squares: Grid, n: int, wasEmpty: bool)
    requires 0 <= n <= 9
  {
    (if wasEmpty then keys == KEY_ORDER[..n] else keys == KEY_ORDER) &&
    (forall k :: k in squares <==> !wasEmpty || Index(k) < n) &&
    (forall k :: k in squares && Index(k) < n ==> squares[k] == Blank)
  }

  /** Storing an unmarked square under the next key of KEY_ORDER advances
      the reset by one key. */
  lemma ResetStep(keys: seq<Key>, squares: Grid, n: int, wasEmpty: bool)
    requires 0 <= n < 9 && ResetState(keys, squares, n, wasEmpty)
    ensures var k := KEY_ORDER[n];
            ResetState(if k in squares then keys else keys + [k], squares[k := Blank], n + 1, wasEmpty)
  {
    var k := KEY_ORDER[n];
    IndexOfPosition(n);
    if wasEmpty {
      assert k !in squares;
      assert KEY_ORDER[..n + 1] == KEY_ORDER[..n] + [k];
    }
  }

  class Board {
    /** The keys of `@squares`, in the hash's insertion order. */
    var keys: seq<Key>
    /** `@squares`, each square reduced to its marker. */
    var squares: Grid

    /** Once built, the hash holds the nine keys in the order reset created them. */
    ghost predicate Valid()
      reads this
    {
      keys == KEY_ORDER && Complete(squares)
    }

    /** Board.new: an empty hash, then reset. */
    constructor ()
      ensures Valid()
      ensures forall k :: squares[k] == Blank
    {
      keys := [];
      squares := map[];
      new;
      Reset();
    }

    /** After the first `n` keys of KEY_ORDER have been stored by reset. */
    ghost predicate ResetUpTo(n: int, wasEmpty: bool)
      reads this
      requires 0 <= n <= 9
    {
      ResetState(keys, squares, n, wasEmpty)
    }

    /** Board#reset: for rows 1 to 3 and columns A to C, store a fresh
        unmarked square under "#{col}#{row}". On the empty hash of the
        constructor this inserts the keys in row-major order; afterwards it
        only replaces the squares of the existing keys. */
    method Reset()
      requires (keys == [] && squares == map[]) || Valid()
      modifies this
      ensures Valid()
      ensures old(keys) != [] ==> keys == old(keys)
      ensures forall k :: squares[k] == Blank
      ensures UnmarkedKeys() == KEY_ORDER && !Full()
    {
      ghost var wasEmpty := keys == [];
      for row := 1 to 4
        invariant ResetUpTo(3 * (row - 1), wasEmpty)
      {
        ResetRow(row, wasEmpty);
      }
      assert keys == KEY_ORDER by {
        assert KEY_ORDER[..9] == KEY_ORDER;
      }
      BlankBoardUnmarked(squares);
    }

    /** One pass of the inner loop of Board#reset: columns A to C of `row`. */
    method ResetRow(row: int, ghost wasEmpty: bool)
      requires 1 <= row <= 3 && ResetUpTo(3 * (row - 1), wasEmpty)
      modifies this
      ensures ResetUpTo(3 * row, wasEmpty)
    {
      for col := 0 to 3
        invariant ResetUpTo(3 * (row - 1) + col, wasEmpty)
      {
        SpellOrder(col, row);
        var key := Parse(Spell(col, row)).value;
        ResetStep(keys, squares, 3 * (row - 1) + col, wasEmpty);
        Store(key, Blank);
      }
    }

    /** Hash#[]= on `@squares`: a new key goes after the existing ones. */
    method Store(key: Key, m: Marker)
      modifies this
      ensures keys == if key in old(squares) then old(keys) else old(keys) + [key]
      ensures squares == old(squares)[key := m]
    {
      if key !in squares {
        keys := keys + [key];
      }
      squares := squares[key := m];
    }

    /** Board#[]=: the square under `key` takes marker `m`; nothing else changes. */
    method Set(key: Key, m: Marker)
      requires Valid()
      modifies this
      ensures Valid()
      ensures squares == old(squares)[key := m]
    {
      squares := squares[key := m];
    }

    /** Board#[]: the square (here its marker) under a key string, or nil for
        a string that is not a key. */
    function Get(s: string): (r: Option<Marker>)
      reads this
      requires Valid()
      ensures r.None? <==> forall k :: Name(k) != s
      ensures forall k :: Name(k) == s ==> r == Some(squares[k])
    {
      match Parse(s)
      case Some(k) => Some(squares[k])
      case None => None
    }

    /** Board#marked_keys. */
    function MarkedKeys(): (r: seq<Key>)
      reads this
      requires Valid()
      ensures forall k :: k in r <==> squares[k] != Blank
    {
      EveryKeyListed();
      Select(squares, keys, true)
    }

    /** Board#unmarked_keys. */
    function UnmarkedKeys(): (r: seq<Key>)
      reads this
      requires Valid()
      ensures |r| <= 9
      ensures forall k :: k in r <==> squares[k] == Blank
    {
      EveryKeyListed();
      Select(squares, keys, false)
    }

    /** Board#square_is_marked?: the string is among the marked keys. */
    function SquareIsMarked(s: string): (r: bool)
      reads this
      requires Valid()
      ensures r <==> exists k :: Name(k) == s && squares[k] != Blank
    {
      var p := Parse(s);
      p.Some? && p.value in MarkedKeys()
    }

    /** Board#valid_square_key?: the string is a key of the hash. */
    function ValidSquareKey(s: string): (r: bool)
      reads this
      requires Valid()
      ensures r <==> exists k :: Name(k) == s
    {
      var p := Parse(s);
      p.Some? && p.value in keys
    }

    /** Board#full?: no key is unmarked. */
    function Full(): (r: bool)
      reads this
      requires Valid()
      ensures r <==> forall k :: squares[k] != Blank
    {
      var open := UnmarkedKeys();
      assert open != [] ==> squares[open[0]] == Blank;
      open == []
    }

    /** Board#threatened_lines: the winning lines, in order, on which
        total_identical_makers is 2. */
    method ThreatenedLines() returns (r: seq<Line>)
      requires Valid()
      ensures r == ThreatenedAmong(squares, WINNING_LINES)
    {
      r := [];
      for i := 0 to |WINNING_LINES|
        invariant r == ThreatenedAmong(squares, WINNING_LINES[..i])
      {
        var line := WINNING_LINES[i];
        var markers := ValuesAt(squares, line);
        assert WINNING_LINES[..i + 1] == WINNING_LINES[..i] + [line];
        ThreatenedAmongSnoc(squares, WINNING_LINES[..i], line);
        if TotalIdenticalMarkers(markers) == 2 {
          r := r + [line];
        }
      }
      assert WINNING_LINES[..|WINNING_LINES|] == WINNING_LINES;
    }

    /** Board#line_dominated_by: the first threatened line whose markers
        include the player's marker `m`, or nil. */
    method LineDominatedBy(m: Marker) returns (r: Option<Line>)
      requires Valid()
      ensures r == FirstDominated(squares, WINNING_LINES, m)
    {
      var lines := ThreatenedLines();
      for i := 0 to |lines|
        invariant forall j :: 0 <= j < i ==> m !in ValuesAt(squares, lines[j])
      {
        var markers := ValuesAt(squares, lines[i]);
        if m in markers {
          SearchThreatenedFound(squares, WINNING_LINES, m, i);
          return Some(lines[i]);
        }
      }
      SearchThreatenedExhausted(squares, WINNING_LINES, m);
      return None;
    }

    /** Board#available_key_in_line: the first key of the line that is among
        the unmarked keys. The line must have one (on a fully marked line the
        Ruby method falls through and returns the line itself). */
    method AvailableKeyInLine(line: Line) returns (k: Key)
      requires Valid() && HasOpen(squares, line)
      ensures k == FirstOpen(squares, line)
    {
      var i := 0;
      while line[i] !in UnmarkedKeys()
        invariant 0 <= i < 3
        invariant forall j :: 0 <= j < i ==> squares[line[j]] != Blank
        decreases 3 - i
      {
        i := i + 1;
      }
      FirstOpenAt(squares, line, i);
      k := line[i];
    }

    /** Board#winning_marker: the first square's marker of the first line on
        which total_identical_makers is 3, or nil. */
    method WinningMarker() returns (r: Option<Marker>)
      requires Valid()
      ensures r == Winner(squares)
    {
      for i := 0 to |WINNING_LINES|
        invariant forall j :: 0 <= j < i ==> !Won(squares, WINNING_LINES[j])
      {
        var markers := ValuesAt(squares, WINNING_LINES[i]);
        if TotalIdenticalMarkers(markers) == 3 {
          FirstWinnerIsFirst(squares, WINNING_LINES);
          return Some(markers[0]);
        }
      }
      FirstWinnerIsFirst(squares, WINNING_LINES);
      return None;
    }

    /** Board#someone_won?: there is a winning marker. */
    method SomeoneWon() returns (r: bool)
      requires Valid()
      ensures r <==> Winner(squares).Some?
    {
      var w := WinningMarker();
      r := w.Some?;
    }
  }
}
