/** The nine square keys of the board: columns A to C, rows 1 to 3. */
module Keys {
  import opened Options
  import opened Markers

  datatype Key = A1 | B1 | C1 | A2 | B2 | C2 | A3 | B3 | C3

  /** The order in which Board#reset first inserts the keys into its hash:
      row by row, and within a row column A, B, C. */
  const KEY_ORDER: seq<Key> := [A1, B1, C1, A2, B2, C2, A3, B3, C3]

  /** The string the Ruby hash uses as the key. */
  function Name(k: Key): string
  {
    match k
    case A1 => "A1" case B1 => "B1" case C1 => "C1"
    case A2 => "A2" case B2 => "B2" case C2 => "C2"
    case A3 => "A3" case B3 => "B3" case C3 => "C3"
  }

  /** The key a string names, if it names one: the inverse of Name. */
  function Parse(s: string): (r: Option<Key>)
    ensures forall k :: r == Some(k) <==> Name(k) == s
  {
    if s == "A1" then Some(A1) else if s == "B1" then Some(B1)
    else if s == "C1" then Some(C1) else if s == "A2" then Some(A2)
    else if s == "B2" then Some(B2) else if s == "C2" then Some(C2)
    else if s == "A3" then Some(A3) else if s == "B3" then Some(B3)
    else if s == "C3" then Some(C3) else None
  }

  /** Position of a key in KEY_ORDER. */
  function Index(k: Key): (i: nat)
    ensures i < |KEY_ORDER| && KEY_ORDER[i] == k
  {
    match k
    case A1 => 0 case B1 => 1 case C1 => 2
    case A2 => 3 case B2 => 4 case C2 => 5
    case A3 => 6 case B3 => 7 case C3 => 8
  }

  /** The key at position `n` of KEY_ORDER has index `n`. */
  lemma IndexOfPosition(n: int)
    requires 0 <= n < |KEY_ORDER|
    ensures Index(KEY_ORDER[n]) == n
  {
  }

  lemma EveryKeyListed()
    ensures forall k: Key :: k in KEY_ORDER
  {
    forall k: Key ensures k in KEY_ORDER {
      assert KEY_ORDER[Index(k)] == k;
    }
  }

  /** The string `"#{col}#{row}"` that the nested loops of Board#reset build,
      with `col` counted 0, 1, 2 for 'A', 'B', 'C'. */
  function Spell(col: int, row: int): string
    requires 0 <= col < 3 && 1 <= row <= 3
  {
    [('A' as int + col) as char, ('0' as int + row) as char]
  }

  /** The spelled key of row `row`, column `col` is the key at position
      3 * (row - 1) + col of KEY_ORDER. */
  lemma {:induction false} SpellOrder(col: int, row: int)
    requires 0 <= col < 3 && 1 <= row <= 3
    ensures Parse(Spell(col, row)) == Some(KEY_ORDER[3 * (row - 1) + col])
    ensures Index(KEY_ORDER[3 * (row - 1) + col]) == 3 * (row - 1) + col
  {
    var c := ('A' as int + col) as char;
    var r := ('0' as int + row) as char;
    assert Spell(col, row) == [c, r];
    if row == 1 {
      if col == 0 { assert [c, r] == "A1"; } else if col == 1 { assert [c, r] == "B1"; } else { assert [c, r] == "C1"; }
    } else if row == 2 {
      if col == 0 { assert [c, r] == "A2"; } else if col == 1 { assert [c, r] == "B2"; } else { assert [c, r] == "C2"; }
    } else {
      if col == 0 { assert [c, r] == "A3"; } else if col == 1 { assert [c, r] == "B3"; } else { assert [c, r] == "C3"; }
    }
  }
}
