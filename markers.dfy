/** The marker a square holds. A Ruby `Square` is an object whose only state
    is its marker string; the board never shares one square between two keys,
    so a square is modelled by the value of its marker. */
module Markers {

  /** `Blank` is `Square::INITIAL_MARKER`, the one-space string; `X` and `O` are
      the two markers `choose_marker` can hand out. */
  datatype Marker = Blank | X | O

  const INITIAL_MARKER: Marker := Blank

  /** Square#unmarked?: the square holds neither X nor O. */
  predicate Unmarked(m: Marker)
    ensures Unmarked(m) <==> !(m == X || m == O)
  {
    m == INITIAL_MARKER
  }

  /** Square#marked?: the square holds X or O, and so is not unmarked. */
  predicate Marked(m: Marker)
    ensures Marked(m) <==> m == X || m == O
    ensures Marked(m) <==> !Unmarked(m)
  {
    m != INITIAL_MARKER
  }

  /** The marker the computer gets when the human picks `m` (choose_marker). */
  function Other(m: Marker): (r: Marker)
    requires m == X || m == O
    ensures r != m && (r == X || r == O)
  {
    if m == X then O else X
  }
}
