/** TTTGame#joinor: the list formatter behind the "Choose a square" prompt. */
module Formatting {

  /** Array#join on an array of strings: the items with `sep` between
      neighbours. */
  function Join(xs: seq<string>, sep: string): string
  {
    if |xs| == 0 then ""
    else if |xs| == 1 then xs[0]
    else xs[0] + sep + Join(xs[1..], sep)
  }

  /** The total length of the items. */
  function TotalLength(xs: seq<string>): nat
  {
    if xs == [] then 0 else |xs[0]| + TotalLength(xs[1..])
  }

  /** The joined string is as long as the items together plus one
      separator for each pair of neighbours. */
  lemma {:induction false} JoinLength(xs: seq<string>, sep: string)
    requires |xs| >= 1
    ensures |Join(xs, sep)| == TotalLength(xs) + (|xs| - 1) * |sep|
  {
    if |xs| >= 2 {
      JoinLength(xs[1..], sep);
    }
  }

  /** Joining one more item appends a separator and the item. */
  lemma {:induction false} JoinSnoc(xs: seq<string>, x: string, sep: string)
    requires |xs| >= 1
    ensures Join(xs + [x], sep) == Join(xs, sep) + sep + x
  {
    var ys := xs + [x];
    assert ys[0] == xs[0];
    if |xs| == 1 {
      assert ys[1..] == [x];
    } else {
      assert ys[1..] == xs[1..] + [x];
      JoinSnoc(xs[1..], x, sep);
    }
  }

  /** TTTGame#joinor: no item gives "", one item gives that item, two are
      joined by " or " (with `finalJoin` for "or"); from three on, the last
      item of the array is overwritten in place with "or <item>" and the
      array is joined by `delimiter`. */
  method JoinOr(a: array<string>, delimiter: string, finalJoin: string) returns (r: string)
    modifies a
    ensures a.Length < 3 ==> a[..] == old(a[..])
    ensures a.Length >= 3 ==>
              a[..] == old(a[..])[a.Length - 1 := finalJoin + " " + old(a[a.Length - 1])]
    ensures a.Length == 0 ==> r == ""
    ensures a.Length == 1 ==> r == old(a[0])
    ensures a.Length == 2 ==> r == old(a[0]) + " " + finalJoin + " " + old(a[1])
    ensures a.Length >= 3 ==>
              r == Join(old(a[..a.Length - 1]), delimiter) + delimiter +
                   finalJoin + " " + old(a[a.Length - 1])
  {
    if a.Length == 0 {
      r := "";
    } else if a.Length == 1 {
      r := a[0];
    } else if a.Length == 2 {
      JoinSnoc([a[0]], a[1], " " + finalJoin + " ");
      assert a[..] == [a[0]] + [a[1]];
      r := Join(a[..], " " + finalJoin + " ");
    } else {
      ghost var items := a[..];
      a[a.Length - 1] := finalJoin + " " + a[a.Length - 1];
      assert a[..] == items[..a.Length - 1] + [a[a.Length - 1]];
      JoinSnoc(items[..a.Length - 1], a[a.Length - 1], delimiter);
      r := Join(a[..], delimiter);
    }
  }
}
