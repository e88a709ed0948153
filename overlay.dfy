/** What both renderers draw, stated as abstract blocks in the template's design
    units instead of SVG markup. The renderers scale design units by the ratio of
    the template's pixel size to the design size and sometimes add unscaled pixel
    offsets to the result, so a vertical position is kept as both parts. */
module Overlay {

  /** The position `scaled * scale + raw` on a template whose scale factor is `scale`. */
  datatype Coord = Coord(scaled: int, raw: int)

  /** `a` is higher up than `b` whatever positive scale factor the template has. */
  predicate Above(a: Coord, b: Coord)
  {
    a.scaled <= b.scaled && a.raw <= b.raw && a != b
  }

  /** A block of the overlay: where its box starts and what it shows. */
  datatype Placed<T> = Placed(top: Coord, value: T)

  /** An array element that may be missing: `undefined > 0` is false, as `0 > 0` is. */
  function NumberAt(xs: seq<int>, i: nat): int
  {
    if i < |xs| then xs[i] else 0
  }

  predicate Increasing(xs: seq<int>)
  {
    forall j, k :: 0 <= j < k < |xs| ==> xs[j] < xs[k]
  }

  /** A strictly increasing sequence is determined by the values it holds, so a
      row loop that draws each selected item once, in item order, has exactly one
      possible outcome. */
  lemma {:induction false} IncreasingUnique(a: seq<int>, b: seq<int>)
    requires Increasing(a) && Increasing(b)
    requires forall x :: x in a <==> x in b
    ensures a == b
    decreases |a|
  {
    if a == [] {
      if b != [] {
        HeadIn(b);
        assert false;
      }
    } else if b == [] {
      HeadIn(a);
      assert false;
    } else {
      assert a[0] in a && b[0] in b;
      assert a[0] in b && b[0] in a;
      assert a[0] == b[0];
      forall x
        ensures x in a[1..] <==> x in b[1..]
      {
        if x in a[1..] {
          assert x in b;
          assert x != b[0];
        }
        if x in b[1..] {
          assert x in a;
          assert x != a[0];
        }
      }
      IncreasingUnique(a[1..], b[1..]);
      assert a == [a[0]] + a[1..];
      assert b == [b[0]] + b[1..];
    }
  }

  lemma HeadIn(xs: seq<int>)
    requires xs != []
    ensures xs[0] in xs
  {
  }
}
